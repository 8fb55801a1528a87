# Conference speaker search backend: session parser and per-IP search quota

The backend is a small Flask service that finds conference speakers for a free-text
query. This project models the parts of `backend/app.py` that do their own work rather
than delegate it:

- **`format_sessions`** turns a speaker's `sessions` field into records. The field holds
  pieces joined by `" | "`, and each piece looks like
  `Title (Role) - [🔗 Session Link](url)`. Each record is `{title, role, url}`.
- **The search ledger.** The `search_history` table holds one search count per IP
  address.
  - `track_search` inserts a count of 1 or adds one to the count.
  - `get_remaining_searches` gives what is left of a cap (default 100), never below 0.
- **The endpoints.**
  - `GET /remaining-searches` reports the caller's allowance.
  - `POST /search` checks its inputs in a fixed order:
    1. a body that is not an object, or a query that is not a string, is a 500;
    2. a blank query is a 400;
    3. an exhausted address is a 429.

    Otherwise it runs the search, charges one search, formats the result rows and
    returns them with the new allowance.

  Both endpoints identify the caller by the `X-Forwarded-For` header when it is
  non-empty, and otherwise by the socket's remote address.

## Modules

| file | module | contents |
|---|---|---|
| `wrappers.dfy` | `Wrappers` | `Option`, `Result`, and `MapAll`, which maps a fallible function over a sequence and stops at the first error |
| `strings.dfy` | `Strings` | Python's `str.split`, `rsplit(sep, 1)`, `strip()`, `rstrip(chars)` and `in`, over `seq<char>` |
| `sessions.dfy` | `Sessions` | `format_sessions`, plus a renderer and the lemmas that the parser reads its output back |
| `quota.dfy` | `Quota` | the ledger as `map<string, nat>`, `get_remaining_searches`, and the class `SearchLimits` whose `TrackSearch` updates it in place |
| `api.dfy` | `Api` | caller-IP selection, the two endpoints, and the conversion of result rows |

The search engine, `backend/search.py`, is the parameter `search` of
`Api.SearchSpeakersApi`. It is a function from (query, `top_k`) to either a frame of
rows or `Raised`.

## Behaviour worth knowing

- **Default cap.** The code's default cap is 100 searches (`backend/app.py:61`). The
  model uses 100.
- **Forwarded header.** The header is used only when it is truthy, i.e. present and
  non-empty (`backend/app.py:113`, `:134`). An empty `X-Forwarded-For` falls back to
  the remote address. The model follows the code.
- **Charge before formatting.** The charge (`backend/app.py:152`) comes before the
  session formatting (`:162`). A sessions field that `format_sessions` cannot unpack
  therefore produces a 500 and still costs the caller a search. The model keeps this
  order.

## Model

| member | source | states |
|---|---|---|
| Strings.RStrip | backend/app.py:91 | `rstrip(chars)`: the result is a prefix of the input; everything cut off is in `chars`; the result does not end in one |
| Strings.Strip | backend/app.py:99-100 | `strip()`: the result starts and ends outside the stripped set and is no longer than the input |
| Strings.StripCuts | backend/app.py:99-100 | what `strip()` keeps is one stretch of the input; everything before and after it is in the stripped set; the result is empty exactly when every character is |
| Strings.StripIdempotent | backend/app.py:99-100 | stripping twice is the same as stripping once |
| Strings.LastOccurrence | backend/app.py:86 | the index `rsplit(sep, 1)` cuts at: an occurrence with none to its right; None exactly when `sep in s` is false |
| Strings.FirstOccurrenceFrom | backend/app.py:81 | the leftmost occurrence at or after a start index, and no occurrence before it |
| Strings.Split | backend/app.py:81 | `split(sep)`: at least one piece; the pieces joined by `sep` give back the input; no piece contains `sep`; no separator starts inside any piece but the last, so every cut is at the leftmost remaining occurrence |
| Strings.SplitJoin | backend/app.py:81 | splitting pieces joined by the separator returns those pieces, provided no separator can start inside a piece |
| Sessions.SplitLink | backend/app.py:86 | without the link marker, the whole piece and no URL part; with it, the piece is title part + marker + URL part, and the URL part holds no further marker |
| Sessions.SplitRole | backend/app.py:89-93 | fails exactly when the title part has `(` and `)` but no `" ("`; without `(` or `)` the whole part is the title and there is no role; a role never ends in `)` |
| Sessions.ParseSession | backend/app.py:84-102 | one loop iteration: the title is whitespace-stripped; a role is stripped; a URL never ends in `)`; a piece without the marker has no URL |
| Sessions.ParsedUrl | backend/app.py:86-96 | the URL is the text after the last marker, with all trailing `)` removed; it is None when nothing follows the marker |
| Sessions.ParsedRole | backend/app.py:89-100 | a title part with `(` and `)` is cut at its last `" ("`: the title is the stripped text before it; the role is the text after it with `)` then whitespace stripped, and None if empty |
| Sessions.ParsedWithoutRole | backend/app.py:89-100 | a title part lacking `(` or `)` parses, its stripped self is the title, and there is no role |
| Sessions.UnpackErrorCause | backend/app.py:86-90 | a piece fails exactly when its title part (before the last link marker) holds `(` and `)` but no `" ("`; hence only if the piece holds both; without a link, exactly when the piece lacks `" ("`; a failing piece holds `" ("` only inside its URL part |
| Sessions.NoRoleOpenerBeforeLink | backend/app.py:86-90 | `" ("` cannot straddle or sit inside the link marker, so it is in a linked piece only if it is in the title part or the URL part |
| Sessions.UnpackErrorExample | backend/app.py:89-90 | `"Panel(Host)"` makes the two-value unpacking fail |
| Sessions.Formatted | backend/app.py:77-104 | None or `""` gives `[]`; otherwise success exactly when every `" \| "`-piece parses, with one record per piece in input order, each the parse of its piece |
| Sessions.ParsePieces | backend/app.py:84-104 | the loop that appends one record per piece: success iff every piece parses; then as many records as pieces, in order, each the parse of its piece |
| Sessions.FormatSessions | backend/app.py:77-104 | the method agrees with `Formatted` on every input, error included |
| Sessions.LinkOfRender | backend/app.py:86 | in a well-formed rendered session, the marker is found only where the URL was written |
| Sessions.RoleOfRender | backend/app.py:89-91 | the role step reads back the title and role that were written |
| Sessions.ParseRender | backend/app.py:84-102 | a well-formed session, rendered and parsed, comes back unchanged |
| Sessions.RenderSeparatorFree | backend/app.py:81 | no `" \| "` can start inside a well-formed rendered session |
| Sessions.FormatRenderAll | backend/app.py:77-104 | formatting a field rendered from well-formed sessions returns exactly those sessions, in order |
| Quota.Remaining | backend/app.py:61-74 | the full cap for an unknown IP; for a known IP, zero exactly when the count has reached the cap, and otherwise count + remaining = cap; always in `[0, cap]` |
| Quota.Tracked | backend/app.py:36-52 | the IP gains a row if it had none; its count is the old count (0 if absent) plus one; every other row is unchanged |
| Quota.TrackedChargesOne | backend/app.py:138-155 | charging an IP that had searches left lowers its allowance by exactly one |
| Quota.TrackedLeavesOthers | backend/app.py:41-52 | charging one IP leaves every other IP's allowance unchanged |
| Quota.TrackedTimesRemaining | backend/app.py:32-74 | after `n` charges the count has risen by `n`, and the allowance is `max(0, cap - old count - n)` |
| Quota.FreshAddressAdmittedUntilCap | backend/app.py:61-74 | a new IP has searches left exactly while fewer than 100 have been charged to it |
| Quota.SearchLimits.constructor | backend/app.py:14-29 | `CREATE TABLE IF NOT EXISTS` keeps whatever rows already exist |
| Quota.SearchLimits.TrackSearch | backend/app.py:32-58 | the table becomes `Tracked(old table, ip)`; the returned count is the stored one, the old count plus one |
| Api.ClientIp | backend/app.py:110-114 | the header value when it is present and non-empty, otherwise the remote address |
| Api.RequestQuery | backend/app.py:123-124 | a query exists iff the body is an object and the query is not a non-string; a text query becomes its `strip()`; a missing key gives `""` |
| Api.BlankQuery | backend/app.py:124-128 | a text query is taken as missing exactly when every character is whitespace (the empty string included) |
| Api.TopK | backend/app.py:125 | the body's `top_k`, or 5 when the key is missing |
| Api.StatusCode | backend/app.py:127-179 | 200 for results, 400 for a missing query, 429 for an exhausted quota, 500 for any caught exception, and nothing else |
| Api.ConvertRow | backend/app.py:161-165 | one row succeeds iff the frame has no sessions column or its cell formats; the record keeps the row's cells and holds the formatted sessions exactly when the column exists |
| Api.ConvertResults | backend/app.py:158-165 | success iff every sessions cell formats (always, when the frame has no sessions column); then one record per row in order, with the row's cells, and sessions present iff the column exists and equal to `format_sessions` of the cell |
| Api.CheckRemainingSearches | backend/app.py:107-117 | the allowance of the caller's IP in the current table, within `[0, 100]` |
| Api.SearchSpeakersApi | backend/app.py:120-179 | the result for each case below |

`Api.SearchSpeakersApi` gives these results:

- An unreadable body or a non-string query gives 500 with that failure.
- A missing query, or one that is empty or all whitespace, gives 400 (`StatusCode`
  400 exactly then).
- An admitted request whose search raises gives 500.
- A request whose search returns gets charged one search, and its table becomes
  `Tracked(old, ip)`. Every other path leaves the table unchanged.
- The response is a 500 for a sessions failure exactly when the search returned a
  frame that does not format.
- The status is 200 exactly when the request was admitted and the search returned a
  frame whose sessions all format. A 200 reports the old allowance minus one, and its
  records are the converted rows.

## Left out

- **The search.** `backend/search.py` is not part of this model. It calls the OpenAI
  embeddings API, computes cosine similarity in floating point and does fuzzy
  matching. Here it is a parameter that returns a frame or raises.
- **SQLite plumbing.** Connections, cursors and commits (`backend/app.py:15-26`,
  `:33-34`, `:54-55`) are replaced by the map field `SearchLimits.history`.
- **Timestamps.** `last_updated` holds `datetime.now()` values that are never read
  back, so it is not modelled.
- **Concurrency.** Two requests can race between reading and writing a count
  (`backend/app.py:37-52`). Each request is treated as atomic.
- **pandas details.**
  - The NaN to None replacement (`backend/app.py:158`) is left out: a sessions cell is
    `Option<string>`.
  - Cells other than sessions are opaque strings.
  - The column order and the dtype of `to_dict` are not modelled.
- **Flask plumbing.** `jsonify`, routing, CORS, the `print` logging and the text of
  exception messages are left out. A 500 carries only which step failed.
- **Request body.** `top_k` is passed through to the search as an integer, and its
  validation is the search's own business. A JSON body's other shapes all count as
  "not an object".
- Sessions.Formatted: truthiness is modelled only for strings and None. A
  non-string sessions cell, such as a float NaN that survived the replacement, is not
  modelled.
- Sessions.ParseSession: its own contract states the shape of the result. The
  exact title, role and URL are stated by `ParsedUrl`, `ParsedRole` and
  `ParsedWithoutRole`.
