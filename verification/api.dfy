/**
 * The two HTTP endpoints of backend/app.py, without Flask: `GET /remaining-searches`
 * reports the caller's allowance, and `POST /search` checks the query, then the quota,
 * then runs the search, charges one search and formats the results.
 */
module Api {
  import opened Wrappers
  import opened Strings
  import opened Sessions
  import opened Quota

  /** What `data.get("query", "")` finds in the JSON body. */
  datatype QueryField = Absent | Text(s: string) | NotText

  /**
   * The result of `request.get_json()`: a JSON object, or anything `.get` cannot be called
   * on (no JSON at all, `null`, a list, a number).
   */
  datatype Body = NotAnObject | Object(query: QueryField, topK: Option<int>)

  /** The parts of a request the endpoints read. */
  datatype Request = Request(body: Body, remoteAddr: string, forwardedFor: Option<string>)

  /** One row of the DataFrame the search returns: its sessions cell, and the other cells. */
  datatype SpeakerRow = SpeakerRow(fields: map<string, string>, sessions: Option<string>)

  /** The DataFrame the search returns; an empty one has no "sessions" column. */
  datatype Frame = Frame(hasSessions: bool, rows: seq<SpeakerRow>)

  /** `search.search_speakers(query, top_k)`: returns a frame or raises. */
  datatype SearchOutcome = Raised | Returned(frame: Frame)

  /** One result record; `sessions` is None when the frame had no "sessions" column. */
  datatype Speaker = Speaker(fields: map<string, string>, sessions: Option<seq<Session>>)

  /** What the `except Exception` clause caught. */
  datatype Failure = BodyNotObject | QueryNotText | SearchRaised | SessionsUnpack

  datatype Response =
    | Found(results: seq<Speaker>, remaining: int)
    | QueryRequired
    | LimitReached
    | InternalError(failure: Failure)

  /** The HTTP status each response is sent with. */
  function StatusCode(r: Response): (code: int)
    ensures code == 200 <==> r.Found?
    ensures code == 400 <==> r.QueryRequired?
    ensures code == 429 <==> r.LimitReached?
    ensures code == 500 <==> r.InternalError?
  {
    match r
    case Found(_, _) => 200
    case QueryRequired => 400
    case LimitReached => 429
    case InternalError(_) => 500
  }

  /** `top_k` when the body gives none. */
  const DefaultTopK: int := 5

  /**
   * The caller's address: the X-Forwarded-For header when it is present and not empty
   * (the Python code tests it for truth), otherwise the socket's remote address.
   */
  function ClientIp(req: Request): (ip: string)
    ensures ip == req.remoteAddr || Some(ip) == req.forwardedFor
    ensures req.forwardedFor.Some? && req.forwardedFor.value != [] ==> ip == req.forwardedFor.value
    ensures ip != req.remoteAddr ==> req.forwardedFor == Some(ip) && ip != []
  {
    if req.forwardedFor.Some? && req.forwardedFor.value != [] then req.forwardedFor.value
    else req.remoteAddr
  }

  /**
   * `data.get("query", "").strip()`: the stripped query, "" when the key is missing, and an
   * exception when the body is not an object or the query is not a string.
   */
  function RequestQuery(body: Body): (r: Result<string, Failure>)
    ensures r.Ok? <==> body.Object? && !body.query.NotText?
    ensures r.Ok? ==> IsStripped(r.value, Whitespace)
    ensures body.Object? && body.query.Absent? ==> r == Ok([])
    ensures body.Object? && body.query.Text? ==> r == Ok(Strip(body.query.s, Whitespace))
    ensures body.Object? && body.query.Text? ==> r.Ok? && |r.value| <= |body.query.s|
  {
    match body
    case NotAnObject => Err(BodyNotObject)
    case Object(query, _) =>
      match query
      case Absent => Ok([])  // "".strip() is ""
      case Text(s) => Ok(Strip(s, Whitespace))
      case NotText => Err(QueryNotText)
  }

  /** Every character is whitespace (which includes the empty string). */
  predicate Blank(s: string) {
    forall i :: 0 <= i < |s| ==> s[i] in Whitespace
  }

  /** A text query is rejected as missing exactly when it is empty or all whitespace. */
  lemma BlankQuery(s: string, topK: Option<int>)
    ensures RequestQuery(Object(Text(s), topK)) == Ok([]) <==> Blank(s)
  {
    StripCuts(s, Whitespace);
  }

  /** `data.get("top_k", 5)`: the given value, or 5 when the key is missing. */
  function TopK(body: Body): (k: int)
    requires body.Object?
    ensures body.topK.Some? ==> k == body.topK.value
    ensures body.topK.None? ==> k == DefaultTopK
  {
    if body.topK.Some? then body.topK.value else DefaultTopK
  }

  /** The search may run: a non-blank query from an address that has searches left. */
  predicate Admitted(history: Table, req: Request) {
    && RequestQuery(req.body).Ok?
    && RequestQuery(req.body).value != []
    && Remaining(history, ClientIp(req)) > 0
  }

  /** Every sessions cell of the frame can be formatted (vacuous without the column). */
  predicate Formattable(frame: Frame) {
    !frame.hasSessions || forall i :: 0 <= i < |frame.rows| ==> Formatted(frame.rows[i].sessions).Ok?
  }

  /**
   * The record `to_dict(orient="records")` produces from one row: the row's cells, and
   * its sessions formatted when the frame has a sessions column.
   */
  predicate RecordOf(hasSessions: bool, row: SpeakerRow, record: Speaker) {
    && record.fields == row.fields
    && if hasSessions then record.sessions.Some? && Formatted(row.sessions) == Ok(record.sessions.value)
       else record.sessions.None?
  }

  /** One record per row of the frame, in order. */
  predicate Converted(frame: Frame, records: seq<Speaker>) {
    && |records| == |frame.rows|
    && forall i :: 0 <= i < |frame.rows| ==> RecordOf(frame.hasSessions, frame.rows[i], records[i])
  }

  /** The conversion of one row: its sessions cell formatted if the frame has that column. */
  method ConvertRow(hasSessions: bool, row: SpeakerRow) returns (r: Result<Speaker, FormatError>)
    ensures r.Ok? <==> !hasSessions || Formatted(row.sessions).Ok?
    ensures r.Ok? ==> RecordOf(hasSessions, row, r.value)
  {
    if !hasSessions {
      return Ok(Speaker(row.fields, None));
    }
    var formatted := FormatSessions(row.sessions);
    if formatted.Err? {
      return Err(formatted.error);
    }
    r := Ok(Speaker(row.fields, Some(formatted.value)));
  }

  /**
   * `results_df["sessions"].apply(format_sessions)` followed by `to_dict(orient="records")`;
   * the first cell `format_sessions` cannot read aborts the whole conversion.
   */
  method ConvertResults(frame: Frame) returns (r: Result<seq<Speaker>, FormatError>)
    ensures r.Ok? <==> Formattable(frame)
    ensures r.Ok? ==> Converted(frame, r.value)
  {
    var records: seq<Speaker> := [];
    for i := 0 to |frame.rows|
      invariant |records| == i
      invariant forall j :: 0 <= j < i ==> RecordOf(frame.hasSessions, frame.rows[j], records[j])
    {
      var record := ConvertRow(frame.hasSessions, frame.rows[i]);
      if record.Err? {
        return Err(record.error);
      }
      records := records + [record.value];
    }
    r := Ok(records);
  }

  /** `GET /remaining-searches`: the caller's allowance under the default cap. */
  method CheckRemainingSearches(db: SearchLimits, req: Request) returns (remaining: int)
    ensures remaining == Remaining(db.history, ClientIp(req))
    ensures 0 <= remaining <= DefaultMaxSearches
  {
    var ipAddress := ClientIp(req);
    remaining := Remaining(db.history, ipAddress);
  }

  /**
   * `POST /search`. A body that is not an object or a query that is not a string is a 500;
   * a blank query is a 400; an address without searches left is a 429; otherwise the
   * search runs, and if it returns, exactly one search is charged before the results are
   * formatted, so a sessions field the parser cannot read is a 500 that still costs a search.
   */
  method SearchSpeakersApi(db: SearchLimits, req: Request, search: (string, int) -> SearchOutcome)
    returns (resp: Response)
    modifies db
    ensures RequestQuery(req.body).Err? ==> resp == InternalError(RequestQuery(req.body).error)
    ensures resp == QueryRequired <==> RequestQuery(req.body) == Ok([])
    ensures StatusCode(resp) == 400 <==>
              req.body.Object? && (req.body.query.Absent? || (req.body.query.Text? && Blank(req.body.query.s)))
    ensures resp == LimitReached <==>
              && RequestQuery(req.body).Ok? && RequestQuery(req.body).value != []
              && Remaining(old(db.history), ClientIp(req)) <= 0
    ensures Admitted(old(db.history), req) ==>
              var outcome := search(RequestQuery(req.body).value, TopK(req.body));
              && (outcome.Raised? ==> resp == InternalError(SearchRaised))
              && (outcome.Returned? ==> resp.Found? || resp == InternalError(SessionsUnpack))
    ensures if Admitted(old(db.history), req) && search(RequestQuery(req.body).value, TopK(req.body)).Returned?
            then db.history == Tracked(old(db.history), ClientIp(req))
            else db.history == old(db.history)
    ensures resp == InternalError(SessionsUnpack) <==>
              && Admitted(old(db.history), req)
              && var outcome := search(RequestQuery(req.body).value, TopK(req.body));
              && outcome.Returned? && !Formattable(outcome.frame)
    ensures StatusCode(resp) == 200 <==>
              && Admitted(old(db.history), req)
              && var outcome := search(RequestQuery(req.body).value, TopK(req.body));
              && outcome.Returned? && Formattable(outcome.frame)
    ensures resp.Found? ==>
              && Admitted(old(db.history), req)
              && resp.remaining == Remaining(old(db.history), ClientIp(req)) - 1
              && var outcome := search(RequestQuery(req.body).value, TopK(req.body));
              && outcome.Returned? && Converted(outcome.frame, resp.results)
  {
    if req.body.Object? && req.body.query.Text? {
      BlankQuery(req.body.query.s, req.body.topK);
    }
    var query := RequestQuery(req.body);
    if query.Err? {
      return InternalError(query.error);
    }
    var topK := TopK(req.body);
    if query.value == [] {
      return QueryRequired;
    }
    var ipAddress := ClientIp(req);
    var remainingSearches := Remaining(db.history, ipAddress);
    if remainingSearches <= 0 {
      return LimitReached;
    }
    var outcome := search(query.value, topK);
    if outcome.Raised? {
      return InternalError(SearchRaised);
    }
    var _ := db.TrackSearch(ipAddress);
    TrackedChargesOne(old(db.history), ipAddress, DefaultMaxSearches);
    var updatedRemaining := Remaining(db.history, ipAddress);
    var results := ConvertResults(outcome.frame);
    if results.Err? {
      return InternalError(SessionsUnpack);
    }
    resp := Found(results.value, updatedRemaining);
  }
}
