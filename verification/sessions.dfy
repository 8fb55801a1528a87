/**
 * `format_sessions` (backend/app.py): the speakers' "sessions" column is one string of
 * pieces joined by " | "; each piece is `<title> (<role>) - [🔗 Session Link](<url>)`,
 * where the role and the link are optional. The parser turns it into one record per
 * piece, or fails the way the Python code does when a piece has parentheses but no " (".
 */
module Sessions {
  import opened Wrappers
  import opened Strings

  /** What separates the pieces of the sessions field. */
  const Separator: string := " | "
  /** What introduces a session's link; the text after its last occurrence is the URL. */
  const LinkMarker: string := " - [\U{1F517} Session Link]("
  /** What introduces a session's role inside the title part. */
  const RoleOpener: string := " ("

  /** One formatted session: the dictionary `{"title", "role", "url"}` built by `format_sessions`. */
  datatype Session = Session(title: string, role: Option<string>, url: Option<string>)

  /**
   * The one failure of the parser: `title, role = title_and_role.rsplit(" (", 1)` raises
   * ValueError when the title part holds `(` and `)` but no " (".
   */
  datatype FormatError = UnpackError

  /** `s` is not empty and its last character is `c`. */
  predicate EndsWith(s: string, c: char) {
    s != [] && s[|s| - 1] == c
  }

  /** `session.rsplit(LinkMarker, 1) if LinkMarker in session else (session, None)`. */
  function SplitLink(piece: string): (r: (string, Option<string>))
    ensures r.1.None? <==> !Contains(piece, LinkMarker)
    ensures r.1.None? ==> r.0 == piece
    ensures r.1.Some? ==> piece == r.0 + LinkMarker + r.1.value && !Contains(r.1.value, LinkMarker)
  {
    match LastOccurrence(piece, LinkMarker)
    case None => (piece, None)
    case Some(i) =>
      var tail := piece[i + |LinkMarker|..];
      assert piece == piece[..i] + LinkMarker + tail by {
        assert piece[i..i + |LinkMarker|] == LinkMarker;
      }
      forall j | 0 <= j <= |tail| ensures !OccursAt(tail, LinkMarker, j) {
        OccursInSuffix(piece, LinkMarker, i + |LinkMarker|, j);
      }
      (piece[..i], Some(tail))
  }

  /**
   * The role step: when the title part holds both "(" and ")", `rsplit(" (", 1)` and
   * `rstrip(")")` of the role; otherwise the whole part is the title and there is no role.
   */
  function SplitRole(titleAndRole: string): (r: Result<(string, Option<string>), FormatError>)
    ensures r.Err? <==> '(' in titleAndRole && ')' in titleAndRole && !Contains(titleAndRole, RoleOpener)
    ensures '(' !in titleAndRole || ')' !in titleAndRole ==> r == Ok((titleAndRole, None))
    ensures r.Ok? && r.value.1.Some? ==> !EndsWith(r.value.1.value, ')')
  {
    if '(' in titleAndRole && ')' in titleAndRole then
      match LastOccurrence(titleAndRole, RoleOpener)
      case None => Err(UnpackError)
      case Some(k) =>
        Ok((titleAndRole[..k], Some(RStrip(titleAndRole[k + |RoleOpener|..], {')'}))))
    else
      Ok((titleAndRole, None))
  }

  /**
   * The parse of one piece: the body of the loop in `format_sessions`.
   * The title is always stripped, a role is stripped, a URL never ends in ")", and
   * without a link marker there is no URL.
   */
  function ParseSession(piece: string): (r: Result<Session, FormatError>)
    ensures r.Ok? ==> IsStripped(r.value.title, Whitespace)
    ensures r.Ok? && r.value.role.Some? ==> IsStripped(r.value.role.value, Whitespace)
    ensures r.Ok? && r.value.url.Some? ==> !EndsWith(r.value.url.value, ')')
    ensures r.Ok? && !Contains(piece, LinkMarker) ==> r.value.url.None?
  {
    var (titleAndRole, urlPart) := SplitLink(piece);
    var url := if urlPart.None? || urlPart.value == [] then None else Some(RStrip(urlPart.value, {')'}));
    match SplitRole(titleAndRole)
    case Err(e) => Err(e)
    case Ok((title, role)) =>
      Ok(Session(Strip(title, Whitespace),
                 if role.None? || role.value == [] then None else Some(Strip(role.value, Whitespace)),
                 url))
  }

  /**
   * The URL is what follows the last link marker with every trailing ")" cut off, and
   * there is none when nothing follows the marker.
   */
  lemma ParsedUrl(piece: string, i: nat)
    requires OccursAt(piece, LinkMarker, i) && forall j :: i < j ==> !OccursAt(piece, LinkMarker, j)
    ensures ParseSession(piece).Ok? ==>
              ParseSession(piece).value.url ==
                if i + |LinkMarker| == |piece| then None else Some(RStrip(piece[i + |LinkMarker|..], {')'}))
  {
    assert Contains(piece, LinkMarker);
    assert LastOccurrence(piece, LinkMarker) == Some(i);
  }

  /**
   * A title part with "(" and ")" is cut at its last " (": the role is what follows with
   * trailing ")" and then whitespace stripped, None if that leaves nothing after the
   * ")"s are gone, and the title is what precedes, stripped.
   */
  lemma ParsedRole(piece: string, k: nat)
    requires var head := SplitLink(piece).0;
             && '(' in head && ')' in head
             && OccursAt(head, RoleOpener, k) && forall j :: k < j ==> !OccursAt(head, RoleOpener, j)
    ensures var head := SplitLink(piece).0;
            var role := RStrip(head[k + |RoleOpener|..], {')'});
            && ParseSession(piece).Ok?
            && ParseSession(piece).value.title == Strip(head[..k], Whitespace)
            && ParseSession(piece).value.role == if role == [] then None else Some(Strip(role, Whitespace))
  {
    var head := SplitLink(piece).0;
    assert Contains(head, RoleOpener);
    assert LastOccurrence(head, RoleOpener) == Some(k);
  }

  /** A title part lacking "(" or ")" is all title, stripped, and there is no role. */
  lemma ParsedWithoutRole(piece: string)
    requires var head := SplitLink(piece).0; '(' !in head || ')' !in head
    ensures ParseSession(piece).Ok?
    ensures ParseSession(piece).value.title == Strip(SplitLink(piece).0, Whitespace)
    ensures ParseSession(piece).value.role.None?
  {
  }

  /**
   * When a piece fails: exactly when the part before its link holds "(" and ")" but no
   * " ("; so only if the piece holds both; for a piece without a link, exactly when it
   * holds both but no " ("; and a failing piece that holds " (" holds it only in its URL.
   */
  lemma UnpackErrorCause(piece: string)
    ensures ParseSession(piece).Err? <==>
              var head := SplitLink(piece).0;
              '(' in head && ')' in head && !Contains(head, RoleOpener)
    ensures ParseSession(piece).Err? ==> '(' in piece && ')' in piece
    ensures !Contains(piece, LinkMarker) ==>
              (ParseSession(piece).Err? <==>
                 '(' in piece && ')' in piece && !Contains(piece, RoleOpener))
    ensures ParseSession(piece).Err? && Contains(piece, RoleOpener) ==>
              SplitLink(piece).1.Some? && Contains(SplitLink(piece).1.value, RoleOpener)
  {
    var (titleAndRole, urlPart) := SplitLink(piece);
    if ParseSession(piece).Err? && urlPart.Some? {
      NoRoleOpenerBeforeLink(titleAndRole, urlPart.value);
    }
    if urlPart.None? {
      assert titleAndRole == piece;
    } else if SplitRole(titleAndRole).Err? {
      assert piece == titleAndRole + LinkMarker + urlPart.value;
      assert '(' in piece by {
        var i :| 0 <= i < |titleAndRole| && titleAndRole[i] == '(';
        assert piece[i] == '(';
      }
      assert ')' in piece by {
        var i :| 0 <= i < |titleAndRole| && titleAndRole[i] == ')';
        assert piece[i] == ')';
      }
    }
  }

  /**
   * " (" never straddles the link marker and never occurs in it, so a piece has " (" only
   * if its title part or its URL part does.
   */
  lemma NoRoleOpenerBeforeLink(head: string, tail: string)
    requires !Contains(head, RoleOpener)
    ensures !Contains(head + LinkMarker + tail, RoleOpener) || Contains(tail, RoleOpener)
  {
    MarkerShape();
    var s := head + LinkMarker + tail;
    var m := |head| + |LinkMarker|;
    if !Contains(tail, RoleOpener) {
      forall j | 0 <= j <= |s| ensures !OccursAt(s, RoleOpener, j) {
        if j + 2 <= |head| {
          OccursInPrefix(s, RoleOpener, |head|, j);
          assert s[..|head|] == head;
        } else if j + 1 < m - 1 {
          assert s[j + 1] == LinkMarker[j + 1 - |head|];
          NotOccursAt(s, RoleOpener, j, 1);
        } else if j + 1 == m - 1 {
          assert s[j] == LinkMarker[18];
          NotOccursAt(s, RoleOpener, j, 0);
        } else if j == m - 1 {
          assert s[j] == LinkMarker[19];
          NotOccursAt(s, RoleOpener, j, 0);
        } else {
          OccursInSuffix(s, RoleOpener, m, j - m);
          assert s[m..] == tail;
        }
      }
    }
  }

  /**
   * What `format_sessions(text)` returns: nothing for None or "", otherwise exactly one
   * record per " | "-separated piece, in order, unless some piece fails to parse.
   */
  function Formatted(text: Option<string>): (r: Result<seq<Session>, FormatError>)
    ensures text.None? || text == Some([]) ==> r == Ok([])
    ensures text.Some? && text.value != [] ==>
              var pieces := Split(text.value, Separator);
              && (r.Ok? <==> forall i :: 0 <= i < |pieces| ==> ParseSession(pieces[i]).Ok?)
              && (r.Ok? ==> |r.value| == |pieces|)
              && (r.Ok? ==> forall i :: 0 <= i < |pieces| ==> Ok(r.value[i]) == ParseSession(pieces[i]))
  {
    if text.None? || text.value == [] then Ok([])
    else
      var pieces := Split(text.value, Separator);
      var parse: string -> Result<Session, FormatError> := ParseSession;
      var r := MapAll(pieces, parse);
      assert forall i :: 0 <= i < |pieces| ==> parse(pieces[i]) == ParseSession(pieces[i]);
      assert r.Ok? ==> forall i :: 0 <= i < |pieces| ==> ParseSession(pieces[i]).Ok?;
      assert (forall i :: 0 <= i < |pieces| ==> ParseSession(pieces[i]).Ok?) ==> r.Ok?;
      r
  }

  /**
   * The loop of `format_sessions` over the pieces: one record appended per piece, in
   * order; the first piece that fails to parse ends the loop with its error.
   */
  method ParsePieces(pieces: seq<string>) returns (r: Result<seq<Session>, FormatError>)
    ensures r.Ok? <==> forall i :: 0 <= i < |pieces| ==> ParseSession(pieces[i]).Ok?
    ensures r.Ok? ==> |r.value| == |pieces|
    ensures r.Ok? ==> forall i :: 0 <= i < |pieces| ==> Ok(r.value[i]) == ParseSession(pieces[i])
  {
    var formatted: seq<Session> := [];
    for i := 0 to |pieces|
      invariant |formatted| == i
      invariant forall j :: 0 <= j < i ==> ParseSession(pieces[j]) == Ok(formatted[j])
    {
      var parsed := ParseSession(pieces[i]);
      if parsed.Err? {
        return Err(parsed.error);
      }
      formatted := formatted + [parsed.value];
    }
    r := Ok(formatted);
  }

  /** `format_sessions`: [] for a missing or empty field, else the parse of its pieces. */
  method FormatSessions(text: Option<string>) returns (r: Result<seq<Session>, FormatError>)
    ensures r == Formatted(text)
  {
    if text.None? || text.value == [] {
      return Ok([]);
    }
    var pieces := Split(text.value, Separator);
    r := ParsePieces(pieces);
    ghost var spec := Formatted(text);
    if r.Ok? {
      assert spec.Ok? && |spec.value| == |r.value|;
      assert forall j :: 0 <= j < |pieces| ==> spec.value[j] == r.value[j];
      assert spec.value == r.value;
    } else {
      assert !spec.Ok?;
      assert spec.error.UnpackError? && r.error.UnpackError?;
    }
  }

  // ---------------------------------------------------------------------------
  // The format the parser reads, and the round trip through it.

  /** A session written the way the speakers' data writes it. */
  function Render(s: Session): string
  {
    s.title
    + (if s.role.Some? then RoleOpener + s.role.value + ")" else "")
    + (if s.url.Some? then LinkMarker + s.url.value + ")" else "")
  }

  /** A list of sessions written as one sessions field. */
  function RenderAll(ss: seq<Session>): string
  {
    Join(seq(|ss|, i requires 0 <= i < |ss| => Render(ss[i])), Separator)
  }

  /**
   * A session the parser reads back unchanged: stripped title and role, no "(" and no "|"
   * in any field (so no marker, role opener or separator can hide in one), a non-empty
   * role, and no role or URL that ends in ")".
   */
  predicate WellFormed(s: Session) {
    && IsStripped(s.title, Whitespace) && '(' !in s.title && '|' !in s.title
    && (s.role.Some? ==>
          var r := s.role.value;
          r != [] && IsStripped(r, Whitespace) && '(' !in r && '|' !in r && !EndsWith(r, ')'))
    && (s.url.Some? ==>
          var u := s.url.value;
          '(' !in u && '|' !in u && !EndsWith(u, ')'))
  }

  /** The title part of a rendered session: title and role. */
  function RenderHead(s: Session): string
  {
    s.title + (if s.role.Some? then RoleOpener + s.role.value + ")" else "")
  }

  /** In the title part of a well-formed session, "(" appears only as the role opener's. */
  lemma HeadParens(s: Session)
    requires WellFormed(s)
    ensures forall k :: 0 <= k < |RenderHead(s)| && RenderHead(s)[k] == '(' ==>
              s.role.Some? && k == |s.title| + 1
  {
    var h := RenderHead(s);
    forall k | 0 <= k < |h| && k != |s.title| + 1 ensures h[k] != '(' {
      if k < |s.title| {
        assert h[k] == s.title[k];
      } else {
        var r := s.role.value;
        assert h == s.title + (RoleOpener + r + ")");
        if |s.title| + 2 <= k < |s.title| + 2 + |r| {
          assert h[k] == r[k - |s.title| - 2];
        }
      }
    }
    if s.role.None? {
      assert h == s.title;
    }
  }

  /** The link marker has "(" only as its last character, preceded by "]". */
  lemma MarkerShape()
    ensures |LinkMarker| == 20
    ensures LinkMarker[19] == '(' && LinkMarker[18] == ']'
    ensures forall k :: 0 <= k < 19 ==> LinkMarker[k] != '('
    ensures '|' !in LinkMarker
  {
  }

  /** The link marker occurs in a well-formed rendering only where Render put it. */
  lemma {:induction false} LinkOfRender(s: Session)
    requires WellFormed(s)
    ensures SplitLink(Render(s)) ==
              (RenderHead(s), if s.url.Some? then Some(s.url.value + ")") else None)
  {
    MarkerShape();
    HeadParens(s);
    var h, x := RenderHead(s), Render(s);
    var m := |LinkMarker|;
    // every occurrence of the marker ends at a "(" that Render wrote
    forall j | 0 <= j && !(s.url.Some? && j == |h|) ensures !OccursAt(x, LinkMarker, j) {
      var e := j + m - 1;
      if e < |h| {
        assert x[e] == h[e];
        if h[e] == '(' {
          assert x[e - 1] == h[|s.title|];
          NotOccursAt(x, LinkMarker, j, m - 2);
        } else {
          NotOccursAt(x, LinkMarker, j, m - 1);
        }
      } else if e < |x| {
        var u := s.url.value;
        assert x == h + (LinkMarker + u + ")");
        var t := e - |h|;
        assert x[e] == (LinkMarker + u + ")")[t];
        if t < m - 1 {
          assert x[e] == LinkMarker[t];
        } else if t - m < |u| {
          assert x[e] == u[t - m];
        }
        NotOccursAt(x, LinkMarker, j, m - 1);
      }
    }
    if s.url.Some? {
      var u := s.url.value;
      assert OccursAt(x, LinkMarker, |h|) by {
        assert x == h + LinkMarker + (u + ")");
        assert x[|h|..|h| + m] == LinkMarker;
      }
      assert LastOccurrence(x, LinkMarker) == Some(|h|);
      assert x[..|h|] == h;
      assert x[|h| + m..] == u + ")";
    } else {
      assert x == h;
      assert LastOccurrence(x, LinkMarker).None?;
    }
  }

  /** The role step reads back the title and role that Render wrote. */
  lemma {:induction false} RoleOfRender(s: Session)
    requires WellFormed(s)
    ensures SplitRole(RenderHead(s)) == Ok((s.title, s.role))
  {
    var h := RenderHead(s);
    if s.role.Some? {
      var r := s.role.value;
      assert h == s.title + RoleOpener + (r + ")");
      assert OccursAt(h, RoleOpener, |s.title|) by {
        assert h[|s.title|..|s.title| + 2] == RoleOpener;
      }
      HeadParens(s);
      forall j | |s.title| < j ensures !OccursAt(h, RoleOpener, j) {
        NotOccursAt(h, RoleOpener, j, 1);
      }
      assert LastOccurrence(h, RoleOpener) == Some(|s.title|);
      assert h[..|s.title|] == s.title;
      assert h[|s.title| + 2..] == r + ")";
      assert '(' in h by { assert h[|s.title| + 1] == '('; }
      assert ')' in h by { assert h[|h| - 1] == ')'; }
      RStripAppended(r, ')', {')'});
    } else {
      assert h == s.title;
    }
  }

  /** A well-formed session survives being written and parsed again. */
  lemma {:induction false} ParseRender(s: Session)
    requires WellFormed(s)
    ensures ParseSession(Render(s)) == Ok(s)
  {
    LinkOfRender(s);
    RoleOfRender(s);
    StripOfStripped(s.title, Whitespace);
    if s.url.Some? {
      RStripAppended(s.url.value, ')', {')'});
    }
    if s.role.Some? {
      StripOfStripped(s.role.value, Whitespace);
    }
  }

  /** No separator can start inside a well-formed rendering. */
  lemma RenderSeparatorFree(s: Session)
    requires WellFormed(s)
    ensures SeparatorFree(Render(s), Separator)
  {
    MarkerShape();
    var x := Render(s);
    assert '|' !in x;
    forall j | 0 <= j < |x| ensures !OccursAt(x + Separator, Separator, j) {
      if j + 1 < |x| {
        assert (x + Separator)[j + 1] == x[j + 1];
      }
      NotOccursAt(x + Separator, Separator, j, 1);
    }
  }

  /**
   * Writing a list of well-formed sessions as one field and formatting it gives the list
   * back (unless the whole field is the empty string, which `format_sessions` maps to []).
   */
  lemma {:induction false} FormatRenderAll(ss: seq<Session>)
    requires forall i :: 0 <= i < |ss| ==> WellFormed(ss[i])
    requires ss == [] || RenderAll(ss) != []
    ensures Formatted(Some(RenderAll(ss))) == Ok(ss)
  {
    if ss != [] {
      var parts := seq(|ss|, i requires 0 <= i < |ss| => Render(ss[i]));
      forall i | 0 <= i < |parts| ensures SeparatorFree(parts[i], Separator) {
        RenderSeparatorFree(ss[i]);
      }
      SplitJoin(parts, Separator);
      forall i | 0 <= i < |parts| ensures ParseSession(parts[i]) == Ok(ss[i]) {
        ParseRender(ss[i]);
      }
      var x := RenderAll(ss);
      assert x == Join(parts, Separator);
      assert Split(x, Separator) == parts;
      var r := Formatted(Some(x));
      assert r.Ok? && |r.value| == |ss|;
      assert forall i :: 0 <= i < |ss| ==> r.value[i] == ss[i];
      assert r.value == ss;
    }
  }

  /** A piece with parentheses but no " (" before the role is the crash the endpoint turns into a 500. */
  lemma UnpackErrorExample()
    ensures ParseSession("Panel(Host)") == Err(UnpackError)
  {
    var p := "Panel(Host)";
    assert p[5] == '(' && p[10] == ')';
    forall j | 0 <= j <= |p| ensures !OccursAt(p, LinkMarker, j) {
      MarkerShape();
    }
    assert SplitLink(p) == (p, None);
    forall j | 0 <= j <= |p| ensures !OccursAt(p, RoleOpener, j) {
      NotOccursAt(p, RoleOpener, j, 0);
    }
  }
}
