// proxy/http_header_parser.c and the head-reading steps of proxy/connection_handler.c.
// The parsers work on what a pointer into the receive buffer sees; each read appends to the
// buffer and parsing resumes where it stopped.
module HttpHead {
  import opened CStrings

  datatype Kind = Request | Response

  // The first line of a message; Unread until parsed. verb is the request's `type` field.
  datatype StartLine = Unread | RequestLine(verb: string, uri: string, version: string) | StatusLine(version: string, code: string)

  // header_t, with its `type` field called name.
  datatype Header = Header(name: string, value: string)

  // PARSE_STATUS with what goes with it; next is how far *buf advances.
  datatype Parsed<T> = NoEndOfLine | ParsingError | EndOfHeader(next: nat) | Ok(value: T, next: nat)

  // parse_req_type
  function ParseRequestLine(c: string): Parsed<StartLine> {
    var crlf := Find(c, CRLF, 0);
    if crlf < 0 then NoEndOfLine else
    var ws1 := Find(c, " ", 0);
    if ws1 < 0 || ws1 >= crlf then ParsingError else
    var ws2 := Find(c, " ", ws1 + 1);
    if ws2 < 0 || ws2 >= crlf then ParsingError else
    Ok(RequestLine(c[..ws1], c[ws1 + 1..ws2], c[ws2 + 1..crlf]), crlf + 2)
  }

  // parse_response_code
  function ParseStatusLine(c: string): Parsed<StartLine> {
    var crlf := Find(c, CRLF, 0);
    if crlf < 0 then NoEndOfLine else
    var ws := Find(c, " ", 0);
    if ws < 0 || ws >= crlf then ParsingError else
    Ok(StatusLine(c[..ws], c[ws + 1..crlf]), crlf + 2)
  }

  function ParseStartLine(kind: Kind, c: string): Parsed<StartLine> {
    if kind.Request? then ParseRequestLine(c) else ParseStatusLine(c)
  }

  // A separator found before the line end leaves room for itself: ": " cannot overlap CRLF.
  lemma SeparatorFits(c: string)
    requires 0 <= Find(c, ": ", 0) < Find(c, CRLF, 0)
    ensures Find(c, ": ", 0) + 2 <= Find(c, CRLF, 0)
  {
  }

  // parse_next_header
  function ParseNextHeader(c: string): Parsed<Header> {
    var crlf := Find(c, CRLF, 0);
    if crlf < 0 then NoEndOfLine else
    if crlf == 0 then EndOfHeader(2) else
    var sep := Find(c, ": ", 0);
    if sep < 0 || sep >= crlf then ParsingError else
    SeparatorFits(c);
    Ok(Header(c[..sep], c[sep + 2..crlf]), crlf + 2)
  }

  // ----- An answer, once given, is stable under further input -----

  lemma SliceGrows(c: string, d: string, i: int, j: int)
    requires c <= d && 0 <= i <= j <= |c|
    ensures d[i..j] == c[i..j] && d[..j] == c[..j]
  {
  }

  lemma StatusCutStable(c: string, d: string)
    requires c <= d && 0 <= Find(c, CRLF, 0)
    ensures var crlf, ws := Find(c, CRLF, 0), Find(c, " ", 0);
      && Find(d, CRLF, 0) == crlf
      && (0 <= ws < crlf <==> 0 <= Find(d, " ", 0) < crlf)
      && (0 <= ws < crlf ==> Find(d, " ", 0) == ws)
  {
    FoundStaysFound(c, d, CRLF, 0);
    FindGrows(c, d, " ", 0, Find(c, CRLF, 0));
  }

  lemma StatusLineOkStable(c: string, d: string)
    requires c <= d && ParseStatusLine(c).Ok?
    ensures ParseStatusLine(d) == ParseStatusLine(c)
  {
    StatusCutStable(c, d);
    SliceGrows(c, d, 0, Find(c, " ", 0));
    SliceGrows(c, d, Find(c, " ", 0) + 1, Find(c, CRLF, 0));
  }

  lemma StatusLineErrorStable(c: string, d: string)
    requires c <= d && ParseStatusLine(c).ParsingError?
    ensures ParseStatusLine(d) == ParseStatusLine(c)
  {
    StatusCutStable(c, d);
  }

  // The places a request line is cut at, where they lie before the line end.
  lemma RequestCutsStable(c: string, d: string)
    requires c <= d && 0 <= Find(c, CRLF, 0)
    ensures var crlf, ws1 := Find(c, CRLF, 0), Find(c, " ", 0);
      && Find(d, CRLF, 0) == crlf
      && (0 <= ws1 < crlf <==> 0 <= Find(d, " ", 0) < crlf)
      && (0 <= ws1 < crlf ==>
            && Find(d, " ", 0) == ws1
            && (0 <= Find(c, " ", ws1 + 1) < crlf <==> 0 <= Find(d, " ", ws1 + 1) < crlf)
            && (0 <= Find(c, " ", ws1 + 1) < crlf ==> Find(d, " ", ws1 + 1) == Find(c, " ", ws1 + 1)))
  {
    var crlf, ws1 := Find(c, CRLF, 0), Find(c, " ", 0);
    StatusCutStable(c, d);
    if 0 <= ws1 < crlf {
      FindGrows(c, d, " ", ws1 + 1, crlf);
    }
  }

  lemma RequestLineOkStable(c: string, d: string)
    requires c <= d && ParseRequestLine(c).Ok?
    ensures ParseRequestLine(d) == ParseRequestLine(c)
  {
    RequestCutsStable(c, d);
    var crlf, ws1 := Find(c, CRLF, 0), Find(c, " ", 0);
    var ws2 := Find(c, " ", ws1 + 1);
    SliceGrows(c, d, 0, ws1);
    SliceGrows(c, d, ws1 + 1, ws2);
    SliceGrows(c, d, ws2 + 1, crlf);
  }

  lemma RequestLineErrorStable(c: string, d: string)
    requires c <= d && ParseRequestLine(c).ParsingError?
    ensures ParseRequestLine(d) == ParseRequestLine(c)
  {
    RequestCutsStable(c, d);
  }

  lemma StartLineStable(kind: Kind, c: string, d: string)
    requires c <= d && !ParseStartLine(kind, c).NoEndOfLine?
    ensures ParseStartLine(kind, d) == ParseStartLine(kind, c)
  {
    match kind
    case Request => if ParseRequestLine(c).Ok? { RequestLineOkStable(c, d); } else { RequestLineErrorStable(c, d); }
    case Response => if ParseStatusLine(c).Ok? { StatusLineOkStable(c, d); } else { StatusLineErrorStable(c, d); }
  }

  lemma NextHeaderStable(c: string, d: string)
    requires c <= d && !ParseNextHeader(c).NoEndOfLine?
    ensures ParseNextHeader(d) == ParseNextHeader(c)
  {
    var crlf, sep := Find(c, CRLF, 0), Find(c, ": ", 0);
    FoundStaysFound(c, d, CRLF, 0);
    FindGrows(c, d, ": ", 0, crlf);
    if 0 <= sep < crlf {
      SeparatorFits(c);
      SliceGrows(c, d, 0, sep);
      SliceGrows(c, d, sep + 2, crlf);
    }
  }

  // ----- The head of a message -----

  datatype Verdict = Reading | Failed | Complete

  // What the context holds while reading a head.
  datatype Head = Head(line: StartLine, headers: seq<Header>, pos: nat, verdict: Verdict)

  const FRESH: Head := Head(Unread, [], 0, Reading)

  // What a pointer to position pos of the buffer sees.
  function Ahead(buf: string, pos: nat): string
    requires pos <= |buf|
  {
    CStr(buf[pos..])
  }

  lemma AheadIsShort(buf: string, pos: nat)
    requires pos <= |buf|
    ensures |Ahead(buf, pos)| <= |buf| - pos
  {
    CStrIsPrefix(buf[pos..]);
  }

  function NextHeaderAt(buf: string, pos: nat): Parsed<Header> {
    if pos <= |buf| then ParseNextHeader(Ahead(buf, pos)) else NoEndOfLine
  }

  function RequestLineAt(buf: string, pos: nat): Parsed<StartLine> {
    if pos <= |buf| then ParseRequestLine(Ahead(buf, pos)) else NoEndOfLine
  }

  function StatusLineAt(buf: string, pos: nat): Parsed<StartLine> {
    if pos <= |buf| then ParseStatusLine(Ahead(buf, pos)) else NoEndOfLine
  }

  // The steps for a request and for a response differ in the parser of the start line; all
  // that matters about either parser is this.
  type StartParser = (string, nat) -> Parsed<StartLine>
  type HeaderParser = (string, nat) -> Parsed<Header>

  // A parsed line has an end that lies in the buffer.
  ghost predicate Bounded<T(!new)>(parser: (string, nat) -> Parsed<T>) {
    forall buf: string, pos: nat :: EndsInside(buf, pos, parser(buf, pos))
  }

  predicate EndsInside<T>(buf: string, pos: nat, p: Parsed<T>) {
    p.EndOfHeader? || p.Ok? ==> pos + p.next <= |buf| && p.next > 0
  }

  // An answer other than "no end of line" stands when the buffer grows.
  ghost predicate Stable<T(!new)>(parser: (string, nat) -> Parsed<T>) {
    forall buf: string, more: string, pos: nat :: buf <= more && !parser(buf, pos).NoEndOfLine? ==> parser(more, pos) == parser(buf, pos)
  }

  // The loop over parse_next_header.
  function ParseHeaders(parser: HeaderParser, buf: string, h: Head): (r: Head)
    requires Bounded(parser) && h.pos <= |buf|
    ensures h.pos <= r.pos <= |buf| && r.line == h.line
    decreases |buf| - h.pos
  {
    var p := parser(buf, h.pos);
    assert EndsInside(buf, h.pos, p);
    match p
    case NoEndOfLine => h
    case ParsingError => h.(verdict := Failed)
    case EndOfHeader(next) => h.(pos := h.pos + next, verdict := Complete)
    case Ok(header, next) => ParseHeaders(parser, buf, h.(headers := h.headers + [header], pos := h.pos + next))
  }

  // What one readable event does with the buffer: the start line if it is still missing, then
  // the headers.
  function ParseHeadWith(start: StartParser, parser: HeaderParser, buf: string, h: Head): (r: Head)
    requires Bounded(start) && Bounded(parser) && h.pos <= |buf|
    ensures h.pos <= r.pos <= |buf|
  {
    if h.line != Unread then ParseHeaders(parser, buf, h) else
    var p := start(buf, h.pos);
    assert EndsInside(buf, h.pos, p);
    match p
    case Ok(line, next) => ParseHeaders(parser, buf, h.(line := line, pos := h.pos + next))
    case ParsingError => h.(verdict := Failed)
    case _ => h
  }

  function StartParserOf(kind: Kind): StartParser {
    if kind.Request? then RequestLineAt else StatusLineAt
  }

  lemma ParsersAreBounded()
    ensures Bounded(RequestLineAt) && Bounded(StatusLineAt) && Bounded(NextHeaderAt)
  {
    forall buf: string, pos: nat
      ensures EndsInside(buf, pos, RequestLineAt(buf, pos)) && EndsInside(buf, pos, StatusLineAt(buf, pos)) && EndsInside(buf, pos, NextHeaderAt(buf, pos))
    {
      if pos <= |buf| {
        AheadIsShort(buf, pos);
      }
    }
  }

  function ParseHead(kind: Kind, buf: string, h: Head): (r: Head)
    requires h.pos <= |buf|
    ensures h.pos <= r.pos <= |buf|
  {
    ParsersAreBounded();
    ParseHeadWith(StartParserOf(kind), NextHeaderAt, buf, h)
  }

  // The whole buffer at once.
  function AtOnce(kind: Kind, buf: string): (r: Head)
    ensures r.pos <= |buf|
  {
    ParseHead(kind, buf, FRESH)
  }

  // ----- Independence of read boundaries -----

  lemma AheadGrows(buf: string, more: string, pos: nat)
    requires pos <= |buf| && buf <= more
    ensures Ahead(buf, pos) <= Ahead(more, pos)
  {
    CStrGrows(buf[pos..], more[pos..]);
  }

  lemma NextHeaderAtStable()
    ensures Stable(NextHeaderAt)
  {
    forall buf: string, more: string, pos: nat | buf <= more && !NextHeaderAt(buf, pos).NoEndOfLine?
      ensures NextHeaderAt(more, pos) == NextHeaderAt(buf, pos)
    {
      AheadGrows(buf, more, pos);
      NextHeaderStable(Ahead(buf, pos), Ahead(more, pos));
    }
  }

  lemma StartParserStable(kind: Kind)
    ensures Stable(StartParserOf(kind))
  {
    forall buf: string, more: string, pos: nat | buf <= more && !StartParserOf(kind)(buf, pos).NoEndOfLine?
      ensures StartParserOf(kind)(more, pos) == StartParserOf(kind)(buf, pos)
    {
      AheadGrows(buf, more, pos);
      StartLineStable(kind, Ahead(buf, pos), Ahead(more, pos));
    }
  }

  // Stopping and resuming after more input is the same as having had it all along; a verdict
  // stands whatever comes.
  lemma {:induction false} HeadersResume(parser: HeaderParser, buf: string, more: string, h: Head)
    requires Bounded(parser) && Stable(parser) && h.pos <= |buf| && buf <= more && h.verdict == Reading
    ensures var r := ParseHeaders(parser, buf, h);
      ParseHeaders(parser, more, h) == if r.verdict == Reading then ParseHeaders(parser, more, r) else r
    decreases |buf| - h.pos
  {
    var p := parser(buf, h.pos);
    assert EndsInside(buf, h.pos, p);
    if p.Ok? {
      HeadersResume(parser, buf, more, h.(headers := h.headers + [p.value], pos := h.pos + p.next));
    }
  }

  lemma HeadResumesWith(start: StartParser, parser: HeaderParser, buf: string, more: string, h: Head)
    requires Bounded(start) && Stable(start) && Bounded(parser) && Stable(parser)
    requires h.pos <= |buf| && buf <= more && h.verdict == Reading
    requires start(buf, h.pos).Ok? ==> start(buf, h.pos).value != Unread
    ensures var r := ParseHeadWith(start, parser, buf, h);
      ParseHeadWith(start, parser, more, h) == if r.verdict == Reading then ParseHeadWith(start, parser, more, r) else r
  {
    var p := start(buf, h.pos);
    assert EndsInside(buf, h.pos, p);
    if h.line != Unread {
      HeadersResume(parser, buf, more, h);
    } else if p.Ok? {
      HeadersResume(parser, buf, more, h.(line := p.value, pos := h.pos + p.next));
    }
  }

  lemma HeadResumes(kind: Kind, buf: string, more: string, h: Head)
    requires h.pos <= |buf| && buf <= more && h.verdict == Reading
    ensures var r := ParseHead(kind, buf, h);
      ParseHead(kind, more, h) == if r.verdict == Reading then ParseHead(kind, more, r) else r
  {
    ParsersAreBounded();
    NextHeaderAtStable();
    StartParserStable(kind);
    HeadResumesWith(StartParserOf(kind), NextHeaderAt, buf, more, h);
  }

  // A connection's reads, one after the other, until there is a verdict.
  function ReadAll(kind: Kind, buf: string, h: Head, pieces: seq<string>): Head
    requires h.pos <= |buf|
    decreases |pieces|
  {
    if |pieces| == 0 || h.verdict != Reading then h
    else ReadAll(kind, buf + pieces[0], ParseHead(kind, buf + pieces[0], h), pieces[1..])
  }

  lemma {:induction false} ReadsDoNotMatterFrom(kind: Kind, buf: string, pieces: seq<string>)
    ensures ReadAll(kind, buf, AtOnce(kind, buf), pieces) == AtOnce(kind, buf + Concat(pieces))
    decreases |pieces|
  {
    if |pieces| == 0 {
      assert buf + Concat(pieces) == buf;
    } else {
      assert buf + Concat(pieces) == (buf + pieces[0]) + Concat(pieces[1..]);
      HeadResumes(kind, buf, buf + pieces[0], FRESH);
      if AtOnce(kind, buf).verdict == Reading {
        ReadsDoNotMatterFrom(kind, buf + pieces[0], pieces[1..]);
      } else {
        HeadResumes(kind, buf, buf + Concat(pieces), FRESH);
      }
    }
  }

  // However a byte stream is cut into reads, the start line, the headers, the
  // final position and the verdict are those of reading it at once.
  lemma ReadsDoNotMatter(kind: Kind, pieces: seq<string>)
    ensures ReadAll(kind, "", FRESH, pieces) == AtOnce(kind, Concat(pieces))
  {
    ReadsDoNotMatterFrom(kind, "", pieces);
    assert "" + Concat(pieces) == Concat(pieces);
  }

  // ----- Which heads are malformed -----

  // A line without an end, with d, which begins with no LF and has no CR, and an end added.
  lemma LineEnds(u: string, d: string, rest: string)
    requires Find(u, CRLF, 0) < 0 && |d| == 2 && d[0] != '\n' && d[0] != '\r' && d[1] != '\r'
    ensures Find(u + d + CRLF + rest, CRLF, 0) == |u| + 2
  {
    var c := u + d + CRLF + rest;
    assert MatchAt(c, CRLF, |u| + 2);
    FindIsFirst(c, CRLF, 0, |u| + 2);
    var i := Find(c, CRLF, 0);
    if i + 2 <= |u| {
      assert MatchAt(u, CRLF, i);
      FindIsFirst(u, CRLF, 0, i);
    }
  }

  lemma HeaderCanEnd(u: string)
    requires Find(u, CRLF, 0) < 0
    ensures var p := ParseNextHeader(u + ": " + CRLF + CRLF); p.Ok? && p.next == |u| + 4
  {
    var c := u + ": " + CRLF + CRLF;
    LineEnds(u, ": ", CRLF);
    assert MatchAt(c, ": ", |u|);
    FindIsFirst(c, ": ", 0, |u|);
  }

  lemma SpacesFound(c: string, n: nat)
    requires MatchAt(c, " ", n) && MatchAt(c, " ", n + 1)
    ensures var ws := Find(c, " ", 0); 0 <= ws <= n && ws < Find(c, " ", ws + 1) <= n + 1
  {
    FindIsFirst(c, " ", 0, n);
    FindIsFirst(c, " ", Find(c, " ", 0) + 1, n + 1);
  }

  lemma TwoSpaces(u: string)
    ensures var c := u + "  " + CRLF + CRLF; MatchAt(c, " ", |u|) && MatchAt(c, " ", |u| + 1)
  {
  }

  lemma SpacesCut(c: string, crlf: nat)
    requires Find(c, CRLF, 0) == crlf && 0 <= Find(c, " ", 0) < crlf
    ensures ParseStatusLine(c).Ok? && ParseStatusLine(c).next == crlf + 2
    ensures 0 <= Find(c, " ", Find(c, " ", 0) + 1) < crlf ==> ParseRequestLine(c).Ok? && ParseRequestLine(c).next == crlf + 2
  {
  }

  lemma StartLineEndsAt(kind: Kind, c: string, n: nat)
    requires Find(c, CRLF, 0) == n + 2 && MatchAt(c, " ", n) && MatchAt(c, " ", n + 1)
    ensures ParseStartLine(kind, c).Ok? && ParseStartLine(kind, c).next == n + 4
  {
    SpacesFound(c, n);
    SpacesCut(c, n + 2);
  }

  lemma StartLineCanEnd(kind: Kind, u: string)
    requires Find(u, CRLF, 0) < 0
    ensures var p := ParseStartLine(kind, u + "  " + CRLF + CRLF); p.Ok? && p.next == |u| + 4
  {
    LineEnds(u, "  ", CRLF);
    TwoSpaces(u);
    StartLineEndsAt(kind, u + "  " + CRLF + CRLF, |u|);
  }

  lemma AheadIsRest(buf: string, pos: nat)
    requires pos <= |buf| && '\0' !in buf
    ensures Ahead(buf, pos) == buf[pos..]
  {
    CStrIsPrefix(buf[pos..]);
  }

  // A blank line ends the head.
  lemma BlankLineEnds(buf: string, h: Head)
    requires Bounded(NextHeaderAt) && h.pos <= |buf| && '\0' !in buf && buf[h.pos..] == CRLF
    ensures ParseHeaders(NextHeaderAt, buf, h).verdict == Complete
  {
    AheadIsRest(buf, h.pos);
    assert Find(CRLF, CRLF, 0) == 0;
  }

  // Headers that are still being read stop where there is no end of line.
  lemma {:induction false} ReadingStops(parser: HeaderParser, buf: string, h: Head)
    requires Bounded(parser) && h.pos <= |buf| && ParseHeaders(parser, buf, h).verdict == Reading
    ensures parser(buf, ParseHeaders(parser, buf, h).pos).NoEndOfLine?
    decreases |buf| - h.pos
  {
    var p := parser(buf, h.pos);
    assert EndsInside(buf, h.pos, p);
    if p.Ok? {
      ReadingStops(parser, buf, h.(headers := h.headers + [p.value], pos := h.pos + p.next));
    }
  }

  lemma NoEndAhead(buf: string, pos: nat)
    requires pos <= |buf| && '\0' !in buf && NextHeaderAt(buf, pos).NoEndOfLine?
    ensures Find(buf[pos..], CRLF, 0) < 0
  {
    AheadIsRest(buf, pos);
  }

  const HEADER_END := ": \r\n\r\n"
  const LINE_END := "  \r\n\r\n"

  lemma HeaderThenBlank(buf: string, h: Head, next: nat)
    requires Bounded(NextHeaderAt) && h.pos + next <= |buf| && '\0' !in buf && buf[h.pos + next..] == CRLF
    requires NextHeaderAt(buf, h.pos).Ok? && NextHeaderAt(buf, h.pos).next == next
    ensures ParseHeaders(NextHeaderAt, buf, h).verdict == Complete
  {
    var p := NextHeaderAt(buf, h.pos);
    assert EndsInside(buf, h.pos, p);
    BlankLineEnds(buf, h.(headers := h.headers + [p.value], pos := h.pos + next));
  }

  lemma EndAdded(buf: string, pos: nat)
    requires pos <= |buf|
    ensures var more, u := buf + HEADER_END, buf[pos..];
      && pos + |u| + 4 <= |more| && more[pos..] == u + ": " + CRLF + CRLF && more[pos + |u| + 4..] == CRLF
      && ('\0' !in buf ==> '\0' !in more)
  {
  }

  lemma HeadersCanEnd(buf: string, h: Head)
    requires Bounded(NextHeaderAt) && h.pos <= |buf| && '\0' !in buf && NextHeaderAt(buf, h.pos).NoEndOfLine?
    ensures ParseHeaders(NextHeaderAt, buf + HEADER_END, h).verdict == Complete
  {
    EndAdded(buf, h.pos);
    NoEndAhead(buf, h.pos);
    HeaderCanEnd(buf[h.pos..]);
    AheadIsRest(buf + HEADER_END, h.pos);
    HeaderThenBlank(buf + HEADER_END, h, |buf| - h.pos + 4);
  }

  lemma StartCanEnd(kind: Kind, buf: string)
    requires '\0' !in buf && StartParserOf(kind)(buf, 0).NoEndOfLine?
    ensures AtOnce(kind, buf + LINE_END).verdict == Complete
  {
    ParsersAreBounded();
    var more := buf + LINE_END;
    assert buf[0..] == buf && more[0..] == more == buf + "  " + CRLF + CRLF;
    AheadIsRest(buf, 0);
    AheadIsRest(more, 0);
    StartLineCanEnd(kind, buf);
    var p := StartParserOf(kind)(more, 0);
    assert more[p.next..] == CRLF;
    BlankLineEnds(more, FRESH.(line := p.value, pos := p.next));
  }

  lemma ReadingCanComplete(kind: Kind, buf: string) returns (more: string)
    requires '\0' !in buf && AtOnce(kind, buf).verdict == Reading
    ensures AtOnce(kind, buf + more).verdict == Complete
  {
    ParsersAreBounded();
    var h := AtOnce(kind, buf);
    var p := StartParserOf(kind)(buf, 0);
    assert EndsInside(buf, 0, p);
    if p.Ok? {
      more := HEADER_END;
      ReadingStops(NextHeaderAt, buf, FRESH.(line := p.value, pos := p.next));
      HeadersCanEnd(buf, h);
      HeadResumes(kind, buf, buf + more, FRESH);
    } else {
      more := LINE_END;
      StartCanEnd(kind, buf);
    }
  }

  // On text without NUL a head is found malformed exactly when nothing that could follow would
  // make it whole.
  lemma FailedIff(kind: Kind, buf: string)
    requires '\0' !in buf
    ensures AtOnce(kind, buf).verdict == Failed <==> forall more: string :: AtOnce(kind, buf + more).verdict != Complete
  {
    match AtOnce(kind, buf).verdict
    case Failed =>
      forall more: string ensures AtOnce(kind, buf + more).verdict != Complete {
        HeadResumes(kind, buf, buf + more, FRESH);
      }
    case Complete =>
      assert buf + "" == buf;
      assert AtOnce(kind, buf + "").verdict == Complete;
    case Reading =>
      var more := ReadingCanComplete(kind, buf);
  }

  // ----- A NUL among the bytes received -----

  lemma {:induction false} CStrFrom(buf: string, pos: nat)
    requires pos <= |CStr(buf)|
    ensures pos <= |buf| && CStr(buf[pos..]) == CStr(buf)[pos..] == CStr(CStr(buf)[pos..])
    decreases pos
  {
    CStrIsPrefix(buf);
    CStrIsPrefix(CStr(buf)[pos..]);
    if pos == 0 {
      assert buf[0..] == buf && CStr(buf)[0..] == CStr(buf);
    } else {
      CStrFrom(buf[1..], pos - 1);
      assert buf[1..][pos - 1..] == buf[pos..] && CStr(buf)[1..] == CStr(buf[1..]);
      assert CStr(buf)[1..][pos - 1..] == CStr(buf)[pos..];
    }
  }

  // Two buffers in which a parser finds the same up to place n.
  ghost predicate AlikeUpTo<T(!new)>(parser: (string, nat) -> Parsed<T>, a: string, b: string, n: nat) {
    forall pos: nat :: pos <= n ==> parser(a, pos) == parser(b, pos)
  }

  lemma {:induction false} HeadersAlike(parser: HeaderParser, a: string, b: string, h: Head)
    requires Bounded(parser) && h.pos <= |b| <= |a| && AlikeUpTo(parser, a, b, |b|)
    ensures ParseHeaders(parser, a, h) == ParseHeaders(parser, b, h)
    decreases |b| - h.pos
  {
    var p := parser(b, h.pos);
    assert p == parser(a, h.pos) && EndsInside(b, h.pos, p);
    if p.Ok? {
      HeadersAlike(parser, a, b, h.(headers := h.headers + [p.value], pos := h.pos + p.next));
    }
  }

  lemma LinesAlike(kind: Kind, buf: string)
    ensures |CStr(buf)| <= |buf|
    ensures AlikeUpTo(NextHeaderAt, buf, CStr(buf), |CStr(buf)|) && StartParserOf(kind)(buf, 0) == StartParserOf(kind)(CStr(buf), 0)
  {
    CStrIsPrefix(buf);
    CStrFrom(buf, 0);
    forall pos: nat | pos <= |CStr(buf)| ensures NextHeaderAt(buf, pos) == NextHeaderAt(CStr(buf), pos) {
      CStrFrom(buf, pos);
    }
  }

  // Nothing from the first NUL on is ever seen: the head stays as it was.
  lemma NulEndsTheHead(kind: Kind, buf: string)
    ensures AtOnce(kind, buf) == AtOnce(kind, CStr(buf))
  {
    ParsersAreBounded();
    LinesAlike(kind, buf);
    var p := StartParserOf(kind)(CStr(buf), 0);
    assert EndsInside(CStr(buf), 0, p);
    if p.Ok? {
      HeadersAlike(NextHeaderAt, buf, CStr(buf), FRESH.(line := p.value, pos := p.next));
    }
  }

  // ----- find_header -----

  // The first header of that name, as an index; |headers| if there is none.
  function FindHeader(headers: seq<Header>, name: string): (i: nat)
    ensures i <= |headers|
    ensures i < |headers| ==> headers[i].name == name
    ensures forall k :: 0 <= k < i ==> headers[k].name != name
  {
    if |headers| == 0 || headers[0].name == name then 0 else 1 + FindHeader(headers[1..], name)
  }

  lemma FoundIffThere(headers: seq<Header>, name: string)
    ensures FindHeader(headers, name) < |headers| <==> exists k :: 0 <= k < |headers| && headers[k].name == name
  {
    var i := FindHeader(headers, name);
    if i < |headers| {
      assert headers[i].name == name;
    }
  }
}
