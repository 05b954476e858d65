// Printing a message head and parsing it back (sections 3.1.1, 3.1.2 and 3.2 of RFC 7230).
module HttpHeadPrint {
  import opened CStrings
  import opened HttpHead

  function PrintStartLine(line: StartLine): string {
    match line
    case Unread => ""
    case RequestLine(verb, uri, version) => verb + " " + uri + " " + version + CRLF
    case StatusLine(version, code) => version + " " + code + CRLF
  }

  function PrintHeader(h: Header): string {
    h.name + ": " + h.value + CRLF
  }

  function PrintHeaders(hs: seq<Header>): string {
    if |hs| == 0 then CRLF else PrintHeader(hs[0]) + PrintHeaders(hs[1..])
  }

  function PrintHead(line: StartLine, hs: seq<Header>): string {
    PrintStartLine(line) + PrintHeaders(hs)
  }

  // ----- Which heads can be told from their text -----

  ghost predicate Absent(s: string, pat: Pattern) {
    forall i :: !MatchAt(s, pat, i)
  }

  ghost predicate Field(s: string) {
    Absent(s, CRLF) && '\0' !in s
  }

  ghost predicate GoodLine(kind: Kind, line: StartLine) {
    match line
    case Unread => false
    case RequestLine(verb, uri, version) =>
      kind.Request? && Field(verb) && Field(uri) && Field(version) && Absent(verb, " ") && Absent(uri, " ")
    case StatusLine(version, code) =>
      kind.Response? && Field(version) && Field(code) && Absent(version, " ")
  }

  ghost predicate GoodHeader(h: Header) {
    Field(h.name) && Field(h.value) && Absent(h.name, ": ")
  }

  ghost predicate GoodHeaders(hs: seq<Header>) {
    |hs| > 0 ==> GoodHeader(hs[0]) && GoodHeaders(hs[1..])
  }

  // ----- strstr on text cut at known places -----

  lemma {:induction false} FoundExactly(s: string, pat: Pattern, from: nat, i: nat)
    requires from <= i && MatchAt(s, pat, i) && forall j :: from <= j < i ==> !MatchAt(s, pat, j)
    ensures Find(s, pat, from) == i
  {
    FindIsFirst(s, pat, from, i);
  }

  lemma {:induction false} NothingBefore(s: string, pat: Pattern, from: nat, j: int)
    requires from <= j && (Find(s, pat, from) < 0 || j < Find(s, pat, from))
    ensures !MatchAt(s, pat, j)
  {
    if MatchAt(s, pat, j) {
      FindIsFirst(s, pat, from, j);
    }
  }

  // A piece of text between places found by strstr does not contain what was looked for.
  lemma PieceIsClean(s: string, pat: Pattern, from: nat, i: nat, j: nat)
    requires from <= i <= j <= |s| && (Find(s, pat, from) < 0 || j <= Find(s, pat, from) + |pat| - 1)
    ensures Absent(s[i..j], pat)
  {
    forall k ensures !MatchAt(s[i..j], pat, k) {
      if MatchAt(s[i..j], pat, k) {
        assert MatchAt(s, pat, i + k);
        NothingBefore(s, pat, from, i + k);
      }
    }
  }

  // Conversely: a clean piece followed by the pattern is where strstr stops, as the patterns
  // in use do not overlap what precedes them.
  lemma StopsAfterCleanPiece(s: string, pat: Pattern, i: nat, j: nat)
    requires i <= j && MatchAt(s, pat, j) && Absent(s[i..j], pat)
    requires |pat| == 2 ==> pat[0] != pat[1]
    ensures Find(s, pat, i) == j
  {
    forall k | i <= k < j ensures !MatchAt(s, pat, k) {
      assert !MatchAt(s[i..j], pat, k - i);
    }
    FoundExactly(s, pat, i, j);
  }

  // ----- The request line -----

  lemma RequestLinePrints(c: string)
    requires ParseRequestLine(c).Ok? && '\0' !in c
    ensures var p := ParseRequestLine(c); GoodLine(Request, p.value) && p.next <= |c| && PrintStartLine(p.value) == c[..p.next]
  {
    var crlf, ws1 := Find(c, CRLF, 0), Find(c, " ", 0);
    var ws2 := Find(c, " ", ws1 + 1);
    CutsAreFields(c, ws1, ws2, crlf);
    PieceIsClean(c, " ", 0, 0, ws1);
    PieceIsClean(c, " ", ws1 + 1, ws1 + 1, ws2);
    CutsJoin(c, ws1, ws2, crlf);
  }

  lemma CutsAreFields(c: string, i: nat, j: nat, k: nat)
    requires i < j < k && k + 2 <= |c| && Find(c, CRLF, 0) == k && '\0' !in c
    ensures Field(c[..i]) && Field(c[i + 1..j]) && Field(c[j + 1..k])
  {
    PieceIsClean(c, CRLF, 0, 0, i);
    PieceIsClean(c, CRLF, 0, i + 1, j);
    PieceIsClean(c, CRLF, 0, j + 1, k);
  }

  lemma CutsJoin(c: string, i: nat, j: nat, k: nat)
    requires i < j < k && k + 2 <= |c| && c[i] == ' ' && c[j] == ' ' && MatchAt(c, CRLF, k)
    ensures c[..i] + " " + c[i + 1..j] + " " + c[j + 1..k] + CRLF == c[..k + 2]
  {
    assert c[..j] == c[..i] + " " + c[i + 1..j];
    assert c[..k] == c[..j] + " " + c[j + 1..k];
    assert c[..k + 2] == c[..k] + CRLF;
  }

  // A separator free of CR and LF joins two clean pieces cleanly.
  lemma CleanJoin(a: string, sep: Pattern, b: string)
    requires Absent(a, CRLF) && Absent(b, CRLF) && '\r' !in sep && '\n' !in sep
    ensures Absent(a + sep + b, CRLF)
  {
    var s := a + sep + b;
    forall k ensures !MatchAt(s, CRLF, k) {
      assert !MatchAt(a, CRLF, k) && !MatchAt(b, CRLF, k - |a| - |sep|);
      if |a| <= k < |a| + |sep| {
        assert s[k] == sep[k - |a|];
      } else if k + 1 == |a| {
        assert s[k + 1] == sep[0];
      }
    }
  }

  lemma RequestLineCuts(line: StartLine, c: string) returns (i: nat, j: nat, k: nat)
    requires line.RequestLine? && PrintStartLine(line) <= c
    ensures i < j < k && k + 2 == |PrintStartLine(line)| && c[i] == ' ' && c[j] == ' ' && MatchAt(c, CRLF, k)
    ensures c[..i] == line.verb && c[i + 1..j] == line.uri && c[j + 1..k] == line.version
    ensures c[..k] == line.verb + " " + line.uri + " " + line.version
  {
    var p := PrintStartLine(line);
    i := |line.verb|;
    j := i + 1 + |line.uri|;
    k := j + 1 + |line.version|;
    assert p[..i] == line.verb && p[i + 1..j] == line.uri && p[j + 1..k] == line.version;
    assert p[..k] == line.verb + " " + line.uri + " " + line.version;
    SliceGrows(p, c, 0, i);
    SliceGrows(p, c, i + 1, j);
    SliceGrows(p, c, j + 1, k);
  }

  lemma RequestLineParses(line: StartLine, c: string)
    requires GoodLine(Request, line) && PrintStartLine(line) <= c
    ensures ParseRequestLine(c) == Ok(line, |PrintStartLine(line)|)
  {
    var i, j, k := RequestLineCuts(line, c);
    CleanJoin(line.verb, " ", line.uri);
    CleanJoin(line.verb + " " + line.uri, " ", line.version);
    assert c[0..k] == c[..k] && c[0..i] == c[..i];
    StopsAfterCleanPiece(c, CRLF, 0, k);
    StopsAfterCleanPiece(c, " ", 0, i);
    StopsAfterCleanPiece(c, " ", i + 1, j);
  }

  // ----- The status line -----

  lemma TwoCutsJoin(c: string, sep: Pattern, i: nat, k: nat)
    requires i + |sep| <= k && k + 2 <= |c| && MatchAt(c, sep, i) && MatchAt(c, CRLF, k)
    ensures c[..i] + sep + c[i + |sep|..k] + CRLF == c[..k + 2]
  {
    MatchIsSlice(c, sep, i);
    assert c[..k] == c[..i] + c[i..i + |sep|] + c[i + |sep|..k];
    assert c[..k + 2] == c[..k] + CRLF;
  }

  lemma StatusLinePrints(c: string)
    requires ParseStatusLine(c).Ok? && '\0' !in c
    ensures var p := ParseStatusLine(c); GoodLine(Response, p.value) && p.next <= |c| && PrintStartLine(p.value) == c[..p.next]
  {
    var crlf, ws := Find(c, CRLF, 0), Find(c, " ", 0);
    TwoCutsAreFields(c, ws, crlf);
    PieceIsClean(c, " ", 0, 0, ws);
    StatusLineOfCuts(c, ws, crlf);
  }

  lemma StatusLineOfCuts(c: string, i: nat, k: nat)
    requires i < k && k + 2 <= |c| && MatchAt(c, " ", i) && MatchAt(c, CRLF, k)
    requires Field(c[..i]) && Field(c[i + 1..k]) && Absent(c[0..i], " ")
    ensures var line := StatusLine(c[..i], c[i + 1..k]); GoodLine(Response, line) && PrintStartLine(line) == c[..k + 2]
  {
    assert c[0..i] == c[..i];
    TwoCutsJoin(c, " ", i, k);
  }

  lemma TwoCutsAreFields(c: string, i: nat, k: nat)
    requires i < k && k + 2 <= |c| && Find(c, CRLF, 0) == k && '\0' !in c
    ensures Field(c[..i]) && Field(c[i + 1..k])
  {
    PieceIsClean(c, CRLF, 0, 0, i);
    PieceIsClean(c, CRLF, 0, i + 1, k);
  }

  // A line of two clean parts, separated, at the front of c.
  lemma TwoCuts(a: string, sep: Pattern, b: string, c: string) returns (i: nat, k: nat)
    requires a + sep + b + CRLF <= c
    ensures i == |a| && k == i + |sep| + |b| && k + 2 <= |c|
    ensures MatchAt(c, sep, i) && MatchAt(c, CRLF, k)
    ensures c[..i] == a && c[i + |sep|..k] == b && c[..k] == a + sep + b
  {
    var p := a + sep + b + CRLF;
    i := |a|;
    k := i + |sep| + |b|;
    assert p[..i] == a && p[i + |sep|..k] == b && p[..k] == a + sep + b;
    SliceGrows(p, c, 0, i);
    SliceGrows(p, c, i + |sep|, k);
  }

  lemma StatusLineParses(line: StartLine, c: string)
    requires GoodLine(Response, line) && PrintStartLine(line) <= c
    ensures ParseStatusLine(c) == Ok(line, |PrintStartLine(line)|)
  {
    var i, k := TwoCuts(line.version, " ", line.code, c);
    CleanJoin(line.version, " ", line.code);
    assert c[0..k] == c[..k] && c[0..i] == c[..i];
    StopsAfterCleanPiece(c, CRLF, 0, k);
    StopsAfterCleanPiece(c, " ", 0, i);
  }

  // ----- A header -----

  lemma HeaderPrints(c: string)
    requires ParseNextHeader(c).Ok? && '\0' !in c
    ensures var p := ParseNextHeader(c); GoodHeader(p.value) && p.next <= |c| && PrintHeader(p.value) == c[..p.next]
  {
    var crlf, sep := Find(c, CRLF, 0), Find(c, ": ", 0);
    SeparatorFits(c);
    PieceIsClean(c, CRLF, 0, 0, sep);
    PieceIsClean(c, CRLF, 0, sep + 2, crlf);
    PieceIsClean(c, ": ", 0, 0, sep);
    TwoCutsJoin(c, ": ", sep, crlf);
  }

  lemma HeaderParses(h: Header, c: string)
    requires GoodHeader(h) && PrintHeader(h) <= c
    ensures ParseNextHeader(c) == Ok(h, |PrintHeader(h)|)
  {
    var i, k := TwoCuts(h.name, ": ", h.value, c);
    CleanJoin(h.name, ": ", h.value);
    assert c[0..k] == c[..k] && c[0..i] == c[..i];
    StopsAfterCleanPiece(c, CRLF, 0, k);
    StopsAfterCleanPiece(c, ": ", 0, i);
  }

  // The blank line, and nothing else, ends the header block.
  lemma BlankLineParses(c: string)
    ensures ParseNextHeader(c).EndOfHeader? <==> CRLF <= c
    ensures CRLF <= c ==> ParseNextHeader(c) == EndOfHeader(2)
  {
    if CRLF <= c {
      FoundExactly(c, CRLF, 0, 0);
    }
  }

  // ----- The header block -----

  lemma TextAhead(text: string, buf: string, pos: nat)
    requires Lies(text, buf, pos) && '\0' !in text
    ensures text <= Ahead(buf, pos)
  {
    assert buf[pos..][..|text|] == text;
    CStrIsPrefix(text);
    CStrGrows(text, buf[pos..]);
  }

  lemma GoodHeaderHasNoNul(h: Header)
    requires GoodHeader(h)
    ensures '\0' !in PrintHeader(h)
  {
  }

  // What the header parser does at the front of a printed block.
  ghost predicate ReadsBack(parser: HeaderParser) {
    && (forall h: Header, buf: string, pos: nat :: GoodHeader(h) && Lies(PrintHeader(h), buf, pos) ==> parser(buf, pos) == Ok(h, |PrintHeader(h)|))
    && (forall buf: string, pos: nat :: Lies(CRLF, buf, pos) ==> parser(buf, pos) == EndOfHeader(2))
  }

  // What text it accepted.
  ghost predicate AcceptedText(buf: string, pos: nat, p: Parsed<Header>) {
    && (p.EndOfHeader? ==> p.next == 2 && pos + 2 <= |buf| && buf[pos..pos + 2] == CRLF)
    && (p.Ok? ==> GoodHeader(p.value) && pos + p.next <= |buf| && buf[pos..pos + p.next] == PrintHeader(p.value))
  }

  ghost predicate AcceptsPrinted(parser: HeaderParser) {
    forall buf: string, pos: nat :: pos <= |buf| ==> AcceptedText(buf, pos, parser(buf, pos))
  }

  lemma NextHeaderReadsBack()
    ensures ReadsBack(NextHeaderAt)
  {
    forall h: Header, buf: string, pos: nat | GoodHeader(h) && Lies(PrintHeader(h), buf, pos)
      ensures NextHeaderAt(buf, pos) == Ok(h, |PrintHeader(h)|)
    {
      GoodHeaderHasNoNul(h);
      TextAhead(PrintHeader(h), buf, pos);
      HeaderParses(h, Ahead(buf, pos));
    }
    forall buf: string, pos: nat | Lies(CRLF, buf, pos)
      ensures NextHeaderAt(buf, pos) == EndOfHeader(2)
    {
      TextAhead(CRLF, buf, pos);
      BlankLineParses(Ahead(buf, pos));
    }
  }

  lemma TextBehind(buf: string, pos: nat, next: nat)
    requires pos <= |buf| && next <= |Ahead(buf, pos)|
    ensures pos + next <= |buf| && Ahead(buf, pos)[..next] == buf[pos..pos + next]
  {
    CStrIsPrefix(buf[pos..]);
    assert Ahead(buf, pos)[..next] == buf[pos..][..next];
  }

  lemma HeaderTextAccepted(buf: string, pos: nat)
    requires pos <= |buf| && ParseNextHeader(Ahead(buf, pos)).Ok?
    ensures AcceptedText(buf, pos, ParseNextHeader(Ahead(buf, pos)))
  {
    CStrIsPrefix(buf[pos..]);
    HeaderPrints(Ahead(buf, pos));
    TextBehind(buf, pos, ParseNextHeader(Ahead(buf, pos)).next);
  }

  lemma BlankTextAccepted(buf: string, pos: nat)
    requires pos <= |buf| && ParseNextHeader(Ahead(buf, pos)).EndOfHeader?
    ensures AcceptedText(buf, pos, ParseNextHeader(Ahead(buf, pos)))
  {
    BlankLineParses(Ahead(buf, pos));
    TextBehind(buf, pos, 2);
  }

  lemma NextHeaderAcceptsPrinted()
    ensures AcceptsPrinted(NextHeaderAt)
  {
    forall buf: string, pos: nat | pos <= |buf|
      ensures AcceptedText(buf, pos, NextHeaderAt(buf, pos))
    {
      if NextHeaderAt(buf, pos).Ok? {
        HeaderTextAccepted(buf, pos);
      } else if NextHeaderAt(buf, pos).EndOfHeader? {
        BlankTextAccepted(buf, pos);
      }
    }
  }

  // From pos on, the parser meets exactly these headers and then, before end, the blank line.
  ghost predicate Meets(parser: HeaderParser, buf: string, pos: nat, hs: seq<Header>, end: nat)
    decreases |hs|
  {
    var p := parser(buf, pos);
    if |hs| == 0 then p.EndOfHeader? && end == pos + p.next
    else p.Ok? && p.value == hs[0] && Meets(parser, buf, pos + p.next, hs[1..], end)
  }

  lemma {:induction false} MeetsWhatItParses(parser: HeaderParser, buf: string, h: Head, hs: seq<Header>, end: nat)
    requires Bounded(parser) && h.pos <= |buf| && h.verdict == Reading && Meets(parser, buf, h.pos, hs, end)
    ensures ParseHeaders(parser, buf, h) == Head(h.line, h.headers + hs, end, Complete)
    decreases |hs|
  {
    var p := parser(buf, h.pos);
    assert EndsInside(buf, h.pos, p);
    if |hs| == 0 {
      assert h.headers + hs == h.headers;
    } else {
      var h' := h.(headers := h.headers + [hs[0]], pos := h.pos + p.next);
      MeetsWhatItParses(parser, buf, h', hs[1..], end);
      assert h'.headers + hs[1..] == h.headers + hs;
    }
  }

  lemma {:induction false} ParsesWhatItMeets(parser: HeaderParser, buf: string, h: Head) returns (hs: seq<Header>)
    requires Bounded(parser) && h.pos <= |buf| && h.verdict == Reading && ParseHeaders(parser, buf, h).verdict == Complete
    ensures var r := ParseHeaders(parser, buf, h); r.headers == h.headers + hs && Meets(parser, buf, h.pos, hs, r.pos)
    decreases |buf| - h.pos
  {
    var p := parser(buf, h.pos);
    assert EndsInside(buf, h.pos, p);
    if p.Ok? {
      var h' := h.(headers := h.headers + [p.value], pos := h.pos + p.next);
      var rest := ParsesWhatItMeets(parser, buf, h');
      hs := [p.value] + rest;
      assert hs[1..] == rest && h.headers + hs == h'.headers + rest;
    } else {
      hs := [];
      assert h.headers + hs == h.headers;
    }
  }

  lemma OtherHeadersLie(hs: seq<Header>, buf: string, pos: nat) returns (next: nat)
    requires |hs| > 0 && Lies(PrintHeaders(hs), buf, pos)
    ensures next == pos + |PrintHeader(hs[0])| && Lies(PrintHeaders(hs[1..]), buf, next)
    ensures next + |PrintHeaders(hs[1..])| == pos + |PrintHeaders(hs)|
  {
    LiesInParts(PrintHeader(hs[0]), PrintHeaders(hs[1..]), buf, pos);
    next := pos + |PrintHeader(hs[0])|;
  }

  lemma FirstHeaderIsMet(parser: HeaderParser, buf: string, pos: nat, hs: seq<Header>, end: nat)
    requires ReadsBack(parser) && |hs| > 0 && GoodHeader(hs[0]) && Lies(PrintHeaders(hs), buf, pos)
    requires Meets(parser, buf, pos + |PrintHeader(hs[0])|, hs[1..], end)
    ensures Meets(parser, buf, pos, hs, end)
  {
    LiesInParts(PrintHeader(hs[0]), PrintHeaders(hs[1..]), buf, pos);
    assert parser(buf, pos) == Ok(hs[0], |PrintHeader(hs[0])|);
  }

  lemma {:induction false} MeetsPrinted(parser: HeaderParser, buf: string, pos: nat, hs: seq<Header>)
    requires ReadsBack(parser) && GoodHeaders(hs) && Lies(PrintHeaders(hs), buf, pos)
    ensures Meets(parser, buf, pos, hs, pos + |PrintHeaders(hs)|)
    decreases |hs|
  {
    if |hs| > 0 {
      var next := OtherHeadersLie(hs, buf, pos);
      MeetsPrinted(parser, buf, next, hs[1..]);
      FirstHeaderIsMet(parser, buf, pos, hs, next + |PrintHeaders(hs[1..])|);
    }
  }

  lemma {:induction false} PrintsWhatItMeets(parser: HeaderParser, buf: string, pos: nat, hs: seq<Header>, end: nat)
    requires AcceptsPrinted(parser) && pos <= |buf| && Meets(parser, buf, pos, hs, end)
    ensures GoodHeaders(hs) && pos <= end <= |buf| && buf[pos..end] == PrintHeaders(hs)
    decreases |hs|
  {
    var p := parser(buf, pos);
    assert AcceptedText(buf, pos, p);
    if |hs| > 0 {
      PrintsWhatItMeets(parser, buf, pos + p.next, hs[1..], end);
      assert buf[pos..end] == buf[pos..pos + p.next] + buf[pos + p.next..end];
    }
  }

  // ----- Main results -----

  ghost predicate GoodHead(kind: Kind, line: StartLine, hs: seq<Header>) {
    GoodLine(kind, line) && GoodHeaders(hs)
  }

  lemma LineParses(kind: Kind, line: StartLine, buf: string)
    requires GoodLine(kind, line) && Lies(PrintStartLine(line), buf, 0)
    ensures StartParserOf(kind)(buf, 0) == Ok(line, |PrintStartLine(line)|)
  {
    assert '\0' !in PrintStartLine(line);
    TextAhead(PrintStartLine(line), buf, 0);
    if kind.Request? {
      RequestLineParses(line, Ahead(buf, 0));
    } else {
      StatusLineParses(line, Ahead(buf, 0));
    }
  }

  // A start line, the headers and the blank line, found one after the other, make a head.
  lemma AssembleHeadWith(start: StartParser, parser: HeaderParser, buf: string, line: StartLine, n: nat, hs: seq<Header>, end: nat)
    requires Bounded(start) && Bounded(parser) && start(buf, 0) == Ok(line, n) && Meets(parser, buf, n, hs, end)
    ensures ParseHeadWith(start, parser, buf, FRESH) == Head(line, hs, end, Complete)
  {
    assert EndsInside(buf, 0, start(buf, 0));
    MeetsWhatItParses(parser, buf, FRESH.(line := line, pos := n), hs, end);
    assert FRESH.headers + hs == hs;
  }

  lemma AssembleHead(kind: Kind, buf: string, line: StartLine, n: nat, hs: seq<Header>, end: nat)
    requires StartParserOf(kind)(buf, 0) == Ok(line, n) && Meets(NextHeaderAt, buf, n, hs, end)
    ensures AtOnce(kind, buf) == Head(line, hs, end, Complete)
  {
    ParsersAreBounded();
    AssembleHeadWith(StartParserOf(kind), NextHeaderAt, buf, line, n, hs, end);
  }

  lemma DismantleHead(kind: Kind, buf: string) returns (n: nat, hs: seq<Header>)
    requires AtOnce(kind, buf).verdict == Complete
    ensures var r := AtOnce(kind, buf);
      StartParserOf(kind)(buf, 0) == Ok(r.line, n) && n <= |buf| && r.headers == hs && Meets(NextHeaderAt, buf, n, hs, r.pos)
  {
    ParsersAreBounded();
    var p := StartParserOf(kind)(buf, 0);
    assert EndsInside(buf, 0, p);
    n := p.next;
    hs := ParsesWhatItMeets(NextHeaderAt, buf, FRESH.(line := p.value, pos := n));
    assert FRESH.headers + hs == hs;
  }

  lemma HeadersAreMet(buf: string, pos: nat, hs: seq<Header>)
    requires GoodHeaders(hs) && Lies(PrintHeaders(hs), buf, pos)
    ensures Meets(NextHeaderAt, buf, pos, hs, pos + |PrintHeaders(hs)|)
  {
    NextHeaderReadsBack();
    MeetsPrinted(NextHeaderAt, buf, pos, hs);
  }

  // A printed head, whatever follows it, parses to the same fields, and parsing
  // stops right after the blank line.
  lemma PrintThenParse(kind: Kind, line: StartLine, hs: seq<Header>, rest: string)
    requires GoodHead(kind, line, hs)
    ensures AtOnce(kind, PrintHead(line, hs) + rest) == Head(line, hs, |PrintHead(line, hs)|, Complete)
  {
    var buf, n := PrintHead(line, hs) + rest, |PrintStartLine(line)|;
    PrintedPartsLie(line, hs, rest);
    LineParses(kind, line, buf);
    HeadersAreMet(buf, n, hs);
    AssembleHead(kind, buf, line, n, hs, n + |PrintHeaders(hs)|);
  }

  lemma PrintedPartsLie(line: StartLine, hs: seq<Header>, rest: string)
    ensures var buf := PrintHead(line, hs) + rest;
      Lies(PrintStartLine(line), buf, 0) && Lies(PrintHeaders(hs), buf, |PrintStartLine(line)|)
  {
    assert Lies(PrintHead(line, hs), PrintHead(line, hs) + rest, 0);
    LiesInParts(PrintStartLine(line), PrintHeaders(hs), PrintHead(line, hs) + rest, 0);
  }

  lemma LinePrints(kind: Kind, buf: string)
    requires StartParserOf(kind)(buf, 0).Ok?
    ensures var p := StartParserOf(kind)(buf, 0);
      GoodLine(kind, p.value) && p.next <= |buf| && PrintStartLine(p.value) == buf[..p.next]
  {
    var c := Ahead(buf, 0);
    CStrIsPrefix(buf[0..]);
    if kind.Request? {
      RequestLinePrints(c);
      TextBehind(buf, 0, ParseRequestLine(c).next);
    } else {
      StatusLinePrints(c);
      TextBehind(buf, 0, ParseStatusLine(c).next);
    }
  }

  // Whatever head parsing accepts, printing its fields gives back the very
  // bytes consumed; and the fields are such that printing loses nothing.
  lemma ParseThenPrint(kind: Kind, buf: string)
    requires AtOnce(kind, buf).verdict == Complete
    ensures var r := AtOnce(kind, buf); GoodHead(kind, r.line, r.headers) && PrintHead(r.line, r.headers) == buf[..r.pos]
  {
    var n, hs := DismantleHead(kind, buf);
    LinePrints(kind, buf);
    NextHeaderAcceptsPrinted();
    PrintsWhatItMeets(NextHeaderAt, buf, n, hs, AtOnce(kind, buf).pos);
    PrefixJoins(buf, n, AtOnce(kind, buf).pos);
  }

  lemma PrefixJoins(buf: string, i: nat, j: nat)
    requires i <= j <= |buf|
    ensures buf[..i] + buf[i..j] == buf[..j]
  {
  }

  // So a head survives printing and parsing exactly when its fields are free of
  // the separators that would be looked for in them.
  lemma RoundTripIffGood(kind: Kind, line: StartLine, hs: seq<Header>, rest: string)
    ensures AtOnce(kind, PrintHead(line, hs) + rest) == Head(line, hs, |PrintHead(line, hs)|, Complete) <==> GoodHead(kind, line, hs)
  {
    if GoodHead(kind, line, hs) {
      PrintThenParse(kind, line, hs, rest);
    } else if AtOnce(kind, PrintHead(line, hs) + rest).verdict == Complete {
      ParseThenPrint(kind, PrintHead(line, hs) + rest);
    }
  }
}
