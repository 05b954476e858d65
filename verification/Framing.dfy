// Where a request and a response end (sections 3 and 4.1 of RFC 7230), as a connection sees it.
module Framing {
  import opened CStrings
  import opened Numbers
  import opened HttpHead
  import opened HttpHeadPrint
  import opened Connection
  import opened ConnectionRuns
  import Chunks = ChunkScanner

  // No proper part of a printed head is taken for a whole one, or for a malformed one.
  lemma PartOfHeadIsNoHead(kind: Kind, line: StartLine, hs: seq<Header>, part: string)
    requires GoodHead(kind, line, hs) && part <= PrintHead(line, hs) && part != PrintHead(line, hs)
    ensures AtOnce(kind, part).verdict == Reading
  {
    var all := PrintHead(line, hs);
    PrintThenParse(kind, line, hs, "");
    assert all + "" == all;
    HeadResumes(kind, part, all, FRESH);
  }

  // ----- Requests -----

  lemma StepsBeforeAnswer(m: Meaning, c: Conn)
    requires Good(m, c) && Live(c)
    ensures c.step == ParsingReqType || c.step == ParsingReqHeaders <==> m.request(c.wire.fromClient).verdict == Reading
  {
  }

  // Of a client that sends a good GET request with a Host, and no more, the
  // connection leaves the request steps exactly when the last byte of the blank line is there,
  // and it has then read the very fields that were printed.
  lemma RequestIsRead(clientFd: int, es: seq<Event>, line: StartLine, hs: seq<Header>)
    requires Run(clientFd, es) && Live(Reached(clientFd, es)) && GoodHead(Request, line, hs)
    requires Reached(clientFd, es).wire.fromClient <= PrintHead(line, hs)
    ensures var c := Reached(clientFd, es);
      && (c.step != ParsingReqType && c.step != ParsingReqHeaders <==> c.wire.fromClient == PrintHead(line, hs))
      && (c.wire.fromClient == PrintHead(line, hs) ==> c.request.line == line && c.request.headers == hs)
  {
    var c := Reached(clientFd, es);
    ReachedIsGood(clientFd, es);
    WholeIsResumable();
    StepsBeforeAnswer(Whole(), c);
    HeadIsOfTheBytes(Whole(), c);
    if c.wire.fromClient == PrintHead(line, hs) {
      PrintThenParse(Request, line, hs, "");
      assert PrintHead(line, hs) + "" == PrintHead(line, hs);
    } else {
      PartOfHeadIsNoHead(Request, line, hs, c.wire.fromClient);
    }
  }

  // ----- Responses -----

  lemma HeadThenBody(line: StartLine, hs: seq<Header>, body: string, part: string)
    requires GoodHead(Response, line, hs) && part <= PrintHead(line, hs) + body
    ensures |part| < |PrintHead(line, hs)| ==> AtOnce(Response, part).verdict == Reading
    ensures |part| >= |PrintHead(line, hs)| ==>
              && part == PrintHead(line, hs) + part[|PrintHead(line, hs)|..]
              && part[|PrintHead(line, hs)|..] <= body
              && AtOnce(Response, part) == Head(line, hs, |PrintHead(line, hs)|, Complete)
  {
    var head := PrintHead(line, hs);
    if |part| < |head| {
      assert part <= head;
      PartOfHeadIsNoHead(Response, line, hs, part);
    } else {
      assert part == head + part[|head|..];
      PrintThenParse(Response, line, hs, part[|head|..]);
    }
  }

  // A Content-Length decides, even beside a Transfer-Encoding.
  lemma SizedIsFramed(line: StartLine, hs: seq<Header>, body: string, part: string)
    requires GoodHead(Response, line, hs) && part <= PrintHead(line, hs) + body
    requires HasLength(hs) && LengthOf(hs) == |body|
    ensures Settled(Whole(), part) && (Framed(Whole(), part) <==> part == PrintHead(line, hs) + body)
  {
    HeadThenBody(line, hs, body, part);
  }

  lemma ChunkedIsFramed(line: StartLine, hs: seq<Header>, chunks: seq<Chunks.Chunk>, last: string, part: string)
    requires GoodHead(Response, line, hs) && part <= PrintHead(line, hs) + Chunks.Encode(chunks, last)
    requires (HasCoding(hs) || HasLength(hs)) && LengthOf(hs) == -1
    requires Chunks.GoodChunks(chunks) && Chunks.GoodSizeLine(last, 0)
    ensures Settled(Whole(), part) && (Framed(Whole(), part) <==> part == PrintHead(line, hs) + Chunks.Encode(chunks, last))
  {
    HeadThenBody(line, hs, Chunks.Encode(chunks, last), part);
    var head := PrintHead(line, hs);
    if |part| >= |head| {
      Chunks.EndIsReportedExactly(head, chunks, last, part[|head|..]);
    }
  }

  ghost predicate GoodResponse(line: StartLine, hs: seq<Header>, body: string) {
    && GoodHead(Response, line, hs)
    && ((HasLength(hs) && LengthOf(hs) == |body|) || ChunkedBody(hs, body))
  }

  ghost predicate ChunkedBody(hs: seq<Header>, body: string) {
    && HasCoding(hs) && !HasLength(hs)
    && exists chunks: seq<Chunks.Chunk>, last: string :: IsEncoding(body, chunks, last)
  }

  ghost predicate IsEncoding(body: string, chunks: seq<Chunks.Chunk>, last: string) {
    Chunks.GoodChunks(chunks) && Chunks.GoodSizeLine(last, 0) && body == Chunks.Encode(chunks, last)
  }

  // A response whose first Content-Length is the length of its body, printed in decimal.
  lemma PrintedLengthIsGood(line: StartLine, hs: seq<Header>, k: nat, body: string)
    requires GoodHead(Response, line, hs) && |body| <= LONG_MAX
    requires k < |hs| && hs[k] == Header("Content-Length", Numeral(|body|, 10, false))
    requires forall j :: 0 <= j < k ==> hs[j].name != "Content-Length"
    ensures GoodResponse(line, hs, body)
  {
    var length := Numeral(|body|, 10, false);
    assert FindHeader(hs, "Content-Length") == k;
    PrintedIsRead(|body|, 10, false, "");
    assert length + "" == length;
  }

  lemma GoodResponseIsFramed(line: StartLine, hs: seq<Header>, body: string, part: string)
    requires GoodResponse(line, hs, body) && part <= PrintHead(line, hs) + body
    ensures Settled(Whole(), part) && (Framed(Whole(), part) <==> part == PrintHead(line, hs) + body)
  {
    if HasLength(hs) {
      SizedIsFramed(line, hs, body, part);
    } else {
      var chunks, last :| IsEncoding(body, chunks, last);
      ChunkedIsFramed(line, hs, chunks, last, part);
    }
  }

  // Of a server that sends a good response and no more, sized or chunked, the
  // connection counts the response as complete exactly when its last byte is there, and when
  // the connection is HANDLED the client has got all of it.
  lemma ResponseIsRelayed(clientFd: int, es: seq<Event>, line: StartLine, hs: seq<Header>, body: string)
    requires Run(clientFd, es) && GoodResponse(line, hs, body)
    requires Reached(clientFd, es).wire.fromServer <= PrintHead(line, hs) + body
    ensures var c := Reached(clientFd, es);
      && (Live(c) ==> (c.step == SendingResp <==> c.wire.fromServer == PrintHead(line, hs) + body))
      && (c.step == Handled ==> c.wire.toClient == PrintHead(line, hs) + body)
  {
    var c := Reached(clientFd, es);
    GoodResponseIsFramed(line, hs, body, c.wire.fromServer);
    if Live(c) {
      EndIsExact(clientFd, es);
    } else if c.step == Handled {
      HandledMeansDelivered(clientFd, es);
    }
  }

  // ----- Where the framing rule of the code is not that of section 3.3.3 of RFC 7230 -----

  // Item 1 of that section: responses with these codes have no body.
  predicate Bodiless(line: StartLine) {
    line.StatusLine? && ("1" <= line.code || "204" <= line.code || "304" <= line.code)
  }

  // The rule of that section (items 1, 3 and 5): some responses end with the head; for others a
  // Transfer-Encoding, if there is one, decides over a Content-Length. That the coding ends in
  // chunked is taken for granted, as in the code.
  predicate RfcFramed(m: Meaning, text: string) {
    var h := m.response(text);
    && h.verdict == Complete
    && if Bodiless(h.line) then |text| == h.pos
       else if HasCoding(h.headers) then m.body(text, h.pos).status == Chunks.LastChunk
       else HasLength(h.headers) && LengthOf(h.headers) == |text| - h.pos
  }

  ghost predicate FramedAlike(line: StartLine, hs: seq<Header>, body: string) {
    Framed(Whole(), PrintHead(line, hs) + body) <==> RfcFramed(Whole(), PrintHead(line, hs) + body)
  }

  // A response that can have a body has headers that name one framing only, or a Content-Length
  // that reads as -1 beside a Transfer-Encoding; one that cannot has a Content-Length of 0.
  predicate HeadersAgree(line: StartLine, hs: seq<Header>) {
    if Bodiless(line) then HasLength(hs) && LengthOf(hs) == 0
    else !HasLength(hs) || (HasCoding(hs) <==> LengthOf(hs) == -1)
  }

  lemma FramedByHeaders(line: StartLine, hs: seq<Header>, body: string)
    requires GoodHead(Response, line, hs)
    ensures var text, pos := PrintHead(line, hs) + body, |PrintHead(line, hs)|;
      var ended := BodyAtOnce(text, pos).status == Chunks.LastChunk;
      && (Framed(Whole(), text) <==> (HasLength(hs) || HasCoding(hs)) && if LengthOf(hs) != -1 then LengthOf(hs) == |body| else ended)
      && (RfcFramed(Whole(), text) <==>
            if Bodiless(line) then body == "" else if HasCoding(hs) then ended else HasLength(hs) && LengthOf(hs) == |body|)
  {
    PrintThenParse(Response, line, hs, body);
  }

  // An empty chunked body, whatever follows.
  lemma LastChunkEnds(line: StartLine, hs: seq<Header>, extra: string)
    ensures var head := PrintHead(line, hs); var body := Chunks.Encode([], Chunks.Hex(0)) + extra;
      |body| == 5 + |extra| && BodyAtOnce(head + body, |head|).status == Chunks.LastChunk
  {
    var head, body := PrintHead(line, hs), Chunks.Encode([], Chunks.Hex(0));
    Chunks.HexIsGood(0, false, "");
    assert Chunks.Hex(0) + "" == Chunks.Hex(0);
    Chunks.EncodedBodyIsScanned(head, [], Chunks.Hex(0), extra);
    assert head + body + extra == head + (body + extra);
  }

  lemma NoBodyDoesNotEnd(line: StartLine, hs: seq<Header>)
    ensures var head := PrintHead(line, hs); BodyAtOnce(head + "", |head|).status == Chunks.Scanning
  {
    var head := PrintHead(line, hs);
    assert head + "" == head == head[..|head|];
    Chunks.NothingToScan(head, |head|);
  }

  // A body that is whole by one rule and not by the other, where the headers do not agree.
  lemma DisagreeingBody(line: StartLine, hs: seq<Header>) returns (body: string)
    requires GoodHead(Response, line, hs) && !HeadersAgree(line, hs)
    ensures !FramedAlike(line, hs, body)
  {
    if Bodiless(line) {
      body := "";
      NoBodyDoesNotEnd(line, hs);
    } else {
      var extra := if LengthOf(hs) == 5 then "+" else "";
      body := Chunks.Encode([], Chunks.Hex(0)) + extra;
      LastChunkEnds(line, hs, extra);
    }
    FramedByHeaders(line, hs, body);
  }

  // Exactly the responses whose headers agree are framed as section 3.3.3 demands: for any other
  // head there is a body, whole by one rule and not by the other.
  lemma FramingIsThatOfTheRfcIff(line: StartLine, hs: seq<Header>)
    requires GoodHead(Response, line, hs)
    ensures (forall body: string :: FramedAlike(line, hs, body)) <==> HeadersAgree(line, hs)
  {
    if HeadersAgree(line, hs) {
      forall body: string ensures FramedAlike(line, hs, body) {
        FramedByHeaders(line, hs, body);
      }
    } else {
      var body := DisagreeingBody(line, hs);
    }
  }

  lemma PlainIsField(s: string)
    requires '\0' !in s && '\r' !in s && ' ' !in s && ':' !in s
    ensures Field(s) && Absent(s, " ") && Absent(s, ": ")
  {
  }

  const OK_LINE := StatusLine("HTTP/1.1", "200")
  const NOT_MODIFIED_LINE := StatusLine("HTTP/1.1", "304")
  const LENGTH_HEADER := [Header("Content-Length", "7")]
  const BOTH_HEADERS := [Header("Content-Length", "7"), Header("Transfer-Encoding", "chunked")]

  lemma OkLineIsGood()
    ensures GoodLine(Response, OK_LINE)
  {
    PlainIsField("HTTP/1.1");
    PlainIsField("200");
  }

  lemma LengthIsGood()
    ensures GoodHeader(Header("Content-Length", "7"))
  {
    PlainIsField("Content-Length");
    PlainIsField("7");
  }

  lemma CodingIsGood()
    ensures GoodHeader(Header("Transfer-Encoding", "chunked"))
  {
    PlainIsField("Transfer-Encoding");
    PlainIsField("chunked");
  }

  lemma BothHeadersAreGood()
    ensures GoodHead(Response, OK_LINE, BOTH_HEADERS)
  {
    OkLineIsGood();
    LengthIsGood();
    CodingIsGood();
    assert BOTH_HEADERS[1..] == [Header("Transfer-Encoding", "chunked")];
    assert BOTH_HEADERS[1..][1..] == [];
  }

  lemma OkHasBody()
    ensures !Bodiless(OK_LINE)
  {
    var code := "200";
    assert code[0] == '2' && code[2] == '0' && "1"[0] == '1' && "204"[2] == '4' && "304"[0] == '3';
  }

  lemma EndsBeforeItsLength(line: StartLine, hs: seq<Header>)
    requires GoodHead(Response, line, hs) && !Bodiless(line) && HasLength(hs) && HasCoding(hs) && LengthOf(hs) == 7
    ensures var text := PrintHead(line, hs) + Chunks.Encode([], Chunks.Hex(0)); RfcFramed(Whole(), text) && !Framed(Whole(), text)
  {
    var body := Chunks.Encode([], Chunks.Hex(0));
    LastChunkEnds(line, hs, "");
    assert body + "" == body;
    FramedByHeaders(line, hs, body);
  }

  // A response on which the two rules differ: its chunked body is at an end after five bytes, and
  // the code waits for seven.
  lemma BothHeadersDisagree()
    ensures GoodHead(Response, OK_LINE, BOTH_HEADERS) && !HeadersAgree(OK_LINE, BOTH_HEADERS)
    ensures var text := PrintHead(OK_LINE, BOTH_HEADERS) + Chunks.Encode([], Chunks.Hex(0)); RfcFramed(Whole(), text) && !Framed(Whole(), text)
  {
    BothHeadersAreGood();
    BothAreFound();
    OkHasBody();
    EndsBeforeItsLength(OK_LINE, BOTH_HEADERS);
  }

  lemma BothAreFound()
    ensures HasLength(BOTH_HEADERS) && HasCoding(BOTH_HEADERS) && LengthOf(BOTH_HEADERS) == 7
  {
    assert FindHeader(BOTH_HEADERS, "Content-Length") == 0;
    assert "7"[0] == '7' && "7"[1..] == "";
    assert Digits("7", 10, 0) == Digits("", 10, 7) == 7;
  }

  lemma NotModifiedIsGood()
    ensures GoodHead(Response, NOT_MODIFIED_LINE, LENGTH_HEADER) && Bodiless(NOT_MODIFIED_LINE)
  {
    PlainIsField("HTTP/1.1");
    PlainIsField("304");
    LengthIsGood();
    assert LENGTH_HEADER[1..] == [];
  }

  lemma LengthIsFound()
    ensures HasLength(LENGTH_HEADER) && LengthOf(LENGTH_HEADER) == 7
  {
    assert FindHeader(LENGTH_HEADER, "Content-Length") == 0;
    assert "7"[0] == '7' && "7"[1..] == "";
    assert Digits("7", 10, 0) == Digits("", 10, 7) == 7;
  }

  // Another: a response that says what the length of its body would be, and has none; the code
  // waits for it.
  lemma NoBodyDisagrees()
    ensures GoodHead(Response, NOT_MODIFIED_LINE, LENGTH_HEADER) && !HeadersAgree(NOT_MODIFIED_LINE, LENGTH_HEADER)
    ensures var text := PrintHead(NOT_MODIFIED_LINE, LENGTH_HEADER); RfcFramed(Whole(), text) && !Framed(Whole(), text)
  {
    NotModifiedIsGood();
    LengthIsFound();
    var head := PrintHead(NOT_MODIFIED_LINE, LENGTH_HEADER);
    FramedByHeaders(NOT_MODIFIED_LINE, LENGTH_HEADER, "");
    assert head + "" == head;
  }

  // More bytes have come than Content-Length announced.
  predicate Overread(c: Conn) {
    c.step == ParsingRespBody && c.contentLength != -1 && c.received > c.contentLength
  }

  lemma OverreadStays(c: Conn, e: Event)
    requires Sane(c) && Overread(c)
    ensures var r := Handle(c, e.fd, e.ev, e.io); Overread(r) || r.step == HandledExceptionally || r.step == Aborted
  {
  }

  lemma {:induction false} FinalStays(c: Conn, es: seq<Event>)
    requires Sane(c) && IsRun(c, es) && !Live(c)
    ensures After(c, es) == c
    decreases |es|
  {
  }

  lemma BodyFromStep(m: Meaning, c: Conn)
    requires Good(m, c) && Live(c) && AcceptedHead(m.response(c.wire.fromServer)) && m.response("") == FRESH
    requires Settled(m, c.wire.fromServer) && !Framed(m, c.wire.fromServer)
    ensures var h := m.response(c.wire.fromServer);
      c.step == ParsingRespBody && c.contentLength == LengthOf(h.headers) && c.received == |c.wire.fromServer| - h.pos
  {
  }

  // A live connection is overread exactly when a Content-Length decides and more bytes than that
  // have come.
  lemma OverreadIffExtraBytes(clientFd: int, es: seq<Event>)
    requires Run(clientFd, es) && Live(Reached(clientFd, es))
    ensures var c := Reached(clientFd, es); var h := AtOnce(Response, c.wire.fromServer);
      Overread(c) <==> AcceptedHead(h) && LengthOf(h.headers) != -1 && |c.wire.fromServer| - h.pos > LengthOf(h.headers)
  {
    ReachedIsGood(clientFd, es);
    WholeIsResumable();
    OverreadByBytes(Whole(), Reached(clientFd, es));
  }

  lemma OverreadByBytes(m: Meaning, c: Conn)
    requires Good(m, c) && Live(c) && m.response("") == FRESH
    ensures var h := m.response(c.wire.fromServer);
      Overread(c) <==> AcceptedHead(h) && LengthOf(h.headers) != -1 && |c.wire.fromServer| - h.pos > LengthOf(h.headers)
  {
    if AcceptedHead(m.response(c.wire.fromServer)) && LengthOf(m.response(c.wire.fromServer).headers) != -1 && !Framed(m, c.wire.fromServer) {
      BodyFromStep(m, c);
    }
  }

  // A response whose body is followed by one more byte in the same read is never
  // completed: the test is for equality, and the count only grows.
  lemma {:induction false} OverreadIsNeverHandled(c: Conn, es: seq<Event>)
    requires Sane(c) && Overread(c) && IsRun(c, es)
    ensures After(c, es).step != SendingResp && After(c, es).step != Handled
    decreases |es|
  {
    if |es| > 0 {
      var r := Handle(c, es[0].fd, es[0].ev, es[0].io);
      OverreadStays(c, es[0]);
      if Overread(r) {
        OverreadIsNeverHandled(r, es[1..]);
      } else {
        FinalStays(r, es[1..]);
      }
    }
  }

  // ----- Two consequences of the event masks -----

  // When connect() succeeds at once, exactly input from the client (or its end of stream) lets
  // the connection go on.
  lemma ConnectedAtOnceWaitsForClient(clientFd: int, es: seq<Event>, e: Event)
    requires Run(clientFd, es) && e.io.socket != clientFd
    requires Reached(clientFd, es).step == Connecting && Reached(clientFd, es).link == Connected
    ensures Legal(Reached(clientFd, es), e) <==> e.fd == clientFd && e.ev.readable
  {
    ReachedIsGood(clientFd, es);
    ClientStays(Init(clientFd), es);
  }

  lemma {:induction false} ClientStays(c: Conn, es: seq<Event>)
    requires Sane(c) && IsRun(c, es)
    ensures After(c, es).clientFd == c.clientFd
    decreases |es|
  {
    if |es| > 0 {
      ClientStaysOnce(c, es[0]);
      ClientStays(Handle(c, es[0].fd, es[0].ev, es[0].io), es[1..]);
    }
  }

  lemma ClientStaysOnce(c: Conn, e: Event)
    requires Sane(c)
    ensures Handle(c, e.fd, e.ev, e.io).clientFd == c.clientFd
  {
  }

  // What has been received stays, whatever is then made of it.
  lemma RequestReadKeeps(c: Conn, io: Io)
    requires Sane(c) && (c.step == ParsingReqType || c.step == ParsingReqHeaders)
    ensures RequestRead(c, io).wire.fromClient == c.wire.fromClient
  {
  }

  lemma ScanBodyKeeps(c: Conn)
    requires Sane(c) && c.step == ParsingRespBody
    ensures ScanBody(c).wire.fromServer == c.wire.fromServer
  {
  }

  lemma ResponseReadKeeps(c: Conn)
    requires Sane(c) && (c.step == ParsingRespCode || c.step == ParsingRespHeaders)
    ensures ResponseRead(c).wire.fromServer == c.wire.fromServer
  {
    var h := ParseHead(Response, c.sbuff, c.response);
    if AcceptedHead(h) {
      ScanBodyKeeps(BodyBegun(c, h));
    }
  }

  lemma RequestEventsChange(c: Conn, e: Event)
    requires Sane(c) && Joint(c) && Legal(c, e) && (c.step == ParsingReqType || c.step == ParsingReqHeaders)
    ensures ReadRequest(c, e.fd, e.ev, e.io) != c
  {
    var d := Received(e.io);
    if d != "" {
      RequestReadKeeps(c.(cbuff := c.cbuff + d, wire := c.wire.(fromClient := c.wire.fromClient + d)), e.io);
    }
  }

  lemma ResponseEventsChange(c: Conn, e: Event)
    requires Sane(c) && Joint(c) && Legal(c, e) && (c.step == ParsingRespCode || c.step == ParsingRespHeaders)
    ensures ReadResponse(c, e.fd, e.ev, e.io) != c
  {
    if Received(e.io) != "" {
      ResponseReadKeeps(ReadFromServer(c, e.io));
    }
  }

  lemma BodyEventsChange(c: Conn, e: Event)
    requires Sane(c) && Joint(c) && Legal(c, e) && c.step == ParsingRespBody
    ensures Body(c, e.fd, e.ev, e.io) == c <==> e.fd == c.clientFd && c.sent == |c.sbuff|
  {
    if e.fd == c.serverFd && Received(e.io) != "" {
      ScanBodyKeeps(BodyArrived(c, e.io));
    }
  }

  lemma OtherEventsChange(c: Conn, e: Event)
    requires Sane(c) && Joint(c) && Legal(c, e) && (c.step == Connecting || c.step == SendingReq || c.step == SendingResp)
    ensures Handle(c, e.fd, e.ev, e.io) != c
  {
  }

  // An event that passes the guard changes nothing exactly if it is the client's readiness while
  // the body is being read and the client has been sent all there is; then the loop over poll()
  // spins.
  lemma SpinsIff(clientFd: int, es: seq<Event>, e: Event)
    requires Run(clientFd, es) && Legal(Reached(clientFd, es), e)
    ensures var c := Reached(clientFd, es);
      Handle(c, e.fd, e.ev, e.io) == c <==> c.step == ParsingRespBody && e.fd == clientFd && c.sent == |c.sbuff|
  {
    ReachedIsGood(clientFd, es);
    ClientStays(Init(clientFd), es);
    var c := Reached(clientFd, es);
    match c.step
    case ParsingReqType => RequestEventsChange(c, e);
    case ParsingReqHeaders => RequestEventsChange(c, e);
    case ParsingRespCode => ResponseEventsChange(c, e);
    case ParsingRespHeaders => ResponseEventsChange(c, e);
    case ParsingRespBody => BodyEventsChange(c, e);
    case _ => OtherEventsChange(c, e);
  }

  // While the body is being read and the client has been sent all there is, such an event is
  // always to be had.
  lemma BodySpins(clientFd: int, es: seq<Event>, io: Io)
    requires Run(clientFd, es) && io.socket != clientFd
    requires var c := Reached(clientFd, es); c.step == ParsingRespBody && c.sent == |c.sbuff|
    ensures var c, e := Reached(clientFd, es), Event(clientFd, Events(false, true), io);
      Legal(c, e) && Handle(c, e.fd, e.ev, e.io) == c
  {
    ReachedIsGood(clientFd, es);
    ClientStays(Init(clientFd), es);
  }
}
