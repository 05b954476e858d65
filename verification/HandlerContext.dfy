// proxy/connection_handler.c as it is written: one context object whose fields every step
// updates in place, with the loops over header lines and chunks. Each method is tied to the
// step function of module Connection; the ASSERTs of the C code are assertions here.
module HandlerContext {
  import opened Wrappers
  import opened CStrings
  import opened HttpHead
  import opened Connection
  import Chunks = ChunkScanner

  // find_header
  method SearchHeader(headers: seq<Header>, name: string) returns (i: nat)
    ensures i == FindHeader(headers, name)
  {
    i := 0;
    while i < |headers|
      invariant i <= |headers| && forall k :: 0 <= k < i ==> headers[k].name != name
    {
      if headers[i].name == name {
        return;
      }
      i := i + 1;
    }
  }

  // ----- The loops, one turn at a time -----

  lemma HeaderTurn(kind: Kind, buf: string, h: Head)
    requires h.pos <= |buf| && h.line != Unread
    ensures var p := NextHeaderAt(buf, h.pos);
      && EndsInside(buf, h.pos, p)
      && ParseHead(kind, buf, h) == match p
         case NoEndOfLine => h
         case ParsingError => h.(verdict := Failed)
         case EndOfHeader(next) => h.(pos := h.pos + next, verdict := Complete)
         case Ok(header, next) => ParseHead(kind, buf, h.(headers := h.headers + [header], pos := h.pos + next))
  {
    ParsersAreBounded();
    assert EndsInside(buf, h.pos, NextHeaderAt(buf, h.pos));
  }

  lemma StartTurn(kind: Kind, buf: string, h: Head)
    requires h.pos <= |buf| && h.line == Unread
    ensures var p := StartParserOf(kind)(buf, h.pos);
      && EndsInside(buf, h.pos, p)
      && (p.Ok? ==> p.value != Unread)
      && ParseHead(kind, buf, h) == match p
         case Ok(line, next) => ParseHead(kind, buf, h.(line := line, pos := h.pos + next))
         case ParsingError => h.(verdict := Failed)
         case _ => h
  {
    ParsersAreBounded();
    assert EndsInside(buf, h.pos, StartParserOf(kind)(buf, h.pos));
  }

  // What the loop over chunks comes to from the middle of a turn, behind the size line.
  function Collected(buf: string, sc: Chunks.Scan): Chunks.Scan
    requires Chunks.Collectable(buf, sc)
  {
    Chunks.SizeLineIsBounded();
    Chunks.Collect(Chunks.SizeLineAt, buf, sc)
  }

  lemma SizeLineTurn(buf: string, sc: Chunks.Scan)
    requires Chunks.Consistent(buf, sc) && sc.status == Chunks.Scanning
    ensures var l := Chunks.SizeLineAt(buf, sc.pos);
      && Chunks.EndsInside(buf, sc.pos, l)
      && Chunks.Resume(buf, sc) ==
           if sc.size != -1 then Collected(buf, sc)
           else match l
                case NoLine => sc
                case Size(size, next) => Collected(buf, Chunks.Scan(sc.pos + next, size, 0, Chunks.Scanning))
  {
    Chunks.SizeLineIsBounded();
    assert Chunks.EndsInside(buf, sc.pos, Chunks.SizeLineAt(buf, sc.pos));
  }

  // Whether the chunk is all there and another turn follows.
  predicate ChunkEnds(buf: string, sc: Chunks.Scan)
    requires Chunks.Collectable(buf, sc)
  {
    sc.got + Chunks.Available(buf, sc) == Chunks.Target(sc.size) && sc.size != 2
  }

  // As much of the chunk as has arrived is passed over.
  function ChunkTaken(buf: string, sc: Chunks.Scan): (r: Chunks.Scan)
    requires Chunks.Collectable(buf, sc)
    ensures r.status == Chunks.Scanning ==> Chunks.Consistent(buf, r)
    ensures sc.pos <= r.pos && (ChunkEnds(buf, sc) && sc.got < Chunks.Target(sc.size) ==> sc.pos < r.pos)
  {
    var ra := Chunks.Available(buf, sc);
    if ChunkEnds(buf, sc) then Chunks.Start(sc.pos + ra)
    else if sc.got + ra < Chunks.Target(sc.size) then sc.(pos := sc.pos + ra, got := sc.got + ra)
    else Chunks.Scan(sc.pos + ra, 2, 2, Chunks.LastChunk)
  }

  lemma ChunkTurn(buf: string, sc: Chunks.Scan)
    requires Chunks.Collectable(buf, sc)
    ensures var r := ChunkTaken(buf, sc);
      Collected(buf, sc) == if ChunkEnds(buf, sc) then Chunks.Resume(buf, r) else r
  {
    Chunks.SizeLineIsBounded();
  }

  // ----- The head in two steps -----

  // The request line has been looked for.
  function StartLineTaken(c: Conn, p: Parsed<StartLine>): (r: Conn)
    requires Sane(c) && c.step == ParsingReqType && EndsInside(c.cbuff, c.request.pos, p)
    ensures Sane(r)
  {
    match p
    case Ok(line, next) => c.(request := c.request.(line := line, pos := c.request.pos + next), step := ParsingReqHeaders)
    case ParsingError => Destroyed(c)
    case _ => c
  }

  function StatusLineTaken(c: Conn, p: Parsed<StartLine>): (r: Conn)
    requires Sane(c) && c.step == ParsingRespCode && EndsInside(c.sbuff, c.response.pos, p)
    ensures Sane(r)
  {
    match p
    case Ok(line, next) => c.(response := c.response.(line := line, pos := c.response.pos + next), step := ParsingRespHeaders)
    case ParsingError => Destroyed(c)
    case _ => c
  }

  // How the head goes on after its first line.
  predicate HeadTaken(h: Head, p: Parsed<StartLine>, whole: Head) {
    match p
    case Ok(line, next) => line != Unread
    case ParsingError => whole == h.(verdict := Failed)
    case _ => whole == h
  }

  lemma RequestJudgedAlike(c: Conn, c': Conn, h: Head, io: Io)
    requires Sane(c) && (c.step == ParsingReqType || c.step == ParsingReqHeaders) && Sane(c') && h.pos <= |c.cbuff|
    requires c' == c.(request := c'.request, step := ParsingReqHeaders)
    ensures RequestJudged(c', h, io) == RequestJudged(c, h, io)
  {
  }

  lemma ResponseJudgedAlike(c: Conn, c': Conn, h: Head)
    requires Sane(c) && (c.step == ParsingRespCode || c.step == ParsingRespHeaders) && Sane(c') && h.pos <= |c.sbuff|
    requires c' == c.(response := c'.response, step := ParsingRespHeaders)
    ensures ResponseJudged(c', h) == ResponseJudged(c, h)
  {
    if AcceptedHead(h) {
      assert BodyBegun(c', h) == BodyBegun(c, h);
    }
  }

  // The headers have been looked for; the body is not parsed yet.
  function HeadersEnded(c: Conn, h: Head): (r: Conn)
    requires Sane(c) && h.pos <= |c.sbuff| && c.step == ParsingRespHeaders
    ensures Sane(r)
  {
    match h.verdict
    case Failed => Destroyed(c)
    case Reading => c.(response := h, step := if h.line == Unread then ParsingRespCode else ParsingRespHeaders)
    case Complete => if !HasLength(h.headers) && !HasCoding(h.headers) then Destroyed(c) else BodyBegun(c, h)
  }

  lemma HeadersEndedAlike(c: Conn, c': Conn, h: Head)
    requires Sane(c) && c.step == ParsingRespHeaders && Sane(c') && h.pos <= |c.sbuff|
    requires c' == c.(response := c'.response)
    ensures HeadersEnded(c', h) == HeadersEnded(c, h)
  {
  }

  lemma RequestInTwoSteps(c: Conn, p: Parsed<StartLine>, h: Head, io: Io)
    requires Sane(c) && c.step == ParsingReqType && c.request.line == Unread && c.request.verdict == Reading
    requires EndsInside(c.cbuff, c.request.pos, p) && h.pos <= |c.cbuff| && HeadTaken(c.request, p, h)
    ensures RequestJudged(c, h, io) == if p.Ok? then RequestJudged(StartLineTaken(c, p), h, io) else StartLineTaken(c, p)
  {
    if p.Ok? {
      RequestJudgedAlike(c, StartLineTaken(c, p), h, io);
    }
  }

  lemma ResponseInTwoSteps(c: Conn, p: Parsed<StartLine>, h: Head)
    requires Sane(c) && c.step == ParsingRespCode && c.response.line == Unread && c.response.verdict == Reading
    requires EndsInside(c.sbuff, c.response.pos, p) && h.pos <= |c.sbuff| && HeadTaken(c.response, p, h)
    ensures ResponseJudged(c, h) == if p.Ok? then ResponseJudged(StatusLineTaken(c, p), h) else StatusLineTaken(c, p)
  {
    if p.Ok? {
      ResponseJudgedAlike(c, StatusLineTaken(c, p), h);
    }
  }

  lemma RequestFromStart(c: Conn, io: Io)
    requires Sane(c) && c.step == ParsingReqType && c.request.line == Unread && c.request.verdict == Reading
    ensures var p := RequestLineAt(c.cbuff, c.request.pos);
      && EndsInside(c.cbuff, c.request.pos, p)
      && (p.Ok? ==> p.value != Unread)
      && RequestRead(c, io) == if p.Ok? then RequestRead(StartLineTaken(c, p), io) else StartLineTaken(c, p)
  {
    var p, h := RequestLineTurn(c);
    RequestReadInTwoSteps(c, p, h, io);
  }

  lemma RequestLineTurn(c: Conn) returns (p: Parsed<StartLine>, h: Head)
    requires Sane(c) && c.step == ParsingReqType && c.request.line == Unread && c.request.verdict == Reading
    ensures p == RequestLineAt(c.cbuff, c.request.pos) && h == ParseHead(Request, c.cbuff, c.request) && h.pos <= |c.cbuff|
    ensures EndsInside(c.cbuff, c.request.pos, p) && HeadTaken(c.request, p, h)
    ensures p.Ok? ==> h == ParseHead(Request, c.cbuff, StartLineTaken(c, p).request)
  {
    StartTurn(Request, c.cbuff, c.request);
    p, h := RequestLineAt(c.cbuff, c.request.pos), ParseHead(Request, c.cbuff, c.request);
  }

  // The request line is p, and what the whole head comes to is h.
  lemma RequestReadInTwoSteps(c: Conn, p: Parsed<StartLine>, h: Head, io: Io)
    requires Sane(c) && c.step == ParsingReqType && c.request.line == Unread && c.request.verdict == Reading
    requires EndsInside(c.cbuff, c.request.pos, p) && h.pos <= |c.cbuff| && HeadTaken(c.request, p, h)
    requires h == ParseHead(Request, c.cbuff, c.request)
    requires p.Ok? ==> h == ParseHead(Request, c.cbuff, StartLineTaken(c, p).request)
    ensures RequestRead(c, io) == if p.Ok? then RequestRead(StartLineTaken(c, p), io) else StartLineTaken(c, p)
  {
    RequestInTwoSteps(c, p, h, io);
  }

  // What handle() does after the headers: the body, if there is one.
  function BodyNext(c: Conn): (r: Conn)
    requires Sane(c)
  {
    if c.step == ParsingRespBody then ScanBody(c) else c
  }

  lemma ResponseFromHeaders(c: Conn)
    requires Sane(c) && c.step == ParsingRespHeaders && c.response.line != Unread
    ensures ResponseRead(c) == BodyNext(HeadersEnded(c, ParseHead(Response, c.sbuff, c.response)))
  {
  }

  lemma ResponseFromStart(c: Conn)
    requires Sane(c) && c.step == ParsingRespCode && c.response.line == Unread && c.response.verdict == Reading
    ensures var p := StatusLineAt(c.sbuff, c.response.pos);
      && EndsInside(c.sbuff, c.response.pos, p)
      && (p.Ok? ==> p.value != Unread)
      && ResponseRead(c) == if p.Ok? then ResponseRead(StatusLineTaken(c, p)) else StatusLineTaken(c, p)
  {
    var p, h := StatusLineTurn(c);
    ResponseReadInTwoSteps(c, p, h);
  }

  lemma StatusLineTurn(c: Conn) returns (p: Parsed<StartLine>, h: Head)
    requires Sane(c) && c.step == ParsingRespCode && c.response.line == Unread && c.response.verdict == Reading
    ensures p == StatusLineAt(c.sbuff, c.response.pos) && h == ParseHead(Response, c.sbuff, c.response) && h.pos <= |c.sbuff|
    ensures EndsInside(c.sbuff, c.response.pos, p) && HeadTaken(c.response, p, h)
    ensures p.Ok? ==> h == ParseHead(Response, c.sbuff, StatusLineTaken(c, p).response)
  {
    StartTurn(Response, c.sbuff, c.response);
    p, h := StatusLineAt(c.sbuff, c.response.pos), ParseHead(Response, c.sbuff, c.response);
  }

  // The status line is p, and what the whole head comes to is h.
  lemma ResponseReadInTwoSteps(c: Conn, p: Parsed<StartLine>, h: Head)
    requires Sane(c) && c.step == ParsingRespCode && c.response.line == Unread && c.response.verdict == Reading
    requires EndsInside(c.sbuff, c.response.pos, p) && h.pos <= |c.sbuff| && HeadTaken(c.response, p, h)
    requires h == ParseHead(Response, c.sbuff, c.response)
    requires p.Ok? ==> h == ParseHead(Response, c.sbuff, StatusLineTaken(c, p).response)
    ensures ResponseRead(c) == if p.Ok? then ResponseRead(StatusLineTaken(c, p)) else StatusLineTaken(c, p)
  {
    ResponseInTwoSteps(c, p, h);
  }

  // What a read from the server is made of, the head being unread or in part.
  function AnswerRead(c: Conn, io: Io): (r: Conn)
    requires Sane(c) && (c.step == ParsingRespCode || c.step == ParsingRespHeaders)
    ensures Sane(r)
  {
    if Received(io) == "" then Destroyed(c) else ResponseRead(ReadFromServer(c, io))
  }

  lemma ReadsAnswer(c: Conn, fd: int, ev: Events, io: Io)
    requires Sane(c) && (c.step == ParsingRespCode || c.step == ParsingRespHeaders) && fd == c.serverFd && ev.readable
    ensures ReadResponse(c, fd, ev, io) == AnswerRead(c, io)
  {
  }

  // Which parser a step runs agrees with what has been parsed.
  predicate Staged(c: Conn) {
    && (c.step == ParsingReqType ==> c.request.line == Unread)
    && (c.step == ParsingReqHeaders ==> c.request.line != Unread)
    && (c.step == ParsingRespCode ==> c.response.line == Unread)
    && (c.step == ParsingRespHeaders ==> c.response.line != Unread)
  }

  lemma GoodIsStaged(m: Meaning, c: Conn)
    requires Good(m, c)
    ensures Staged(c)
  {
  }

  // ----- The context -----

  // The request head is complete; the response head is.
  predicate PastRequest(step: Step) {
    match step
    case ParsingReqType => false
    case ParsingReqHeaders => false
    case _ => true
  }

  predicate Dead(step: Step) {
    step == Handled || step == HandledExceptionally || step == DestroyedTwice
  }

  predicate InBody(step: Step) {
    step == ParsingRespBody || step == SendingResp
  }

  class Context {
    var clientFd: int
    var serverFd: int
    var connectionState: Link
    var clientEvents: Mask
    var serverEvents: Mask
    var requestLine: StartLine
    var requestHeaders: seq<Header>
    var cbuff: string
    var cppos: nat
    var responseLine: StartLine
    var responseHeaders: seq<Header>
    var contentLength: int
    var sended: nat
    var received: nat
    var sbuff: string
    var sppos: nat
    var chunkSize: int
    var chunkRead: nat
    var handlingStep: Step
    // Why the loop over chunks stopped, which the C code keeps in its control flow.
    var scanStatus: Chunks.Status
    ghost var wire: Wire
    ghost var bodyStart: nat

    ghost function ScanView(): Chunks.Scan
      reads this
    {
      if InBody(handlingStep) then Chunks.Scan(sppos, chunkSize, chunkRead, scanStatus) else Chunks.Start(0)
    }

    // sppos is the position in the head first and in the body later; of a destroyed context
    // nothing is seen that was freed.
    ghost function View(): Conn
      reads this
    {
      if Dead(handlingStep) then
        Conn(clientFd, serverFd, connectionState, clientEvents, serverEvents, FRESH, "", FRESH,
             contentLength, "", received, Chunks.Start(0), sended, handlingStep, wire)
      else
        Conn(clientFd, serverFd, connectionState, clientEvents, serverEvents,
             Head(requestLine, requestHeaders, cppos, if PastRequest(handlingStep) then Complete else Reading), cbuff,
             Head(responseLine, responseHeaders, if InBody(handlingStep) then bodyStart else sppos, if InBody(handlingStep) then Complete else Reading),
             contentLength, sbuff, received, ScanView(), sended, handlingStep, wire)
    }

    ghost predicate Valid()
      reads this
    {
      Sane(View()) && Joint(View()) && Good(Whole(), View())
    }

    // init_context
    constructor (clientFd: int)
      ensures View() == Init(clientFd) && Valid()
    {
      requestLine, requestHeaders, cbuff, cppos := Unread, [], "", 0;
      responseLine, responseHeaders, contentLength, sbuff, sppos := Unread, [], 0, "", 0;
      sended, received, chunkSize, chunkRead := 0, 0, -1, 0;
      connectionState := NotConnected;
      this.clientFd := clientFd;
      serverFd := -1;
      clientEvents := PollIn;
      serverEvents := NoEvents;
      handlingStep := ParsingReqType;
      wire, bodyStart, scanStatus := SILENT, 0, Chunks.Scanning;
      new;
      WholeIsResumable();
      InitIsGood(Whole(), clientFd);
    }

    method DestroyContext()
      modifies `cbuff, `sbuff, `handlingStep
      ensures sbuff == "" && handlingStep == HandledExceptionally && View() == Destroyed(old(View()))
    {
      cbuff, sbuff := "", "";
      handlingStep := HandledExceptionally;
    }

    // read_to_vchar on the client's socket
    method ReadFromClient(io: Io) returns (ok: bool)
      modifies `cbuff, `wire
      ensures ok == (Received(io) != "")
      ensures cbuff == old(cbuff) + Received(io)
      ensures wire == old(wire).(fromClient := old(wire).fromClient + Received(io))
    {
      cbuff := cbuff + Received(io);
      wire := wire.(fromClient := wire.fromClient + Received(io));
      ok := Received(io) != "";
    }

    method ReadFromServer(io: Io) returns (ok: bool)
      modifies `sbuff, `wire
      ensures ok == (Received(io) != "")
      ensures sbuff == old(sbuff) + Received(io)
      ensures wire == old(wire).(fromServer := old(wire).fromServer + Received(io))
    {
      sbuff := sbuff + Received(io);
      wire := wire.(fromServer := wire.fromServer + Received(io));
      ok := Received(io) != "";
    }

    ghost function Heard(data: string): Conn
      reads this
    {
      View().(cbuff := cbuff + data, wire := wire.(fromClient := wire.fromClient + data))
    }

    method ParsingReqTypeStep(fd: int, ev: Events, io: Io)
      requires Sane(View()) && handlingStep == ParsingReqType && requestLine == Unread
      requires fd == clientFd && ev.readable
      modifies this
      ensures Received(io) == "" ==> View() == Destroyed(old(View()))
      ensures Received(io) != "" ==>
                var c := old(Heard(Received(io)));
                var p := RequestLineAt(c.cbuff, c.request.pos);
                Sane(c) && EndsInside(c.cbuff, c.request.pos, p) && View() == StartLineTaken(c, p)
    {
      assert handlingStep == ParsingReqType && fd == clientFd && ev.readable;
      var ok := ReadFromClient(io);
      if !ok {
        DestroyContext();
        return;
      }
      assert View() == old(Heard(Received(io)));
      StartTurn(Request, cbuff, View().request);
      TakeRequestLine(RequestLineAt(cbuff, cppos));
    }

    method TakeRequestLine(p: Parsed<StartLine>)
      requires Sane(View()) && handlingStep == ParsingReqType && EndsInside(cbuff, cppos, p)
      modifies `requestLine, `cppos, `cbuff, `sbuff, `handlingStep
      ensures View() == StartLineTaken(old(View()), p)
    {
      match p {
        case NoEndOfLine =>
        case EndOfHeader(_) =>
        case ParsingError => DestroyContext();
        case Ok(line, next) =>
          requestLine := line;
          cppos := cppos + next;
          handlingStep := ParsingReqHeaders;
      }
    }

    method ParsingReqHeadersStep(fd: int, ev: Events, io: Io, nonSplitted: bool)
      requires Sane(View()) && handlingStep == ParsingReqHeaders && requestLine != Unread && connectionState == NotConnected
      requires fd == clientFd && ev.readable
      modifies this
      ensures View() == if nonSplitted then RequestRead(old(View()), io) else ReadRequest(old(View()), fd, ev, io)
    {
      assert handlingStep == ParsingReqHeaders && fd == clientFd && ev.readable;
      if !nonSplitted {
        var ok := ReadFromClient(io);
        if !ok {
          DestroyContext();
          return;
        }
        assert View() == old(Heard(Received(io)));
      }
      TakeRequestHeaders(io);
    }

    method TakeRequestHeaders(io: Io)
      requires Sane(View()) && handlingStep == ParsingReqHeaders && requestLine != Unread && connectionState == NotConnected
      modifies this
      ensures View() == RequestRead(old(View()), io)
    {
      ghost var c := View();
      var verdict := ParseRequestHeaders();
      ghost var h := Head(requestLine, requestHeaders, cppos, verdict);
      RequestJudgedAlike(c, View(), h, io);
      EndRequestHeaders(verdict, io);
    }

    // What follows the loop's outcome.
    method EndRequestHeaders(verdict: Verdict, io: Io)
      requires Sane(View()) && handlingStep == ParsingReqHeaders && requestLine != Unread && connectionState == NotConnected
      modifies this
      ensures View() == RequestJudged(old(View()), old(Head(requestLine, requestHeaders, cppos, verdict)), io)
    {
      match verdict {
        case Failed => DestroyContext();
        case Reading =>
        case Complete =>
          if !(requestLine.RequestLine? && requestLine.verb == "GET") {
            DestroyContext();
            return;
          }
          handlingStep := Connecting;
          ConnectStep(-1, Events(false, false), io);
      }
    }

    // The loop over parse_next_header.
    method ParseRequestHeaders() returns (verdict: Verdict)
      requires cppos <= |cbuff| && requestLine != Unread
      modifies `requestHeaders, `cppos
      ensures Head(requestLine, requestHeaders, cppos, verdict) == ParseHead(Request, cbuff, old(Head(requestLine, requestHeaders, cppos, Reading)))
    {
      ghost var whole := ParseHead(Request, cbuff, Head(requestLine, requestHeaders, cppos, Reading));
      while true
        invariant cppos <= |cbuff|
        invariant ParseHead(Request, cbuff, Head(requestLine, requestHeaders, cppos, Reading)) == whole
        decreases |cbuff| - cppos
      {
        HeaderTurn(Request, cbuff, Head(requestLine, requestHeaders, cppos, Reading));
        match NextHeaderAt(cbuff, cppos) {
          case ParsingError =>
            return Failed;
          case NoEndOfLine =>
            return Reading;
          case Ok(header, next) =>
            requestHeaders := requestHeaders + [header];
            cppos := cppos + next;
          case EndOfHeader(next) =>
            cppos := cppos + next;
            return Complete;
        }
      }
    }

    method ConnectStep(fd: int, ev: Events, io: Io)
      requires Sane(View()) && handlingStep == Connecting
      requires connectionState == AwaitConnection ==> fd == serverFd && ev.writable
      modifies this
      ensures View() == Connect(old(View()), fd, ev, io)
    {
      if connectionState == AwaitConnection {
        assert handlingStep == Connecting && fd == serverFd && ev.writable;
      }
      if connectionState == Connected || connectionState == AwaitConnection {
        BeginSending(io);
      } else {
        serverFd := io.socket;
        DialHost(io);
      }
    }

    method BeginSending(io: Io)
      requires Sane(View()) && handlingStep == Connecting && connectionState != NotConnected
      modifies `clientEvents, `serverEvents, `sended, `cbuff, `sbuff, `handlingStep, `connectionState
      ensures View() == ConnectionMade(old(View()), io)
    {
      PollServer(PollOut);
      sended := 0;
      handlingStep := SendingReq;
      assert View() == old(View()).(clientEvents := NoEvents, serverEvents := PollOut, sent := 0, step := SendingReq);
      if connectionState == AwaitConnection {
        if !io.soOk {
          DestroyContext();
          return;
        }
        connectionState := Connected;
      }
    }

    method PollServer(mask: Mask)
      modifies `clientEvents, `serverEvents
      ensures View() == old(View()).(clientEvents := NoEvents, serverEvents := mask)
    {
      clientEvents := NoEvents;
      serverEvents := mask;
    }

    method DialHost(io: Io)
      requires Sane(View()) && handlingStep == Connecting
      modifies this
      ensures View() == Dial(old(View()), io)
    {
      if serverFd < 0 {
        DestroyContext();
        return;
      }
      var host := SearchHeader(requestHeaders, "Host");
      if host == |requestHeaders| {
        DestroyContext();
        return;
      }
      match io.connect {
        case Done => connectionState := Connected;
        case InProgress =>
          PollServer(PollOut);
          connectionState := AwaitConnection;
        case Refused => DestroyContext();
      }
    }

    // The bytes that write() took.
    method CountToServer(cnt: nat)
      requires sended + cnt <= |cbuff| && handlingStep == SendingReq
      modifies `sended, `wire
      ensures View() == SentToServer(old(View()), cnt)
    {
      wire := wire.(toServer := wire.toServer + cbuff[sended..sended + cnt]);
      sended := sended + cnt;
    }

    method CountToClient(cnt: nat)
      requires sended + cnt <= |sbuff| && InBody(handlingStep)
      modifies `sended, `wire
      ensures View() == SentToClient(old(View()), cnt)
    {
      wire := wire.(toClient := wire.toClient + sbuff[sended..sended + cnt]);
      sended := sended + cnt;
    }

    method SendingReqStep(fd: int, ev: Events, io: Io)
      requires Sane(View()) && handlingStep == SendingReq
      requires fd == serverFd && ev.writable
      modifies `sended, `wire, `clientEvents, `serverEvents, `cbuff, `sbuff, `handlingStep
      ensures View() == SendRequest(old(View()), fd, ev, io)
    {
      assert handlingStep == SendingReq && fd == serverFd && ev.writable;
      var cnt := Written(io, |cbuff| - sended);
      if cnt <= 0 {
        DestroyContext();
        return;
      }
      CountToServer(cnt);
      if sended == |cbuff| {
        PollServer(PollIn);
        handlingStep := ParsingRespCode;
      }
    }

    ghost function Answered(data: string): Conn
      reads this
    {
      View().(sbuff := sbuff + data, wire := wire.(fromServer := wire.fromServer + data))
    }

    method ParsingRespCodeStep(fd: int, ev: Events, io: Io)
      requires Sane(View()) && handlingStep == ParsingRespCode && responseLine == Unread
      requires fd == serverFd && ev.readable
      modifies this
      ensures Received(io) == "" ==> View() == Destroyed(old(View()))
      ensures Received(io) != "" ==>
                var c := old(Answered(Received(io)));
                var p := StatusLineAt(c.sbuff, c.response.pos);
                Sane(c) && EndsInside(c.sbuff, c.response.pos, p) && View() == StatusLineTaken(c, p)
    {
      assert handlingStep == ParsingRespCode && fd == serverFd && ev.readable;
      var ok := ReadFromServer(io);
      if !ok {
        DestroyContext();
        return;
      }
      assert View() == old(Answered(Received(io)));
      StartTurn(Response, sbuff, View().response);
      TakeStatusLine(StatusLineAt(sbuff, sppos));
    }

    method TakeStatusLine(p: Parsed<StartLine>)
      requires Sane(View()) && handlingStep == ParsingRespCode && EndsInside(sbuff, sppos, p)
      modifies `responseLine, `sppos, `cbuff, `sbuff, `handlingStep
      ensures View() == StatusLineTaken(old(View()), p)
    {
      match p {
        case NoEndOfLine =>
        case EndOfHeader(_) =>
        case ParsingError => DestroyContext();
        case Ok(line, next) =>
          responseLine := line;
          sppos := sppos + next;
          handlingStep := ParsingRespHeaders;
      }
    }

    // Ends where the body begins, which is parsed next if there is one.
    method ParsingRespHeadersStep(fd: int, ev: Events, io: Io, nonSplitted: bool)
      requires Sane(View()) && handlingStep == ParsingRespHeaders && responseLine != Unread
      requires fd == serverFd && ev.readable
      modifies this
      ensures !nonSplitted && Received(io) == "" ==> View() == Destroyed(old(View()))
      ensures nonSplitted || Received(io) != "" ==>
                var c := if nonSplitted then old(View()) else old(Answered(Received(io)));
                Sane(c) && View() == HeadersEnded(c, ParseHead(Response, c.sbuff, c.response))
    {
      assert handlingStep == ParsingRespHeaders && fd == serverFd && ev.readable;
      if !nonSplitted {
        var ok := ReadFromServer(io);
        if !ok {
          DestroyContext();
          return;
        }
        assert View() == old(Answered(Received(io)));
      }
      TakeResponseHeaders();
    }

    method TakeResponseHeaders()
      requires Sane(View()) && handlingStep == ParsingRespHeaders && responseLine != Unread
      modifies this
      ensures View() == HeadersEnded(old(View()), ParseHead(Response, old(sbuff), old(View()).response))
    {
      ghost var c := View();
      var verdict := ParseResponseHeaders();
      ghost var h := Head(responseLine, responseHeaders, sppos, verdict);
      HeadersEndedAlike(c, View(), h);
      EndResponseHeaders(verdict);
    }

    method ParseResponseHeaders() returns (verdict: Verdict)
      requires sppos <= |sbuff| && responseLine != Unread
      modifies `responseHeaders, `sppos
      ensures Head(responseLine, responseHeaders, sppos, verdict) == ParseHead(Response, sbuff, old(Head(responseLine, responseHeaders, sppos, Reading)))
    {
      ghost var whole := ParseHead(Response, sbuff, Head(responseLine, responseHeaders, sppos, Reading));
      while true
        invariant sppos <= |sbuff|
        invariant ParseHead(Response, sbuff, Head(responseLine, responseHeaders, sppos, Reading)) == whole
        decreases |sbuff| - sppos
      {
        HeaderTurn(Response, sbuff, Head(responseLine, responseHeaders, sppos, Reading));
        match NextHeaderAt(sbuff, sppos) {
          case ParsingError =>
            return Failed;
          case NoEndOfLine =>
            return Reading;
          case Ok(header, next) =>
            responseHeaders := responseHeaders + [header];
            sppos := sppos + next;
          case EndOfHeader(next) =>
            sppos := sppos + next;
            return Complete;
        }
      }
    }

    method EndResponseHeaders(verdict: Verdict)
      requires Sane(View()) && handlingStep == ParsingRespHeaders && responseLine != Unread
      modifies this
      ensures View() == HeadersEnded(old(View()), old(Head(responseLine, responseHeaders, sppos, verdict)))
    {
      match verdict {
        case Failed => DestroyContext();
        case Reading =>
        case Complete =>
          var cl := SearchHeader(responseHeaders, "Content-Length");
          var ch := SearchHeader(responseHeaders, "Transfer-Encoding");
          if ch == |responseHeaders| && cl == |responseHeaders| {
            DestroyContext();
            return;
          }
          BeginBody(cl);
      }
    }

    method BeginBody(cl: nat)
      requires Sane(View()) && handlingStep == ParsingRespHeaders && cl == FindHeader(responseHeaders, "Content-Length")
      modifies `contentLength, `received, `clientEvents, `sended, `chunkSize, `chunkRead, `bodyStart, `scanStatus, `handlingStep
      ensures View() == BodyBegun(old(View()), old(Head(responseLine, responseHeaders, sppos, Complete)))
    {
      SetLength(cl);
      clientEvents := PollOut;
      sended := 0;
      BeginChunks();
    }

    method SetLength(cl: nat)
      requires sppos <= |sbuff| && cl == FindHeader(responseHeaders, "Content-Length")
      modifies `contentLength, `received
      ensures contentLength == LengthOf(responseHeaders) && received == |sbuff| - sppos
    {
      contentLength := if cl < |responseHeaders| then Strtol(responseHeaders[cl].value, 10) else -1;
      received := |sbuff| - sppos;
    }

    method BeginChunks()
      requires handlingStep == ParsingRespHeaders
      modifies `chunkSize, `chunkRead, `bodyStart, `scanStatus, `handlingStep
      ensures handlingStep == ParsingRespBody && bodyStart == sppos && ScanView() == Chunks.Start(sppos)
    {
      chunkSize := -1;
      chunkRead := 0;
      bodyStart, scanStatus := sppos, Chunks.Scanning;
      handlingStep := ParsingRespBody;
    }

    // The loop over chunks. scanStatus records why it stopped.
    method ScanChunks()
      requires Chunks.Consistent(sbuff, ScanView()) && InBody(handlingStep) && scanStatus == Chunks.Scanning
      modifies `sppos, `chunkSize, `chunkRead, `scanStatus
      ensures ScanView() == Chunks.Resume(sbuff, old(ScanView()))
    {
      ghost var whole := Chunks.Resume(sbuff, ScanView());
      while true
        invariant Chunks.Consistent(sbuff, ScanView()) && InBody(handlingStep) && scanStatus == Chunks.Scanning
        invariant Chunks.Resume(sbuff, ScanView()) == whole
        decreases |sbuff| - sppos
      {
        var inChunk := BeginTurn();
        if !inChunk {
          return;
        }
        var again := TakeChunk();
        if !again {
          return;
        }
      }
    }

    // Lines 358-367: at a size line, read it, if it is there.
    method BeginTurn() returns (inChunk: bool)
      requires Chunks.Consistent(sbuff, ScanView()) && InBody(handlingStep) && scanStatus == Chunks.Scanning
      modifies `sppos, `chunkSize, `chunkRead
      ensures !inChunk ==> ScanView() == Chunks.Resume(sbuff, old(ScanView()))
      ensures inChunk ==>
                && Chunks.Collectable(sbuff, ScanView()) && Collected(sbuff, ScanView()) == Chunks.Resume(sbuff, old(ScanView()))
                && old(sppos) <= sppos && (old(sppos) == sppos ==> chunkRead < Chunks.Target(chunkSize))
    {
      SizeLineTurn(sbuff, ScanView());
      inChunk := true;
      if chunkSize == -1 {
        inChunk := TakeSizeLine();
      }
    }

    method TakeSizeLine() returns (found: bool)
      requires sppos <= |sbuff|
      modifies `sppos, `chunkSize, `chunkRead
      ensures var l := Chunks.SizeLineAt(sbuff, old(sppos));
        match l
        case NoLine => !found && unchanged(`sppos, `chunkSize, `chunkRead)
        case Size(size, next) => found && sppos == old(sppos) + next && chunkSize == size && chunkRead == 0
    {
      var line := CStr(sbuff[sppos..]);
      var crlf := Find(line, CRLF, 0);
      if crlf < 0 {
        return false;
      }
      chunkSize := Chunks.Wrapped(Strtol(line, 16) + 2);
      chunkRead := 0;
      sppos := sppos + crlf + 2;
      found := true;
    }

    method TakeChunk() returns (again: bool)
      requires Chunks.Collectable(sbuff, ScanView()) && InBody(handlingStep)
      modifies `sppos, `chunkSize, `chunkRead, `scanStatus
      ensures again ==>
                && Chunks.Consistent(sbuff, ScanView()) && scanStatus == Chunks.Scanning
                && Chunks.Resume(sbuff, ScanView()) == Collected(sbuff, old(ScanView()))
                && old(sppos) <= sppos && (old(chunkRead) < Chunks.Target(old(chunkSize)) ==> old(sppos) < sppos)
      ensures !again ==> ScanView() == Collected(sbuff, old(ScanView()))
    {
      ChunkTurn(sbuff, ScanView());
      again := AddToChunk();
    }

    method AddToChunk() returns (again: bool)
      requires Chunks.Collectable(sbuff, ScanView()) && InBody(handlingStep)
      modifies `sppos, `chunkSize, `chunkRead, `scanStatus
      ensures ScanView() == ChunkTaken(sbuff, old(ScanView())) && again == ChunkEnds(sbuff, old(ScanView()))
    {
      var left, available := Chunks.Target(chunkSize) - chunkRead, |sbuff| - sppos;
      var ra := if left > available then available else left;
      sppos := sppos + ra;
      chunkRead := chunkRead + ra;
      if chunkRead != Chunks.Target(chunkSize) {
        return false;
      }
      if chunkSize == 2 {
        scanStatus := Chunks.LastChunk;
        return false;
      }
      chunkRead := 0;
      chunkSize := -1;
      again := true;
    }

    // cache(): what is put into the map is a copy of sbuff.
    method Cache()
      modifies `wire
      ensures wire == old(wire).(cached := Some(sbuff))
    {
      wire := wire.(cached := Some(sbuff));
    }

    method ParsingRespBodyStep(fd: int, ev: Events, io: Io, nonSplitted: bool)
      requires Sane(View()) && handlingStep == ParsingRespBody
      requires fd == serverFd && ev.readable
      modifies this
      ensures View() == if nonSplitted then ScanBody(old(View())) else ReadBody(old(View()), ev, io)
    {
      assert handlingStep == ParsingRespBody && fd == serverFd && ev.readable;
      if !nonSplitted {
        var ok := ReadBodyPiece(io);
        if !ok {
          return;
        }
      }
      ScanRespBody();
    }

    method ReadBodyPiece(io: Io) returns (ok: bool)
      requires Sane(View()) && handlingStep == ParsingRespBody
      modifies `cbuff, `sbuff, `wire, `received, `handlingStep
      ensures ok == (Received(io) != "")
      ensures !ok ==> View() == Destroyed(old(View()))
      ensures ok ==> View() == BodyArrived(old(View()), io) && handlingStep == ParsingRespBody
    {
      ok := ReadFromServer(io);
      if !ok {
        DestroyContext();
        return;
      }
      assert View() == old(Answered(Received(io)));
      received := received + |Received(io)|;
    }

    method ScanRespBody()
      requires Sane(View()) && handlingStep == ParsingRespBody
      modifies `sppos, `chunkSize, `chunkRead, `scanStatus, `contentLength, `clientEvents, `serverEvents, `handlingStep, `wire
      ensures View() == ScanBody(old(View()))
    {
      if contentLength != -1 && contentLength == received {
        sppos := |sbuff|;
        EndBody();
        return;
      }
      if contentLength == -1 {
        ScanChunkedBody();
      }
    }

    method ScanChunkedBody()
      requires Sane(View()) && handlingStep == ParsingRespBody && contentLength == -1 && scanStatus == Chunks.Scanning
      modifies `sppos, `chunkSize, `chunkRead, `scanStatus, `contentLength, `clientEvents, `serverEvents, `handlingStep, `wire
      ensures View() == ScanBody(old(View()))
    {
      ScanOn();
      if scanStatus == Chunks.LastChunk {
        contentLength := received;
        EndBody();
      }
    }

    method ScanOn()
      requires Sane(View()) && handlingStep == ParsingRespBody && scanStatus == Chunks.Scanning
      modifies `sppos, `chunkSize, `chunkRead, `scanStatus
      ensures View() == old(View()).(scan := Chunks.Resume(sbuff, old(ScanView())))
    {
      ScanChunks();
    }

    method PollClient()
      modifies `clientEvents, `serverEvents
      ensures View() == old(View()).(clientEvents := PollOut, serverEvents := NoEvents)
    {
      clientEvents := PollOut;
      serverEvents := NoEvents;
    }

    method EndBody()
      requires handlingStep == ParsingRespBody
      modifies `clientEvents, `serverEvents, `handlingStep, `wire
      ensures View() == Finished(old(View()))
    {
      PollClient();
      handlingStep := SendingResp;
      Cache();
    }

    method SendRespInReceiving(fd: int, ev: Events, io: Io)
      requires Sane(View()) && (handlingStep == ParsingRespBody || (handlingStep == SendingResp && fd == clientFd && ev.writable))
      modifies `sended, `wire, `cbuff, `sbuff, `handlingStep
      ensures View() == SendResponse(old(View()), fd, ev, io) && (Dead(handlingStep) ==> sbuff == "")
    {
      assert handlingStep == ParsingRespBody || (handlingStep == SendingResp && fd == clientFd && ev.writable);
      if |sbuff| - sended > 0 {
        var cnt := Written(io, |sbuff| - sended);
        if cnt <= 0 {
          DestroyContext();
          return;
        }
        CountToClient(cnt);
      }
    }

    method SendRespStep(fd: int, ev: Events, io: Io)
      requires Sane(View()) && handlingStep == SendingResp
      requires fd == clientFd && ev.writable
      modifies this
      ensures View() == SendRest(old(View()), fd, ev, io)
    {
      SendRespInReceiving(fd, ev, io);
      if sended == |sbuff| {
        var again := handlingStep == HandledExceptionally;
        DestroyContext();
        handlingStep := if again then DestroyedTwice else Handled;
      }
    }

    // handle
    method Handle(fd: int, ev: Events, io: Io)
      requires Valid() && Legal(View(), Event(fd, ev, io))
      modifies this
      ensures View() == Connection.Handle(old(View()), fd, ev, io)
      ensures Valid()
    {
      WholeIsResumable();
      HandleIsJoint(View(), Event(fd, ev, io));
      HandleIsGood(Whole(), View(), Event(fd, ev, io));
      GoodIsStaged(Whole(), View());
      Dispatch(fd, ev, io);
    }

    // The body of handle(): a step may leave the next one something to work on, which then does
    // not read again.
    method Dispatch(fd: int, ev: Events, io: Io)
      requires Sane(View()) && Joint(View()) && Staged(View()) && Live(View()) && LetThrough(View(), fd, ev)
      modifies this
      ensures View() == Connection.Handle(old(View()), fd, ev, io)
    {
      if handlingStep == ParsingReqType || handlingStep == ParsingReqHeaders {
        HandleRequest(fd, ev, io);
      } else if handlingStep == Connecting {
        ConnectStep(fd, ev, io);
      } else if handlingStep == SendingReq {
        SendingReqStep(fd, ev, io);
      } else if handlingStep == SendingResp {
        SendRespStep(fd, ev, io);
      } else {
        HandleResponse(fd, ev, io);
      }
    }

    method HandleRequest(fd: int, ev: Events, io: Io)
      requires Sane(View()) && Staged(View()) && (handlingStep == ParsingReqType || handlingStep == ParsingReqHeaders)
      requires connectionState == NotConnected && fd == clientFd && ev.readable
      modifies this
      ensures View() == ReadRequest(old(View()), fd, ev, io)
    {
      var nonSplitted := false;
      if handlingStep == ParsingReqType {
        ghost var c := Heard(Received(io));
        ParsingReqTypeStep(fd, ev, io);
        if Received(io) != "" {
          RequestFromStart(c, io);
        }
        nonSplitted := true;
      }
      if handlingStep == ParsingReqHeaders {
        ParsingReqHeadersStep(fd, ev, io, nonSplitted);
      }
    }

    method HandleResponse(fd: int, ev: Events, io: Io)
      requires Sane(View()) && Joint(View()) && Staged(View()) && LetThrough(View(), fd, ev)
      requires handlingStep == ParsingRespCode || handlingStep == ParsingRespHeaders || handlingStep == ParsingRespBody
      modifies this
      ensures View() == Connection.Handle(old(View()), fd, ev, io)
    {
      if handlingStep == ParsingRespBody {
        HandleBody(fd, ev, io, false);
      } else {
        HandleResponseHead(fd, ev, io);
        if handlingStep == ParsingRespBody {
          HandleBody(fd, ev, io, true);
        }
      }
    }

    method HandleResponseHead(fd: int, ev: Events, io: Io)
      requires Sane(View()) && Staged(View()) && (handlingStep == ParsingRespCode || handlingStep == ParsingRespHeaders)
      requires fd == serverFd && ev.readable
      modifies this
      ensures Sane(View()) && ReadResponse(old(View()), fd, ev, io) == BodyNext(View())
      ensures handlingStep == ParsingRespBody ==> serverFd == old(serverFd) && clientFd == old(clientFd)
    {
      if handlingStep == ParsingRespCode {
        HandleResponseCode(fd, ev, io);
      } else {
        ghost var c := Answered(Received(io));
        ParsingRespHeadersStep(fd, ev, io, false);
        if Received(io) != "" {
          ResponseFromHeaders(c);
        }
      }
    }

    method HandleResponseCode(fd: int, ev: Events, io: Io)
      requires Sane(View()) && Staged(View()) && handlingStep == ParsingRespCode
      requires fd == serverFd && ev.readable
      modifies this
      ensures Sane(View()) && ReadResponse(old(View()), fd, ev, io) == BodyNext(View())
      ensures handlingStep == ParsingRespBody ==> serverFd == old(serverFd) && clientFd == old(clientFd)
    {
      ReadsAnswer(View(), fd, ev, io);
      TakeResponseCode(fd, ev, io);
      if handlingStep == ParsingRespHeaders {
        HandleResponseHeaders(fd, ev, io);
      }
    }

    // The first line of the response: either it is there, and reading the rest from here comes to
    // the same, or this is all.
    method TakeResponseCode(fd: int, ev: Events, io: Io)
      requires Sane(View()) && Staged(View()) && handlingStep == ParsingRespCode
      requires fd == serverFd && ev.readable
      modifies this
      ensures Sane(View()) && serverFd == old(serverFd) && clientFd == old(clientFd) && handlingStep != ParsingRespBody
      ensures var whole := old(AnswerRead(View(), io));
        if handlingStep == ParsingRespHeaders then responseLine != Unread && ResponseRead(View()) == whole else View() == whole
    {
      ghost var c := Answered(Received(io));
      ParsingRespCodeStep(fd, ev, io);
      if Received(io) != "" {
        ResponseFromStart(c);
      }
    }

    // The headers after the code, without another read.
    method HandleResponseHeaders(fd: int, ev: Events, io: Io)
      requires Sane(View()) && Staged(View()) && handlingStep == ParsingRespHeaders
      requires fd == serverFd && ev.readable
      modifies this
      ensures Sane(View()) && ResponseRead(old(View())) == BodyNext(View())
      ensures handlingStep == ParsingRespBody ==> serverFd == old(serverFd) && clientFd == old(clientFd)
    {
      ResponseFromHeaders(View());
      ParsingRespHeadersStep(fd, ev, io, true);
    }

    method HandleBody(fd: int, ev: Events, io: Io, nonSplitted: bool)
      requires Sane(View()) && handlingStep == ParsingRespBody && serverFd != clientFd
      requires (fd == serverFd && ev.readable) || (fd == clientFd && ev.writable && !nonSplitted)
      modifies this
      ensures View() == if nonSplitted then ScanBody(old(View())) else Body(old(View()), fd, ev, io)
    {
      if fd == serverFd {
        ParsingRespBodyStep(fd, ev, io, nonSplitted);
      }
      if fd == clientFd {
        SendRespInReceiving(fd, ev, io);
      }
    }
  }
}
