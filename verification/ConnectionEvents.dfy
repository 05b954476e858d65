// What one event does to a connection, told from the bytes that have passed through its sockets:
// which bytes move, when the connection ends, and how it goes on.
module ConnectionEvents {
  import opened HttpHead
  import opened Connection
  import opened ConnectionRuns

  function Least(a: int, b: int): int {
    if a < b then a else b
  }

  // What a read brings: what is ready, up to 10000 bytes.
  function Brought(io: Io): string {
    io.ready[..Least(|io.ready|, 10000)]
  }

  // How many of n bytes a write takes.
  function Taken(io: Io, n: nat): nat {
    if io.room < 0 then 0 else Least(io.room, n)
  }

  predicate Asks(c: Conn) {
    c.step == ParsingReqType || c.step == ParsingReqHeaders
  }

  predicate Listens(c: Conn, e: Event) {
    c.step == ParsingRespCode || c.step == ParsingRespHeaders || (c.step == ParsingRespBody && e.fd == c.serverFd)
  }

  predicate Answers(c: Conn, e: Event) {
    c.step == SendingResp || (c.step == ParsingRespBody && e.fd == c.clientFd)
  }

  predicate OneFurther(text: string, part: string, more: string, n: nat) {
    |part| + n <= |text| && part == text[..|part|] && more == text[..|part| + n]
  }

  // Each read adds what it brings, each write what it takes of what is left, and nothing else moves.
  ghost predicate Moves(c: Conn, e: Event, r: Conn) {
    var w, w' := c.wire, r.wire;
    && w'.fromClient == w.fromClient + (if Asks(c) then Brought(e.io) else "")
    && w'.fromServer == w.fromServer + (if Listens(c, e) then Brought(e.io) else "")
    && |w.toServer| <= |w.fromClient| && |w.toClient| <= |w.fromServer|
    && (if c.step == SendingReq then OneFurther(w.fromClient, w.toServer, w'.toServer, Taken(e.io, |w.fromClient| - |w.toServer|))
        else w'.toServer == w.toServer)
    && (if Answers(c, e) then OneFurther(w.fromServer, w.toClient, w'.toClient, Taken(e.io, |w.fromServer| - |w.toClient|))
        else w'.toClient == w.toClient)
  }

  // A head that is malformed, or whole and not one to go on with.
  predicate RequestRefused(h: Head) {
    h.verdict == Failed || (h.verdict == Complete && !Forwardable(h))
  }

  predicate ResponseRefused(h: Head) {
    h.verdict == Failed || (h.verdict == Complete && !AcceptedHead(h))
  }

  // When an event ends the connection exceptionally.
  predicate Ends(m: Meaning, c: Conn, e: Event) {
    var d, w, io := Brought(e.io), c.wire, e.io;
    match c.step
    case Connecting => c.link == AwaitConnection && !io.soOk
    case SendingReq => io.room <= 0
    case SendingResp => io.room <= 0 && w.toClient != "" && w.toClient != w.fromServer
    case ParsingRespBody => if e.fd == c.clientFd then io.room <= 0 && w.toClient != w.fromServer else d == ""
    case ParsingRespCode => d == "" || ResponseRefused(m.response(w.fromServer + d))
    case ParsingRespHeaders => d == "" || ResponseRefused(m.response(w.fromServer + d))
    case _ =>
      var h := m.request(w.fromClient + d);
      d == "" || RequestRefused(h) || (h.verdict == Complete && (io.socket < 0 || io.connect == Refused))
  }

  // Where a connection is once the event has not ended it.
  predicate GoesOn(m: Meaning, c: Conn, e: Event, r: Conn) {
    match c.step
    case Connecting => r.step == SendingReq && r.link == Connected
    case SendingReq => r.step == if r.wire.toServer == r.wire.fromClient then ParsingRespCode else SendingReq
    case SendingResp => r.step == if r.wire.toClient == r.wire.fromServer then Handled else SendingResp
    case ParsingRespBody => r.step == ParsingRespBody || (r.step == SendingResp && e.fd == c.serverFd)
    case ParsingRespCode => r.response == m.response(r.wire.fromServer) && AnswerStep(r)
    case ParsingRespHeaders => r.response == m.response(r.wire.fromServer) && AnswerStep(r)
    case _ => r.request == m.request(r.wire.fromClient) && AskStep(r, e.io)
  }

  predicate AskStep(r: Conn, io: Io) {
    if r.request.verdict == Complete then
      r.step == Connecting && r.serverFd == io.socket && r.link == if io.connect == Done then Connected else AwaitConnection
    else
      r.request.verdict == Reading && r.step == if r.request.line == Unread then ParsingReqType else ParsingReqHeaders
  }

  predicate AnswerStep(r: Conn) {
    if r.response.verdict == Complete then r.step == ParsingRespBody || r.step == SendingResp
    else r.response.verdict == Reading && r.step == if r.response.line == Unread then ParsingRespCode else ParsingRespHeaders
  }

  ghost predicate Told(m: Meaning, c: Conn, e: Event, r: Conn) {
    && Moves(c, e, r)
    && (r.step == HandledExceptionally <==> Ends(m, c, e))
    && (r.step != HandledExceptionally && r.step != DestroyedTwice ==> GoesOn(m, c, e, r))
  }

  // ----- Step by step -----

  lemma BroughtIsReceived(io: Io)
    ensures Brought(io) == Received(io)
  {
    assert |io.ready| <= 10000 ==> io.ready[..|io.ready|] == io.ready;
  }

  lemma DialTold(c: Conn, io: Io)
    requires Sane(c) && c.step == Connecting
    ensures var r := Dial(c, io);
      && r.wire == c.wire
      && (r.step == HandledExceptionally <==> c.serverFd < 0 || !HasHost(c.request.headers) || io.connect == Refused)
      && (r.step != HandledExceptionally ==>
            r.step == Connecting && r.request == c.request && r.serverFd == c.serverFd && r.link == if io.connect == Done then Connected else AwaitConnection)
  {
  }

  lemma RequestReadTold(c: Conn, io: Io)
    requires Sane(c) && Asks(c) && c.link == NotConnected
    ensures var h, r := ParseHead(Request, c.cbuff, c.request), RequestRead(c, io);
      && r.wire == c.wire
      && (r.step == HandledExceptionally <==> RequestRefused(h) || (h.verdict == Complete && (io.socket < 0 || io.connect == Refused)))
      && (r.step != HandledExceptionally ==> r.request == h && AskStep(r, io))
  {
    var h := ParseHead(Request, c.cbuff, c.request);
    if h.verdict == Complete && h.line.RequestLine? && h.line.verb == "GET" {
      DialTold(c.(request := h, step := Connecting, serverFd := io.socket), io);
    }
  }

  lemma AskTold(m: Meaning, c: Conn, e: Event)
    requires Sane(c) && Joint(c) && Good(m, c) && Legal(c, e) && Resumable(m) && Asks(c)
    ensures Told(m, c, e, ReadRequest(c, e.fd, e.ev, e.io))
  {
    var d := Received(e.io);
    BroughtIsReceived(e.io);
    assert RequestResumed(m, c.cbuff, d);
    if d != "" {
      RequestReadTold(c.(cbuff := c.cbuff + d, wire := c.wire.(fromClient := c.wire.fromClient + d)), e.io);
    }
  }

  lemma ConnectTold(m: Meaning, c: Conn, e: Event)
    requires Sane(c) && Joint(c) && Good(m, c) && Legal(c, e) && c.step == Connecting
    ensures Told(m, c, e, Connect(c, e.fd, e.ev, e.io))
  {
  }

  lemma SendTold(m: Meaning, c: Conn, e: Event)
    requires Sane(c) && Joint(c) && Good(m, c) && Legal(c, e) && c.step == SendingReq
    ensures Told(m, c, e, SendRequest(c, e.fd, e.ev, e.io))
  {
    var n := Written(e.io, |c.cbuff| - c.sent);
    if n > 0 {
      PartGrows(c.cbuff, c.wire.toServer, c.sent, n);
    }
  }

  lemma ScanBodyTold(c: Conn)
    requires Sane(c) && c.step == ParsingRespBody
    ensures var r := ScanBody(c);
      r.wire.(cached := c.wire.cached) == c.wire && r.response == c.response && (r.step == ParsingRespBody || r.step == SendingResp)
  {
  }

  lemma ResponseReadTold(c: Conn)
    requires Sane(c) && (c.step == ParsingRespCode || c.step == ParsingRespHeaders)
    ensures var h, r := ParseHead(Response, c.sbuff, c.response), ResponseRead(c);
      && r.wire.(cached := c.wire.cached) == c.wire
      && (r.step == HandledExceptionally <==> ResponseRefused(h))
      && (r.step != HandledExceptionally ==> r.response == h && AnswerStep(r))
  {
    var h := ParseHead(Response, c.sbuff, c.response);
    if AcceptedHead(h) {
      ScanBodyTold(BodyBegun(c, h));
    }
  }

  lemma AnswerFollows(m: Meaning, c: Conn, e: Event, h: Head, r: Conn)
    requires Sane(c) && Good(m, c) && (c.step == ParsingRespCode || c.step == ParsingRespHeaders)
    requires Brought(e.io) != "" && h == m.response(c.wire.fromServer + Brought(e.io))
    requires r.wire.(cached := c.wire.cached) == c.wire.(fromServer := c.wire.fromServer + Brought(e.io))
    requires r.step == HandledExceptionally <==> ResponseRefused(h)
    requires r.step != HandledExceptionally ==> r.response == h && AnswerStep(r)
    ensures Told(m, c, e, r)
  {
  }

  lemma AnswerTold(m: Meaning, c: Conn, e: Event)
    requires Sane(c) && Joint(c) && Good(m, c) && Legal(c, e) && Resumable(m) && (c.step == ParsingRespCode || c.step == ParsingRespHeaders)
    ensures Told(m, c, e, ReadResponse(c, e.fd, e.ev, e.io))
  {
    var d := Received(e.io);
    BroughtIsReceived(e.io);
    if d != "" {
      assert Resumed(m, c.sbuff, d);
      ResponseReadTold(ReadFromServer(c, e.io));
      AnswerFollows(m, c, e, m.response(c.sbuff + d), ResponseRead(ReadFromServer(c, e.io)));
    }
  }

  lemma ReadBodyTold(m: Meaning, c: Conn, e: Event)
    requires Sane(c) && Joint(c) && Good(m, c) && Legal(c, e) && c.step == ParsingRespBody && e.fd == c.serverFd
    ensures Told(m, c, e, Body(c, e.fd, e.ev, e.io))
  {
    BroughtIsReceived(e.io);
    if Received(e.io) != "" {
      ScanBodyTold(BodyArrived(c, e.io));
    }
  }

  // What a write to the client does, in the body and behind it.
  ghost predicate WrittenToClient(c: Conn, e: Event, r: Conn) {
    var w, all := c.wire, c.sbuff;
    && |w.toClient| <= |all| && OneFurther(all, w.toClient, r.wire.toClient, Taken(e.io, |all| - |w.toClient|))
    && r.wire == w.(toClient := r.wire.toClient)
    && if e.io.room <= 0 && w.toClient != all then r == Destroyed(c)
       else r == c.(sent := |r.wire.toClient|, wire := r.wire)
  }

  lemma WriteTold(m: Meaning, c: Conn, e: Event)
    requires Sane(c) && Relaying(m, c) && (c.step == ParsingRespBody || (c.step == SendingResp && e.fd == c.clientFd && e.ev.writable))
    ensures WrittenToClient(c, e, SendResponse(c, e.fd, e.ev, e.io))
  {
    var n := Written(e.io, |c.sbuff| - c.sent);
    if n > 0 {
      PartGrows(c.sbuff, c.wire.toClient, c.sent, n);
    } else {
      assert c.wire.toClient == c.sbuff[..c.sent];
    }
  }

  lemma RelayTold(m: Meaning, c: Conn, e: Event)
    requires Sane(c) && Joint(c) && Good(m, c) && Legal(c, e) && c.step == ParsingRespBody && e.fd == c.clientFd
    ensures Told(m, c, e, Body(c, e.fd, e.ev, e.io))
  {
    WriteTold(m, c, e);
  }

  lemma SendRestTold(m: Meaning, c: Conn, e: Event)
    requires Sane(c) && Joint(c) && Good(m, c) && Legal(c, e) && c.step == SendingResp
    ensures Told(m, c, e, SendRest(c, e.fd, e.ev, e.io))
  {
    WriteTold(m, c, e);
    RestFollows(m, c, e, SendResponse(c, e.fd, e.ev, e.io));
  }

  lemma RestFollows(m: Meaning, c: Conn, e: Event, r: Conn)
    requires Sane(c) && Relaying(m, c) && c.step == SendingResp && WrittenToClient(c, e, r) && r == SendResponse(c, e.fd, e.ev, e.io)
    ensures Told(m, c, e, SendRest(c, e.fd, e.ev, e.io))
  {
  }

  // ----- All events of all runs -----

  // Over every run an event moves exactly the bytes that are there to be read or there is room for;
  // it ends the connection exactly when a read brings nothing or makes a head that is malformed or
  // whole and unusable, when a write takes nothing, or when socket(), connect() or the connection
  // fails; and otherwise the connection goes on from what has been read and written.
  lemma EventIsTold(clientFd: int, es: seq<Event>, e: Event)
    requires Run(clientFd, es) && Legal(Reached(clientFd, es), e)
    ensures var c := Reached(clientFd, es); Told(Whole(), c, e, Handle(c, e.fd, e.ev, e.io))
  {
    ReachedIsGood(clientFd, es);
    WholeIsResumable();
    HandleTold(Whole(), Reached(clientFd, es), e);
  }

  lemma HandleTold(m: Meaning, c: Conn, e: Event)
    requires Sane(c) && Joint(c) && Good(m, c) && Legal(c, e) && Resumable(m)
    ensures Told(m, c, e, Handle(c, e.fd, e.ev, e.io))
  {
    match c.step
    case ParsingReqType => AskTold(m, c, e);
    case ParsingReqHeaders => AskTold(m, c, e);
    case Connecting => ConnectTold(m, c, e);
    case SendingReq => SendTold(m, c, e);
    case ParsingRespCode => AnswerTold(m, c, e);
    case ParsingRespHeaders => AnswerTold(m, c, e);
    case ParsingRespBody => if e.fd == c.serverFd { ReadBodyTold(m, c, e); } else { RelayTold(m, c, e); }
    case SendingResp => SendRestTold(m, c, e);
  }
}
