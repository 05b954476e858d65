// Peers that do what is asked of them can bring a connection to its end, from any point of any
// run; and the states spoken of in module Framing are reached.
module Completion {
  import opened HttpHead
  import opened HttpHeadPrint
  import opened Connection
  import opened ConnectionRuns
  import opened Framing
  import Chunks = ChunkScanner
  import Vector

  // ----- What the peers send -----

  // A text that is a whole forwardable request, and no part of which is one.
  ghost predicate Askable(m: Meaning, ask: string) {
    && Forwardable(m.request(ask))
    && forall part: string :: part <= ask && part != ask ==> m.request(part).verdict == Reading
  }

  predicate AnswerPart(m: Meaning, answer: string, part: string) {
    var h := m.response(part);
    (h.verdict == Reading || AcceptedHead(h)) && Settled(m, part) && (Framed(m, part) ==> part == answer)
  }

  // A text that makes an acceptable head, if any, all parts of which are settled and no proper one
  // is a whole response.
  ghost predicate Answerable(m: Meaning, answer: string) {
    forall part: string :: part <= answer ==> AnswerPart(m, answer, part)
  }

  ghost predicate GoodRequest(line: StartLine, hs: seq<Header>) {
    GoodHead(Request, line, hs) && line.RequestLine? && line.verb == "GET" && HasHost(hs)
  }

  lemma GoodRequestIsAskable(line: StartLine, hs: seq<Header>)
    requires GoodRequest(line, hs)
    ensures Askable(Whole(), PrintHead(line, hs))
  {
    PrintThenParse(Request, line, hs, "");
    assert PrintHead(line, hs) + "" == PrintHead(line, hs);
    forall part: string | part <= PrintHead(line, hs) && part != PrintHead(line, hs) ensures Whole().request(part).verdict == Reading {
      PartOfHeadIsNoHead(Request, line, hs, part);
    }
  }

  lemma GoodResponseIsAnswerable(line: StartLine, hs: seq<Header>, body: string)
    requires GoodResponse(line, hs, body)
    ensures Answerable(Whole(), PrintHead(line, hs) + body)
  {
    forall part: string | part <= PrintHead(line, hs) + body ensures AnswerPart(Whole(), PrintHead(line, hs) + body, part) {
      GoodResponseIsFramed(line, hs, body, part);
      HeadThenBody(line, hs, body, part);
    }
  }

  // ----- One event further -----

  // The connection has what it is sent, in part: of the answer, up to upto.
  ghost predicate OnTrack(m: Meaning, c: Conn, ask: string, upto: string, answer: string) {
    && Sane(c) && Joint(c) && Good(m, c) && Live(c)
    && c.wire.fromClient <= ask && c.wire.fromServer <= upto <= answer
    && Askable(m, ask) && Answerable(m, answer)
  }

  // The descriptor that socket() returns.
  function FreshFd(clientFd: int): int {
    if clientFd == 0 then 1 else 0
  }

  // The next thing the peers can do; connect says how connect() turns out.
  function NextEvent(c: Conn, ask: string, upto: string, connect: Outcome): Event
    requires c.wire.fromClient <= ask && c.wire.fromServer <= upto
  {
    var fd := FreshFd(c.clientFd);
    match c.step
    case ParsingReqType => Event(c.clientFd, Events(true, false), Io(ask[|c.wire.fromClient|..], 0, fd, connect, true))
    case ParsingReqHeaders => Event(c.clientFd, Events(true, false), Io(ask[|c.wire.fromClient|..], 0, fd, connect, true))
    case Connecting =>
      if c.link == AwaitConnection then Event(c.serverFd, Events(false, true), Io("", 0, fd, connect, true))
      else Event(c.clientFd, Events(true, false), Io("", 0, fd, connect, true))
    case SendingReq => Event(c.serverFd, Events(false, true), Io("", |c.cbuff| + 1, fd, connect, true))
    case SendingResp => Event(c.clientFd, Events(false, true), Io("", |c.sbuff| + 1, fd, connect, true))
    case _ => Event(c.serverFd, Events(true, false), Io(upto[|c.wire.fromServer|..], 0, fd, connect, true))
  }

  predicate Listening(c: Conn) {
    c.step == ParsingRespCode || c.step == ParsingRespHeaders || c.step == ParsingRespBody
  }

  function BytesLeft(c: Conn, ask: string, upto: string): int {
    |ask| - |c.wire.fromClient| + |upto| - |c.wire.fromServer|
  }

  // From c to r: fewer bytes to come, or as many and a later step.
  predicate Advances(c: Conn, r: Conn, ask: string, upto: string) {
    && r.wire.fromClient <= ask && r.wire.fromServer <= upto && (Live(r) || r.step == Handled)
    && (BytesLeft(r, ask, upto) < BytesLeft(c, ask, upto)
        || (BytesLeft(r, ask, upto) == BytesLeft(c, ask, upto) && Rank(r.step) > Rank(c.step)))
  }

  lemma PieceFits(buf: string, all: string, io: Io) returns (d: string)
    requires buf <= all && buf != all && io.ready == all[|buf|..]
    ensures d == Received(io) != "" && buf + d <= all
  {
    d := Received(io);
    assert d == all[|buf|..|buf| + |d|];
    assert buf + d == all[..|buf| + |d|];
  }

  lemma RequestReadAdvances(m: Meaning, c: Conn, io: Io, ask: string)
    requires Sane(c) && (c.step == ParsingReqType || c.step == ParsingReqHeaders) && c.link == NotConnected
    requires Askable(m, ask) && c.cbuff <= ask && ParseHead(Request, c.cbuff, c.request) == m.request(c.cbuff)
    requires io.connect != Refused && io.socket >= 0
    ensures var r := RequestRead(c, io); r.wire == c.wire && Rank(r.step) <= Rank(Connecting)
    ensures c.cbuff == ask ==> RequestRead(c, io).step == Connecting && RequestRead(c, io).link == if io.connect.Done? then Connected else AwaitConnection
  {
    assert c.cbuff != ask ==> m.request(c.cbuff).verdict == Reading;
  }

  lemma AskingAdvances(m: Meaning, c: Conn, ask: string, upto: string, answer: string, connect: Outcome)
    requires OnTrack(m, c, ask, upto, answer) && Resumable(m) && connect != Refused
    requires c.step == ParsingReqType || c.step == ParsingReqHeaders
    ensures var e := NextEvent(c, ask, upto, connect); var r := ReadRequest(c, e.fd, e.ev, e.io);
      && Advances(c, r, ask, upto) && Rank(r.step) <= Rank(Connecting)
      && (r.step == Connecting ==> r.link == if connect.Done? then Connected else AwaitConnection)
  {
    var e := NextEvent(c, ask, upto, connect);
    var d := PieceFits(c.cbuff, ask, e.io);
    assert RequestResumed(m, c.cbuff, d);
    RequestReadAdvances(m, c.(cbuff := c.cbuff + d, wire := c.wire.(fromClient := c.wire.fromClient + d)), e.io, ask);
    if c.cbuff + d != ask {
      StillReading(m, c.(cbuff := c.cbuff + d, wire := c.wire.(fromClient := c.wire.fromClient + d)), e.io, ask);
    }
  }

  lemma StillReading(m: Meaning, c: Conn, io: Io, ask: string)
    requires Sane(c) && (c.step == ParsingReqType || c.step == ParsingReqHeaders)
    requires Askable(m, ask) && c.cbuff <= ask && c.cbuff != ask && ParseHead(Request, c.cbuff, c.request) == m.request(c.cbuff)
    ensures RequestRead(c, io).step != Connecting
  {
    assert m.request(c.cbuff).verdict == Reading;
  }

  lemma ConnectingAdvances(m: Meaning, c: Conn, ask: string, upto: string, answer: string, connect: Outcome)
    requires OnTrack(m, c, ask, upto, answer) && c.step == Connecting
    ensures var e := NextEvent(c, ask, upto, connect); Advances(c, Connect(c, e.fd, e.ev, e.io), ask, upto)
  {
  }

  lemma SendingAdvances(m: Meaning, c: Conn, ask: string, upto: string, answer: string, connect: Outcome)
    requires OnTrack(m, c, ask, upto, answer) && c.step == SendingReq
    ensures var e := NextEvent(c, ask, upto, connect); Advances(c, SendRequest(c, e.fd, e.ev, e.io), ask, upto)
  {
  }

  lemma SendingRestAdvances(m: Meaning, c: Conn, ask: string, upto: string, answer: string, connect: Outcome)
    requires OnTrack(m, c, ask, upto, answer) && c.step == SendingResp
    ensures var e := NextEvent(c, ask, upto, connect); Advances(c, SendRest(c, e.fd, e.ev, e.io), ask, upto)
  {
  }

  lemma ForwardingAdvances(m: Meaning, c: Conn, ask: string, upto: string, answer: string, connect: Outcome)
    requires OnTrack(m, c, ask, upto, answer) && (c.step == Connecting || c.step == SendingReq || c.step == SendingResp)
    ensures var e := NextEvent(c, ask, upto, connect); Advances(c, Handle(c, e.fd, e.ev, e.io), ask, upto)
  {
    match c.step
    case Connecting => ConnectingAdvances(m, c, ask, upto, answer, connect);
    case SendingReq => SendingAdvances(m, c, ask, upto, answer, connect);
    case _ => SendingRestAdvances(m, c, ask, upto, answer, connect);
  }

  lemma ScanBodyLives(c: Conn)
    requires Sane(c) && c.step == ParsingRespBody
    ensures Live(ScanBody(c)) && ScanBody(c).wire.(cached := c.wire.cached) == c.wire
  {
  }

  lemma ResponseReadLives(c: Conn)
    requires Sane(c) && (c.step == ParsingRespCode || c.step == ParsingRespHeaders)
    requires var h := ParseHead(Response, c.sbuff, c.response); h.verdict == Reading || AcceptedHead(h)
    ensures Live(ResponseRead(c)) && ResponseRead(c).wire.(cached := c.wire.cached) == c.wire
  {
    var h := ParseHead(Response, c.sbuff, c.response);
    if AcceptedHead(h) {
      ScanBodyLives(BodyBegun(c, h));
    }
  }

  // Whatever the server sends, as long as the head it makes is acceptable, the connection lives.
  lemma ListeningGoesOn(m: Meaning, c: Conn, e: Event)
    requires Sane(c) && Joint(c) && Good(m, c) && Listening(c) && Resumable(m)
    requires e.fd == c.serverFd && e.ev.readable && Received(e.io) != ""
    requires var h := m.response(c.wire.fromServer + Received(e.io)); h.verdict == Reading || AcceptedHead(h)
    ensures var r := Handle(c, e.fd, e.ev, e.io);
      Live(r) && r.wire.fromClient == c.wire.fromClient && r.wire.fromServer == c.wire.fromServer + Received(e.io)
  {
    var d := Received(e.io);
    assert Resumed(m, c.sbuff, d);
    if c.step == ParsingRespBody {
      ScanBodyLives(BodyArrived(c, e.io));
    } else {
      ResponseReadLives(ReadFromServer(c, e.io));
    }
  }

  lemma ListeningAdvances(m: Meaning, c: Conn, ask: string, upto: string, answer: string, connect: Outcome)
    requires OnTrack(m, c, ask, upto, answer) && Listening(c) && c.wire.fromServer != upto && Resumable(m)
    ensures var e := NextEvent(c, ask, upto, connect); Advances(c, Handle(c, e.fd, e.ev, e.io), ask, upto)
  {
    var e := NextEvent(c, ask, upto, connect);
    var d := PieceFits(c.wire.fromServer, upto, e.io);
    assert AnswerPart(m, answer, c.wire.fromServer + d);
    ListeningGoesOn(m, c, e);
  }

  lemma NextIsLegal(c: Conn, ask: string, upto: string, connect: Outcome)
    requires Sane(c) && Joint(c) && Live(c) && c.wire.fromClient <= ask && c.wire.fromServer <= upto
    ensures Legal(c, NextEvent(c, ask, upto, connect))
  {
  }

  // A live connection that has the whole answer is sending it.
  lemma WholeAnswerIsSent(m: Meaning, c: Conn, ask: string, answer: string)
    requires OnTrack(m, c, ask, answer, answer) && c.wire.fromServer == answer && Framed(m, answer)
    ensures !Listening(c)
  {
    assert AnswerPart(m, answer, answer);
  }

  lemma NextAdvances(m: Meaning, c: Conn, ask: string, upto: string, answer: string, connect: Outcome)
    requires OnTrack(m, c, ask, upto, answer) && Resumable(m) && connect != Refused
    requires Listening(c) ==> c.wire.fromServer != upto
    ensures var e := NextEvent(c, ask, upto, connect); var r := Handle(c, e.fd, e.ev, e.io);
      && Legal(c, e) && Advances(c, r, ask, upto) && Good(m, r) && (r.step != Handled ==> OnTrack(m, r, ask, upto, answer))
  {
    var e := NextEvent(c, ask, upto, connect);
    NextIsLegal(c, ask, upto, connect);
    HandleIsJoint(c, e);
    HandleIsGood(m, c, e);
    if Listening(c) {
      ListeningAdvances(m, c, ask, upto, answer, connect);
    } else if c.step == ParsingReqType || c.step == ParsingReqHeaders {
      AskingAdvances(m, c, ask, upto, answer, connect);
    } else {
      ForwardingAdvances(m, c, ask, upto, answer, connect);
    }
  }

  // ----- To the end -----

  lemma {:induction false} RunToTheEnd(m: Meaning, c: Conn, ask: string, answer: string) returns (more: seq<Event>)
    requires OnTrack(m, c, ask, answer, answer) && Framed(m, answer) && Resumable(m)
    ensures IsRun(c, more)
    ensures var r := After(c, more); r.step == Handled && Good(m, r) && r.wire.fromClient <= ask && r.wire.fromServer <= answer
    decreases BytesLeft(c, ask, answer), 10 - Rank(c.step)
  {
    if Listening(c) && c.wire.fromServer == answer {
      WholeAnswerIsSent(m, c, ask, answer);
    }
    NextAdvances(m, c, ask, answer, answer, InProgress);
    var e := NextEvent(c, ask, answer, InProgress);
    var r := Handle(c, e.fd, e.ev, e.io);
    var rest := [];
    if r.step != Handled {
      rest := RunToTheEnd(m, r, ask, answer);
    }
    more := [e] + rest;
    assert more[1..] == rest;
  }

  // What a connection that is HANDLED has relayed of such an exchange.
  lemma DeliveredIsAll(m: Meaning, c: Conn, ask: string, answer: string)
    requires Good(m, c) && c.step == Handled && Askable(m, ask) && Answerable(m, answer)
    requires c.wire.fromClient <= ask && c.wire.fromServer <= answer
    ensures c.wire.toServer == ask && c.wire.toClient == answer
  {
    assert AnswerPart(m, answer, c.wire.fromServer);
  }

  // Whatever has happened, as long as the connection lives and the bytes it has come from a good
  // request and a good response, it can be brought to HANDLED with both delivered in full.
  lemma CanBeCompleted(clientFd: int, es: seq<Event>, askLine: StartLine, askHs: seq<Header>,
                       line: StartLine, hs: seq<Header>, body: string) returns (more: seq<Event>)
    requires Run(clientFd, es) && Live(Reached(clientFd, es))
    requires GoodRequest(askLine, askHs) && Reached(clientFd, es).wire.fromClient <= PrintHead(askLine, askHs)
    requires GoodResponse(line, hs, body) && Reached(clientFd, es).wire.fromServer <= PrintHead(line, hs) + body
    ensures IsRun(Reached(clientFd, es), more)
    ensures var r := After(Reached(clientFd, es), more);
      r.step == Handled && r.wire.toServer == PrintHead(askLine, askHs) && r.wire.toClient == PrintHead(line, hs) + body
  {
    ReachedIsGood(clientFd, es);
    WholeIsResumable();
    GoodRequestIsAskable(askLine, askHs);
    GoodResponseIsAnswerable(line, hs, body);
    GoodResponseIsFramed(line, hs, body, PrintHead(line, hs) + body);
    var ask, answer := PrintHead(askLine, askHs), PrintHead(line, hs) + body;
    more := RunToTheEnd(Whole(), Reached(clientFd, es), ask, answer);
    DeliveredIsAll(Whole(), After(Reached(clientFd, es), more), ask, answer);
  }

  // ----- Beginnings and ends of runs -----

  lemma StartsOnTrack(clientFd: int, ask: string, upto: string, answer: string)
    requires Askable(Whole(), ask) && Answerable(Whole(), answer) && upto <= answer
    ensures OnTrack(Whole(), Init(clientFd), ask, upto, answer) && Resumable(Whole())
  {
    WholeIsResumable();
    InitIsGood(Whole(), clientFd);
  }

  lemma {:induction false} OneMore(c: Conn, es: seq<Event>, e: Event)
    requires Sane(c) && IsRun(c, es) && Legal(After(c, es), e)
    ensures IsRun(c, es + [e]) && After(c, es + [e]) == Handle(After(c, es), e.fd, e.ev, e.io)
    decreases |es|
  {
    if |es| == 0 {
      assert es + [e] == [e];
    } else {
      OneMore(Handle(c, es[0].fd, es[0].ev, es[0].io), es[1..], e);
      assert (es + [e])[1..] == es[1..] + [e];
    }
  }

  // ----- The client stops reading -----

  // Nothing of the response has been sent to the client.
  predicate Unsent(c: Conn) {
    c.step == ParsingRespBody || c.step == SendingResp ==> c.sent == 0
  }

  lemma ScanKeepsUnsent(c: Conn)
    requires Sane(c) && c.step == ParsingRespBody && c.sent == 0
    ensures Unsent(ScanBody(c)) && ScanBody(c).step != Handled
  {
  }

  lemma ResponseKeepsUnsent(c: Conn)
    requires Sane(c) && (c.step == ParsingRespCode || c.step == ParsingRespHeaders)
    ensures Unsent(ResponseRead(c)) && ResponseRead(c).step != Handled
  {
    var h := ParseHead(Response, c.sbuff, c.response);
    if AcceptedHead(h) {
      ScanKeepsUnsent(BodyBegun(c, h));
    }
  }

  lemma RequestKeepsUnsent(c: Conn, io: Io)
    requires Sane(c) && (c.step == ParsingReqType || c.step == ParsingReqHeaders)
    ensures Unsent(RequestRead(c, io)) && RequestRead(c, io).step != Handled
  {
  }

  lemma NextKeepsUnsent(c: Conn, ask: string, upto: string)
    requires Sane(c) && Joint(c) && Live(c) && c.step != SendingResp && Unsent(c)
    requires c.wire.fromClient <= ask && c.wire.fromServer <= upto
    ensures var e := NextEvent(c, ask, upto, InProgress); var r := Handle(c, e.fd, e.ev, e.io); Unsent(r) && r.step != Handled
  {
    var e := NextEvent(c, ask, upto, InProgress);
    var d := Received(e.io);
    if d == "" {
    } else if c.step == ParsingReqType || c.step == ParsingReqHeaders {
      RequestKeepsUnsent(c.(cbuff := c.cbuff + d, wire := c.wire.(fromClient := c.wire.fromClient + d)), e.io);
    } else if c.step == ParsingRespCode || c.step == ParsingRespHeaders {
      ResponseKeepsUnsent(ReadFromServer(c, e.io));
    } else if c.step == ParsingRespBody {
      ScanKeepsUnsent(BodyArrived(c, e.io));
    }
  }

  lemma {:induction false} RunToSending(m: Meaning, c: Conn, ask: string, answer: string) returns (more: seq<Event>)
    requires OnTrack(m, c, ask, answer, answer) && Framed(m, answer) && Resumable(m) && Unsent(c)
    ensures IsRun(c, more)
    ensures var r := After(c, more); OnTrack(m, r, ask, answer, answer) && r.step == SendingResp && r.sent == 0
    decreases BytesLeft(c, ask, answer), 10 - Rank(c.step)
  {
    more := [];
    if c.step != SendingResp {
      if Listening(c) && c.wire.fromServer == answer {
        WholeAnswerIsSent(m, c, ask, answer);
      }
      NextAdvances(m, c, ask, answer, answer, InProgress);
      NextKeepsUnsent(c, ask, answer);
      var e := NextEvent(c, ask, answer, InProgress);
      var rest := RunToSending(m, Handle(c, e.fd, e.ev, e.io), ask, answer);
      more := [e] + rest;
      assert more[1..] == rest;
    }
  }

  function ClientGone(c: Conn): Event {
    Event(c.clientFd, Events(false, true), Io("", -1, FreshFd(c.clientFd), InProgress, true))
  }

  lemma FirstWriteFails(m: Meaning, c: Conn)
    requires Sane(c) && Joint(c) && Good(m, c) && c.step == SendingResp && c.sent == 0 && m.response("") == FRESH
    ensures var e := ClientGone(c); Legal(c, e) && Handle(c, e.fd, e.ev, e.io).step == DestroyedTwice
  {
    SendRestTwiceIff(m, c, ClientGone(c));
  }

  // Any good request and response, and a client to which nothing can be written, have a run in
  // which the context is destroyed twice.
  lemma DestroyedTwiceIsReached(clientFd: int, askLine: StartLine, askHs: seq<Header>,
                                line: StartLine, hs: seq<Header>, body: string) returns (es: seq<Event>)
    requires GoodRequest(askLine, askHs) && GoodResponse(line, hs, body)
    ensures Run(clientFd, es) && Reached(clientFd, es).step == DestroyedTwice
  {
    var ask, answer := PrintHead(askLine, askHs), PrintHead(line, hs) + body;
    GoodRequestIsAskable(askLine, askHs);
    GoodResponseIsAnswerable(line, hs, body);
    GoodResponseIsFramed(line, hs, body, answer);
    StartsOnTrack(clientFd, ask, answer, answer);
    var before := RunToSending(Whole(), Init(clientFd), ask, answer);
    FirstWriteFails(Whole(), After(Init(clientFd), before));
    OneMore(Init(clientFd), before, ClientGone(After(Init(clientFd), before)));
    es := before + [ClientGone(After(Init(clientFd), before))];
  }

  // ----- The states of module Framing are reached -----

  function AllButTheLast(text: string): string
    requires text != ""
  {
    text[..|text| - 1]
  }

  // All of the answer but its last byte has come.
  ghost predicate Nearly(m: Meaning, c: Conn, ask: string, answer: string) {
    && answer != "" && OnTrack(m, c, ask, AllButTheLast(answer), answer)
    && c.wire.fromServer == AllButTheLast(answer) && Listening(c)
    && (AcceptedHead(m.response(c.wire.fromServer)) ==> c.step == ParsingRespBody)
  }

  lemma NearlyIsListening(m: Meaning, c: Conn, ask: string, answer: string)
    requires |answer| >= 2 && OnTrack(m, c, ask, AllButTheLast(answer), answer) && c.wire.fromServer == AllButTheLast(answer)
    ensures Nearly(m, c, ask, answer)
  {
    assert AnswerPart(m, answer, c.wire.fromServer);
  }

  // What is to happen then: the last byte comes with more behind it, or the client takes all
  // there is.
  datatype Turn = MoreComes(extra: string) | ClientReads

  function TurnEvent(c: Conn, answer: string, turn: Turn): Event
    requires answer != ""
  {
    var fd := FreshFd(c.clientFd);
    match turn
    case MoreComes(extra) => Event(c.serverFd, Events(true, false), Io(answer[|answer| - 1..] + extra, 0, fd, InProgress, true))
    case ClientReads => Event(c.clientFd, Events(false, true), Io("", |c.sbuff|, fd, InProgress, true))
  }

  predicate Turned(c: Conn, turn: Turn) {
    match turn
    case MoreComes(_) => Overread(c)
    case ClientReads => c.step == ParsingRespBody && c.sent == |c.sbuff|
  }

  // The answer begins with a head that announces the length of what follows, or its body has begun.
  ghost predicate Turnable(m: Meaning, answer: string, turn: Turn) {
    match turn
    case MoreComes(extra) => extra != "" && forall more: string :: AnnouncesTooLittle(m, answer, more)
    case ClientReads => answer != "" && AcceptedHead(m.response(AllButTheLast(answer)))
  }

  predicate AnnouncesTooLittle(m: Meaning, answer: string, more: string) {
    var h := m.response(answer + more);
    AcceptedHead(h) && LengthOf(h.headers) != -1 && LengthOf(h.headers) == |answer| - h.pos
  }

  // A read that brings the last byte of the answer brings some of what is behind it.
  lemma ReadsPast(answer: string, extra: string, io: Io) returns (more: string)
    requires answer != "" && extra != "" && io.ready == answer[|answer| - 1..] + extra
    ensures Received(io) != "" && more != "" && AllButTheLast(answer) + Received(io) == answer + more
  {
    var d := Received(io);
    more := d[1..];
    assert |d| >= 2 && d[0] == answer[|answer| - 1];
  }

  lemma MoreOverreads(m: Meaning, c: Conn, ask: string, answer: string, extra: string)
    requires Nearly(m, c, ask, answer) && Turnable(m, answer, MoreComes(extra)) && Resumable(m)
    ensures var e := TurnEvent(c, answer, MoreComes(extra)); Legal(c, e) && Overread(Handle(c, e.fd, e.ev, e.io))
  {
    var e := TurnEvent(c, answer, MoreComes(extra));
    var more := ReadsPast(answer, extra, e.io);
    assert AnnouncesTooLittle(m, answer, more);
    ListeningGoesOn(m, c, e);
    HandleIsGood(m, c, e);
    OverreadByBytes(m, Handle(c, e.fd, e.ev, e.io));
  }

  lemma ClientTakesAll(c: Conn, answer: string)
    requires Sane(c) && Joint(c) && c.step == ParsingRespBody && answer != ""
    ensures var e := TurnEvent(c, answer, ClientReads); Legal(c, e) && Turned(Handle(c, e.fd, e.ev, e.io), ClientReads)
  {
  }

  // A connection that has part of an answer is neither sending it nor done.
  lemma PartIsNotAll(m: Meaning, c: Conn, ask: string, upto: string, answer: string)
    requires Good(m, c) && Askable(m, ask) && Answerable(m, answer) && (upto != answer || !Framed(m, answer))
    requires c.wire.fromServer <= upto <= answer
    ensures c.step != SendingResp && c.step != Handled
  {
    assert AnswerPart(m, answer, c.wire.fromServer);
  }

  // The server stops at upto.
  lemma {:induction false} RunUpTo(m: Meaning, c: Conn, ask: string, upto: string, answer: string) returns (more: seq<Event>)
    requires OnTrack(m, c, ask, upto, answer) && Resumable(m) && (upto != answer || !Framed(m, answer))
    ensures IsRun(c, more)
    ensures var r := After(c, more); OnTrack(m, r, ask, upto, answer) && r.wire.fromServer == upto && Listening(r)
    decreases BytesLeft(c, ask, upto), 10 - Rank(c.step)
  {
    more := [];
    if !Listening(c) || c.wire.fromServer != upto {
      NextAdvances(m, c, ask, upto, answer, InProgress);
      var e := NextEvent(c, ask, upto, InProgress);
      var r := Handle(c, e.fd, e.ev, e.io);
      PartIsNotAll(m, r, ask, upto, answer);
      var rest := RunUpTo(m, r, ask, upto, answer);
      more := [e] + rest;
      assert more[1..] == rest;
    }
  }

  // The server stops short of the last byte of its answer, and then the turn comes.
  lemma RunToTheTurn(m: Meaning, c: Conn, ask: string, answer: string, turn: Turn) returns (more: seq<Event>)
    requires |answer| >= 2 && OnTrack(m, c, ask, AllButTheLast(answer), answer) && Resumable(m) && Turnable(m, answer, turn)
    ensures IsRun(c, more) && Turned(After(c, more), turn)
  {
    more := RunUpTo(m, c, ask, AllButTheLast(answer), answer);
    var r := After(c, more);
    NearlyIsListening(m, r, ask, answer);
    if turn.MoreComes? {
      MoreOverreads(m, r, ask, answer, turn.extra);
    } else {
      ClientTakesAll(r, answer);
    }
    OneMore(c, more, TurnEvent(r, answer, turn));
    more := more + [TurnEvent(r, answer, turn)];
  }

  // A printed head ends in a blank line.
  lemma HeadIsLong(line: StartLine, hs: seq<Header>, body: string)
    requires GoodHead(Response, line, hs)
    ensures |PrintHead(line, hs) + body| >= 2
  {
  }

  lemma SizedAnnouncesTooLittle(line: StartLine, hs: seq<Header>, body: string, more: string)
    requires GoodHead(Response, line, hs) && HasLength(hs) && LengthOf(hs) == |body|
    ensures AnnouncesTooLittle(Whole(), PrintHead(line, hs) + body, more)
  {
    PrintThenParse(Response, line, hs, body + more);
    assert PrintHead(line, hs) + body + more == PrintHead(line, hs) + (body + more);
  }

  // A server that sends a good sized response and anything behind it can always be heard so that
  // the connection is overread, and stays without an end.
  lemma OverreadIsReached(clientFd: int, askLine: StartLine, askHs: seq<Header>,
                          line: StartLine, hs: seq<Header>, body: string, extra: string) returns (es: seq<Event>)
    requires GoodRequest(askLine, askHs) && extra != ""
    requires GoodHead(Response, line, hs) && HasLength(hs) && LengthOf(hs) == |body|
    ensures Run(clientFd, es) && Overread(Reached(clientFd, es))
  {
    var ask, answer := PrintHead(askLine, askHs), PrintHead(line, hs) + body;
    GoodRequestIsAskable(askLine, askHs);
    GoodResponseIsAnswerable(line, hs, body);
    HeadIsLong(line, hs, body);
    StartsOnTrack(clientFd, ask, AllButTheLast(answer), answer);
    forall more: string ensures AnnouncesTooLittle(Whole(), answer, more) {
      SizedAnnouncesTooLittle(line, hs, body, more);
    }
    es := RunToTheTurn(Whole(), Init(clientFd), ask, answer, MoreComes(extra));
  }

  // With any good response that has a body, the poll loop can be made to spin.
  lemma SpinIsReached(clientFd: int, askLine: StartLine, askHs: seq<Header>,
                      line: StartLine, hs: seq<Header>, body: string) returns (es: seq<Event>)
    requires GoodRequest(askLine, askHs) && GoodResponse(line, hs, body) && body != ""
    ensures Run(clientFd, es) && Reached(clientFd, es).step == ParsingRespBody
    ensures Reached(clientFd, es).sent == |Reached(clientFd, es).sbuff|
  {
    var ask, answer := PrintHead(askLine, askHs), PrintHead(line, hs) + body;
    GoodRequestIsAskable(askLine, askHs);
    GoodResponseIsAnswerable(line, hs, body);
    HeadIsLong(line, hs, body);
    StartsOnTrack(clientFd, ask, AllButTheLast(answer), answer);
    HeadThenBody(line, hs, body, AllButTheLast(answer));
    es := RunToTheTurn(Whole(), Init(clientFd), ask, answer, ClientReads);
  }

  lemma SilenceIsAnswerable()
    ensures Answerable(Whole(), "")
  {
    WholeIsResumable();
    assert Whole().response("") == FRESH;
  }

  lemma {:induction false} AskUntilDialled(m: Meaning, c: Conn, ask: string, answer: string, connect: Outcome) returns (more: seq<Event>)
    requires OnTrack(m, c, ask, answer, answer) && Resumable(m) && connect != Refused
    requires c.step == ParsingReqType || c.step == ParsingReqHeaders
    ensures IsRun(c, more)
    ensures var r := After(c, more); r.step == Connecting && r.link == if connect.Done? then Connected else AwaitConnection
    decreases BytesLeft(c, ask, answer), 10 - Rank(c.step)
  {
    var e := NextEvent(c, ask, answer, connect);
    NextAdvances(m, c, ask, answer, answer, connect);
    AskingAdvances(m, c, ask, answer, answer, connect);
    var r := Handle(c, e.fd, e.ev, e.io);
    var rest := [];
    if r.step != Connecting {
      rest := AskUntilDialled(m, r, ask, answer, connect);
    }
    more := [e] + rest;
    assert more[1..] == rest;
  }

  // Any good request leads there when connect() succeeds at once.
  lemma ConnectedAtOnceIsReached(clientFd: int, askLine: StartLine, askHs: seq<Header>) returns (es: seq<Event>)
    requires GoodRequest(askLine, askHs)
    ensures Run(clientFd, es) && Reached(clientFd, es).step == Connecting && Reached(clientFd, es).link == Connected
  {
    var ask := PrintHead(askLine, askHs);
    GoodRequestIsAskable(askLine, askHs);
    WholeIsResumable();
    SilenceIsAnswerable();
    StartsOnTrack(clientFd, ask, "", "");
    es := AskUntilDialled(Whole(), Init(clientFd), ask, "", Done);
  }

  // ----- A cut that matters -----

  // A chunked body has begun, and d comes.
  lemma PieceComes(m: Meaning, c: Conn, d: string) returns (e: Event)
    requires Sane(c) && Joint(c) && Good(m, c) && c.step == ParsingRespBody && Settled(m, c.sbuff) && Resumable(m)
    requires c.contentLength == -1 && 0 < |d| <= Vector.MIN_READ_BUFF_SIZE
    ensures Legal(c, e)
    ensures var r, sc := Handle(c, e.fd, e.ev, e.io), m.body(c.sbuff, c.response.pos);
      && r.wire.fromClient == c.wire.fromClient && r.wire.fromServer == c.wire.fromServer + d
      && sc.status == Chunks.Scanning && Chunks.Consistent(c.sbuff + d, sc)
      && r.step == if Chunks.Resume(c.sbuff + d, sc).status == Chunks.LastChunk then SendingResp else ParsingRespBody
  {
    e := Event(c.serverFd, Events(true, false), Io(d, 0, FreshFd(c.clientFd), InProgress, true));
    assert BodyResumed(m, c.sbuff, d, c.response.pos);
  }

  // In the body as far as upto, having got the request whole.
  lemma BodyUpTo(m: Meaning, clientFd: int, ask: string, upto: string, answer: string) returns (es: seq<Event>)
    requires OnTrack(m, Init(clientFd), ask, upto, answer) && Resumable(m) && !Framed(m, answer)
    requires AcceptedHead(m.response(upto)) && LengthOf(m.response(upto).headers) == -1
    ensures Run(clientFd, es)
    ensures var c := Reached(clientFd, es);
      && Sane(c) && Joint(c) && Good(m, c) && c.step == ParsingRespBody && Settled(m, c.sbuff) && c.contentLength == -1
      && c.wire.fromClient == ask && c.wire.fromServer == c.sbuff == upto && c.response == m.response(upto)
  {
    es := RunUpTo(m, Init(clientFd), ask, upto, answer);
    assert AnswerPart(m, answer, upto);
  }

  // A head that announces chunks, and an empty line: no part of it is a whole response.
  lemma BlankLineIsAnswerable(line: StartLine, hs: seq<Header>)
    requires GoodHead(Response, line, hs) && HasCoding(hs) && !HasLength(hs)
    ensures Answerable(Whole(), PrintHead(line, hs) + "\r\n") && !Framed(Whole(), PrintHead(line, hs) + "\r\n")
  {
    var head := PrintHead(line, hs);
    Chunks.BlankLineDependsOnCut(head);
    forall part: string | part <= head + "\r\n"
      ensures AnswerPart(Whole(), head + "\r\n", part) && !Framed(Whole(), part)
    {
      HeadThenBody(line, hs, "\r\n", part);
      if |part| >= |head| {
        Chunks.Resumes(part, head + "\r\n", Chunks.Start(|head|));
      }
    }
  }

  lemma HeadThenPiece(clientFd: int, ask: string, line: StartLine, hs: seq<Header>, part: string, d: string) returns (es: seq<Event>)
    requires GoodHead(Response, line, hs) && HasCoding(hs) && !HasLength(hs) && part <= "\r\n"
    requires Askable(Whole(), ask) && 0 < |d| <= Vector.MIN_READ_BUFF_SIZE
    ensures Run(clientFd, es)
    ensures var c, head := Reached(clientFd, es), PrintHead(line, hs); var sc := BodyAtOnce(head + part, |head|);
      && c.wire.fromClient == ask && c.wire.fromServer == head + part + d
      && sc.status == Chunks.Scanning && Chunks.Consistent(head + part + d, sc)
      && c.step == if Chunks.Resume(head + part + d, sc).status == Chunks.LastChunk then SendingResp else ParsingRespBody
  {
    var head := PrintHead(line, hs);
    BlankLineIsAnswerable(line, hs);
    assert head + part <= head + "\r\n";
    StartsOnTrack(clientFd, ask, head + part, head + "\r\n");
    HeadThenBody(line, hs, "\r\n", head + part);
    var before := BodyUpTo(Whole(), clientFd, ask, head + part, head + "\r\n");
    var e := PieceComes(Whole(), Reached(clientFd, before), d);
    InitIsSane(clientFd);
    OneMore(Init(clientFd), before, e);
    es := before + [e];
  }

  lemma FiveInParts(head: string)
    ensures head + "" + Chunks.FIVE == head + Chunks.FIVE == head + "\r\n" + "5\r"
    ensures BodyAtOnce(head + "", |head|) == Chunks.Start(|head|)
  {
    Chunks.NothingToScan(head, |head|);
    assert head[..|head|] == head == head + "";
  }

  // With any good request and any head that announces chunks there are two runs in which the same
  // bytes have come, and the body is at its end in one of them only.
  lemma CutMattersInRuns(clientFd: int, askLine: StartLine, askHs: seq<Header>, line: StartLine, hs: seq<Header>)
    returns (es1: seq<Event>, es2: seq<Event>)
    requires GoodRequest(askLine, askHs) && GoodHead(Response, line, hs) && HasCoding(hs) && !HasLength(hs)
    ensures Run(clientFd, es1) && Run(clientFd, es2)
    ensures var c1, c2 := Reached(clientFd, es1), Reached(clientFd, es2);
      && c1.wire.fromClient == c2.wire.fromClient
      && c1.wire.fromServer == c2.wire.fromServer == PrintHead(line, hs) + Chunks.FIVE
      && c1.step == ParsingRespBody && c2.step == SendingResp
  {
    var ask, head := PrintHead(askLine, askHs), PrintHead(line, hs);
    GoodRequestIsAskable(askLine, askHs);
    Chunks.BlankLineDependsOnCut(head);
    FiveInParts(head);
    es1 := HeadThenPiece(clientFd, ask, line, hs, "", Chunks.FIVE);
    es2 := HeadThenPiece(clientFd, ask, line, hs, "\r\n", "5\r");
  }
}
