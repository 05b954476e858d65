// What holds of a proxied connection over all its runs, however its reads and writes are cut.
module ConnectionRuns {
  import opened Wrappers
  import opened HttpHead
  import opened Connection

  function Reached(clientFd: int, es: seq<Event>): Conn {
    InitIsSane(clientFd);
    After(Init(clientFd), es)
  }

  lemma InitIsSane(clientFd: int)
    ensures Sane(Init(clientFd))
  {
  }

  ghost predicate Run(clientFd: int, es: seq<Event>) {
    InitIsSane(clientFd);
    IsRun(Init(clientFd), es)
  }

  lemma ReachedIsGood(clientFd: int, es: seq<Event>)
    requires Run(clientFd, es)
    ensures var c := Reached(clientFd, es); Sane(c) && Joint(c) && Good(Whole(), c)
  {
    WholeIsResumable();
    InitIsGood(Whole(), clientFd);
    RunIsGood(Whole(), Init(clientFd), es);
  }

  // No ASSERT fails: every event that the dispatch guard lets through meets the
  // conditions of each step it runs.
  lemma AssertsHold(clientFd: int, es: seq<Event>)
    requires Run(clientFd, es)
    ensures Reached(clientFd, es).step != Aborted
    ensures Joint(Reached(clientFd, es))
  {
    ReachedIsGood(clientFd, es);
  }

  // ----- handling_step never goes back -----

  function Rank(s: Step): nat {
    match s
    case ParsingReqType => 0
    case ParsingReqHeaders => 1
    case Connecting => 2
    case SendingReq => 3
    case ParsingRespCode => 4
    case ParsingRespHeaders => 5
    case ParsingRespBody => 6
    case SendingResp => 7
    case Handled => 8
    case HandledExceptionally => 9
    case DestroyedTwice => 10
    case Aborted => 11
  }

  lemma RequestGoesOn(c: Conn, e: Event)
    requires Sane(c) && (c.step == ParsingReqType || (c.step == ParsingReqHeaders && c.request.line != Unread))
    ensures Rank(ReadRequest(c, e.fd, e.ev, e.io).step) >= Rank(c.step)
  {
  }

  lemma ScanGoesOn(c: Conn)
    requires Sane(c) && c.step == ParsingRespBody
    ensures Rank(ScanBody(c).step) >= 6
  {
  }

  lemma ResponseGoesOn(c: Conn)
    requires Sane(c) && (c.step == ParsingRespCode || (c.step == ParsingRespHeaders && c.response.line != Unread))
    ensures Rank(ResponseRead(c).step) >= Rank(c.step)
  {
    var h := ParseHead(Response, c.sbuff, c.response);
    if AcceptedHead(h) {
      ScanGoesOn(BodyBegun(c, h));
    }
  }

  lemma AnswerGoesOn(c: Conn, e: Event)
    requires Sane(c) && (c.step == ParsingRespCode || (c.step == ParsingRespHeaders && c.response.line != Unread))
    ensures Rank(ReadResponse(c, e.fd, e.ev, e.io).step) >= Rank(c.step)
  {
    if Received(e.io) != "" {
      ResponseGoesOn(ReadFromServer(c, e.io));
    }
  }

  lemma BodyGoesOn(c: Conn, e: Event)
    requires Sane(c) && c.step == ParsingRespBody
    ensures Rank(Body(c, e.fd, e.ev, e.io).step) >= 6
  {
    if Received(e.io) != "" {
      ScanGoesOn(BodyArrived(c, e.io));
    }
  }

  lemma HandleGoesOn(c: Conn, e: Event)
    requires Sane(c)
    requires c.step == ParsingReqHeaders ==> c.request.line != Unread
    requires c.step == ParsingRespHeaders ==> c.response.line != Unread
    requires c.step == Connecting ==> c.link != NotConnected
    ensures Rank(Handle(c, e.fd, e.ev, e.io).step) >= Rank(c.step)
  {
    match c.step
    case ParsingReqType => RequestGoesOn(c, e);
    case ParsingReqHeaders => RequestGoesOn(c, e);
    case ParsingRespCode => AnswerGoesOn(c, e);
    case ParsingRespHeaders => AnswerGoesOn(c, e);
    case ParsingRespBody => BodyGoesOn(c, e);
    case _ =>
  }

  lemma {:induction false} RunGoesOn(m: Meaning, c: Conn, es: seq<Event>)
    requires Sane(c) && Joint(c) && Good(m, c) && Resumable(m) && IsRun(c, es)
    ensures Rank(After(c, es).step) >= Rank(c.step)
    decreases |es|
  {
    if |es| > 0 {
      HandleGoesOn(c, es[0]);
      HandleIsJoint(c, es[0]);
      HandleIsGood(m, c, es[0]);
      RunGoesOn(m, Handle(c, es[0].fd, es[0].ev, es[0].io), es[1..]);
    }
  }

  // Over any continuation of any run the step only moves forward.
  lemma StepsNeverGoBack(clientFd: int, es: seq<Event>, more: seq<Event>)
    requires Run(clientFd, es) && IsRun(Reached(clientFd, es), more)
    ensures Rank(After(Reached(clientFd, es), more).step) >= Rank(Reached(clientFd, es).step)
  {
    ReachedIsGood(clientFd, es);
    WholeIsResumable();
    RunGoesOn(Whole(), Reached(clientFd, es), more);
  }

  // ----- The relay -----

  // The server gets a prefix of the client's bytes, and nothing before they are a
  // whole GET request with a Host; it gets all of them before it is listened to; the client gets
  // a prefix of the server's bytes.
  lemma RelayIsTransparent(clientFd: int, es: seq<Event>)
    requires Run(clientFd, es)
    ensures var w := Reached(clientFd, es).wire;
      && w.toServer <= w.fromClient
      && (w.toServer != "" ==> Forwardable(AtOnce(Request, w.fromClient)))
      && (w.fromServer != "" ==> w.toServer == w.fromClient)
      && w.toClient <= w.fromServer
  {
    ReachedIsGood(clientFd, es);
    GoodIsTransparent(Whole(), Reached(clientFd, es));
  }

  // A connection that is HANDLED has delivered all of the request to the server
  // and all of what the server sent to the client, and that is what was cached; if the response is
  // settled, it is well framed.
  lemma HandledMeansDelivered(clientFd: int, es: seq<Event>)
    requires Run(clientFd, es) && Reached(clientFd, es).step == Handled
    ensures var w := Reached(clientFd, es).wire;
      && w.toServer == w.fromClient && Forwardable(AtOnce(Request, w.fromClient))
      && w.toClient == w.fromServer && AcceptedHead(AtOnce(Response, w.fromServer))
      && (Settled(Whole(), w.fromServer) ==> Framed(Whole(), w.fromServer))
      && w.cached == Some(w.fromServer)
  {
    ReachedIsGood(clientFd, es);
  }

  // A settled response counts as complete exactly when the framing rule holds of the
  // bytes received.
  lemma EndIsExact(clientFd: int, es: seq<Event>)
    requires Run(clientFd, es) && Live(Reached(clientFd, es))
    ensures var c := Reached(clientFd, es);
      Settled(Whole(), c.wire.fromServer) ==> (c.step == SendingResp <==> Framed(Whole(), c.wire.fromServer))
  {
    ReachedIsGood(clientFd, es);
    WholeIsResumable();
  }

  // ----- destroy_context -----

  lemma RequestNotTwice(c: Conn, io: Io)
    requires Sane(c) && (c.step == ParsingReqType || c.step == ParsingReqHeaders)
    ensures RequestRead(c, io).step != DestroyedTwice
  {
  }

  lemma ScanNotTwice(c: Conn)
    requires Sane(c) && c.step == ParsingRespBody
    ensures ScanBody(c).step != DestroyedTwice
  {
  }

  lemma ResponseNotTwice(c: Conn)
    requires Sane(c) && (c.step == ParsingRespCode || c.step == ParsingRespHeaders)
    ensures ResponseRead(c).step != DestroyedTwice
  {
    var h := ParseHead(Response, c.sbuff, c.response);
    if AcceptedHead(h) {
      ScanNotTwice(BodyBegun(c, h));
    }
  }

  lemma HandleNotTwice(c: Conn, e: Event)
    requires Sane(c) && Live(c) && c.step != SendingResp
    ensures Handle(c, e.fd, e.ev, e.io).step != DestroyedTwice
  {
    var d := Received(e.io);
    if d == "" {
    } else if c.step == ParsingReqType || c.step == ParsingReqHeaders {
      RequestNotTwice(c.(cbuff := c.cbuff + d, wire := c.wire.(fromClient := c.wire.fromClient + d)), e.io);
    } else if c.step == ParsingRespCode || c.step == ParsingRespHeaders {
      ResponseNotTwice(ReadFromServer(c, e.io));
    } else if c.step == ParsingRespBody {
      ScanNotTwice(BodyArrived(c, e.io));
    }
  }

  // A context is destroyed once, except exactly if the response is complete, the client has been
  // sent nothing of it, and the first write fails: then the counters that are compared after the
  // failure, both 0, say that all has been sent.
  lemma DestroyedTwiceIff(clientFd: int, es: seq<Event>, e: Event)
    requires Run(clientFd, es) && Legal(Reached(clientFd, es), e)
    ensures var c := Reached(clientFd, es);
      Handle(c, e.fd, e.ev, e.io).step == DestroyedTwice <==> c.step == SendingResp && c.sent == 0 && e.io.room <= 0
  {
    ReachedIsGood(clientFd, es);
    WholeIsResumable();
    var c := Reached(clientFd, es);
    if c.step != SendingResp {
      HandleNotTwice(c, e);
    } else {
      SendRestTwiceIff(Whole(), c, e);
    }
  }

  lemma SendRestTwiceIff(m: Meaning, c: Conn, e: Event)
    requires Sane(c) && Joint(c) && Good(m, c) && c.step == SendingResp && Legal(c, e) && m.response("") == FRESH
    ensures SendRest(c, e.fd, e.ev, e.io).step == DestroyedTwice <==> c.sent == 0 && e.io.room <= 0
  {
    assert c.sbuff != "";
  }

  // ----- Read boundaries -----

  // What a connection has parsed is a function of the bytes received: two live
  // connections that have received the same bytes, in whatever pieces, have read the same heads,
  // and once the server has sent anything they are at the same step and equally far in the body,
  // if that is settled.
  lemma ReadBoundariesDoNotMatter(fd1: int, es1: seq<Event>, fd2: int, es2: seq<Event>)
    requires Run(fd1, es1) && Run(fd2, es2) && Live(Reached(fd1, es1)) && Live(Reached(fd2, es2))
    requires Reached(fd1, es1).wire.fromClient == Reached(fd2, es2).wire.fromClient
    requires Reached(fd1, es1).wire.fromServer == Reached(fd2, es2).wire.fromServer
    ensures var c1, c2 := Reached(fd1, es1), Reached(fd2, es2);
      && c1.request == c2.request && c1.response == c2.response
      && (c1.wire.fromServer != "" && Settled(Whole(), c1.wire.fromServer) ==> SameProgress(c1, c2))
  {
    ReachedIsGood(fd1, es1);
    ReachedIsGood(fd2, es2);
    WholeIsResumable();
    SameBytesSameParse(Whole(), Reached(fd1, es1), Reached(fd2, es2));
  }

  predicate SameProgress(c1: Conn, c2: Conn) {
    && c1.step == c2.step
    && (c1.step == ParsingRespBody ==>
          c1.contentLength == c2.contentLength && c1.received == c2.received && (c1.contentLength == -1 ==> c1.scan == c2.scan))
  }

  lemma HeadIsOfTheBytes(m: Meaning, c: Conn)
    requires Good(m, c) && Live(c) && m.response("") == FRESH
    ensures c.request == m.request(c.wire.fromClient) && c.response == m.response(c.wire.fromServer)
  {
  }

  // The step once the server has answered.
  function StepOf(m: Meaning, fromServer: string): Step {
    var h := m.response(fromServer);
    if h.verdict != Reading then if Framed(m, fromServer) then SendingResp else ParsingRespBody
    else if h.line == Unread then ParsingRespCode
    else ParsingRespHeaders
  }

  lemma StepIsOfTheBytes(m: Meaning, c: Conn)
    requires Good(m, c) && Live(c) && c.wire.fromServer != "" && Settled(m, c.wire.fromServer)
    ensures c.step == StepOf(m, c.wire.fromServer)
  {
  }

  lemma SameBytesSameParse(m: Meaning, c1: Conn, c2: Conn)
    requires Good(m, c1) && Live(c1) && Good(m, c2) && Live(c2) && m.response("") == FRESH
    requires c1.wire.fromClient == c2.wire.fromClient && c1.wire.fromServer == c2.wire.fromServer
    ensures c1.request == c2.request && c1.response == c2.response
    ensures c1.wire.fromServer != "" && Settled(m, c1.wire.fromServer) ==> SameProgress(c1, c2)
  {
    HeadIsOfTheBytes(m, c1);
    HeadIsOfTheBytes(m, c2);
    if c1.wire.fromServer != "" && Settled(m, c1.wire.fromServer) {
      StepIsOfTheBytes(m, c1);
      StepIsOfTheBytes(m, c2);
    }
  }
}
