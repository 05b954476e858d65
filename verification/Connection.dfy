// proxy/connection_handler.c: the life of one proxied connection. A step system: poll delivers
// an event for one of the two sockets, handle() runs, and its system calls may do anything that
// the interface `Io` allows.
module Connection {
  import opened Wrappers
  import opened CStrings
  import opened HttpHead
  import Chunks = ChunkScanner
  import Vector

  // enum HandlingStep. Aborted stands for a failed ASSERT, which ends the process, DestroyedTwice
  // for a second destroy_context, which frees the parsed fields again.
  datatype Step =
    | ParsingReqType | ParsingReqHeaders | Connecting | SendingReq
    | ParsingRespCode | ParsingRespHeaders | ParsingRespBody | SendingResp
    | Handled | HandledExceptionally | DestroyedTwice | Aborted

  datatype Link = NotConnected | AwaitConnection | Connected

  // client_events and server_events take these three values.
  datatype Mask = NoEvents | PollIn | PollOut

  // The bits of revents that the program looks at.
  datatype Events = Events(readable: bool, writable: bool)

  predicate Overlap(mask: Mask, ev: Events) {
    (mask.PollIn? && ev.readable) || (mask.PollOut? && ev.writable)
  }

  // How the system calls made while handling one event turn out. The bytes ready to be read
  // (none: end of stream or an error), the room for a write (none: an error), the descriptor
  // from socket() (negative: an error), what connect() says, and whether SO_ERROR is 0.
  datatype Io = Io(ready: string, room: int, socket: int, connect: Outcome, soOk: bool)

  datatype Outcome = Done | InProgress | Refused

  // What read() returns.
  function Received(io: Io): string {
    if |io.ready| > Vector.MIN_READ_BUFF_SIZE then io.ready[..Vector.MIN_READ_BUFF_SIZE] else io.ready
  }

  // What write() returns when asked to write n bytes.
  function Written(io: Io, n: nat): int {
    if io.room > n then n else io.room
  }

  // What has passed through the sockets, and the response handed to cache().
  datatype Wire = Wire(fromClient: string, toServer: string, fromServer: string, toClient: string, cached: Option<string>)

  // handler_context_t. request and response carry cppos and, while the head is read, sppos;
  // scan carries sppos, chunk_size and chunk_read while the body is read.
  datatype Conn = Conn(
    clientFd: int, serverFd: int, link: Link, clientEvents: Mask, serverEvents: Mask,
    request: Head, cbuff: string,
    response: Head, contentLength: int, sbuff: string,
    received: nat, scan: Chunks.Scan, sent: nat,
    step: Step, wire: Wire)

  const SILENT := Wire("", "", "", "", None)

  // init_context
  function Init(clientFd: int): Conn {
    Conn(clientFd, -1, NotConnected, PollIn, NoEvents, FRESH, "", FRESH, 0, "", 0, Chunks.Start(0), 0, ParsingReqType, SILENT)
  }

  // The buffer positions lie in the buffers.
  predicate Sane(c: Conn) {
    && c.request.pos <= |c.cbuff| && c.response.pos <= |c.sbuff| && c.scan.pos <= |c.sbuff|
    && (c.step.SendingReq? ==> c.sent <= |c.cbuff|)
    && (c.step.ParsingRespBody? || c.step.SendingResp? ==> c.sent <= |c.sbuff|)
    && (c.step.ParsingRespBody? ==> c.scan.status == Chunks.Scanning && Chunks.Consistent(c.sbuff, c.scan))
  }

  // destroy_context: the buffers are freed.
  function Destroyed(c: Conn): Conn {
    c.(request := FRESH, response := FRESH, cbuff := "", sbuff := "", scan := Chunks.Start(0), step := HandledExceptionally)
  }

  function FailedAssert(c: Conn): Conn {
    c.(step := Aborted)
  }

  // ----- The request -----

  // parsing_req_type_step and parsing_req_headers_step, which share one read.
  function ReadRequest(c: Conn, fd: int, ev: Events, io: Io): (r: Conn)
    requires Sane(c) && (c.step == ParsingReqType || c.step == ParsingReqHeaders)
    ensures Sane(r)
  {
    if !(fd == c.clientFd && ev.readable) then FailedAssert(c)
    else if Received(io) == "" then Destroyed(c)
    else RequestRead(c.(cbuff := c.cbuff + Received(io), wire := c.wire.(fromClient := c.wire.fromClient + Received(io))), io)
  }

  function RequestRead(c: Conn, io: Io): (r: Conn)
    requires Sane(c) && (c.step == ParsingReqType || c.step == ParsingReqHeaders)
    ensures Sane(r)
  {
    RequestJudged(c, ParseHead(Request, c.cbuff, c.request), io)
  }

  function RequestJudged(c: Conn, h: Head, io: Io): (r: Conn)
    requires Sane(c) && h.pos <= |c.cbuff| && (c.step == ParsingReqType || c.step == ParsingReqHeaders)
    ensures Sane(r)
  {
    match h.verdict
    case Failed => Destroyed(c)
    case Reading => c.(request := h, step := if h.line == Unread then ParsingReqType else ParsingReqHeaders)
    case Complete =>
      if !(h.line.RequestLine? && h.line.verb == "GET") then Destroyed(c)
      else Connect(c.(request := h, step := Connecting), -1, Events(false, false), io)
  }

  // connect_step
  function Connect(c: Conn, fd: int, ev: Events, io: Io): (r: Conn)
    requires Sane(c)
    ensures Sane(r)
  {
    if c.link == AwaitConnection && !(c.step == Connecting && fd == c.serverFd && ev.writable) then FailedAssert(c)
    else if c.link != NotConnected then ConnectionMade(c, io)
    else Dial(c.(serverFd := io.socket), io)
  }

  // The second half: connect() is through, unless SO_ERROR says otherwise.
  function ConnectionMade(c: Conn, io: Io): (r: Conn)
    requires Sane(c)
    ensures Sane(r)
  {
    var c' := c.(clientEvents := NoEvents, serverEvents := PollOut, sent := 0, step := SendingReq);
    if c.link == AwaitConnection && !io.soOk then Destroyed(c') else c'.(link := Connected)
  }

  // The first half of a connection: socket() has been called.
  function Dial(c: Conn, io: Io): (r: Conn)
    requires Sane(c)
    ensures Sane(r)
  {
    if c.serverFd < 0 || !HasHost(c.request.headers) then Destroyed(c)
    else match io.connect
      case Done => c.(link := Connected)
      case InProgress => c.(clientEvents := NoEvents, serverEvents := PollOut, link := AwaitConnection)
      case Refused => Destroyed(c)
  }

  predicate HasHost(headers: seq<Header>) {
    FindHeader(headers, "Host") < |headers|
  }

  // sending_req_step
  function SendRequest(c: Conn, fd: int, ev: Events, io: Io): (r: Conn)
    requires Sane(c) && c.step == SendingReq
    ensures Sane(r)
  {
    var n := Written(io, |c.cbuff| - c.sent);
    if !(fd == c.serverFd && ev.writable) then FailedAssert(c)
    else if n <= 0 then Destroyed(c)
    else
      var c' := SentToServer(c, n);
      if c'.sent == |c'.cbuff| then c'.(clientEvents := NoEvents, serverEvents := PollIn, step := ParsingRespCode) else c'
  }

  // write() has taken n bytes.
  function SentToServer(c: Conn, n: nat): Conn
    requires c.sent + n <= |c.cbuff|
  {
    c.(sent := c.sent + n, wire := c.wire.(toServer := c.wire.toServer + c.cbuff[c.sent..c.sent + n]))
  }

  function SentToClient(c: Conn, n: nat): Conn
    requires c.sent + n <= |c.sbuff|
  {
    c.(sent := c.sent + n, wire := c.wire.(toClient := c.wire.toClient + c.sbuff[c.sent..c.sent + n]))
  }

  // ----- The response -----

  function ReadFromServer(c: Conn, io: Io): (r: Conn)
    requires Sane(c)
    ensures Sane(r)
  {
    c.(sbuff := c.sbuff + Received(io), wire := c.wire.(fromServer := c.wire.fromServer + Received(io)))
  }

  // parsing_resp_code_step and parsing_resp_headers_step, then parsing_resp_body on what the
  // same read brought of the body.
  function ReadResponse(c: Conn, fd: int, ev: Events, io: Io): (r: Conn)
    requires Sane(c) && (c.step == ParsingRespCode || c.step == ParsingRespHeaders)
    ensures Sane(r)
  {
    if !(fd == c.serverFd && ev.readable) then FailedAssert(c)
    else if Received(io) == "" then Destroyed(c)
    else ResponseRead(ReadFromServer(c, io))
  }

  function ResponseRead(c: Conn): (r: Conn)
    requires Sane(c) && (c.step == ParsingRespCode || c.step == ParsingRespHeaders)
    ensures Sane(r)
  {
    ResponseJudged(c, ParseHead(Response, c.sbuff, c.response))
  }

  function ResponseJudged(c: Conn, h: Head): (r: Conn)
    requires Sane(c) && h.pos <= |c.sbuff| && (c.step == ParsingRespCode || c.step == ParsingRespHeaders)
    ensures Sane(r)
  {
    match h.verdict
    case Failed => Destroyed(c)
    case Reading => c.(response := h, step := if h.line == Unread then ParsingRespCode else ParsingRespHeaders)
    case Complete =>
      if !HasLength(h.headers) && !HasCoding(h.headers) then Destroyed(c) else ScanBody(BodyBegun(c, h))
  }

  function BodyBegun(c: Conn, h: Head): (r: Conn)
    requires Sane(c) && h.pos <= |c.sbuff|
    ensures Sane(r)
  {
    c.(response := h, contentLength := LengthOf(h.headers), received := |c.sbuff| - h.pos,
       scan := Chunks.Start(h.pos), clientEvents := PollOut, sent := 0, step := ParsingRespBody)
  }

  predicate HasLength(headers: seq<Header>) {
    FindHeader(headers, "Content-Length") < |headers|
  }

  predicate HasCoding(headers: seq<Header>) {
    FindHeader(headers, "Transfer-Encoding") < |headers|
  }

  lemma HasIffNamed(headers: seq<Header>)
    ensures HasHost(headers) <==> exists k :: 0 <= k < |headers| && headers[k].name == "Host"
    ensures HasLength(headers) <==> exists k :: 0 <= k < |headers| && headers[k].name == "Content-Length"
    ensures HasCoding(headers) <==> exists k :: 0 <= k < |headers| && headers[k].name == "Transfer-Encoding"
  {
    FoundIffThere(headers, "Host");
    FoundIffThere(headers, "Content-Length");
    FoundIffThere(headers, "Transfer-Encoding");
  }

  // A Content-Length takes precedence; -1 selects the chunk scanner.
  function LengthOf(headers: seq<Header>): int {
    if HasLength(headers) then Strtol(headers[FindHeader(headers, "Content-Length")].value, 10) else -1
  }

  // parsing_resp_body after its read
  function ScanBody(c: Conn): (r: Conn)
    requires Sane(c) && c.step == ParsingRespBody
    ensures Sane(r)
  {
    if c.contentLength != -1 then
      if c.contentLength == c.received then Finished(c.(scan := c.scan.(pos := |c.sbuff|))) else c
    else
      var sc := Chunks.Resume(c.sbuff, c.scan);
      if sc.status == Chunks.LastChunk then Finished(c.(scan := sc, contentLength := c.received)) else c.(scan := sc)
  }

  function Finished(c: Conn): Conn {
    c.(clientEvents := PollOut, serverEvents := NoEvents, step := SendingResp, wire := c.wire.(cached := Some(c.sbuff)))
  }

  // send_resp_in_receiving
  function SendResponse(c: Conn, fd: int, ev: Events, io: Io): (r: Conn)
    requires Sane(c) && (c.step == ParsingRespBody || c.step == SendingResp)
    ensures Sane(r)
  {
    var n := Written(io, |c.sbuff| - c.sent);
    if c.step != ParsingRespBody && !(fd == c.clientFd && ev.writable) then FailedAssert(c)
    else if |c.sbuff| == c.sent then c
    else if n <= 0 then Destroyed(c)
    else SentToClient(c, n)
  }

  // send_resp_step. Of a context that the write has destroyed, sbuff.cnt is 0.
  function SendRest(c: Conn, fd: int, ev: Events, io: Io): (r: Conn)
    requires Sane(c) && c.step == SendingResp
    ensures Sane(r)
  {
    var c' := SendResponse(c, fd, ev, io);
    if c'.step == Aborted || c'.sent != |c'.sbuff| then c'
    else Destroyed(c').(step := if c'.step == SendingResp then Handled else DestroyedTwice)
  }

  function Body(c: Conn, fd: int, ev: Events, io: Io): (r: Conn)
    requires Sane(c) && c.step == ParsingRespBody
    ensures Sane(r)
  {
    if fd == c.serverFd then ReadBody(c, ev, io)
    else if fd == c.clientFd then SendResponse(c, fd, ev, io)
    else c
  }

  // parsing_resp_body
  function ReadBody(c: Conn, ev: Events, io: Io): (r: Conn)
    requires Sane(c) && c.step == ParsingRespBody
    ensures Sane(r)
  {
    if !ev.readable then FailedAssert(c)
    else if Received(io) == "" then Destroyed(c)
    else ScanBody(BodyArrived(c, io))
  }

  function BodyArrived(c: Conn, io: Io): (r: Conn)
    requires Sane(c) && c.step == ParsingRespBody
    ensures Sane(r) && r.step == ParsingRespBody
  {
    ReadFromServer(c, io).(received := c.received + |Received(io)|)
  }

  // handle
  function Handle(c: Conn, fd: int, ev: Events, io: Io): (r: Conn)
    requires Sane(c)
    ensures Sane(r)
  {
    match c.step
    case ParsingReqType => ReadRequest(c, fd, ev, io)
    case ParsingReqHeaders => ReadRequest(c, fd, ev, io)
    case Connecting => Connect(c, fd, ev, io)
    case SendingReq => SendRequest(c, fd, ev, io)
    case ParsingRespCode => ReadResponse(c, fd, ev, io)
    case ParsingRespHeaders => ReadResponse(c, fd, ev, io)
    case ParsingRespBody => Body(c, fd, ev, io)
    case SendingResp => SendRest(c, fd, ev, io)
    case _ => c
  }

  // ----- Runs -----

  predicate Live(c: Conn) {
    !c.step.Handled? && !c.step.HandledExceptionally? && !c.step.DestroyedTwice? && !c.step.Aborted?
  }

  // The guard in main() of proxy/proxy.c:89-92.
  predicate LetThrough(c: Conn, fd: int, ev: Events) {
    || (c.clientFd == fd && Overlap(c.clientEvents, ev))
    || (c.serverFd == fd && Overlap(c.serverEvents, ev))
  }

  datatype Event = Event(fd: int, ev: Events, io: Io)

  // A connection that is done is taken out of the table. socket() does not return a descriptor
  // that is in use.
  predicate Legal(c: Conn, e: Event) {
    Live(c) && LetThrough(c, e.fd, e.ev) && e.io.socket != c.clientFd
  }

  ghost predicate IsRun(c: Conn, es: seq<Event>)
    requires Sane(c)
    decreases |es|
  {
    |es| > 0 ==> Legal(c, es[0]) && IsRun(Handle(c, es[0].fd, es[0].ev, es[0].io), es[1..])
  }

  function After(c: Conn, es: seq<Event>): (r: Conn)
    requires Sane(c)
    ensures Sane(r)
    decreases |es|
  {
    if |es| == 0 then c else After(Handle(c, es[0].fd, es[0].ev, es[0].io), es[1..])
  }

  // ----- The joint invariant of the step, the link, server_fd and the event masks -----

  predicate Joint(c: Conn) {
    match c.step
    case ParsingReqType => Polls(c, NotConnected, PollIn, NoEvents) && c.serverFd == -1
    case ParsingReqHeaders => Polls(c, NotConnected, PollIn, NoEvents) && c.serverFd == -1
    case Connecting => (Polls(c, AwaitConnection, NoEvents, PollOut) || Polls(c, Connected, PollIn, NoEvents)) && TwoSockets(c)
    case SendingReq => Polls(c, Connected, NoEvents, PollOut) && TwoSockets(c)
    case ParsingRespCode => Polls(c, Connected, NoEvents, PollIn) && TwoSockets(c)
    case ParsingRespHeaders => Polls(c, Connected, NoEvents, PollIn) && TwoSockets(c)
    case ParsingRespBody => Polls(c, Connected, PollOut, PollIn) && TwoSockets(c)
    case SendingResp => Polls(c, Connected, PollOut, NoEvents) && TwoSockets(c)
    case Aborted => false
    case _ => true
  }

  predicate Polls(c: Conn, link: Link, client: Mask, server: Mask) {
    c.link == link && c.clientEvents == client && c.serverEvents == server
  }

  predicate TwoSockets(c: Conn) {
    0 <= c.serverFd != c.clientFd
  }

  lemma RequestReadIsJoint(c: Conn, io: Io)
    requires Sane(c) && (c.step == ParsingReqType || c.step == ParsingReqHeaders) && Joint(c) && io.socket != c.clientFd
    ensures Joint(RequestRead(c, io))
  {
  }

  lemma ScanBodyIsJoint(c: Conn)
    requires Sane(c) && c.step == ParsingRespBody && Joint(c)
    ensures Joint(ScanBody(c))
  {
  }

  lemma ResponseReadIsJoint(c: Conn)
    requires Sane(c) && (c.step == ParsingRespCode || c.step == ParsingRespHeaders) && Joint(c)
    ensures Joint(ResponseRead(c))
  {
    var h := ParseHead(Response, c.sbuff, c.response);
    if h.verdict == Complete && (HasLength(h.headers) || HasCoding(h.headers)) {
      ScanBodyIsJoint(BodyBegun(c, h));
    }
  }

  lemma HandleIsJoint(c: Conn, e: Event)
    requires Sane(c) && Joint(c) && Legal(c, e)
    ensures Joint(Handle(c, e.fd, e.ev, e.io))
  {
    var io := e.io;
    match c.step
    case ParsingReqType => ReadRequestIsJoint(c, e);
    case ParsingReqHeaders => ReadRequestIsJoint(c, e);
    case ParsingRespCode => ReadResponseIsJoint(c, e);
    case ParsingRespHeaders => ReadResponseIsJoint(c, e);
    case _ =>
  }

  lemma ReadRequestIsJoint(c: Conn, e: Event)
    requires Sane(c) && (c.step == ParsingReqType || c.step == ParsingReqHeaders) && Joint(c) && Legal(c, e)
    ensures Joint(ReadRequest(c, e.fd, e.ev, e.io))
  {
    var d := Received(e.io);
    if d != "" {
      RequestReadIsJoint(c.(cbuff := c.cbuff + d, wire := c.wire.(fromClient := c.wire.fromClient + d)), e.io);
    }
  }

  lemma ReadResponseIsJoint(c: Conn, e: Event)
    requires Sane(c) && (c.step == ParsingRespCode || c.step == ParsingRespHeaders) && Joint(c) && Legal(c, e)
    ensures Joint(ReadResponse(c, e.fd, e.ev, e.io))
  {
    if Received(e.io) != "" {
      ResponseReadIsJoint(ReadFromServer(c, e.io));
    }
  }

  // ----- What the connection knows and what has been relayed, step by step -----

  // What all the bytes sent so far mean: the request head, the response head, and how far the
  // chunked body that starts at a position reaches, and whether that is the same for every cutting
  // into reads. Whole(), below, reads them at once; the connection reads them in pieces.
  datatype Meaning = Meaning(
    request: string -> Head, response: string -> Head, body: (string, nat) -> Chunks.Scan, settled: (string, nat) -> bool)

  // The request line and headers are those of everything the client has sent.
  predicate Asked(m: Meaning, c: Conn) {
    c.wire.fromClient == c.cbuff && c.request == m.request(c.cbuff)
  }

  predicate Forwardable(request: Head) {
    request.verdict == Complete && request.line.RequestLine? && request.line.verb == "GET" && HasHost(request.headers)
  }

  predicate NoAnswerYet(c: Conn) {
    c.sbuff == c.wire.fromServer == c.wire.toClient == "" && c.response == FRESH && c.wire.cached == None
  }

  predicate Asking(m: Meaning, c: Conn) {
    && Asked(m, c) && c.request.verdict == Reading && c.wire.toServer == "" && NoAnswerYet(c)
    && (c.step == ParsingReqType <==> c.request.line == Unread)
  }

  predicate Dialling(m: Meaning, c: Conn) {
    Asked(m, c) && Forwardable(c.request) && c.wire.toServer == "" && NoAnswerYet(c)
  }

  predicate Forwarding(m: Meaning, c: Conn) {
    && Asked(m, c) && Forwardable(c.request) && NoAnswerYet(c)
    && c.sent < |c.cbuff| && c.wire.toServer == c.cbuff[..c.sent]
  }

  predicate Forwarded(m: Meaning, c: Conn) {
    Asked(m, c) && Forwardable(c.request) && c.wire.toServer == c.cbuff
  }

  // The response line and headers are those of everything the server has sent.
  predicate Answered(m: Meaning, c: Conn) {
    c.wire.fromServer == c.sbuff && c.response == m.response(c.sbuff)
  }

  predicate Answering(m: Meaning, c: Conn) {
    && Forwarded(m, c) && Answered(m, c) && c.response.verdict == Reading && c.wire.toClient == "" && c.wire.cached == None
    && (c.step == ParsingRespCode <==> c.response.line == Unread)
  }

  predicate Relaying(m: Meaning, c: Conn) {
    Forwarded(m, c) && Answered(m, c) && c.sent <= |c.sbuff| && c.wire.toClient == c.sbuff[..c.sent]
  }

  predicate AcceptedHead(h: Head) {
    h.verdict == Complete && (HasLength(h.headers) || HasCoding(h.headers))
  }

  // No cutting of a chunked body, as far as it has come, is taken for something else.
  predicate Settled(m: Meaning, text: string) {
    var h := m.response(text);
    AcceptedHead(h) && LengthOf(h.headers) == -1 ==> m.settled(text, h.pos)
  }

  // What is known of a settled body is what scanning all of it at once would give.
  predicate BodyKnown(m: Meaning, c: Conn) {
    && AcceptedHead(c.response)
    && c.contentLength == LengthOf(c.response.headers)
    && c.received == |c.sbuff| - c.response.pos
    && (c.contentLength == -1 && m.settled(c.sbuff, c.response.pos) ==> c.scan == m.body(c.sbuff, c.response.pos))
  }

  // The framing rule: a whole response has come. A length must be met exactly; behind a last
  // chunk there may be more bytes, and they go to the client and into the cache as well.
  predicate Framed(m: Meaning, text: string) {
    var h := m.response(text);
    && AcceptedHead(h)
    && if LengthOf(h.headers) != -1 then LengthOf(h.headers) == |text| - h.pos
       else m.body(text, h.pos).status == Chunks.LastChunk
  }

  // The head has been accepted, and the framing rule holds, if the body is settled.
  predicate Ended(m: Meaning, text: string) {
    AcceptedHead(m.response(text)) && (Settled(m, text) ==> Framed(m, text))
  }

  predicate Delivered(m: Meaning, w: Wire) {
    && w.toServer == w.fromClient && Forwardable(m.request(w.fromClient))
    && w.toClient == w.fromServer && Ended(m, w.fromServer)
    && w.cached == Some(w.fromServer)
  }

  // What holds of the bytes on the wire at any time.
  predicate Transparent(m: Meaning, w: Wire) {
    && w.toServer <= w.fromClient && (w.toServer != "" ==> Forwardable(m.request(w.fromClient)))
    && (w.fromServer != "" ==> w.toServer == w.fromClient)
    && w.toClient <= w.fromServer
    && (w.cached.Some? ==> w.cached.value == w.fromServer && Ended(m, w.fromServer))
  }

  predicate Good(m: Meaning, c: Conn) {
    match c.step
    case ParsingReqType => Asking(m, c)
    case ParsingReqHeaders => Asking(m, c)
    case Connecting => Dialling(m, c)
    case SendingReq => Forwarding(m, c)
    case ParsingRespCode => Answering(m, c)
    case ParsingRespHeaders => Answering(m, c)
    case ParsingRespBody => Relaying(m, c) && BodyKnown(m, c) && (Settled(m, c.sbuff) ==> !Framed(m, c.sbuff)) && c.wire.cached == None
    case SendingResp => Relaying(m, c) && Ended(m, c.sbuff) && c.wire.cached == Some(c.sbuff)
    case Handled => Delivered(m, c.wire)
    case HandledExceptionally => Transparent(m, c.wire)
    case DestroyedTwice => Transparent(m, c.wire)
    case Aborted => true
  }

  lemma GoodIsTransparent(m: Meaning, c: Conn)
    requires Good(m, c) && c.step != Aborted
    ensures Transparent(m, c.wire)
  {
  }

  // ----- Every step keeps it -----

  lemma DialIsGood(m: Meaning, c: Conn, io: Io)
    requires Sane(c) && c.step == Connecting && Asked(m, c) && NoAnswerYet(c) && c.wire.toServer == ""
    requires c.request.verdict == Complete && c.request.line.RequestLine? && c.request.line.verb == "GET"
    ensures Good(m, Dial(c, io))
  {
  }

  lemma ConnectIsGood(m: Meaning, c: Conn, fd: int, ev: Events, io: Io)
    requires Sane(c) && c.step == Connecting && Asked(m, c) && NoAnswerYet(c) && c.wire.toServer == ""
    requires c.request.verdict == Complete && c.request.line.RequestLine? && c.request.line.verb == "GET"
    requires (c.link == NotConnected || HasHost(c.request.headers)) && m.request("").verdict == Reading
    ensures Good(m, Connect(c, fd, ev, io))
  {
    assert c.cbuff[..0] == "";
    if c.link == NotConnected {
      DialIsGood(m, c.(serverFd := io.socket), io);
    }
  }

  lemma RequestReadIsGood(m: Meaning, c: Conn, io: Io)
    requires Sane(c) && (c.step == ParsingReqType || c.step == ParsingReqHeaders) && c.link == NotConnected
    requires c.wire.fromClient == c.cbuff && ParseHead(Request, c.cbuff, c.request) == m.request(c.cbuff)
    requires c.wire.toServer == "" && NoAnswerYet(c) && m.request("").verdict == Reading
    ensures Good(m, RequestRead(c, io))
  {
    var h := ParseHead(Request, c.cbuff, c.request);
    if h.verdict == Complete && h.line.RequestLine? && h.line.verb == "GET" {
      ConnectIsGood(m, c.(request := h, step := Connecting), -1, Events(false, false), io);
    }
  }

  lemma ReadRequestIsGood(m: Meaning, c: Conn, e: Event)
    requires Sane(c) && Asking(m, c) && (c.step == ParsingReqType || c.step == ParsingReqHeaders) && c.link == NotConnected
    requires var buf := c.cbuff + Received(e.io); m.request(buf) == ParseHead(Request, buf, m.request(c.cbuff))
    requires m.request("").verdict == Reading
    ensures Good(m, ReadRequest(c, e.fd, e.ev, e.io))
  {
    var d := Received(e.io);
    if e.fd == c.clientFd && e.ev.readable && d != "" {
      RequestReadIsGood(m, c.(cbuff := c.cbuff + d, wire := c.wire.(fromClient := c.wire.fromClient + d)), e.io);
    }
  }

  lemma PartGrows(s: string, t: string, i: nat, n: nat)
    requires i + n <= |s| && t == s[..i]
    ensures t + s[i..i + n] == s[..i + n] <= s
    ensures i + n == |s| ==> s[..i + n] == s
  {
  }

  lemma PartSentIsGood(m: Meaning, c: Conn, n: nat)
    requires Sane(c) && Forwarding(m, c) && c.step == SendingReq && 0 < n < |c.cbuff| - c.sent
    ensures Forwarding(m, SentToServer(c, n))
  {
    PartGrows(c.cbuff, c.wire.toServer, c.sent, n);
  }

  lemma AllSentIsGood(m: Meaning, c: Conn)
    requires Sane(c) && Forwarding(m, c) && c.step == SendingReq && m.response("") == FRESH
    ensures Answering(m, SentToServer(c, |c.cbuff| - c.sent).(clientEvents := NoEvents, serverEvents := PollIn, step := ParsingRespCode))
  {
    PartGrows(c.cbuff, c.wire.toServer, c.sent, |c.cbuff| - c.sent);
  }

  lemma SendRequestIsGood(m: Meaning, c: Conn, e: Event)
    requires Sane(c) && Good(m, c) && c.step == SendingReq && m.response("") == FRESH
    ensures Good(m, SendRequest(c, e.fd, e.ev, e.io))
  {
    var n := Written(e.io, |c.cbuff| - c.sent);
    if n <= 0 {
      GoodIsTransparent(m, c);
    } else if n < |c.cbuff| - c.sent {
      PartSentIsGood(m, c, n);
    } else {
      AllSentIsGood(m, c);
    }
  }

  lemma ScanBodyIsGood(m: Meaning, c: Conn)
    requires Sane(c) && c.step == ParsingRespBody && Relaying(m, c) && c.wire.cached == None && AcceptedHead(c.response)
    requires c.contentLength == LengthOf(c.response.headers) && c.received == |c.sbuff| - c.response.pos
    requires c.contentLength == -1 && m.settled(c.sbuff, c.response.pos) ==> m.body(c.sbuff, c.response.pos) == Chunks.Resume(c.sbuff, c.scan)
    ensures Good(m, ScanBody(c))
  {
  }

  lemma ResponseJudgedIsGood(m: Meaning, c: Conn, h: Head)
    requires Sane(c) && (c.step == ParsingRespCode || c.step == ParsingRespHeaders) && Forwarded(m, c) && h.pos <= |c.sbuff|
    requires h == m.response(c.sbuff) && Chunks.Resume(c.sbuff, Chunks.Start(h.pos)) == m.body(c.sbuff, h.pos)
    requires c.wire.fromServer == c.sbuff && c.wire.toClient == "" && c.wire.cached == None
    ensures Good(m, ResponseJudged(c, h))
  {
    if AcceptedHead(h) {
      ScanBodyIsGood(m, BodyBegun(c, h));
    }
  }

  lemma ResponseReadIsGood(m: Meaning, c: Conn)
    requires Sane(c) && (c.step == ParsingRespCode || c.step == ParsingRespHeaders) && Forwarded(m, c)
    requires var h := ParseHead(Response, c.sbuff, c.response);
      h == m.response(c.sbuff) && Chunks.Resume(c.sbuff, Chunks.Start(h.pos)) == m.body(c.sbuff, h.pos)
    requires c.wire.fromServer == c.sbuff && c.wire.toClient == "" && c.wire.cached == None
    ensures Good(m, ResponseRead(c))
  {
    ResponseJudgedIsGood(m, c, ParseHead(Response, c.sbuff, c.response));
  }

  // What a read adds to the meaning of the bytes so far is what resuming finds.
  predicate Resumed(m: Meaning, buf: string, d: string) {
    var h := m.response(buf);
    var h' := m.response(buf + d);
    && h.pos <= |buf| && h'.pos <= |buf + d|
    && h' == (if h.verdict == Reading then ParseHead(Response, buf + d, h) else h)
    && m.body(buf + d, h'.pos) == Chunks.Resume(buf + d, Chunks.Start(h'.pos))
  }

  lemma ReadResponseIsGood(m: Meaning, c: Conn, e: Event)
    requires Sane(c) && Answering(m, c) && (c.step == ParsingRespCode || c.step == ParsingRespHeaders)
    requires Resumed(m, c.sbuff, Received(e.io))
    ensures Good(m, ReadResponse(c, e.fd, e.ev, e.io))
  {
    if e.fd == c.serverFd && e.ev.readable && Received(e.io) != "" {
      ResponseReadIsGood(m, ReadFromServer(c, e.io));
    }
  }

  lemma SendResponseRelays(m: Meaning, c: Conn, e: Event)
    requires Sane(c) && Relaying(m, c) && (c.step == ParsingRespBody || c.step == SendingResp)
    requires Transparent(m, c.wire)
    ensures var r := SendResponse(c, e.fd, e.ev, e.io);
      || r.step == Aborted
      || (r.step == HandledExceptionally && Transparent(m, r.wire))
      || (Relaying(m, r) && r == c.(sent := r.sent, wire := c.wire.(toClient := r.wire.toClient)))
  {
    var n := Written(e.io, |c.sbuff| - c.sent);
    if n > 0 {
      PartGrows(c.sbuff, c.wire.toClient, c.sent, n);
    }
  }

  lemma AllRelayedIsGood(m: Meaning, c: Conn)
    requires Relaying(m, c) && Ended(m, c.sbuff) && c.wire.cached == Some(c.sbuff) && c.sent == |c.sbuff|
    ensures Delivered(m, c.wire)
  {
  }

  lemma SendRestIsGood(m: Meaning, c: Conn, e: Event)
    requires Sane(c) && Good(m, c) && c.step == SendingResp
    ensures Good(m, SendRest(c, e.fd, e.ev, e.io))
  {
    GoodIsTransparent(m, c);
    SendResponseRelays(m, c, e);
    var r := SendResponse(c, e.fd, e.ev, e.io);
    if r.step == SendingResp && r.sent == |r.sbuff| {
      AllRelayedIsGood(m, r);
    }
  }

  predicate BodyResumed(m: Meaning, buf: string, d: string, pos: nat) {
    var sc := m.body(buf, pos);
    && pos <= |buf|
    && (sc.status == Chunks.Scanning ==> Chunks.Consistent(buf, sc))
    && (m.settled(buf + d, pos) ==>
          m.settled(buf, pos) && m.body(buf + d, pos) == if sc.status == Chunks.Scanning then Chunks.Resume(buf + d, sc) else sc)
  }

  lemma BodyArrives(m: Meaning, c: Conn, io: Io)
    requires Sane(c) && Good(m, c) && c.step == ParsingRespBody && Resumed(m, c.sbuff, Received(io))
    ensures Relaying(m, BodyArrived(c, io)) && AcceptedHead(c.response)
  {
    assert (c.sbuff + Received(io))[..c.sent] == c.sbuff[..c.sent];
  }

  lemma ReadBodyIsGood(m: Meaning, c: Conn, ev: Events, io: Io)
    requires Sane(c) && Good(m, c) && c.step == ParsingRespBody
    requires Resumed(m, c.sbuff, Received(io)) && BodyResumed(m, c.sbuff, Received(io), c.response.pos)
    ensures Good(m, ReadBody(c, ev, io))
  {
    if Received(io) == "" {
      GoodIsTransparent(m, c);
    } else {
      BodyArrives(m, c, io);
      ScanBodyIsGood(m, BodyArrived(c, io));
    }
  }

  lemma SendInBodyIsGood(m: Meaning, c: Conn, e: Event)
    requires Sane(c) && Good(m, c) && c.step == ParsingRespBody
    ensures Good(m, SendResponse(c, e.fd, e.ev, e.io))
  {
    SendResponseRelays(m, c, e);
  }

  lemma BodyIsGood(m: Meaning, c: Conn, e: Event)
    requires Sane(c) && Good(m, c) && c.step == ParsingRespBody
    requires Resumed(m, c.sbuff, Received(e.io)) && BodyResumed(m, c.sbuff, Received(e.io), c.response.pos)
    ensures Good(m, Body(c, e.fd, e.ev, e.io))
  {
    if e.fd == c.serverFd {
      ReadBodyIsGood(m, c, e.ev, e.io);
    } else if e.fd == c.clientFd {
      SendInBodyIsGood(m, c, e);
    }
  }

  predicate RequestResumed(m: Meaning, buf: string, d: string) {
    var h := m.request(buf);
    && h.pos <= |buf|
    && (h.verdict == Reading ==> m.request(buf + d) == ParseHead(Request, buf + d, h))
  }

  // Meanings that can be had by resuming.
  ghost predicate Resumable(m: Meaning) {
    && m.request("") == FRESH == m.response("")
    && (forall buf: string, d: string :: RequestResumed(m, buf, d))
    && (forall buf: string, d: string :: Resumed(m, buf, d))
    && (forall buf: string, d: string, pos: nat :: pos <= |buf| ==> BodyResumed(m, buf, d, pos))
  }

  lemma HandleIsGood(m: Meaning, c: Conn, e: Event)
    requires Sane(c) && Joint(c) && Good(m, c) && Resumable(m)
    ensures Good(m, Handle(c, e.fd, e.ev, e.io))
  {
    var d := Received(e.io);
    assert RequestResumed(m, c.cbuff, d) && Resumed(m, c.sbuff, d) && BodyResumed(m, c.sbuff, d, c.response.pos);
    match c.step
    case ParsingReqType => ReadRequestIsGood(m, c, e);
    case ParsingReqHeaders => ReadRequestIsGood(m, c, e);
    case Connecting => ConnectIsGood(m, c, e.fd, e.ev, e.io);
    case SendingReq => SendRequestIsGood(m, c, e);
    case ParsingRespCode => ReadResponseIsGood(m, c, e);
    case ParsingRespHeaders => ReadResponseIsGood(m, c, e);
    case ParsingRespBody => BodyIsGood(m, c, e);
    case SendingResp => SendRestIsGood(m, c, e);
    case _ =>
  }

  lemma InitIsGood(m: Meaning, clientFd: int)
    requires Resumable(m)
    ensures var c := Init(clientFd); Sane(c) && Joint(c) && Good(m, c)
  {
  }

  lemma {:induction false} RunIsGood(m: Meaning, c: Conn, es: seq<Event>)
    requires Sane(c) && Joint(c) && Good(m, c) && Resumable(m) && IsRun(c, es)
    ensures Joint(After(c, es)) && Good(m, After(c, es))
    decreases |es|
  {
    if |es| > 0 {
      HandleIsJoint(c, es[0]);
      HandleIsGood(m, c, es[0]);
      RunIsGood(m, Handle(c, es[0].fd, es[0].ev, es[0].io), es[1..]);
    }
  }

  // ----- Reading at once can be had by resuming -----

  ghost function Whole(): Meaning {
    Meaning(buf => AtOnce(Request, buf), buf => AtOnce(Response, buf), BodyAtOnce, BodySettled)
  }

  ghost predicate BodySettled(buf: string, pos: nat) {
    pos <= |buf| && Chunks.SettledFrom(buf, Chunks.Start(pos))
  }

  function BodyAtOnce(buf: string, pos: nat): Chunks.Scan {
    if pos <= |buf| then Chunks.Resume(buf, Chunks.Start(pos)) else Chunks.Start(pos)
  }

  lemma AtOnceResumes(kind: Kind, buf: string, d: string)
    ensures AtOnce(kind, buf + d) == if AtOnce(kind, buf).verdict == Reading then ParseHead(kind, buf + d, AtOnce(kind, buf)) else AtOnce(kind, buf)
  {
    HeadResumes(kind, buf, buf + d, FRESH);
  }

  lemma BodyAtOnceResumes(buf: string, d: string, pos: nat)
    requires pos <= |buf| && BodySettled(buf + d, pos)
    ensures var sc := BodyAtOnce(buf, pos);
      BodySettled(buf, pos) && BodyAtOnce(buf + d, pos) == if sc.status == Chunks.Scanning then Chunks.Resume(buf + d, sc) else sc
  {
    Chunks.Resumes(buf, buf + d, Chunks.Start(pos));
  }

  lemma WholeIsResumable()
    ensures Resumable(Whole())
  {
    ReadsDoNotMatter(Request, []);
    ReadsDoNotMatter(Response, []);
    forall buf: string, d: string ensures RequestResumed(Whole(), buf, d) {
      AtOnceResumes(Request, buf, d);
    }
    forall buf: string, d: string ensures Resumed(Whole(), buf, d) {
      AtOnceResumes(Response, buf, d);
    }
    forall buf: string, d: string, pos: nat | pos <= |buf| ensures BodyResumed(Whole(), buf, d, pos) {
      if BodySettled(buf + d, pos) {
        BodyAtOnceResumes(buf, d, pos);
      }
    }
  }
}
