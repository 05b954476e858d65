// The keys of the response cache: request_hash and request_equals of proxy/proxy.c, and what
// cache() of proxy/connection_handler.c puts into the map.
module ResponseCache {
  import opened Wrappers
  import opened HttpHead
  import opened HashMap
  import Connection
  import ConnectionRuns

  // The fields of request_t that the copy made for the cache keeps.
  datatype CacheKey = CacheKey(verb: string, uri: string, version: string, headers: seq<Header>)

  function RequestHash(r: CacheKey): int {
    1
  }

  // A request without Host equals nothing, not even itself.
  predicate RequestEquals(a: CacheKey, b: CacheKey) {
    var i, j := FindHeader(a.headers, "Host"), FindHeader(b.headers, "Host");
    && i < |a.headers| && j < |b.headers|
    && a.headers[i].value == b.headers[j].value && a.verb == b.verb && a.version == b.version && a.uri == b.uri
  }

  lemma KeysAreUsable()
    ensures Respects(RequestHash, RequestEquals)
  {
  }

  lemma EqualToItselfIffHost(r: CacheKey)
    ensures RequestEquals(r, r) <==> exists k :: 0 <= k < |r.headers| && r.headers[k].name == "Host"
  {
    var i := FindHeader(r.headers, "Host");
    if i < |r.headers| {
      assert r.headers[i].name == "Host";
    }
  }

  // What is put under a request without Host can never be got again.
  lemma {:induction false} NoHostIsNeverFound(history: seq<Pair<CacheKey, string>>, r: CacheKey)
    requires FindHeader(r.headers, "Host") == |r.headers|
    ensures Last(RequestEquals, history, r) == None
    decreases |history|
  {
    if |history| > 0 {
      NoHostIsNeverFound(history[..|history| - 1], r);
    }
  }

  // The value of the first header called Host, if there is one.
  ghost predicate HostIs(r: CacheKey, host: string) {
    exists k :: 0 <= k < |r.headers| && HostAt(r.headers, k) && r.headers[k].value == host
  }

  predicate HostAt(headers: seq<Header>, k: nat)
    requires k < |headers|
  {
    headers[k].name == "Host" && forall j :: 0 <= j < k ==> headers[j].name != "Host"
  }

  ghost predicate SameRequest(a: CacheKey, b: CacheKey) {
    a.verb == b.verb && a.uri == b.uri && a.version == b.version && exists host :: HostIs(a, host) && HostIs(b, host)
  }

  lemma HostIsFirst(r: CacheKey, host: string)
    ensures var i := FindHeader(r.headers, "Host");
      HostIs(r, host) <==> i < |r.headers| && r.headers[i].value == host
  {
    var i := FindHeader(r.headers, "Host");
    if i < |r.headers| {
      assert HostAt(r.headers, i);
    }
  }

  lemma EqualsIffSame(a: CacheKey, b: CacheKey)
    ensures RequestEquals(a, b) <==> SameRequest(a, b)
  {
    var i := FindHeader(a.headers, "Host");
    if i < |a.headers| {
      HostIsFirst(a, a.headers[i].value);
      HostIsFirst(b, a.headers[i].value);
    }
    if host :| HostIs(a, host) && HostIs(b, host) {
      HostIsFirst(a, host);
      HostIsFirst(b, host);
    }
  }

  // A put changes what is found for the requests with the same type, uri, version and Host; for
  // any other request a lookup finds what it found before.
  lemma PutChangesTheSameRequest(history: seq<Pair<CacheKey, string>>, put: Pair<CacheKey, string>, r: CacheKey)
    ensures Last(RequestEquals, history + [put], r) == if SameRequest(put.key, r) then Some(put.value) else Last(RequestEquals, history, r)
  {
    EqualsIffSame(put.key, r);
    EqualsIffSame(r, put.key);
    LastOfPut(RequestEquals, history, put, r);
  }

  function KeyOf(h: Head): CacheKey
    requires h.line.RequestLine?
  {
    CacheKey(h.line.verb, h.line.uri, h.line.version, h.headers)
  }

  // Whatever is in the cache already, once a connection has its whole response the
  // cache gives, for that request, exactly the bytes the server sent.
  lemma CachedResponseIsFound(clientFd: int, es: seq<Connection.Event>, history: seq<Pair<CacheKey, string>>)
    requires ConnectionRuns.Run(clientFd, es) && ConnectionRuns.Reached(clientFd, es).step == Connection.SendingResp
    ensures var c := ConnectionRuns.Reached(clientFd, es);
      && c.request.line.RequestLine? && c.wire.cached.Some?
      && Last(RequestEquals, history + [Pair(KeyOf(c.request), c.wire.cached.value)], KeyOf(c.request)) == Some(c.wire.fromServer)
  {
    ConnectionRuns.ReachedIsGood(clientFd, es);
    var c := ConnectionRuns.Reached(clientFd, es);
    LastOfPut(RequestEquals, history, Pair(KeyOf(c.request), c.wire.cached.value), KeyOf(c.request));
  }
}
