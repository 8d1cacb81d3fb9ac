/** The GET response cache middleware: a lookup keyed by the request URL that
    replays a stored response and stops the chain, and otherwise a capture of
    the handlers' output that is stored when the response was successful.

    The Redis store is a map from key to serialised envelope whose Get and Set
    may fail; JSON is an abstract Encode/Decode pair. */
module Cache {
  import opened Wrappers
  import opened Gin

  const MethodGet: string := "GET"

  predicate Cacheable(r: Request)
  {
    r.verb == MethodGet
  }

  /** The cache key: URL.String(), with no normalisation. It starts with the
      path, and is longer than the path exactly when a query part (possibly
      empty) follows it. */
  function Key(u: Url): (k: string)
    ensures |u.path| <= |k| && k[..|u.path|] == u.path
    ensures |k| > |u.path| <==> u.forceQuery || u.rawQuery != ""
  {
    UrlString(u)
  }

  /** The cached struct: status, header and body. */
  datatype Envelope = Envelope(status: int, header: Header, data: Bytes)

  /** A value in the store, by what json.Unmarshal into the envelope struct
      makes of it: `Encoded(e)` stands for every stored text that unmarshals
      to `e` (whoever wrote it), `Foreign` for every text Unmarshal rejects
      (one that is not JSON, or is truncated, or has a field of the wrong
      type). */
  datatype Payload = Encoded(envelope: Envelope) | Foreign(raw: Bytes)

  /** json.Marshal of the envelope. Its fields are an int, a map of string
      slices and a string, none of which Marshal can reject. */
  function Encode(e: Envelope): (p: Payload)
    ensures Decode(p) == Some(e)
  {
    Encoded(e)
  }

  /** json.Unmarshal into the envelope struct. */
  function Decode(p: Payload): (r: Option<Envelope>)
    ensures r.Some? <==> p.Encoded?
  {
    match p
    case Encoded(e) => Some(e)
    case Foreign(_) => None
  }

  datatype Entry = Entry(payload: Payload, ttl: int)

  /** What Get(...).Result() yields: a value, redis.Nil for a missing key, or
      any other error (connection refused, timeout). */
  datatype Reply = Found(payload: Payload) | Nil | Failed

  datatype Op = GetOp(key: string) | SetOp(key: string)

  /** Get(key).Result() on this store. */
  function Lookup(entries: map<string, Entry>, key: string, fails: bool): (r: Reply)
    ensures r.Failed? <==> fails
    ensures r.Found? <==> !fails && key in entries
    ensures r.Found? ==> r.payload == entries[key].payload
  {
    if fails then Failed else if key in entries then Found(entries[key].payload) else Nil
  }

  /** A hit is a value that decodes; every error, a miss and an undecodable
      value all count as no hit. */
  function Hit(r: Reply): (h: Option<Envelope>)
    ensures h.Some? <==> r.Found? && r.payload.Encoded?
  {
    if r.Found? then Decode(r.payload) else None
  }

  /** Only a 2xx response whose chain was not aborted is stored. */
  predicate Storable(status: int, aborted: bool): (b: bool)
    ensures b <==> status / 100 == 2 && !aborted
  {
    200 <= status < 300 && !aborted
  }

  /** The expiry given to Set: time.Duration(Duration) * time.Second, in ns. */
  function Ttl(durationSeconds: int): (ns: int)
    ensures ns % 1_000_000_000 == 0 && ns / 1_000_000_000 == durationSeconds
  {
    durationSeconds * 1_000_000_000
  }

  /** The store after a Set of the encoded envelope; a failed Set changes nothing. */
  function Commit(entries: map<string, Entry>, key: string, e: Envelope, ttl: int, fails: bool): (r: map<string, Entry>)
    ensures fails ==> r == entries
    ensures !fails ==> Hit(Lookup(r, key, false)) == Some(e) && r[key].ttl == ttl
    ensures forall k | k != key :: (k in r <==> k in entries) && (k in r ==> r[k] == entries[k])
  {
    if fails then entries else entries[key := Entry(Encode(e), ttl)]
  }

  /** The Redis client: its contents, and (for the proofs) every call made. */
  class Store {
    var entries: map<string, Entry>
    ghost var log: seq<Op>

    constructor (entries: map<string, Entry>)
      ensures this.entries == entries && log == []
    {
      this.entries := entries;
      log := [];
    }

    method Get(key: string, fails: bool) returns (r: Reply)
      modifies this
      ensures r == Lookup(entries, key, fails)
      ensures entries == old(entries) && log == old(log) + [GetOp(key)]
    {
      log := log + [GetOp(key)];
      r := if fails then Failed else if key in entries then Found(entries[key].payload) else Nil;
    }

    method Set(key: string, p: Payload, ttl: int, fails: bool)
      modifies this
      ensures entries == (if fails then old(entries) else old(entries)[key := Entry(p, ttl)])
      ensures log == old(log) + [SetOp(key)]
    {
      log := log + [SetOp(key)];
      if !fails {
        entries := entries[key := Entry(p, ttl)];
      }
    }
  }

  /** responseWriter: the connection's writer with a buffer beside it. Only
      Write is intercepted; headers and status go to the wrapped writer. */
  class ResponseWriter {
    const inner: Sink
    var body: Bytes

    constructor (inner: Sink)
      ensures this.inner == inner && body == []
    {
      this.inner := inner;
      body := [];
    }

    /** Append to the buffer, then forward the same bytes and return what the
        wrapped writer returned. */
    method Write(b: Bytes) returns (n: int, failed: bool)
      modifies this, inner
      ensures body == old(body) + b
      ensures (n, failed) == WriteResult(inner.broken, b)
      ensures inner.View() == old(inner.View()).(body := if inner.broken then old(inner.body) else old(inner.body) + b)
    {
      body := body + b;
      n, failed := inner.Write(b);
    }
  }

  /** One handler action with the capturing writer installed. */
  method PerformCaptured(c: Context, w: ResponseWriter, a: Action)
    requires w.inner == c.sink
    modifies c, c.sink, w
    ensures c.sink.View() == ApplyOne(old(c.sink.View()), c.sink.broken, a)
    ensures w.body == old(w.body) + (if a.WriteBody? then a.data else [])
    ensures c.aborted == (old(c.aborted) || a.AbortChain?)
    ensures c.reachedHandler == old(c.reachedHandler)
  {
    match a {
      case AddHeaderValue(k, v) => c.sink.AddHeader(k, v);
      case SetStatus(code) => c.sink.WriteHeader(code);
      case WriteBody(data) => var _, _ := w.Write(data);
      case AbortChain => c.Abort();
    }
  }

  /** Context.Next once c.Writer is the capturing writer: the handlers see the
      same connection as before, and the buffer collects every byte they write,
      whether or not the connection took it. */
  method NextCaptured(c: Context, w: ResponseWriter, acts: seq<Action>)
    requires w.inner == c.sink
    modifies c, c.sink, w
    ensures c.sink.View() == Perform(old(c.sink.View()), c.sink.broken, acts)
    ensures w.body == old(w.body) + Written(acts)
    ensures c.aborted == (old(c.aborted) || Aborts(acts))
    ensures c.reachedHandler
  {
    c.reachedHandler := true;
    var i := 0;
    while i < |acts|
      invariant 0 <= i <= |acts|
      invariant c.sink.View() == Perform(old(c.sink.View()), c.sink.broken, acts[..i])
      invariant w.body == old(w.body) + Written(acts[..i])
      invariant c.aborted == (old(c.aborted) || Aborts(acts[..i]))
      invariant c.reachedHandler
    {
      assert acts[..i + 1][..i] == acts[..i];
      PerformCaptured(c, w, acts[i]);
      assert Aborts(acts[..i + 1]) == (Aborts(acts[..i]) || acts[i].AbortChain?) by {
        assert acts[..i + 1][i] == acts[i];
      }
      i := i + 1;
    }
    assert acts[..|acts|] == acts;
  }

  /** The response after a hit was replayed onto `r`. */
  function Replay(r: Response, broken: bool, e: Envelope): (r': Response)
    ensures e.status > 0 ==> r'.status == e.status
    ensures e.status <= 0 ==> r'.status == r.status
    ensures forall k :: Values(r'.header, k) == Values(r.header, k) + Values(e.header, k)
    ensures r.body <= r'.body
    ensures !broken ==> r'.body[|r.body|..] == e.data
    ensures broken ==> r'.body == r.body
  {
    Response(Merged(r.header, e.header), StatusAfter(r.status, e.status), if broken then r.body else r.body + e.data)
  }

  lemma HeaderExtensionality(a: Header, b: Header)
    requires forall k :: k in a <==> k in b
    requires forall k :: Values(a, k) == Values(b, k)
    ensures a == b
  {
    forall k | k in a ensures a[k] == b[k] {
      assert Values(a, k) == Values(b, k);
    }
  }

  /** `now` is `before` with the values of every cached name outside
      `pending` appended. */
  ghost predicate MergedSoFar(now: Header, before: Header, cached: Header, pending: set<string>)
  {
    ValuesSoFar(now, before, cached, pending) && NamesSoFar(now, before, cached, pending)
  }

  ghost predicate ValuesSoFar(now: Header, before: Header, cached: Header, pending: set<string>)
  {
    forall k :: Values(now, k) == Values(before, k) + (if k in cached && k !in pending then cached[k] else [])
  }

  ghost predicate NamesSoFar(now: Header, before: Header, cached: Header, pending: set<string>)
  {
    forall k :: k in now <==> k in before || (k in cached && k !in pending && cached[k] != [])
  }

  lemma MergedSoFarStep(now: Header, before: Header, cached: Header, pending: set<string>, k: string)
    requires MergedSoFar(now, before, cached, pending) && k in pending && k in cached
    ensures MergedSoFar(AddAll(now, k, cached[k]), before, cached, pending - {k})
  {
    ValuesSoFarStep(now, before, cached, pending, k);
    NamesSoFarStep(now, before, cached, pending, k);
  }

  lemma ValuesSoFarStep(now: Header, before: Header, cached: Header, pending: set<string>, k: string)
    requires ValuesSoFar(now, before, cached, pending) && k in pending && k in cached
    ensures ValuesSoFar(AddAll(now, k, cached[k]), before, cached, pending - {k})
  {
    var r := AddAll(now, k, cached[k]);
    forall k' ensures Values(r, k') == Values(before, k') + (if k' in cached && k' !in pending - {k} then cached[k'] else [])
    {
      assert Values(now, k') == Values(before, k') + (if k' in cached && k' !in pending then cached[k'] else []);
      if k' != k {
        assert Values(r, k') == Values(now, k');
      }
    }
  }

  lemma NamesSoFarStep(now: Header, before: Header, cached: Header, pending: set<string>, k: string)
    requires NamesSoFar(now, before, cached, pending) && k in pending && k in cached
    ensures NamesSoFar(AddAll(now, k, cached[k]), before, cached, pending - {k})
  {
    var r := AddAll(now, k, cached[k]);
    forall k' ensures k' in r <==> k' in before || (k' in cached && k' !in pending - {k} && cached[k'] != [])
    {
      assert k' in now <==> k' in before || (k' in cached && k' !in pending && cached[k'] != []);
    }
  }

  lemma MergedSoFarDone(now: Header, before: Header, cached: Header)
    requires MergedSoFar(now, before, cached, {})
    ensures now == Merged(before, cached)
  {
    HeaderExtensionality(now, Merged(before, cached));
  }

  /** The inner loop: Header().Add(k, v) for each cached value of `k`. */
  method AddValues(s: Sink, k: string, vs: seq<string>)
    modifies s
    ensures s.View() == old(s.View()).(header := AddAll(old(s.header), k, vs))
  {
    var j := 0;
    while j < |vs|
      invariant 0 <= j <= |vs|
      invariant s.View() == old(s.View()).(header := AddAll(old(s.header), k, vs[..j]))
    {
      assert vs[..j + 1] == vs[..j] + [vs[j]];
      AddAllStep(old(s.header), k, vs[..j], vs[j]);
      s.AddHeader(k, vs[j]);
      j := j + 1;
    }
    assert vs[..|vs|] == vs;
  }

  /** The two nested loops over the cached header: Header().Add for every
      value of every name. Names come in map order; the values of one name
      keep their order. */
  method ReplayHeaders(s: Sink, cached: Header)
    modifies s
    ensures s.View() == old(s.View()).(header := Merged(old(s.header), cached))
  {
    var pending := cached.Keys;
    while pending != {}
      invariant pending <= cached.Keys
      invariant s.status == old(s.status) && s.body == old(s.body)
      invariant MergedSoFar(s.header, old(s.header), cached, pending)
      decreases pending
    {
      var k :| k in pending;
      ghost var h0 := s.header;
      AddValues(s, k, cached[k]);
      MergedSoFarStep(h0, old(s.header), cached, pending, k);
      pending := pending - {k};
    }
    MergedSoFarDone(s.header, old(s.header), cached);
  }

  /** How the middleware dealt with a request. `stored` says a Set was
      attempted. */
  datatype Route = Bypassed | Replayed(envelope: Envelope) | Fetched(stored: bool)

  /** Which store operations fail on this request. */
  datatype Faults = Faults(getFails: bool, setFails: bool)

  /** The Cache middleware. `redis` is null when the client was never
      initialised; `next` is what the handlers after it do. */
  method Cache(c: Context, redis: Store?, durationSeconds: int, next: seq<Action>, faults: Faults)
    returns (route: Route)
    modifies c, c.sink, redis
    ensures !Cacheable(c.request) || redis == null ==>
      && route == Bypassed
      && c.sink.View() == Perform(old(c.sink.View()), c.sink.broken, next)
      && c.aborted == (old(c.aborted) || Aborts(next)) && c.reachedHandler
      && (redis != null ==> unchanged(redis))
    ensures Cacheable(c.request) && redis != null ==>
      var key := Key(c.request.url);
      var hit := Hit(Lookup(old(redis.entries), key, faults.getFails));
      && (hit.Some? ==>
            && route == Replayed(hit.value)
            && c.sink.View() == Replay(old(c.sink.View()), c.sink.broken, hit.value)
            && c.aborted && c.reachedHandler == old(c.reachedHandler)
            && redis.entries == old(redis.entries)
            && redis.log == old(redis.log) + [GetOp(key)])
      && (hit.None? ==>
            && route.Fetched?
            && c.sink.View() == Perform(old(c.sink.View()), c.sink.broken, next)
            && c.aborted == (old(c.aborted) || Aborts(next)) && c.reachedHandler
            && route.stored == Storable(c.sink.status, c.aborted)
            && redis.entries
               == (if route.stored
                   then Commit(old(redis.entries), key, Envelope(c.sink.status, c.sink.header, Written(next)),
                               Ttl(durationSeconds), faults.setFails)
                   else old(redis.entries))
            && redis.log == old(redis.log) + [GetOp(key)] + (if route.stored then [SetOp(key)] else []))
  {
    if !Cacheable(c.request) {
      Next(c, next);
      return Bypassed;
    }
    if redis == null {
      Next(c, next);
      return Bypassed;
    }
    var key := Key(c.request.url);
    var reply := redis.Get(key, faults.getFails);
    if reply.Found? {
      var cached := Decode(reply.payload);
      if cached.Some? {
        ReplayHit(c, cached.value);
        return Replayed(cached.value);
      }
    }
    route := Fetch(c, redis, key, durationSeconds, next, faults.setFails);
  }

  /** A hit: the cached headers, status and body are written and the chain is
      aborted before any handler runs. */
  method ReplayHit(c: Context, e: Envelope)
    modifies c, c.sink
    ensures c.sink.View() == Replay(old(c.sink.View()), c.sink.broken, e)
    ensures c.aborted && c.reachedHandler == old(c.reachedHandler)
  {
    ReplayHeaders(c.sink, e.header);
    c.sink.WriteHeader(e.status);
    var _, _ := c.sink.Write(e.data);
    c.Abort();
  }

  /** No hit: the handlers run behind the capture, and a 2xx, not aborted
      response is stored under `key`. */
  method Fetch(c: Context, redis: Store, key: string, durationSeconds: int, next: seq<Action>, setFails: bool)
    returns (route: Route)
    modifies c, c.sink, redis
    ensures route.Fetched?
    ensures c.sink.View() == Perform(old(c.sink.View()), c.sink.broken, next)
    ensures c.aborted == (old(c.aborted) || Aborts(next)) && c.reachedHandler
    ensures route.stored == Storable(c.sink.status, c.aborted)
    ensures redis.entries
            == (if route.stored
                then Commit(old(redis.entries), key, Envelope(c.sink.status, c.sink.header, Written(next)),
                            Ttl(durationSeconds), setFails)
                else old(redis.entries))
    ensures redis.log == old(redis.log) + (if route.stored then [SetOp(key)] else [])
  {
    var w := new ResponseWriter(c.sink);
    NextCaptured(c, w, next);
    assert w.body == Written(next);
    if 200 <= c.sink.status < 300 && !c.aborted {
      var data := Encode(Envelope(c.sink.status, c.sink.header, w.body));
      redis.Set(key, data, Ttl(durationSeconds), setFails);
      return Fetched(true);
    }
    return Fetched(false);
  }

  /** The cache key keeps the query string exactly: two URLs give the same key
      exactly when they have the same path and the same query part (an escaped
      path holds no '?'). Reordered query parameters are different keys. */
  lemma {:induction false} KeyIsExact(u: Url, v: Url)
    requires '?' !in u.path && '?' !in v.path
    ensures Key(u) == Key(v) <==>
      u.path == v.path &&
      (u.forceQuery || u.rawQuery != "") == (v.forceQuery || v.rawQuery != "") &&
      u.rawQuery == v.rawQuery
  {
    PathPrefix(u);
    PathPrefix(v);
    if Key(u) == Key(v) {
      var ku, kv := Key(u), Key(v);
      assert |u.path| == FirstIndex(ku, '?') == FirstIndex(kv, '?') == |v.path|;
      assert u.path == ku[..|u.path|] == kv[..|v.path|] == v.path;
      if u.forceQuery || u.rawQuery != "" {
        assert u.rawQuery == ku[|u.path| + 1..] == kv[|v.path| + 1..] == v.rawQuery;
      }
    }
  }

  lemma PathPrefix(u: Url)
    requires '?' !in u.path
    ensures var k := Key(u);
      && FirstIndex(k, '?') == |u.path| <= |k|
      && k[..|u.path|] == u.path
      && (!(u.forceQuery || u.rawQuery != "") ==> k == u.path)
      && ((u.forceQuery || u.rawQuery != "") ==>
            |k| == |u.path| + 1 + |u.rawQuery| && k[|u.path| + 1..] == u.rawQuery)
  {
    if u.forceQuery || u.rawQuery != "" {
      assert Key(u) == u.path + ("?" + u.rawQuery);
      FirstIndexAfter(u.path, "?" + u.rawQuery, '?');
    } else {
      assert u.path + [] == u.path;
      FirstIndexAfter(u.path, [], '?');
    }
  }

  /** A GET that misses, on a fresh working connection, and whose response is
      2xx and not aborted, is stored; the same URL looked up again is a hit
      that replays the same status and the same body, and the header the
      first response had appended after what the middleware before the cache
      had already set (`preset`). With nothing preset the replay is the first
      response exactly. */
  lemma {:induction false} RepeatedGetReplaysFirstResponse(
    entries: map<string, Entry>, u: Url, preset: Header, next: seq<Action>, durationSeconds: int)
    requires forall k :: k in preset ==> preset[k] != []
    requires Storable(Perform(Response(preset, 200, []), false, next).status, Aborts(next))
    ensures
      var first := Perform(Response(preset, 200, []), false, next);
      var stored := Commit(entries, Key(u), Envelope(first.status, first.header, Written(next)),
                           Ttl(durationSeconds), false);
      var hit := Hit(Lookup(stored, Key(u), false));
      && hit == Some(Envelope(first.status, first.header, first.body))
      && var second := Replay(Response(preset, 200, []), false, hit.value);
         && second.status == first.status
         && second.body == first.body
         && second.header == Merged(preset, first.header)
         && (preset == map[] ==> second == first)
  {
    var r0 := Response(preset, 200, []);
    var first := Perform(r0, false, next);
    PerformBody(r0, next);
    assert first.body == Written(next);
    if preset == map[] {
      HeaderExtensionality(Merged(map[], first.header), first.header);
    }
  }

  /** Replay appends: a header value that the middleware before the cache sets
      on every request (CORS sets Vary: Origin) comes back twice on a hit. */
  lemma ReplayRepeatsPresetValues()
    ensures
      var preset := map["Vary" := ["Origin"]];
      var first := Perform(Response(preset, 200, []), false, [WriteBody([123 as Byte, 125 as Byte])]);
      && first.header == preset
      && Replay(Response(preset, 200, []), false, Envelope(first.status, first.header, first.body)).header
         == map["Vary" := ["Origin", "Origin"]]
  {
    var preset := map["Vary" := ["Origin"]];
    var merged := Merged(preset, preset);
    assert Values(merged, "Vary") == ["Origin", "Origin"];
    HeaderExtensionality(merged, map["Vary" := ["Origin", "Origin"]]);
  }

  /** A stored `{}` or `null` unmarshals to the zero envelope and so is a hit.
      Its status 0 is ignored by the writer, and replaying it leaves the
      response as it was: on a fresh writer the client gets 200 and an empty
      body, and the chain is aborted. */
  lemma ZeroEnvelopeReplaysNothing(r: Response, broken: bool)
    ensures Hit(Found(Encoded(Envelope(0, map[], [])))) == Some(Envelope(0, map[], []))
    ensures Replay(r, broken, Envelope(0, map[], [])) == r
  {
    HeaderExtensionality(Merged(r.header, map[]), r.header);
    assert r.body + [] == r.body;
  }
}
