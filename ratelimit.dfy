/** The rate-limit middleware: a registry from client IP to that client's
    limiter and the time it was last seen, find-or-create on every request,
    a sweep that forgets idle clients, and the admit-or-deny decision. */
module RateLimit {
  import opened Wrappers
  import opened Gin
  import opened TokenBucket

  /** config.RateLimitConfig: the cleanup interval is in minutes. */
  datatype Config = Config(requestsPerMinute: int, burstSize: int, cleanupInterval: int)

  /** The registry entry: the limiter and when the client was last seen (ns). */
  datatype Client = Client(limiter: Limiter, lastSeen: int)

  const TooManyRequests: int := 429

  const DenyMessage: string := "Too many requests. Please try again later."

  /** The JSON body of the 429 response: the object whose one member
      "error" holds the message, serialised without spaces. */
  function DenyBody(): (b: Bytes)
    ensures b == Ascii("{\"error\":\"") + Ascii(DenyMessage) + Ascii("\"}")
  {
    AsciiAppend("{\"error\":\"" + DenyMessage, "\"}");
    AsciiAppend("{\"error\":\"", DenyMessage);
    Ascii("{\"error\":\"" + DenyMessage + "\"}")
  }

  /** A client not seen for strictly longer than the cleanup interval. */
  predicate Idle(c: Client, now: int, cleanupMinutes: int)
  {
    now - c.lastSeen > cleanupMinutes * Minute
  }

  /** The entries a sweep at `now` keeps: exactly those not idle, unchanged. */
  function Survivors(m: map<string, Client>, now: int, cleanupMinutes: int): (r: map<string, Client>)
    ensures forall ip :: ip in r <==> ip in m && !Idle(m[ip], now, cleanupMinutes)
    ensures forall ip | ip in r :: r[ip] == m[ip]
  {
    map ip | ip in m && !Idle(m[ip], now, cleanupMinutes) :: m[ip]
  }

  /** A sweep keeps exactly the clients seen within the cleanup interval, each
      with its entry untouched, and a second sweep at the same instant removes
      nothing more. */
  lemma SweepKeepsRecentClients(m: map<string, Client>, now: int, cleanupMinutes: int, ip: string)
    ensures ip in Survivors(m, now, cleanupMinutes) <==> ip in m && now - m[ip].lastSeen <= cleanupMinutes * Minute
    ensures ip in Survivors(m, now, cleanupMinutes) ==> Survivors(m, now, cleanupMinutes)[ip] == m[ip]
    ensures Survivors(Survivors(m, now, cleanupMinutes), now, cleanupMinutes) == Survivors(m, now, cleanupMinutes)
  {
  }

  /** The package-level `clients` map, as an object. */
  class Registry {
    var clients: map<string, Client>

    ghost function Limiters(): set<Limiter>
      reads this
    {
      set ip | ip in clients :: clients[ip].limiter
    }

    /** Every limiter is a well-formed bucket, and no two clients share one. */
    ghost predicate Valid()
      reads this, Limiters()
    {
      && (forall ip | ip in clients :: clients[ip].limiter.Valid())
      && (forall ip, ip' | ip in clients && ip' in clients && ip != ip' ::
            clients[ip].limiter != clients[ip'].limiter)
    }

    constructor ()
      ensures clients == map[] && Valid()
    {
      clients := map[];
    }

    /** getClientLimiter: a known client gets its own limiter back with
        `lastSeen` refreshed; an unknown one gets a new, full limiter built
        from the configuration. A zero rate would divide by zero on the
        creation path, so only that path needs a non-zero rate. */
    method GetClientLimiter(ip: string, now: int, cfg: Config) returns (limiter: Limiter)
      requires Valid()
      requires ip in clients || cfg.requestsPerMinute != 0
      modifies this
      ensures Valid()
      ensures clients == old(clients)[ip := Client(limiter, now)]
      ensures ip in old(clients) ==> limiter == old(clients[ip].limiter)
      ensures ip !in old(clients) ==>
        && fresh(limiter)
        && limiter.limit == LimitFor(cfg.requestsPerMinute)
        && limiter.capacity == Capacity(cfg.burstSize)
        && limiter.State() == Full(limiter.capacity, now)
    {
      if ip in clients {
        limiter := clients[ip].limiter;
        clients := clients[ip := Client(limiter, now)];
        return;
      }
      limiter := new Limiter(LimitFor(cfg.requestsPerMinute), cfg.burstSize, now);
      clients := clients[ip := Client(limiter, now)];
    }

    /** getClientLimiter followed by one Allow on the limiter it returns. Only
        that limiter changes. */
    method Admit(ip: string, now: int, cfg: Config) returns (admitted: bool, limiter: Limiter)
      requires Valid()
      requires ip in clients || cfg.requestsPerMinute != 0
      modifies this, Limiters()
      ensures Valid()
      ensures
        && clients == old(clients)[ip := Client(limiter, now)]
        && (ip in old(clients) ==> limiter == old(clients[ip].limiter))
        && (ip !in old(clients) ==>
              && fresh(limiter)
              && limiter.limit == LimitFor(cfg.requestsPerMinute)
              && limiter.capacity == Capacity(cfg.burstSize))
        && Decision(admitted, limiter.State())
           == Step(limiter.limit, limiter.capacity,
                   if ip in old(clients) then old(limiter.State()) else Full(limiter.capacity, now), now)
      ensures forall other | other in old(clients) && other != ip :: unchanged(old(clients)[other].limiter)
    {
      limiter := GetClientLimiter(ip, now, cfg);
      assert forall other | other in clients && other != ip :: clients[other].limiter != limiter;
      admitted := limiter.Allow(now);
    }

    /** One pass of the cleanup routine: every entry idle for longer than the
        cleanup interval is deleted while the map is being ranged over. */
    method Sweep(now: int, cleanupMinutes: int)
      requires Valid()
      modifies this
      ensures Valid()
      ensures clients == Survivors(old(clients), now, cleanupMinutes)
    {
      var pending := clients.Keys;
      while pending != {}
        invariant pending <= old(clients).Keys
        invariant clients.Keys <= old(clients).Keys
        invariant forall ip :: ip in clients <==> ip in old(clients) && (ip in pending || !Idle(old(clients)[ip], now, cleanupMinutes))
        invariant forall ip | ip in clients :: clients[ip] == old(clients)[ip]
        invariant Valid()
        decreases pending
      {
        var ip :| ip in pending;
        if Idle(clients[ip], now, cleanupMinutes) {
          Forget(ip);
        }
        pending := pending - {ip};
      }
      assert clients.Keys == Survivors(old(clients), now, cleanupMinutes).Keys;
    }

    /** delete(clients, ip). */
    method Forget(ip: string)
      requires Valid()
      modifies this
      ensures Valid()
      ensures clients == old(clients) - {ip}
    {
      clients := clients - {ip};
    }
  }

  /** The RateLimit middleware. Without a configuration every request goes on
      and nothing is touched. Otherwise the client's limiter is found or
      created and asked once: an admitted request goes on to the next handler
      unchanged; a denied one gets 429 with the fixed JSON error and the chain
      is aborted. */
  method RateLimit(cfg: Option<Config>, registry: Registry, c: Context, now: int) returns (admitted: bool)
    requires registry.Valid()
    requires cfg.Some? ==> c.request.clientIP in registry.clients || cfg.value.requestsPerMinute != 0
    modifies registry, registry.Limiters(), c, c.sink
    ensures registry.Valid()
    ensures cfg.None? ==> admitted && unchanged(registry) && unchanged(registry.Limiters())
    ensures admitted ==> unchanged(c, c.sink)
    ensures !admitted ==>
      && c.aborted && c.reachedHandler == old(c.reachedHandler)
      && c.sink.View() == old(c.sink.View()).(status := TooManyRequests,
           body := if c.sink.broken then old(c.sink.body) else old(c.sink.body) + DenyBody())
    ensures cfg.Some? ==>
      var ip := c.request.clientIP;
      && ip in registry.clients
      && registry.clients == old(registry.clients)[ip := registry.clients[ip]]
      && registry.clients[ip].lastSeen == now
      && (ip in old(registry.clients) ==> registry.clients[ip].limiter == old(registry.clients[ip].limiter))
      && (ip !in old(registry.clients) ==>
            && fresh(registry.clients[ip].limiter)
            && registry.clients[ip].limiter.limit == LimitFor(cfg.value.requestsPerMinute)
            && registry.clients[ip].limiter.capacity == Capacity(cfg.value.burstSize))
      && var l := registry.clients[ip].limiter;
         Decision(admitted, l.State())
         == Step(l.limit, l.capacity,
                 if ip in old(registry.clients) then old(l.State()) else Full(l.capacity, now), now)
    ensures cfg.Some? ==>
      forall ip | ip in old(registry.clients) && ip != c.request.clientIP ::
        registry.clients[ip].limiter.State() == old(registry.clients[ip].limiter.State())
  {
    if cfg.None? {
      return true;
    }
    var limiter;
    admitted, limiter := registry.Admit(c.request.clientIP, now, cfg.value);
    if !admitted {
      Deny(c);
    }
  }

  /** c.JSON(429, {"error": ...}) followed by c.Abort(). */
  method Deny(c: Context)
    modifies c, c.sink
    ensures c.aborted && c.reachedHandler == old(c.reachedHandler)
    ensures c.sink.View() == old(c.sink.View()).(status := TooManyRequests,
      body := if c.sink.broken then old(c.sink.body) else old(c.sink.body) + DenyBody())
  {
    c.sink.WriteHeader(TooManyRequests);
    var _, _ := c.sink.Write(DenyBody());
    c.Abort();
  }
}
