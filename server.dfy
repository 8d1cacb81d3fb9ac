/** The global middleware order: the rate limiter runs before the cache, so a
    request turned away by the limiter never touches the store, and a request
    the cache answers never reaches the route's handlers, its JWT check
    included. */
module Server {
  import opened Wrappers
  import opened Gin
  import opened RateLimit
  import opened Cache

  /** RateLimit followed by Cache, then the route's own handlers `next`.
      The result is whether the limiter admitted the request and, if so, how
      the cache dealt with it. */
  method Serve(cfg: Option<Config>, registry: Registry, redis: Store?, c: Context, now: int,
               durationSeconds: int, next: seq<Action>, faults: Faults)
    returns (admitted: bool, route: Option<Route>)
    requires registry.Valid()
    requires cfg.Some? ==> c.request.clientIP in registry.clients || cfg.value.requestsPerMinute != 0
    requires !c.aborted && !c.reachedHandler
    modifies registry, registry.Limiters(), c, c.sink, redis
    ensures registry.Valid()
    ensures admitted <==> route.Some?
    ensures !admitted ==>
      && cfg.Some?
      && c.sink.status == TooManyRequests && c.aborted && !c.reachedHandler
      && (redis != null ==> unchanged(redis))
    ensures route == Some(Bypassed) ==> c.reachedHandler
    ensures route.Some? && route.value.Fetched? ==> c.reachedHandler
    ensures route.Some? && route.value.Replayed? ==>
      && !c.reachedHandler && c.aborted
      && c.sink.status == StatusAfter(old(c.sink.status), route.value.envelope.status)
  {
    admitted := RateLimit.RateLimit(cfg, registry, c, now);
    if !admitted {
      return false, None;
    }
    label admittedState:
    var r := Cache.Cache(c, redis, durationSeconds, next, faults);
    assert unchanged@admittedState(registry, registry.Limiters());
    route := Some(r);
  }
}
