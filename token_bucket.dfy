/** The per-client limiter built by the rate-limit middleware: a token bucket
    in the manner of golang.org/x/time/rate, over integer nanosecond ticks.

    The library keeps a float64 token count. Here the count is split into whole
    tokens and a remainder `frac` of nanoseconds that have not yet earned a full
    token, so no fraction is ever lost. */
module TokenBucket {

  /** time.Minute, in nanoseconds. */
  const Minute: int := 60_000_000_000

  type Pos = x: int | x > 0 witness 1

  /** rate.Inf, or rate.Every(d): one token per `interval` nanoseconds. */
  datatype Limit = Unlimited | Every(interval: Pos)

  /** Go's integer division, which truncates toward zero. */
  function GoDiv(a: int, b: int): (q: int)
    requires b != 0
    ensures (a >= 0 && b > 0) ==> q == a / b
  {
    var n := if a < 0 then -a else a;
    var d := if b < 0 then -b else b;
    if (a < 0) == (b < 0) then n / d else -(n / d)
  }

  /** rate.Every(time.Minute / time.Duration(rpm)): a non-positive quotient
      means an unlimited rate. A zero rpm is a division by zero in the source. */
  function LimitFor(requestsPerMinute: int): (l: Limit)
    requires requestsPerMinute != 0
    ensures 0 < requestsPerMinute <= Minute ==> l == Every(Minute / requestsPerMinute)
    ensures requestsPerMinute < 0 || requestsPerMinute > Minute ==> l == Unlimited
  {
    var d := GoDiv(Minute, requestsPerMinute);
    if d <= 0 then Unlimited else Every(d)
  }

  /** The bucket size: a burst of zero or less can never hold a token. */
  function Capacity(burst: int): (c: nat)
    ensures c >= burst && (c > 0 ==> c == burst)
  {
    if burst > 0 then burst else 0
  }

  datatype Bucket = Bucket(tokens: nat, frac: nat, last: int)

  /** Well-formed bucket state: the level never exceeds the capacity, and the
      remainder is less than one token (and zero once the bucket is full). */
  ghost predicate Wf(limit: Limit, cap: nat, b: Bucket)
  {
    && b.tokens <= cap
    && (b.tokens == cap ==> b.frac == 0)
    && (limit.Every? ==> b.frac < limit.interval)
  }

  /** A new limiter is full. */
  function Full(cap: nat, now: int): (b: Bucket)
    ensures forall limit :: Wf(limit, cap, b)
  {
    Bucket(cap, 0, now)
  }

  /** The nanoseconds of credit a bucket holds. */
  function Credit(interval: Pos, b: Bucket): int
  {
    b.tokens * interval + b.frac
  }

  /** Lazy refill for the time elapsed since `last`, capped at the capacity;
      a clock that went backwards adds nothing. */
  function Refill(interval: Pos, cap: nat, b: Bucket, now: int): (r: Bucket)
    requires Wf(Every(interval), cap, b)
    ensures Wf(Every(interval), cap, r)
    ensures r.last == now
    ensures b.tokens <= r.tokens
    ensures now <= b.last ==> r.tokens == b.tokens && r.frac == b.frac
  {
    var elapsed := if now > b.last then now - b.last else 0;
    var total := b.frac + elapsed;
    var t := b.tokens + total / interval;
    if t >= cap then Bucket(cap, 0, now) else Bucket(t, total % interval, now)
  }

  datatype Decision = Decision(allowed: bool, next: Bucket)

  /** Limiter.Allow at time `now`. An unlimited limiter admits without
      touching its state; otherwise the request is admitted when the refilled
      bucket holds a whole token, which it then spends. A denial leaves the
      whole state, including `last`, as it was. */
  function Step(limit: Limit, cap: nat, b: Bucket, now: int): (d: Decision)
    requires Wf(limit, cap, b)
    ensures Wf(limit, cap, d.next)
    ensures !d.allowed ==> d.next == b
    ensures limit.Unlimited? ==> d.allowed && d.next == b
    ensures limit.Every? ==>
      var f := Refill(limit.interval, cap, b, now);
      && (d.allowed <==> f.tokens >= 1)
      && (d.allowed ==> d.next == Bucket(f.tokens - 1, f.frac, now))
    ensures cap == 0 && limit.Every? ==> !d.allowed
  {
    match limit
    case Unlimited => Decision(true, b)
    case Every(interval) =>
      var f := Refill(interval, cap, b, now);
      if f.tokens >= 1 then Decision(true, Bucket(f.tokens - 1, f.frac, now))
      else Decision(false, b)
  }

  datatype Trace = Trace(admitted: seq<bool>, final: Bucket)

  /** The decisions for a series of requests at the given instants. */
  function Run(limit: Limit, cap: nat, b: Bucket, times: seq<int>): (t: Trace)
    requires Wf(limit, cap, b)
    ensures |t.admitted| == |times|
    ensures Wf(limit, cap, t.final)
    decreases |times|
  {
    if times == [] then Trace([], b)
    else
      var d := Step(limit, cap, b, times[0]);
      var rest := Run(limit, cap, d.next, times[1..]);
      Trace([d.allowed] + rest.admitted, rest.final)
  }

  function Count(s: seq<bool>): nat
  {
    if s == [] then 0 else (if s[0] then 1 else 0) + Count(s[1..])
  }

  function Repeat<T>(x: T, n: nat): (s: seq<T>)
    ensures |s| == n && forall i :: 0 <= i < n ==> s[i] == x
  {
    seq(n, _ => x)
  }

  /** k requests at the instant a bucket holding k whole tokens was last
      touched are all admitted; the one after them is denied. */
  lemma {:induction false} DrainAtOneInstant(interval: Pos, cap: nat, k: nat, now: int)
    requires k <= cap
    ensures Run(Every(interval), cap, Bucket(k, 0, now), Repeat(now, k + 1)).admitted
            == Repeat(true, k) + [false]
    decreases k
  {
    var lim := Every(interval);
    var b := Bucket(k, 0, now);
    var times := Repeat(now, k + 1);
    var d := Step(lim, cap, b, now);
    assert Refill(interval, cap, b, now) == b;
    if k == 0 {
      assert !d.allowed;
      assert times[1..] == [];
    } else {
      assert d == Decision(true, Bucket(k - 1, 0, now));
      assert times[1..] == Repeat(now, k);
      DrainAtOneInstant(interval, cap, k - 1, now);
      assert Repeat(true, k) == [true] + Repeat(true, k - 1);
    }
  }

  /** A fresh limiter with a finite rate admits exactly `cap` requests sent at a
      single instant, then denies: whatever the rate, a burst of `cap` is
      absorbed and no more. */
  lemma FreshLimiterAdmitsBurst(interval: Pos, cap: nat, created: int, now: int)
    requires created <= now
    ensures Run(Every(interval), cap, Full(cap, created), Repeat(now, cap + 1)).admitted
            == Repeat(true, cap) + [false]
  {
    var lim := Every(interval);
    var times := Repeat(now, cap + 1);
    assert Refill(interval, cap, Full(cap, created), now) == Full(cap, now);
    if cap == 0 {
      assert times[1..] == [];
    } else {
      assert Step(lim, cap, Full(cap, created), now) == Step(lim, cap, Full(cap, now), now);
      assert Run(lim, cap, Full(cap, created), times) == Run(lim, cap, Full(cap, now), times);
      DrainAtOneInstant(interval, cap, cap, now);
    }
  }

  /** An unlimited limiter admits every request. */
  lemma {:induction false} UnlimitedAdmitsAll(cap: nat, b: Bucket, times: seq<int>)
    requires Wf(Unlimited, cap, b)
    ensures Run(Unlimited, cap, b, times).admitted == Repeat(true, |times|)
    decreases |times|
  {
    if times != [] {
      UnlimitedAdmitsAll(cap, b, times[1..]);
    }
  }

  lemma CreditNonNegative(interval: Pos, b: Bucket)
    ensures Credit(interval, b) >= 0
  {
    MulMonotone(b.tokens, 0, interval);
  }

  lemma CreditAtMostCapacity(interval: Pos, cap: nat, b: Bucket)
    requires Wf(Every(interval), cap, b)
    ensures Credit(interval, b) <= cap * interval
  {
    if b.tokens < cap {
      assert (b.tokens + 1) * interval <= cap * interval;
    }
  }

  /** Refilling never creates more credit than the time that passed. */
  lemma RefillCredit(interval: Pos, cap: nat, b: Bucket, now: int)
    requires Wf(Every(interval), cap, b)
    requires b.last <= now
    ensures Credit(interval, Refill(interval, cap, b, now)) <= Credit(interval, b) + (now - b.last)
  {
    var total := b.frac + (now - b.last);
    var q, r := total / interval, total % interval;
    assert total == q * interval + r;
    assert (b.tokens + q) * interval == b.tokens * interval + q * interval;
    if b.tokens + q >= cap {
      assert cap * interval <= (b.tokens + q) * interval;
    }
  }

  /** One step: an admission lowers `Credit - last` by at least one interval,
      a denial leaves it as it was. */
  lemma StepCredit(interval: Pos, cap: nat, b: Bucket, now: int)
    requires Wf(Every(interval), cap, b)
    requires b.last <= now
    ensures var d := Step(Every(interval), cap, b, now);
      && (d.next.last == b.last || d.next.last == now)
      && (if d.allowed then interval else 0) + Credit(interval, d.next) - d.next.last
         <= Credit(interval, b) - b.last
  {
    var f := Refill(interval, cap, b, now);
    RefillCredit(interval, cap, b, now);
    if f.tokens >= 1 {
      assert Credit(interval, Bucket(f.tokens - 1, f.frac, now)) == Credit(interval, f) - interval by {
        assert (f.tokens - 1) * interval == f.tokens * interval - interval;
      }
    }
  }

  /** Each admission spends one interval of credit that the elapsed time must
      have paid for. */
  lemma {:induction false} RunCredit(interval: Pos, cap: nat, b: Bucket, times: seq<int>)
    requires Wf(Every(interval), cap, b)
    requires forall i :: 0 <= i < |times| ==> b.last <= times[i]
    requires forall i, j :: 0 <= i <= j < |times| ==> times[i] <= times[j]
    ensures var t := Run(Every(interval), cap, b, times);
      && b.last <= t.final.last
      && (times != [] ==> t.final.last <= times[|times| - 1])
      && Count(t.admitted) * interval + Credit(interval, t.final) - t.final.last
         <= Credit(interval, b) - b.last
    decreases |times|
  {
    if times != [] {
      var lim := Every(interval);
      var d := Step(lim, cap, b, times[0]);
      var rest := times[1..];
      var tr := Run(lim, cap, d.next, rest);
      var c := Count(tr.admitted);
      assert Run(lim, cap, b, times) == Trace([d.allowed] + tr.admitted, tr.final);
      assert ([d.allowed] + tr.admitted)[1..] == tr.admitted;
      assert Count([d.allowed] + tr.admitted) == (if d.allowed then 1 else 0) + c;
      assert ((if d.allowed then 1 else 0) + c) * interval == (if d.allowed then interval else 0) + c * interval;
      StepCredit(interval, cap, b, times[0]);
      assert forall i :: 0 <= i < |rest| ==> d.next.last <= rest[i] by {
        forall i | 0 <= i < |rest| ensures d.next.last <= rest[i] {
          assert rest[i] == times[i + 1];
        }
      }
      RunCredit(interval, cap, d.next, rest);
      if rest != [] {
        assert rest[|rest| - 1] == times[|times| - 1];
      }
    }
  }

  /** a >= b scales to a * i >= b * i for a positive factor. */
  lemma MulMonotone(a: int, b: int, i: Pos)
    ensures a >= b ==> a * i >= b * i
  {
    if a >= b {
      assert a * i - b * i == (a - b) * i;
    }
  }

  lemma CountBound(count: nat, interval: Pos, cap: nat, window: nat)
    requires count * interval <= cap * interval + window
    ensures count <= cap + window / interval
  {
    var q := window / interval;
    assert window < (q + 1) * interval;
    assert (cap + q + 1) * interval == cap * interval + (q + 1) * interval;
    assert count * interval < (cap + q + 1) * interval;
    MulMonotone(count, cap + q + 1, interval);
  }

  /** Long-run admission rate: over requests whose instants fall within
      `window` nanoseconds after the bucket was last touched, at most
      `cap + window / interval` are admitted, however they are spaced. */
  lemma AdmissionBound(interval: Pos, cap: nat, b: Bucket, times: seq<int>, window: nat)
    requires Wf(Every(interval), cap, b)
    requires forall i :: 0 <= i < |times| ==> b.last <= times[i] <= b.last + window
    requires forall i, j :: 0 <= i <= j < |times| ==> times[i] <= times[j]
    ensures Count(Run(Every(interval), cap, b, times).admitted) <= cap + window / interval
  {
    var t := Run(Every(interval), cap, b, times);
    var count := Count(t.admitted);
    RunCredit(interval, cap, b, times);
    CreditAtMostCapacity(interval, cap, b);
    var spent := count * interval;
    var start := Credit(interval, b);
    var left := Credit(interval, t.final);
    CreditNonNegative(interval, t.final);
    assert spent + left - t.final.last <= start - b.last;
    assert t.final.last <= b.last + window by {
      if times != [] {
        assert t.final.last <= times[|times| - 1];
      }
    }
    assert spent <= cap * interval + window;
    CountBound(count, interval, cap, window);
  }

  /** Two refills, at `s` and then at `t`, leave the bucket as one refill at
      `t` does: the lazy refill loses no credit by being split. */
  lemma RefillTwice(interval: Pos, cap: nat, b: Bucket, s: int, t: int)
    requires Wf(Every(interval), cap, b)
    requires b.last <= s <= t
    ensures Refill(interval, cap, Refill(interval, cap, b, s), t) == Refill(interval, cap, b, t)
  {
    var total := b.frac + (s - b.last);
    var q, r := total / interval, total % interval;
    var e := r + (t - s);
    var total' := b.frac + (t - b.last);
    assert total' == q * interval + e;
    DivShift(q, e, interval);
    var n := b.tokens + q + e / interval;
    assert Refill(interval, cap, b, t) == if n >= cap then Bucket(cap, 0, t) else Bucket(n, e % interval, t);
    if b.tokens + q < cap {
      assert Refill(interval, cap, b, s) == Bucket(b.tokens + q, r, s);
    } else {
      assert Refill(interval, cap, b, s) == Bucket(cap, 0, s);
    }
  }

  lemma DivShift(q: nat, x: nat, d: Pos)
    ensures (q * d + x) / d == q + x / d
    ensures (q * d + x) % d == x % d
  {
    var y := q * d + x;
    assert (q + x / d) * d == q * d + (x / d) * d;
    DivUnique(y, q + x / d, x % d, d);
  }

  /** Quotient and remainder are the only such pair. */
  lemma DivUnique(y: int, a: int, b: int, d: Pos)
    requires y == a * d + b && 0 <= b < d
    ensures y / d == a && y % d == b
  {
    var a', b' := y / d, y % d;
    assert y == a' * d + b';
    assert (a + 1) * d == a * d + d;
    assert (a' + 1) * d == a' * d + d;
    MulMonotone(a', a + 1, d);
    MulMonotone(a, a' + 1, d);
  }

  /** Refilling a bucket at `s` first changes no decision for requests at `s`
      or later: a denial keeps the state, and the first admission leaves both
      runs in the same state. */
  lemma {:induction false} RunAfterRefill(interval: Pos, cap: nat, b: Bucket, s: int, times: seq<int>)
    requires Wf(Every(interval), cap, b)
    requires b.last <= s
    requires forall i :: 0 <= i < |times| ==> s <= times[i]
    ensures Run(Every(interval), cap, Refill(interval, cap, b, s), times).admitted
            == Run(Every(interval), cap, b, times).admitted
    decreases |times|
  {
    if times != [] {
      RefillTwice(interval, cap, b, s, times[0]);
      var d := Step(Every(interval), cap, b, times[0]);
      if !d.allowed {
        RunAfterRefill(interval, cap, b, s, times[1..]);
      }
    }
  }

  /** The admission bound for any window of `window` nanoseconds that starts
      at or after the bucket's last update (`start`): at most the capacity plus
      one token per interval of the window is admitted. */
  lemma AdmissionBoundInWindow(interval: Pos, cap: nat, b: Bucket, times: seq<int>, start: int, window: nat)
    requires Wf(Every(interval), cap, b)
    requires b.last <= start
    requires forall i :: 0 <= i < |times| ==> start <= times[i] <= start + window
    requires forall i, j :: 0 <= i <= j < |times| ==> times[i] <= times[j]
    ensures Count(Run(Every(interval), cap, b, times).admitted) <= cap + window / interval
  {
    RunAfterRefill(interval, cap, b, start, times);
    AdmissionBound(interval, cap, Refill(interval, cap, b, start), times, window);
  }

  /** Once a bucket was drained at `last`, a request one full interval later
      is admitted: the refill earns a token. */
  lemma AdmittedAfterInterval(interval: Pos, cap: nat, b: Bucket, now: int)
    requires Wf(Every(interval), cap, b)
    requires cap >= 1
    requires now >= b.last + interval
    ensures Step(Every(interval), cap, b, now).allowed
  {
    var total := b.frac + (now - b.last);
    assert total >= interval;
    assert total / interval >= 1;
  }

  /** Requests per minute 60, burst 5: five requests at one instant are
      admitted and the sixth denied; one second later exactly one more is
      admitted. */
  lemma SixtyPerMinuteBurstFive(t0: int)
    ensures LimitFor(60) == Every(1_000_000_000)
    ensures Run(Every(1_000_000_000), 5, Full(5, t0), Repeat(t0, 6) + [t0 + 1_000_000_000, t0 + 1_000_000_000]).admitted
            == [true, true, true, true, true, false, true, false]
  {
    var lim := Every(1_000_000_000);
    var first := Repeat(t0, 6);
    var second := [t0 + 1_000_000_000, t0 + 1_000_000_000];
    FreshLimiterAdmitsBurst(1_000_000_000, 5, t0, t0);
    RunAppend(lim, 5, Full(5, t0), first, second);
    DrainedState(1_000_000_000, 5, 5, t0);
    var mid := Run(lim, 5, Full(5, t0), first).final;
    assert Run(lim, 5, Full(5, t0), first) == Run(lim, 5, Bucket(5, 0, t0), first) by {
      assert Step(lim, 5, Full(5, t0), t0) == Step(lim, 5, Bucket(5, 0, t0), t0);
    }
    assert mid == Bucket(0, 0, t0);
    var d1 := Step(lim, 5, mid, t0 + 1_000_000_000);
    assert d1 == Decision(true, Bucket(0, 0, t0 + 1_000_000_000));
    var d2 := Step(lim, 5, d1.next, t0 + 1_000_000_000);
    assert !d2.allowed;
    assert second[1..] == [t0 + 1_000_000_000];
    assert Run(lim, 5, mid, second).admitted == [true, false];
  }

  /** Where a drained bucket ends: k + 1 requests at one instant leave it empty. */
  lemma {:induction false} DrainedState(interval: Pos, cap: nat, k: nat, now: int)
    requires k <= cap
    ensures Run(Every(interval), cap, Bucket(k, 0, now), Repeat(now, k + 1)).final == Bucket(0, 0, now)
    decreases k
  {
    var b := Bucket(k, 0, now);
    var times := Repeat(now, k + 1);
    assert Refill(interval, cap, b, now) == b;
    if k == 0 {
      assert times[1..] == [];
    } else {
      assert times[1..] == Repeat(now, k);
      DrainedState(interval, cap, k - 1, now);
    }
  }

  /** Running two series back to back is running their concatenation. */
  lemma {:induction false} RunAppend(limit: Limit, cap: nat, b: Bucket, xs: seq<int>, ys: seq<int>)
    requires Wf(limit, cap, b)
    ensures var first := Run(limit, cap, b, xs);
      Run(limit, cap, b, xs + ys)
      == Trace(first.admitted + Run(limit, cap, first.final, ys).admitted,
               Run(limit, cap, first.final, ys).final)
    decreases |xs|
  {
    if xs == [] {
      assert xs + ys == ys;
    } else {
      var d := Step(limit, cap, b, xs[0]);
      var rest := Run(limit, cap, d.next, xs[1..]);
      var tail := Run(limit, cap, rest.final, ys);
      RunCons(limit, cap, b, xs);
      RunCons(limit, cap, b, xs + ys);
      assert (xs + ys)[0] == xs[0];
      assert (xs + ys)[1..] == xs[1..] + ys;
      RunAppend(limit, cap, d.next, xs[1..], ys);
      SeqAssoc([d.allowed], rest.admitted, tail.admitted);
    }
  }

  lemma RunCons(limit: Limit, cap: nat, b: Bucket, times: seq<int>)
    requires Wf(limit, cap, b) && times != []
    ensures var d := Step(limit, cap, b, times[0]);
      var rest := Run(limit, cap, d.next, times[1..]);
      Run(limit, cap, b, times) == Trace([d.allowed] + rest.admitted, rest.final)
  {
  }

  lemma SeqAssoc<T>(a: seq<T>, b: seq<T>, c: seq<T>)
    ensures a + (b + c) == (a + b) + c
  {
  }

  /** The limiter object built by rate.NewLimiter and shared between a
      registry entry and its callers. */
  class Limiter {
    const limit: Limit
    const capacity: nat
    var tokens: nat
    var frac: nat
    var last: int

    function State(): Bucket
      reads this
    {
      Bucket(tokens, frac, last)
    }

    ghost predicate Valid()
      reads this
    {
      Wf(limit, capacity, State())
    }

    /** rate.NewLimiter(limit, burst): a full bucket. */
    constructor (limit: Limit, burst: int, now: int)
      ensures this.limit == limit && capacity == Capacity(burst)
      ensures State() == Full(Capacity(burst), now)
      ensures Valid()
    {
      this.limit := limit;
      capacity := Capacity(burst);
      tokens := Capacity(burst);
      frac := 0;
      last := now;
    }

    /** Limiter.Allow: one step of the bucket at time `now`. */
    method Allow(now: int) returns (allowed: bool)
      requires Valid()
      modifies this
      ensures Valid()
      ensures Decision(allowed, State()) == Step(limit, capacity, old(State()), now)
    {
      if limit.Unlimited? {
        return true;
      }
      var interval := limit.interval;
      var elapsed := if now > last then now - last else 0;
      var total := frac + elapsed;
      var t := tokens + total / interval;
      var f := total % interval;
      if t >= capacity {
        t, f := capacity, 0;
      }
      if t >= 1 {
        tokens, frac, last := t - 1, f, now;
        allowed := true;
      } else {
        allowed := false;
      }
    }
  }
}
