/**
 Per-address token buckets, as the rendezvous service uses them. Token counts
 and instants are real; the clock is monotone.
 */
module TokenBuckets {
  type Address = nat
  type Instant = real

  datatype Bucket = Bucket(tokens: real, last: Instant)
  datatype Params = Params(capacity: real, rate: real)

  type Buckets = map<Address, Bucket>

  /** Tokens earned between two instants. */
  function Earned(p: Params, t: Instant, u: Instant): real {
    (u - t) * p.rate
  }

  function Refilled(p: Params, b: Bucket, now: Instant): real {
    var tokens := b.tokens + Earned(p, b.last, now);
    if tokens <= p.capacity then tokens else p.capacity
  }

  /** What `a` could spend at `now`; an unknown address starts full. */
  function Balance(p: Params, m: Buckets, a: Address, now: Instant): real {
    if a in m then Refilled(p, m[a], now) else p.capacity
  }

  /** One request of `a` at `now`: refill, then spend a token if there is one. */
  function Take(p: Params, m: Buckets, a: Address, now: Instant): (Buckets, bool) {
    var tokens := if a in m then Refilled(p, m[a], now) else p.capacity;
    if tokens >= 1.0 then (m[a := Bucket(tokens - 1.0, now)], true) else (m[a := Bucket(tokens, now)], false)
  }

  /** The rendezvous limiter: buckets are never evicted. */
  class RateLimiter {
    const p: Params
    var buckets: Buckets

    constructor (p: Params)
      ensures this.p == p && buckets == map[]
    {
      this.p, buckets := p, map[];
    }

    method Allow(a: Address, now: Instant) returns (allowed: bool)
      requires a in buckets ==> buckets[a].last <= now
      modifies this
      ensures (buckets, allowed) == Take(p, old(buckets), a, now)
    {
      var entry := if a in buckets then buckets[a] else Bucket(p.capacity, now);
      var tokens := entry.tokens + Earned(p, entry.last, now);
      if tokens > p.capacity {
        tokens := p.capacity;
      }
      assert a !in buckets ==> Earned(p, now, now) == 0.0;
      allowed := tokens >= 1.0;
      if allowed {
        tokens := tokens - 1.0;
      }
      buckets := buckets[a := Bucket(tokens, now)];
    }
  }

  // -------------------------------------------------------------- invariant

  predicate Sane(p: Params) {
    p.capacity >= 0.0 && p.rate >= 0.0
  }

  /** Every bucket holds between nothing and the capacity, and was last touched in the past. */
  ghost predicate Stocked(p: Params, m: Buckets, now: Instant) {
    forall a :: a in m ==> 0.0 <= m[a].tokens <= p.capacity && m[a].last <= now
  }

  lemma RefilledInRange(p: Params, b: Bucket, now: Instant)
    requires Sane(p) && 0.0 <= b.tokens <= p.capacity && b.last <= now
    ensures b.tokens <= Refilled(p, b, now) <= p.capacity
  {
    assert Earned(p, b.last, now) >= 0.0;
  }

  lemma BalanceInRange(p: Params, m: Buckets, a: Address, now: Instant)
    requires Sane(p) && Stocked(p, m, now)
    ensures 0.0 <= Balance(p, m, a, now) <= p.capacity
  {
    if a in m {
      RefilledInRange(p, m[a], now);
    }
  }

  lemma TakeKeepsStocked(p: Params, m: Buckets, a: Address, now: Instant)
    requires Sane(p) && Stocked(p, m, now)
    ensures Stocked(p, Take(p, m, a, now).0, now)
  {
    BalanceInRange(p, m, a, now);
  }

  /** A request costs its own address exactly one token if allowed, and others nothing. */
  lemma TakeCosts(p: Params, m: Buckets, a: Address, b: Address, now: Instant)
    requires Sane(p) && Stocked(p, m, now)
    ensures Balance(p, Take(p, m, a, now).0, b, now)
         == Balance(p, m, b, now) - (if a == b && Take(p, m, a, now).1 then 1.0 else 0.0)
  {
    BalanceInRange(p, m, a, now);
  }

  lemma EarnedAdds(p: Params, t: Instant, u: Instant, v: Instant)
    requires Sane(p) && u <= v
    ensures Earned(p, t, v) == Earned(p, t, u) + Earned(p, u, v)
    ensures Earned(p, t, t) == 0.0 && Earned(p, u, v) >= 0.0
  {}

  /** A balance grows no faster than the refill rate. */
  lemma BalanceDrift(p: Params, m: Buckets, a: Address, t: Instant, u: Instant)
    requires Sane(p) && t <= u && Stocked(p, m, t)
    ensures Balance(p, m, a, u) <= Balance(p, m, a, t) + Earned(p, t, u)
  {
    EarnedAdds(p, t, t, u);
    if a in m {
      EarnedAdds(p, m[a].last, t, u);
    }
  }

  lemma StockedLater(p: Params, m: Buckets, t: Instant, u: Instant)
    requires t <= u && Stocked(p, m, t)
    ensures Stocked(p, m, u)
  {}

  // -------------------------------------------------------------------- runs

  datatype Call = Call(a: Address, at: Instant, allowed: bool)

  ghost predicate InOrder(calls: seq<Call>) {
    forall i, j :: 0 <= i <= j < |calls| ==> calls[i].at <= calls[j].at
  }

  /** `states[i]` is the bucket map before call `i`. */
  ghost predicate PlainRun(p: Params, states: seq<Buckets>, calls: seq<Call>) {
    && |states| == |calls| + 1 && InOrder(calls)
    && forall i :: 0 <= i < |calls| ==> (states[i + 1], calls[i].allowed) == Take(p, states[i], calls[i].a, calls[i].at)
  }

  /** How many calls of `a` among `lo..hi` were allowed. */
  function Allowed(calls: seq<Call>, a: Address, lo: nat, hi: nat): nat
    requires lo <= hi <= |calls|
  {
    if lo == hi then 0
    else Allowed(calls, a, lo, hi - 1) + (if calls[hi - 1].a == a && calls[hi - 1].allowed then 1 else 0)
  }

  /** What one request adds to the account: tokens spent plus tokens left never exceed tokens had plus refill. */
  lemma TakeAccounting(p: Params, m: Buckets, a: Address, b: Address, t: Instant, u: Instant)
    requires Sane(p) && t <= u && Stocked(p, m, t)
    ensures Stocked(p, Take(p, m, b, u).0, u)
    ensures (if a == b && Take(p, m, b, u).1 then 1.0 else 0.0) + Balance(p, Take(p, m, b, u).0, a, u)
         <= Balance(p, m, a, t) + Earned(p, t, u)
  {
    StockedLater(p, m, t, u);
    BalanceDrift(p, m, a, t, u);
    TakeKeepsStocked(p, m, b, u);
    TakeCosts(p, m, b, a, u);
  }

  lemma {:induction false} PlainAccounting(p: Params, states: seq<Buckets>, calls: seq<Call>, a: Address, lo: nat, hi: nat)
    requires Sane(p) && PlainRun(p, states, calls) && lo < hi <= |calls| && Stocked(p, states[lo], calls[lo].at)
    ensures Stocked(p, states[hi], calls[hi - 1].at)
    ensures Allowed(calls, a, lo, hi) as real + Balance(p, states[hi], a, calls[hi - 1].at)
         <= Balance(p, states[lo], a, calls[lo].at) + Earned(p, calls[lo].at, calls[hi - 1].at)
    decreases hi
  {
    var u := calls[hi - 1].at;
    var t := if lo + 1 < hi then calls[hi - 2].at else u;
    if lo + 1 < hi {
      PlainAccounting(p, states, calls, a, lo, hi - 1);
    }
    TakeAccounting(p, states[hi - 1], a, calls[hi - 1].a, t, u);
    EarnedAdds(p, calls[lo].at, t, u);
    assert (states[hi], calls[hi - 1].allowed) == Take(p, states[hi - 1], calls[hi - 1].a, u);
  }

  /** Every map a run from empty reaches is well stocked when its next call comes. */
  lemma RunIsStocked(p: Params, states: seq<Buckets>, calls: seq<Call>, n: nat)
    requires Sane(p) && PlainRun(p, states, calls) && states[0] == map[] && n < |calls|
    ensures Stocked(p, states[n], calls[n].at)
  {
    if n > 0 {
      PlainAccounting(p, states, calls, 0, 0, n);
      StockedLater(p, states[n], calls[n - 1].at, calls[n].at);
    }
  }

  /**
   Without eviction, on every window of every run from empty and whatever the
   other addresses do, an address is allowed at most capacity + rate * duration
   times.
   */
  lemma RateBound(p: Params, states: seq<Buckets>, calls: seq<Call>, a: Address, lo: nat, hi: nat)
    requires Sane(p) && PlainRun(p, states, calls) && states[0] == map[] && lo < hi <= |calls|
    ensures Allowed(calls, a, lo, hi) as real <= p.capacity + Earned(p, calls[lo].at, calls[hi - 1].at)
  {
    RunIsStocked(p, states, calls, lo);
    PlainAccounting(p, states, calls, a, lo, hi);
    BalanceInRange(p, states[lo], a, calls[lo].at);
    BalanceInRange(p, states[hi], a, calls[hi - 1].at);
  }

  lemma EarnsOneToken(p: Params, t: Instant, u: Instant)
    requires p.rate > 0.0 && u - t >= 1.0 / p.rate
    ensures Earned(p, t, u) >= 1.0
  {
    var spare := u - t - 1.0 / p.rate;
    assert spare * p.rate >= 0.0;
    assert (1.0 / p.rate) * p.rate == 1.0;
    assert (u - t) * p.rate == spare * p.rate + (1.0 / p.rate) * p.rate;
  }

  /** A bucket left alone for `1 / rate` seconds has a token to spend. */
  lemma RestedBucketPays(p: Params, m: Buckets, a: Address, now: Instant)
    requires p.capacity >= 1.0 && p.rate > 0.0 && Stocked(p, m, now)
    requires a in m ==> now - m[a].last >= 1.0 / p.rate
    ensures Take(p, m, a, now).1
  {
    if a in m {
      EarnsOneToken(p, m[a].last, now);
    }
  }

  /** A bucket's timestamp is the instant of an earlier call of its address. */
  lemma {:induction false} LastIsACall(p: Params, states: seq<Buckets>, calls: seq<Call>, n: nat, a: Address)
    requires PlainRun(p, states, calls) && states[0] == map[] && n <= |calls| && a in states[n]
    ensures exists j :: 0 <= j < n && calls[j].a == a && calls[j].at == states[n][a].last
  {
    if n > 0 {
      assert (states[n], calls[n - 1].allowed) == Take(p, states[n - 1], calls[n - 1].a, calls[n - 1].at);
      if calls[n - 1].a != a {
        LastIsACall(p, states, calls, n - 1, a);
      }
    }
  }

  /**
   With a capacity of at least one token, a call at least 1 / rate seconds
   after every earlier call of its address is never denied, whatever the other
   addresses do.
   */
  lemma SpacedCallerNeverDenied(p: Params, states: seq<Buckets>, calls: seq<Call>, n: nat)
    requires p.capacity >= 1.0 && p.rate > 0.0 && PlainRun(p, states, calls) && states[0] == map[] && n < |calls|
    requires forall j :: 0 <= j < n && calls[j].a == calls[n].a ==> calls[n].at - calls[j].at >= 1.0 / p.rate
    ensures calls[n].allowed
  {
    var c := calls[n];
    RunIsStocked(p, states, calls, n);
    if c.a in states[n] {
      LastIsACall(p, states, calls, n, c.a);
    }
    RestedBucketPays(p, states[n], c.a, c.at);
    assert (states[n + 1], c.allowed) == Take(p, states[n], c.a, c.at);
  }
}
