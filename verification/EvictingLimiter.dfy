/**
 The subscription service's limiter: token buckets whose map is trimmed when it
 outgrows a high-water mark. Which of several equally old buckets survive a trim
 depends on hash order, so one call is a relation between bucket maps.
 */
module EvictingLimiter {
  import opened Wrappers
  import opened TokenBuckets

  const MAX_BUCKETS: nat := 8192
  const TRIM_TO: nat := 4096

  // -------------------------------------------------------------- one call

  /**
   A full bucket untouched for the time an empty one takes to refill (at least
   a second). Without a rate that time is beyond any clock, unless there is
   nothing to refill.
   */
  predicate Idle(p: Params, b: Bucket, now: Instant) {
    && b.tokens >= p.capacity
    && now - b.last >= 1.0
    && (if p.rate > 0.0 then now - b.last >= p.capacity / p.rate else p.capacity <= 0.0)
  }

  function Retained(p: Params, m: Buckets, now: Instant): Buckets {
    map a | a in m && !Idle(p, m[a], now) :: m[a]
  }

  ghost predicate SubMap(m: Buckets, m': Buckets) {
    forall a :: a in m' ==> a in m && m'[a] == m[a]
  }

  /** `m'` is `TRIM_TO` of the buckets of `m`, none older than one left behind. */
  ghost predicate Trimmed(m: Buckets, m': Buckets) {
    && SubMap(m, m') && |m'| == TRIM_TO
    && forall kept, dropped :: kept in m' && dropped in m && dropped !in m' ==> m[kept].last >= m[dropped].last
  }

  ghost predicate Evicted(p: Params, m: Buckets, now: Instant, m': Buckets) {
    if |m| <= MAX_BUCKETS then m' == m
    else if |Retained(p, m, now)| <= TRIM_TO then m' == Retained(p, m, now)
    else Trimmed(Retained(p, m, now), m')
  }

  ghost predicate AllowStep(p: Params, m: Buckets, c: Call, m': Buckets) {
    && c.allowed == Take(p, m, c.a, c.at).1
    && Evicted(p, Take(p, m, c.a, c.at).0, c.at, m')
  }

  /** Whether the call drives the map over the high-water mark, so that a trim pass happens. */
  predicate Passes(p: Params, m: Buckets, c: Call) {
    |Take(p, m, c.a, c.at).0| > MAX_BUCKETS
  }

  // ------------------------------------------------- sorting by last seen

  datatype Entry = Entry(a: Address, last: Instant)

  ghost predicate Distinct(s: seq<Entry>) {
    forall i, j :: 0 <= i < j < |s| ==> s[i].a != s[j].a
  }

  ghost predicate RecentFirst(s: seq<Entry>) {
    forall i, j :: 0 <= i < j < |s| ==> s[i].last >= s[j].last
  }

  function Insert(e: Entry, s: seq<Entry>): seq<Entry> {
    if s == [] || s[0].last <= e.last then [e] + s else [s[0]] + Insert(e, s[1..])
  }

  /** A stable sort, most recently seen first. */
  function SortRecent(s: seq<Entry>): seq<Entry> {
    if s == [] then [] else Insert(s[0], SortRecent(s[1..]))
  }

  lemma {:induction false} InsertKeeps(e: Entry, s: seq<Entry>)
    requires RecentFirst(s) && Distinct(s) && forall x :: x in s ==> x.a != e.a
    ensures RecentFirst(Insert(e, s)) && Distinct(Insert(e, s)) && |Insert(e, s)| == |s| + 1
    ensures forall x :: x in Insert(e, s) <==> x == e || x in s
  {
    if s != [] && !(s[0].last <= e.last) {
      InsertKeeps(e, s[1..]);
      var r := Insert(e, s[1..]);
      assert s == [s[0]] + s[1..];
      forall x | x in r ensures s[0].last >= x.last && s[0].a != x.a {
        if x != e {
          assert x in s[1..];
        }
      }
    }
  }

  lemma {:induction false} SortRecentSorts(s: seq<Entry>)
    requires Distinct(s)
    ensures RecentFirst(SortRecent(s)) && Distinct(SortRecent(s)) && |SortRecent(s)| == |s|
    ensures forall x :: x in SortRecent(s) <==> x in s
  {
    if s != [] {
      SortRecentSorts(s[1..]);
      assert s == [s[0]] + s[1..];
      InsertKeeps(s[0], SortRecent(s[1..]));
    }
  }

  function Addresses(s: seq<Entry>): set<Address> {
    set e | e in s :: e.a
  }

  lemma {:induction false} DistinctAddresses(s: seq<Entry>)
    requires Distinct(s)
    ensures |Addresses(s)| == |s|
  {
    if s != [] {
      var e := s[|s| - 1];
      var front := s[..|s| - 1];
      DistinctAddresses(front);
      assert s == front + [e];
      assert Addresses(s) == Addresses(front) + {e.a};
    }
  }

  /** Lists a map's addresses in some order, as hash iteration does. */
  method Collect(m: Buckets) returns (seen: seq<Entry>)
    ensures Distinct(seen)
    ensures forall e :: e in seen <==> e.a in m && e.last == m[e.a].last
  {
    seen := [];
    var rest := m.Keys;
    while rest != {}
      invariant rest <= m.Keys && Distinct(seen)
      invariant forall e :: e in seen <==> e.a in m && e.a !in rest && e.last == m[e.a].last
      decreases |rest|
    {
      var a :| a in rest;
      seen := seen + [Entry(a, m[a].last)];
      rest := rest - {a};
    }
  }

  lemma TrimIsExact(m: Buckets, sorted: seq<Entry>, m': Buckets)
    requires Distinct(sorted) && RecentFirst(sorted) && |sorted| > TRIM_TO
    requires forall e :: e in sorted <==> e.a in m && e.last == m[e.a].last
    requires SubMap(m, m')
    requires forall a :: a in m' <==> a in m && a in Addresses(sorted[..TRIM_TO])
    ensures Trimmed(m, m')
  {
    var top := sorted[..TRIM_TO];
    DistinctAddresses(top);
    assert m'.Keys == Addresses(top);
    forall kept, dropped | kept in m' && dropped in m && dropped !in m'
      ensures m[kept].last >= m[dropped].last
    {
      var e :| e in top && e.a == kept;
      var i :| 0 <= i < TRIM_TO && sorted[i] == e;
      var d := Entry(dropped, m[dropped].last);
      assert d in sorted;
      var j :| 0 <= j < |sorted| && sorted[j] == d;
      assert j < TRIM_TO ==> d in top;
      assert d in top ==> dropped in Addresses(top);
    }
  }

  lemma CollectedSize(m: Buckets, seen: seq<Entry>)
    requires Distinct(seen)
    requires forall e :: e in seen <==> e.a in m && e.last == m[e.a].last
    ensures |seen| == |m|
  {
    DistinctAddresses(seen);
    forall a | a in m ensures a in Addresses(seen) {
      assert Entry(a, m[a].last) in seen;
    }
    assert Addresses(seen) == m.Keys;
  }

  method Trim(m: Buckets) returns (m': Buckets)
    requires |m| > TRIM_TO
    ensures Trimmed(m, m')
  {
    var seen := Collect(m);
    CollectedSize(m, seen);
    SortRecentSorts(seen);
    var sorted := SortRecent(seen);
    var keep := Addresses(sorted[..TRIM_TO]);
    m' := map a | a in m && a in keep :: m[a];
    TrimIsExact(m, sorted, m');
  }

  class RateLimiter {
    const p: Params
    var buckets: Buckets

    constructor (p: Params)
      ensures this.p == p && buckets == map[]
    {
      this.p, buckets := p, map[];
    }

    method Allow(a: Address, now: Instant) returns (allowed: bool)
      requires a in buckets ==> buckets[a].last <= now
      modifies this
      ensures AllowStep(p, old(buckets), Call(a, now, allowed), buckets)
    {
      var entry := if a in buckets then buckets[a] else Bucket(p.capacity, now);
      var tokens := entry.tokens + Earned(p, entry.last, now);
      if tokens > p.capacity {
        tokens := p.capacity;
      }
      assert a !in buckets ==> Earned(p, now, now) == 0.0;
      allowed := tokens >= 1.0;
      if allowed {
        tokens := tokens - 1.0;
      }
      buckets := buckets[a := Bucket(tokens, now)];
      assert (buckets, allowed) == Take(p, old(buckets), a, now);
      EvictFullBuckets(now);
    }

    method EvictFullBuckets(now: Instant)
      modifies this
      ensures Evicted(p, old(buckets), now, buckets)
    {
      if |buckets| <= MAX_BUCKETS {
        return;
      }
      buckets := Retained(p, buckets, now);
      if |buckets| > TRIM_TO {
        var kept := Trim(buckets);
        buckets := kept;
      }
    }
  }

  // ------------------------------------------------------ what a call keeps

  lemma SubMapSize(m: Buckets, m': Buckets)
    requires SubMap(m, m')
    ensures |m'| <= |m|
  {
    assert m'.Keys <= m.Keys;
    SubsetSize(m'.Keys, m.Keys);
  }

  /** A call adds at most one bucket, a pass leaves at most `TRIM_TO`, and no bucket is altered by eviction. */
  lemma CallBoundsMap(p: Params, m: Buckets, c: Call, m': Buckets)
    requires AllowStep(p, m, c, m')
    ensures SubMap(Take(p, m, c.a, c.at).0, m')
    ensures |m'| <= |m| + (if c.a in m then 0 else 1)
    ensures Passes(p, m, c) ==> |m'| <= TRIM_TO && |m| + (if c.a in m then 0 else 1) > MAX_BUCKETS
    ensures |m'| <= MAX_BUCKETS
  {
    SubMapSize(Take(p, m, c.a, c.at).0, m');
  }

  ghost predicate BelowCapacity(p: Params, m: Buckets) {
    forall a :: a in m ==> m[a].tokens < p.capacity
  }

  lemma CallKeepsBelowCapacity(p: Params, m: Buckets, c: Call, m': Buckets)
    requires p.capacity >= 1.0 && BelowCapacity(p, m) && AllowStep(p, m, c, m')
    ensures BelowCapacity(p, Take(p, m, c.a, c.at).0) && BelowCapacity(p, m')
  {
    CallBoundsMap(p, m, c, m');
  }

  /**
   With a capacity of at least one token the idle pass has nothing to drop, so
   a pass is exactly the recency trim: it leaves `TRIM_TO` buckets and keeps
   none older than one it drops.
   */
  lemma IdlePassDropsNothing(p: Params, m: Buckets, c: Call, m': Buckets)
    requires p.capacity >= 1.0 && BelowCapacity(p, m) && AllowStep(p, m, c, m') && Passes(p, m, c)
    ensures Retained(p, Take(p, m, c.a, c.at).0, c.at) == Take(p, m, c.a, c.at).0
    ensures Trimmed(Take(p, m, c.a, c.at).0, m')
  {
    CallKeepsBelowCapacity(p, m, c, m');
  }

  // -------------------------------------------------------------------- runs

  ghost predicate StepAt(p: Params, states: seq<Buckets>, calls: seq<Call>, i: nat)
    requires |states| == |calls| + 1 && i < |calls|
  {
    AllowStep(p, states[i], calls[i], states[i + 1])
  }

  /** `states[i]` is the bucket map before call `i`. */
  ghost predicate EvictingRun(p: Params, states: seq<Buckets>, calls: seq<Call>) {
    && |states| == |calls| + 1 && InOrder(calls)
    && forall i :: 0 <= i < |calls| ==> StepAt(p, states, calls, i)
  }

  /** How many calls among `lo..hi` made a trim pass. */
  ghost function PassCount(p: Params, states: seq<Buckets>, calls: seq<Call>, lo: nat, hi: nat): nat
    requires lo <= hi <= |calls| < |states|
  {
    if lo == hi then 0
    else PassCount(p, states, calls, lo, hi - 1) + (if Passes(p, states[hi - 1], calls[hi - 1]) then 1 else 0)
  }

  /** How many calls among `lo..hi` came from an address without a bucket. */
  ghost function Inserts(states: seq<Buckets>, calls: seq<Call>, lo: nat, hi: nat): nat
    requires lo <= hi <= |calls| < |states|
  {
    if lo == hi then 0
    else Inserts(states, calls, lo, hi - 1) + (if calls[hi - 1].a in states[hi - 1] then 0 else 1)
  }

  /** Each pass is paid for by 4097 inserts. */
  lemma {:induction false} PassesArePaidFor(p: Params, states: seq<Buckets>, calls: seq<Call>, lo: nat, hi: nat)
    requires EvictingRun(p, states, calls) && lo <= hi <= |calls|
    ensures |states[hi]| + (TRIM_TO + 1) * PassCount(p, states, calls, lo, hi)
         <= |states[lo]| + Inserts(states, calls, lo, hi)
    ensures Inserts(states, calls, lo, hi) <= hi - lo
    decreases hi
  {
    if lo < hi {
      PassesArePaidFor(p, states, calls, lo, hi - 1);
      assert StepAt(p, states, calls, hi - 1);
      CallBoundsMap(p, states[hi - 1], calls[hi - 1], states[hi]);
    }
  }

  /** Between one pass and the next there are at least 4097 inserts. */
  lemma PassesFarApart(p: Params, states: seq<Buckets>, calls: seq<Call>, i: nat, j: nat)
    requires EvictingRun(p, states, calls) && i < j < |calls|
    requires Passes(p, states[i], calls[i]) && Passes(p, states[j], calls[j])
    ensures Inserts(states, calls, i + 1, j + 1) >= TRIM_TO + 1
  {
    assert StepAt(p, states, calls, i);
    CallBoundsMap(p, states[i], calls[i], states[i + 1]);
    PassesArePaidFor(p, states, calls, i + 1, j);
    assert StepAt(p, states, calls, j);
    CallBoundsMap(p, states[j], calls[j], states[j + 1]);
  }

  /** The map never holds more than 8192 buckets, and never a full one when the capacity is at least a token. */
  lemma {:induction false} MapStaysBounded(p: Params, states: seq<Buckets>, calls: seq<Call>, n: nat)
    requires EvictingRun(p, states, calls) && states[0] == map[] && n <= |calls|
    ensures |states[n]| <= MAX_BUCKETS
    ensures p.capacity >= 1.0 ==> BelowCapacity(p, states[n])
  {
    if n > 0 {
      MapStaysBounded(p, states, calls, n - 1);
      assert StepAt(p, states, calls, n - 1);
      CallBoundsMap(p, states[n - 1], calls[n - 1], states[n]);
      if p.capacity >= 1.0 {
        CallKeepsBelowCapacity(p, states[n - 1], calls[n - 1], states[n]);
      }
    }
  }

  /** What every stored bucket looks like: below a capacity of at least one token, exactly at a smaller one. */
  ghost predicate Level(p: Params, m: Buckets) {
    if p.capacity >= 1.0 then BelowCapacity(p, m) else forall a :: a in m ==> m[a].tokens == p.capacity
  }

  lemma CallKeepsLevel(p: Params, m: Buckets, c: Call, m': Buckets)
    requires Sane(p) && Level(p, m) && Stocked(p, m, c.at) && AllowStep(p, m, c, m')
    ensures Level(p, Take(p, m, c.a, c.at).0) && Level(p, m')
  {
    CallBoundsMap(p, m, c, m');
    if p.capacity >= 1.0 {
      CallKeepsBelowCapacity(p, m, c, m');
    } else if c.a in m {
      RefilledInRange(p, m[c.a], c.at);
    }
  }

  /** No bucket kept is older than one dropped. */
  ghost predicate KeepsRecent(m: Buckets, m': Buckets) {
    forall kept, dropped :: kept in m' && kept in m && dropped in m && dropped !in m' ==> m[kept].last >= m[dropped].last
  }

  /** On buckets at one level idleness is a matter of age alone, so both drops of a pass go by recency. */
  lemma EvictionKeepsRecent(p: Params, m: Buckets, now: Instant, m': Buckets)
    requires Level(p, m) && Evicted(p, m, now, m')
    ensures KeepsRecent(m, m')
  {
    var r := Retained(p, m, now);
    forall kept, dropped | kept in m' && kept in m && dropped in m && dropped !in m' ensures m[kept].last >= m[dropped].last {
      assert kept in r;
      if dropped !in r {
        assert Idle(p, m[dropped], now) && !Idle(p, m[kept], now);
      }
    }
  }

  /**
   In every run from an empty map, whatever the capacity: eviction never keeps
   a bucket older than one it drops, and with a capacity of at least one token
   every pass leaves exactly `TRIM_TO` buckets.
   */
  lemma RunKeepsRecent(p: Params, states: seq<Buckets>, calls: seq<Call>, n: nat)
    requires Sane(p) && EvictingRun(p, states, calls) && states[0] == map[] && n < |calls|
    ensures KeepsRecent(Take(p, states[n], calls[n].a, calls[n].at).0, states[n + 1])
    ensures p.capacity >= 1.0 && Passes(p, states[n], calls[n]) ==> |states[n + 1]| == TRIM_TO
  {
    RunIsLevel(p, states, calls, n);
    assert StepAt(p, states, calls, n);
    CallKeepsLevel(p, states[n], calls[n], states[n + 1]);
    EvictionKeepsRecent(p, Take(p, states[n], calls[n].a, calls[n].at).0, calls[n].at, states[n + 1]);
    if p.capacity >= 1.0 && Passes(p, states[n], calls[n]) {
      IdlePassDropsNothing(p, states[n], calls[n], states[n + 1]);
    }
  }

  lemma {:induction false} RunIsLevel(p: Params, states: seq<Buckets>, calls: seq<Call>, n: nat)
    requires Sane(p) && EvictingRun(p, states, calls) && states[0] == map[] && n < |calls|
    ensures Level(p, states[n]) && Stocked(p, states[n], calls[n].at)
  {
    if n > 0 {
      RunIsLevel(p, states, calls, n - 1);
      assert StepAt(p, states, calls, n - 1);
      CallKeepsLevel(p, states[n - 1], calls[n - 1], states[n]);
      CallAccounting(p, states[n - 1], calls[n - 1], states[n], 0, calls[n - 1].at);
      StockedLater(p, states[n], calls[n - 1].at, calls[n].at);
    }
  }

  // -------------------------------------------------------------- rate bound

  /** Eviction hands a peer back at most one full bucket. */
  lemma EvictionAccounting(p: Params, m: Buckets, a: Address, now: Instant, m': Buckets)
    requires Sane(p) && Stocked(p, m, now) && Evicted(p, m, now, m')
    ensures Stocked(p, m', now)
    ensures Balance(p, m', a, now) <= Balance(p, m, a, now) + (if |m| > MAX_BUCKETS then p.capacity else 0.0)
  {
    assert SubMap(m, m');
    BalanceInRange(p, m, a, now);
    BalanceInRange(p, m', a, now);
  }

  lemma CallAccounting(p: Params, m: Buckets, c: Call, m': Buckets, a: Address, t: Instant)
    requires Sane(p) && t <= c.at && Stocked(p, m, t) && AllowStep(p, m, c, m')
    ensures Stocked(p, m', c.at)
    ensures (if c.a == a && c.allowed then 1.0 else 0.0) + Balance(p, m', a, c.at)
         <= Balance(p, m, a, t) + Earned(p, t, c.at) + (if Passes(p, m, c) then p.capacity else 0.0)
  {
    TakeAccounting(p, m, a, c.a, t, c.at);
    EvictionAccounting(p, Take(p, m, c.a, c.at).0, a, c.at, m');
  }

  /** What `k` full buckets hold. */
  ghost function Refunds(p: Params, k: nat): real {
    if k == 0 then 0.0 else Refunds(p, k - 1) + p.capacity
  }

  lemma {:induction false} RefundsTotal(p: Params, k: nat)
    ensures Refunds(p, k) == p.capacity * k as real
  {
    if k > 0 {
      RefundsTotal(p, k - 1);
    }
  }

  lemma {:induction false} MoreRefunds(p: Params, j: nat, k: nat)
    requires Sane(p) && j <= k
    ensures Refunds(p, j) <= Refunds(p, k)
  {
    if j < k {
      MoreRefunds(p, j, k - 1);
    }
  }

  lemma RefundBound(p: Params, k: nat, n: nat)
    requires Sane(p) && k <= n / 4097
    ensures Refunds(p, k + 1) <= p.capacity * (1 + n / 4097) as real
  {
    MoreRefunds(p, k + 1, 1 + n / 4097);
    RefundsTotal(p, 1 + n / 4097);
  }

  /** Every reached map is well stocked at the instant of the last call. */
  lemma {:induction false} RunKeepsStocked(p: Params, states: seq<Buckets>, calls: seq<Call>, lo: nat, hi: nat)
    requires Sane(p) && EvictingRun(p, states, calls) && lo < hi <= |calls| && Stocked(p, states[lo], calls[lo].at)
    ensures Stocked(p, states[hi], calls[hi - 1].at)
    decreases hi
  {
    var c := calls[hi - 1];
    if lo + 1 < hi {
      RunKeepsStocked(p, states, calls, lo, hi - 1);
      StockedLater(p, states[hi - 1], calls[hi - 2].at, c.at);
    }
    assert StepAt(p, states, calls, hi - 1);
    CallAccounting(p, states[hi - 1], c, states[hi], 0, c.at);
  }

  lemma RefundsAt(p: Params, states: seq<Buckets>, calls: seq<Call>, lo: nat, hi: nat)
    requires lo < hi <= |calls| < |states|
    ensures Refunds(p, PassCount(p, states, calls, lo, hi))
         == Refunds(p, PassCount(p, states, calls, lo, hi - 1)) + (if Passes(p, states[hi - 1], calls[hi - 1]) then p.capacity else 0.0)
  {}

  lemma AccountingAt(p: Params, states: seq<Buckets>, calls: seq<Call>, a: Address, i: nat, t: Instant)
    requires Sane(p) && EvictingRun(p, states, calls) && i < |calls| && t <= calls[i].at && Stocked(p, states[i], t)
    ensures (if calls[i].a == a && calls[i].allowed then 1.0 else 0.0) + Balance(p, states[i + 1], a, calls[i].at)
         <= Balance(p, states[i], a, t) + Earned(p, t, calls[i].at)
            + (if Passes(p, states[i], calls[i]) then p.capacity else 0.0)
  {
    assert StepAt(p, states, calls, i);
    CallAccounting(p, states[i], calls[i], states[i + 1], a, t);
  }

  lemma {:induction false} EvictingAccounting(p: Params, states: seq<Buckets>, calls: seq<Call>, a: Address, lo: nat, hi: nat)
    requires Sane(p) && EvictingRun(p, states, calls) && lo < hi <= |calls| && Stocked(p, states[lo], calls[lo].at)
    ensures Allowed(calls, a, lo, hi) as real + Balance(p, states[hi], a, calls[hi - 1].at)
         <= Balance(p, states[lo], a, calls[lo].at) + Earned(p, calls[lo].at, calls[hi - 1].at)
            + Refunds(p, PassCount(p, states, calls, lo, hi))
    decreases hi
  {
    var u := calls[hi - 1].at;
    var t := if lo + 1 < hi then calls[hi - 2].at else u;
    if lo + 1 < hi {
      EvictingAccounting(p, states, calls, a, lo, hi - 1);
      RunKeepsStocked(p, states, calls, lo, hi - 1);
    }
    AccountingAt(p, states, calls, a, hi - 1, t);
    EarnedAdds(p, calls[lo].at, t, u);
    RefundsAt(p, states, calls, lo, hi);
  }

  /** The bound with its passes still counted, on every window of every run. */
  lemma WindowBound(p: Params, states: seq<Buckets>, calls: seq<Call>, a: Address, lo: nat, hi: nat)
    requires Sane(p) && EvictingRun(p, states, calls) && lo < hi <= |calls| && Stocked(p, states[lo], calls[lo].at)
    ensures Allowed(calls, a, lo, hi) as real
         <= Refunds(p, PassCount(p, states, calls, lo, hi) + 1) + Earned(p, calls[lo].at, calls[hi - 1].at)
  {
    EvictingAccounting(p, states, calls, a, lo, hi);
    RunKeepsStocked(p, states, calls, lo, hi);
    BalanceInRange(p, states[hi], a, calls[hi - 1].at);
    BalanceInRange(p, states[lo], a, calls[lo].at);
  }

  lemma FewPasses(p: Params, states: seq<Buckets>, calls: seq<Call>, n: nat)
    requires EvictingRun(p, states, calls) && states[0] == map[] && n <= |calls|
    ensures PassCount(p, states, calls, 0, n) <= n / 4097
  {
    PassesArePaidFor(p, states, calls, 0, n);
  }

  /**
   Started empty, over any `n` calls from any mix of addresses, one address is
   allowed at most capacity * (1 + n / 4097) + rate * duration times.
   */
  lemma EvictingRateBound(p: Params, states: seq<Buckets>, calls: seq<Call>, a: Address, n: nat)
    requires Sane(p) && EvictingRun(p, states, calls) && states[0] == map[] && 0 < n <= |calls|
    ensures Allowed(calls, a, 0, n) as real
         <= p.capacity * (1 + n / 4097) as real + Earned(p, calls[0].at, calls[n - 1].at)
  {
    WindowBound(p, states, calls, a, 0, n);
    FewPasses(p, states, calls, n);
    RefundBound(p, PassCount(p, states, calls, 0, n), n);
  }

  // ----------------------------------------------------------- spaced callers

  /** A bucket's timestamp is the instant of an earlier call of its address. */
  lemma {:induction false} LastIsACall(p: Params, states: seq<Buckets>, calls: seq<Call>, n: nat, a: Address)
    requires EvictingRun(p, states, calls) && states[0] == map[] && n <= |calls| && a in states[n]
    ensures exists j :: 0 <= j < n && calls[j].a == a && calls[j].at == states[n][a].last
  {
    if n > 0 {
      var c := calls[n - 1];
      assert StepAt(p, states, calls, n - 1);
      CallBoundsMap(p, states[n - 1], c, states[n]);
      if c.a != a {
        LastIsACall(p, states, calls, n - 1, a);
      }
    }
  }

  /**
   With a capacity of at least one token, a call at least 1 / rate seconds
   after every earlier call of its address is never denied, whatever the other
   addresses do and whatever was evicted.
   */
  lemma SpacedCallerNeverDenied(p: Params, states: seq<Buckets>, calls: seq<Call>, n: nat)
    requires p.capacity >= 1.0 && p.rate > 0.0 && EvictingRun(p, states, calls) && states[0] == map[] && n < |calls|
    requires forall j :: 0 <= j < n && calls[j].a == calls[n].a ==> calls[n].at - calls[j].at >= 1.0 / p.rate
    ensures calls[n].allowed
  {
    var c := calls[n];
    if n > 0 {
      RunKeepsStocked(p, states, calls, 0, n);
      StockedLater(p, states[n], calls[n - 1].at, c.at);
    }
    if c.a in states[n] {
      LastIsACall(p, states, calls, n, c.a);
    }
    assert StepAt(p, states, calls, n);
    RestedBucketPays(p, states[n], c.a, c.at);
  }
}
