/**
 Candidate scoring and quarantine. Instants are real seconds on a monotone
 clock, f32 averages are real, random draws are arbitrary values in their range.
 */
module Scores {
  import opened Wrappers

  type Instant = real

  datatype FailureCategory =
    | DnsFailure | TcpTimeout | TcpReset | TlsFailure | QuicFailure | UdpUnavailable | HandshakeTimeout
    | StallAfterConnect | EndpointUnreachable | ProviderDegradation | TransportDegradation
    | GeneralRouteFailure | PossibleShutdown | LocalNetworkFailure
  {
    /** A local failure says nothing about the remote path. */
    predicate IsRemoteSignal() { !LocalNetworkFailure? }
  }

  const ALPHA := 0.3
  const SCORE_FLOOR := 0.05
  const QUARANTINE_THRESHOLD := 3
  const QUARANTINE_MIN := 60
  const QUARANTINE_MAX := 300
  const U32_MAX := 0xFFFF_FFFF
  const U16_MAX := 0xFFFF

  datatype Score = Score(
    ewma: real, totalAttempts: nat, consecutiveFailures: nat,
    lastFailure: Option<FailureCategory>, quarantinedUntil: Option<Instant>)
  {
    predicate IsQuarantined(now: Instant) {
      quarantinedUntil.Some? && now < quarantinedUntil.value
    }

    function SelectionWeight(): real {
      if ewma >= SCORE_FLOOR then ewma else SCORE_FLOOR
    }
  }

  const NEUTRAL := Score(0.5, 0, 0, None, None)

  function SaturatingInc(n: nat, max: nat): nat { if n >= max then max else n + 1 }

  function AfterSuccess(s: Score): Score {
    Score(ALPHA * 1.0 + (1.0 - ALPHA) * s.ewma, SaturatingInc(s.totalAttempts, U32_MAX), 0, s.lastFailure, None)
  }

  function AfterFailure(s: Score, category: FailureCategory, now: Instant, jitter: nat): Score {
    var run := SaturatingInc(s.consecutiveFailures, U16_MAX);
    Score(
      ALPHA * 0.0 + (1.0 - ALPHA) * s.ewma, SaturatingInc(s.totalAttempts, U32_MAX), run, Some(category),
      if run >= QUARANTINE_THRESHOLD then Some(now + jitter as real) else s.quarantinedUntil)
  }

  // ------------------------------------------------- a score and its history

  /** One observation; `jitter` is the quarantine length drawn for a failure. */
  datatype Observation = Success | Failure(category: FailureCategory, at: Instant, jitter: nat)

  function Observed(s: Score, o: Observation): Score {
    match o
    case Success => AfterSuccess(s)
    case Failure(category, at, jitter) => AfterFailure(s, category, at, jitter)
  }

  function ScoreOf(h: seq<Observation>): Score {
    if h == [] then NEUTRAL else Observed(ScoreOf(h[..|h| - 1]), h[|h| - 1])
  }

  function Decay(n: nat): real {
    if n == 0 then 1.0 else 0.7 * Decay(n - 1)
  }

  /** The sum of `0.3 * 0.7^(n-1-i)` over the successes `i` of a history of length `n`. */
  function SuccessWeight(h: seq<Observation>): real {
    if h == [] then 0.0
    else (if h[0].Success? then 0.3 * Decay(|h| - 1) else 0.0) + SuccessWeight(h[1..])
  }

  function TrailingFailures(h: seq<Observation>): nat {
    if h == [] || h[|h| - 1].Success? then 0 else 1 + TrailingFailures(h[..|h| - 1])
  }

  function Min(a: nat, b: nat): nat { if a <= b then a else b }

  lemma {:induction false} SuccessWeightAppend(h: seq<Observation>, o: Observation)
    ensures SuccessWeight(h + [o]) == 0.7 * SuccessWeight(h) + (if o.Success? then 0.3 else 0.0)
  {
    if h == [] {
      assert h + [o] == [o];
      assert [o][1..] == [];
    } else {
      SuccessWeightAppend(h[1..], o);
      assert (h + [o])[1..] == h[1..] + [o];
      assert Decay(|h|) == 0.7 * Decay(|h| - 1);
    }
  }

  /** The moving average is the exponentially weighted sum of the outcomes, and never leaves [0, 1]. */
  lemma {:induction false} EwmaIsWeightedHistory(h: seq<Observation>)
    ensures ScoreOf(h).ewma == 0.5 * Decay(|h|) + SuccessWeight(h)
    ensures 0.0 <= ScoreOf(h).ewma <= 1.0
  {
    if h != [] {
      var front, last := h[..|h| - 1], h[|h| - 1];
      EwmaIsWeightedHistory(front);
      SuccessWeightAppend(front, last);
      assert front + [last] == h;
      assert Decay(|h|) == 0.7 * Decay(|h| - 1);
    }
  }

  /**
   Counters are saturated totals, the trailing failure run included; a
   quarantine deadline stands exactly while that run is three or longer, and is
   then the last failure's instant plus its drawn length.
   */
  lemma {:induction false} CountersAreHistory(h: seq<Observation>)
    ensures ScoreOf(h).totalAttempts == Min(|h|, U32_MAX)
    ensures ScoreOf(h).consecutiveFailures == Min(TrailingFailures(h), U16_MAX)
    ensures ScoreOf(h).quarantinedUntil.Some? <==> TrailingFailures(h) >= QUARANTINE_THRESHOLD
    ensures TrailingFailures(h) >= QUARANTINE_THRESHOLD ==>
              h[|h| - 1].Failure? && ScoreOf(h).quarantinedUntil.value == h[|h| - 1].at + h[|h| - 1].jitter as real
  {
    if h != [] {
      CountersAreHistory(h[..|h| - 1]);
    }
  }

  lemma ThreeTrailing(h: seq<Observation>)
    requires TrailingFailures(h) >= 3
    ensures |h| >= 3 && forall j :: |h| - 3 <= j < |h| ==> h[j].Failure?
  {
    var g := h[..|h| - 1];
    assert TrailingFailures(g) >= 2;
    assert g[..|g| - 1][|g| - 2] == h[|h| - 3];
  }

  // ---------------------------------------------------- how often a candidate is dialed

  /** A dial of one candidate: selected at `selected`, then observed. */
  datatype Dial = Dial(selected: Instant, o: Observation, recorded: Instant)

  function Observations(dials: seq<Dial>): seq<Observation> {
    seq(|dials|, i requires 0 <= i < |dials| => dials[i].o)
  }

  predicate DrawnInRange(o: Observation) {
    o.Failure? ==> QUARANTINE_MIN <= o.jitter <= QUARANTINE_MAX
  }

  /** Dial `i` was selected while not quarantined, after dial `i - 1` was recorded. */
  ghost predicate InSequence(dials: seq<Dial>, i: nat)
    requires i < |dials|
  {
    && DrawnInRange(dials[i].o) && dials[i].selected <= dials[i].recorded
    && (dials[i].o.Failure? ==> dials[i].o.at == dials[i].recorded)
    && !ScoreOf(Observations(dials[..i])).IsQuarantined(dials[i].selected)
    && (i > 0 ==> dials[i - 1].recorded <= dials[i].selected)
  }

  /** Dials of one candidate by a sequential engine. */
  ghost predicate Sequential(dials: seq<Dial>) {
    forall i :: 0 <= i < |dials| ==> InSequence(dials, i)
  }

  lemma {:induction false} RunInside(dials: seq<Dial>, lo: nat, hi: nat)
    requires lo <= hi <= |dials| && forall i :: lo <= i < hi ==> dials[i].o.Failure?
    ensures TrailingFailures(Observations(dials[..hi])) >= hi - lo
  {
    if lo < hi {
      RunInside(dials, lo, hi - 1);
      var obs := Observations(dials[..hi]);
      assert obs[..|obs| - 1] == Observations(dials[..hi - 1]);
    }
  }

  /** From the third failure in a row on, failures are at least a minute apart. */
  lemma FailuresSpaced(dials: seq<Dial>, lo: nat, i: nat)
    requires Sequential(dials) && lo + 3 <= i < |dials|
    requires forall j :: lo <= j <= i ==> dials[j].o.Failure?
    ensures dials[i].recorded >= dials[i - 1].recorded + 60.0
  {
    assert InSequence(dials, i) && InSequence(dials, i - 1);
    RunInside(dials, lo, i);
    var obs := Observations(dials[..i]);
    CountersAreHistory(obs);
    assert obs[|obs| - 1] == dials[i - 1].o;
  }

  lemma {:induction false} FailuresSpread(dials: seq<Dial>, lo: nat, hi: nat)
    requires Sequential(dials) && lo + 3 <= hi <= |dials|
    requires forall j :: lo <= j < hi ==> dials[j].o.Failure?
    ensures dials[hi - 1].recorded >= dials[lo + 2].recorded + 60.0 * (hi - lo - 3) as real
    decreases hi
  {
    if lo + 3 < hi {
      FailuresSpread(dials, lo, hi - 1);
      FailuresSpaced(dials, lo, hi - 1);
    }
  }

  lemma {:induction false} RecordedInOrder(dials: seq<Dial>, i: nat, j: nat)
    requires Sequential(dials) && i <= j < |dials|
    ensures dials[i].recorded <= dials[j].recorded
    decreases j
  {
    if i < j {
      assert InSequence(dials, j);
      RecordedInOrder(dials, i, j - 1);
    }
  }

  /**
   Any `span` seconds without a success of a candidate hold at most
   3 + floor(span / 60) failures recorded against it.
   */
  lemma FailureRateBounded(dials: seq<Dial>, lo: nat, hi: nat, span: real)
    requires Sequential(dials) && lo < hi <= |dials|
    requires forall j :: lo <= j < hi ==> dials[j].o.Failure?
    requires dials[hi - 1].recorded - dials[lo].recorded <= span
    ensures hi - lo <= 3 + (span / 60.0).Floor
  {
    RecordedInOrder(dials, lo, hi - 1);
    if hi - lo > 3 {
      FailuresSpread(dials, lo, hi);
      RecordedInOrder(dials, lo, lo + 2);
      assert (hi - lo - 3) as real <= span / 60.0;
    }
  }

  /** Five minutes after its last failure every candidate is eligible again. */
  lemma EligibleAfterFiveMinutes(h: seq<Observation>, now: Instant)
    requires forall i :: 0 <= i < |h| ==> DrawnInRange(h[i])
    requires forall i :: 0 <= i < |h| && h[i].Failure? ==> h[i].at + 300.0 <= now
    ensures !ScoreOf(h).IsQuarantined(now)
  {
    CountersAreHistory(h);
  }
}
