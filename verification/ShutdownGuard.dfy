/**
 The "possible shutdown" guard: a sliding window of recent outcomes that
 suppresses transport switching for a cooldown once nearly everything fails.
 Ticks are unbounded naturals and fractions are real.
 */
module ShutdownGuard {
  import opened Wrappers

  type Tick = nat

  datatype Outcome = Outcome(tick: Tick, success: bool)

  datatype Params = Params(windowSize: nat, threshold: real, cooldown: nat)

  datatype GuardState = GuardState(window: seq<Outcome>, until: Option<Tick>)

  const FRESH := GuardState([], None)

  function Max(a: nat, b: nat): nat { if a >= b then a else b }
  function Min(a: nat, b: nat): nat { if a <= b then a else b }

  function Failures(window: seq<Outcome>): nat {
    if window == [] then 0
    else Failures(window[..|window| - 1]) + (if window[|window| - 1].success then 0 else 1)
  }

  function FailureFraction(window: seq<Outcome>): real {
    if window == [] then 0.0 else Failures(window) as real / |window| as real
  }

  /** The window is full enough to judge, and bad enough to stop. */
  predicate MassFailure(p: Params, window: seq<Outcome>) {
    |window| >= Max(p.windowSize, 4) && FailureFraction(window) >= p.threshold
  }

  function Recorded(p: Params, g: GuardState, o: Outcome): GuardState {
    var kept := if |g.window| >= p.windowSize && g.window != [] then g.window[1..] else g.window;
    GuardState(kept + [o], g.until)
  }

  /** The state after a query, and whether switching is suppressed. */
  function Queried(p: Params, g: GuardState, tick: Tick): (GuardState, bool) {
    if g.until.Some? && tick < g.until.value then (g, true)
    else
      var window := if g.until.Some? then [] else g.window;
      if MassFailure(p, window) then (GuardState(window, Some(tick + p.cooldown)), true)
      else (GuardState(window, None), false)
  }

  /** The guard as the engine holds it. */
  class Guard {
    const params: Params
    var window: seq<Outcome>
    var cooldownUntil: Option<Tick>

    function State(): GuardState
      reads this
    {
      GuardState(window, cooldownUntil)
    }

    constructor (params: Params)
      ensures this.params == params && State() == FRESH
    {
      this.params, window, cooldownUntil := params, [], None;
    }

    method Record(tick: Tick, success: bool)
      modifies this
      ensures State() == Recorded(params, old(State()), Outcome(tick, success))
    {
      if |window| >= params.windowSize && window != [] {
        window := window[1..];
      }
      window := window + [Outcome(tick, success)];
    }

    method ShouldSuppressSwitching(tick: Tick) returns (suppress: bool)
      modifies this
      ensures (State(), suppress) == Queried(params, old(State()), tick)
    {
      if cooldownUntil.Some? {
        if tick < cooldownUntil.value {
          return true;
        }
        cooldownUntil := None;
        window := [];
      }
      if |window| >= Max(params.windowSize, 4) {
        var failures := CountFailures(window);
        if failures as real / |window| as real >= params.threshold {
          cooldownUntil := Some(tick + params.cooldown);
          return true;
        }
      }
      return false;
    }

    static method CountFailures(window: seq<Outcome>) returns (failures: nat)
      ensures failures == Failures(window)
    {
      failures := 0;
      for i := 0 to |window|
        invariant failures == Failures(window[..i])
      {
        assert window[..i + 1][..i] == window[..i];
        if !window[i].success {
          failures := failures + 1;
        }
      }
      assert window[..|window|] == window;
    }
  }

  // ------------------------------------------------------- the history it implements

  datatype Event = Record(o: Outcome) | Query(tick: Tick)

  /** The guard's state after any interleaving of calls, from fresh. */
  function Replay(p: Params, events: seq<Event>): GuardState {
    if events == [] then FRESH
    else After(p, Replay(p, events[..|events| - 1]), events[|events| - 1])
  }

  function After(p: Params, g: GuardState, e: Event): GuardState {
    match e
    case Record(o) => Recorded(p, g, o)
    case Query(tick) => Queried(p, g, tick).0
  }

  /** The last event is a query that found an expired cooldown and released it. */
  predicate Releases(p: Params, events: seq<Event>)
    requires events != []
  {
    var g, last := Replay(p, events[..|events| - 1]), events[|events| - 1];
    last.Query? && g.until.Some? && g.until.value <= last.tick
  }

  /** The last event is a query that starts a cooldown. */
  predicate Arms(p: Params, events: seq<Event>)
    requires events != []
  {
    var g, last := Replay(p, events[..|events| - 1]), events[|events| - 1];
    last.Query? && Queried(p, g, last.tick).1 && !(g.until.Some? && last.tick < g.until.value)
  }

  /** Every outcome recorded since the last release: the specification's unbounded window. */
  function Since(p: Params, events: seq<Event>): seq<Outcome> {
    if events == [] then []
    else if Releases(p, events) then []
    else
      var before := Since(p, events[..|events| - 1]);
      match events[|events| - 1]
      case Record(o) => before + [o]
      case Query(_) => before
  }

  function LastOf(s: seq<Outcome>, n: nat): seq<Outcome> {
    if |s| <= n then s else s[|s| - n..]
  }

  /**
   For any interleaving of records and queries, the window is the last
   `max(windowSize, 1)` outcomes recorded since the last release.
   */
  lemma {:induction false} WindowIsRecentHistory(p: Params, events: seq<Event>)
    ensures Replay(p, events).window == LastOf(Since(p, events), Max(p.windowSize, 1))
  {
    if events != [] {
      var front, last := events[..|events| - 1], events[|events| - 1];
      WindowIsRecentHistory(p, front);
      if last.Record? {
        RecordKeepsRecent(p, Since(p, front), Replay(p, front), last.o);
      }
    }
  }

  lemma RecordKeepsRecent(p: Params, since: seq<Outcome>, g: GuardState, o: Outcome)
    requires g.window == LastOf(since, Max(p.windowSize, 1))
    ensures Recorded(p, g, o).window == LastOf(since + [o], Max(p.windowSize, 1))
  {
    var n := Max(p.windowSize, 1);
    if |since| >= n {
      assert g.window[1..] == since[|since| - n + 1..];
    }
  }

  /** Arming takes a full window's worth of records since the last release, most of them failures. */
  lemma ArmingNeedsRecords(p: Params, events: seq<Event>)
    requires events != [] && Arms(p, events)
    ensures p.windowSize >= 4
    ensures |Since(p, events[..|events| - 1])| >= Max(p.windowSize, 4)
    ensures FailureFraction(LastOf(Since(p, events[..|events| - 1]), p.windowSize)) >= p.threshold
    ensures Replay(p, events[..|events| - 1]).until.None?
  {
    WindowIsRecentHistory(p, events[..|events| - 1]);
  }

  /** A cooldown that was pending and no longer is has been released in between. */
  lemma {:induction false} FindRelease(p: Params, events: seq<Event>, i: nat, j: nat) returns (k: nat)
    requires i <= j <= |events|
    requires Replay(p, events[..i]).until.Some? && Replay(p, events[..j]).until.None?
    ensures i < k <= j && Releases(p, events[..k])
    decreases j
  {
    assert i < j;
    assert events[..j][..j - 1] == events[..j - 1];
    if Releases(p, events[..j]) {
      k := j;
    } else {
      k := FindRelease(p, events, i, j - 1);
    }
  }

  lemma ArmingIsPending(p: Params, events: seq<Event>)
    requires events != [] && Arms(p, events)
    ensures Replay(p, events).until.Some?
  {}

  /**
   Between two armings lies a release, and from that release to the second
   arming at least `max(windowSize, 4)` outcomes were recorded.
   */
  lemma ArmingsAreFarApart(p: Params, events: seq<Event>, i: nat, j: nat) returns (k: nat)
    requires 0 < i < j <= |events| && Arms(p, events[..i]) && Arms(p, events[..j])
    ensures i < k < j && Releases(p, events[..k])
    ensures |Since(p, events[..j - 1])| >= Max(p.windowSize, 4)
  {
    assert events[..j][..j - 1] == events[..j - 1];
    ArmingIsPending(p, events[..i]);
    ArmingNeedsRecords(p, events[..j]);
    k := FindRelease(p, events, i, j - 1);
  }

  /** A guard with a window below four never suppresses anything. */
  lemma {:induction false} SmallWindowNeverSuppresses(p: Params, events: seq<Event>, tick: Tick)
    requires p.windowSize < 4
    ensures Replay(p, events).until.None? && !Queried(p, Replay(p, events), tick).1
  {
    WindowIsRecentHistory(p, events);
    if events != [] {
      var front, last := events[..|events| - 1], events[|events| - 1];
      SmallWindowNeverSuppresses(p, front, if last.Query? then last.tick else 0);
    }
  }

  /** Since the guard armed at `events[i - 1]`, no query has come at or after the end of its cooldown. */
  ghost predicate CoolingSince(p: Params, events: seq<Event>, i: nat) {
    && 0 < i <= |events| && Arms(p, events[..i])
    && forall j :: i <= j < |events| && events[j].Query? ==> events[j].tick < events[i - 1].tick + p.cooldown
  }

  lemma ArmedUntil(p: Params, g: GuardState, tick: Tick)
    requires Queried(p, g, tick).1 && !(g.until.Some? && tick < g.until.value)
    ensures Queried(p, g, tick).0.until == Some(tick + p.cooldown)
  {}

  lemma {:induction false} ArmingSetsDeadline(p: Params, events: seq<Event>)
    requires events != [] && Arms(p, events)
    ensures Replay(p, events).until == Some(events[|events| - 1].tick + p.cooldown)
  {
    ArmedUntil(p, Replay(p, events[..|events| - 1]), events[|events| - 1].tick);
  }

  lemma DeadlineKept(p: Params, g: GuardState, e: Event)
    requires g.until.Some? && (e.Query? ==> e.tick < g.until.value)
    ensures After(p, g, e).until == g.until
  {}

  lemma {:induction false} CooldownStands(p: Params, events: seq<Event>, i: nat, deadline: Tick)
    requires i <= |events| && Replay(p, events[..i]).until == Some(deadline)
    requires forall j :: i <= j < |events| && events[j].Query? ==> events[j].tick < deadline
    ensures Replay(p, events).until == Some(deadline)
    decreases |events|
  {
    if i == |events| {
      assert events[..i] == events;
    } else {
      var front, last := events[..|events| - 1], events[|events| - 1];
      assert front[..i] == events[..i];
      CooldownStands(p, front, i, deadline);
      DeadlineKept(p, Replay(p, front), last);
      assert Replay(p, events) == After(p, Replay(p, front), last);
    }
  }

  /**
   However long the outage and whatever is recorded meanwhile: after arming,
   queries are suppressed exactly until the cooldown ends, and the first one at
   or after its end is let through by a fresh guard, so suppression is never
   terminal.
   */
  lemma SuppressedForOneCooldown(p: Params, events: seq<Event>, i: nat, tick: Tick)
    requires CoolingSince(p, events, i)
    ensures events[i - 1].Query?
    ensures Queried(p, Replay(p, events), tick).1 <==> tick < events[i - 1].tick + p.cooldown
    ensures tick >= events[i - 1].tick + p.cooldown ==> Queried(p, Replay(p, events), tick).0 == FRESH
  {
    assert events[..i][i - 1] == events[i - 1];
    ArmingSetsDeadline(p, events[..i]);
    CooldownStands(p, events, i, events[i - 1].tick + p.cooldown);
  }

  // ------------------------------------------------------------- dial budget

  /** One engine tick while every dial fails: query, then dial if allowed and a candidate is to hand. */
  function FailingTick(p: Params, g: GuardState, tick: Tick, candidate: bool): (GuardState, bool) {
    var (g', suppressed) := Queried(p, g, tick);
    if suppressed || !candidate then (g', false) else (Recorded(p, g', Outcome(tick, false)), true)
  }

  /** Dials made in the `n` ticks from `tick` on; `candidates` says when selection finds someone to dial. */
  function Dials(p: Params, g: GuardState, tick: Tick, n: nat, candidates: Tick -> bool): nat
    decreases n
  {
    if n == 0 then 0
    else
      var (g', dialed) := FailingTick(p, g, tick, candidates(tick));
      (if dialed then 1 else 0) + Dials(p, g', tick + 1, n - 1, candidates)
  }

  /** The failures at the end of a window. */
  function TrailingFailures(window: seq<Outcome>): (n: nat)
    ensures n <= |window|
  {
    if window == [] || window[|window| - 1].success then 0 else 1 + TrailingFailures(window[..|window| - 1])
  }

  lemma {:induction false} OneMoreFailure(window: seq<Outcome>, o: Outcome)
    requires !o.success
    ensures TrailingFailures(window + [o]) == TrailingFailures(window) + 1
  {
    assert (window + [o])[..|window|] == window;
  }

  /** Dropping the oldest outcome leaves a shorter run of failures at the end alone. */
  lemma {:induction false} OldestIsNotTrailing(window: seq<Outcome>)
    requires TrailingFailures(window) < |window|
    ensures TrailingFailures(window[1..]) == TrailingFailures(window)
  {
    if |window| > 1 && !window[|window| - 1].success {
      var front := window[..|window| - 1];
      OldestIsNotTrailing(front);
      assert window[1..][..|window| - 2] == front[1..];
    }
  }

  lemma {:induction false} OnlyFailures(window: seq<Outcome>)
    requires TrailingFailures(window) == |window|
    ensures Failures(window) == |window|
  {
    if window != [] {
      OnlyFailures(window[..|window| - 1]);
    }
  }

  /** A full window of failures stops switching, whatever the threshold up to one. */
  lemma FullWindowStops(p: Params, window: seq<Outcome>)
    requires p.windowSize >= 4 && p.threshold <= 1.0
    requires |window| == TrailingFailures(window) == p.windowSize
    ensures MassFailure(p, window)
  {
    OnlyFailures(window);
    WholeIsOne(|window| as real);
  }

  lemma WholeIsOne(x: real)
    requires x > 0.0
    ensures x / x == 1.0
  {}

  /**
   How many dials `n <= windowSize + cooldown` ticks can hold at most, given the
   end of a running cooldown or the run of failures the window ends in.
   */
  function Allowance(p: Params, until: Option<Tick>, run: nat, tick: Tick, n: nat): int
    requires run <= p.windowSize
  {
    if until.Some? then
      var wait := if tick < until.value then until.value - tick else 0;
      if n <= wait then 0 else Min(n - wait, p.windowSize)
    else
      var left := p.windowSize - run;
      if n <= left + p.cooldown then Min(n, left) else n - p.cooldown
  }

  function Budget(p: Params, g: GuardState, tick: Tick, n: nat): int
    requires |g.window| <= p.windowSize
  {
    Allowance(p, g.until, TrailingFailures(g.window), tick, n)
  }

  /** A tick that is suppressed, a tick that finds nobody to dial, and a tick that dials and fails. */
  lemma TickShares(p: Params, until: Option<Tick>, run: nat, tick: Tick, n: nat)
    requires p.windowSize >= 4 && p.cooldown >= 1 && run <= p.windowSize && 0 < n <= p.windowSize + p.cooldown
    ensures until.Some? && tick < until.value ==> Allowance(p, until, run, tick + 1, n - 1) <= Allowance(p, until, run, tick, n)
    ensures until.None? ==> Allowance(p, Some(tick + p.cooldown), run, tick + 1, n - 1) <= Allowance(p, until, run, tick, n)
    ensures until.Some? && tick >= until.value ==>
              && Allowance(p, None, 0, tick + 1, n - 1) <= Allowance(p, until, run, tick, n)
              && 1 + Allowance(p, None, 1, tick + 1, n - 1) <= Allowance(p, until, run, tick, n)
    ensures until.None? && run < p.windowSize ==>
              && Allowance(p, None, run, tick + 1, n - 1) <= Allowance(p, until, run, tick, n)
              && 1 + Allowance(p, None, run + 1, tick + 1, n - 1) <= Allowance(p, until, run, tick, n)
  {}

  /** A recorded failure lengthens the run, as long as the window is not already all failures. */
  lemma FailureLengthensRun(p: Params, g: GuardState, tick: Tick)
    requires p.windowSize >= 4 && |g.window| <= p.windowSize && TrailingFailures(g.window) < p.windowSize
    ensures var g' := Recorded(p, g, Outcome(tick, false));
            && |g'.window| <= p.windowSize && g'.until == g.until
            && TrailingFailures(g'.window) == TrailingFailures(g.window) + 1
  {
    if |g.window| >= p.windowSize {
      OldestIsNotTrailing(g.window);
      OneMoreFailure(g.window[1..], Outcome(tick, false));
    } else {
      OneMoreFailure(g.window, Outcome(tick, false));
    }
  }

  /** What a query leaves behind: a running cooldown, or a window with room for another failure. */
  lemma QueryLeaves(p: Params, g: GuardState, tick: Tick)
    requires p.windowSize >= 4 && p.threshold <= 1.0 && |g.window| <= p.windowSize
    ensures var (g', suppressed) := Queried(p, g, tick);
            && |g'.window| <= p.windowSize
            && (suppressed <==> g'.until.Some?)
            && (suppressed ==> g'.until == (if g.until.Some? then g.until else Some(tick + p.cooldown)))
            && (!suppressed ==> TrailingFailures(g'.window) < p.windowSize
                                && TrailingFailures(g'.window) == (if g.until.Some? then 0 else TrailingFailures(g.window)))
            && (g.until.Some? ==> (suppressed <==> tick < g.until.value))
  {
    if g.until.None? && TrailingFailures(g.window) == p.windowSize {
      FullWindowStops(p, g.window);
    }
  }

  /** One tick uses up no more than its share of the budget. */
  lemma TickWithinBudget(p: Params, g: GuardState, tick: Tick, n: nat, candidate: bool)
    requires p.windowSize >= 4 && p.cooldown >= 1 && p.threshold <= 1.0
    requires |g.window| <= p.windowSize && 0 < n <= p.windowSize + p.cooldown
    ensures var (g', dialed) := FailingTick(p, g, tick, candidate);
            |g'.window| <= p.windowSize && (if dialed then 1 else 0) + Budget(p, g', tick + 1, n - 1) <= Budget(p, g, tick, n)
  {
    QueryLeaves(p, g, tick);
    TickShares(p, g.until, TrailingFailures(g.window), tick, n);
    var (q, suppressed) := Queried(p, g, tick);
    if !suppressed && candidate {
      FailureLengthensRun(p, q, tick);
    }
  }

  lemma {:induction false} DialsWithinBudget(p: Params, g: GuardState, tick: Tick, n: nat, candidates: Tick -> bool)
    requires p.windowSize >= 4 && p.cooldown >= 1 && p.threshold <= 1.0
    requires |g.window| <= p.windowSize && n <= p.windowSize + p.cooldown
    ensures Dials(p, g, tick, n, candidates) <= Budget(p, g, tick, n)
    decreases n
  {
    if n > 0 {
      TickWithinBudget(p, g, tick, n, candidates(tick));
      DialsWithinBudget(p, FailingTick(p, g, tick, candidates(tick)).0, tick + 1, n - 1, candidates);
    }
  }

  /**
   Once every dial fails, any `windowSize + cooldown` consecutive ticks hold at
   most `windowSize` dials: from every state of the guard, successes in its
   window included, and whatever quarantine does.
   */
  lemma DialBudget(p: Params, g: GuardState, tick: Tick, candidates: Tick -> bool)
    requires p.windowSize >= 4 && p.cooldown >= 1 && p.threshold <= 1.0 && |g.window| <= p.windowSize
    ensures Dials(p, g, tick, p.windowSize + p.cooldown, candidates) <= p.windowSize
  {
    DialsWithinBudget(p, g, tick, p.windowSize + p.cooldown, candidates);
  }

  lemma {:induction false} FailuresAtMostAll(window: seq<Outcome>)
    ensures Failures(window) <= |window|
  {
    if window != [] {
      FailuresAtMostAll(window[..|window| - 1]);
    }
  }

  lemma AtMostOne(part: real, whole: real)
    requires 0.0 <= part <= whole && whole > 0.0
    ensures part / whole <= 1.0
  {
    assert (part / whole) * whole == part;
  }

  /** The budget needs `threshold <= 1`: above one the guard never engages and every tick may dial. */
  lemma {:induction false} NoBudgetAboveOne(p: Params, g: GuardState, tick: Tick, n: nat)
    requires p.threshold > 1.0 && g.until.None?
    ensures Dials(p, g, tick, n, _ => true) == n
    decreases n
  {
    if n > 0 {
      FailuresAtMostAll(g.window);
      if g.window != [] {
        AtMostOne(Failures(g.window) as real, |g.window| as real);
      }
      NoBudgetAboveOne(p, FailingTick(p, g, tick, true).0, tick + 1, n - 1);
    }
  }
}
