/**
 The adaptive connection engine, used by one caller at a time. Each attempt
 consumes one tick: ask the guard, select a candidate, dial it, record the outcome.
 `log` holds what happened at every tick; the engine's whole state is a function of it.
 */
module Engine {
  import opened Wrappers
  import opened ShutdownGuard
  import opened Scores
  import opened ScoreBoards

  /** What one tick did. A dial carries the instants of its selection and of its record. */
  datatype TickEvent =
    | Suppressed
    | NoneEligible(at: Instant)
    | Dialed(c: Candidate, selected: Instant, o: Observation, recorded: Instant)

  function GuardAfter(p: Params, log: seq<TickEvent>): GuardState {
    if log == [] then FRESH
    else
      var n := |log| - 1;
      var g := Queried(p, GuardAfter(p, log[..n]), n).0;
      if log[n].Dialed? then Recorded(p, g, Outcome(n, log[n].o.Success?)) else g
  }

  function Reports(log: seq<TickEvent>): seq<Report> {
    if log == [] then []
    else
      var last := log[|log| - 1];
      Reports(log[..|log| - 1]) + (if last.Dialed? then [Report(last.c, last.o)] else [])
  }

  function BoardAfter(log: seq<TickEvent>): Board {
    BoardOf(Reports(log))
  }

  /** The latest instant the log speaks of. */
  function Clock(log: seq<TickEvent>): Instant {
    if log == [] then 0.0
    else match log[|log| - 1]
         case Suppressed => Clock(log[..|log| - 1])
         case NoneEligible(at) => at
         case Dialed(_, _, _, recorded) => recorded
  }

  /** `e` is something the engine may do after `log`. */
  ghost predicate MayFollow(p: Params, candidates: seq<Candidate>, log: seq<TickEvent>, e: TickEvent) {
    var suppressed := Queried(p, GuardAfter(p, log), |log|).1;
    match e
    case Suppressed => suppressed
    case NoneEligible(at) =>
      && !suppressed && Clock(log) <= at
      && forall i :: 0 <= i < |candidates| ==> ScoreAt(BoardAfter(log), candidates[i]).IsQuarantined(at)
    case Dialed(c, selected, o, recorded) =>
      && !suppressed && Clock(log) <= selected <= recorded
      && c in candidates && !ScoreAt(BoardAfter(log), c).IsQuarantined(selected)
      && DrawnInRange(o) && (o.Failure? ==> o.at == recorded)
  }

  /** The log of some run of a sequential engine. */
  ghost predicate Legal(p: Params, candidates: seq<Candidate>, log: seq<TickEvent>) {
    log == [] || (Legal(p, candidates, log[..|log| - 1]) && MayFollow(p, candidates, log[..|log| - 1], log[|log| - 1]))
  }

  /** What one more event does to everything computed from the log. */
  lemma Append(p: Params, candidates: seq<Candidate>, log: seq<TickEvent>, e: TickEvent)
    ensures (log + [e])[..|log|] == log && (log + [e])[|log|] == e
    ensures Legal(p, candidates, log + [e]) <==> Legal(p, candidates, log) && MayFollow(p, candidates, log, e)
    ensures GuardAfter(p, log + [e]) ==
            var g := Queried(p, GuardAfter(p, log), |log|).0;
            if e.Dialed? then Recorded(p, g, Outcome(|log|, e.o.Success?)) else g
    ensures BoardAfter(log + [e]) == if e.Dialed? then Noted(BoardAfter(log), e.c, e.o) else BoardAfter(log)
    ensures Clock(log + [e]) == match e
                                case Suppressed => Clock(log)
                                case NoneEligible(at) => at
                                case Dialed(_, _, _, recorded) => recorded
  {
    var longer := log + [e];
    assert longer[..|longer| - 1] == log;
    if e.Dialed? {
      var r := Reports(log) + [Report(e.c, e.o)];
      assert Reports(longer) == r;
      assert r[..|r| - 1] == Reports(log);
    } else {
      assert Reports(longer) == Reports(log) + [];
      assert Reports(longer) == Reports(log);
    }
  }

  /** The environment's part in one attempt: clock readings, random draws and the dial's result. */
  datatype Attempt = Attempt(selected: Instant, draw: nat, failure: Option<FailureCategory>, recorded: Instant, jitter: nat)

  datatype ConnectResult = Connected(c: Candidate) | PossibleShutdownError | NoCandidates | AllAttemptsFailed(category: FailureCategory)

  /** The answer a tick gives the caller; a failed dial gives none yet. */
  function Verdict(e: TickEvent): Option<ConnectResult> {
    match e
    case Suppressed => Some(PossibleShutdownError)
    case NoneEligible(_) => Some(NoCandidates)
    case Dialed(c, _, o, _) => if o.Success? then Some(Connected(c)) else None
  }

  /** The answer when this tick is the last. */
  function Answer(e: TickEvent): ConnectResult {
    match Verdict(e)
    case Some(r) => r
    case None => AllAttemptsFailed(e.o.category)
  }

  /** Attempt `i` follows what went before on the clock, and its draw is in range. */
  predicate TimelyAt(attempts: seq<Attempt>, since: Instant, i: nat)
    requires i < |attempts|
  {
    && (if i == 0 then since else attempts[i - 1].recorded) <= attempts[i].selected <= attempts[i].recorded
    && QUARANTINE_MIN <= attempts[i].jitter <= QUARANTINE_MAX
  }

  predicate Timely(attempts: seq<Attempt>, since: Instant) {
    forall i :: 0 <= i < |attempts| ==> TimelyAt(attempts, since, i)
  }

  /** The tick in which `c` is dialed with the outcome of `a`. */
  function DialOf(c: Candidate, a: Attempt): TickEvent {
    Dialed(c, a.selected, if a.failure.None? then Success else Failure(a.failure.value, a.recorded, a.jitter), a.recorded)
  }

  class ConnectionEngine {
    const params: Params
    const candidates: seq<Candidate>
    const guard: Guard
    const board: ScoreBoard
    var tick: nat
    var log: seq<TickEvent>

    /** The live guard, board and tick counter are those of the log, and the log is a legal one. */
    ghost predicate Valid()
      reads this, guard, board
    {
      && guard.params == params
      && guard.State() == GuardAfter(params, log)
      && board.scores == BoardAfter(log)
      && tick == |log|
      && Legal(params, candidates, log)
    }

    constructor (params: Params, candidates: seq<Candidate>)
      ensures Valid() && this.params == params && this.candidates == candidates && log == []
      ensures fresh(guard) && fresh(board)
    {
      this.params, this.candidates := params, candidates;
      guard := new Guard(params);
      board := new ScoreBoard();
      tick, log := 0, [];
    }

    /** One pass of the attempt loop; `None` means the loop goes on to the next attempt. */
    method AttemptOnce(a: Attempt) returns (r: Option<ConnectResult>)
      requires Valid() && Clock(log) <= a.selected <= a.recorded && QUARANTINE_MIN <= a.jitter <= QUARANTINE_MAX
      modifies this, guard, board
      ensures Valid() && |log| == |old(log)| + 1 && log == old(log) + [log[|old(log)|]]
      ensures r == Verdict(log[|old(log)|])
      ensures r.None? ==> a.failure.Some? && Clock(log) == a.recorded
                          && log[|old(log)|].o == Failure(a.failure.value, a.recorded, a.jitter)
    {
      var t := tick;
      tick := tick + 1;
      var suppress := guard.ShouldSuppressSwitching(t);
      if suppress {
        Append(params, candidates, log, Suppressed);
        log := log + [Suppressed];
        return Some(PossibleShutdownError);
      }
      var chosen := board.SelectNext(candidates, a.selected, a.draw);
      if chosen.None? {
        Append(params, candidates, log, NoneEligible(a.selected));
        log := log + [NoneEligible(a.selected)];
        return Some(NoCandidates);
      }
      r := DialAndRecord(chosen.value, a);
    }

    /** The dial of the selected candidate: score and guard learn its outcome. */
    method DialAndRecord(c: Candidate, a: Attempt) returns (r: Option<ConnectResult>)
      requires guard.params == params && guard.State() == Queried(params, GuardAfter(params, log), |log|).0
      requires board.scores == BoardAfter(log) && tick == |log| + 1 && Legal(params, candidates, log)
      requires !Queried(params, GuardAfter(params, log), |log|).1
      requires c in candidates && !ScoreAt(BoardAfter(log), c).IsQuarantined(a.selected)
      requires Clock(log) <= a.selected <= a.recorded && QUARANTINE_MIN <= a.jitter <= QUARANTINE_MAX
      modifies this, guard, board
      ensures Valid() && |log| == |old(log)| + 1 && log == old(log) + [log[|old(log)|]]
      ensures r == Verdict(log[|old(log)|])
      ensures r.None? ==> a.failure.Some? && Clock(log) == a.recorded
                          && log[|old(log)|].o == Failure(a.failure.value, a.recorded, a.jitter)
    {
      var e := DialOf(c, a);
      if a.failure.None? {
        board.ObserveSuccess(c);
        guard.Record(tick - 1, true);
      } else {
        guard.Record(tick - 1, false);
        if a.failure.value.IsRemoteSignal() {
          board.ObserveFailure(c, a.failure.value, a.recorded, a.jitter);
        }
      }
      LogDial(e);
      return if a.failure.None? then Some(Connected(c)) else None;
    }

    /** Closes a tick whose dial the guard and the board have already learnt of. */
    method LogDial(e: TickEvent)
      requires e.Dialed? && guard.params == params && tick == |log| + 1
      requires guard.State() == Recorded(params, Queried(params, GuardAfter(params, log), |log|).0, Outcome(|log|, e.o.Success?))
      requires board.scores == Noted(BoardAfter(log), e.c, e.o)
      requires Legal(params, candidates, log) && MayFollow(params, candidates, log, e)
      modifies this`log
      ensures Valid() && log == old(log) + [e] && log[|old(log)|] == e
      ensures Clock(log) == e.recorded
    {
      Append(params, candidates, log, e);
      log := log + [e];
    }

    /**
     `connect`, with an attempt budget of `|attempts|`. Only failed dials keep
     the loop going; the last tick decides the answer, and running out of budget
     reports the last failure.
     */
    method Connect(attempts: seq<Attempt>) returns (r: ConnectResult)
      requires Valid() && Timely(attempts, Clock(log))
      modifies this, guard, board
      ensures Valid() && old(log) <= log && |log| <= |old(log)| + |attempts|
      ensures log == old(log) <==> candidates == [] || attempts == []
      ensures r == if log == old(log) then NoCandidates else Answer(log[|log| - 1])
      ensures r.AllAttemptsFailed? ==> |log| == |old(log)| + |attempts|
      ensures forall i :: |old(log)| <= i < |log| - 1 ==> Verdict(log[i]).None?
    {
      if candidates == [] {
        return NoCandidates;
      }
      r := NoCandidates;
      ghost var since := Clock(log);
      for i := 0 to |attempts|
        invariant Valid() && old(log) <= log && |log| == |old(log)| + i
        invariant Clock(log) == if i == 0 then since else attempts[i - 1].recorded
        invariant forall j :: |old(log)| <= j < |log| ==> Verdict(log[j]).None?
        invariant r == if i == 0 then NoCandidates else Answer(log[|log| - 1])
      {
        assert TimelyAt(attempts, since, i);
        var step := AttemptOnce(attempts[i]);
        if step.Some? {
          return step.value;
        }
        r := AllAttemptsFailed(attempts[i].failure.value);
      }
    }
  }

  // ------------------------------------------------------------ dial budget

  function DialCount(log: seq<TickEvent>, lo: nat, hi: nat): nat
    requires lo <= hi <= |log|
    decreases hi - lo
  {
    if lo == hi then 0 else (if log[lo].Dialed? then 1 else 0) + DialCount(log, lo + 1, hi)
  }

  function DialTicks(log: seq<TickEvent>): Tick -> bool {
    (t: Tick) => t < |log| && log[t].Dialed?
  }

  /** Every dial at the ticks `lo..hi` failed; what came before is arbitrary. */
  ghost predicate DialsFail(log: seq<TickEvent>, lo: nat, hi: nat)
    requires hi <= |log|
  {
    forall i :: lo <= i < hi && log[i].Dialed? ==> log[i].o.Failure?
  }

  lemma {:induction false} LegalPrefix(p: Params, candidates: seq<Candidate>, log: seq<TickEvent>, n: nat)
    requires Legal(p, candidates, log) && n <= |log|
    ensures Legal(p, candidates, log[..n])
    ensures n < |log| ==> MayFollow(p, candidates, log[..n], log[n])
    decreases |log|
  {
    if n < |log| {
      var front := log[..|log| - 1];
      if n < |front| {
        LegalPrefix(p, candidates, front, n);
        assert front[..n] == log[..n];
      }
    } else {
      assert log[..n] == log;
    }
  }

  lemma {:induction false} WindowFits(p: Params, log: seq<TickEvent>)
    requires p.windowSize >= 1
    ensures |GuardAfter(p, log).window| <= p.windowSize
  {
    if log != [] {
      WindowFits(p, log[..|log| - 1]);
    }
  }

  lemma TickAgrees(p: Params, candidates: seq<Candidate>, log: seq<TickEvent>, tick: nat)
    requires Legal(p, candidates, log) && tick < |log| && DialsFail(log, tick, tick + 1)
    ensures FailingTick(p, GuardAfter(p, log[..tick]), tick, DialTicks(log)(tick))
         == (GuardAfter(p, log[..tick + 1]), log[tick].Dialed?)
  {
    LegalPrefix(p, candidates, log, tick);
    assert log[..tick + 1] == log[..tick] + [log[tick]];
    Append(p, candidates, log[..tick], log[tick]);
  }

  /** While dials fail the engine's ticks are exactly the guard's failing ticks. */
  lemma {:induction false} LogDials(p: Params, candidates: seq<Candidate>, log: seq<TickEvent>, lo: nat, hi: nat)
    requires Legal(p, candidates, log) && lo <= hi <= |log| && DialsFail(log, lo, hi)
    ensures DialCount(log, lo, hi)
         == Dials(p, GuardAfter(p, log[..lo]), lo, hi - lo, DialTicks(log))
    decreases hi - lo
  {
    if lo < hi {
      LogDials(p, candidates, log, lo + 1, hi);
      TickAgrees(p, candidates, log, lo);
    }
  }

  /**
   In every run, any `windowSize + cooldown` consecutive ticks whose dials all
   fail hold at most `windowSize` dials, whatever succeeded before and whatever
   quarantine does: 8 in any 98 with the shipped window of 8 and cooldown of 90.
   */
  lemma EngineDialBudget(p: Params, candidates: seq<Candidate>, log: seq<TickEvent>, lo: nat)
    requires p.windowSize >= 4 && p.cooldown >= 1 && p.threshold <= 1.0
    requires Legal(p, candidates, log) && lo + p.windowSize + p.cooldown <= |log|
    requires DialsFail(log, lo, lo + p.windowSize + p.cooldown)
    ensures DialCount(log, lo, lo + p.windowSize + p.cooldown) <= p.windowSize
  {
    LogDials(p, candidates, log, lo, lo + p.windowSize + p.cooldown);
    WindowFits(p, log[..lo]);
    DialBudget(p, GuardAfter(p, log[..lo]), lo, DialTicks(log));
  }

  // ------------------------------------------------------------- quarantine

  /** The dials of one candidate that were recorded against its score. */
  function DialsOf(log: seq<TickEvent>, c: Candidate): seq<Dial> {
    if log == [] then []
    else
      var last := log[|log| - 1];
      DialsOf(log[..|log| - 1], c)
      + (if last.Dialed? && last.c == c && Counts(last.o) then [Dial(last.selected, last.o, last.recorded)] else [])
  }

  lemma {:induction false} DialsAreObserved(log: seq<TickEvent>, c: Candidate)
    ensures Observations(DialsOf(log, c)) == About(Reports(log), c)
  {
    if log != [] {
      var front, last := log[..|log| - 1], log[|log| - 1];
      DialsAreObserved(front, c);
      if last.Dialed? {
        var r := Reports(log);
        assert r[..|r| - 1] == Reports(front);
      } else {
        assert Reports(log) == Reports(front);
      }
    }
  }

  lemma {:induction false} RecordedBeforeClock(p: Params, candidates: seq<Candidate>, log: seq<TickEvent>, c: Candidate)
    requires Legal(p, candidates, log)
    ensures forall i :: 0 <= i < |DialsOf(log, c)| ==> DialsOf(log, c)[i].recorded <= Clock(log)
  {
    if log != [] {
      RecordedBeforeClock(p, candidates, log[..|log| - 1], c);
    }
  }

  lemma SequentialAppend(dials: seq<Dial>, d: Dial)
    requires Sequential(dials) && DrawnInRange(d.o) && d.selected <= d.recorded && (d.o.Failure? ==> d.o.at == d.recorded)
    requires !ScoreOf(Observations(dials)).IsQuarantined(d.selected)
    requires dials != [] ==> dials[|dials| - 1].recorded <= d.selected
    ensures Sequential(dials + [d])
  {
    var after := dials + [d];
    forall i | 0 <= i < |after| ensures InSequence(after, i) {
      if i < |dials| {
        assert InSequence(dials, i);
        assert after[..i] == dials[..i];
      } else {
        assert after[..i] == dials;
      }
    }
  }

  /** In every run, a candidate's recorded dials respect its quarantine. */
  lemma {:induction false} DialsAreSequential(p: Params, candidates: seq<Candidate>, log: seq<TickEvent>, c: Candidate)
    requires Legal(p, candidates, log)
    ensures Sequential(DialsOf(log, c))
  {
    if log != [] {
      var front, last := log[..|log| - 1], log[|log| - 1];
      DialsAreSequential(p, candidates, front, c);
      RecordedBeforeClock(p, candidates, front, c);
      DialsAreObserved(front, c);
      ScoresAreSeparate(Reports(front), c);
      if last.Dialed? && last.c == c && Counts(last.o) {
        SequentialAppend(DialsOf(front, c), Dial(last.selected, last.o, last.recorded));
      } else {
        assert DialsOf(log, c) == DialsOf(front, c);
      }
    }
  }

  /**
   In every run: any `span` seconds without a success of candidate `c` hold at
   most 3 + floor(span / 60) failures recorded against it.
   */
  lemma EngineFailureRate(
    p: Params, candidates: seq<Candidate>, log: seq<TickEvent>, c: Candidate, lo: nat, hi: nat, span: real)
    requires Legal(p, candidates, log)
    requires lo < hi <= |DialsOf(log, c)| && forall i :: lo <= i < hi ==> DialsOf(log, c)[i].o.Failure?
    requires DialsOf(log, c)[hi - 1].recorded - DialsOf(log, c)[lo].recorded <= span
    ensures hi - lo <= 3 + (span / 60.0).Floor
  {
    DialsAreSequential(p, candidates, log, c);
    FailureRateBounded(DialsOf(log, c), lo, hi, span);
  }

  /**
   Whenever the engine finds nobody to dial, every candidate's last three
   recorded dials failed, and the last of them less than five minutes ago.
   */
  lemma NobodyEligible(p: Params, candidates: seq<Candidate>, log: seq<TickEvent>, n: nat, i: nat)
    requires Legal(p, candidates, log) && n < |log| && log[n].NoneEligible? && i < |candidates|
    ensures var dials := DialsOf(log[..n], candidates[i]);
            && |dials| >= 3 && (forall j :: |dials| - 3 <= j < |dials| ==> dials[j].o.Failure?)
            && dials[|dials| - 1].recorded > log[n].at - 300.0
  {
    var c, front := candidates[i], log[..n];
    LegalPrefix(p, candidates, log, n);
    var dials := DialsOf(front, c);
    var h := Observations(dials);
    DialsAreObserved(front, c);
    ScoresAreSeparate(Reports(front), c);
    assert ScoreOf(h).IsQuarantined(log[n].at);
    CountersAreHistory(h);
    ThreeTrailing(h);
    forall j | |dials| - 3 <= j < |dials| ensures dials[j].o.Failure? {
      assert h[j].Failure?;
    }
    DialsAreSequential(p, candidates, front, c);
    assert InSequence(dials, |dials| - 1);
  }
}
