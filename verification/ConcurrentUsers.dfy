/**
 Any number of user commands and reconciles, each a process of its own steps on
 the one host, under the state lock: nothing is lost, readers see whole lists,
 and the store stays behind the server at every moment of every schedule.
 */
module ConcurrentUsers {
  import opened Wrappers
  import opened CompatModel
  import opened Hosts
  import opened ConfigApply
  import opened UserOps
  import opened UserMutation
  import opened UserRuns
  import opened CommandSteps
  import opened StateLock

  // ------------------------------------------------------------ the processes

  function StepOf(d: Deployment, job: Job, move: Move): (Snapshot, Local) -> (Snapshot, Local) {
    (s: Snapshot, l: Local) => Do(d, job, move, s, l)
  }

  function JobProcess(d: Deployment, job: Job): Command<Snapshot, Local> {
    Command(FRESH_LOCAL, seq(|COMMAND_MOVES|, i requires 0 <= i < |COMMAND_MOVES| => StepOf(d, job, COMMAND_MOVES[i])))
  }

  function Processes(d: Deployment, jobs: seq<Job>): seq<Command<Snapshot, Local>> {
    seq(|jobs|, i requires 0 <= i < |jobs| => JobProcess(d, jobs[i]))
  }

  /** The host after the first `n` steps of a command alone. */
  function HostAfter(d: Deployment, job: Job, n: nat, s: Snapshot): Snapshot
    requires n <= |COMMAND_MOVES|
  {
    Play(d, job, COMMAND_MOVES[..n], s, FRESH_LOCAL).0
  }

  /** How many states the first `n` steps of a command make. */
  function Made(d: Deployment, job: Job, n: nat, s: Snapshot): nat
    requires n <= |COMMAND_MOVES|
  {
    |Play(d, job, COMMAND_MOVES[..n], s, FRESH_LOCAL).1.trail|
  }

  lemma {:induction false} AloneIsPlay(d: Deployment, job: Job, n: nat, s: Snapshot)
    requires n <= |COMMAND_MOVES|
    ensures Alone(JobProcess(d, job), n, s) == Play(d, job, COMMAND_MOVES[..n], s, FRESH_LOCAL)
  {
    if n > 0 {
      AloneIsPlay(d, job, n - 1, s);
      assert COMMAND_MOVES[..n][..n - 1] == COMMAND_MOVES[..n - 1];
    }
  }

  lemma {:induction false} PlayGrows(d: Deployment, job: Job, moves: seq<Move>, n: nat, m: nat, s: Snapshot)
    requires n <= m <= |moves|
    ensures Play(d, job, moves[..n], s, FRESH_LOCAL).1.trail <= Play(d, job, moves[..m], s, FRESH_LOCAL).1.trail
    decreases m
  {
    if n < m {
      PlayGrows(d, job, moves, n, m - 1, s);
      OneMoreMove(d, job, moves, m - 1, s);
    }
  }

  lemma OneMoreMove(d: Deployment, job: Job, moves: seq<Move>, n: nat, s: Snapshot)
    requires n < |moves|
    ensures var (s0, l0) := Play(d, job, moves[..n], s, FRESH_LOCAL);
            var (s1, l1) := Play(d, job, moves[..n + 1], s, FRESH_LOCAL);
            (s1 == s0 && l1.trail == l0.trail) || l1.trail == l0.trail + [s1]
  {
    assert moves[..n + 1][..n] == moves[..n];
    var (s0, l0) := Play(d, job, moves[..n], s, FRESH_LOCAL);
    DoGrows(d, job, moves[n], s0, l0);
  }

  lemma {:induction false} HostIsEndOfTrail(d: Deployment, job: Job, moves: seq<Move>, n: nat, s: Snapshot)
    requires n <= |moves|
    ensures var (e, l) := Play(d, job, moves[..n], s, FRESH_LOCAL); e == EndOf(s, l.trail)
  {
    if n > 0 {
      HostIsEndOfTrail(d, job, moves, n - 1, s);
      OneMoreMove(d, job, moves, n - 1, s);
    }
  }

  /** After any number of steps the host is as after some number of states of the command's history. */
  lemma HostIsInTrail(d: Deployment, job: Job, n: nat, s: Snapshot)
    requires n <= |COMMAND_MOVES|
    ensures Made(d, job, n, s) <= |JobTrail(d, s, job)|
    ensures HostAfter(d, job, n, s) == EndOf(s, JobTrail(d, s, job)[..Made(d, job, n, s)])
    ensures Made(d, job, |COMMAND_MOVES|, s) == |JobTrail(d, s, job)|
  {
    WholeTrail(d, job, s);
    PlayGrows(d, job, COMMAND_MOVES, n, |COMMAND_MOVES|, s);
    HostIsEndOfTrail(d, job, COMMAND_MOVES, n, s);
    PrefixSlice(Play(d, job, COMMAND_MOVES[..n], s, FRESH_LOCAL).1.trail, JobTrail(d, s, job));
  }

  lemma WholeTrail(d: Deployment, job: Job, s: Snapshot)
    ensures Play(d, job, COMMAND_MOVES[..|COMMAND_MOVES|], s, FRESH_LOCAL).1.trail == JobTrail(d, s, job)
  {
    assert COMMAND_MOVES[..|COMMAND_MOVES|] == COMMAND_MOVES;
    JobPlays(d, job, s);
  }

  lemma PrefixSlice<T>(x: seq<T>, y: seq<T>)
    requires x <= y
    ensures y[..|x|] == x
  {}

  // ------------------------------------------------------------- every moment

  /** The host in which the last process to get the lock found it. */
  ghost function Found(d: Deployment, jobs: seq<Job>, s: Snapshot, w: World<Snapshot, Local>): Snapshot
    requires WellFormed(Processes(d, jobs), w) && w.order != []
  {
    Serial(Processes(d, jobs), w, s, w.order[..|w.order| - 1])
  }

  lemma SerialStep(d: Deployment, jobs: seq<Job>, w: World<Snapshot, Local>, s: Snapshot, order: seq<nat>)
    requires WellFormed(Processes(d, jobs), w) && order != [] && forall i :: 0 <= i < |order| ==> order[i] < |jobs|
    ensures var p := order[|order| - 1];
            && Ran(w.processes[p]) <= |COMMAND_MOVES|
            && Serial(Processes(d, jobs), w, s, order)
               == HostAfter(d, jobs[p], Ran(w.processes[p]), Serial(Processes(d, jobs), w, s, order[..|order| - 1]))
  {
    var p := order[|order| - 1];
    assert Processes(d, jobs)[p] == JobProcess(d, jobs[p]);
    AloneIsPlay(d, jobs[p], Ran(w.processes[p]), Serial(Processes(d, jobs), w, s, order[..|order| - 1]));
  }

  /**
   At every moment of every schedule, deaths included, the host is in a state of
   the history of one command, run from the state in which it got the lock.
   */
  lemma EveryMomentIsHistory(d: Deployment, jobs: seq<Job>, s: Snapshot, events: seq<Event>)
    ensures var w := Run(Processes(d, jobs), Start(s, |jobs|), events);
            && WellFormed(Processes(d, jobs), w) && (w.order == [] ==> w.shared == s)
            && (w.order != [] ==>
                  var p := w.order[|w.order| - 1];
                  var base := Found(d, jobs, s, w);
                  p < |jobs| && exists k :: 0 <= k <= |JobTrail(d, base, jobs[p])|
                                            && w.shared == EndOf(base, JobTrail(d, base, jobs[p])[..k]))
  {
    EveryScheduleIsSerial(Processes(d, jobs), s, events);
    var w := Run(Processes(d, jobs), Start(s, |jobs|), events);
    if w.order != [] {
      var p := w.order[|w.order| - 1];
      SerialStep(d, jobs, w, s, w.order);
      HostIsInTrail(d, jobs[p], Ran(w.processes[p]), Found(d, jobs, s, w));
    }
  }

  // --------------------------------------------------------------- the store

  /** `users.json` at any point of a command: the proposed list once the whole history of a publishing command is made. */
  lemma StoreInTrail(d: Deployment, s: Snapshot, inv: Invocation, k: nat)
    requires k <= |CommandTrail(d, s, inv)|
    ensures LoadUsers(EndOf(s, CommandTrail(d, s, inv)[..k]).files)
         == (if k == |CommandTrail(d, s, inv)| && Published(CommandVerdict(d, s, inv)) then Proposed(s, inv.op) else LoadUsers(s.files))
  {
    var trail := CommandTrail(d, s, inv);
    if k == |trail| {
      assert trail[..k] == trail;
      CommandCommits(d, s, inv);
    } else if k > 0 {
      UnpublishedPart(d, s, inv, k - 1);
    }
  }

  /** Before its last state, and in all of them if it does not publish, a command leaves `users.json` alone. */
  lemma UnpublishedPart(d: Deployment, s: Snapshot, inv: Invocation, i: nat)
    requires i + 1 < |CommandTrail(d, s, inv)|
    ensures SameAt(CommandTrail(d, s, inv)[i].files, s.files, UsersJson)
  {
    var previous, users := LoadUsers(s.files).value, Proposed(s, inv.op).value;
    var first := ApplyTrail(d, s, users, true, inv.a);
    var rest := MutationTrail(d, s, previous, users, inv.a, inv.save, inv.b)[|first|..];
    ApplyFramed(d, s, users, true, inv.a);
    ApplyFramed(d, EndOf(s, first), previous, true, inv.b);
    assert CommandTrail(d, s, inv) == first + rest;
    JoinKeepsStore(s, first, rest, i);
  }

  lemma JoinKeepsStore(s: Snapshot, first: seq<Snapshot>, rest: seq<Snapshot>, i: nat)
    requires AllFramed(s, first) && Frame(s, EndOf(s, first)) && (|rest| <= 1 || AllFramed(EndOf(s, first), rest))
    requires i + 1 < |first + rest|
    ensures SameAt((first + rest)[i].files, s.files, UsersJson)
  {
    if i < |first| {
      FramedKeepsStore(s, first, i);
    } else {
      FramedKeepsStore(EndOf(s, first), rest, i - |first|);
      assert SameAt(EndOf(s, first).files, s.files, UsersJson);
    }
  }

  lemma FramedKeepsStore(s: Snapshot, trail: seq<Snapshot>, i: nat)
    requires AllFramed(s, trail) && i < |trail|
    ensures SameAt(trail[i].files, s.files, UsersJson)
  {
    assert Frame(s, trail[i]);
  }

  predicate JobPublished(r: JobResult) {
    r.UserEnd? && Published(r.user)
  }

  /** The list a job has in mind: the proposed one, or for a reconcile the one on disk. */
  function JobProposed(s: Snapshot, job: Job): Option<seq<CompatUser>> {
    match job
    case Mutate(inv) => Proposed(s, inv.op)
    case Render(_) => LoadUsers(s.files)
  }

  lemma JobStoreInTrail(d: Deployment, s: Snapshot, job: Job, k: nat)
    requires k <= |JobTrail(d, s, job)|
    ensures LoadUsers(EndOf(s, JobTrail(d, s, job)[..k]).files)
         == (if k == |JobTrail(d, s, job)| && JobPublished(JobVerdict(d, s, job)) then JobProposed(s, job) else LoadUsers(s.files))
  {
    if job.Mutate? {
      StoreInTrail(d, s, job.inv, k);
    } else if LoadUsers(s.files).Some? && k > 0 {
      var trail := JobTrail(d, s, job);
      ApplyFramed(d, s, LoadUsers(s.files).value, false, job.a);
      FramedKeepsStore(s, trail, k - 1);
      assert EndOf(s, trail[..k]) == trail[k - 1];
    }
  }

  /** What a committed command makes of a list; an operation that is not possible leaves it alone. */
  function Effect(users: seq<CompatUser>, op: UserOp): seq<CompatUser> {
    if ApplyOp(users, op).Some? then ApplyOp(users, op).value else users
  }

  function ApplyAll(users: seq<CompatUser>, ops: seq<UserOp>): seq<CompatUser> {
    if ops == [] then users else Effect(ApplyAll(users, ops[..|ops| - 1]), ops[|ops| - 1])
  }

  /** The command has published its list within its first `n` steps. */
  predicate SavedBy(d: Deployment, job: Job, n: nat, s: Snapshot)
    requires n <= |COMMAND_MOVES|
  {
    Made(d, job, n, s) == |JobTrail(d, s, job)| && JobPublished(JobVerdict(d, s, job))
  }

  /** The operation of a user command; a reconcile has none. */
  function OpsOf(job: Job): seq<UserOp> {
    if job.Mutate? then [job.inv.op] else []
  }

  /** The operations of the processes that have published, in lock order. */
  ghost function SavedOps(d: Deployment, jobs: seq<Job>, w: World<Snapshot, Local>, s: Snapshot, order: seq<nat>): seq<UserOp>
    requires WellFormed(Processes(d, jobs), w) && forall i :: 0 <= i < |order| ==> order[i] < |jobs|
  {
    if order == [] then []
    else
      var front, p := order[..|order| - 1], order[|order| - 1];
      var base := Serial(Processes(d, jobs), w, s, front);
      SavedOps(d, jobs, w, s, front)
      + (if Ran(w.processes[p]) <= |COMMAND_MOVES| && SavedBy(d, jobs[p], Ran(w.processes[p]), base) then OpsOf(jobs[p]) else [])
  }

  lemma StoreAfterSteps(d: Deployment, job: Job, n: nat, s: Snapshot)
    requires n <= |COMMAND_MOVES|
    ensures LoadUsers(HostAfter(d, job, n, s).files) == (if SavedBy(d, job, n, s) then JobProposed(s, job) else LoadUsers(s.files))
  {
    HostIsInTrail(d, job, n, s);
    JobStoreInTrail(d, s, job, Made(d, job, n, s));
  }

  lemma {:induction false} StoreIsSavedOps(
    d: Deployment, jobs: seq<Job>, w: World<Snapshot, Local>, s: Snapshot, order: seq<nat>)
    requires WellFormed(Processes(d, jobs), w) && LoadUsers(s.files).Some?
    requires forall i :: 0 <= i < |order| ==> order[i] < |jobs|
    ensures LoadUsers(Serial(Processes(d, jobs), w, s, order).files)
         == Some(ApplyAll(LoadUsers(s.files).value, SavedOps(d, jobs, w, s, order)))
  {
    if order != [] {
      var front, p := order[..|order| - 1], order[|order| - 1];
      var base := Serial(Processes(d, jobs), w, s, front);
      StoreIsSavedOps(d, jobs, w, s, front);
      SerialStep(d, jobs, w, s, order);
      StoreAfterSteps(d, jobs[p], Ran(w.processes[p]), base);
      var saved, before := SavedOps(d, jobs, w, s, order), SavedOps(d, jobs, w, s, front);
      if SavedBy(d, jobs[p], Ran(w.processes[p]), base) {
        PublishedWasProposed(d, jobs[p], base);
        assert saved == before + [jobs[p].inv.op] && saved[..|saved| - 1] == before;
      } else {
        assert saved == before;
      }
    }
  }

  lemma PublishedWasProposed(d: Deployment, job: Job, s: Snapshot)
    requires JobPublished(JobVerdict(d, s, job))
    ensures job.Mutate? && Proposed(s, job.inv.op).Some?
  {}

  lemma {:induction false} ApplyAllKeepsIdsDistinct(users: seq<CompatUser>, ops: seq<UserOp>)
    requires DistinctIds(users)
    ensures DistinctIds(ApplyAll(users, ops))
  {
    if ops != [] {
      var front := ops[..|ops| - 1];
      ApplyAllKeepsIdsDistinct(users, front);
      OpsKeepIdsDistinct(ApplyAll(users, front), ops[|ops| - 1]);
    }
  }

  /**
   At every moment of every interleaving, deaths included, the list a lock-free
   reader sees is the outcome of whole commands: those that published so far,
   one after another in lock order. Its ids are pairwise distinct.
   */
  lemma ReadersSeeWholeCommands(d: Deployment, jobs: seq<Job>, s: Snapshot, events: seq<Event>)
    requires IdsDistinct(s)
    ensures var w := Run(Processes(d, jobs), Start(s, |jobs|), events);
            && WellFormed(Processes(d, jobs), w) && (forall i :: 0 <= i < |w.order| ==> w.order[i] < |jobs|)
            && LoadUsers(w.shared.files) == Some(ApplyAll(LoadUsers(s.files).value, SavedOps(d, jobs, w, s, w.order)))
            && IdsDistinct(w.shared)
  {
    EveryScheduleIsSerial(Processes(d, jobs), s, events);
    var w := Run(Processes(d, jobs), Start(s, |jobs|), events);
    StoreIsSavedOps(d, jobs, w, s, w.order);
    ApplyAllKeepsIdsDistinct(LoadUsers(s.files).value, SavedOps(d, jobs, w, s, w.order));
  }

  /** The operations of the user commands, in lock order. */
  function OpsInOrder(jobs: seq<Job>, order: seq<nat>): seq<UserOp>
    requires forall i :: 0 <= i < |order| ==> order[i] < |jobs|
  {
    if order == [] then [] else OpsInOrder(jobs, order[..|order| - 1]) + OpsOf(jobs[order[|order| - 1]])
  }

  lemma OneMoreOp(jobs: seq<Job>, order: seq<nat>, i: nat)
    requires i < |order| && forall j :: 0 <= j < |order| ==> order[j] < |jobs|
    ensures OpsInOrder(jobs, order[..i + 1]) == OpsInOrder(jobs, order[..i]) + OpsOf(jobs[order[i]])
  {
    var front := order[..i + 1];
    assert front[..i] == order[..i] && front[|front| - 1] == order[i];
  }

  /** The process in place `i` of the lock order has published, if it is a user command. */
  ghost predicate SavedAt(d: Deployment, jobs: seq<Job>, w: World<Snapshot, Local>, s: Snapshot, order: seq<nat>, i: nat)
    requires WellFormed(Processes(d, jobs), w) && (forall j :: 0 <= j < |order| ==> order[j] < |jobs|) && i < |order|
  {
    jobs[order[i]].Mutate? ==>
      && Ran(w.processes[order[i]]) <= |COMMAND_MOVES|
      && SavedBy(d, jobs[order[i]], Ran(w.processes[order[i]]), Serial(Processes(d, jobs), w, s, order[..i]))
  }

  lemma {:induction false} AllSaved(
    d: Deployment, jobs: seq<Job>, w: World<Snapshot, Local>, s: Snapshot, order: seq<nat>, k: nat)
    requires WellFormed(Processes(d, jobs), w) && (forall j :: 0 <= j < |order| ==> order[j] < |jobs|) && k <= |order|
    requires forall i {:trigger SavedAt(d, jobs, w, s, order, i)} :: 0 <= i < |order| ==> SavedAt(d, jobs, w, s, order, i)
    ensures SavedOps(d, jobs, w, s, order[..k]) == OpsInOrder(jobs, order[..k])
  {
    if k > 0 {
      AllSaved(d, jobs, w, s, order, k - 1);
      assert SavedAt(d, jobs, w, s, order, k - 1);
      OneMoreSaved(d, jobs, w, s, order, k - 1);
      OneMoreOp(jobs, order, k - 1);
    }
  }

  lemma OneMoreSaved(d: Deployment, jobs: seq<Job>, w: World<Snapshot, Local>, s: Snapshot, order: seq<nat>, i: nat)
    requires WellFormed(Processes(d, jobs), w) && forall j :: 0 <= j < |order| ==> order[j] < |jobs|
    requires i < |order| && SavedAt(d, jobs, w, s, order, i)
    ensures SavedOps(d, jobs, w, s, order[..i + 1]) == SavedOps(d, jobs, w, s, order[..i]) + OpsOf(jobs[order[i]])
  {
    var front := order[..i + 1];
    assert front[..i] == order[..i] && front[|front| - 1] == order[i];
  }

  /**
   No update is lost: once every process has had the lock and every user command
   published, the list is all of them applied, once each, in the order they got
   the lock, whatever reconciles ran in between.
   */
  lemma NoUpdateLost(d: Deployment, jobs: seq<Job>, s: Snapshot, events: seq<Event>)
    requires IdsDistinct(s)
    requires var w := Run(Processes(d, jobs), Start(s, |jobs|), events);
             && WellFormed(Processes(d, jobs), w) && (forall p :: 0 <= p < |jobs| ==> !w.processes[p].Waiting?)
             && (forall i :: 0 <= i < |w.order| ==> w.order[i] < |jobs|)
             && forall i {:trigger SavedAt(d, jobs, w, s, w.order, i)} :: 0 <= i < |w.order| ==> SavedAt(d, jobs, w, s, w.order, i)
    ensures var w := Run(Processes(d, jobs), Start(s, |jobs|), events);
            && (forall i, j :: 0 <= i < j < |w.order| ==> w.order[i] != w.order[j])
            && (forall p :: 0 <= p < |jobs| ==> p in w.order)
            && LoadUsers(w.shared.files) == Some(ApplyAll(LoadUsers(s.files).value, OpsInOrder(jobs, w.order)))
  {
    EveryScheduleIsSerial(Processes(d, jobs), s, events);
    ReadersSeeWholeCommands(d, jobs, s, events);
    AllSavedOps(d, jobs, Run(Processes(d, jobs), Start(s, |jobs|), events), s);
  }

  lemma AllSavedOps(d: Deployment, jobs: seq<Job>, w: World<Snapshot, Local>, s: Snapshot)
    requires WellFormed(Processes(d, jobs), w) && forall j :: 0 <= j < |w.order| ==> w.order[j] < |jobs|
    requires forall i {:trigger SavedAt(d, jobs, w, s, w.order, i)} :: 0 <= i < |w.order| ==> SavedAt(d, jobs, w, s, w.order, i)
    ensures SavedOps(d, jobs, w, s, w.order) == OpsInOrder(jobs, w.order)
  {
    AllSaved(d, jobs, w, s, w.order, |w.order|);
    assert w.order[..|w.order|] == w.order;
  }

  // ------------------------------------------------------------- never ahead

  /** This one change of the host does not put the store ahead of the server. */
  ghost predicate ChangeInOrder(d: Deployment, base: Snapshot, x: Snapshot, y: Snapshot, inv: Invocation) {
    || x == y
    || (inv.op.RotateToken? && SameAuthorization(d, x, y))
    || (Proposed(base, inv.op).Some? && PublishedAfterLoad(d, x, y, Proposed(base, inv.op).value, inv.a.now))
  }

  lemma MadeInOrder(d: Deployment, inv: Invocation, s: Snapshot, trail: seq<Snapshot>, m: nat, n: nat)
    requires m <= n <= m + 1 && n <= |trail| && CommandInOrder(d, s, trail, inv)
    ensures ChangeInOrder(d, s, EndOf(s, trail[..m]), EndOf(s, trail[..n]), inv)
  {
    if m < n {
      TrailStepInOrder(d, inv, s, trail, m);
    }
  }

  lemma TrailStepInOrder(d: Deployment, inv: Invocation, s: Snapshot, trail: seq<Snapshot>, k: nat)
    requires k < |trail| && CommandInOrder(d, s, trail, inv)
    ensures ChangeInOrder(d, s, EndOf(s, trail[..k]), EndOf(s, trail[..k + 1]), inv)
  {
    assert EndOf(s, trail[..k]) == Before(s, trail, k);
    assert EndOf(s, trail[..k + 1]) == trail[k];
  }

  /** The same of any job: a reconcile leaves `users.json` alone. */
  ghost predicate JobChangeInOrder(d: Deployment, base: Snapshot, x: Snapshot, y: Snapshot, job: Job) {
    match job
    case Mutate(inv) => ChangeInOrder(d, base, x, y, inv)
    case Render(_) => SameAt(y.files, x.files, UsersJson)
  }

  /** The job publishes before the server has loaded its list; a reconcile publishes nothing. */
  predicate JobEarly(d: Deployment, s: Snapshot, job: Job) {
    job.Mutate? && CommandEarly(d, s, job.inv)
  }

  predicate JobLive(job: Job) {
    job.Mutate? ==> IsLive(job.inv)
  }

  predicate JobSteady(job: Job) {
    job.Mutate? ==> Steady(job.inv.a)
  }

  lemma StepInOrder(d: Deployment, job: Job, n: nat, s: Snapshot)
    requires n < |COMMAND_MOVES| && JobLive(job) && !JobEarly(d, s, job)
    ensures JobChangeInOrder(d, s, HostAfter(d, job, n, s), HostAfter(d, job, n + 1, s), job)
  {
    OneMoreMove(d, job, COMMAND_MOVES, n, s);
    HostIsInTrail(d, job, n, s);
    HostIsInTrail(d, job, n + 1, s);
    if job.Mutate? {
      CommandInOrderIff(d, s, job.inv);
      MadeInOrder(d, job.inv, s, JobTrail(d, s, job), Made(d, job, n, s), Made(d, job, n + 1, s));
    } else {
      RenderKeepsStore(d, s, job.a, Made(d, job, n, s));
      RenderKeepsStore(d, s, job.a, Made(d, job, n + 1, s));
    }
  }

  lemma RenderKeepsStore(d: Deployment, s: Snapshot, a: ApplyAnswers, k: nat)
    requires k <= |JobTrail(d, s, Render(a))|
    ensures SameAt(EndOf(s, JobTrail(d, s, Render(a))[..k]).files, s.files, UsersJson)
  {
    if LoadUsers(s.files).Some? && k > 0 {
      var trail := JobTrail(d, s, Render(a));
      ApplyFramed(d, s, LoadUsers(s.files).value, false, a);
      FramedKeepsStore(s, trail, k - 1);
      assert EndOf(s, trail[..k]) == trail[k - 1];
    }
  }

  /**
   In every schedule of live commands, every step any process takes keeps
   `users.json` behind the server, unless that process got the lock in a state
   from which its command publishes early.
   */
  lemma ScheduleNeverAhead(d: Deployment, jobs: seq<Job>, s: Snapshot, events: seq<Event>, p: nat)
    requires p < |jobs| && JobLive(jobs[p])
    ensures var w := Run(Processes(d, jobs), Start(s, |jobs|), events);
            var w' := Run(Processes(d, jobs), Start(s, |jobs|), events + [Step(p)]);
            && WellFormed(Processes(d, jobs), w)
            && (w'.shared != w.shared ==>
                  && w.order != [] && w.order[|w.order| - 1] == p
                  && (!JobEarly(d, Found(d, jobs, s, w), jobs[p]) ==>
                        JobChangeInOrder(d, Found(d, jobs, s, w), w.shared, w'.shared, jobs[p])))
            && (w.order != [] && StampSound(Found(d, jobs, s, w)) && JobSteady(jobs[p]) ==>
                  !JobEarly(d, Found(d, jobs, s, w), jobs[p]))
  {
    var cmds := Processes(d, jobs);
    EveryScheduleIsSerial(cmds, s, events);
    var w := Run(cmds, Start(s, |jobs|), events);
    assert (events + [Step(p)])[..|events|] == events;
    StepNeverAhead(d, jobs, s, w, p);
    if w.order != [] && StampSound(Found(d, jobs, s, w)) && JobSteady(jobs[p]) {
      SoundJobIsNotEarly(d, Found(d, jobs, s, w), jobs[p]);
    }
  }

  lemma SoundIsNotEarly(d: Deployment, s: Snapshot, inv: Invocation)
    requires StampSound(s) && Steady(inv.a)
    ensures !CommandEarly(d, s, inv)
  {
    if Proposed(s, inv.op).Some? {
      SoundNeverEarly(d, s, Proposed(s, inv.op).value, inv.a, inv.save);
    }
  }

  lemma SoundJobIsNotEarly(d: Deployment, s: Snapshot, job: Job)
    requires StampSound(s) && JobSteady(job)
    ensures !JobEarly(d, s, job)
  {
    if job.Mutate? {
      SoundIsNotEarly(d, s, job.inv);
    }
  }

  /** No reload fails, and the stamp is safe for the document the job renders. */
  predicate SafeJob(d: Deployment, s: Snapshot, job: Job) {
    match job
    case Mutate(inv) => SafeCommand(d, s, inv)
    case Render(a) => Forward(a) && (LoadUsers(s.files).Some? ==> SwapSafeFor(d, s, LoadUsers(s.files).value, a))
  }

  lemma SafeJobSound(d: Deployment, s: Snapshot, job: Job)
    requires StampSound(s) && SafeJob(d, s, job)
    ensures AllSound(JobTrail(d, s, job))
  {
    if job.Mutate? {
      SafeCommandSound(d, s, job.inv);
    } else if LoadUsers(s.files).Some? {
      ApplySound(d, s, LoadUsers(s.files).value, false, job.a);
    }
  }

  /** The process in place `i` of the lock order found a host its command is safe on. */
  ghost predicate SafeAt(d: Deployment, jobs: seq<Job>, w: World<Snapshot, Local>, s: Snapshot, order: seq<nat>, i: nat)
    requires WellFormed(Processes(d, jobs), w) && (forall j :: 0 <= j < |order| ==> order[j] < |jobs|) && i < |order|
  {
    SafeJob(d, Serial(Processes(d, jobs), w, s, order[..i]), jobs[order[i]])
  }

  lemma {:induction false} SerialIsSound(
    d: Deployment, jobs: seq<Job>, w: World<Snapshot, Local>, s: Snapshot, order: seq<nat>, k: nat)
    requires WellFormed(Processes(d, jobs), w) && (forall j :: 0 <= j < |order| ==> order[j] < |jobs|) && k <= |order|
    requires StampSound(s)
    requires forall i {:trigger SafeAt(d, jobs, w, s, order, i)} :: 0 <= i < k ==> SafeAt(d, jobs, w, s, order, i)
    ensures StampSound(Serial(Processes(d, jobs), w, s, order[..k]))
  {
    if k > 0 {
      SerialIsSound(d, jobs, w, s, order, k - 1);
      assert SafeAt(d, jobs, w, s, order, k - 1);
      assert order[..k][..k - 1] == order[..k - 1] && order[..k][k - 1] == order[k - 1];
      SerialStep(d, jobs, w, s, order[..k]);
      SoundAfterSteps(d, jobs[order[k - 1]], Ran(w.processes[order[k - 1]]), Serial(Processes(d, jobs), w, s, order[..k - 1]));
    }
  }

  lemma SoundAfterSteps(d: Deployment, job: Job, n: nat, s: Snapshot)
    requires n <= |COMMAND_MOVES| && StampSound(s) && SafeJob(d, s, job)
    ensures StampSound(HostAfter(d, job, n, s))
  {
    HostIsInTrail(d, job, n, s);
    SafeJobSound(d, s, job);
  }

  /**
   From a sound stamp, while every command finds a host it is safe on, the
   shortcut is sound at every moment of every schedule, wherever processes die;
   so the next command to get the lock is not early.
   */
  lemma ScheduleStaysSound(d: Deployment, jobs: seq<Job>, s: Snapshot, events: seq<Event>)
    requires StampSound(s)
    requires var w := Run(Processes(d, jobs), Start(s, |jobs|), events);
             && WellFormed(Processes(d, jobs), w) && (forall i :: 0 <= i < |w.order| ==> w.order[i] < |jobs|)
             && forall i {:trigger SafeAt(d, jobs, w, s, w.order, i)} :: 0 <= i < |w.order| ==> SafeAt(d, jobs, w, s, w.order, i)
    ensures var w := Run(Processes(d, jobs), Start(s, |jobs|), events);
            StampSound(w.shared) && forall p :: 0 <= p < |jobs| && JobSteady(jobs[p]) ==> !JobEarly(d, w.shared, jobs[p])
  {
    EveryScheduleIsSerial(Processes(d, jobs), s, events);
    var w := Run(Processes(d, jobs), Start(s, |jobs|), events);
    SerialIsSound(d, jobs, w, s, w.order, |w.order|);
    assert w.order[..|w.order|] == w.order;
    forall p | 0 <= p < |jobs| && JobSteady(jobs[p]) ensures !JobEarly(d, w.shared, jobs[p]) {
      SoundJobIsNotEarly(d, w.shared, jobs[p]);
    }
  }

  lemma StepNeverAhead(d: Deployment, jobs: seq<Job>, s: Snapshot, w: World<Snapshot, Local>, p: nat)
    requires p < |jobs| && JobLive(jobs[p]) && Serialized(Processes(d, jobs), s, w)
    ensures var w' := Next(Processes(d, jobs), w, Step(p));
            w'.shared != w.shared ==>
              && w.order != [] && w.order[|w.order| - 1] == p
              && (!JobEarly(d, Found(d, jobs, s, w), jobs[p]) ==>
                    JobChangeInOrder(d, Found(d, jobs, s, w), w.shared, w'.shared, jobs[p]))
  {
    if Next(Processes(d, jobs), w, Step(p)).shared != w.shared {
      HolderStep(d, jobs, s, w, p);
      if !JobEarly(d, Found(d, jobs, s, w), jobs[p]) {
        StepInOrder(d, jobs[p], w.processes[p].pc, Found(d, jobs, s, w));
      }
    }
  }

  /** A step of the lock holder is the next step of its command from where it found the host. */
  lemma HolderStep(d: Deployment, jobs: seq<Job>, s: Snapshot, w: World<Snapshot, Local>, p: nat)
    requires p < |jobs| && Serialized(Processes(d, jobs), s, w) && w.processes[p].Running?
    requires w.processes[p].pc < |Processes(d, jobs)[p].steps|
    ensures w.order != [] && w.order[|w.order| - 1] == p && w.processes[p].pc < |COMMAND_MOVES|
    ensures w.shared == HostAfter(d, jobs[p], w.processes[p].pc, Found(d, jobs, s, w))
    ensures Next(Processes(d, jobs), w, Step(p)).shared == HostAfter(d, jobs[p], w.processes[p].pc + 1, Found(d, jobs, s, w))
  {
    var cmds, pc := Processes(d, jobs), w.processes[p].pc;
    var base := Found(d, jobs, s, w);
    assert cmds[p] == JobProcess(d, jobs[p]);
    AloneIsPlay(d, jobs[p], pc, base);
    AloneIsPlay(d, jobs[p], pc + 1, base);
    assert Alone(cmds[p], pc, base) == (w.shared, w.processes[p].local);
  }

  // -------------------------------------------------------------- reconciles

  /**
   In every schedule, a reconcile that was the last to get the lock, made all its
   steps and reports "applied" tells the truth about the host the others left it,
   unless it took the no-reload shortcut on an unsound stamp: both ways.
   */
  lemma ScheduleReconcileTruth(d: Deployment, jobs: seq<Job>, s: Snapshot, events: seq<Event>, p: nat)
    requires var w := Run(Processes(d, jobs), Start(s, |jobs|), events);
             && WellFormed(Processes(d, jobs), w) && w.order != [] && w.order[|w.order| - 1] == p < |jobs|
             && jobs[p].Render? && Ran(w.processes[p]) == |COMMAND_MOVES|
             && JobVerdict(d, Found(d, jobs, s, w), jobs[p]) == RenderEnd(Some(Live))
    ensures var w := Run(Processes(d, jobs), Start(s, |jobs|), events);
            ReportTrueUnlessMisled(d, Found(d, jobs, s, w), w.shared, jobs[p].a)
  {
    EveryScheduleIsSerial(Processes(d, jobs), s, events);
    var w := Run(Processes(d, jobs), Start(s, |jobs|), events);
    var base := Found(d, jobs, s, w);
    SerialStep(d, jobs, w, s, w.order);
    RenderToEnd(d, base, jobs[p].a);
  }

  lemma RenderToEnd(d: Deployment, s: Snapshot, a: ApplyAnswers)
    requires JobVerdict(d, s, Render(a)) == RenderEnd(Some(Live))
    ensures ReportTrueUnlessMisled(d, s, HostAfter(d, Render(a), |COMMAND_MOVES|, s), a)
  {
    var users, trail := LoadUsers(s.files).value, JobTrail(d, s, Render(a));
    HostIsInTrail(d, Render(a), |COMMAND_MOVES|, s);
    assert trail[..|trail|] == trail;
    ApplyEnds(d, s, users, false, a);
    ReconcileOutcome(d, s, EndOf(s, trail), users, a, Live);
  }
}
