/**
 A user command, or a reconcile, as the steps a process takes between two
 scheduling points. Each step reads the host as it finds it and changes at most
 one file or service; what a command remembers between steps is its own.
 */
module CommandSteps {
  import opened Wrappers
  import opened CompatModel
  import opened ServerRender
  import opened Hosts
  import opened ConfigApply
  import opened UserOps
  import opened UserMutation
  import opened UserRuns

  /** What a process runs: a user command, or `render-config`. */
  datatype Job = Mutate(inv: Invocation) | Render(a: ApplyAnswers)

  datatype JobResult = UserEnd(user: CommandResult) | RenderEnd(applied: Option<ApplyResult>)

  /** The states a job passes through, in order. */
  function JobTrail(d: Deployment, s: Snapshot, job: Job): seq<Snapshot> {
    match job
    case Mutate(inv) => CommandTrail(d, s, inv)
    case Render(a) => if LoadUsers(s.files).None? then [] else ApplyTrail(d, s, LoadUsers(s.files).value, false, a)
  }

  function JobVerdict(d: Deployment, s: Snapshot, job: Job): JobResult {
    match job
    case Mutate(inv) => UserEnd(CommandVerdict(d, s, inv))
    case Render(a) =>
      RenderEnd(if LoadUsers(s.files).None? then None else Some(ApplyVerdict(d, s, LoadUsers(s.files).value, false, a)))
  }

  /** The answers the apply under way gets. */
  function AnswersFor(job: Job, back: bool): ApplyAnswers {
    match job
    case Mutate(inv) => if back then inv.b else inv.a
    case Render(a) => a
  }

  datatype Move =
    | Load | Plan | KeepOpen | KeepClose | Rename | Reload | RecoverOpen | RecoverClose | RecoverReload | StampIt | Save | Close

  /** Where a command stands: an apply is pending, under way, being recovered from, or judged. */
  datatype Stage =
    | Unloaded | Pending | Applying(doc: ServerConfig) | Recovering(rejected: bool) | Judged(verdict: ApplyResult) | Ended(result: JobResult)

  /** `back` is set during the compensating apply; `trail` is every state the command has made. */
  datatype Local = Local(previous: seq<CompatUser>, users: seq<CompatUser>, back: bool, stage: Stage, trail: seq<Snapshot>)

  const FRESH_LOCAL := Local([], [], false, Unloaded, [])

  const SWAP_MOVES: seq<Move> := [KeepOpen, KeepClose, Rename]
  const RECOVER_MOVES: seq<Move> := [RecoverOpen, RecoverClose, RecoverReload]
  const LOAD_MOVES: seq<Move> := [Reload] + RECOVER_MOVES + [StampIt]
  const APPLY_MOVES: seq<Move> := [Plan] + SWAP_MOVES + LOAD_MOVES
  const COMMAND_MOVES: seq<Move> := [Load] + APPLY_MOVES + [Save] + APPLY_MOVES + [Close]

  /** Changes the host to `t`. */
  function Act(t: Snapshot, l: Local, stage: Stage): (Snapshot, Local) {
    (t, l.(stage := stage, trail := l.trail + [t]))
  }

  /** Changes the mind of the command only. */
  function Rest(s: Snapshot, l: Local, stage: Stage): (Snapshot, Local) {
    (s, l.(stage := stage))
  }

  function DoLoad(job: Job, s: Snapshot, l: Local): (Snapshot, Local) {
    var loaded := LoadUsers(s.files);
    match job
    case Mutate(inv) =>
      if loaded.None? then Rest(s, l, Ended(UserEnd(StoreUnreadable)))
      else if ApplyOp(loaded.value, inv.op).None? then Rest(s, l, Ended(UserEnd(NoSuchUser)))
      else (s, l.(previous := loaded.value, users := ApplyOp(loaded.value, inv.op).value,
                  stage := if inv.op.RotateToken? then Judged(Live) else Pending))
    case Render(_) =>
      if loaded.None? then Rest(s, l, Ended(RenderEnd(None)))
      else (s, l.(previous := loaded.value, users := loaded.value, stage := Pending))
  }

  function DoPlan(d: Deployment, a: ApplyAnswers, requireLive: bool, s: Snapshot, l: Local): (Snapshot, Local) {
    var doc := DocFor(d, s.files, if l.back then l.previous else l.users, a.now);
    var refused := RefusedApply(doc, requireLive, a);
    if refused.Some? then Rest(s, l, Judged(refused.value))
    else if AlreadyCurrent(s, doc.value, a) then Rest(s, l, Judged(Live))
    else if !a.swap.stage || !a.swap.check then Rest(s, l, Judged(Failed(NotSwapped)))
    else Rest(s, l, Applying(doc.value))
  }

  function DoSwap(a: ApplyAnswers, move: Move, s: Snapshot, l: Local, doc: ServerConfig): (Snapshot, Local) {
    match move
    case KeepOpen =>
      if ConfigJson !in s.files then (s, l)
      else if a.swap.backup.CopyRefused? then Rest(s, l, Judged(Failed(NotSwapped)))
      else Act(With(s, ConfigBak, Torn), l, l.stage)
    case KeepClose =>
      if ConfigJson !in s.files then (s, l)
      else if a.swap.backup.CopyBroken? then Rest(s, l, Judged(Failed(NotSwapped)))
      else Act(With(s, ConfigBak, s.files[ConfigJson]), l, if a.swap.backupMode then l.stage else Judged(Failed(NotSwapped)))
    case Rename =>
      if !a.swap.install then Rest(s, l, Judged(Failed(NotSwapped)))
      else Act(With(s, ConfigJson, Config(doc)), l, if a.afterSwap then l.stage else Judged(NotLive))
    case Reload =>
      Act(Reloaded(s, a.reload), l, if Forward(a) then l.stage else Recovering(a.reload))
    case StampIt =>
      if !a.stamp then Rest(s, l, Judged(Failed(StampFailed)))
      else Act(With(s, AppliedStamp, Stamp(doc)), l, Judged(Live))
    case _ => (s, l)
  }

  function GivenUp(rejected: bool, recovered: bool): Stage {
    Judged(Failed(if rejected then HandshakeRejected(recovered) else ReloadFailed(recovered)))
  }

  function DoRecover(a: ApplyAnswers, move: Move, s: Snapshot, l: Local, rejected: bool): (Snapshot, Local) {
    match move
    case RecoverOpen =>
      if ConfigBak !in s.files || a.recoverCopy.CopyRefused? then Rest(s, l, GivenUp(rejected, false))
      else Act(With(s, ConfigJson, Torn), l, l.stage)
    case RecoverClose =>
      if ConfigBak !in s.files || a.recoverCopy.CopyBroken? then Rest(s, l, GivenUp(rejected, false))
      else Act(With(s, ConfigJson, s.files[ConfigBak]), l, l.stage)
    case RecoverReload => Act(Reloaded(s, a.recoverReload), l, GivenUp(rejected, a.recoverReload))
    case _ => (s, l)
  }

  function DoSave(inv: Invocation, s: Snapshot, l: Local, r: ApplyResult): (Snapshot, Local) {
    if r.Failed? then Rest(s, l, Ended(UserEnd(Mutated(NotApplied(r.why)))))
    else if inv.save then
      Act(With(s, UsersJson, Envelope(USERS_SCHEMA_VERSION, l.users)), l,
        Ended(UserEnd(if inv.op.RotateToken? then TokenSaved else Mutated(Done(r.Live?)))))
    else if inv.op.RotateToken? then Rest(s, l, Ended(UserEnd(TokenNotSaved)))
    else (s, l.(back := true, stage := Pending))
  }

  /** One step of the job; a step that is not its turn does nothing. */
  function Do(d: Deployment, job: Job, move: Move, s: Snapshot, l: Local): (Snapshot, Local) {
    var a := AnswersFor(job, l.back);
    match l.stage
    case Unloaded => if move.Load? then DoLoad(job, s, l) else (s, l)
    case Pending => if move.Plan? then DoPlan(d, a, job.Mutate?, s, l) else (s, l)
    case Applying(doc) => DoSwap(a, move, s, l, doc)
    case Recovering(rejected) => DoRecover(a, move, s, l, rejected)
    case Judged(r) =>
      if move.Save? && !l.back then
        match job {
          case Mutate(inv) => DoSave(inv, s, l, r)
          case Render(_) => Rest(s, l, Ended(RenderEnd(Some(r))))
        }
      else if move.Close? && l.back then Rest(s, l, Ended(UserEnd(Mutated(NotSaved(FailureOf(r))))))
      else (s, l)
    case Ended(_) => (s, l)
  }

  function Play(d: Deployment, job: Job, moves: seq<Move>, s: Snapshot, l: Local): (Snapshot, Local) {
    if moves == [] then (s, l)
    else
      var (s', l') := Play(d, job, moves[..|moves| - 1], s, l);
      Do(d, job, moves[|moves| - 1], s', l')
  }

  lemma {:induction false} PlayJoin(d: Deployment, job: Job, x: seq<Move>, y: seq<Move>, s: Snapshot, l: Local)
    ensures Play(d, job, x + y, s, l) == Play(d, job, y, Play(d, job, x, s, l).0, Play(d, job, x, s, l).1)
    decreases |y|
  {
    if y == [] {
      assert x + y == x;
    } else {
      PlayJoin(d, job, x, y[..|y| - 1], s, l);
      FrontOfJoin(x, y);
    }
  }

  lemma PlayOne(d: Deployment, job: Job, move: Move, s: Snapshot, l: Local)
    ensures Play(d, job, [move], s, l) == Do(d, job, move, s, l)
  {
    assert [move][..0] == [];
  }

  lemma PlayThree(d: Deployment, job: Job, m0: Move, m1: Move, m2: Move, s: Snapshot, l: Local)
    ensures var (s1, l1) := Do(d, job, m0, s, l);
            var (s2, l2) := Do(d, job, m1, s1, l1);
            Play(d, job, [m0, m1, m2], s, l) == Do(d, job, m2, s2, l2)
  {
    var (s1, l1) := Do(d, job, m0, s, l);
    PlayOne(d, job, m0, s, l);
    PlayJoin(d, job, [m0], [m1], s, l);
    PlayOne(d, job, m1, s1, l1);
    assert [m0] + [m1] == [m0, m1] == [m0, m1, m2][..2];
  }

  // ------------------------------------------------- steps and trails agree

  /** A step leaves the host alone or extends the trail by the state it makes. */
  lemma DoGrows(d: Deployment, job: Job, move: Move, s: Snapshot, l: Local)
    ensures var (s', l') := Do(d, job, move, s, l);
            (s' == s && l'.trail == l.trail) || l'.trail == l.trail + [s']
  {}

  /** A judged apply and an ended command ignore the moves of an apply. */
  lemma {:induction false} PlayIdle(d: Deployment, job: Job, moves: seq<Move>, s: Snapshot, l: Local)
    requires l.stage.Judged? || l.stage.Ended?
    requires forall i :: 0 <= i < |moves| ==> !moves[i].Save? && !moves[i].Close?
    ensures Play(d, job, moves, s, l) == (s, l)
  {
    if moves != [] {
      PlayIdle(d, job, moves[..|moves| - 1], s, l);
    }
  }

  ghost predicate Follows(s: Snapshot, l: Local, out: (Snapshot, Local), trail: seq<Snapshot>, stage: Stage) {
    out == (EndOf(s, trail), l.(stage := stage, trail := l.trail + trail))
  }

  lemma TwoWrites(s: Snapshot, p: Path, c: Content)
    ensures With(With(s, p, Torn), p, c) == With(s, p, c)
  {
    assert s.files[p := Torn][p := c] == s.files[p := c];
  }

  /** The three moves of a swap make the states of `SwapTrail`. */
  lemma SwapPlays(d: Deployment, job: Job, a: ApplyAnswers, s: Snapshot, l: Local, doc: ServerConfig)
    requires a == AnswersFor(job, l.back) && l.stage == Applying(doc) && a.swap.stage && a.swap.check
    ensures Follows(s, l, Play(d, job, SWAP_MOVES, s, l), SwapTrail(s, doc, a.swap),
              if !SwapSucceeds(s.files, a.swap) then Judged(Failed(NotSwapped)) else if a.afterSwap then Applying(doc) else Judged(NotLive))
  {
    PlayThree(d, job, KeepOpen, KeepClose, Rename, s, l);
    var kept := if ConfigJson in s.files then CopyTrail(s, ConfigJson, ConfigBak, a.swap.backup) else [];
    var swapped := s.(files := Swapped(s.files, doc));
    assert SwapTrail(s, doc, a.swap) == kept + (if SwapSucceeds(s.files, a.swap) then [swapped] else []);
    assert kept + [] == kept && l.trail + [] == l.trail;
    assert l.trail + kept + [swapped] == l.trail + (kept + [swapped]);
    if ConfigJson in s.files {
      KeepPlays(d, job, a, s, l, doc);
    }
  }

  lemma KeepPlays(d: Deployment, job: Job, a: ApplyAnswers, s: Snapshot, l: Local, doc: ServerConfig)
    requires a == AnswersFor(job, l.back) && l.stage == Applying(doc) && ConfigJson in s.files
    ensures var (s1, l1) := Do(d, job, KeepOpen, s, l);
            Follows(s, l, Do(d, job, KeepClose, s1, l1), CopyTrail(s, ConfigJson, ConfigBak, a.swap.backup),
              if a.swap.backup.Copied? && a.swap.backupMode then l.stage else Judged(Failed(NotSwapped)))
  {
    TwoWrites(s, ConfigBak, s.files[ConfigJson]);
    assert l.trail + [] == l.trail;
    assert l.trail + [With(s, ConfigBak, Torn)] + [With(s, ConfigBak, s.files[ConfigJson])]
        == l.trail + [With(s, ConfigBak, Torn), With(s, ConfigBak, s.files[ConfigJson])];
  }

  /** The two moves of a recovery's copy. */
  lemma RecoverCopyPlays(d: Deployment, job: Job, a: ApplyAnswers, s: Snapshot, l: Local)
    requires a == AnswersFor(job, l.back) && l.stage.Recovering? && ConfigBak in s.files
    ensures var (s1, l1) := Do(d, job, RecoverOpen, s, l);
            Follows(s, l, Do(d, job, RecoverClose, s1, l1), CopyTrail(s, ConfigBak, ConfigJson, a.recoverCopy),
              if a.recoverCopy.Copied? then l.stage else GivenUp(l.stage.rejected, false))
  {
    TwoWrites(s, ConfigJson, s.files[ConfigBak]);
    assert l.trail + [] == l.trail;
    assert l.trail + [With(s, ConfigJson, Torn)] + [With(s, ConfigJson, s.files[ConfigBak])]
        == l.trail + [With(s, ConfigJson, Torn), With(s, ConfigJson, s.files[ConfigBak])];
  }

  /** The three moves of a recovery make the states of `RecoverTrail`. */
  lemma RecoverPlays(d: Deployment, job: Job, a: ApplyAnswers, s: Snapshot, l: Local)
    requires a == AnswersFor(job, l.back) && l.stage.Recovering?
    ensures Follows(s, l, Play(d, job, RECOVER_MOVES, s, l), RecoverTrail(s, a), GivenUp(l.stage.rejected, CanRecover(s, a)))
  {
    PlayThree(d, job, RecoverOpen, RecoverClose, RecoverReload, s, l);
    assert l.trail + [] == l.trail;
    if ConfigBak in s.files {
      RecoverCopyPlays(d, job, a, s, l);
      var copied := CopyTrail(s, ConfigBak, ConfigJson, a.recoverCopy);
      var reloaded := Reloaded(With(s, ConfigJson, s.files[ConfigBak]), a.recoverReload);
      assert copied + [] == copied;
      JoinIsAssociative(l.trail, copied, [reloaded]);
    }
  }

  /** What a load ends in. */
  function LoadStage(s: Snapshot, a: ApplyAnswers): Stage {
    if !a.reload then GivenUp(false, CanRecover(s, a))
    else if a.handshake.Rejected? then GivenUp(true, CanRecover(s, a))
    else if a.stamp then Judged(Live) else Judged(Failed(StampFailed))
  }

  lemma LoadPlays(d: Deployment, job: Job, a: ApplyAnswers, s: Snapshot, l: Local, doc: ServerConfig)
    requires a == AnswersFor(job, l.back) && l.stage == Applying(doc)
    ensures Follows(s, l, Play(d, job, LOAD_MOVES, s, l), LoadTrail(s, doc, a), LoadStage(s, a))
  {
    var t := Reloaded(s, a.reload);
    var (s1, l1) := Do(d, job, Reload, s, l);
    PlayOne(d, job, Reload, s, l);
    PlayJoin(d, job, [Reload], RECOVER_MOVES, s, l);
    PlayJoin(d, job, [Reload] + RECOVER_MOVES, [StampIt], s, l);
    var (s2, l2) := Play(d, job, RECOVER_MOVES, s1, l1);
    PlayOne(d, job, StampIt, s2, l2);
    if Forward(a) {
      ForwardSkipsRecovery(d, job, s1, l1);
      assert [t] + [] == [t];
      assert a.stamp ==> l.trail + [t] + [With(t, AppliedStamp, Stamp(doc))] == l.trail + ([t] + [With(t, AppliedStamp, Stamp(doc))]);
    } else {
      RecoverPlays(d, job, a, s1, l1);
      EndOfJoin(s, [t], RecoverTrail(t, a));
      assert l.trail + [t] + RecoverTrail(t, a) == l.trail + ([t] + RecoverTrail(t, a));
    }
  }

  lemma ForwardSkipsRecovery(d: Deployment, job: Job, s: Snapshot, l: Local)
    requires l.stage.Applying?
    ensures Play(d, job, RECOVER_MOVES, s, l) == (s, l)
  {
    PlayThree(d, job, RecoverOpen, RecoverClose, RecoverReload, s, l);
  }

  /** The moves of an apply make the states of `ApplyTrail` and end in its verdict. */
  lemma ApplyPlays(d: Deployment, job: Job, a: ApplyAnswers, users: seq<CompatUser>, s: Snapshot, l: Local)
    requires a == AnswersFor(job, l.back) && users == (if l.back then l.previous else l.users) && l.stage.Pending?
    ensures Follows(s, l, Play(d, job, APPLY_MOVES, s, l), ApplyTrail(d, s, users, job.Mutate?, a), Judged(ApplyVerdict(d, s, users, job.Mutate?, a)))
  {
    var doc := DocFor(d, s.files, users, a.now);
    var (s1, l1) := Do(d, job, Plan, s, l);
    PlayOne(d, job, Plan, s, l);
    PlayJoin(d, job, [Plan], SWAP_MOVES + LOAD_MOVES, s, l);
    assert [Plan] + (SWAP_MOVES + LOAD_MOVES) == APPLY_MOVES;
    if l1.stage.Judged? {
      PlayIdle(d, job, SWAP_MOVES + LOAD_MOVES, s1, l1);
      assert l.trail + [] == l.trail;
    } else {
      SwapAndLoadPlays(d, job, a, s1, l1, doc.value);
    }
  }

  lemma SwapAndLoadPlays(d: Deployment, job: Job, a: ApplyAnswers, s: Snapshot, l: Local, doc: ServerConfig)
    requires a == AnswersFor(job, l.back) && l.stage == Applying(doc) && a.swap.stage && a.swap.check
    ensures Follows(s, l, Play(d, job, SWAP_MOVES + LOAD_MOVES, s, l), SwapAndLoadTrail(s, doc, a), Judged(SwapAndLoadVerdict(s, a)))
  {
    PlayJoin(d, job, SWAP_MOVES, LOAD_MOVES, s, l);
    SwapPlays(d, job, a, s, l, doc);
    SwapEnd(s, doc, a.swap);
    var (s1, l1) := Play(d, job, SWAP_MOVES, s, l);
    if l1.stage.Judged? {
      PlayIdle(d, job, LOAD_MOVES, s1, l1);
      assert SwapTrail(s, doc, a.swap) + [] == SwapTrail(s, doc, a.swap);
    } else {
      LoadPlays(d, job, a, s1, l1, doc);
      EndOfJoin(s, SwapTrail(s, doc, a.swap), LoadTrail(s1, doc, a));
      JoinIsAssociative(l.trail, SwapTrail(s, doc, a.swap), LoadTrail(s1, doc, a));
    }
  }

  /** Alone and to its end, a job makes exactly the states of `JobTrail` and gives `JobVerdict`. */
  lemma JobPlays(d: Deployment, job: Job, s: Snapshot)
    ensures var (e, l) := Play(d, job, COMMAND_MOVES, s, FRESH_LOCAL);
            && e == EndOf(s, JobTrail(d, s, job)) && l.trail == JobTrail(d, s, job)
            && l.stage == Ended(JobVerdict(d, s, job))
  {
    var (s1, l1) := Do(d, job, Load, s, FRESH_LOCAL);
    PlayOne(d, job, Load, s, FRESH_LOCAL);
    PlayJoin(d, job, [Load], TAIL_MOVES, s, FRESH_LOCAL);
    assert [Load] + TAIL_MOVES == COMMAND_MOVES;
    if l1.stage.Ended? {
      EndedStays(d, job, TAIL_MOVES, s1, l1);
    } else if job.Render? {
      RenderPlays(d, job.a, s1, l1);
    } else if l1.stage.Judged? {
      TailPlays(d, job.inv, s1, l1, s1, l1);
    } else {
      MutationPlays(d, job.inv, s1, l1);
    }
  }

  /** A loaded mutation, played to its end. */
  lemma MutationPlays(d: Deployment, inv: Invocation, s: Snapshot, l: Local)
    requires l.stage.Pending? && !l.back && l.trail == [] && !inv.op.RotateToken?
    ensures var (e, end) := Play(d, Mutate(inv), TAIL_MOVES, s, l);
            && end.trail == MutationTrail(d, s, l.previous, l.users, inv.a, inv.save, inv.b) && e == EndOf(s, end.trail)
            && end.stage == Ended(UserEnd(Mutated(MutationVerdict(d, s, l.previous, l.users, inv.a, inv.save, inv.b))))
  {
    ApplyPlays(d, Mutate(inv), inv.a, l.users, s, l);
    var (s2, l2) := Play(d, Mutate(inv), APPLY_MOVES, s, l);
    var first := ApplyTrail(d, s, l.users, true, inv.a);
    assert [] + first == first;
    TailPlays(d, inv, s, l, s2, l2);
    EndOfJoin(s, first, ApplyTrail(d, s2, l.previous, true, inv.b));
  }

  /** A loaded reconcile, played to its end. */
  lemma RenderPlays(d: Deployment, a: ApplyAnswers, s: Snapshot, l: Local)
    requires l.stage.Pending? && !l.back && l.trail == []
    ensures var (e, end) := Play(d, Render(a), TAIL_MOVES, s, l);
            && end.trail == ApplyTrail(d, s, l.users, false, a) && e == EndOf(s, end.trail)
            && end.stage == Ended(RenderEnd(Some(ApplyVerdict(d, s, l.users, false, a))))
  {
    var job, after := Render(a), [Save] + (APPLY_MOVES + [Close]);
    ApplyPlays(d, job, a, l.users, s, l);
    var (s2, l2) := Play(d, job, APPLY_MOVES, s, l);
    assert [] + ApplyTrail(d, s, l.users, false, a) == ApplyTrail(d, s, l.users, false, a);
    PlayJoin(d, job, APPLY_MOVES, after, s, l);
    PlayJoin(d, job, [Save], APPLY_MOVES + [Close], s2, l2);
    PlayOne(d, job, Save, s2, l2);
    var (s3, l3) := Do(d, job, Save, s2, l2);
    EndedStays(d, job, APPLY_MOVES + [Close], s3, l3);
  }

  const TAIL_MOVES: seq<Move> := APPLY_MOVES + ([Save] + (APPLY_MOVES + [Close]))

  lemma {:induction false} EndedStays(d: Deployment, job: Job, moves: seq<Move>, s: Snapshot, l: Local)
    requires l.stage.Ended?
    ensures Play(d, job, moves, s, l) == (s, l)
  {
    if moves != [] {
      EndedStays(d, job, moves[..|moves| - 1], s, l);
    }
  }

  /** From the end of the forward apply: save, or compensate. */
  lemma TailPlays(d: Deployment, inv: Invocation, s1: Snapshot, l1: Local, s2: Snapshot, l2: Local)
    requires (s2, l2) == Play(d, Mutate(inv), APPLY_MOVES, s1, l1) || (l1.stage.Judged? && (s2, l2) == (s1, l1))
    requires l2.stage.Judged? && !l2.back && (inv.op.RotateToken? ==> l2.stage == Judged(Live))
    ensures var back := ApplyTrail(d, s2, l2.previous, true, inv.b);
            var (e, l) := Play(d, Mutate(inv), TAIL_MOVES, s1, l1);
            if l2.stage.verdict.Failed? then e == s2 && l.trail == l2.trail && l.stage == Ended(UserEnd(Mutated(NotApplied(l2.stage.verdict.why))))
            else if inv.save then
              && e == With(s2, UsersJson, Envelope(USERS_SCHEMA_VERSION, l2.users)) && l.trail == l2.trail + [e]
              && l.stage == Ended(UserEnd(if inv.op.RotateToken? then TokenSaved else Mutated(Done(l2.stage.verdict.Live?))))
            else if inv.op.RotateToken? then e == s2 && l.trail == l2.trail && l.stage == Ended(UserEnd(TokenNotSaved))
            else
              && e == EndOf(s2, back) && l.trail == l2.trail + back
              && l.stage == Ended(UserEnd(Mutated(NotSaved(FailureOf(ApplyVerdict(d, s2, l2.previous, true, inv.b))))))
  {
    PlayJoin(d, Mutate(inv), APPLY_MOVES, [Save] + (APPLY_MOVES + [Close]), s1, l1);
    if l1.stage.Judged? {
      PlayIdle(d, Mutate(inv), APPLY_MOVES, s1, l1);
    }
    PlayJoin(d, Mutate(inv), [Save], APPLY_MOVES + [Close], s2, l2);
    PlayOne(d, Mutate(inv), Save, s2, l2);
    var (s3, l3) := Do(d, Mutate(inv), Save, s2, l2);
    if l3.stage.Ended? {
      EndedStays(d, Mutate(inv), APPLY_MOVES + [Close], s3, l3);
    } else {
      ApplyPlays(d, Mutate(inv), inv.b, l3.previous, s3, l3);
      PlayJoin(d, Mutate(inv), APPLY_MOVES, [Close], s3, l3);
      var (s4, l4) := Play(d, Mutate(inv), APPLY_MOVES, s3, l3);
      PlayOne(d, Mutate(inv), Close, s4, l4);
    }
  }
}
