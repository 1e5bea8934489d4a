/**
 Whole runs of user commands, and reconciliation after a crash.
 */
module UserRuns {
  import opened Wrappers
  import opened CompatModel
  import opened ServerRender
  import opened Hosts
  import opened ConfigApply
  import opened UserOps
  import opened UserMutation

  /** One user command and the answers its steps get. */
  datatype Invocation = Invocation(op: UserOp, a: ApplyAnswers, save: bool, b: ApplyAnswers)

  datatype CommandResult = StoreUnreadable | NoSuchUser | Mutated(r: MutationResult) | TokenSaved | TokenNotSaved

  predicate CleanResult(r: CommandResult) {
    r.Mutated? ==> Clean(r.r)
  }

  /** A command of a live deployment; offline mode gives up the live guarantees. */
  predicate IsLive(inv: Invocation) {
    !inv.a.offline && !inv.b.offline
  }

  predicate IsSteady(inv: Invocation) {
    Steady(inv.a) && Steady(inv.b)
  }

  /** The two lists authorize the same credentials at every instant. */
  ghost predicate SameAuthorization(d: Deployment, s: Snapshot, t: Snapshot) {
    LoadUsers(s.files).Some? && LoadUsers(t.files).Some?
    && forall now :: DocFor(d, t.files, LoadUsers(t.files).value, now) == DocFor(d, s.files, LoadUsers(s.files).value, now)
  }

  /** Server and store are on one list, and the no-reload shortcut can be trusted. */
  ghost predicate Accord(d: Deployment, s: Snapshot) {
    LoadUsers(s.files).Some? && StampSound(s) && Agreed(d, s, LoadUsers(s.files).value)
  }

  /** What every run of clean user commands keeps. */
  ghost predicate Coherent(d: Deployment, s: Snapshot) {
    Accord(d, s) && IdsDistinct(s)
  }

  ghost predicate IdsDistinct(s: Snapshot) {
    LoadUsers(s.files).Some? && DistinctIds(LoadUsers(s.files).value)
  }

  // -------------------------------------------------------------- one command

  /** The list a command proposes, if the store is readable and the operation possible. */
  function Proposed(s: Snapshot, op: UserOp): Option<seq<CompatUser>> {
    var loaded := LoadUsers(s.files);
    if loaded.None? then None else ApplyOp(loaded.value, op)
  }

  /** The states a command passes through, in order. Token rotation only rewrites the store. */
  function CommandTrail(d: Deployment, s: Snapshot, inv: Invocation): seq<Snapshot> {
    var users := Proposed(s, inv.op);
    if users.None? then []
    else if !inv.op.RotateToken? then MutationTrail(d, s, LoadUsers(s.files).value, users.value, inv.a, inv.save, inv.b)
    else if inv.save then [With(s, UsersJson, Envelope(USERS_SCHEMA_VERSION, users.value))]
    else []
  }

  function CommandVerdict(d: Deployment, s: Snapshot, inv: Invocation): CommandResult {
    var users := Proposed(s, inv.op);
    if LoadUsers(s.files).None? then StoreUnreadable
    else if users.None? then NoSuchUser
    else if !inv.op.RotateToken? then Mutated(MutationVerdict(d, s, LoadUsers(s.files).value, users.value, inv.a, inv.save, inv.b))
    else if inv.save then TokenSaved
    else TokenNotSaved
  }

  /** Whether the command wrote its list to the store. */
  predicate Published(r: CommandResult) {
    r.TokenSaved? || (r.Mutated? && r.r.Done?)
  }

  /** One `vpn-admin user ...` command, from any state and with any answers. */
  method UserCommand(h: Host, inv: Invocation) returns (r: CommandResult)
    requires h.Valid()
    modifies h
    ensures h.Valid() && old(h.history) <= h.history
    ensures h.history == old(h.history) + CommandTrail(h.d, old(h.now), inv)
    ensures r == CommandVerdict(h.d, old(h.now), inv)
  {
    var loaded := LoadUsers(h.now.files);
    if loaded.None? {
      return StoreUnreadable;
    }
    var users := ApplyOp(loaded.value, inv.op);
    if users.None? {
      return NoSuchUser;
    }
    if inv.op.RotateToken? {
      if !inv.save {
        return TokenNotSaved;
      }
      h.Install(UsersJson, Envelope(USERS_SCHEMA_VERSION, users.value));
      return TokenSaved;
    }
    var m := ApplyUsersAndSave(h, loaded.value, users.value, inv.a, inv.save, inv.b);
    return Mutated(m);
  }

  /** The list on disk is the proposed one exactly when the command published, and the previous one otherwise. */
  lemma CommandCommits(d: Deployment, s: Snapshot, inv: Invocation)
    ensures var e := EndOf(s, CommandTrail(d, s, inv));
            LoadUsers(e.files) == (if Published(CommandVerdict(d, s, inv)) then Proposed(s, inv.op) else LoadUsers(s.files))
  {
    var users := Proposed(s, inv.op);
    if users.Some? && !inv.op.RotateToken? {
      MutationEnds(d, s, LoadUsers(s.files).value, users.value, inv.a, inv.save, inv.b);
    }
  }

  // ----------------------------------------------------------- never ahead

  /** `users.json` does not get ahead of the server in any step of the command. */
  ghost predicate CommandInOrder(d: Deployment, s: Snapshot, trail: seq<Snapshot>, inv: Invocation) {
    var users := Proposed(s, inv.op);
    if users.None? then trail == []
    else if inv.op.RotateToken? then forall i :: 0 <= i < |trail| ==> SameAuthorization(d, Before(s, trail, i), trail[i])
    else TrailInOrder(d, s, trail, users.value, inv.a.now)
  }

  predicate CommandEarly(d: Deployment, s: Snapshot, inv: Invocation) {
    var users := Proposed(s, inv.op);
    users.Some? && !inv.op.RotateToken? && PublishesEarly(d, s, users.value, inv.a, inv.save)
  }

  /** A live command keeps the store behind the server in every step, unless it takes the early branch: both ways. */
  lemma CommandInOrderIff(d: Deployment, s: Snapshot, inv: Invocation)
    requires IsLive(inv)
    ensures CommandInOrder(d, s, CommandTrail(d, s, inv), inv) <==> !CommandEarly(d, s, inv)
  {
    var users := Proposed(s, inv.op);
    if users.Some? {
      if inv.op.RotateToken? {
        TokenRotationAuthorizes(d, s, LoadUsers(s.files).value, inv.op);
      } else {
        InOrderUnlessEarly(d, s, LoadUsers(s.files).value, users.value, inv.a, inv.save, inv.b);
      }
    }
  }

  lemma TokenRotationAuthorizes(d: Deployment, s: Snapshot, users: seq<CompatUser>, op: UserOp)
    requires op.RotateToken? && LoadUsers(s.files) == Some(users) && ApplyOp(users, op).Some?
    ensures SameAuthorization(d, s, With(s, UsersJson, Envelope(USERS_SCHEMA_VERSION, ApplyOp(users, op).value)))
  {
    var users' := ApplyOp(users, op).value;
    var t := With(s, UsersJson, Envelope(USERS_SCHEMA_VERSION, users'));
    forall now ensures DocFor(d, t.files, users', now) == DocFor(d, s.files, users, now) {
      PublishKeeps(d, s, Envelope(USERS_SCHEMA_VERSION, users'), users, now);
      var reality := LoadReality(d, t.files);
      if reality.Some? {
        TokenRotationKeepsAuthorization(users, op, reality.value, HysteriaParams(d, LoadObfs(t.files)), d.ports, now);
      }
    }
  }

  /** The command goes as far as a reload, and sing-box comes back healthy. */
  predicate CommandReloadsWell(d: Deployment, s: Snapshot, inv: Invocation) {
    var users := Proposed(s, inv.op);
    users.Some? && !inv.op.RotateToken? && ReloadsWell(d, s, users.value, inv.a)
  }

  /** A steady command that does not report an unrecovered reload. */
  predicate Settles(inv: Invocation, r: CommandResult) {
    IsSteady(inv) && !(r.Mutated? && LeavesUnrecovered(r.r))
  }

  lemma SoundAfterCommand(d: Deployment, s: Snapshot, inv: Invocation)
    requires Settles(inv, CommandVerdict(d, s, inv)) && (StampSound(s) || CommandReloadsWell(d, s, inv))
    ensures StampSound(EndOf(s, CommandTrail(d, s, inv)))
  {
    var users := Proposed(s, inv.op);
    if users.Some? {
      if inv.op.RotateToken? {
        PublishKeeps(d, s, Envelope(USERS_SCHEMA_VERSION, users.value), users.value, 0);
      } else {
        SoundAfterMutation(d, s, LoadUsers(s.files).value, users.value, inv.a, inv.save, inv.b);
      }
    }
  }

  /** A steady command in which no reload fails, found by a stamp that is safe for its document. */
  predicate SafeCommand(d: Deployment, s: Snapshot, inv: Invocation) {
    && Steady(inv.a) && Forward(inv.a) && Forward(inv.b)
    && (Proposed(s, inv.op).Some? ==> SwapSafeFor(d, s, Proposed(s, inv.op).value, inv.a))
  }

  lemma SafeCommandSound(d: Deployment, s: Snapshot, inv: Invocation)
    requires StampSound(s) && SafeCommand(d, s, inv)
    ensures AllSound(CommandTrail(d, s, inv))
  {
    var users := Proposed(s, inv.op);
    if users.Some? {
      if inv.op.RotateToken? {
        PublishKeeps(d, s, Envelope(USERS_SCHEMA_VERSION, users.value), users.value, 0);
      } else {
        MutationSound(d, s, LoadUsers(s.files).value, users.value, inv.a, inv.save, inv.b);
      }
    }
  }

  /** A clean command leaves the server on the list the store shows. */
  lemma CleanKeepsCoherent(d: Deployment, s: Snapshot, inv: Invocation)
    requires Coherent(d, s) && IsSteady(inv) && CleanResult(CommandVerdict(d, s, inv))
    ensures Coherent(d, EndOf(s, CommandTrail(d, s, inv)))
  {
    CleanKeepsAccord(d, s, inv);
    CommandKeepsIds(d, s, inv);
  }

  lemma CleanKeepsAccord(d: Deployment, s: Snapshot, inv: Invocation)
    requires Accord(d, s) && IsSteady(inv) && CleanResult(CommandVerdict(d, s, inv))
    ensures Accord(d, EndOf(s, CommandTrail(d, s, inv)))
  {
    var previous, users := LoadUsers(s.files).value, Proposed(s, inv.op);
    CommandCommits(d, s, inv);
    if users.Some? {
      if inv.op.RotateToken? {
        TokenKeepsAgreed(d, s, previous, inv.op);
      } else {
        CleanAgrees(d, s, previous, users.value, inv.a, inv.save, inv.b);
      }
    }
  }

  lemma TokenKeepsAgreed(d: Deployment, s: Snapshot, users: seq<CompatUser>, op: UserOp)
    requires op.RotateToken? && LoadUsers(s.files) == Some(users) && ApplyOp(users, op).Some?
    requires StampSound(s) && Agreed(d, s, users)
    ensures var t := With(s, UsersJson, Envelope(USERS_SCHEMA_VERSION, ApplyOp(users, op).value));
            StampSound(t) && Agreed(d, t, ApplyOp(users, op).value)
  {
    var users' := ApplyOp(users, op).value;
    var t := With(s, UsersJson, Envelope(USERS_SCHEMA_VERSION, users'));
    TokenRotationAuthorizes(d, s, users, op);
    var now :| AgreedAt(d, s, users, now);
    PublishKeeps(d, s, Envelope(USERS_SCHEMA_VERSION, users'), users, now);
    assert DocFor(d, t.files, LoadUsers(t.files).value, now) == DocFor(d, s.files, LoadUsers(s.files).value, now);
    assert AgreedAt(d, t, users', now);
  }

  // -------------------------------------------------------------- whole runs

  /** The host's state when command `k` begins: the last one before its first own. */
  function StateAt(hist: seq<Snapshot>, marks: seq<nat>, k: nat): Snapshot
    requires k < |marks| && 0 < marks[k] <= |hist|
  {
    hist[marks[k] - 1]
  }

  ghost predicate SegmentIs(d: Deployment, hist: seq<Snapshot>, marks: seq<nat>, inv: Invocation, r: CommandResult, k: nat)
    requires k + 1 < |marks|
  {
    && 0 < marks[k] <= marks[k + 1] <= |hist|
    && hist[marks[k]..marks[k + 1]] == CommandTrail(d, StateAt(hist, marks, k), inv)
    && r == CommandVerdict(d, StateAt(hist, marks, k), inv)
  }

  /** `hist[marks[k]..marks[k + 1]]` are the states of command `k`. */
  ghost predicate IsRun(d: Deployment, hist: seq<Snapshot>, marks: seq<nat>, invs: seq<Invocation>, results: seq<CommandResult>) {
    && |marks| == |invs| + 1 && |results| == |invs| && 0 < marks[0] <= |hist|
    && forall k {:trigger SegmentIs(d, hist, marks, invs[k], results[k], k)} ::
         0 <= k < |invs| ==> SegmentIs(d, hist, marks, invs[k], results[k], k)
  }

  lemma NextState(d: Deployment, hist: seq<Snapshot>, marks: seq<nat>, invs: seq<Invocation>, results: seq<CommandResult>, k: nat)
    requires IsRun(d, hist, marks, invs, results) && k < |invs|
    ensures 0 < marks[k] <= |hist| && 0 < marks[k + 1] <= |hist|
    ensures StateAt(hist, marks, k + 1) == EndOf(StateAt(hist, marks, k), CommandTrail(d, StateAt(hist, marks, k), invs[k]))
  {
    assert SegmentIs(d, hist, marks, invs[k], results[k], k);
    SliceEnds(hist, marks[k], marks[k + 1], CommandTrail(d, StateAt(hist, marks, k), invs[k]));
  }

  lemma SliceEnds(hist: seq<Snapshot>, lo: nat, hi: nat, trail: seq<Snapshot>)
    requires 0 < lo <= hi <= |hist| && hist[lo..hi] == trail
    ensures hist[hi - 1] == EndOf(hist[lo - 1], trail)
  {}

  /** No unrecovered reload has been reported since the last command that reloaded the server healthily, or since the start. */
  ghost predicate Settled(
    d: Deployment, hist: seq<Snapshot>, marks: seq<nat>, invs: seq<Invocation>, results: seq<CommandResult>, k: nat)
    requires IsRun(d, hist, marks, invs, results) && k <= |invs|
  {
    k == 0
    || (&& Settles(invs[k - 1], results[k - 1])
        && (|| Settled(d, hist, marks, invs, results, k - 1)
            || (0 < marks[k - 1] <= |hist| && CommandReloadsWell(d, StateAt(hist, marks, k - 1), invs[k - 1]))))
  }

  lemma SoundStep(d: Deployment, hist: seq<Snapshot>, marks: seq<nat>, invs: seq<Invocation>, results: seq<CommandResult>, k: nat)
    requires IsRun(d, hist, marks, invs, results) && k < |invs| && 0 < marks[k] <= |hist| && Settles(invs[k], results[k])
    requires StampSound(StateAt(hist, marks, k)) || CommandReloadsWell(d, StateAt(hist, marks, k), invs[k])
    ensures 0 < marks[k + 1] <= |hist| && StampSound(StateAt(hist, marks, k + 1))
  {
    assert SegmentIs(d, hist, marks, invs[k], results[k], k);
    NextState(d, hist, marks, invs, results, k);
    SoundAfterCommand(d, StateAt(hist, marks, k), invs[k]);
  }

  lemma {:induction false} SettledIsSound(
    d: Deployment, hist: seq<Snapshot>, marks: seq<nat>, invs: seq<Invocation>, results: seq<CommandResult>, k: nat)
    requires IsRun(d, hist, marks, invs, results) && k <= |invs| && StampSound(StateAt(hist, marks, 0))
    requires Settled(d, hist, marks, invs, results, k)
    ensures 0 < marks[k] <= |hist| && StampSound(StateAt(hist, marks, k))
  {
    if k > 0 {
      if Settled(d, hist, marks, invs, results, k - 1) {
        SettledIsSound(d, hist, marks, invs, results, k - 1);
      }
      SoundStep(d, hist, marks, invs, results, k - 1);
    }
  }

  /**
   In every run of live commands, whatever their results: a command keeps
   `users.json` behind the server in all its steps if and only if it does not
   take the early branch; and it does not, whatever failed before, when it is
   steady and no unrecovered reload has been reported since the last healthy one.
   */
  lemma RunNeverAhead(
    d: Deployment, hist: seq<Snapshot>, marks: seq<nat>, invs: seq<Invocation>, results: seq<CommandResult>, k: nat)
    requires IsRun(d, hist, marks, invs, results) && k < |invs| && IsLive(invs[k])
    ensures 0 < marks[k] <= marks[k + 1] <= |hist|
    ensures CommandInOrder(d, StateAt(hist, marks, k), hist[marks[k]..marks[k + 1]], invs[k])
       <==> !CommandEarly(d, StateAt(hist, marks, k), invs[k])
    ensures StampSound(StateAt(hist, marks, 0)) && Settled(d, hist, marks, invs, results, k) && Steady(invs[k].a) ==>
              CommandInOrder(d, StateAt(hist, marks, k), hist[marks[k]..marks[k + 1]], invs[k])
  {
    assert SegmentIs(d, hist, marks, invs[k], results[k], k);
    var s := StateAt(hist, marks, k);
    CommandInOrderIff(d, s, invs[k]);
    if StampSound(StateAt(hist, marks, 0)) && Settled(d, hist, marks, invs, results, k) && Steady(invs[k].a) {
      SettledIsSound(d, hist, marks, invs, results, k);
      if Proposed(s, invs[k].op).Some? {
        SoundNeverEarly(d, s, Proposed(s, invs[k].op).value, invs[k].a, invs[k].save);
      }
    }
  }

  /** Ids stay pairwise distinct at every command boundary of every run, whatever fails. */
  lemma {:induction false} RunKeepsIds(
    d: Deployment, hist: seq<Snapshot>, marks: seq<nat>, invs: seq<Invocation>, results: seq<CommandResult>, k: nat)
    requires IsRun(d, hist, marks, invs, results) && k <= |invs| && IdsDistinct(StateAt(hist, marks, 0))
    ensures 0 < marks[k] <= |hist| && IdsDistinct(StateAt(hist, marks, k))
  {
    if k > 0 {
      RunKeepsIds(d, hist, marks, invs, results, k - 1);
      IdsStep(d, hist, marks, invs, results, k - 1);
    }
  }

  lemma IdsStep(d: Deployment, hist: seq<Snapshot>, marks: seq<nat>, invs: seq<Invocation>, results: seq<CommandResult>, k: nat)
    requires IsRun(d, hist, marks, invs, results) && k < |invs| && 0 < marks[k] <= |hist| && IdsDistinct(StateAt(hist, marks, k))
    ensures 0 < marks[k + 1] <= |hist| && IdsDistinct(StateAt(hist, marks, k + 1))
  {
    NextState(d, hist, marks, invs, results, k);
    CommandKeepsIds(d, StateAt(hist, marks, k), invs[k]);
  }

  lemma CommandKeepsIds(d: Deployment, s: Snapshot, inv: Invocation)
    requires IdsDistinct(s)
    ensures IdsDistinct(EndOf(s, CommandTrail(d, s, inv)))
  {
    CommandCommits(d, s, inv);
    OpsKeepIdsDistinct(LoadUsers(s.files).value, inv.op);
  }

  /** While all results are clean the server runs exactly the list the store shows. */
  lemma {:induction false} CleanRunStaysCoherent(
    d: Deployment, hist: seq<Snapshot>, marks: seq<nat>, invs: seq<Invocation>, results: seq<CommandResult>, k: nat)
    requires IsRun(d, hist, marks, invs, results) && k <= |invs| && Coherent(d, StateAt(hist, marks, 0))
    requires forall j :: 0 <= j < k ==> IsSteady(invs[j]) && CleanResult(results[j])
    ensures 0 < marks[k] <= |hist| && Coherent(d, StateAt(hist, marks, k))
  {
    if k > 0 {
      CleanRunStaysCoherent(d, hist, marks, invs, results, k - 1);
      CleanStep(d, hist, marks, invs, results, k - 1);
    }
  }

  lemma CleanStep(d: Deployment, hist: seq<Snapshot>, marks: seq<nat>, invs: seq<Invocation>, results: seq<CommandResult>, k: nat)
    requires IsRun(d, hist, marks, invs, results) && k < |invs| && 0 < marks[k] <= |hist|
    requires Coherent(d, StateAt(hist, marks, k)) && IsSteady(invs[k]) && CleanResult(results[k])
    ensures 0 < marks[k + 1] <= |hist| && Coherent(d, StateAt(hist, marks, k + 1))
  {
    assert SegmentIs(d, hist, marks, invs[k], results[k], k);
    NextState(d, hist, marks, invs, results, k);
    CleanKeepsCoherent(d, StateAt(hist, marks, k), invs[k]);
  }

  lemma RunPrefix(
    d: Deployment, hist: seq<Snapshot>, hist': seq<Snapshot>, marks: seq<nat>, marks': seq<nat>,
    inv: Invocation, r: CommandResult, k: nat)
    requires k + 1 < |marks| && hist <= hist' && marks <= marks' && SegmentIs(d, hist, marks, inv, r, k)
    ensures SegmentIs(d, hist', marks', inv, r, k)
  {
    assert hist'[marks'[k]..marks'[k + 1]] == hist[marks[k]..marks[k + 1]];
  }

  lemma NewSegment(
    d: Deployment, before: seq<Snapshot>, hist: seq<Snapshot>, marks: seq<nat>, inv: Invocation, r: CommandResult, k: nat)
    requires k + 1 < |marks| && before != [] && marks[k] == |before| && marks[k + 1] == |hist|
    requires hist == before + CommandTrail(d, before[|before| - 1], inv) && r == CommandVerdict(d, before[|before| - 1], inv)
    ensures SegmentIs(d, hist, marks, inv, r, k)
  {
    assert StateAt(hist, marks, k) == before[|before| - 1];
  }

  lemma ExtendRun(
    d: Deployment, before: seq<Snapshot>, s: Snapshot, hist: seq<Snapshot>, marks: seq<nat>, invs: seq<Invocation>,
    results: seq<CommandResult>, inv: Invocation, r: CommandResult)
    requires IsRun(d, before, marks, invs, results) && before != [] && before[|before| - 1] == s && marks[|invs|] == |before|
    requires hist == before + CommandTrail(d, s, inv) && r == CommandVerdict(d, s, inv)
    ensures IsRun(d, hist, marks + [|hist|], invs + [inv], results + [r])
  {
    var n, marks' := |invs|, marks + [|hist|];
    forall k | 0 <= k < n + 1 ensures SegmentIs(d, hist, marks', (invs + [inv])[k], (results + [r])[k], k) {
      if k < n {
        assert SegmentIs(d, before, marks, invs[k], results[k], k);
        RunPrefix(d, before, hist, marks, marks', invs[k], results[k], k);
      } else {
        NewSegment(d, before, hist, marks', inv, r, n);
      }
    }
  }

  /** Any run of user commands, from any state, past every result. `marks` are where their states begin. */
  method RunUserCommands(h: Host, invs: seq<Invocation>) returns (results: seq<CommandResult>, ghost marks: seq<nat>)
    requires h.Valid()
    modifies h
    ensures h.Valid() && old(h.history) <= h.history
    ensures IsRun(h.d, h.history, marks, invs, results) && StateAt(h.history, marks, 0) == old(h.now)
    ensures marks[0] == |old(h.history)| && marks[|invs|] == |h.history|
  {
    results := [];
    marks := [|h.history|];
    for k := 0 to |invs|
      invariant h.Valid() && old(h.history) <= h.history
      invariant |marks| == k + 1 && marks[0] == |old(h.history)| && marks[k] == |h.history|
      invariant IsRun(h.d, h.history, marks, invs[..k], results)
    {
      ghost var before, s := h.history, h.now;
      assert before[|before| - 1] == s;
      var r := UserCommand(h, invs[k]);
      ExtendRun(h.d, before, s, h.history, marks, invs[..k], results, invs[k], r);
      assert invs[..k + 1] == invs[..k] + [invs[k]];
      results := results + [r];
      marks := marks + [|h.history|];
    }
    assert invs[..|invs|] == invs;
  }

  // --------------------------------------------------------- reconciliation

  /** A reconcile that did not lose the service manager after its swap and reports no unrecovered reload. */
  predicate ReconcileSettles(a: ApplyAnswers, r: Option<ApplyResult>) {
    a.afterSwap && (r.Some? && r.value.Failed? ==> !Unrecovered(r.value.why))
  }

  lemma SoundAfterReconcile(d: Deployment, s0: Snapshot, s1: Snapshot, users: seq<CompatUser>, a: ApplyAnswers, r: ApplyResult)
    requires ApplyOutcome(d, s0, s1, users, a, false, r) && StampSound(s0) && ReconcileSettles(a, Some(r))
    ensures StampSound(s1)
  {
    if r == Failed(NotSwapped) && OnlyBackup(s0, s1) {
      BackupKeepsStampSound(s0, s1);
    }
  }

  /** `render-config`: re-render the list on disk; `Live` is what it reports as applied. */
  method Reconcile(h: Host, a: ApplyAnswers) returns (r: Option<ApplyResult>)
    requires h.Valid()
    modifies h
    ensures h.Valid() && old(h.history) <= h.history
    // exactly which states it passes and which result it gives.
    ensures r.None? <==> LoadUsers(old(h.now).files).None?
    ensures r.None? ==> h.history == old(h.history)
    ensures r.Some? ==> && h.history == old(h.history) + ApplyTrail(h.d, old(h.now), LoadUsers(old(h.now).files).value, false, a)
                        && r.value == ApplyVerdict(h.d, old(h.now), LoadUsers(old(h.now).files).value, false, a)
    ensures r.Some? ==> LoadUsers(h.now.files) == LoadUsers(old(h.now).files)
    ensures LoadUsers(old(h.now).files).Some? && a.binary ==>
              var doc := DocFor(h.d, old(h.now).files, LoadUsers(old(h.now).files).value, a.now);
              doc.Some? && AlreadyCurrent(old(h.now), doc.value, a) ==> r == Some(Live) && h.now == old(h.now)
    ensures r == Some(Live) <==>
              && LoadUsers(old(h.now).files).Some?
              && GoesLive(h.d, old(h.now), LoadUsers(old(h.now).files).value, a)
    // A report of "applied" is true exactly unless the shortcut fired on an unsound stamp.
    ensures r == Some(Live) ==>
              var users := LoadUsers(h.now.files).value;
              var doc := DocFor(h.d, h.now.files, users, a.now);
              && doc.Some? && Has(h.now, ConfigJson, Config(doc.value))
              && (AgreedAt(h.d, h.now, users, a.now) <==> (AlreadyCurrent(old(h.now), doc.value, a) ==> StampSound(old(h.now))))
    ensures StampSound(old(h.now)) && ReconcileSettles(a, r) ==> StampSound(h.now)
  {
    var users := LoadUsers(h.now.files);
    if users.None? {
      return None;
    }
    ghost var s := h.now;
    var applied := RenderAndApply(h, users.value, false, a);
    ReconcileOutcome(h.d, s, h.now, users.value, a, applied);
    if StampSound(s) && ReconcileSettles(a, Some(applied)) {
      SoundAfterReconcile(h.d, s, h.now, users.value, a, applied);
    }
    return Some(applied);
  }

  lemma ReconcileOutcome(d: Deployment, s: Snapshot, s1: Snapshot, users: seq<CompatUser>, a: ApplyAnswers, r: ApplyResult)
    requires LoadUsers(s.files) == Some(users) && ApplyOutcome(d, s, s1, users, a, false, r)
    ensures LoadUsers(s1.files) == Some(users) && DocFor(d, s1.files, users, a.now) == DocFor(d, s.files, users, a.now)
    ensures r.Live? <==> GoesLive(d, s, users, a)
    ensures r.Live? ==>
              var doc := DocFor(d, s.files, users, a.now);
              && doc.Some? && Has(s1, ConfigJson, Config(doc.value))
              && (AgreedAt(d, s1, users, a.now) <==> (AlreadyCurrent(s, doc.value, a) ==> StampSound(s)))
  {
    assert SameAt(s1.files, s.files, UsersJson);
    SameDoc(d, s1.files, s.files, users, a.now);
  }

  /** `apply_users_and_save`, killed after `stop` of its steps. */
  method DieDuring(
    h: Host, previous: seq<CompatUser>, users: seq<CompatUser>, a: ApplyAnswers, save: bool, b: ApplyAnswers, stop: nat)
    requires h.Valid()
    modifies h
    ensures h.Valid() && h.now == KilledAfter(old(h.now), MutationTrail(h.d, old(h.now), previous, users, a, save, b), stop)
  {
    ghost var s := h.now;
    var begin := |h.history|;
    ghost var done := ApplyThenSave(h, previous, users, a, save, b);
    KilledInHistory(h.history, begin, s, MutationTrail(h.d, s, previous, users, a, save, b), stop);
    h.CrashedAt(if begin + stop < |h.history| then begin + stop - 1 else |h.history| - 1);
  }

  lemma KilledInHistory(history: seq<Snapshot>, begin: nat, s: Snapshot, trail: seq<Snapshot>, stop: nat)
    requires 0 < begin <= |history| && history[begin - 1] == s && history[begin..] == trail
    ensures KilledAfter(s, trail, stop) == history[if begin + stop < |history| then begin + stop - 1 else |history| - 1]
  {
    KilledIsStart(s, trail, stop);
    assert [s] + trail == history[begin - 1..];
  }

  lemma KilledSound(s: Snapshot, trail: seq<Snapshot>, stop: nat)
    requires StampSound(s) && AllSound(trail)
    ensures StampSound(KilledAfter(s, trail, stop))
  {
    KilledIsStart(s, trail, stop);
  }

  /** The reconcile that follows a death in `died` reports success: exactly when the report is true. */
  ghost predicate ReportTrueUnlessMisled(d: Deployment, died: Snapshot, s: Snapshot, c: ApplyAnswers) {
    LoadUsers(s.files).Some? &&
    var users := LoadUsers(s.files).value;
    var doc := DocFor(d, s.files, users, c.now);
    doc.Some? && (AgreedAt(d, s, users, c.now) <==> (AlreadyCurrent(died, doc.value, c) ==> StampSound(died)))
  }

  /**
   A mutation dies after any number `stop` of its steps, whatever failed, and a
   reconcile later reports success at any clock value: sing-box, `config.json` and
   the render of the list on disk are one document, unless the reconcile took the
   no-reload shortcut on a stamp the death had left unsound. It had not if the
   shortcut was sound before, the stamp did not name the proposed document without
   sing-box running it, and no reload failed.
   */
  method MutateCrashReconcile(
    h: Host, users: seq<CompatUser>, a: ApplyAnswers, save: bool, b: ApplyAnswers, stop: nat, c: ApplyAnswers)
    returns (r: Option<ApplyResult>, ghost died: Snapshot)
    requires h.Valid() && LoadUsers(h.now.files).Some?
    modifies h
    ensures h.Valid()
    ensures died == KilledAfter(old(h.now), MutationTrail(h.d, old(h.now), LoadUsers(old(h.now).files).value, users, a, save, b), stop)
    ensures r == Some(Live) ==> ReportTrueUnlessMisled(h.d, died, h.now, c)
    ensures StampSound(old(h.now)) && SwapSafeFor(h.d, old(h.now), users, a) && Steady(a) && Forward(a) && Forward(b) ==> StampSound(died)
  {
    var previous := LoadUsers(h.now.files).value;
    ghost var s := h.now;
    DieDuring(h, previous, users, a, save, b, stop);
    died := h.now;
    if StampSound(s) && SwapSafeFor(h.d, s, users, a) && Steady(a) && Forward(a) && Forward(b) {
      MutationSound(h.d, s, previous, users, a, save, b);
      KilledSound(s, MutationTrail(h.d, s, previous, users, a, save, b), stop);
    }
    r := Reconcile(h, c);
  }

  // ------------------------------------------------- where the shortcut lies

  lemma KilledInFirst(s: Snapshot, x: seq<Snapshot>, y: seq<Snapshot>, n: nat)
    requires n <= |x|
    ensures KilledAfter(s, x + y, n) == KilledAfter(s, x, n)
  {
    KilledIsStart(s, x + y, n);
    KilledIsStart(s, x, n);
  }

  lemma KilledAtSeam(s: Snapshot, x: seq<Snapshot>, y: seq<Snapshot>)
    requires y != []
    ensures KilledAfter(s, x + y, |x|) == EndOf(s, x) && KilledAfter(s, x + y, |x| + 1) == y[0]
  {
    KilledIsStart(s, x + y, |x|);
    KilledIsStart(s, x + y, |x| + 1);
  }

  /** The apply of `doc` gets past its swap and queries a service manager that answers. */
  predicate SwapsIn(d: Deployment, s: Snapshot, users: seq<CompatUser>, requireLive: bool, a: ApplyAnswers, doc: ServerConfig) {
    && DocFor(d, s.files, users, a.now) == Some(doc) && RefusedApply(Some(doc), requireLive, a).None?
    && !AlreadyCurrent(s, doc, a) && SwapSucceeds(s.files, a.swap) && a.afterSwap
  }

  /** How many states an apply makes up to and including its swap. */
  function UpToSwap(s: Snapshot, doc: ServerConfig, a: ApplyAnswers): nat {
    |SwapTrail(s, doc, a.swap)|
  }

  lemma KilledAroundReload(d: Deployment, s: Snapshot, users: seq<CompatUser>, requireLive: bool, a: ApplyAnswers, doc: ServerConfig)
    requires SwapsIn(d, s, users, requireLive, a, doc)
    ensures var trail := ApplyTrail(d, s, users, requireLive, a);
            var swapped := s.(files := Swapped(s.files, doc));
            && |trail| > UpToSwap(s, doc, a)
            && KilledAfter(s, trail, UpToSwap(s, doc, a)) == swapped
            && KilledAfter(s, trail, UpToSwap(s, doc, a) + 1) == Reloaded(swapped, a.reload)
  {
    var swapped := s.(files := Swapped(s.files, doc));
    SwapEnd(s, doc, a.swap);
    KilledAtSeam(s, SwapTrail(s, doc, a.swap), LoadTrail(swapped, doc, a));
  }

  /** The same inside a mutation, whose states begin with those of its apply. */
  lemma MutationKilledAfterReload(
    d: Deployment, s: Snapshot, previous: seq<CompatUser>, users: seq<CompatUser>, a: ApplyAnswers, save: bool, b: ApplyAnswers,
    doc: ServerConfig)
    requires SwapsIn(d, s, users, true, a, doc)
    ensures KilledAfter(s, MutationTrail(d, s, previous, users, a, save, b), UpToSwap(s, doc, a) + 1)
         == Reloaded(s.(files := Swapped(s.files, doc)), a.reload)
  {
    var trail, first := MutationTrail(d, s, previous, users, a, save, b), ApplyTrail(d, s, users, true, a);
    KilledAroundReload(d, s, users, true, a, doc);
    assert trail == first + trail[|first|..];
    KilledInFirst(s, first, trail[|first|..], UpToSwap(s, doc, a) + 1);
  }

  /** `render-config`, killed after `stop` of its steps. */
  method DieReconciling(h: Host, a: ApplyAnswers, stop: nat)
    requires h.Valid() && LoadUsers(h.now.files).Some?
    modifies h
    ensures h.Valid()
    ensures h.now == KilledAfter(old(h.now), ApplyTrail(h.d, old(h.now), LoadUsers(old(h.now).files).value, false, a), stop)
  {
    ghost var s := h.now;
    var begin := |h.history|;
    var users := LoadUsers(h.now.files).value;
    ghost var done := RenderAndApply(h, users, false, a);
    KilledInHistory(h.history, begin, s, ApplyTrail(h.d, s, users, false, a), stop);
    h.CrashedAt(if begin + stop < |h.history| then begin + stop - 1 else |h.history| - 1);
  }

  /** What a swap leaves of the inputs of a render. */
  lemma SwapKeepsInputs(d: Deployment, s: Snapshot, doc: ServerConfig, users: seq<CompatUser>, now: int)
    ensures var f := Swapped(s.files, doc);
            LoadUsers(f) == LoadUsers(s.files) && DocFor(d, f, users, now) == DocFor(d, s.files, users, now)
            && SameAt(f, s.files, AppliedStamp) && ConfigJson in f && f[ConfigJson] == Config(doc)
  {
    SameDoc(d, Swapped(s.files, doc), s.files, users, now);
  }

  /**
   Two crashes defeat the shortcut on every host whose stamp names what runs: a
   mutation is killed between its reload and its stamp, then a reconcile between
   its swap and its reload. The next reconcile reports "applied" while sing-box
   still runs the abandoned mutation's document.
   */
  method TwoCrashesFoolReconcile(
    h: Host, users: seq<CompatUser>, a: ApplyAnswers, save: bool, b: ApplyAnswers, c1: ApplyAnswers, c2: ApplyAnswers,
    ghost previous: seq<CompatUser>, doc: ServerConfig, abandoned: ServerConfig)
    returns (r: Option<ApplyResult>)
    requires h.Valid() && LoadUsers(h.now.files) == Some(previous) && h.now.singbox == Runs(doc)
    requires Has(h.now, ConfigJson, Config(doc)) && Has(h.now, AppliedStamp, Stamp(doc))
    requires DocFor(h.d, h.now.files, previous, c1.now) == DocFor(h.d, h.now.files, previous, c2.now) == Some(doc)
    requires abandoned != doc && SwapsIn(h.d, h.now, users, true, a, abandoned) && a.reload
    requires c1.binary && c1.afterSwap && c1.swap == SwapAnswers(true, true, Copied, true, true)
    requires c2.binary && c2.gate && c2.active
    modifies h
    ensures r == Some(Live) && LoadUsers(h.now.files) == Some(previous) && h.now.singbox == Runs(abandoned)
    ensures !AgreedAt(h.d, h.now, previous, c2.now)
  {
    ghost var s0 := h.now;
    MutationKilledAfterReload(h.d, s0, previous, users, a, save, b, abandoned);
    DieDuring(h, LoadUsers(h.now.files).value, users, a, save, b, UpToSwap(h.now, abandoned, a) + 1);
    SwapKeepsInputs(h.d, s0, abandoned, previous, c1.now);
    SwapKeepsInputs(h.d, s0, abandoned, previous, c2.now);
    ghost var s1 := h.now;
    KilledAroundReload(h.d, s1, previous, false, c1, doc);
    DieReconciling(h, c1, UpToSwap(h.now, doc, c1));
    SwapKeepsInputs(h.d, s1, doc, previous, c2.now);
    r := Reconcile(h, c2);
  }

  /**
   A service manager that answers the gate and is gone when asked again after
   the swap: the store shows `users`, the server does not run them.
   */
  method FlappingManagerPublishesEarly(
    h: Host, previous: seq<CompatUser>, users: seq<CompatUser>, a: ApplyAnswers, b: ApplyAnswers)
    returns (r: MutationResult)
    requires h.Valid() && !a.offline && !a.afterSwap && PublishesEarly(h.d, h.now, users, a, true)
    requires !AlreadyCurrent(h.now, DocFor(h.d, h.now.files, users, a.now).value, a)
    modifies h
    ensures r == Done(false) && LoadUsers(h.now.files) == Some(users) && old(h.history) <= h.history
    ensures !TrailInOrder(h.d, old(h.now), h.history[|old(h.history)|..], users, a.now)
  {
    r := ApplyUsersAndSave(h, previous, users, a, true, b);
  }

  /**
   Past an unrecovered reload the store can get ahead. A mutation's reload fails,
   the kept document is copied back and its reload fails too: `config.json` and
   the stamp name the old document and sing-box runs nothing known. Disabling a
   user who is already expired then renders that old document, takes the
   shortcut and publishes.
   */
  method UnrecoveredReloadPublishesEarly(h: Host, first: Invocation, id: string, second: Invocation)
    returns (r1: CommandResult, r2: CommandResult)
    requires h.Valid() && IsLive(first) && !first.op.RotateToken?
    requires Proposed(h.now, first.op).Some? && AgreedAt(h.d, h.now, LoadUsers(h.now.files).value, second.a.now)
    requires Has(h.now, AppliedStamp, Stamp(DocFor(h.d, h.now.files, LoadUsers(h.now.files).value, second.a.now).value))
    requires RefusedApply(DocFor(h.d, h.now.files, Proposed(h.now, first.op).value, first.a.now), true, first.a).None?
    requires !AlreadyCurrent(h.now, DocFor(h.d, h.now.files, Proposed(h.now, first.op).value, first.a.now).value, first.a)
    requires SwapSucceeds(h.now.files, first.a.swap) && first.a.afterSwap
    requires !first.a.reload && first.a.recoverCopy.Copied? && !first.a.recoverReload
    requires second.op == SetEnabled(id, false) && IsSteady(second) && second.save
    requires second.a.binary && second.a.gate && second.a.active
    requires Proposed(h.now, second.op).Some?
    requires !Has(h.now, UsersJson, Envelope(USERS_SCHEMA_VERSION, Proposed(h.now, second.op).value))
    requires var users := LoadUsers(h.now.files).value;
             forall i :: 0 <= i < |users| && users[i].id == id ==> !users[i].IsActive(second.a.now)
    modifies h
    ensures r1 == Mutated(NotApplied(ReloadFailed(false))) && r2 == Mutated(Done(true))
    ensures LoadUsers(h.now.files) == Proposed(old(h.now), second.op) && h.now.singbox == Unproven
  {
    ghost var s := h.now;
    r1 := FailUnrecovered(h, first);
    ghost var s1 := h.now;
    OldDocumentAgain(h.d, s, s1, id, second);
    ShortcutPublishes(h.d, s1, second);
    r2 := UserCommand(h, second);
  }

  /** Disabling an expired user proposes a list that renders the document already on disk and in the stamp. */
  lemma OldDocumentAgain(d: Deployment, s: Snapshot, s1: Snapshot, id: string, inv: Invocation)
    requires Frame(s, s1) && SameAt(s1.files, s.files, ConfigJson) && SameAt(s1.files, s.files, AppliedStamp)
    requires inv.op == SetEnabled(id, false) && Proposed(s, inv.op).Some? && inv.a.gate && inv.a.active
    requires AgreedAt(d, s, LoadUsers(s.files).value, inv.a.now)
    requires Has(s, AppliedStamp, Stamp(DocFor(d, s.files, LoadUsers(s.files).value, inv.a.now).value))
    requires var users := LoadUsers(s.files).value;
             forall i :: 0 <= i < |users| && users[i].id == id ==> !users[i].IsActive(inv.a.now)
    ensures Proposed(s1, inv.op) == Proposed(s, inv.op) && DocFor(d, s1.files, Proposed(s, inv.op).value, inv.a.now).Some?
    ensures AlreadyCurrent(s1, DocFor(d, s1.files, Proposed(s, inv.op).value, inv.a.now).value, inv.a)
  {
    assert SameAt(s1.files, s.files, UsersJson);
    DisabledRendersSame(d, s.files, LoadUsers(s.files).value, id, inv.a.now);
    SameDoc(d, s1.files, s.files, Proposed(s, inv.op).value, inv.a.now);
  }

  lemma DisabledRendersSame(d: Deployment, files: Files, users: seq<CompatUser>, id: string, now: int)
    requires ApplyOp(users, SetEnabled(id, false)).Some?
    requires forall i :: 0 <= i < |users| && users[i].id == id ==> !users[i].IsActive(now)
    ensures DocFor(d, files, ApplyOp(users, SetEnabled(id, false)).value, now) == DocFor(d, files, users, now)
  {
    DisablingInactive(users, id, now);
  }

  /** A command whose reload and recovery both fail: what it leaves behind. */
  method FailUnrecovered(h: Host, inv: Invocation) returns (r: CommandResult)
    requires h.Valid() && !inv.op.RotateToken? && ConfigJson in h.now.files && Proposed(h.now, inv.op).Some?
    requires RefusedApply(DocFor(h.d, h.now.files, Proposed(h.now, inv.op).value, inv.a.now), true, inv.a).None?
    requires !AlreadyCurrent(h.now, DocFor(h.d, h.now.files, Proposed(h.now, inv.op).value, inv.a.now).value, inv.a)
    requires SwapSucceeds(h.now.files, inv.a.swap) && inv.a.afterSwap
    requires !inv.a.reload && inv.a.recoverCopy.Copied? && !inv.a.recoverReload
    modifies h
    ensures h.Valid() && r == Mutated(NotApplied(ReloadFailed(false)))
    ensures Frame(old(h.now), h.now) && h.now.singbox == Unproven
    ensures SameAt(h.now.files, old(h.now).files, ConfigJson) && SameAt(h.now.files, old(h.now).files, AppliedStamp)
  {
    ghost var s := h.now;
    UnrecoveredEnd(h.d, s, Proposed(s, inv.op).value, inv.a);
    ApplyFramed(h.d, s, Proposed(s, inv.op).value, true, inv.a);
    r := UserCommand(h, inv);
  }

  /** A command that takes the shortcut writes the store and nothing else. */
  lemma ShortcutPublishes(d: Deployment, s: Snapshot, inv: Invocation)
    requires IsLive(inv) && !inv.op.RotateToken? && inv.save && Proposed(s, inv.op).Some?
    requires RefusedApply(DocFor(d, s.files, Proposed(s, inv.op).value, inv.a.now), true, inv.a).None?
    requires AlreadyCurrent(s, DocFor(d, s.files, Proposed(s, inv.op).value, inv.a.now).value, inv.a)
    ensures CommandTrail(d, s, inv) == [With(s, UsersJson, Envelope(USERS_SCHEMA_VERSION, Proposed(s, inv.op).value))]
    ensures CommandVerdict(d, s, inv) == Mutated(Done(true))
  {}
}
