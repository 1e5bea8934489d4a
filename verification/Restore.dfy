/**
 `vpn-admin restore`: all-or-nothing over the manifest files, and the inverse of backup.
 */
module Restore {
  import opened Wrappers
  import opened CompatModel
  import opened ServerRender
  import opened Hosts
  import opened ConfigApply
  import opened UserMutation
  import opened FileTransactions
  import opened Archive

  datatype RestoreUndo = RestoreUndo(restore: Path -> bool, apply: ApplyAnswers, subscriptionSeen: bool, restart: bool)

  datatype RestoreAnswers = RestoreAnswers(
    offline: bool, gate: bool, backup: Path -> BackupAnswer, discard: Path -> bool,
    saveUsers: bool, install: Path -> bool, policy: Path -> bool,
    apply: ApplyAnswers, subscriptionSeen: bool, restart: bool, undo: RestoreUndo)

  /** `RolledBack(true)` is the failure that reports the complete previous state restored. */
  datatype RestoreResult = Refused | NotStarted | RolledBack(ok: bool) | Restored

  // ------------------------------------------------------------- validation

  function StagedText(staged: Staging, p: Path): Option<string> {
    if RelOf(p) in staged && staged[RelOf(p)].Text? then Some(staged[RelOf(p)].text) else None
  }

  /** Everything checked before any live file is touched. */
  predicate Restorable(derive: string -> Option<string>, staged: Staging) {
    && RelOf(UsersJson) in staged && ParseUsers(staged[RelOf(UsersJson)]).Some?
    && RelOf(ShortId) in staged
    && StagedText(staged, PrivateKey).Some? && StagedText(staged, PublicKey).Some?
    && derive(StagedText(staged, PrivateKey).value) == Some(StagedText(staged, PublicKey).value)
    && (RelOf(TlsCert) in staged <==> RelOf(TlsKey) in staged)
  }

  /** A deployment worth backing up: readable store, coherent key triple, whole or absent TLS pair. */
  predicate CoherentDeployment(d: Deployment, files: Files) {
    && UsersJson in files && LoadUsers(files).Some?
    && LoadReality(d, files).Some?
    && (TlsCert in files <==> TlsKey in files)
  }

  /** What a coherent deployment stages is restorable, with the same user list. */
  lemma CoherentBackupIsRestorable(d: Deployment, files: Files, staged: Staging)
    requires CoherentDeployment(d, files) && StagedFrom(files, staged)
    ensures Restorable(d.derive, staged)
    ensures ParseUsers(staged[RelOf(UsersJson)]) == LoadUsers(files)
  {
    assert InManifest(UsersJson) && InManifest(PrivateKey) && InManifest(PublicKey) && InManifest(ShortId)
           && InManifest(TlsCert) && InManifest(TlsKey);
  }

  // ----------------------------------------------------------------- install

  /** `p` holds its archived contents, or is untouched when the archive lacks it. */
  predicate PlacedFrom(staged: Staging, place: Path -> RelPath, f0: Files, f: Files, p: Path) {
    if place(p) in staged then p in f && f[p] == staged[place(p)] && f[p].Text? else SameAt(f, f0, p)
  }

  /** The archive lacks `p`, or its contents are readable and can be installed under their access policy. */
  predicate InstallsAt(staged: Staging, place: Path -> RelPath, a: RestoreAnswers, p: Path) {
    place(p) in staged ==> staged[place(p)].Text? && a.install(p) && a.policy(p)
  }

  predicate Installs(staged: Staging, place: Path -> RelPath, a: RestoreAnswers, paths: seq<Path>) {
    a.saveUsers && a.policy(UsersJson) && forall j :: 1 <= j < |paths| ==> InstallsAt(staged, place, a, paths[j])
  }

  /** `paths[i]` itself was written: everything from `k` on went through before it, and its contents can be installed. */
  predicate WrittenAt(staged: Staging, place: Path -> RelPath, a: RestoreAnswers, paths: seq<Path>, k: nat, i: nat)
    requires i < |paths|
  {
    && place(paths[i]) in staged && staged[place(paths[i])].Text? && a.install(paths[i])
    && forall j :: k <= j < i ==> InstallsAt(staged, place, a, paths[j])
  }

  /** Which files there are once an installation has gone as far as it can. */
  ghost predicate PresentAsWritten(
    staged: Staging, place: Path -> RelPath, a: RestoreAnswers, paths: seq<Path>, k: nat, f0: Files, f: Files)
  {
    forall i :: k <= i < |paths| ==> (paths[i] in f <==> paths[i] in f0 || WrittenAt(staged, place, a, paths, k, i))
  }

  /** The installation stopped at `n`, or went through if that is the end. */
  lemma StoppedAt(
    staged: Staging, place: Path -> RelPath, a: RestoreAnswers, paths: seq<Path>, k: nat, n: nat, f0: Files, f: Files)
    requires k <= n <= |paths|
    requires forall j :: k <= j < n ==> InstallsAt(staged, place, a, paths[j]) && PlacedFrom(staged, place, f0, f, paths[j])
    requires forall j :: n < j < |paths| ==> SameAt(f, f0, paths[j])
    requires n < |paths| ==>
               && !InstallsAt(staged, place, a, paths[n])
               && (paths[n] in f <==> paths[n] in f0 || WrittenAt(staged, place, a, paths, n, n))
    ensures PresentAsWritten(staged, place, a, paths, k, f0, f)
  {
    forall i | k <= i < |paths|
      ensures paths[i] in f <==> paths[i] in f0 || WrittenAt(staged, place, a, paths, k, i)
    {
      if i < n {
        assert InstallsAt(staged, place, a, paths[i]) && PlacedFrom(staged, place, f0, f, paths[i]);
      } else if i > n {
        assert SameAt(f, f0, paths[i]) && !InstallsAt(staged, place, a, paths[n]);
      }
    }
  }

  lemma InstallKeepsBackups(f0: Files, f: Files, p: Path, c: Content, paths: seq<Path>)
    requires Targets(paths) && !p.RotateBak? && BackedUp(f0, f, paths)
    ensures BackedUp(f0, f[p := c], paths) && Survives(f0, f[p := c], paths)
  {
    forall i | 0 <= i < |paths| ensures SetAside(f0, f[p := c], paths[i]) && Kept(f0, f[p := c], paths[i]) {
      assert SetAside(f0, f, paths[i]);
    }
  }

  /** Installs, in manifest order, every file the archive has; `k` files are already in place. */
  method InstallStaged(
    h: Host, paths: seq<Path>, k: nat, staged: Staging, place: Path -> RelPath, a: RestoreAnswers, ghost f0: Files)
    returns (ok: bool)
    requires h.Valid() && Targets(paths) && k <= |paths| && BackedUp(f0, h.now.files, paths)
    requires forall j :: k <= j < |paths| ==> SameAt(h.now.files, f0, paths[j])
    modifies h
    ensures h.Valid() && old(h.history) <= h.history
    ensures h.now.singbox == old(h.now).singbox && h.now.subscription == old(h.now).subscription
    ensures SameExcept(h.now.files, old(h.now).files, iset p | p in paths[k..]) && BackedUp(f0, h.now.files, paths)
    ensures ok <==> forall j :: k <= j < |paths| ==> InstallsAt(staged, place, a, paths[j])
    ensures ok ==> forall j :: k <= j < |paths| ==> PlacedFrom(staged, place, f0, h.now.files, paths[j])
    ensures PresentAsWritten(staged, place, a, paths, k, f0, h.now.files)
    ensures forall i :: |old(h.history)| <= i < |h.history| ==> Survives(f0, h.history[i].files, paths)
  {
    for i := k to |paths|
      invariant h.Valid() && old(h.history) <= h.history
      invariant h.now.singbox == old(h.now).singbox && h.now.subscription == old(h.now).subscription
      invariant SameExcept(h.now.files, old(h.now).files, iset p | p in paths[k..]) && BackedUp(f0, h.now.files, paths)
      invariant forall j :: i <= j < |paths| ==> SameAt(h.now.files, f0, paths[j])
      invariant forall j :: k <= j < i ==> InstallsAt(staged, place, a, paths[j])
      invariant forall j :: k <= j < i ==> PlacedFrom(staged, place, f0, h.now.files, paths[j])
      invariant forall j :: |old(h.history)| <= j < |h.history| ==> Survives(f0, h.history[j].files, paths)
    {
      ghost var f, n := h.now.files, |h.history|;
      ok := InstallOne(h, paths, i, staged, place, a, f0);
      FrameGrows(old(h.now).files, f, h.now.files, paths, k, i);
      OnlyOneMoved(f, h.now.files, f0, paths, i);
      OthersStayPlaced(staged, place, f0, f, h.now.files, paths, k, i);
      if !ok {
        StoppedAt(staged, place, a, paths, k, i, f0, h.now.files);
        return;
      }
    }
    StoppedAt(staged, place, a, paths, k, |paths|, f0, h.now.files);
    return true;
  }

  lemma FrameGrows(f: Files, g: Files, g': Files, paths: seq<Path>, k: nat, i: nat)
    requires k <= i < |paths| && SameExcept(g, f, iset p | p in paths[k..]) && SameExcept(g', g, iset{paths[i]})
    ensures SameExcept(g', f, iset p | p in paths[k..])
  {
    assert paths[i] == paths[k..][i - k];
    var frame := iset p | p in paths[k..];
    SameExceptTrans(g', g, f, iset{paths[i]}, frame, frame);
  }

  lemma OnlyOneMoved(f: Files, g: Files, f0: Files, paths: seq<Path>, i: nat)
    requires Targets(paths) && i < |paths| && SameExcept(g, f, iset{paths[i]})
    requires forall j :: i < j < |paths| ==> SameAt(f, f0, paths[j])
    ensures forall j :: i < j < |paths| ==> SameAt(g, f0, paths[j])
  {
    forall j | i < j < |paths| ensures SameAt(g, f0, paths[j]) {
      assert paths[j] != paths[i] && SameAt(f, f0, paths[j]) && SameAt(g, f, paths[j]);
    }
  }

  lemma OthersStayPlaced(staged: Staging, place: Path -> RelPath, f0: Files, f: Files, g: Files, paths: seq<Path>, k: nat, i: nat)
    requires Targets(paths) && k <= i < |paths| && SameExcept(g, f, iset{paths[i]})
    requires forall j :: k <= j < i ==> PlacedFrom(staged, place, f0, f, paths[j])
    ensures forall j :: k <= j < i ==> PlacedFrom(staged, place, f0, g, paths[j])
  {
    forall j | k <= j < i ensures PlacedFrom(staged, place, f0, g, paths[j]) {
      assert paths[j] != paths[i] && PlacedFrom(staged, place, f0, f, paths[j]) && SameAt(g, f, paths[j]);
    }
  }

  /** Installs one file if the archive has it. */
  method InstallOne(
    h: Host, paths: seq<Path>, i: nat, staged: Staging, place: Path -> RelPath, a: RestoreAnswers, ghost f0: Files)
    returns (ok: bool)
    requires h.Valid() && Targets(paths) && i < |paths| && BackedUp(f0, h.now.files, paths) && SameAt(h.now.files, f0, paths[i])
    modifies h
    ensures h.Valid() && old(h.history) <= h.history
    ensures h.now.singbox == old(h.now).singbox && h.now.subscription == old(h.now).subscription
    ensures SameExcept(h.now.files, old(h.now).files, iset{paths[i]}) && BackedUp(f0, h.now.files, paths)
    ensures ok <==> InstallsAt(staged, place, a, paths[i])
    ensures ok ==> PlacedFrom(staged, place, f0, h.now.files, paths[i])
    ensures paths[i] in h.now.files <==> paths[i] in f0 || WrittenAt(staged, place, a, paths, i, i)
    ensures forall j :: |old(h.history)| <= j < |h.history| ==> Survives(f0, h.history[j].files, paths)
  {
    var p := paths[i];
    if place(p) !in staged {
      return true;
    }
    if !staged[place(p)].Text? || !a.install(p) {
      return false;
    }
    InstallKeepsBackups(f0, h.now.files, p, staged[place(p)], paths);
    h.Install(p, staged[place(p)]);
    return a.policy(p);
  }

  // ---------------------------------------------------------------- rollback

  /** sing-box, its configuration and the stamp are as they were. */
  predicate SameServer(s0: Snapshot, s: Snapshot) {
    s.singbox == s0.singbox && SameAt(s.files, s0.files, ConfigJson) && SameAt(s.files, s0.files, AppliedStamp)
  }

  /** Applying `doc` in `s` leaves sing-box on it: it ran it already, or neither the shortcut nor a vanished manager skips the reload. */
  predicate Reaches(s: Snapshot, doc: ServerConfig, a: ApplyAnswers) {
    s.singbox == Runs(doc) || (!AlreadyCurrent(s, doc, a) && a.afterSwap)
  }

  /** A rollback begun in `s` ended in `s1`: sing-box is on the stored users' document exactly when the reapply reached it. */
  predicate ServesAgain(d: Deployment, s: Snapshot, s1: Snapshot, a: ApplyAnswers) {
    var users := LoadUsers(s1.files);
    users.Some? && a.gate &&
    var doc := DocFor(d, s1.files, users.value, a.now);
    && doc.Some? && (AgreedAt(d, s1, users.value, a.now) <==> Reaches(s, doc.value, a))
    && (Steady(a) && StampSound(s) ==> StampSound(s1))
  }

  lemma ReapplyServes(d: Deployment, s: Snapshot, s1: Snapshot, users: seq<CompatUser>, a: ApplyAnswers, r: ApplyResult)
    requires LoadUsers(s.files) == Some(users) && ApplyOutcome(d, s, s1, users, a, true, r) && !r.Failed? && !a.offline
    ensures ServesAgain(d, s, s1, a)
  {
    LoadedAfterApply(d, s, s1, users, a, r);
    if Steady(a) && StampSound(s) {
      SoundAfterApply(d, s, s1, users, a, r);
    }
    assert SameAt(s1.files, s.files, UsersJson);
    SameDoc(d, s1.files, s.files, users, a.now);
  }

  lemma ServesAgainFrom(d: Deployment, s: Snapshot, t: Snapshot, s1: Snapshot, a: ApplyAnswers, subscription: Serving)
    requires SameServer(s, t) && ServesAgain(d, t, s1, a)
    ensures ServesAgain(d, s, s1.(subscription := subscription), a)
  {}

  /** Where the rollback of a restore begins, as far as sing-box is concerned; `e` is the state the archive was to be loaded in. */
  function RollbackStart(d: Deployment, e: Snapshot, users: seq<CompatUser>, installed: bool, a: ApplyAnswers): Snapshot {
    if installed then EndOf(e, ApplyTrail(d, e, users, true, a)) else e
  }

  /** Loading the archive ended on a reload that failed and could not be recovered. */
  predicate LeftUnrecovered(d: Deployment, e: Snapshot, users: seq<CompatUser>, installed: bool, a: ApplyAnswers) {
    installed && var v := ApplyVerdict(d, e, users, true, a); v.Failed? && Unrecovered(v.why)
  }

  /** Only an unrecovered reload of the archive can leave a complete rollback with sing-box off the stored users. */
  lemma RollbackAgrees(
    d: Deployment, e: Snapshot, s1: Snapshot, users: seq<CompatUser>, installed: bool, a: ApplyAnswers, u: ApplyAnswers)
    requires StampSound(e) && Steady(a) && Steady(u) && !LeftUnrecovered(d, e, users, installed, a)
    requires ServesAgain(d, RollbackStart(d, e, users, installed, a), s1, u)
    ensures AgreedAt(d, s1, LoadUsers(s1.files).value, u.now) && StampSound(s1)
  {
    if installed {
      ApplyEnds(d, e, users, true, a);
      SoundAfterApply(d, e, RollbackStart(d, e, users, true, a), users, a, ApplyVerdict(d, e, users, true, a));
    }
  }

  /** Renders and loads whatever user list is now on disk; no set-aside file is touched. */
  method ReapplyPrevious(h: Host, order: seq<Path>, apply: ApplyAnswers, ghost f0: Files) returns (ok: bool)
    requires h.Valid() && Targets(order) && Survives(f0, h.now.files, order)
    modifies h
    ensures h.Valid() && old(h.history) <= h.history
    ensures forall i :: 0 <= i < |order| ==> SameAt(h.now.files, old(h.now).files, order[i])
    ensures ok <==> LoadUsers(old(h.now).files).Some? && !ApplyFails(h.d, old(h.now), LoadUsers(old(h.now).files).value, apply)
    ensures ok && !apply.offline ==> ServesAgain(h.d, old(h.now), h.now, apply)
    ensures Survives(f0, h.now.files, order)
    ensures forall i :: |old(h.history)| <= i < |h.history| ==> Survives(f0, h.history[i].files, order)
  {
    ghost var s1, m := h.now, |h.history|;
    var users := LoadUsers(h.now.files);
    if users.None? {
      return false;
    }
    var r := RenderAndApply(h, users.value, true, apply);
    ok := !r.Failed?;
    FailsExactly(h.d, s1, h.now, users.value, apply, r);
    if ok && !apply.offline {
      ReapplyServes(h.d, s1, h.now, users.value, apply, r);
    }
    SlotsKept(f0, s1.files, h.now.files, order);
    forall i | m <= i < |h.history| ensures Survives(f0, h.history[i].files, order) {
      SlotsKept(f0, s1.files, h.history[i].files, order);
    }
  }

  /** What a rollback reads to reapply the previous authorization. */
  const RENDER_INPUTS := {UsersJson, PrivateKey, PublicKey, ShortId, ObfsPassword}

  ghost predicate Covers(order: seq<Path>) {
    forall p :: p in RENDER_INPUTS ==> p in order
  }

  /** With the files of `f0` back on the server of `s`, there is a list to reapply and its apply does not fail. */
  predicate ReapplyWorks(d: Deployment, f0: Files, s: Snapshot, a: ApplyAnswers) {
    var users := LoadUsers(f0);
    users.Some? &&
    var doc := DocFor(d, f0, users.value, a.now);
    if doc.None? || !a.binary || (!a.offline && !a.gate) then a.offline
    else AlreadyCurrent(s, doc.value, a) || (SwapSucceeds(s.files, a.swap) && (a.afterSwap ==> Forward(a) && a.stamp))
  }

  /** Exactly when a rollback begun in `s` reports the state of `f0` completely restored. */
  predicate UndoSucceeds(d: Deployment, f0: Files, s: Snapshot, order: seq<Path>, u: RestoreUndo, offline: bool) {
    && RestoresWork(f0, s.files, order, u.restore) && ReapplyWorks(d, f0, s, u.apply)
    && (if u.subscriptionSeen then u.restart else offline)
  }

  lemma ReapplyFromInputs(d: Deployment, f0: Files, s: Snapshot, t: Snapshot, order: seq<Path>, a: ApplyAnswers)
    requires Covers(order) && SameServer(s, t) && forall i :: 0 <= i < |order| ==> SameAt(t.files, f0, order[i])
    ensures LoadUsers(t.files) == LoadUsers(f0)
    ensures LoadUsers(f0).Some? ==> (ReapplyWorks(d, f0, s, a) <==> !ApplyFails(d, t, LoadUsers(f0).value, a))
  {
    forall p | p in RENDER_INPUTS ensures SameAt(t.files, f0, p) {
      var i :| 0 <= i < |order| && order[i] == p;
    }
    assert SameAt(t.files, f0, UsersJson);
    if LoadUsers(f0).Some? {
      SameDoc(d, t.files, f0, LoadUsers(f0).value, a.now);
    }
  }

  lemma CannotFailSucceeds(d: Deployment, f0: Files, s: Snapshot, order: seq<Path>, u: RestoreUndo, offline: bool)
    requires CannotFail(d, f0, u, order, offline)
    ensures UndoSucceeds(d, f0, s, order, u, offline)
  {
    forall i | 0 <= i < |order| ensures RestoreWorks(f0, s.files, order[i], u.restore) {
      assert order[i] in order;
    }
  }

  /** No step of the rollback fails. */
  predicate UndoWorks(u: RestoreUndo, order: seq<Path>, offline: bool) {
    && (forall p :: p in order ==> u.restore(p)) && Smooth(u.apply)
    && (if u.subscriptionSeen then u.restart else offline)
  }

  /** The host had a user list and a key triple that render. */
  predicate Usable(d: Deployment, files: Files) {
    LoadUsers(files).Some? && LoadReality(d, files).Some?
  }

  /** A rollback to a usable host, with no failing step. */
  ghost predicate CannotFail(d: Deployment, files: Files, u: RestoreUndo, order: seq<Path>, offline: bool) {
    UndoWorks(u, order, offline) && Usable(d, files)
  }

  /** How a rollback begun in `s` ended. */
  ghost predicate RolledBackFrom(
    d: Deployment, f0: Files, s: Snapshot, s1: Snapshot, paths: seq<Path>, u: RestoreUndo, offline: bool, ok: bool)
  {
    && (Covers(paths) ==> (ok <==> UndoSucceeds(d, f0, s, paths, u, offline)))
    && (ok ==> forall i :: 0 <= i < |paths| ==> SameAt(s1.files, f0, paths[i]))
    && (ok ==> if u.subscriptionSeen then s1.subscription == EndpointsFor(d, s1.files) else offline)
    && (ok && !u.apply.offline ==> ServesAgain(d, s, s1, u.apply))
  }

  /** Files back first, then the previous authorization, then the subscription service. */
  method UndoRestore(h: Host, order: seq<Path>, existed: seq<bool>, u: RestoreUndo, offline: bool, ghost s0: Snapshot)
    returns (ok: bool)
    requires h.Valid() && Targets(order)
    requires Existed(s0.files, order, existed) && BackedUp(s0.files, h.now.files, order)
    modifies h
    ensures h.Valid() && old(h.history) <= h.history
    ensures RolledBackFrom(h.d, s0.files, old(h.now), h.now, order, u, offline, ok)
    ensures forall i :: |old(h.history)| <= i < |h.history| ==> Survives(s0.files, h.history[i].files, order)
  {
    ghost var s := h.now;
    ok := PutAllBack(h, order, existed, u.restore, s0.files);
    ghost var t := h.now;
    assert SameServer(s, t);
    if ok && Covers(order) {
      ReapplyFromInputs(h.d, s0.files, s, t, order, u.apply);
    }
    var reapplied := ReapplyPrevious(h, order, u.apply, s0.files);
    ok := ok && reapplied;
    ghost var s1 := h.now;
    if u.subscriptionSeen {
      h.RestartSubscription(u.restart);
      ok := ok && u.restart;
    } else if !offline {
      ok := false;
    }
    if ok && !u.apply.offline {
      ServesAgainFrom(h.d, s, t, s1, u.apply, h.now.subscription);
    }
  }

  /** The order the rollback works in: the store last. */
  function UndoOrder<T>(s: seq<T>): seq<T>
    requires s != []
  {
    s[1..] + [s[0]]
  }

  lemma UndoOrderFacts(f0: Files, f: Files, paths: seq<Path>, existed: seq<bool>)
    requires paths != [] && Targets(paths) && Existed(f0, paths, existed) && BackedUp(f0, f, paths)
    ensures Targets(UndoOrder(paths)) && Existed(f0, UndoOrder(paths), UndoOrder(existed)) && BackedUp(f0, f, UndoOrder(paths))
  {
    forall i | 0 <= i < |paths| - 1 ensures UndoOrder(paths)[i] == paths[i + 1] && UndoOrder(existed)[i] == existed[i + 1] {}
  }

  lemma UndoOrderSucceeds(d: Deployment, f0: Files, s: Snapshot, u: RestoreUndo, paths: seq<Path>, offline: bool)
    requires paths != []
    ensures Covers(UndoOrder(paths)) <==> Covers(paths)
    ensures UndoSucceeds(d, f0, s, UndoOrder(paths), u, offline) <==> UndoSucceeds(d, f0, s, paths, u, offline)
  {
    SameMembers(paths);
    RestoresByMember(f0, s.files, paths, u.restore);
    RestoresByMember(f0, s.files, UndoOrder(paths), u.restore);
  }

  lemma RestoresByMember(f0: Files, f: Files, paths: seq<Path>, restore: Path -> bool)
    ensures RestoresWork(f0, f, paths, restore) <==> forall p :: p in paths ==> RestoreWorks(f0, f, p, restore)
  {}

  lemma SameMembers<T>(s: seq<T>)
    requires s != []
    ensures forall x :: x in UndoOrder(s) <==> x in s
  {
    assert s == [s[0]] + s[1..];
  }

  lemma UndoOrderBack(f0: Files, f: Files, paths: seq<Path>)
    requires paths != []
    ensures Survives(f0, f, UndoOrder(paths)) ==> Survives(f0, f, paths)
    ensures (forall i :: 0 <= i < |paths| ==> SameAt(f, f0, UndoOrder(paths)[i])) ==> forall i :: 0 <= i < |paths| ==> SameAt(f, f0, paths[i])
  {
    var order := UndoOrder(paths);
    forall i | 0 <= i < |paths| ensures paths[i] == order[if i == 0 then |paths| - 1 else i - 1] {}
  }

  /** Neither the listing of the files nor the subscription service before it matters to a rollback. */
  lemma RolledBackInOrder(
    d: Deployment, f0: Files, s: Snapshot, t: Snapshot, s1: Snapshot, paths: seq<Path>, u: RestoreUndo, offline: bool, ok: bool)
    requires paths != [] && t.files == s.files && t.singbox == s.singbox
    requires RolledBackFrom(d, f0, t, s1, UndoOrder(paths), u, offline, ok)
    ensures RolledBackFrom(d, f0, s, s1, paths, u, offline, ok)
  {
    UndoOrderSucceeds(d, f0, s, u, paths, offline);
    UndoOrderBack(f0, s1.files, paths);
    if ok && !u.apply.offline {
      ServesAgainFrom(d, s, t, s1, u.apply, s1.subscription);
    }
  }

  /** `UndoRestore` over the transaction's own listing of its files; `s` is where it begins, up to the subscription service. */
  method RollBackRestore(h: Host, paths: seq<Path>, existed: seq<bool>, a: RestoreAnswers, ghost s0: Snapshot, ghost s: Snapshot)
    returns (r: RestoreResult)
    requires h.Valid() && paths != [] && Targets(paths) && h.now.files == s.files && h.now.singbox == s.singbox
    requires Existed(s0.files, paths, existed) && BackedUp(s0.files, h.now.files, paths)
    modifies h
    ensures h.Valid() && old(h.history) <= h.history
    ensures r.RolledBack? && RolledBackFrom(h.d, s0.files, s, h.now, paths, a.undo, a.offline, r.ok)
    ensures forall i :: |old(h.history)| <= i < |h.history| ==> Survives(s0.files, h.history[i].files, paths)
  {
    ghost var t, n := h.now, |h.history|;
    UndoOrderFacts(s0.files, h.now.files, paths, existed);
    var ok := UndoRestore(h, UndoOrder(paths), UndoOrder(existed), a.undo, a.offline, s0);
    RolledBackInOrder(h.d, s0.files, s, t, h.now, paths, a.undo, a.offline, ok);
    forall i | n <= i < |h.history| ensures Survives(s0.files, h.history[i].files, paths) {
      UndoOrderBack(s0.files, h.history[i].files, paths);
    }
    return RolledBack(ok);
  }

  // ------------------------------------------------------------- transaction

  /** The archive is in place: its user list, its files, and the previous contents of every file it lacks. */
  ghost predicate InPlace(
    staged: Staging, place: Path -> RelPath, users: seq<CompatUser>, f0: Files, f: Files, paths: seq<Path>)
  {
    && (forall j :: 1 <= j < |paths| ==> PlacedFrom(staged, place, f0, f, paths[j]))
    && UsersJson in f && f[UsersJson] == Envelope(USERS_SCHEMA_VERSION, users)
  }

  lemma InPlaceKept(
    staged: Staging, place: Path -> RelPath, users: seq<CompatUser>, f0: Files, f: Files, g: Files, paths: seq<Path>)
    requires paths != [] && paths[0] == UsersJson
    requires InPlace(staged, place, users, f0, f, paths)
    requires forall i :: 0 <= i < |paths| ==> SameAt(g, f, paths[i])
    ensures InPlace(staged, place, users, f0, g, paths)
  {
    assert SameAt(g, f, paths[0]);
    forall j | 1 <= j < |paths| ensures PlacedFrom(staged, place, f0, g, paths[j]) {
      assert SameAt(g, f, paths[j]) && PlacedFrom(staged, place, f0, f, paths[j]);
    }
  }

  /** The installation as a whole wrote `paths[i]`: the store first, the rest only after it and in order. */
  predicate Written(staged: Staging, place: Path -> RelPath, a: RestoreAnswers, paths: seq<Path>, i: nat)
    requires i < |paths|
  {
    a.saveUsers && (i > 0 ==> a.policy(UsersJson) && WrittenAt(staged, place, a, paths, 1, i))
  }

  ghost predicate Present(staged: Staging, place: Path -> RelPath, a: RestoreAnswers, paths: seq<Path>, f0: Files, f: Files) {
    forall i :: 0 <= i < |paths| ==> (paths[i] in f <==> paths[i] in f0 || Written(staged, place, a, paths, i))
  }

  lemma PresentWhole(staged: Staging, place: Path -> RelPath, a: RestoreAnswers, paths: seq<Path>, f0: Files, f: Files)
    requires paths != [] && (paths[0] in f <==> paths[0] in f0 || a.saveUsers)
    requires a.saveUsers && a.policy(UsersJson) ==> PresentAsWritten(staged, place, a, paths, 1, f0, f)
    requires !(a.saveUsers && a.policy(UsersJson)) ==> forall j :: 1 <= j < |paths| ==> SameAt(f, f0, paths[j])
    ensures Present(staged, place, a, paths, f0, f)
  {
    forall i | 0 <= i < |paths| ensures paths[i] in f <==> paths[i] in f0 || Written(staged, place, a, paths, i) {
      if i > 0 && !(a.saveUsers && a.policy(UsersJson)) {
        assert SameAt(f, f0, paths[i]);
      }
    }
  }

  /** `install_all`: the store first, then every archived file. */
  method InstallAll(
    h: Host, paths: seq<Path>, users: seq<CompatUser>, staged: Staging, place: Path -> RelPath, a: RestoreAnswers, ghost s0: Snapshot)
    returns (ok: bool)
    requires h.Valid() && paths != [] && paths[0] == UsersJson && Targets(paths)
    requires BackedUp(s0.files, h.now.files, paths) && LiveSame(s0, h.now)
    modifies h
    ensures h.Valid() && old(h.history) <= h.history
    ensures BackedUp(s0.files, h.now.files, paths)
    ensures SameServer(s0, h.now)
    ensures ok <==> Installs(staged, place, a, paths)
    ensures ok ==> InPlace(staged, place, users, s0.files, h.now.files, paths)
    ensures Present(staged, place, a, paths, s0.files, h.now.files)
    ensures forall i :: |old(h.history)| <= i < |h.history| ==> Survives(s0.files, h.history[i].files, paths)
  {
    ghost var s1 := h.now;
    assert SameAt(s1.files, s0.files, ConfigJson) && SameAt(s1.files, s0.files, AppliedStamp);
    if !a.saveUsers {
      LiveSameTargets(s0, s1, paths);
      PresentWhole(staged, place, a, paths, s0.files, h.now.files);
      return false;
    }
    InstallKeepsBackups(s0.files, h.now.files, UsersJson, Envelope(USERS_SCHEMA_VERSION, users), paths);
    h.Install(UsersJson, Envelope(USERS_SCHEMA_VERSION, users));
    ghost var s2 := h.now;
    forall j | 1 <= j < |paths| ensures SameAt(h.now.files, s0.files, paths[j]) {
      assert SameAt(s1.files, s0.files, paths[j]) && paths[j] != paths[0];
    }
    if !a.policy(UsersJson) {
      PresentWhole(staged, place, a, paths, s0.files, h.now.files);
      return false;
    }
    ok := InstallStaged(h, paths, 1, staged, place, a, s0.files);
    assert SameAt(h.now.files, s2.files, UsersJson) && SameAt(h.now.files, s2.files, ConfigJson) && SameAt(h.now.files, s2.files, AppliedStamp);
    PresentWhole(staged, place, a, paths, s0.files, h.now.files);
  }

  /** Renders and loads the archived users. */
  method LoadArchived(h: Host, users: seq<CompatUser>, a: ApplyAnswers) returns (r: ApplyResult)
    requires h.Valid()
    modifies h
    ensures h.Valid() && old(h.history) <= h.history
    ensures h.now == EndOf(old(h.now), ApplyTrail(h.d, old(h.now), users, true, a)) && Frame(old(h.now), h.now)
    ensures r.Failed? <==> ApplyFails(h.d, old(h.now), users, a)
    ensures r.Live? && StampSound(old(h.now)) ==> AgreedAt(h.d, h.now, users, a.now) && StampHonest(h.now)
    ensures r.NotLive? && !a.offline ==> a.gate && !a.afterSwap
    ensures forall i :: |old(h.history)| <= i < |h.history| ==> Frame(old(h.now), h.history[i])
  {
    ghost var s1 := h.now;
    r := RenderAndApply(h, users, true, a);
    assert h.now == EndOf(s1, ApplyTrail(h.d, s1, users, true, a));
    FailsExactly(h.d, s1, h.now, users, a, r);
    if r.Live? && StampSound(s1) {
      LiveSettles(h.d, s1, h.now, users, a, true);
    }
  }

  /** Loads the restored authorization; the backups stay where they are. */
  method LoadRestored(
    h: Host, paths: seq<Path>, users: seq<CompatUser>, staged: Staging, place: Path -> RelPath, a: ApplyAnswers, ghost s0: Snapshot)
    returns (r: ApplyResult)
    requires h.Valid() && paths != [] && paths[0] == UsersJson && Targets(paths)
    requires BackedUp(s0.files, h.now.files, paths) && InPlace(staged, place, users, s0.files, h.now.files, paths)
    modifies h
    ensures h.Valid() && old(h.history) <= h.history
    ensures BackedUp(s0.files, h.now.files, paths) && InPlace(staged, place, users, s0.files, h.now.files, paths)
    ensures r.Failed? <==> ApplyFails(h.d, old(h.now), users, a)
    ensures h.now == EndOf(old(h.now), ApplyTrail(h.d, old(h.now), users, true, a))
    ensures r.Live? && StampSound(old(h.now)) ==> AgreedAt(h.d, h.now, users, a.now) && StampHonest(h.now)
    ensures r.NotLive? && !a.offline ==> a.gate && !a.afterSwap
    ensures forall i :: |old(h.history)| <= i < |h.history| ==> Survives(s0.files, h.history[i].files, paths)
  {
    ghost var s1, n := h.now, |h.history|;
    BackedUpSurvives(s0.files, h.now.files, paths);
    r := LoadArchived(h, users, a);
    SlotsKept(s0.files, s1.files, h.now.files, paths);
    InPlaceKept(staged, place, users, s0.files, s1.files, h.now.files, paths);
    forall i | n <= i < |h.history| ensures Survives(s0.files, h.history[i].files, paths) {
      SlotsKept(s0.files, s1.files, h.history[i].files, paths);
    }
  }

  /** Set everything aside, install, load, restart, commit; any failure rolls back. `e` is the state once all is installed. */
  method RestoreTransaction(
    h: Host, paths: seq<Path>, users: seq<CompatUser>, staged: Staging, place: Path -> RelPath, a: RestoreAnswers)
    returns (r: RestoreResult, ghost e: Snapshot)
    requires h.Valid() && paths != [] && paths[0] == UsersJson && Targets(paths)
    modifies h
    ensures h.Valid() && old(h.history) <= h.history
    ensures !r.Refused? && (r.NotStarted? <==> !Preparable(old(h.now).files, paths, a.backup))
    ensures r.NotStarted? ==> LiveSame(old(h.now), h.now)
    ensures r.Restored? <==> && !r.NotStarted? && Installs(staged, place, a, paths)
                             && !ApplyFails(h.d, e, users, a.apply) && (a.subscriptionSeen ==> a.restart)
    ensures r.RolledBack? ==>
              RolledBackFrom(h.d, old(h.now).files, RollbackStart(h.d, e, users, Installs(staged, place, a, paths), a.apply),
                h.now, paths, a.undo, a.offline, r.ok)
    ensures !r.NotStarted? ==> Present(staged, place, a, paths, old(h.now).files, e.files)
    ensures !r.NotStarted? && Installs(staged, place, a, paths) ==> InPlace(staged, place, users, old(h.now).files, e.files, paths)
    ensures r.Restored? ==> InPlace(staged, place, users, old(h.now).files, h.now.files, paths)
    ensures r.Restored? ==> Discarded(h.now, paths, a.discard)
    ensures r.Restored? && a.subscriptionSeen ==> h.now.subscription == EndpointsFor(h.d, h.now.files)
    ensures r.Restored? && StampSound(old(h.now)) && Steady(a.apply) ==> AgreedAt(h.d, h.now, users, a.apply.now) && StampHonest(h.now)
    ensures SameServer(old(h.now), e)
    ensures forall i :: |old(h.history)| <= i < |h.history| ==>
              || Survives(old(h.now).files, h.history[i].files, paths)
              || (r.Restored? && InPlace(staged, place, users, old(h.now).files, h.history[i].files, paths))
  {
    ghost var s0 := h.now;
    e := s0;
    var existed := SetAllAside(h, paths, a.backup, a.discard);
    if existed.None? {
      return NotStarted, s0;
    }
    var installed := InstallAll(h, paths, users, staged, place, a, s0);
    e := h.now;
    if !installed {
      r := RollBackRestore(h, paths, existed.value, a, s0, e);
      return;
    }
    assert StampSound(s0) ==> StampSound(h.now);
    r := FinishRestore(h, paths, existed.value, users, staged, place, a, s0);
  }

  /** Load the installed files, restart the subscription service, commit; any failure rolls back. */
  method FinishRestore(
    h: Host, paths: seq<Path>, existed: seq<bool>, users: seq<CompatUser>, staged: Staging, place: Path -> RelPath,
    a: RestoreAnswers, ghost s0: Snapshot)
    returns (r: RestoreResult)
    requires h.Valid() && paths != [] && paths[0] == UsersJson && Targets(paths) && Existed(s0.files, paths, existed)
    requires BackedUp(s0.files, h.now.files, paths) && InPlace(staged, place, users, s0.files, h.now.files, paths)
    modifies h
    ensures h.Valid() && old(h.history) <= h.history
    ensures r.Restored? <==> !ApplyFails(h.d, old(h.now), users, a.apply) && (a.subscriptionSeen ==> a.restart)
    ensures r.Restored? || r.RolledBack?
    ensures r.RolledBack? ==>
              RolledBackFrom(h.d, s0.files, RollbackStart(h.d, old(h.now), users, true, a.apply), h.now, paths, a.undo, a.offline, r.ok)
    ensures r.Restored? ==> InPlace(staged, place, users, s0.files, h.now.files, paths)
    ensures r.Restored? ==> Discarded(h.now, paths, a.discard)
    ensures r.Restored? && a.subscriptionSeen ==> h.now.subscription == EndpointsFor(h.d, h.now.files)
    ensures r.Restored? && StampSound(old(h.now)) && Steady(a.apply) ==> AgreedAt(h.d, h.now, users, a.apply.now) && StampHonest(h.now)
    ensures forall i :: |old(h.history)| <= i < |h.history| ==>
              || Survives(s0.files, h.history[i].files, paths)
              || (r.Restored? && InPlace(staged, place, users, s0.files, h.history[i].files, paths))
  {
    var applied := LoadRestored(h, paths, users, staged, place, a.apply, s0);
    ghost var s := h.now;
    if applied.Failed? {
      r := RollBackRestore(h, paths, existed, a, s0, s);
      return;
    }
    if a.subscriptionSeen {
      BackedUpSurvives(s0.files, h.now.files, paths);
      h.RestartSubscription(a.restart);
      if !a.restart {
        r := RollBackRestore(h, paths, existed, a, s0, s);
        return;
      }
    }
    CommitRestore(h, paths, users, staged, place, a, s0);
    return Restored;
  }

  /** Discards the originals of a restore that is in place and loaded. */
  method CommitRestore(
    h: Host, paths: seq<Path>, users: seq<CompatUser>, staged: Staging, place: Path -> RelPath, a: RestoreAnswers, ghost s0: Snapshot)
    requires h.Valid() && paths != [] && paths[0] == UsersJson && Targets(paths)
    requires InPlace(staged, place, users, s0.files, h.now.files, paths)
    modifies h
    ensures h.Valid() && old(h.history) <= h.history
    ensures InPlace(staged, place, users, s0.files, h.now.files, paths) && Discarded(h.now, paths, a.discard)
    ensures h.now.singbox == old(h.now).singbox && h.now.subscription == old(h.now).subscription
    ensures EndpointsFor(h.d, h.now.files) == EndpointsFor(h.d, old(h.now).files)
    ensures AgreedAt(h.d, old(h.now), users, a.apply.now) ==> AgreedAt(h.d, h.now, users, a.apply.now)
    ensures SameServer(old(h.now), h.now)
    ensures forall i :: |old(h.history)| <= i < |h.history| ==>
              InPlace(staged, place, users, s0.files, h.history[i].files, paths)
  {
    ghost var s, n := h.now, |h.history|;
    DiscardBackups(h, paths, a.discard);
    LiveSameTargets(s, h.now, paths);
    InPlaceKept(staged, place, users, s0.files, s.files, h.now.files, paths);
    forall i | n <= i < |h.history| ensures InPlace(staged, place, users, s0.files, h.history[i].files, paths) {
      LiveSameTargets(s, h.history[i], paths);
      InPlaceKept(staged, place, users, s0.files, s.files, h.history[i].files, paths);
    }
    assert SameAt(h.now.files, s.files, ConfigJson) && SameAt(h.now.files, s.files, AppliedStamp);
    SameDoc(h.d, h.now.files, s.files, users, a.apply.now);
  }

  lemma LiveSameTargets(s: Snapshot, t: Snapshot, paths: seq<Path>)
    requires Targets(paths) && LiveSame(s, t)
    ensures forall i :: 0 <= i < |paths| ==> SameAt(t.files, s.files, paths[i])
  {
    forall i | 0 <= i < |paths| ensures SameAt(t.files, s.files, paths[i]) {}
  }

  lemma ManifestCovers()
    ensures Covers(MANIFEST)
  {
    assert MANIFEST[0] == UsersJson && MANIFEST[1] == PrivateKey && MANIFEST[2] == PublicKey && MANIFEST[3] == ShortId
        && MANIFEST[6] == ObfsPassword;
  }

  lemma ManifestTargets()
    ensures Targets(MANIFEST) && MANIFEST != [] && MANIFEST[0] == UsersJson
  {}

  /** No stale backup is in the way and no step fails. */
  predicate NothingFails(files: Files, staged: Staging, a: RestoreAnswers) {
    && Preparable(files, MANIFEST, a.backup) && Installs(staged, RelOf, a, MANIFEST)
    && Smooth(a.apply) && (a.subscriptionSeen ==> a.restart)
  }

  /** The restored keys make a document. */
  lemma RestoredKeysRender(d: Deployment, staged: Staging, users: seq<CompatUser>, f0: Files, f: Files, now: int)
    requires Restorable(d.derive, staged) && InPlace(staged, RelOf, users, f0, f, MANIFEST)
    ensures DocFor(d, f, users, now).Some?
  {
    PlacedAt(staged, users, f0, f, PrivateKey);
    PlacedAt(staged, users, f0, f, PublicKey);
    PlacedAt(staged, users, f0, f, ShortId);
  }

  lemma PlacedAt(staged: Staging, users: seq<CompatUser>, f0: Files, f: Files, p: Path)
    requires InManifest(p) && p != UsersJson && InPlace(staged, RelOf, users, f0, f, MANIFEST)
    ensures PlacedFrom(staged, RelOf, f0, f, p)
  {
    ManifestIs(p);
    var j :| 0 <= j < |MANIFEST| && MANIFEST[j] == p;
  }

  /**
   `cmd_restore` of an archive. Nothing is touched before the archive is
   extracted and validated; afterwards the manifest files end up exactly as
   archived (absent ones untouched), or, when a complete rollback is reported,
   exactly as they were. At every step the originals survive or the archive is in place.
   */
  method RestoreArchive(h: Host, entries: seq<Entry>, unpack: nat -> bool, a: RestoreAnswers)
    returns (r: RestoreResult, users: seq<CompatUser>, staged: Staging, ghost e: Snapshot)
    requires h.Valid()
    modifies h
    ensures h.Valid() && old(h.history) <= h.history
    ensures !r.Refused? ==> Acceptable(entries, unpack, IsAllowed) && staged == FilesOf(entries, |entries|)
    ensures !r.Refused? ==> Restorable(h.d.derive, staged) && ParseUsers(staged[RelOf(UsersJson)]) == Some(users)
    ensures r.Refused? <==> !(&& Acceptable(entries, unpack, IsAllowed) && Restorable(h.d.derive, FilesOf(entries, |entries|))
                              && (a.offline || a.gate))
    ensures !r.Refused? && NothingFails(old(h.now).files, staged, a) ==> r.Restored?
    ensures r.RolledBack? ==>
              var s := RollbackStart(h.d, e, users, Installs(staged, RelOf, a, MANIFEST), a.apply);
              && RolledBackFrom(h.d, old(h.now).files, s, h.now, MANIFEST, a.undo, a.offline, r.ok)
              && (r.ok <==> UndoSucceeds(h.d, old(h.now).files, s, MANIFEST, a.undo, a.offline))
    ensures !r.Refused? && !r.NotStarted? ==> Present(staged, RelOf, a, MANIFEST, old(h.now).files, e.files)
    ensures r.Refused? ==> h.now == old(h.now)
    ensures r.NotStarted? ==> LiveSame(old(h.now), h.now)
    ensures r.Restored? ==> InPlace(staged, RelOf, users, old(h.now).files, h.now.files, MANIFEST)
    ensures r.Restored? ==> Discarded(h.now, MANIFEST, a.discard)
    ensures r.Restored? && a.subscriptionSeen ==> h.now.subscription == EndpointsFor(h.d, h.now.files)
    ensures r.Restored? && StampSound(old(h.now)) && Steady(a.apply) ==> AgreedAt(h.d, h.now, users, a.apply.now) && StampHonest(h.now)
    ensures SameServer(old(h.now), e)
    ensures !r.Refused? && !r.NotStarted? && Installs(staged, RelOf, a, MANIFEST) ==>
              InPlace(staged, RelOf, users, old(h.now).files, e.files, MANIFEST)
    ensures !r.Refused? ==>
              && (r.NotStarted? <==> !Preparable(old(h.now).files, MANIFEST, a.backup))
              && (r.Restored? <==> && !r.NotStarted? && Installs(staged, RelOf, a, MANIFEST)
                                   && !ApplyFails(h.d, e, users, a.apply) && (a.subscriptionSeen ==> a.restart))
    ensures && r == RolledBack(true) && StampSound(old(h.now)) && Steady(a.apply) && Steady(a.undo.apply)
            && !LeftUnrecovered(h.d, e, users, Installs(staged, RelOf, a, MANIFEST), a.apply)
            ==> AgreedAt(h.d, h.now, LoadUsers(h.now.files).value, a.undo.apply.now) && StampSound(h.now)
    ensures forall i :: |old(h.history)| <= i < |h.history| ==>
              || Survives(old(h.now).files, h.history[i].files, MANIFEST)
              || (r.Restored? && InPlace(staged, RelOf, users, old(h.now).files, h.history[i].files, MANIFEST))
  {
    users, staged, e := [], map[], h.now;
    var extracted := ExtractValidated(entries, unpack, IsAllowed);
    if extracted.None? || !Restorable(h.d.derive, extracted.value) || (!a.offline && !a.gate) {
      return Refused, [], map[], h.now;
    }
    staged := extracted.value;
    users := ParseUsers(staged[RelOf(UsersJson)]).value;
    ManifestTargets();
    ghost var f0, s0 := h.now.files, h.now;
    r, e := RestoreTransaction(h, MANIFEST, users, staged, RelOf, a);
    if NothingFails(f0, staged, a) {
      RestoredKeysRender(h.d, staged, users, f0, e.files, a.apply.now);
    }
    ghost var installed := Installs(staged, RelOf, a, MANIFEST);
    ManifestCovers();
    if r == RolledBack(true) && StampSound(s0) && Steady(a.apply) && Steady(a.undo.apply)
       && !LeftUnrecovered(h.d, e, users, installed, a.apply) {
      RollbackAgrees(h.d, e, h.now, users, installed, a.apply, a.undo.apply);
    }
  }

  /** The forward load swaps its document in, fails to reload it, copies the kept one back and fails to reload that. */
  predicate FailsTwice(a: ApplyAnswers) {
    && !a.offline && a.binary && a.gate && a.afterSwap && !a.reload && a.recoverCopy.Copied? && !a.recoverReload
    && a.swap.stage && a.swap.check && a.swap.install && a.swap.backup.Copied? && a.swap.backupMode
  }

  /** What the forward load leaves behind, and what the reapply makes of it. */
  lemma ReapplyMisled(
    d: Deployment, s0: Snapshot, e: Snapshot, s1: Snapshot, doc: ServerConfig, users: seq<CompatUser>, before: seq<CompatUser>,
    a: ApplyAnswers, u: ApplyAnswers)
    requires Has(s0, ConfigJson, Config(doc)) && Has(s0, AppliedStamp, Stamp(doc)) && SameServer(s0, e)
    requires DocFor(d, e.files, users, a.now).Some? && DocFor(d, e.files, users, a.now).value != doc && FailsTwice(a)
    requires LoadUsers(s1.files) == Some(before) && DocFor(d, s1.files, before, u.now) == Some(doc)
    requires ServesAgain(d, RollbackStart(d, e, users, true, a), s1, u) && u.active
    ensures !AgreedAt(d, s1, before, u.now)
  {
    UnrecoveredEnd(d, e, users, a);
    assert AlreadyCurrent(RollbackStart(d, e, users, true, a), doc, u);
  }

  lemma FailsTwiceFails(d: Deployment, e: Snapshot, doc: ServerConfig, users: seq<CompatUser>, a: ApplyAnswers)
    requires Has(e, ConfigJson, Config(doc)) && FailsTwice(a)
    requires DocFor(d, e.files, users, a.now).Some? && DocFor(d, e.files, users, a.now).value != doc
    ensures ApplyFails(d, e, users, a)
  {}

  /**
   A rollback reported complete can leave sing-box off. On a host whose server
   was on its users' document, the archive's document fails to reload and so does
   the kept one; the rollback's reapply then finds `config.json` and the stamp
   naming the old document, takes the shortcut and reports success.
   */
  method UnrecoveredRestoreMisleads(
    h: Host, entries: seq<Entry>, unpack: nat -> bool, a: RestoreAnswers, ghost before: seq<CompatUser>, ghost doc: ServerConfig)
    returns (r: RestoreResult, users: seq<CompatUser>, ghost e: Snapshot)
    requires h.Valid() && LoadUsers(h.now.files) == Some(before)
    requires DocFor(h.d, h.now.files, before, a.undo.apply.now) == Some(doc) && h.now.singbox == Runs(doc)
    requires Has(h.now, ConfigJson, Config(doc)) && Has(h.now, AppliedStamp, Stamp(doc))
    requires Acceptable(entries, unpack, IsAllowed) && Restorable(h.d.derive, FilesOf(entries, |entries|)) && a.gate
    requires Preparable(h.now.files, MANIFEST, a.backup) && Installs(FilesOf(entries, |entries|), RelOf, a, MANIFEST)
    requires FailsTwice(a.apply)
    requires UndoWorks(a.undo, MANIFEST, a.offline) && !a.undo.apply.offline && a.undo.apply.active
    modifies h
    ensures DocFor(h.d, e.files, users, a.apply.now).Some?
    ensures DocFor(h.d, e.files, users, a.apply.now).value != doc ==>
              && r == RolledBack(true) && LoadUsers(h.now.files) == Some(before)
              && !AgreedAt(h.d, h.now, before, a.undo.apply.now)
  {
    ghost var s0 := h.now;
    var staged;
    r, users, staged, e := RestoreArchive(h, entries, unpack, a);
    RestoredKeysRender(h.d, staged, users, s0.files, e.files, a.apply.now);
    if DocFor(h.d, e.files, users, a.apply.now).value != doc {
      FailsTwiceFails(h.d, e, doc, users, a.apply);
      CannotFailSucceeds(h.d, s0.files, RollbackStart(h.d, e, users, true, a.apply), MANIFEST, a.undo, a.offline);
      ManifestSame(s0.files, h.now.files);
      assert SameAt(h.now.files, s0.files, UsersJson);
      SameDoc(h.d, h.now.files, s0.files, before, a.undo.apply.now);
      ReapplyMisled(h.d, s0, e, h.now, doc, users, before, a.apply, a.undo.apply);
    }
  }

  lemma StagedAllowed(files: Files, staged: Staging)
    requires StagedFrom(files, staged)
    ensures forall rel :: rel in staged ==> IsAllowed(rel)
    ensures IsAllowed(["users"]) && IsAllowed(["reality"]) && IsAllowed(["hysteria"])
    ensures forall rel :: IsAllowed(rel) ==> rel in AllowedPaths()
  {
    forall rel | rel in staged ensures IsAllowed(rel) {
      if rel != DEPLOYMENT_TOML {
        var p :| InManifest(p) && rel == RelOf(p);
        RelInjective(p, p);
      }
    }
    IsAllowedMeans(["users"]);
    IsAllowedMeans(["reality"]);
    IsAllowedMeans(["hysteria"]);
    forall rel | IsAllowed(rel) ensures rel in AllowedPaths() {
      IsAllowedMeans(rel);
    }
  }

  /**
   Restore inverts backup. An archive made from a coherent deployment `source`,
   within the size limits, is never refused by a controllable host; and once
   restored, every file of `source` has its backed-up contents, the user list is
   the backed-up one, and a manifest file `source` lacked is as it was before.
   */
  method RestoreBackup(
    h: Host, ghost source: Files, ghost staging: Staging, entries: seq<Entry>, unpack: nat -> bool, a: RestoreAnswers)
    returns (r: RestoreResult)
    requires h.Valid() && CoherentDeployment(h.d, source) && StagedFrom(source, staging)
    requires TarOf(entries, staging) && WithinLimits(entries) && forall i :: 0 <= i < |entries| ==> unpack(i)
    modifies h
    ensures h.Valid()
    ensures a.offline || a.gate ==> !r.Refused?
    ensures (a.offline || a.gate) && NothingFails(old(h.now).files, staging, a) ==> r.Restored?
    ensures r.Restored? ==> LoadUsers(h.now.files) == LoadUsers(source)
    ensures r.Restored? ==>
              forall p :: InManifest(p) && p != UsersJson ==> SourceOrBefore(source, old(h.now).files, h.now.files, p)
    ensures r == RolledBack(true) ==> forall p :: InManifest(p) ==> SameAt(h.now.files, old(h.now).files, p)
  {
    ghost var f0 := h.now.files;
    assert Acceptable(entries, unpack, IsAllowed) && FilesOf(entries, |entries|) == staging by {
      StagedAllowed(source, staging);
      BackupArchiveAccepted(entries, staging, unpack, IsAllowed);
    }
    CoherentBackupIsRestorable(h.d, source, staging);
    assert InManifest(UsersJson);
    var users, staged;
    ghost var e;
    r, users, staged, e := RestoreArchive(h, entries, unpack, a);
    if r.Restored? {
      InPlaceIsSource(source, staging, users, f0, h.now.files);
    } else if r == RolledBack(true) {
      ManifestSame(f0, h.now.files);
    }
  }

  lemma InPlaceIsSource(source: Files, staging: Staging, users: seq<CompatUser>, f0: Files, f: Files)
    requires StagedFrom(source, staging) && InPlace(staging, RelOf, users, f0, f, MANIFEST)
    requires UsersJson in source && ParseUsers(source[UsersJson]) == Some(users)
    ensures LoadUsers(f) == LoadUsers(source)
    ensures forall p :: InManifest(p) && p != UsersJson ==> SourceOrBefore(source, f0, f, p)
  {
    forall p | InManifest(p) && p != UsersJson ensures SourceOrBefore(source, f0, f, p) {
      ManifestIs(p);
      var i :| 0 <= i < |MANIFEST| && MANIFEST[i] == p;
      assert PlacedFrom(staging, RelOf, f0, f, MANIFEST[i]);
    }
  }

  lemma ManifestSame(f0: Files, f: Files)
    requires forall i :: 0 <= i < |MANIFEST| ==> SameAt(f, f0, MANIFEST[i])
    ensures forall p :: InManifest(p) ==> SameAt(f, f0, p)
  {
    forall p | InManifest(p) ensures SameAt(f, f0, p) {
      ManifestIs(p);
      var i :| 0 <= i < |MANIFEST| && MANIFEST[i] == p;
    }
  }

  /** The backed-up contents of `p`, or what was there before when the backup had none. */
  predicate SourceOrBefore(source: Files, f0: Files, f: Files, p: Path) {
    if p in source then p in f && f[p] == source[p] else SameAt(f, f0, p)
  }
}
