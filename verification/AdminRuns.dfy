/**
 Whole histories of `vpn-admin`: user commands, reconciles, rotations and
 restores, one after another in any order and past every failure.
 */
module AdminRuns {
  import opened Wrappers
  import opened CompatModel
  import opened Hosts
  import opened ConfigApply
  import opened UserMutation
  import opened UserRuns
  import opened FileTransactions
  import UserOps
  import CommandSteps
  import Archive
  import Rotation
  import Restore

  datatype AdminCommand =
    | User(inv: Invocation)
    | RenderConfig(a: ApplyAnswers)
    | RotateReality(keys: Option<Rotation.KeyTriple>, ra: Rotation.RotateAnswers)
    | RotateObfs(password: string, ra: Rotation.RotateAnswers)
    | RestoreFrom(entries: seq<Archive.Entry>, unpack: nat -> bool, sa: Restore.RestoreAnswers)

  datatype Outcome =
    | UserDone(user: CommandResult)
    | Rendered(rendered: Option<ApplyResult>)
    | RotationDone(rotation: Rotation.RotateResult)
    | RestoreDone(restore: Restore.RestoreResult)

  /** The generated password is not empty, and its rotation runs no handshake self-test. */
  predicate Runnable(c: AdminCommand) {
    c.RotateObfs? ==> c.password != "" && c.ra.handshake.NotRun?
  }

  // ------------------------------------------------------ what a command did

  /** A rotation over `paths` made the states `seg` from `s`; `inForce` is what its success puts in force. */
  ghost predicate RotationDid(
    d: Deployment, s: Snapshot, seg: seq<Snapshot>, paths: seq<Path>, inForce: Snapshot -> bool, applied: bool,
    a: Rotation.RotateAnswers, r: Rotation.RotateResult)
  {
    var s1 := EndOf(s, seg);
    && (r.Refused? ==> s1 == s)
    && (r.NotStarted? ==> LiveSame(s, s1))
    && (r.Rotated? ==> inForce(s1))
    && (r == Rotation.RolledBack(true) ==> Rotation.BackTo(d, s, s1, paths, applied, a.undo))
    && SameExcept(s1.files, s.files, Rotation.Scope(paths))
    && forall i :: 0 <= i < |seg| ==> Survives(s.files, seg[i].files, paths) || (r.Rotated? && inForce(seg[i]))
  }

  /** The new key set is in force. */
  ghost predicate KeysInForce(d: Deployment, s: Snapshot, keys: Option<Rotation.KeyTriple>, a: Rotation.RotateAnswers, t: Snapshot) {
    keys.Some? && LoadUsers(s.files).Some? && Rotation.OneKeyset(d, t, keys.value, LoadUsers(s.files).value, a)
  }

  ghost predicate PasswordInForce(d: Deployment, s: Snapshot, password: string, a: Rotation.RotateAnswers, t: Snapshot) {
    LoadUsers(s.files).Some? && Rotation.OnePassword(d, t, password, LoadUsers(s.files).value, a)
  }

  /** The user list an archive carries. */
  function ArchiveUsers(entries: seq<Archive.Entry>): Option<seq<CompatUser>> {
    var staged := Archive.FilesOf(entries, |entries|);
    if Archive.RelOf(UsersJson) in staged then ParseUsers(staged[Archive.RelOf(UsersJson)]) else None
  }

  /** A restore that ended in `s1`; `e` is the state in which the archive was to be loaded. */
  ghost predicate RestoreDid(
    d: Deployment, s: Snapshot, s1: Snapshot, entries: seq<Archive.Entry>, a: Restore.RestoreAnswers, r: Restore.RestoreResult, e: Snapshot)
  {
    var staged := Archive.FilesOf(entries, |entries|);
    && (r.Refused? ==> s1 == s)
    && (r.NotStarted? ==> LiveSame(s, s1))
    && (r.Restored? || r.RolledBack? ==> ArchiveUsers(entries).Some? && Restore.SameServer(s, e))
    && (r.Restored? ==>
          && Restore.InPlace(staged, Archive.RelOf, ArchiveUsers(entries).value, s.files, s1.files, Archive.MANIFEST)
          && (StampSound(s) && Steady(a.apply) ==> AgreedAt(d, s1, ArchiveUsers(entries).value, a.apply.now) && StampHonest(s1)))
    && (r.RolledBack? ==>
          Restore.RolledBackFrom(d, s.files,
            Restore.RollbackStart(d, e, ArchiveUsers(entries).value, Restore.Installs(staged, Archive.RelOf, a, Archive.MANIFEST), a.apply),
            s1, Archive.MANIFEST, a.undo, a.offline, r.ok))
  }

  /** In this state of a restore the originals survive, or the archive is in place. */
  ghost predicate RestoreStep(s: Snapshot, t: Snapshot, entries: seq<Archive.Entry>, r: Restore.RestoreResult) {
    || Survives(s.files, t.files, Archive.MANIFEST)
    || (&& r.Restored? && ArchiveUsers(entries).Some?
        && Restore.InPlace(Archive.FilesOf(entries, |entries|), Archive.RelOf, ArchiveUsers(entries).value,
             s.files, t.files, Archive.MANIFEST))
  }

  /** The command `c`, run from `s`, made the states `seg` and ended as `o` says. */
  ghost predicate Did(d: Deployment, s: Snapshot, seg: seq<Snapshot>, c: AdminCommand, o: Outcome) {
    match c
    case User(inv) => seg == CommandTrail(d, s, inv) && o == UserDone(CommandVerdict(d, s, inv))
    case RenderConfig(a) =>
      var job := CommandSteps.Render(a);
      seg == CommandSteps.JobTrail(d, s, job) && o.Rendered? && CommandSteps.RenderEnd(o.rendered) == CommandSteps.JobVerdict(d, s, job)
    case RotateReality(keys, a) =>
      && o.RotationDone?
      && RotationDid(d, s, seg, Rotation.KEY_FILES, (t: Snapshot) => KeysInForce(d, s, keys, a, t),
           Rotation.AllInstalled(Rotation.KEY_FILES, a) && SwapSucceeds(s.files, a.swap), a, o.rotation)
    case RotateObfs(password, a) =>
      && o.RotationDone?
      && RotationDid(d, s, seg, Rotation.OBFS_FILES, (t: Snapshot) => PasswordInForce(d, s, password, a, t),
           (ObfsPassword in s.files || a.policy) && SwapSucceeds(s.files, a.swap), a, o.rotation)
    case RestoreFrom(entries, _, a) =>
      && o.RestoreDone? && (forall i :: 0 <= i < |seg| ==> RestoreStep(s, seg[i], entries, o.restore))
      && exists e :: RestoreDid(d, s, EndOf(s, seg), entries, a, o.restore, e)
  }

  // ------------------------------------------------------------- one command

  lemma SegmentEnds(before: seq<Snapshot>, after: seq<Snapshot>, s: Snapshot)
    requires before != [] && before <= after && before[|before| - 1] == s
    ensures EndOf(s, after[|before|..]) == after[|after| - 1]
    ensures forall i :: 0 <= i < |after| - |before| ==> after[|before|..][i] == after[|before| + i]
  {}

  method RunKeys(h: Host, keys: Option<Rotation.KeyTriple>, a: Rotation.RotateAnswers) returns (r: Rotation.RotateResult)
    requires h.Valid()
    modifies h
    ensures h.Valid() && old(h.history) <= h.history
    ensures Did(h.d, old(h.now), h.history[|old(h.history)|..], RotateReality(keys, a), RotationDone(r))
  {
    ghost var s, before := h.now, h.history;
    r := Rotation.RealityRotate(h, keys, a);
    SegmentEnds(before, h.history, s);
  }

  method RunObfs(h: Host, password: string, a: Rotation.RotateAnswers) returns (r: Rotation.RotateResult)
    requires h.Valid() && password != "" && a.handshake.NotRun?
    modifies h
    ensures h.Valid() && old(h.history) <= h.history
    ensures Did(h.d, old(h.now), h.history[|old(h.history)|..], RotateObfs(password, a), RotationDone(r))
  {
    ghost var s, before := h.now, h.history;
    r := Rotation.ObfsRotate(h, password, a);
    SegmentEnds(before, h.history, s);
  }

  /** `RestoreArchive`, in terms of what the archive carries. */
  method RestoreOnce(h: Host, entries: seq<Archive.Entry>, unpack: nat -> bool, a: Restore.RestoreAnswers)
    returns (r: Restore.RestoreResult, ghost e: Snapshot)
    requires h.Valid()
    modifies h
    ensures h.Valid() && old(h.history) <= h.history
    ensures RestoreDid(h.d, old(h.now), h.now, entries, a, r, e)
    ensures forall i :: |old(h.history)| <= i < |h.history| ==> RestoreStep(old(h.now), h.history[i], entries, r)
  {
    var users, staged;
    r, users, staged, e := Restore.RestoreArchive(h, entries, unpack, a);
    assert !r.Refused? ==> ArchiveUsers(entries) == Some(users);
  }

  method RunRestore(h: Host, entries: seq<Archive.Entry>, unpack: nat -> bool, a: Restore.RestoreAnswers)
    returns (r: Restore.RestoreResult)
    requires h.Valid()
    modifies h
    ensures h.Valid() && old(h.history) <= h.history
    ensures Did(h.d, old(h.now), h.history[|old(h.history)|..], RestoreFrom(entries, unpack, a), RestoreDone(r))
  {
    ghost var s, e, before := h.now, h.now, h.history;
    r, e := RestoreOnce(h, entries, unpack, a);
    SegmentEnds(before, h.history, s);
    RestoreSegment(h.d, s, h.history[|before|..], entries, unpack, a, r, e);
  }

  lemma RestoreSegment(
    d: Deployment, s: Snapshot, seg: seq<Snapshot>, entries: seq<Archive.Entry>, unpack: nat -> bool,
    a: Restore.RestoreAnswers, r: Restore.RestoreResult, e: Snapshot)
    requires RestoreDid(d, s, EndOf(s, seg), entries, a, r, e)
    requires forall i :: 0 <= i < |seg| ==> RestoreStep(s, seg[i], entries, r)
    ensures Did(d, s, seg, RestoreFrom(entries, unpack, a), RestoreDone(r))
  {}

  /** One command, whichever it is. */
  method RunOne(h: Host, c: AdminCommand) returns (o: Outcome)
    requires h.Valid() && Runnable(c)
    modifies h
    ensures h.Valid() && old(h.history) <= h.history
    ensures Did(h.d, old(h.now), h.history[|old(h.history)|..], c, o)
  {
    match c
    case User(inv) =>
      var r := UserCommand(h, inv);
      o := UserDone(r);
    case RenderConfig(a) =>
      var r := Reconcile(h, a);
      o := Rendered(r);
    case RotateReality(keys, a) =>
      var r := RunKeys(h, keys, a);
      o := RotationDone(r);
    case RotateObfs(password, a) =>
      var r := RunObfs(h, password, a);
      o := RotationDone(r);
    case RestoreFrom(entries, unpack, a) =>
      var r := RunRestore(h, entries, unpack, a);
      o := RestoreDone(r);
  }

  // ------------------------------------------------- when the shortcut is sound

  /** Loading the archive cannot end on an unrecovered reload. */
  predicate Recoverable(s: Snapshot, a: ApplyAnswers) {
    Forward(a) || (ConfigJson in s.files && a.recoverCopy.Copied? && a.recoverReload)
  }

  /** A rotation that did nothing, or reloaded sing-box before it reported. */
  predicate RotationSettles(a: Rotation.RotateAnswers, r: Rotation.RotateResult) {
    match r
    case Refused => true
    case NotStarted => true
    case Rotated(_) => a.singboxSeen
    case RolledBack(ok) => ok && a.undo.singboxSeen
  }

  /** A restore that did nothing, went through, or was rolled back completely from a server that could recover. */
  predicate RestoreSettles(s: Snapshot, a: Restore.RestoreAnswers, r: Restore.RestoreResult) {
    match r
    case Refused => true
    case NotStarted => true
    case Restored => Steady(a.apply)
    case RolledBack(ok) => ok && Steady(a.apply) && Steady(a.undo.apply) && Recoverable(s, a.apply)
  }

  /** The command, run from `s`, reported nothing that could leave the no-reload shortcut unsound. */
  predicate Calm(s: Snapshot, c: AdminCommand, o: Outcome) {
    match (c, o)
    case (User(inv), UserDone(r)) => Settles(inv, r)
    case (RenderConfig(a), Rendered(r)) => ReconcileSettles(a, r)
    case (RotateReality(_, a), RotationDone(r)) => RotationSettles(a, r)
    case (RotateObfs(_, a), RotationDone(r)) => RotationSettles(a, r)
    case (RestoreFrom(_, _, a), RestoreDone(r)) => RestoreSettles(s, a, r)
    case _ => false
  }

  /** The command reloaded sing-box healthily as its last word on it: whatever came before, the shortcut is sound again. */
  predicate Heals(d: Deployment, s: Snapshot, c: AdminCommand, o: Outcome) {
    match (c, o)
    case (User(inv), UserDone(r)) => Settles(inv, r) && CommandReloadsWell(d, s, inv)
    case (RotateReality(_, a), RotationDone(r)) => (r.Rotated? || r.RolledBack?) && RotationSettles(a, r)
    case (RotateObfs(_, a), RotationDone(r)) => (r.Rotated? || r.RolledBack?) && RotationSettles(a, r)
    case _ => false
  }

  /** What a rotation puts in force has been loaded, if sing-box was seen. */
  ghost predicate LoadsWhenSeen(inForce: Snapshot -> bool, a: Rotation.RotateAnswers) {
    forall t: Snapshot :: inForce(t) && a.singboxSeen ==> t.singbox == LoadedFrom(t.files)
  }

  lemma RotationSound(
    d: Deployment, s: Snapshot, seg: seq<Snapshot>, paths: seq<Path>, inForce: Snapshot -> bool, applied: bool,
    a: Rotation.RotateAnswers, r: Rotation.RotateResult)
    requires RotationDid(d, s, seg, paths, inForce, applied, a, r) && LoadsWhenSeen(inForce, a) && RotationSettles(a, r)
    ensures StampSound(s) || r.Rotated? || r.RolledBack? ==> StampSound(EndOf(s, seg))
  {
    var s1 := EndOf(s, seg);
    if r.Rotated? || r.RolledBack? {
      assert s1.singbox == LoadedFrom(s1.files);
      LoadedIsSound(s1);
    } else if r.NotStarted? {
      assert SameAt(s1.files, s.files, ConfigJson) && SameAt(s1.files, s.files, AppliedStamp);
    }
  }

  lemma RecoverableIsRecovered(d: Deployment, s: Snapshot, e: Snapshot, users: seq<CompatUser>, installed: bool, a: ApplyAnswers)
    requires Restore.SameServer(s, e) && Recoverable(s, a)
    ensures !Restore.LeftUnrecovered(d, e, users, installed, a)
  {}

  /** A restore that settles keeps the shortcut sound; and once rolled back, the server is on the stored users. */
  lemma RestoreSound(
    d: Deployment, s: Snapshot, s1: Snapshot, entries: seq<Archive.Entry>, a: Restore.RestoreAnswers, r: Restore.RestoreResult, e: Snapshot)
    requires RestoreDid(d, s, s1, entries, a, r, e) && StampSound(s) && RestoreSettles(s, a, r)
    ensures StampSound(s1)
    ensures r.RolledBack? ==> LoadUsers(s1.files).Some? && AgreedAt(d, s1, LoadUsers(s1.files).value, a.undo.apply.now)
  {
    if r.NotStarted? {
      assert SameAt(s1.files, s.files, ConfigJson) && SameAt(s1.files, s.files, AppliedStamp);
    } else if r.RolledBack? {
      var installed := Restore.Installs(Archive.FilesOf(entries, |entries|), Archive.RelOf, a, Archive.MANIFEST);
      RecoverableIsRecovered(d, s, e, ArchiveUsers(entries).value, installed, a.apply);
      Restore.RollbackAgrees(d, e, s1, ArchiveUsers(entries).value, installed, a.apply, a.undo.apply);
    }
  }

  lemma RenderSound(d: Deployment, s: Snapshot, a: ApplyAnswers, r: Option<ApplyResult>)
    requires CommandSteps.RenderEnd(r) == CommandSteps.JobVerdict(d, s, CommandSteps.Render(a))
    requires StampSound(s) && ReconcileSettles(a, r)
    ensures StampSound(EndOf(s, CommandSteps.JobTrail(d, s, CommandSteps.Render(a))))
  {
    if r.Some? {
      ApplyEnds(d, s, LoadUsers(s.files).value, false, a);
      SoundAfterReconcile(d, s, EndOf(s, CommandSteps.JobTrail(d, s, CommandSteps.Render(a))), LoadUsers(s.files).value, a, r.value);
    }
  }

  /** A calm command keeps the shortcut sound, a healing one makes it sound. */
  lemma DidKeepsSound(d: Deployment, s: Snapshot, seg: seq<Snapshot>, c: AdminCommand, o: Outcome)
    requires Did(d, s, seg, c, o) && ((StampSound(s) && Calm(s, c, o)) || Heals(d, s, c, o))
    ensures StampSound(EndOf(s, seg))
  {
    match c
    case User(inv) => SoundAfterCommand(d, s, inv);
    case RenderConfig(a) => RenderSound(d, s, a, o.rendered);
    case RotateReality(keys, a) =>
      RotationSound(d, s, seg, Rotation.KEY_FILES, (t: Snapshot) => KeysInForce(d, s, keys, a, t),
        Rotation.AllInstalled(Rotation.KEY_FILES, a) && SwapSucceeds(s.files, a.swap), a, o.rotation);
    case RotateObfs(password, a) =>
      RotationSound(d, s, seg, Rotation.OBFS_FILES, (t: Snapshot) => PasswordInForce(d, s, password, a, t),
        (ObfsPassword in s.files || a.policy) && SwapSucceeds(s.files, a.swap), a, o.rotation);
    case RestoreFrom(entries, _, a) =>
      var e :| RestoreDid(d, s, EndOf(s, seg), entries, a, o.restore, e);
      RestoreSound(d, s, EndOf(s, seg), entries, a, o.restore, e);
  }

  // --------------------------------------------------- when server and store agree

  /** The command reported a clean result. */
  predicate CleanOutcome(s: Snapshot, c: AdminCommand, o: Outcome) {
    match (c, o)
    case (User(inv), UserDone(r)) => IsSteady(inv) && CleanResult(r)
    case (RenderConfig(_), Rendered(r)) => r == Some(Live)
    case (RotateReality(_, a), RotationDone(r)) => RotationSettles(a, r)
    case (RotateObfs(_, a), RotationDone(r)) => RotationSettles(a, r)
    case (RestoreFrom(_, _, a), RestoreDone(r)) => RestoreSettles(s, a, r)
    case _ => false
  }

  /** Store, configuration, stamp, the inputs of a render and sing-box are as they were. */
  lemma SameAccord(d: Deployment, s: Snapshot, t: Snapshot)
    requires Accord(d, s) && t.singbox == LoadedFrom(s.files)
    requires forall p :: p in {UsersJson, PrivateKey, PublicKey, ShortId, ObfsPassword, ConfigJson} ==> SameAt(t.files, s.files, p)
    ensures Accord(d, t)
  {
    assert SameAt(t.files, s.files, UsersJson) && SameAt(t.files, s.files, ConfigJson);
    var users := LoadUsers(s.files).value;
    var now :| AgreedAt(d, s, users, now);
    SameDoc(d, t.files, s.files, users, now);
    assert AgreedAt(d, t, users, now);
    LoadedIsSound(t);
  }

  lemma AccordIsLoaded(d: Deployment, s: Snapshot)
    requires Accord(d, s)
    ensures ConfigJson in s.files && s.singbox == LoadedFrom(s.files)
  {
    var now :| AgreedAt(d, s, LoadUsers(s.files).value, now);
  }

  lemma UnstartedKeepsAccord(d: Deployment, s: Snapshot, t: Snapshot)
    requires Accord(d, s) && LiveSame(s, t)
    ensures Accord(d, t)
  {
    AccordIsLoaded(d, s);
    SameAccord(d, s, t);
  }

  /** What a rotation puts in force is the document of the users on disk, loaded if sing-box was seen. */
  ghost predicate AgreesWhenSeen(d: Deployment, inForce: Snapshot -> bool, users: seq<CompatUser>, a: Rotation.RotateAnswers) {
    forall t: Snapshot :: inForce(t) && a.singboxSeen ==> AgreedAt(d, t, users, a.now)
  }

  lemma RotationKeepsAccord(
    d: Deployment, s: Snapshot, seg: seq<Snapshot>, paths: seq<Path>, inForce: Snapshot -> bool, applied: bool,
    a: Rotation.RotateAnswers, r: Rotation.RotateResult)
    requires RotationDid(d, s, seg, paths, inForce, applied, a, r) && LoadsWhenSeen(inForce, a) && RotationSettles(a, r)
    requires Accord(d, s) && AgreesWhenSeen(d, inForce, LoadUsers(s.files).value, a)
    requires paths == Rotation.KEY_FILES || paths == Rotation.OBFS_FILES
    ensures Accord(d, EndOf(s, seg))
  {
    var s1 := EndOf(s, seg);
    AccordIsLoaded(d, s);
    if r.NotStarted? {
      UnstartedKeepsAccord(d, s, s1);
    } else if r.Rotated? {
      LoadedIsSound(s1);
      assert SameAt(s1.files, s.files, UsersJson) && AgreedAt(d, s1, LoadUsers(s.files).value, a.now);
    } else if r.RolledBack? {
      RolledBackInputs(d, s, s1, paths, applied, a.undo);
      SameAccord(d, s, s1);
    }
  }

  /** After a complete rollback nothing a render reads has changed. */
  lemma RolledBackInputs(d: Deployment, s: Snapshot, s1: Snapshot, paths: seq<Path>, applied: bool, u: Rotation.UndoAnswers)
    requires paths == Rotation.KEY_FILES || paths == Rotation.OBFS_FILES
    requires Rotation.BackTo(d, s, s1, paths, applied, u) && SameExcept(s1.files, s.files, Rotation.Scope(paths))
    requires ConfigJson in s.files && u.singboxSeen
    ensures forall p :: p in {UsersJson, PrivateKey, PublicKey, ShortId, ObfsPassword, ConfigJson} ==> SameAt(s1.files, s.files, p)
    ensures s1.singbox == LoadedFrom(s.files)
  {
    forall p | p in {UsersJson, PrivateKey, PublicKey, ShortId, ObfsPassword, ConfigJson} ensures SameAt(s1.files, s.files, p) {
      if p in paths {
        var i :| 0 <= i < |paths| && paths[i] == p;
        assert SameAt(s1.files, s.files, paths[i]);
      }
    }
    assert SameAt(s1.files, s.files, ConfigJson);
  }

  lemma RestoreKeepsAccord(
    d: Deployment, s: Snapshot, s1: Snapshot, entries: seq<Archive.Entry>, a: Restore.RestoreAnswers, r: Restore.RestoreResult, e: Snapshot)
    requires RestoreDid(d, s, s1, entries, a, r, e) && Accord(d, s) && RestoreSettles(s, a, r)
    ensures Accord(d, s1)
  {
    RestoreSound(d, s, s1, entries, a, r, e);
    if r.NotStarted? {
      UnstartedKeepsAccord(d, s, s1);
    }
  }

  lemma RenderKeepsAccord(d: Deployment, s: Snapshot, a: ApplyAnswers)
    requires Accord(d, s) && CommandSteps.JobVerdict(d, s, CommandSteps.Render(a)) == CommandSteps.RenderEnd(Some(Live))
    ensures Accord(d, EndOf(s, CommandSteps.JobTrail(d, s, CommandSteps.Render(a))))
  {
    var users, s1 := LoadUsers(s.files).value, EndOf(s, CommandSteps.JobTrail(d, s, CommandSteps.Render(a)));
    ApplyEnds(d, s, users, false, a);
    LiveSettles(d, s, s1, users, a, false);
    assert SameAt(s1.files, s.files, UsersJson);
  }

  /** After a clean command of any kind, server and store are on one list again. */
  lemma DidKeepsAccord(d: Deployment, s: Snapshot, seg: seq<Snapshot>, c: AdminCommand, o: Outcome)
    requires Did(d, s, seg, c, o) && Accord(d, s) && CleanOutcome(s, c, o)
    ensures Accord(d, EndOf(s, seg))
  {
    match c
    case User(inv) => CleanKeepsAccord(d, s, inv);
    case RenderConfig(a) => RenderKeepsAccord(d, s, a);
    case RotateReality(keys, a) =>
      RotationKeepsAccord(d, s, seg, Rotation.KEY_FILES, (t: Snapshot) => KeysInForce(d, s, keys, a, t),
        Rotation.AllInstalled(Rotation.KEY_FILES, a) && SwapSucceeds(s.files, a.swap), a, o.rotation);
    case RotateObfs(password, a) =>
      RotationKeepsAccord(d, s, seg, Rotation.OBFS_FILES, (t: Snapshot) => PasswordInForce(d, s, password, a, t),
        (ObfsPassword in s.files || a.policy) && SwapSucceeds(s.files, a.swap), a, o.rotation);
    case RestoreFrom(entries, _, a) =>
      var e :| RestoreDid(d, s, EndOf(s, seg), entries, a, o.restore, e);
      RestoreKeepsAccord(d, s, EndOf(s, seg), entries, a, o.restore, e);
  }

  // ------------------------------------------------------------- the user list

  /** The user list after a command, from the list before it and the reported outcome alone. */
  function NextUsers(users: Option<seq<CompatUser>>, c: AdminCommand, o: Outcome): Option<seq<CompatUser>> {
    match (c, o)
    case (User(inv), UserDone(r)) => if Published(r) && users.Some? then UserOps.ApplyOp(users.value, inv.op) else users
    case (RestoreFrom(entries, _, _), RestoreDone(r)) => if r.Restored? then ArchiveUsers(entries) else users
    case _ => users
  }

  /** A restore whose rollback is reported incomplete says nothing about the store. */
  predicate Accountable(o: Outcome) {
    o.RestoreDone? && o.restore.RolledBack? ==> o.restore.ok
  }

  /** The reported outcome determines what a command made of the user list. */
  lemma DidUsers(d: Deployment, s: Snapshot, seg: seq<Snapshot>, c: AdminCommand, o: Outcome)
    requires Did(d, s, seg, c, o) && Accountable(o)
    ensures LoadUsers(EndOf(s, seg).files) == NextUsers(LoadUsers(s.files), c, o)
  {
    var s1 := EndOf(s, seg);
    match c
    case User(inv) => CommandCommits(d, s, inv);
    case RenderConfig(a) =>
      if LoadUsers(s.files).Some? {
        ApplyFramed(d, s, LoadUsers(s.files).value, false, a);
        assert SameAt(s1.files, s.files, UsersJson);
      }
    case RotateReality(_, _) => assert SameAt(s1.files, s.files, UsersJson);
    case RotateObfs(_, _) => assert SameAt(s1.files, s.files, UsersJson);
    case RestoreFrom(entries, _, a) =>
      var e :| RestoreDid(d, s, s1, entries, a, o.restore, e);
      RestoreUsers(d, s, s1, entries, a, o.restore, e);
  }

  lemma RestoreUsers(
    d: Deployment, s: Snapshot, s1: Snapshot, entries: seq<Archive.Entry>, a: Restore.RestoreAnswers, r: Restore.RestoreResult, e: Snapshot)
    requires RestoreDid(d, s, s1, entries, a, r, e) && (r.RolledBack? ==> r.ok)
    ensures LoadUsers(s1.files) == if r.Restored? then ArchiveUsers(entries) else LoadUsers(s.files)
  {
    if r.NotStarted? {
      assert SameAt(s1.files, s.files, UsersJson);
    } else if r.RolledBack? {
      assert SameAt(s1.files, s.files, Archive.MANIFEST[0]);
    }
  }

  // --------------------------------------------------------------- whole runs

  /** Command `k` of a run did what it did between its marks. */
  ghost predicate Ran(d: Deployment, hist: seq<Snapshot>, marks: seq<nat>, c: AdminCommand, o: Outcome, k: nat)
    requires k + 1 < |marks|
  {
    && 0 < marks[k] <= marks[k + 1] <= |hist|
    && Did(d, StateAt(hist, marks, k), hist[marks[k]..marks[k + 1]], c, o)
  }

  ghost predicate IsAdminRun(d: Deployment, hist: seq<Snapshot>, marks: seq<nat>, cs: seq<AdminCommand>, os: seq<Outcome>) {
    && |marks| == |cs| + 1 && |os| == |cs| && 0 < marks[0] <= |hist|
    && forall k {:trigger Ran(d, hist, marks, cs[k], os[k], k)} :: 0 <= k < |cs| ==> Ran(d, hist, marks, cs[k], os[k], k)
  }

  lemma RanPrefix(
    d: Deployment, hist: seq<Snapshot>, hist': seq<Snapshot>, marks: seq<nat>, marks': seq<nat>, c: AdminCommand, o: Outcome, k: nat)
    requires k + 1 < |marks| && hist <= hist' && marks <= marks' && Ran(d, hist, marks, c, o, k)
    ensures Ran(d, hist', marks', c, o, k)
  {
    SlicePrefix(hist, hist', marks[k], marks[k + 1]);
  }

  lemma SlicePrefix<T>(x: seq<T>, y: seq<T>, i: nat, j: nat)
    requires x <= y && i <= j <= |x|
    ensures y[i..j] == x[i..j] && (i > 0 ==> y[i - 1] == x[i - 1])
  {}

  lemma NewlyRan(d: Deployment, before: seq<Snapshot>, after: seq<Snapshot>, marks: seq<nat>, s: Snapshot, c: AdminCommand, o: Outcome)
    requires before != [] && before <= after && |marks| > 0 && marks[|marks| - 1] == |before| && s == before[|before| - 1]
    requires Did(d, s, after[|before|..], c, o)
    ensures Ran(d, after, marks + [|after|], c, o, |marks| - 1)
  {
    assert after[|before|..|after|] == after[|before|..] && after[|before| - 1] == s;
  }

  lemma ExtendAdminRun(
    d: Deployment, before: seq<Snapshot>, after: seq<Snapshot>, marks: seq<nat>, s: Snapshot, cs: seq<AdminCommand>, os: seq<Outcome>,
    c: AdminCommand, o: Outcome)
    requires IsAdminRun(d, before, marks, cs, os) && before != [] && before <= after && marks[|cs|] == |before|
    requires s == before[|before| - 1] && Did(d, s, after[|before|..], c, o)
    ensures IsAdminRun(d, after, marks + [|after|], cs + [c], os + [o])
  {
    var cs', os', marks' := cs + [c], os + [o], marks + [|after|];
    forall k | 0 <= k < |cs'| ensures Ran(d, after, marks', cs'[k], os'[k], k) {
      if k < |cs| {
        assert Ran(d, before, marks, cs[k], os[k], k);
        RanPrefix(d, before, after, marks, marks', cs[k], os[k], k);
      } else {
        NewlyRan(d, before, after, marks, s, c, o);
      }
    }
  }

  /** Any sequence of commands, past every failure. */
  method RunCommands(h: Host, cs: seq<AdminCommand>) returns (os: seq<Outcome>, ghost marks: seq<nat>)
    requires h.Valid() && forall k :: 0 <= k < |cs| ==> Runnable(cs[k])
    modifies h
    ensures h.Valid() && old(h.history) <= h.history
    ensures IsAdminRun(h.d, h.history, marks, cs, os) && StateAt(h.history, marks, 0) == old(h.now)
    ensures marks[0] == |old(h.history)| && marks[|cs|] == |h.history|
  {
    os, marks := [], [|h.history|];
    for k := 0 to |cs|
      invariant h.Valid() && old(h.history) <= h.history && |os| == k
      invariant |marks| == k + 1 && marks[0] == |old(h.history)| && marks[k] == |h.history|
      invariant IsAdminRun(h.d, h.history, marks, cs[..k], os)
    {
      ghost var before, s := h.history, h.now;
      var o := RunOne(h, cs[k]);
      ExtendAdminRun(h.d, before, h.history, marks, s, cs[..k], os, cs[k], o);
      assert cs[..k + 1] == cs[..k] + [cs[k]];
      os := os + [o];
      marks := marks + [|h.history|];
    }
    assert cs[..|cs|] == cs;
  }

  /** Command `k` takes the host from one boundary to the next. */
  lemma NextBoundary(d: Deployment, hist: seq<Snapshot>, marks: seq<nat>, cs: seq<AdminCommand>, os: seq<Outcome>, k: nat)
    requires IsAdminRun(d, hist, marks, cs, os) && k < |cs|
    ensures 0 < marks[k] <= marks[k + 1] <= |hist|
    ensures Did(d, StateAt(hist, marks, k), hist[marks[k]..marks[k + 1]], cs[k], os[k])
    ensures StateAt(hist, marks, k + 1) == EndOf(StateAt(hist, marks, k), hist[marks[k]..marks[k + 1]])
  {
    assert Ran(d, hist, marks, cs[k], os[k], k);
    SliceEnds(hist, marks[k], marks[k + 1], hist[marks[k]..marks[k + 1]]);
  }

  /** Since the last command that reloaded sing-box healthily, or since the start, every command was calm. */
  ghost predicate Sheltered(d: Deployment, hist: seq<Snapshot>, marks: seq<nat>, cs: seq<AdminCommand>, os: seq<Outcome>, k: nat)
    requires IsAdminRun(d, hist, marks, cs, os) && k <= |cs|
  {
    k == 0
    || (&& 0 < marks[k - 1] <= |hist|
        && var s := StateAt(hist, marks, k - 1);
        (Sheltered(d, hist, marks, cs, os, k - 1) && Calm(s, cs[k - 1], os[k - 1])) || Heals(d, s, cs[k - 1], os[k - 1]))
  }

  lemma {:induction false} ShelteredIsSound(
    d: Deployment, hist: seq<Snapshot>, marks: seq<nat>, cs: seq<AdminCommand>, os: seq<Outcome>, k: nat)
    requires IsAdminRun(d, hist, marks, cs, os) && k <= |cs| && StampSound(StateAt(hist, marks, 0))
    requires Sheltered(d, hist, marks, cs, os, k)
    ensures 0 < marks[k] <= |hist| && StampSound(StateAt(hist, marks, k))
  {
    if k > 0 {
      if Sheltered(d, hist, marks, cs, os, k - 1) {
        ShelteredIsSound(d, hist, marks, cs, os, k - 1);
      }
      SoundBoundary(d, hist, marks, cs, os, k - 1);
    }
  }

  lemma SoundBoundary(d: Deployment, hist: seq<Snapshot>, marks: seq<nat>, cs: seq<AdminCommand>, os: seq<Outcome>, k: nat)
    requires IsAdminRun(d, hist, marks, cs, os) && k < |cs| && 0 < marks[k] <= |hist|
    requires var s := StateAt(hist, marks, k); (StampSound(s) && Calm(s, cs[k], os[k])) || Heals(d, s, cs[k], os[k])
    ensures 0 < marks[k + 1] <= |hist| && StampSound(StateAt(hist, marks, k + 1))
  {
    NextBoundary(d, hist, marks, cs, os, k);
    DidKeepsSound(d, StateAt(hist, marks, k), hist[marks[k]..marks[k + 1]], cs[k], os[k]);
  }

  /**
   In every run that mixes user commands with reconciles, rotations and
   restores, past every failure: a live user command keeps `users.json` behind
   the server in every step if and only if it is not early; and a steady one is
   not, when every command since the last healthy reload was calm.
   */
  lemma MixedRunNeverAhead(
    d: Deployment, hist: seq<Snapshot>, marks: seq<nat>, cs: seq<AdminCommand>, os: seq<Outcome>, k: nat)
    requires IsAdminRun(d, hist, marks, cs, os) && k < |cs| && cs[k].User? && IsLive(cs[k].inv)
    ensures 0 < marks[k] <= marks[k + 1] <= |hist|
    ensures CommandInOrder(d, StateAt(hist, marks, k), hist[marks[k]..marks[k + 1]], cs[k].inv)
       <==> !CommandEarly(d, StateAt(hist, marks, k), cs[k].inv)
    ensures StampSound(StateAt(hist, marks, 0)) && Sheltered(d, hist, marks, cs, os, k) && Steady(cs[k].inv.a) ==>
              !CommandEarly(d, StateAt(hist, marks, k), cs[k].inv)
  {
    NextBoundary(d, hist, marks, cs, os, k);
    var s, inv := StateAt(hist, marks, k), cs[k].inv;
    CommandInOrderIff(d, s, inv);
    if StampSound(StateAt(hist, marks, 0)) && Sheltered(d, hist, marks, cs, os, k) && Steady(inv.a) {
      ShelteredIsSound(d, hist, marks, cs, os, k);
      if Proposed(s, inv.op).Some? {
        SoundNeverEarly(d, s, Proposed(s, inv.op).value, inv.a, inv.save);
      }
    }
  }

  ghost predicate CleanAt(hist: seq<Snapshot>, marks: seq<nat>, cs: seq<AdminCommand>, os: seq<Outcome>, j: nat)
    requires j < |cs| == |os| && |cs| < |marks|
  {
    0 < marks[j] <= |hist| && CleanOutcome(StateAt(hist, marks, j), cs[j], os[j])
  }

  /**
   In every mixed run of commands with clean results, whatever their kinds and
   order: after each of them sing-box, `config.json` and the render of the users
   on disk are one document, and the shortcut is sound.
   */
  lemma {:induction false} CleanRunStaysInAccord(
    d: Deployment, hist: seq<Snapshot>, marks: seq<nat>, cs: seq<AdminCommand>, os: seq<Outcome>, k: nat)
    requires IsAdminRun(d, hist, marks, cs, os) && k <= |cs| && Accord(d, StateAt(hist, marks, 0))
    requires forall j :: 0 <= j < k ==> CleanAt(hist, marks, cs, os, j)
    ensures 0 < marks[k] <= |hist| && Accord(d, StateAt(hist, marks, k))
  {
    if k > 0 {
      CleanRunStaysInAccord(d, hist, marks, cs, os, k - 1);
      assert CleanAt(hist, marks, cs, os, k - 1);
      AccordBoundary(d, hist, marks, cs, os, k - 1);
    }
  }

  lemma AccordBoundary(d: Deployment, hist: seq<Snapshot>, marks: seq<nat>, cs: seq<AdminCommand>, os: seq<Outcome>, k: nat)
    requires IsAdminRun(d, hist, marks, cs, os) && k < |cs| && 0 < marks[k] <= |hist|
    requires Accord(d, StateAt(hist, marks, k)) && CleanOutcome(StateAt(hist, marks, k), cs[k], os[k])
    ensures 0 < marks[k + 1] <= |hist| && Accord(d, StateAt(hist, marks, k + 1))
  {
    NextBoundary(d, hist, marks, cs, os, k);
    DidKeepsAccord(d, StateAt(hist, marks, k), hist[marks[k]..marks[k + 1]], cs[k], os[k]);
  }

  /** The user list after the first `k` commands, from what they reported. */
  function ReportedUsers(users: Option<seq<CompatUser>>, cs: seq<AdminCommand>, os: seq<Outcome>, k: nat): Option<seq<CompatUser>>
    requires k <= |cs| && k <= |os|
  {
    if k == 0 then users else NextUsers(ReportedUsers(users, cs, os, k - 1), cs[k - 1], os[k - 1])
  }

  /**
   In every mixed run, past every failure short of an incomplete restore
   rollback, the store is what the reports say: the list of the last archive
   restored, or the one at the start, with the published operations since applied
   in order.
   */
  lemma {:induction false} StoreIsAsReported(
    d: Deployment, hist: seq<Snapshot>, marks: seq<nat>, cs: seq<AdminCommand>, os: seq<Outcome>, k: nat)
    requires IsAdminRun(d, hist, marks, cs, os) && k <= |cs|
    requires forall j :: 0 <= j < k ==> Accountable(os[j])
    ensures 0 < marks[k] <= |hist|
    ensures LoadUsers(StateAt(hist, marks, k).files) == ReportedUsers(LoadUsers(StateAt(hist, marks, 0).files), cs, os, k)
  {
    if k > 0 {
      StoreIsAsReported(d, hist, marks, cs, os, k - 1);
      UsersBoundary(d, hist, marks, cs, os, k - 1);
    }
  }

  lemma UsersBoundary(d: Deployment, hist: seq<Snapshot>, marks: seq<nat>, cs: seq<AdminCommand>, os: seq<Outcome>, k: nat)
    requires IsAdminRun(d, hist, marks, cs, os) && k < |cs| && 0 < marks[k] <= |hist| && Accountable(os[k])
    ensures 0 < marks[k + 1] <= |hist|
    ensures LoadUsers(StateAt(hist, marks, k + 1).files) == NextUsers(LoadUsers(StateAt(hist, marks, k).files), cs[k], os[k])
  {
    NextBoundary(d, hist, marks, cs, os, k);
    DidUsers(d, StateAt(hist, marks, k), hist[marks[k]..marks[k + 1]], cs[k], os[k]);
  }
}
