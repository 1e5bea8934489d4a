/**
 Coordinated rotation of the REALITY key triple and of the Hysteria2
 obfuscation password: all-or-nothing over key files, `config.json`, the
 running sing-box and the endpoints vpn-subscription serves.
 */
module Rotation {
  import opened Wrappers
  import opened CompatModel
  import opened ServerRender
  import opened ClientRender
  import opened RenderAgreement
  import opened Hosts
  import opened ConfigApply
  import opened UserMutation
  import opened FileTransactions

  /** Answers of the rollback: file moves, config copy, and the two services. */
  datatype UndoAnswers = UndoAnswers(
    restore: Path -> bool, copy: CopyAnswer, singboxSeen: bool, reload: bool, subscriptionSeen: bool, restart: bool)

  datatype RotateAnswers = RotateAnswers(
    now: int, offline: bool, binary: bool, stage: bool, check: bool, gate: bool,
    backup: Path -> BackupAnswer, discard: Path -> bool, install: Path -> bool, policy: bool,
    swap: SwapAnswers, singboxSeen: bool, reload: bool, subscriptionSeen: bool, restart: bool,
    handshake: Handshake, undo: UndoAnswers)

  /** `RolledBack(true)` is the failure that reports a complete rollback. */
  datatype RotateResult = Refused | NotStarted | RolledBack(ok: bool) | Rotated(live: bool)

  ghost function Scope(paths: seq<Path>): iset<Path> {
    Slots(paths) + iset{ConfigJson, ConfigBak}
  }

  /** The transaction that began in `s0` can still be undone from `s`. */
  ghost predicate CanUndo(s0: Snapshot, s: Snapshot, paths: seq<Path>, configApplied: bool) {
    && BackedUp(s0.files, s.files, paths)
    && SameExcept(s.files, s0.files, Scope(paths))
    && (!configApplied ==> SameAt(s.files, s0.files, ConfigJson))
    && (configApplied && ConfigJson in s0.files ==> Has(s, ConfigBak, s0.files[ConfigJson]))
    && (configApplied && ConfigJson !in s0.files ==> SameAt(s.files, s0.files, ConfigBak))
  }

  /**
   A rollback reported success: every file of the transaction is exactly as
   before, and `config.json` is too if and only if there was one to keep or the
   candidate was never swapped in; otherwise it now holds a stale
   `config.json.bak`. The services run what is on disk.
   */
  ghost predicate BackTo(d: Deployment, s0: Snapshot, s: Snapshot, paths: seq<Path>, configApplied: bool, u: UndoAnswers) {
    && FilesBackTo(s0, s, paths, configApplied)
    && (u.singboxSeen ==> s.singbox == LoadedFrom(s.files))
    && (u.subscriptionSeen ==> s.subscription == EndpointsFor(d, s.files))
  }

  ghost predicate FilesBackTo(s0: Snapshot, s: Snapshot, paths: seq<Path>, configApplied: bool) {
    && (forall i :: 0 <= i < |paths| ==> SameAt(s.files, s0.files, paths[i]))
    && (SameAt(s.files, s0.files, ConfigJson) <==> ConfigJson in s0.files || !configApplied)
    && (configApplied && ConfigJson !in s0.files ==> ConfigBak in s0.files && Has(s, ConfigJson, s0.files[ConfigBak]))
  }

  /** Copies the kept configuration back, if the candidate had replaced it. */
  method UndoConfig(h: Host, configApplied: bool, copy: CopyAnswer) returns (ok: bool)
    requires h.Valid()
    modifies h
    ensures h.Valid() && old(h.history) <= h.history
    ensures SameExcept(h.now.files, old(h.now).files, iset{ConfigJson, ConfigBak})
    ensures ok ==> h.now.files == if configApplied && ConfigBak in old(h.now).files
                                  then old(h.now).files[ConfigJson := old(h.now).files[ConfigBak]] else old(h.now).files
    ensures ok == (configApplied ==> ConfigBak in old(h.now).files && copy.Copied?)
    ensures forall i :: |old(h.history)| <= i < |h.history| ==>
              SameExcept(h.history[i].files, old(h.now).files, iset{ConfigJson, ConfigBak})
  {
    if !configApplied {
      return true;
    }
    if ConfigBak !in h.now.files {
      return false;
    }
    ok := h.Copy(ConfigBak, ConfigJson, copy);
  }

  /**
   When a rollback from files `f` to `f0` reports success: every file that is
   there or was there can be put back, a swapped-in configuration has a kept one
   that can be copied back, and each service seen comes back healthy.
   */
  predicate UndoWorks(f0: Files, f: Files, paths: seq<Path>, configApplied: bool, u: UndoAnswers) {
    && RestoresWork(f0, f, paths, u.restore)
    && (configApplied ==> (ConfigJson in f0 || ConfigBak in f0) && u.copy.Copied?)
    && (u.singboxSeen ==> u.reload) && (u.subscriptionSeen ==> u.restart)
  }

  /** The rollback closure of a rotation, up to the services. */
  method UndoFiles(h: Host, paths: seq<Path>, existed: seq<bool>, configApplied: bool, u: UndoAnswers, ghost s0: Snapshot)
    returns (ok: bool)
    requires h.Valid() && Targets(paths)
    requires Existed(s0.files, paths, existed) && CanUndo(s0, h.now, paths, configApplied)
    modifies h
    ensures h.Valid() && old(h.history) <= h.history
    ensures ok ==> FilesBackTo(s0, h.now, paths, configApplied)
    ensures ok <==> && RestoresWork(s0.files, old(h.now).files, paths, u.restore)
                    && (configApplied ==> (ConfigJson in s0.files || ConfigBak in s0.files) && u.copy.Copied?)
    ensures SameExcept(h.now.files, s0.files, Scope(paths)) && Survives(s0.files, h.now.files, paths)
    ensures forall i :: |old(h.history)| <= i < |h.history| ==> Survives(s0.files, h.history[i].files, paths)
  {
    ghost var s1 := h.now;
    SlotsAvoidConfig(paths);
    var filesBack := PutAllBack(h, paths, existed, u.restore, s0.files);
    ghost var s2, m := h.now, |h.history|;
    SameExceptTrans(s2.files, s1.files, s0.files, Slots(paths), Scope(paths), Scope(paths));
    assert SameAt(s2.files, s1.files, ConfigJson) && SameAt(s2.files, s1.files, ConfigBak);
    var configBack := UndoConfig(h, configApplied, u.copy);
    SlotsKept(s0.files, s2.files, h.now.files, paths);
    SameExceptTrans(h.now.files, s2.files, s0.files, iset{ConfigJson, ConfigBak}, Scope(paths), Scope(paths));
    forall i | m <= i < |h.history| ensures Survives(s0.files, h.history[i].files, paths) {
      SlotsKept(s0.files, s2.files, h.history[i].files, paths);
    }
    return filesBack && configBack;
  }

  /** The rollback closure of a rotation. */
  method Undo(h: Host, paths: seq<Path>, existed: seq<bool>, configApplied: bool, u: UndoAnswers, ghost s0: Snapshot)
    returns (ok: bool)
    requires h.Valid() && Targets(paths)
    requires Existed(s0.files, paths, existed) && CanUndo(s0, h.now, paths, configApplied)
    modifies h
    ensures h.Valid() && old(h.history) <= h.history
    ensures ok ==> BackTo(h.d, s0, h.now, paths, configApplied, u)
    ensures ok <==> UndoWorks(s0.files, old(h.now).files, paths, configApplied, u)
    ensures SameExcept(h.now.files, s0.files, Scope(paths))
    ensures forall i :: |old(h.history)| <= i < |h.history| ==> Survives(s0.files, h.history[i].files, paths)
  {
    ok := UndoFiles(h, paths, existed, configApplied, u, s0);
    if u.singboxSeen {
      h.ReloadSingbox(u.reload);
      ok := ok && u.reload;
    }
    if u.subscriptionSeen {
      h.RestartSubscription(u.restart);
      ok := ok && u.restart;
    }
  }

  lemma SlotsAvoidConfig(paths: seq<Path>)
    requires Targets(paths)
    ensures ConfigJson !in Slots(paths) && ConfigBak !in Slots(paths)
  {}

  // ---------------------------------------------------------- forward steps

  /** No live file besides the configuration differs. */
  ghost predicate LiveAsIn(e: Snapshot, s: Snapshot) {
    forall p: Path :: p.RotateBak? || p == ConfigJson || p == ConfigBak || SameAt(s.files, e.files, p)
  }

  /** The candidate is in force: files as installed in `e`, `doc` on disk, and loaded by every service that was seen. */
  ghost predicate InForce(d: Deployment, e: Snapshot, s: Snapshot, doc: ServerConfig, a: RotateAnswers) {
    && LiveAsIn(e, s)
    && Has(s, ConfigJson, Config(doc))
    && (a.singboxSeen ==> s.singbox == Runs(doc))
    && (a.subscriptionSeen ==> s.subscription == EndpointsFor(d, s.files))
  }

  /** Both services took the candidate, and no handshake self-test rejected it. */
  predicate Accepted(a: RotateAnswers) {
    && (a.singboxSeen ==> a.reload)
    && (a.subscriptionSeen ==> a.restart)
    && !(a.singboxSeen && a.subscriptionSeen && a.handshake.Rejected?)
  }

  /** At every step: the originals are all on disk, or the rotation succeeds and the candidate is already in force. */
  ghost predicate SafeStep(
    d: Deployment, s0: Snapshot, e: Snapshot, s: Snapshot, doc: ServerConfig, paths: seq<Path>, a: RotateAnswers, r: RotateResult)
  {
    Survives(s0.files, s.files, paths) || (r.Rotated? && InForce(d, e, s, doc, a))
  }

  lemma StageKeepsUndo(s0: Snapshot, s: Snapshot, t: Snapshot, paths: seq<Path>)
    requires Targets(paths) && CanUndo(s0, s, paths, false) && OnlyBackup(s, t)
    ensures CanUndo(s0, t, paths, false)
  {
    assert SameAt(t.files, s.files, ConfigJson);
    SlotsKept(s0.files, s.files, t.files, paths);
    SameExceptTrans(t.files, s.files, s0.files, iset{ConfigBak}, Scope(paths), Scope(paths));
  }

  lemma StagingSurvives(s0: Snapshot, e: Snapshot, hist: seq<Snapshot>, n: nat, m: nat, paths: seq<Path>)
    requires Targets(paths) && CanUndo(s0, e, paths, false) && m <= |hist|
    requires forall i :: n <= i < m ==> OnlyBackup(e, hist[i])
    ensures forall i :: n <= i < m ==> Survives(s0.files, hist[i].files, paths)
  {
    forall i | n <= i < m ensures Survives(s0.files, hist[i].files, paths) {
      StageKeepsUndo(s0, e, hist[i], paths);
      BackedUpSurvives(s0.files, hist[i].files, paths);
    }
  }

  lemma SwapKeepsUndo(s0: Snapshot, s: Snapshot, t: Snapshot, doc: ServerConfig, paths: seq<Path>)
    requires Targets(paths) && CanUndo(s0, s, paths, false) && t.files == Swapped(s.files, doc)
    requires SameAt(s.files, s0.files, ConfigBak)
    ensures CanUndo(s0, t, paths, true) && Survives(s0.files, t.files, paths)
    ensures LiveAsIn(s, t) && Has(t, ConfigJson, Config(doc))
  {
    BackedUpSurvives(s0.files, s.files, paths);
    SlotsKept(s0.files, s.files, t.files, paths);
    SameExceptTrans(t.files, s.files, s0.files, iset{ConfigJson, ConfigBak}, Scope(paths), Scope(paths));
  }

  lemma DiscardKeepsForce(
    d: Deployment, e: Snapshot, s: Snapshot, t: Snapshot, doc: ServerConfig, a: RotateAnswers)
    requires InForce(d, e, s, doc, a) && LiveSame(s, t)
    ensures InForce(d, e, t, doc, a)
  {
    forall p: Path | !p.RotateBak? && p != ConfigJson && p != ConfigBak ensures SameAt(t.files, e.files, p) {
      assert SameAt(t.files, s.files, p) && SameAt(s.files, e.files, p);
    }
    assert SameAt(t.files, s.files, ConfigJson);
    SameDoc(d, t.files, s.files, [], 0);
  }

  /** From the swapped-in candidate to commit: load it everywhere, or undo. */
  method LoadRotation(
    h: Host, paths: seq<Path>, existed: seq<bool>, doc: ServerConfig, a: RotateAnswers, ghost s0: Snapshot, ghost e: Snapshot)
    returns (r: RotateResult)
    requires h.Valid() && Targets(paths)
    requires Existed(s0.files, paths, existed) && CanUndo(s0, h.now, paths, true)
    requires Has(h.now, ConfigJson, Config(doc)) && LiveAsIn(e, h.now)
    modifies h
    ensures h.Valid() && old(h.history) <= h.history
    ensures (r.Rotated? <==> Accepted(a)) && (r.RolledBack? <==> !Accepted(a))
    ensures r.Rotated? ==> r.live == (a.singboxSeen && a.subscriptionSeen) && InForce(h.d, e, h.now, doc, a)
    ensures r.Rotated? ==> Discarded(h.now, paths, a.discard)
    ensures r == RolledBack(true) ==> BackTo(h.d, s0, h.now, paths, true, a.undo)
    ensures r.RolledBack? ==> (r.ok <==> UndoWorks(s0.files, old(h.now).files, paths, true, a.undo))
    ensures SameExcept(h.now.files, s0.files, Scope(paths))
    ensures forall i :: |old(h.history)| <= i < |h.history| ==> SafeStep(h.d, s0, e, h.history[i], doc, paths, a, r)
  {
    BackedUpSurvives(s0.files, h.now.files, paths);
    if a.singboxSeen {
      h.ReloadSingbox(a.reload);
      if !a.reload {
        var ok := Undo(h, paths, existed, true, a.undo, s0);
        return RolledBack(ok);
      }
    }
    if a.subscriptionSeen {
      h.RestartSubscription(a.restart);
      if !a.restart {
        var ok := Undo(h, paths, existed, true, a.undo, s0);
        return RolledBack(ok);
      }
    }
    if a.singboxSeen && a.subscriptionSeen && a.handshake.Rejected? {
      var ok := Undo(h, paths, existed, true, a.undo, s0);
      return RolledBack(ok);
    }
    r := Commit(h, paths, doc, a, s0, e);
  }

  /** Only now is it safe to discard the originals. */
  method Commit(h: Host, paths: seq<Path>, doc: ServerConfig, a: RotateAnswers, ghost s0: Snapshot, ghost e: Snapshot)
    returns (r: RotateResult)
    requires h.Valid() && Targets(paths) && InForce(h.d, e, h.now, doc, a)
    requires SameExcept(h.now.files, s0.files, Scope(paths))
    modifies h
    ensures h.Valid() && old(h.history) <= h.history
    ensures r == Rotated(a.singboxSeen && a.subscriptionSeen) && InForce(h.d, e, h.now, doc, a) && Discarded(h.now, paths, a.discard)
    ensures SameExcept(h.now.files, s0.files, Scope(paths))
    ensures forall i :: |old(h.history)| <= i < |h.history| ==> InForce(h.d, e, h.history[i], doc, a)
  {
    ghost var s, n := h.now, |h.history|;
    DiscardBackups(h, paths, a.discard);
    DiscardKeepsForce(h.d, e, s, h.now, doc, a);
    forall i | n <= i < |h.history| ensures InForce(h.d, e, h.history[i], doc, a) {
      DiscardKeepsForce(h.d, e, s, h.history[i], doc, a);
    }
    SameExceptTrans(h.now.files, s.files, s0.files, Backups(paths), Scope(paths), Scope(paths));
    return Rotated(a.singboxSeen && a.subscriptionSeen);
  }

  /** The swap as the transaction sees it: it can be undone whether or not it went through. */
  method SwapCandidate(h: Host, paths: seq<Path>, doc: ServerConfig, swap: SwapAnswers, ghost s0: Snapshot) returns (swapped: bool)
    requires h.Valid() && Targets(paths) && CanUndo(s0, h.now, paths, false) && SameAt(h.now.files, s0.files, ConfigBak)
    modifies h
    ensures h.Valid() && old(h.history) <= h.history
    ensures swapped == SwapSucceeds(old(h.now).files, swap)
    ensures CanUndo(s0, h.now, paths, swapped)
    ensures swapped ==> LiveAsIn(old(h.now), h.now) && Has(h.now, ConfigJson, Config(doc))
    ensures forall i :: 0 <= i < |paths| ==> SameAt(h.now.files, old(h.now).files, paths[i])
    ensures forall i :: |old(h.history)| <= i < |h.history| ==> Survives(s0.files, h.history[i].files, paths)
  {
    ghost var e, n := h.now, |h.history|;
    swapped := ApplyConfigAtomically(h, doc, swap);
    StagingSurvives(s0, e, h.history, n, |h.history| - (if swapped then 1 else 0), paths);
    SlotsKept(s0.files, e.files, h.now.files, paths);
    if swapped {
      SwapKeepsUndo(s0, e, h.now, doc, paths);
    } else {
      StageKeepsUndo(s0, e, h.now, paths);
    }
  }

  /** With the new material installed: swap the candidate in and load it, or undo. */
  method FinishRotation(
    h: Host, paths: seq<Path>, existed: seq<bool>, doc: ServerConfig, a: RotateAnswers, ghost s0: Snapshot)
    returns (r: RotateResult)
    requires h.Valid() && Targets(paths)
    requires Existed(s0.files, paths, existed) && CanUndo(s0, h.now, paths, false) && SameAt(h.now.files, s0.files, ConfigBak)
    modifies h
    ensures h.Valid() && old(h.history) <= h.history
    ensures r.Rotated? <==> SwapSucceeds(old(h.now).files, a.swap) && Accepted(a)
    ensures r.RolledBack? <==> !r.Rotated?
    ensures r.Rotated? ==> r.live == (a.singboxSeen && a.subscriptionSeen) && InForce(h.d, old(h.now), h.now, doc, a)
    ensures r.Rotated? ==> Discarded(h.now, paths, a.discard)
    ensures r == RolledBack(true) ==> BackTo(h.d, s0, h.now, paths, SwapSucceeds(old(h.now).files, a.swap), a.undo)
    ensures r.RolledBack? ==> (r.ok <==> UndoWorks(s0.files, old(h.now).files, paths, SwapSucceeds(old(h.now).files, a.swap), a.undo))
    ensures SameExcept(h.now.files, s0.files, Scope(paths))
    ensures forall i :: |old(h.history)| <= i < |h.history| ==> SafeStep(h.d, s0, old(h.now), h.history[i], doc, paths, a, r)
  {
    ghost var e := h.now;
    var swapped := SwapCandidate(h, paths, doc, a.swap, s0);
    if !swapped {
      var ok := Undo(h, paths, existed, false, a.undo, s0);
      return RolledBack(ok);
    }
    r := LoadRotation(h, paths, existed, doc, a, s0, e);
  }

  // ------------------------------------------------------------ the commands

  datatype KeyTriple = KeyTriple(privateKey: string, publicKey: string, shortId: string)

  const KEY_FILES := [PrivateKey, PublicKey, ShortId]

  function KeyText(keys: KeyTriple, p: Path): string {
    if p == PrivateKey then keys.privateKey else if p == PublicKey then keys.publicKey else keys.shortId
  }

  /** Writes new contents over the given files in order, stopping at the first failure. */
  method InstallTexts(h: Host, paths: seq<Path>, text: Path -> string, install: Path -> bool, ghost f0: Files) returns (ok: bool)
    requires h.Valid() && Targets(paths) && BackedUp(f0, h.now.files, paths)
    modifies h
    ensures h.Valid() && old(h.history) <= h.history
    ensures h.now.singbox == old(h.now).singbox && h.now.subscription == old(h.now).subscription
    ensures SameExcept(h.now.files, old(h.now).files, iset p | p in paths) && BackedUp(f0, h.now.files, paths)
    ensures ok <==> forall i :: 0 <= i < |paths| ==> install(paths[i])
    ensures ok ==> forall i :: 0 <= i < |paths| ==> Has(h.now, paths[i], Text(text(paths[i])))
    ensures forall i :: 0 <= i < |paths| ==>
              (paths[i] in h.now.files <==> paths[i] in old(h.now).files || InstalledUpTo(paths, install, i))
    ensures forall i :: |old(h.history)| <= i < |h.history| ==> Survives(f0, h.history[i].files, paths)
  {
    for i := 0 to |paths|
      invariant h.Valid() && old(h.history) <= h.history
      invariant h.now.singbox == old(h.now).singbox && h.now.subscription == old(h.now).subscription
      invariant SameExcept(h.now.files, old(h.now).files, iset p | p in paths) && BackedUp(f0, h.now.files, paths)
      invariant forall j :: 0 <= j < i ==> install(paths[j]) && Has(h.now, paths[j], Text(text(paths[j])))
      invariant forall j :: i <= j < |paths| ==> SameAt(h.now.files, old(h.now).files, paths[j])
      invariant forall j :: |old(h.history)| <= j < |h.history| ==> Survives(f0, h.history[j].files, paths)
    {
      if !install(paths[i]) {
        assert forall j :: i <= j < |paths| ==> !InstalledUpTo(paths, install, j);
        return false;
      }
      ghost var before := h.now.files;
      h.Install(paths[i], Text(text(paths[i])));
      assert paths[i] in paths;
      forall j | 0 <= j < |paths| ensures SetAside(f0, h.now.files, paths[j]) {
        assert SetAside(f0, before, paths[j]);
      }
      BackedUpSurvives(f0, h.now.files, paths);
    }
    return true;
  }

  lemma PreparedCanUndo(s0: Snapshot, s: Snapshot, t: Snapshot, paths: seq<Path>)
    requires Targets(paths) && SlotsOnly(s0, s, paths) && BackedUp(s0.files, t.files, paths)
    requires SameExcept(t.files, s.files, iset p | p in paths)
    ensures CanUndo(s0, t, paths, false)
  {
    SameExceptTrans(t.files, s.files, s0.files, (iset p | p in paths), Slots(paths), Scope(paths));
    SlotsAvoidConfig(paths);
    assert SameAt(t.files, s.files, ConfigJson) && SameAt(s.files, s0.files, ConfigJson);
  }

  /** The candidate document is what the new triple on disk stands for. */
  lemma CandidateIsDoc(d: Deployment, s0: Snapshot, s: Snapshot, keys: KeyTriple, users: seq<CompatUser>, now: int)
    requires d.derive(keys.privateKey) == Some(keys.publicKey)
    requires HasTriple(s, keys)
    requires SameAt(s.files, s0.files, ObfsPassword)
    ensures DocFor(d, s.files, users, now) == Some(CandidateDoc(d, s0.files, keys, users, now))
  {}

  function CandidateDoc(d: Deployment, files: Files, keys: KeyTriple, users: seq<CompatUser>, now: int): ServerConfig {
    RenderServer(users,
      RealityServerParams(keys.privateKey, keys.publicKey, [keys.shortId], d.handshakeServer, d.handshakePort),
      HysteriaParams(d, LoadObfs(files)), d.ports, now)
  }

  predicate HasTriple(s: Snapshot, keys: KeyTriple) {
    Has(s, PrivateKey, Text(keys.privateKey)) && Has(s, PublicKey, Text(keys.publicKey)) && Has(s, ShortId, Text(keys.shortId))
  }

  /**
   Key triple, `config.json`, every service that was seen: all from one keyset,
   and the document is the render of `users` under the keys on disk.
   */
  ghost predicate OneKeyset(d: Deployment, s: Snapshot, keys: KeyTriple, users: seq<CompatUser>, a: RotateAnswers) {
    && HasTriple(s, keys)
    && DocFor(d, s.files, users, a.now).Some?
    && Has(s, ConfigJson, Config(DocFor(d, s.files, users, a.now).value))
    && (a.singboxSeen ==> s.singbox == Runs(DocFor(d, s.files, users, a.now).value))
    && (a.subscriptionSeen ==> s.subscription == EndpointsFor(d, s.files))
  }

  lemma InForceIsOneKeyset(
    d: Deployment, s0: Snapshot, e: Snapshot, s: Snapshot, keys: KeyTriple, users: seq<CompatUser>, a: RotateAnswers)
    requires d.derive(keys.privateKey) == Some(keys.publicKey) && HasTriple(e, keys)
    requires SameAt(e.files, s0.files, ObfsPassword)
    requires InForce(d, e, s, CandidateDoc(d, s0.files, keys, users, a.now), a)
    ensures OneKeyset(d, s, keys, users, a)
  {
    assert SameAt(s.files, e.files, PrivateKey) && SameAt(s.files, e.files, PublicKey) && SameAt(s.files, e.files, ShortId);
    assert SameAt(s.files, e.files, ObfsPassword);
    CandidateIsDoc(d, s0, s, keys, users, a.now);
  }

  lemma TriplePlaced(s0: Snapshot, e: Snapshot, keys: KeyTriple)
    requires forall i :: 0 <= i < |KEY_FILES| ==> Has(e, KEY_FILES[i], Text(KeyText(keys, KEY_FILES[i])))
    requires SameExcept(e.files, s0.files, Slots(KEY_FILES))
    ensures HasTriple(e, keys) && SameAt(e.files, s0.files, ObfsPassword)
  {
    assert KEY_FILES[0] == PrivateKey && KEY_FILES[1] == PublicKey && KEY_FILES[2] == ShortId;
    assert ObfsPassword !in Slots(KEY_FILES);
  }

  /** Gives a prepared transaction up before any live file was touched. */
  method Abandon(h: Host, paths: seq<Path>, discard: Path -> bool, ghost s0: Snapshot)
    requires h.Valid() && Targets(paths) && LiveSame(s0, h.now) && SlotsOnly(s0, h.now, paths)
    modifies h
    ensures h.Valid() && old(h.history) <= h.history
    ensures LiveSame(s0, h.now) && SlotsOnly(s0, h.now, paths)
    ensures forall i :: |old(h.history)| <= i < |h.history| ==> Survives(s0.files, h.history[i].files, paths)
  {
    ghost var s1, n := h.now, |h.history|;
    DiscardBackups(h, paths, discard);
    assert paths[..|paths|] == paths;
    DiscardFrames(s0, s1, h.now, paths, |paths|);
    forall i | n <= i < |h.history| ensures Survives(s0.files, h.history[i].files, paths) {
      LiveSurvives(s1, h.history[i], paths);
      forall j | 0 <= j < |paths| ensures Kept(s0.files, h.history[i].files, paths[j]) {
        assert SameAt(h.history[i].files, s1.files, paths[j]) && SameAt(s1.files, s0.files, paths[j]);
      }
    }
  }

  /** Set the originals aside, install the new texts, then swap and load; `e` is the state once all are installed. */
  method RotateTexts(h: Host, paths: seq<Path>, text: Path -> string, doc: ServerConfig, a: RotateAnswers)
    returns (r: RotateResult, ghost e: Snapshot)
    requires h.Valid() && Targets(paths)
    modifies h
    ensures h.Valid() && old(h.history) <= h.history
    ensures !r.Refused? && (r.NotStarted? <==> !Preparable(old(h.now).files, paths, a.backup))
    ensures r.NotStarted? ==> LiveSame(old(h.now), h.now)
    ensures r.Rotated? <==> && Preparable(old(h.now).files, paths, a.backup) && AllInstalled(paths, a)
                            && SwapSucceeds(old(h.now).files, a.swap) && Accepted(a)
    ensures r.RolledBack? ==> (r.ok <==> RollbackWorks(old(h.now).files, paths, a.install, a.swap, a.undo))
    ensures r.Rotated? ==> r.live == (a.singboxSeen && a.subscriptionSeen) && InForce(h.d, e, h.now, doc, a)
    ensures r.Rotated? ==> Discarded(h.now, paths, a.discard) && SameExcept(e.files, old(h.now).files, Slots(paths))
                           && forall i :: 0 <= i < |paths| ==> Has(e, paths[i], Text(text(paths[i])))
    ensures r == RolledBack(true) ==>
              BackTo(h.d, old(h.now), h.now, paths, AllInstalled(paths, a) && SwapSucceeds(old(h.now).files, a.swap), a.undo)
    ensures SameExcept(h.now.files, old(h.now).files, Scope(paths))
    ensures forall i :: |old(h.history)| <= i < |h.history| ==>
              SafeStep(h.d, old(h.now), e, h.history[i], doc, paths, a, r)
  {
    ghost var s0 := h.now;
    e := s0;
    var existed := SetAllAside(h, paths, a.backup, a.discard);
    ghost var s1 := h.now;
    if existed.None? {
      return NotStarted, s0;
    }
    var installed := InstallOver(h, paths, text, a.install, s0, s1);
    RollbackMeans(s0.files, h.now.files, paths, a.install, a.swap, a.undo);
    if !installed {
      var ok := Undo(h, paths, existed.value, false, a.undo, s0);
      return RolledBack(ok), s0;
    }
    e := h.now;
    InstalledSlots(s0, s1, e, paths, a.swap);
    r := FinishRotation(h, paths, existed.value, doc, a, s0);
  }

  lemma InstalledSlots(s0: Snapshot, s1: Snapshot, e: Snapshot, paths: seq<Path>, swap: SwapAnswers)
    requires Targets(paths) && SlotsOnly(s0, s1, paths) && SameExcept(e.files, s1.files, iset p | p in paths)
    ensures SameExcept(e.files, s0.files, Slots(paths)) && SwapSucceeds(e.files, swap) == SwapSucceeds(s0.files, swap)
  {
    SameExceptTrans(e.files, s1.files, s0.files, (iset p | p in paths), Slots(paths), Slots(paths));
    SlotsAvoidConfig(paths);
    assert SameAt(e.files, s0.files, ConfigJson);
  }

  /** `InstallTexts` once the originals are set aside. */
  method InstallOver(
    h: Host, paths: seq<Path>, text: Path -> string, install: Path -> bool, ghost s0: Snapshot, ghost s1: Snapshot)
    returns (ok: bool)
    requires h.Valid() && Targets(paths) && h.now == s1
    requires LiveSame(s0, s1) && SlotsOnly(s0, s1, paths) && BackedUp(s0.files, s1.files, paths)
    modifies h
    ensures h.Valid() && old(h.history) <= h.history
    ensures CanUndo(s0, h.now, paths, false) && SameAt(h.now.files, s0.files, ConfigBak)
    ensures SameExcept(h.now.files, s1.files, iset p | p in paths)
    ensures ok <==> InstalledUpTo(paths, install, |paths|)
    ensures ok ==> forall i :: 0 <= i < |paths| ==> Has(h.now, paths[i], Text(text(paths[i])))
    ensures forall i :: 0 <= i < |paths| ==>
              (paths[i] in h.now.files <==> paths[i] in s0.files || InstalledUpTo(paths, install, i))
    ensures forall i :: |old(h.history)| <= i < |h.history| ==> Survives(s0.files, h.history[i].files, paths)
  {
    ok := InstallTexts(h, paths, text, install, s0.files);
    PreparedCanUndo(s0, s1, h.now, paths);
    SlotsAvoidConfig(paths);
    assert SameAt(h.now.files, s1.files, ConfigBak) && SameAt(s1.files, s0.files, ConfigBak);
    forall i | 0 <= i < |paths|
      ensures paths[i] in h.now.files <==> paths[i] in s0.files || InstalledUpTo(paths, install, i)
    {
      assert SameAt(s1.files, s0.files, paths[i]);
    }
  }

  /** The rollback condition at the moment of the rollback is the one known at the start. */
  lemma RollbackMeans(
    f0: Files, f: Files, paths: seq<Path>, install: Path -> bool, swap: SwapAnswers, u: UndoAnswers)
    requires forall i :: 0 <= i < |paths| ==> (paths[i] in f <==> paths[i] in f0 || InstalledUpTo(paths, install, i))
    ensures UndoWorks(f0, f, paths, InstalledUpTo(paths, install, |paths|) && SwapSucceeds(f0, swap), u)
       <==> RollbackWorks(f0, paths, install, swap, u)
  {}

  /** The first `i + 1` installs went through. */
  predicate InstalledUpTo(paths: seq<Path>, install: Path -> bool, i: int) {
    forall j :: 0 <= j <= i && j < |paths| ==> install(paths[j])
  }

  /** When a rotation that began on `files` and failed reports a complete rollback. */
  predicate RollbackWorks(files: Files, paths: seq<Path>, install: Path -> bool, swap: SwapAnswers, u: UndoAnswers) {
    && (forall i :: 0 <= i < |paths| && (paths[i] in files || InstalledUpTo(paths, install, i)) ==> u.restore(paths[i]))
    && (InstalledUpTo(paths, install, |paths|) && SwapSucceeds(files, swap) ==>
          (ConfigJson in files || ConfigBak in files) && u.copy.Copied?)
    && (u.singboxSeen ==> u.reload) && (u.subscriptionSeen ==> u.restart)
  }

  predicate AllInstalled(paths: seq<Path>, a: RotateAnswers) {
    forall i :: 0 <= i < |paths| ==> a.install(paths[i])
  }

  /** A rotation that did nothing leaves the no-reload shortcut as it was; one that reloaded, either way, leaves it sound. */
  predicate KeepsShortcut(s0: Snapshot, s: Snapshot, a: RotateAnswers, r: RotateResult) {
    && (r.Refused? || r.NotStarted? ==> (StampSound(s) <==> StampSound(s0)))
    && ((r.Rotated? && a.singboxSeen) || (r == RolledBack(true) && a.undo.singboxSeen) ==> StampSound(s))
  }

  lemma ShortcutKept(s0: Snapshot, s: Snapshot, a: RotateAnswers, r: RotateResult)
    requires !r.Refused? && (r.NotStarted? ==> LiveSame(s0, s))
    requires (r.Rotated? && a.singboxSeen) || (r == RolledBack(true) && a.undo.singboxSeen) ==> s.singbox == LoadedFrom(s.files)
    ensures KeepsShortcut(s0, s, a, r)
  {
    if r.NotStarted? {
      assert SameAt(s.files, s0.files, ConfigJson) && SameAt(s.files, s0.files, AppliedStamp);
    } else if (r.Rotated? && a.singboxSeen) || (r == RolledBack(true) && a.undo.singboxSeen) {
      LoadedIsSound(s);
    }
  }

  /** Everything checked before a rotation touches anything: a usable key pair, a readable store, a valid candidate, control of the services. */
  predicate MayRotate(d: Deployment, files: Files, keys: Option<KeyTriple>, a: RotateAnswers) {
    && a.binary && keys.Some? && d.derive(keys.value.privateKey) == Some(keys.value.publicKey)
    && LoadUsers(files).Some? && a.stage && a.check && (a.offline || a.gate)
  }

  /** `cmd_reality_rotate`. `keys` is what key generation produced, if anything. */
  method RealityRotate(h: Host, keys: Option<KeyTriple>, a: RotateAnswers) returns (r: RotateResult)
    requires h.Valid()
    modifies h
    ensures h.Valid() && old(h.history) <= h.history
    // exactly when each result is given
    ensures r.Refused? <==> !MayRotate(h.d, old(h.now).files, keys, a)
    ensures r.NotStarted? <==> MayRotate(h.d, old(h.now).files, keys, a) && !Preparable(old(h.now).files, KEY_FILES, a.backup)
    ensures r.Rotated? <==> && MayRotate(h.d, old(h.now).files, keys, a) && Preparable(old(h.now).files, KEY_FILES, a.backup)
                            && AllInstalled(KEY_FILES, a) && SwapSucceeds(old(h.now).files, a.swap) && Accepted(a)
    ensures r.RolledBack? ==> (r.ok <==> RollbackWorks(old(h.now).files, KEY_FILES, a.install, a.swap, a.undo))
    // and what it means
    ensures r.Refused? ==> h.now == old(h.now)
    ensures r.NotStarted? ==> LiveSame(old(h.now), h.now)
    ensures r.Rotated? ==> OneKeyset(h.d, h.now, keys.value, LoadUsers(old(h.now).files).value, a)
    ensures r.Rotated? ==> Discarded(h.now, KEY_FILES, a.discard)
    ensures r.Rotated? ==> r.live == (a.singboxSeen && a.subscriptionSeen)
    ensures r == RolledBack(true) ==>
              BackTo(h.d, old(h.now), h.now, KEY_FILES,
                AllInstalled(KEY_FILES, a) && SwapSucceeds(old(h.now).files, a.swap), a.undo)
    ensures SameExcept(h.now.files, old(h.now).files, Scope(KEY_FILES))
    // what it leaves of the no-reload shortcut
    ensures KeepsShortcut(old(h.now), h.now, a, r)
    // before commit every old key file survives, live or as its backup
    ensures forall i :: |old(h.history)| <= i < |h.history| ==>
              || Survives(old(h.now).files, h.history[i].files, KEY_FILES)
              || (r.Rotated? && OneKeyset(h.d, h.history[i], keys.value, LoadUsers(old(h.now).files).value, a))
  {
    var users := LoadUsers(h.now.files);
    if !a.binary || keys.None? || h.d.derive(keys.value.privateKey) != Some(keys.value.publicKey) || users.None? {
      return Refused;
    }
    var doc := CandidateDoc(h.d, h.now.files, keys.value, users.value, a.now);
    if !a.stage || !a.check || (!a.offline && !a.gate) {
      return Refused;
    }
    r := RotateKeys(h, keys.value, users.value, doc, a);
  }

  /** The transaction over the key triple, once nothing stands against it. */
  method RotateKeys(h: Host, keys: KeyTriple, users: seq<CompatUser>, doc: ServerConfig, a: RotateAnswers) returns (r: RotateResult)
    requires h.Valid() && LoadUsers(h.now.files) == Some(users) && h.d.derive(keys.privateKey) == Some(keys.publicKey)
    requires doc == CandidateDoc(h.d, h.now.files, keys, users, a.now)
    modifies h
    ensures h.Valid() && old(h.history) <= h.history && !r.Refused?
    ensures r.NotStarted? <==> !Preparable(old(h.now).files, KEY_FILES, a.backup)
    ensures r.Rotated? <==> && Preparable(old(h.now).files, KEY_FILES, a.backup)
                            && AllInstalled(KEY_FILES, a) && SwapSucceeds(old(h.now).files, a.swap) && Accepted(a)
    ensures r.RolledBack? ==> (r.ok <==> RollbackWorks(old(h.now).files, KEY_FILES, a.install, a.swap, a.undo))
    ensures r.NotStarted? ==> LiveSame(old(h.now), h.now)
    ensures r.Rotated? ==> OneKeyset(h.d, h.now, keys, users, a) && Discarded(h.now, KEY_FILES, a.discard)
    ensures r.Rotated? ==> r.live == (a.singboxSeen && a.subscriptionSeen)
    ensures r == RolledBack(true) ==>
              BackTo(h.d, old(h.now), h.now, KEY_FILES,
                AllInstalled(KEY_FILES, a) && SwapSucceeds(old(h.now).files, a.swap), a.undo)
    ensures SameExcept(h.now.files, old(h.now).files, Scope(KEY_FILES)) && KeepsShortcut(old(h.now), h.now, a, r)
    ensures forall i :: |old(h.history)| <= i < |h.history| ==>
              || Survives(old(h.now).files, h.history[i].files, KEY_FILES)
              || (r.Rotated? && OneKeyset(h.d, h.history[i], keys, users, a))
  {
    ghost var s0, n, e := h.now, |h.history|, h.now;
    r, e := RotateTexts(h, KEY_FILES, p => KeyText(keys, p), doc, a);
    if r.Rotated? {
      TriplePlaced(s0, e, keys);
      InForceIsOneKeyset(h.d, s0, e, h.now, keys, users, a);
      forall i | n <= i < |h.history| && InForce(h.d, e, h.history[i], doc, a)
        ensures OneKeyset(h.d, h.history[i], keys, users, a)
      {
        InForceIsOneKeyset(h.d, s0, e, h.history[i], keys, users, a);
      }
    }
    ShortcutKept(s0, h.now, a, r);
  }

  /**
   After a rotation sing-box has loaded, swapping a document in is safe exactly
   unless the stamp, which the rotation left alone, already names it and it is
   not the one now running.
   */
  lemma RotatedIsSwapSafe(
    d: Deployment, s0: Snapshot, s: Snapshot, keys: KeyTriple, users: seq<CompatUser>, a: RotateAnswers, doc: ServerConfig)
    requires OneKeyset(d, s, keys, users, a) && a.singboxSeen && SameExcept(s.files, s0.files, Scope(KEY_FILES))
    ensures StampSound(s)
    ensures SwapSafe(s, doc) <==> !Has(s0, AppliedStamp, Stamp(doc)) || Some(doc) == DocFor(d, s.files, users, a.now)
  {
    LoadedIsSound(s);
    assert SameAt(s.files, s0.files, AppliedStamp);
  }

  /** A host just rotated to fresh keys is safe for every list at every time: the stamp names a document of other keys. */
  lemma FreshKeysAreSwapSafe(
    d: Deployment, s0: Snapshot, s: Snapshot, keys: KeyTriple, users: seq<CompatUser>, a: RotateAnswers,
    next: seq<CompatUser>, b: ApplyAnswers)
    requires OneKeyset(d, s, keys, users, a) && a.singboxSeen && SameExcept(s.files, s0.files, Scope(KEY_FILES))
    requires forall stamped :: Has(s0, AppliedStamp, Stamp(stamped)) ==> stamped.vless.privateKey != keys.privateKey
    ensures StampSound(s) && SwapSafeFor(d, s, next, b)
  {
    var doc := DocFor(d, s.files, next, b.now).value;
    RotatedIsSwapSafe(d, s0, s, keys, users, a, doc);
    assert doc.vless.privateKey == keys.privateKey;
  }

  /**
   On a host without `config.json` but with a stale `config.json.bak`, a rotation
   that fails after the swap reports a complete rollback and leaves the stale
   document behind as `config.json`.
   */
  method StaleKeptConfigComesBack(h: Host, keys: Option<KeyTriple>, a: RotateAnswers) returns (r: RotateResult)
    requires h.Valid() && ConfigJson !in h.now.files && ConfigBak in h.now.files
    requires MayRotate(h.d, h.now.files, keys, a) && Preparable(h.now.files, KEY_FILES, a.backup)
    requires AllInstalled(KEY_FILES, a) && SwapSucceeds(h.now.files, a.swap) && !Accepted(a)
    requires RollbackWorks(h.now.files, KEY_FILES, a.install, a.swap, a.undo)
    modifies h
    ensures r == RolledBack(true)
    ensures Has(h.now, ConfigJson, old(h.now).files[ConfigBak]) && !SameAt(h.now.files, old(h.now).files, ConfigJson)
  {
    r := RealityRotate(h, keys, a);
  }

  /**
   A rollback reported as complete, on a host that had a configuration and
   whose services ran what was on disk: nothing a client can see has changed.
   Every live file is as before, as are the loaded document and the served endpoints.
   */
  lemma CompleteRollbackIsExact(
    d: Deployment, s0: Snapshot, s: Snapshot, paths: seq<Path>, configApplied: bool, u: UndoAnswers)
    requires Targets(paths) && BackTo(d, s0, s, paths, configApplied, u) && SameExcept(s.files, s0.files, Scope(paths))
    requires ConfigJson in s0.files && u.singboxSeen && u.subscriptionSeen
    requires s0.singbox == LoadedFrom(s0.files) && s0.subscription == EndpointsFor(d, s0.files)
    ensures forall p: Path :: p.RotateBak? || p == ConfigBak || SameAt(s.files, s0.files, p)
    ensures s.singbox == s0.singbox && s.subscription == s0.subscription
  {
    forall p: Path | !p.RotateBak? && p != ConfigBak ensures SameAt(s.files, s0.files, p) {
      if p in paths {
        var i :| 0 <= i < |paths| && paths[i] == p;
      } else if p != ConfigJson {
        assert p !in Scope(paths);
      }
    }
    SameDoc(d, s.files, s0.files, [], 0);
  }

  /**
   After a live rotation clients are served one keyset end to end: what
   vpn-subscription now hands any user is let in by the running sing-box on
   both transports exactly when that user is active.
   */
  lemma RotatedHostServesActiveUsers(
    d: Deployment, s: Snapshot, keys: KeyTriple, users: seq<CompatUser>, a: RotateAnswers,
    u: CompatUser, profile: SelectionProfile, k: nat)
    requires OneKeyset(d, s, keys, users, a) && a.singboxSeen && a.subscriptionSeen
    requires DistinctCredentials(users) && u in users && k < 2
    ensures s.subscription.Serves? && s.singbox.Runs?
    ensures var outbounds := ClientSubscription(u, s.subscription.endpoints, profile).outbounds;
            |outbounds| == 5 && (Admits(s.singbox.doc, d.derive, outbounds[k]) <==> u.IsActive(a.now))
  {
    var reality := LoadReality(d, s.files).value;
    SubscriptionAdmittedIffActive(
      users, u, reality, HysteriaParams(d, LoadObfs(s.files)), d.ports, d.publicHost, d.derive, profile, a.now, k);
  }

  // ------------------------------------------------- obfuscation password

  const OBFS_FILES := [ObfsPassword]

  function ObfsCandidateDoc(d: Deployment, reality: RealityServerParams, password: string, users: seq<CompatUser>, now: int): ServerConfig {
    RenderServer(users, reality, HysteriaParams(d, Some(password)), d.ports, now)
  }

  /** Password file, `config.json` and every service that was seen agree on the one new password. */
  ghost predicate OnePassword(d: Deployment, s: Snapshot, password: string, users: seq<CompatUser>, a: RotateAnswers) {
    && Has(s, ObfsPassword, Text(password))
    && DocFor(d, s.files, users, a.now).Some?
    && Has(s, ConfigJson, Config(DocFor(d, s.files, users, a.now).value))
    && (a.singboxSeen ==> s.singbox == Runs(DocFor(d, s.files, users, a.now).value))
    && (a.subscriptionSeen ==> s.subscription == EndpointsFor(d, s.files))
  }

  lemma InForceIsOnePassword(
    d: Deployment, s0: Snapshot, e: Snapshot, s: Snapshot, reality: RealityServerParams, password: string,
    users: seq<CompatUser>, a: RotateAnswers)
    requires LoadReality(d, s0.files) == Some(reality) && password != ""
    requires SameExcept(e.files, s0.files, Slots(OBFS_FILES)) && Has(e, ObfsPassword, Text(password))
    requires InForce(d, e, s, ObfsCandidateDoc(d, reality, password, users, a.now), a)
    ensures OnePassword(d, s, password, users, a)
  {
    forall p | p in {PrivateKey, PublicKey, ShortId} ensures SameAt(s.files, s0.files, p) {
      assert SameAt(s.files, e.files, p);
      assert p !in Slots(OBFS_FILES);
    }
    assert SameAt(s.files, s0.files, PrivateKey) && SameAt(s.files, s0.files, PublicKey) && SameAt(s.files, s0.files, ShortId);
    assert SameAt(s.files, e.files, ObfsPassword);
  }

  /** Wherever the candidate was in force along the way, so was the new password. */
  lemma ObfsSteps(
    d: Deployment, s0: Snapshot, e: Snapshot, hist: seq<Snapshot>, n: nat, reality: RealityServerParams, password: string,
    users: seq<CompatUser>, a: RotateAnswers, r: RotateResult)
    requires LoadReality(d, s0.files) == Some(reality) && password != ""
    requires r.Rotated? ==> SameExcept(e.files, s0.files, Slots(OBFS_FILES)) && Has(e, ObfsPassword, Text(password))
    requires forall i :: n <= i < |hist| ==>
               SafeStep(d, s0, e, hist[i], ObfsCandidateDoc(d, reality, password, users, a.now), OBFS_FILES, a, r)
    ensures forall i :: n <= i < |hist| ==>
              Survives(s0.files, hist[i].files, OBFS_FILES) || (r.Rotated? && OnePassword(d, hist[i], password, users, a))
  {
    forall i | n <= i < |hist|
      ensures Survives(s0.files, hist[i].files, OBFS_FILES) || (r.Rotated? && OnePassword(d, hist[i], password, users, a))
    {
      if !Survives(s0.files, hist[i].files, OBFS_FILES) {
        InForceIsOnePassword(d, s0, e, hist[i], reality, password, users, a);
      }
    }
  }

  /** When a failed password rotation, its one file installed, reports a complete rollback. */
  predicate ObfsRollbackWorks(files: Files, paths: seq<Path>, a: RotateAnswers)
    requires |paths| == 1
  {
    && a.undo.restore(paths[0])
    && ((paths[0] in files || a.policy) && SwapSucceeds(files, a.swap) ==>
          (ConfigJson in files || ConfigBak in files) && a.undo.copy.Copied?)
    && (a.undo.singboxSeen ==> a.undo.reload) && (a.undo.subscriptionSeen ==> a.undo.restart)
  }

  predicate MayRotateObfs(d: Deployment, files: Files, a: RotateAnswers) {
    a.binary && LoadReality(d, files).Some? && LoadUsers(files).Some? && a.stage && a.check && (a.offline || a.gate)
  }

  /**
   `cmd_hysteria_obfs_rotate`, which also enables obfuscation for the first
   time. Unlike key rotation it treats a failed install as "nothing changed yet",
   sets the file's policy on first write, and runs no handshake self-test.
   */
  method ObfsRotate(h: Host, password: string, a: RotateAnswers) returns (r: RotateResult)
    requires h.Valid() && password != "" && a.handshake.NotRun?
    modifies h
    ensures h.Valid() && old(h.history) <= h.history
    ensures r.Refused? <==> !MayRotateObfs(h.d, old(h.now).files, a)
    ensures r.Rotated? <==> && MayRotateObfs(h.d, old(h.now).files, a) && Preparable(old(h.now).files, OBFS_FILES, a.backup)
                            && a.install(ObfsPassword) && (ObfsPassword in old(h.now).files || a.policy)
                            && SwapSucceeds(old(h.now).files, a.swap) && Accepted(a)
    ensures r.RolledBack? ==> (r.ok <==> ObfsRollbackWorks(old(h.now).files, OBFS_FILES, a))
    ensures r.Refused? ==> h.now == old(h.now)
    ensures r.NotStarted? ==> LiveSame(old(h.now), h.now)
    ensures r.Rotated? ==> OnePassword(h.d, h.now, password, LoadUsers(old(h.now).files).value, a)
    ensures r.Rotated? ==> Discarded(h.now, OBFS_FILES, a.discard)
    ensures r.Rotated? ==> r.live == (a.singboxSeen && a.subscriptionSeen)
    ensures r == RolledBack(true) ==>
              BackTo(h.d, old(h.now), h.now, OBFS_FILES,
                (ObfsPassword in old(h.now).files || a.policy) && SwapSucceeds(old(h.now).files, a.swap), a.undo)
    ensures SameExcept(h.now.files, old(h.now).files, Scope(OBFS_FILES))
    ensures KeepsShortcut(old(h.now), h.now, a, r)
    ensures forall i :: |old(h.history)| <= i < |h.history| ==>
              || Survives(old(h.now).files, h.history[i].files, OBFS_FILES)
              || (r.Rotated? && OnePassword(h.d, h.history[i], password, LoadUsers(old(h.now).files).value, a))
  {
    var users := LoadUsers(h.now.files);
    var reality := LoadReality(h.d, h.now.files);
    if !a.binary || reality.None? || users.None? || !a.stage || !a.check || (!a.offline && !a.gate) {
      return Refused;
    }
    r := RotatePassword(h, reality.value, password, users.value, a);
  }

  /** The transaction over the password, once nothing stands against it. */
  method RotatePassword(h: Host, reality: RealityServerParams, password: string, users: seq<CompatUser>, a: RotateAnswers)
    returns (r: RotateResult)
    requires h.Valid() && password != "" && a.handshake.NotRun?
    requires LoadReality(h.d, h.now.files) == Some(reality) && LoadUsers(h.now.files) == Some(users)
    modifies h
    ensures h.Valid() && old(h.history) <= h.history && !r.Refused?
    ensures r.Rotated? <==> && Preparable(old(h.now).files, OBFS_FILES, a.backup)
                            && a.install(ObfsPassword) && (ObfsPassword in old(h.now).files || a.policy)
                            && SwapSucceeds(old(h.now).files, a.swap) && Accepted(a)
    ensures r.RolledBack? ==> (r.ok <==> ObfsRollbackWorks(old(h.now).files, OBFS_FILES, a))
    ensures r.NotStarted? ==> LiveSame(old(h.now), h.now)
    ensures r.Rotated? ==> OnePassword(h.d, h.now, password, users, a) && Discarded(h.now, OBFS_FILES, a.discard)
    ensures r.Rotated? ==> r.live == (a.singboxSeen && a.subscriptionSeen)
    ensures r == RolledBack(true) ==>
              BackTo(h.d, old(h.now), h.now, OBFS_FILES,
                (ObfsPassword in old(h.now).files || a.policy) && SwapSucceeds(old(h.now).files, a.swap), a.undo)
    ensures SameExcept(h.now.files, old(h.now).files, Scope(OBFS_FILES)) && KeepsShortcut(old(h.now), h.now, a, r)
    ensures forall i :: |old(h.history)| <= i < |h.history| ==>
              || Survives(old(h.now).files, h.history[i].files, OBFS_FILES)
              || (r.Rotated? && OnePassword(h.d, h.history[i], password, users, a))
  {
    var doc := ObfsCandidateDoc(h.d, reality, password, users, a.now);
    ghost var s0, n, e := h.now, |h.history|, h.now;
    r, e := ObfsTransaction(h, OBFS_FILES, password, doc, a);
    ObfsSteps(h.d, s0, e, h.history, n, reality, password, users, a, r);
    if r.Rotated? {
      InForceIsOnePassword(h.d, s0, e, h.now, reality, password, users, a);
    }
    ShortcutKept(s0, h.now, a, r);
  }

  /** The file part of an obfuscation rotation, for the one file in `paths`. */
  method ObfsTransaction(h: Host, paths: seq<Path>, password: string, doc: ServerConfig, a: RotateAnswers)
    returns (r: RotateResult, ghost e: Snapshot)
    requires h.Valid() && Targets(paths) && |paths| == 1
    modifies h
    ensures h.Valid() && old(h.history) <= h.history
    ensures !r.Refused? && (r.NotStarted? <==> !Preparable(old(h.now).files, paths, a.backup) || !a.install(paths[0]))
    ensures r.NotStarted? ==> LiveSame(old(h.now), h.now)
    ensures r.Rotated? <==> && !r.NotStarted? && (paths[0] in old(h.now).files || a.policy)
                            && SwapSucceeds(old(h.now).files, a.swap) && Accepted(a)
    ensures r.RolledBack? ==> (r.ok <==> ObfsRollbackWorks(old(h.now).files, paths, a))
    ensures r.Rotated? ==> r.live == (a.singboxSeen && a.subscriptionSeen) && InForce(h.d, e, h.now, doc, a)
    ensures r.Rotated? ==> Discarded(h.now, paths, a.discard)
    ensures r.Rotated? ==> SameExcept(e.files, old(h.now).files, Slots(paths)) && Has(e, paths[0], Text(password))
    ensures r == RolledBack(true) ==>
              BackTo(h.d, old(h.now), h.now, paths,
                (paths[0] in old(h.now).files || a.policy) && SwapSucceeds(old(h.now).files, a.swap), a.undo)
    ensures SameExcept(h.now.files, old(h.now).files, Scope(paths))
    ensures forall i :: |old(h.history)| <= i < |h.history| ==>
              SafeStep(h.d, old(h.now), e, h.history[i], doc, paths, a, r)
  {
    ghost var s0 := h.now;
    e := s0;
    var existed := SetAllAside(h, paths, a.backup, _ => false);
    ghost var s1 := h.now;
    if existed.None? {
      return NotStarted, s0;
    }
    if !a.install(paths[0]) {
      Abandon(h, paths, a.discard, s0);
      return NotStarted, s0;
    }
    var installed := InstallOver(h, paths, _ => password, a.install, s0, s1);
    assert existed.value[0] == (paths[0] in s0.files);
    if !existed.value[0] && !a.policy {
      var ok := Undo(h, paths, existed.value, false, a.undo, s0);
      return RolledBack(ok), s0;
    }
    e := h.now;
    InstalledSlots(s0, s1, e, paths, a.swap);
    r := FinishRotation(h, paths, existed.value, doc, a, s0);
  }
}
