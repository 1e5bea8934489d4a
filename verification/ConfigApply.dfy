/**
 Rendering, swapping and live-loading the sing-box configuration.

 The applied stamp lets a reconcile skip the reload when `config.json` and the
 stamp both name the wanted document. That shortcut is only as good as
 `StampSound`, and this module shows which steps keep it.
 */
module ConfigApply {
  import opened Wrappers
  import opened CompatModel
  import opened ServerRender
  import opened Hosts

  // ------------------------------------------------------------ the shortcut

  predicate Has(s: Snapshot, p: Path, c: Content) {
    p in s.files && s.files[p] == c
  }

  /** If `config.json` and the stamp agree on a document, sing-box has loaded it. */
  predicate StampSound(s: Snapshot) {
    AppliedStamp in s.files && s.files[AppliedStamp].Stamp? && Has(s, ConfigJson, Config(s.files[AppliedStamp].doc))
    ==> s.singbox == Runs(s.files[AppliedStamp].doc)
  }

  /** The stamp does not already name `doc`, or sing-box really runs it. */
  predicate SwapSafe(s: Snapshot, doc: ServerConfig) {
    Has(s, AppliedStamp, Stamp(doc)) ==> s.singbox == Runs(doc)
  }

  /** The stamp names what sing-box runs; holds between commands that complete. */
  predicate StampHonest(s: Snapshot) {
    AppliedStamp in s.files && s.files[AppliedStamp].Stamp? ==> s.singbox == Runs(s.files[AppliedStamp].doc)
  }

  /** A server that runs what is on disk makes the shortcut sound, whatever the stamp says. */
  lemma LoadedIsSound(s: Snapshot)
    requires s.singbox == LoadedFrom(s.files)
    ensures StampSound(s)
  {}

  /** Swapping a document in before the reload keeps the shortcut sound exactly when `SwapSafe` held. */
  lemma SwapKeepsStampSoundIff(s: Snapshot, doc: ServerConfig)
    ensures StampSound(s.(files := s.files[ConfigJson := Config(doc)])) <==> SwapSafe(s, doc)
  {
    var t := s.(files := s.files[ConfigJson := Config(doc)]);
    assert AppliedStamp in t.files <==> AppliedStamp in s.files;
  }

  // --------------------------------------------------------- write, check, swap

  datatype SwapAnswers = SwapAnswers(stage: bool, check: bool, backup: CopyAnswer, backupMode: bool, install: bool)

  function Swapped(files: Files, doc: ServerConfig): Files {
    (if ConfigJson in files then files[ConfigBak := files[ConfigJson]] else files)[ConfigJson := Config(doc)]
  }

  /** Every step of the swap went through; the copy only runs when there is a document to keep. */
  predicate SwapSucceeds(files: Files, a: SwapAnswers) {
    a.stage && a.check && a.install && (ConfigJson in files ==> a.backup.Copied? && a.backupMode)
  }

  /** Only `ConfigBak` may differ, and no service was touched. */
  ghost predicate OnlyBackup(s0: Snapshot, s: Snapshot) {
    SameExcept(s.files, s0.files, iset{ConfigBak}) && s.singbox == s0.singbox && s.subscription == s0.subscription
  }

  /** The states of a swap, in order. */
  function SwapTrail(s: Snapshot, doc: ServerConfig, a: SwapAnswers): seq<Snapshot> {
    if !a.stage || !a.check then []
    else
      (if ConfigJson in s.files then CopyTrail(s, ConfigJson, ConfigBak, a.backup) else [])
      + (if SwapSucceeds(s.files, a) then [s.(files := Swapped(s.files, doc))] else [])
  }

  /**
   Write-validate-swap. A failure never touches `config.json`; success replaces
   it in the last step, with the previous document kept beside it.
   */
  method ApplyConfigAtomically(h: Host, doc: ServerConfig, a: SwapAnswers) returns (ok: bool)
    requires h.Valid()
    modifies h
    ensures h.Valid() && old(h.history) <= h.history
    ensures ok == SwapSucceeds(old(h.now).files, a)
    ensures h.history == old(h.history) + SwapTrail(old(h.now), doc, a)
    ensures ok ==> |old(h.history)| < |h.history| && h.now == old(h.now).(files := Swapped(old(h.now).files, doc))
    ensures !ok ==> OnlyBackup(old(h.now), h.now)
    ensures forall i :: |old(h.history)| <= i < |h.history| - (if ok then 1 else 0) ==> OnlyBackup(old(h.now), h.history[i])
  {
    if !a.stage || !a.check {
      return false;
    }
    if ConfigJson in h.now.files {
      var copied := h.Copy(ConfigJson, ConfigBak, a.backup);
      if !copied || !a.backupMode {
        return false;
      }
    }
    if !a.install {
      return false;
    }
    h.Install(ConfigJson, Config(doc));
    return true;
  }

  // ------------------------------------------------------ render, apply, verify

  datatype Handshake = Pass | Rejected | Inconclusive | NotRun

  /** One answer per fallible step of an apply; `gate` and `afterSwap` are the two service queries. */
  datatype ApplyAnswers = ApplyAnswers(
    now: int, offline: bool, binary: bool, gate: bool, active: bool,
    swap: SwapAnswers, afterSwap: bool, reload: bool, handshake: Handshake,
    recoverCopy: CopyAnswer, recoverReload: bool, stamp: bool)

  datatype ApplyFailure =
    | NoKeys | NoBinary | NoService | NotSwapped
    | ReloadFailed(recovered: bool) | HandshakeRejected(recovered: bool)
    | StampFailed

  /** `Live` is the source's `Ok(true)`, `NotLive` its `Ok(false)`. */
  datatype ApplyResult = Live | NotLive | Failed(why: ApplyFailure)

  /** No reload failed and no handshake was rejected, so nothing had to be undone. */
  predicate Forward(a: ApplyAnswers) {
    a.reload && !a.handshake.Rejected?
  }

  ghost predicate Frame(s0: Snapshot, s: Snapshot) {
    SameExcept(s.files, s0.files, iset{ConfigJson, ConfigBak, AppliedStamp}) && s.subscription == s0.subscription
  }

  /** The previous document was put back on disk and sing-box verified on what is on disk. */
  ghost predicate Recovered(s0: Snapshot, s1: Snapshot) {
    && s1.singbox == LoadedFrom(s1.files)
    && (ConfigJson in s0.files ==> SameAt(s1.files, s0.files, ConfigJson))
  }

  /** Once swapped, there is a kept document and it can be copied back and reloaded. */
  predicate RecoveryWorks(files: Files, a: ApplyAnswers) {
    (ConfigJson in files || ConfigBak in files) && a.recoverCopy.Copied? && a.recoverReload
  }

  /** Where swapping in and loading `doc` may end, result by result. */
  ghost predicate LoadOutcome(s0: Snapshot, s1: Snapshot, doc: ServerConfig, a: ApplyAnswers, r: ApplyResult) {
    && Frame(s0, s1)
    && (r.Live? <==> SwapSucceeds(s0.files, a.swap) && a.afterSwap && Forward(a) && a.stamp)
    && (r.NotLive? <==> SwapSucceeds(s0.files, a.swap) && !a.afterSwap)
    && (r == Failed(NotSwapped) <==> !SwapSucceeds(s0.files, a.swap))
    && (!r.Live? ==> SameAt(s1.files, s0.files, AppliedStamp))
    && (r.Live? ==> Has(s1, AppliedStamp, Stamp(doc)))
    && (r.Live? || r == Failed(StampFailed) ==> Has(s1, ConfigJson, Config(doc)) && s1.singbox == Runs(doc))
    && match r
       case Live => true
       case NotLive => Has(s1, ConfigJson, Config(doc)) && s1.singbox == s0.singbox
       case Failed(NotSwapped) => OnlyBackup(s0, s1)
       case Failed(ReloadFailed(recovered)) =>
         !a.reload && (recovered ==> Recovered(s0, s1)) && (recovered <==> RecoveryWorks(s0.files, a))
       case Failed(HandshakeRejected(recovered)) =>
         a.reload && a.handshake.Rejected? && (recovered ==> Recovered(s0, s1)) && (recovered <==> RecoveryWorks(s0.files, a))
       case Failed(StampFailed) => !a.stamp
       case Failed(_) => false
  }

  /** Where an apply of `users` may end: refused untouched, already current, or as `LoadOutcome` says. */
  ghost predicate ApplyOutcome(
    d: Deployment, s0: Snapshot, s1: Snapshot, users: seq<CompatUser>, a: ApplyAnswers, requireLive: bool, r: ApplyResult)
  {
    var doc := DocFor(d, s0.files, users, a.now);
    if doc.None? || !a.binary || (requireLive && !a.offline && !a.gate) then
      && s1 == s0
      && r == if !requireLive || a.offline then NotLive
              else if doc.None? then Failed(NoKeys) else if !a.binary then Failed(NoBinary) else Failed(NoService)
    else if AlreadyCurrent(s0, doc.value, a) then
      s1 == s0 && r == Live
    else
      LoadOutcome(s0, s1, doc.value, a, r)
  }

  // The states an apply passes through, and its result, as functions of where it starts.

  function RecoverTrail(s: Snapshot, a: ApplyAnswers): seq<Snapshot> {
    if ConfigBak !in s.files then []
    else
      CopyTrail(s, ConfigBak, ConfigJson, a.recoverCopy)
      + (if a.recoverCopy.Copied? then [Reloaded(With(s, ConfigJson, s.files[ConfigBak]), a.recoverReload)] else [])
  }

  function LoadTrail(s: Snapshot, doc: ServerConfig, a: ApplyAnswers): seq<Snapshot> {
    var t := Reloaded(s, a.reload);
    [t] + (if !Forward(a) then RecoverTrail(t, a) else if a.stamp then [With(t, AppliedStamp, Stamp(doc))] else [])
  }

  function SwapAndLoadTrail(s: Snapshot, doc: ServerConfig, a: ApplyAnswers): seq<Snapshot> {
    SwapTrail(s, doc, a.swap)
    + (if SwapSucceeds(s.files, a.swap) && a.afterSwap then LoadTrail(s.(files := Swapped(s.files, doc)), doc, a) else [])
  }

  function SwapAndLoadVerdict(s: Snapshot, a: ApplyAnswers): ApplyResult {
    if !SwapSucceeds(s.files, a.swap) then Failed(NotSwapped)
    else if !a.afterSwap then NotLive
    else if !a.reload then Failed(ReloadFailed(RecoveryWorks(s.files, a)))
    else if a.handshake.Rejected? then Failed(HandshakeRejected(RecoveryWorks(s.files, a)))
    else if !a.stamp then Failed(StampFailed)
    else Live
  }

  /** Why an apply stops before it looks at the disk, if it does. */
  function RefusedApply(doc: Option<ServerConfig>, requireLive: bool, a: ApplyAnswers): Option<ApplyResult> {
    var quietly := !requireLive || a.offline;
    if doc.None? then Some(if quietly then NotLive else Failed(NoKeys))
    else if !a.binary then Some(if quietly then NotLive else Failed(NoBinary))
    else if requireLive && !a.offline && !a.gate then Some(Failed(NoService))
    else None
  }

  function ApplyTrail(d: Deployment, s: Snapshot, users: seq<CompatUser>, requireLive: bool, a: ApplyAnswers): seq<Snapshot> {
    var doc := DocFor(d, s.files, users, a.now);
    if RefusedApply(doc, requireLive, a).Some? || AlreadyCurrent(s, doc.value, a) then [] else SwapAndLoadTrail(s, doc.value, a)
  }

  function ApplyVerdict(d: Deployment, s: Snapshot, users: seq<CompatUser>, requireLive: bool, a: ApplyAnswers): ApplyResult {
    var doc := DocFor(d, s.files, users, a.now);
    var refused := RefusedApply(doc, requireLive, a);
    if refused.Some? then refused.value
    else if AlreadyCurrent(s, doc.value, a) then Live
    else SwapAndLoadVerdict(s, a)
  }

  /** An apply that must go live reports a failure. */
  predicate ApplyFails(d: Deployment, s: Snapshot, users: seq<CompatUser>, a: ApplyAnswers) {
    var doc := DocFor(d, s.files, users, a.now);
    if doc.None? || !a.binary || (!a.offline && !a.gate) then !a.offline
    else !AlreadyCurrent(s, doc.value, a) && !(SwapSucceeds(s.files, a.swap) && (a.afterSwap ==> Forward(a) && a.stamp))
  }

  /** A reconcile reports "applied". */
  predicate GoesLive(d: Deployment, s: Snapshot, users: seq<CompatUser>, a: ApplyAnswers) {
    var doc := DocFor(d, s.files, users, a.now);
    doc.Some? && a.binary
    && (AlreadyCurrent(s, doc.value, a) || (SwapSucceeds(s.files, a.swap) && a.afterSwap && Forward(a) && a.stamp))
  }

  lemma FailsExactly(d: Deployment, s0: Snapshot, s1: Snapshot, users: seq<CompatUser>, a: ApplyAnswers, r: ApplyResult)
    requires ApplyOutcome(d, s0, s1, users, a, true, r)
    ensures r.Failed? <==> ApplyFails(d, s0, users, a)
  {}

  /** No step of an apply fails. */
  predicate Smooth(a: ApplyAnswers) {
    && a.binary && (a.offline || a.gate) && a.stamp && Forward(a)
    && a.swap.stage && a.swap.check && a.swap.backup.Copied? && a.swap.backupMode && a.swap.install
  }

  /** The no-reload shortcut: disk and stamp name the document, and the unit is active. */
  predicate AlreadyCurrent(s: Snapshot, doc: ServerConfig, a: ApplyAnswers) {
    Has(s, ConfigJson, Config(doc)) && Has(s, AppliedStamp, Stamp(doc)) && a.gate && a.active
  }

  predicate CanRecover(s: Snapshot, a: ApplyAnswers) {
    ConfigBak in s.files && a.recoverCopy.Copied? && a.recoverReload
  }

  /** Copies the kept document back over `config.json` and reloads it. */
  method RecoverPrevious(h: Host, a: ApplyAnswers) returns (recovered: bool)
    requires h.Valid()
    modifies h
    ensures h.Valid() && old(h.history) <= h.history
    ensures recovered == CanRecover(old(h.now), a)
    ensures h.history == old(h.history) + RecoverTrail(old(h.now), a)
    ensures SameExcept(h.now.files, old(h.now).files, iset{ConfigJson}) && h.now.subscription == old(h.now).subscription
    ensures recovered ==> h.now.files == old(h.now).files[ConfigJson := old(h.now).files[ConfigBak]]
                          && h.now.singbox == LoadedFrom(h.now.files)
    ensures forall i :: |old(h.history)| <= i < |h.history| ==>
              SameExcept(h.history[i].files, old(h.now).files, iset{ConfigJson}) && h.history[i].subscription == old(h.now).subscription
  {
    recovered := false;
    if ConfigBak in h.now.files {
      var restored := h.Copy(ConfigBak, ConfigJson, a.recoverCopy);
      if restored {
        h.ReloadSingbox(a.recoverReload);
        recovered := a.recoverReload;
      }
    }
  }

  /** Loads the swapped-in document, proves a handshake and stamps it; undoes the swap when either fails. */
  method LoadLive(h: Host, doc: ServerConfig, a: ApplyAnswers) returns (r: ApplyResult)
    requires h.Valid() && Has(h.now, ConfigJson, Config(doc))
    modifies h
    ensures h.Valid() && old(h.history) <= h.history
    ensures h.history == old(h.history) + LoadTrail(old(h.now), doc, a)
    ensures SameExcept(h.now.files, old(h.now).files, iset{ConfigJson, AppliedStamp}) && h.now.subscription == old(h.now).subscription
    ensures !r.Live? ==> SameAt(h.now.files, old(h.now).files, AppliedStamp)
    ensures r == if !a.reload then Failed(ReloadFailed(CanRecover(old(h.now), a)))
                 else if a.handshake.Rejected? then Failed(HandshakeRejected(CanRecover(old(h.now), a)))
                 else if !a.stamp then Failed(StampFailed)
                 else Live
    ensures r.Live? ==> Has(h.now, AppliedStamp, Stamp(doc))
    ensures r.Live? || r == Failed(StampFailed) ==> Has(h.now, ConfigJson, Config(doc)) && h.now.singbox == Runs(doc)
    ensures !Forward(a) && CanRecover(old(h.now), a) ==>
              Has(h.now, ConfigJson, old(h.now).files[ConfigBak]) && h.now.singbox == LoadedFrom(h.now.files)
    ensures forall i :: |old(h.history)| <= i < |h.history| ==>
              SameExcept(h.history[i].files, old(h.now).files, iset{ConfigJson, AppliedStamp})
              && h.history[i].subscription == old(h.now).subscription
              && (Forward(a) ==> StampSound(h.history[i]))
  {
    h.ReloadSingbox(a.reload);
    if !a.reload {
      var recovered := RecoverPrevious(h, a);
      return Failed(ReloadFailed(recovered));
    }
    if a.handshake.Rejected? {
      var recovered := RecoverPrevious(h, a);
      return Failed(HandshakeRejected(recovered));
    }
    if !a.stamp {
      return Failed(StampFailed);
    }
    h.Install(AppliedStamp, Stamp(doc));
    return Live;
  }

  lemma LoadFrames(s0: Snapshot, s1: Snapshot, s: Snapshot)
    requires SameExcept(s1.files, s0.files, iset{ConfigJson, ConfigBak}) && s1.subscription == s0.subscription
    requires SameExcept(s.files, s1.files, iset{ConfigJson, AppliedStamp}) && s.subscription == s1.subscription
    ensures Frame(s0, s)
  {
    SameExceptTrans(s.files, s1.files, s0.files,
      iset{ConfigJson, AppliedStamp}, iset{ConfigJson, ConfigBak}, iset{ConfigJson, ConfigBak, AppliedStamp});
  }

  lemma BackupKeepsStampSound(s0: Snapshot, s: Snapshot)
    requires StampSound(s0) && OnlyBackup(s0, s)
    ensures StampSound(s)
  {
    assert SameAt(s.files, s0.files, ConfigJson) && SameAt(s.files, s0.files, AppliedStamp);
  }

  /** `doc` has just been swapped in over `s0`: query the service, then load it live. */
  method LoadSwapped(h: Host, doc: ServerConfig, a: ApplyAnswers, ghost s0: Snapshot) returns (r: ApplyResult)
    requires h.Valid() && h.now == s0.(files := Swapped(s0.files, doc)) && SwapSucceeds(s0.files, a.swap)
    modifies h
    ensures h.Valid() && old(h.history) <= h.history
    ensures h.history == old(h.history) + (if a.afterSwap then LoadTrail(old(h.now), doc, a) else [])
    ensures r == SwapAndLoadVerdict(s0, a) && LoadOutcome(s0, h.now, doc, a, r)
    ensures forall i :: |old(h.history)| <= i < |h.history| ==> Frame(s0, h.history[i])
    ensures Forward(a) ==> forall i :: |old(h.history)| <= i < |h.history| ==> StampSound(h.history[i])
  {
    if !a.afterSwap {
      return NotLive;
    }
    ghost var s1, m := h.now, |h.history|;
    r := LoadLive(h, doc, a);
    LoadFrames(s0, s1, h.now);
    forall i | m <= i < |h.history| ensures Frame(s0, h.history[i]) {
      LoadFrames(s0, s1, h.history[i]);
    }
  }

  /** The swap as an apply sees it. */
  method SwapFramed(h: Host, doc: ServerConfig, a: SwapAnswers) returns (ok: bool)
    requires h.Valid()
    modifies h
    ensures h.Valid() && old(h.history) <= h.history
    ensures ok == SwapSucceeds(old(h.now).files, a)
    ensures h.history == old(h.history) + SwapTrail(old(h.now), doc, a)
    ensures ok ==> h.now == old(h.now).(files := Swapped(old(h.now).files, doc))
    ensures !ok ==> OnlyBackup(old(h.now), h.now)
    ensures forall i :: |old(h.history)| <= i < |h.history| ==> Frame(old(h.now), h.history[i])
    ensures StampSound(old(h.now)) && SwapSafe(old(h.now), doc) ==>
              forall i :: |old(h.history)| <= i < |h.history| ==> StampSound(h.history[i])
  {
    ghost var s0, n := h.now, |h.history|;
    ok := ApplyConfigAtomically(h, doc, a);
    if StampSound(s0) {
      forall i | n <= i < |h.history| - (if ok then 1 else 0) ensures StampSound(h.history[i]) {
        BackupKeepsStampSound(s0, h.history[i]);
      }
    }
    if ok {
      SwapKeepsStampSoundIff(h.now, doc);
    }
  }

  /** Swap `doc` in, then load it live. */
  method SwapAndLoad(h: Host, doc: ServerConfig, a: ApplyAnswers) returns (r: ApplyResult)
    requires h.Valid()
    modifies h
    ensures h.Valid() && old(h.history) <= h.history
    ensures h.history == old(h.history) + SwapAndLoadTrail(old(h.now), doc, a) && r == SwapAndLoadVerdict(old(h.now), a)
    ensures LoadOutcome(old(h.now), h.now, doc, a, r)
    ensures forall i :: |old(h.history)| <= i < |h.history| ==> Frame(old(h.now), h.history[i])
    ensures StampSound(old(h.now)) && Forward(a) && SwapSafe(old(h.now), doc) ==>
              forall i :: |old(h.history)| <= i < |h.history| ==> StampSound(h.history[i])
  {
    ghost var s0 := h.now;
    var swapped := SwapFramed(h, doc, a.swap);
    if !swapped {
      NotSwappedOutcome(s0, h.now, doc, a);
      return Failed(NotSwapped);
    }
    r := LoadSwapped(h, doc, a, s0);
    TrailsJoin(old(h.history), SwapTrail(s0, doc, a.swap), if a.afterSwap then LoadTrail(s0.(files := Swapped(s0.files, doc)), doc, a) else []);
  }

  lemma NotSwappedOutcome(s0: Snapshot, s1: Snapshot, doc: ServerConfig, a: ApplyAnswers)
    requires !SwapSucceeds(s0.files, a.swap) && OnlyBackup(s0, s1)
    ensures LoadOutcome(s0, s1, doc, a, Failed(NotSwapped))
  {
    assert SameAt(s1.files, s0.files, AppliedStamp);
  }

  lemma TrailsJoin(a: seq<Snapshot>, b: seq<Snapshot>, c: seq<Snapshot>)
    ensures a + b + c == a + (b + c)
  {}

  /**
   `render_and_apply_singbox_config`: render `users` under the keys on disk,
   swap the document in, load it live, prove a handshake, then stamp it.
   */
  method RenderAndApply(h: Host, users: seq<CompatUser>, requireLive: bool, a: ApplyAnswers) returns (r: ApplyResult)
    requires h.Valid()
    modifies h
    ensures h.Valid() && old(h.history) <= h.history
    ensures h.history == old(h.history) + ApplyTrail(h.d, old(h.now), users, requireLive, a)
    ensures r == ApplyVerdict(h.d, old(h.now), users, requireLive, a)
    ensures ApplyOutcome(h.d, old(h.now), h.now, users, a, requireLive, r)
    ensures forall i :: |old(h.history)| <= i < |h.history| ==> Frame(old(h.now), h.history[i])
    ensures var doc := DocFor(h.d, old(h.now).files, users, a.now);
            StampSound(old(h.now)) && Forward(a) && (doc.Some? ==> SwapSafe(old(h.now), doc.value)) ==>
              forall i :: |old(h.history)| <= i < |h.history| ==> StampSound(h.history[i])
  {
    var candidate := DocFor(h.d, h.now.files, users, a.now);
    if candidate.None? {
      return if requireLive && !a.offline then Failed(NoKeys) else NotLive;
    }
    var doc := candidate.value;
    if !a.binary {
      return if requireLive && !a.offline then Failed(NoBinary) else NotLive;
    }
    if requireLive && !a.gate && !a.offline {
      return Failed(NoService);
    }
    if AlreadyCurrent(h.now, doc, a) {
      return Live;
    }
    r := SwapAndLoad(h, doc, a);
  }

  // ----------------------------------------------------- what a trail passes

  ghost predicate AllFramed(s0: Snapshot, trail: seq<Snapshot>) {
    forall i :: 0 <= i < |trail| ==> Frame(s0, trail[i])
  }

  lemma JoinFramed(s0: Snapshot, a: seq<Snapshot>, b: seq<Snapshot>)
    requires AllFramed(s0, a) && AllFramed(s0, b)
    ensures AllFramed(s0, a + b)
  {}

  lemma FrameOfWrites(s0: Snapshot, s: Snapshot, p: Path, c: Content)
    requires Frame(s0, s) && p in {ConfigJson, ConfigBak, AppliedStamp}
    ensures Frame(s0, With(s, p, c))
  {
    forall q | q !in iset{ConfigJson, ConfigBak, AppliedStamp} ensures SameAt(With(s, p, c).files, s0.files, q) {
      assert SameAt(s.files, s0.files, q);
    }
  }

  lemma CopyFramed(s0: Snapshot, s: Snapshot, src: Path, dst: Path, a: CopyAnswer)
    requires Frame(s0, s) && src in s.files && dst in {ConfigJson, ConfigBak}
    ensures AllFramed(s0, CopyTrail(s, src, dst, a))
  {
    FrameOfWrites(s0, s, dst, Torn);
    FrameOfWrites(s0, s, dst, s.files[src]);
  }

  lemma SwappedFramed(s: Snapshot, doc: ServerConfig)
    ensures Frame(s, s.(files := Swapped(s.files, doc)))
  {}

  lemma RecoverFramed(s0: Snapshot, s: Snapshot, a: ApplyAnswers)
    requires Frame(s0, s)
    ensures AllFramed(s0, RecoverTrail(s, a))
  {
    if ConfigBak in s.files {
      CopyFramed(s0, s, ConfigBak, ConfigJson, a.recoverCopy);
      FrameOfWrites(s0, s, ConfigJson, s.files[ConfigBak]);
    }
  }

  ghost predicate AllSound(trail: seq<Snapshot>) {
    forall i :: 0 <= i < |trail| ==> StampSound(trail[i])
  }

  lemma JoinSound(a: seq<Snapshot>, b: seq<Snapshot>)
    requires AllSound(a) && AllSound(b)
    ensures AllSound(a + b)
  {}

  lemma SwapSound(s: Snapshot, doc: ServerConfig, a: SwapAnswers)
    requires StampSound(s) && SwapSafe(s, doc)
    ensures AllSound(SwapTrail(s, doc, a)) && StampSound(s.(files := Swapped(s.files, doc)))
  {}

  /** Without a failed reload no step of an apply makes the shortcut unsound, if the stamp was safe for its document. */
  lemma ApplySound(d: Deployment, s: Snapshot, users: seq<CompatUser>, requireLive: bool, a: ApplyAnswers)
    requires StampSound(s) && Forward(a)
    requires var doc := DocFor(d, s.files, users, a.now); doc.Some? ==> SwapSafe(s, doc.value)
    ensures AllSound(ApplyTrail(d, s, users, requireLive, a))
  {
    var doc := DocFor(d, s.files, users, a.now);
    if RefusedApply(doc, requireLive, a).None? && !AlreadyCurrent(s, doc.value, a) {
      SwapSound(s, doc.value, a.swap);
      if SwapSucceeds(s.files, a.swap) && a.afterSwap {
        var t := s.(files := Swapped(s.files, doc.value));
        assert AllSound(LoadTrail(t, doc.value, a));
        JoinSound(SwapTrail(s, doc.value, a.swap), LoadTrail(t, doc.value, a));
      }
    }
  }

  /** Applying a configuration touches nothing but `config.json`, its backup and the stamp, at any step. */
  lemma ApplyFramed(d: Deployment, s: Snapshot, users: seq<CompatUser>, requireLive: bool, a: ApplyAnswers)
    ensures AllFramed(s, ApplyTrail(d, s, users, requireLive, a))
    ensures Frame(s, EndOf(s, ApplyTrail(d, s, users, requireLive, a)))
  {
    var doc := DocFor(d, s.files, users, a.now);
    if RefusedApply(doc, requireLive, a).None? && !AlreadyCurrent(s, doc.value, a) {
      SwapAndLoadFramed(s, doc.value, a);
    }
  }

  lemma SwapAndLoadFramed(s: Snapshot, doc: ServerConfig, a: ApplyAnswers)
    ensures AllFramed(s, SwapAndLoadTrail(s, doc, a))
  {
    if ConfigJson in s.files {
      CopyFramed(s, s, ConfigJson, ConfigBak, a.swap.backup);
    }
    SwappedFramed(s, doc);
    LoadFramed(s, s.(files := Swapped(s.files, doc)), doc, a);
    JoinFramed(s, SwapTrail(s, doc, a.swap), LoadTrail(s.(files := Swapped(s.files, doc)), doc, a));
  }

  lemma LoadFramed(s0: Snapshot, s: Snapshot, doc: ServerConfig, a: ApplyAnswers)
    requires Frame(s0, s)
    ensures AllFramed(s0, LoadTrail(s, doc, a))
  {
    var t := Reloaded(s, a.reload);
    RecoverFramed(s0, t, a);
    FrameOfWrites(s0, t, AppliedStamp, Stamp(doc));
  }

  /** Where sing-box stands once a swapped-in document was loaded or given up. */
  lemma LoadEnd(s: Snapshot, doc: ServerConfig, a: ApplyAnswers)
    requires Has(s, ConfigJson, Config(doc))
    ensures var e := EndOf(s, LoadTrail(s, doc, a));
            && (Forward(a) ==> e.singbox == Runs(doc) && Has(e, ConfigJson, Config(doc)))
            && (Forward(a) && a.stamp ==> Has(e, AppliedStamp, Stamp(doc)))
            && (!Forward(a) && CanRecover(s, a) ==> e.singbox == LoadedFrom(e.files) && Has(e, ConfigJson, s.files[ConfigBak]))
            && (!(Forward(a) && a.stamp) ==> SameAt(e.files, s.files, AppliedStamp))
  {}

  lemma EndOfJoin(s: Snapshot, a: seq<Snapshot>, b: seq<Snapshot>)
    ensures EndOf(s, a + b) == EndOf(EndOf(s, a), b)
  {}

  lemma SwapEnd(s: Snapshot, doc: ServerConfig, a: SwapAnswers)
    ensures SwapSucceeds(s.files, a) ==> EndOf(s, SwapTrail(s, doc, a)) == s.(files := Swapped(s.files, doc))
    ensures !SwapSucceeds(s.files, a) ==> OnlyBackup(s, EndOf(s, SwapTrail(s, doc, a)))
  {}

  /** The trail of an apply ends as its verdict says. */
  lemma ApplyEnds(d: Deployment, s: Snapshot, users: seq<CompatUser>, requireLive: bool, a: ApplyAnswers)
    ensures ApplyOutcome(d, s, EndOf(s, ApplyTrail(d, s, users, requireLive, a)), users, a, requireLive,
              ApplyVerdict(d, s, users, requireLive, a))
  {
    var doc := DocFor(d, s.files, users, a.now);
    if RefusedApply(doc, requireLive, a).None? && !AlreadyCurrent(s, doc.value, a) {
      SwapAndLoadEnds(s, doc.value, a);
    }
  }

  lemma SwapAndLoadEnds(s: Snapshot, doc: ServerConfig, a: ApplyAnswers)
    ensures LoadOutcome(s, EndOf(s, SwapAndLoadTrail(s, doc, a)), doc, a, SwapAndLoadVerdict(s, a))
  {
    var e := EndOf(s, SwapAndLoadTrail(s, doc, a));
    SwapEnd(s, doc, a.swap);
    if !SwapSucceeds(s.files, a.swap) {
      NotSwappedOutcome(s, e, doc, a);
    } else {
      SwapAndLoadFramed(s, doc, a);
      var s1 := s.(files := Swapped(s.files, doc));
      if a.afterSwap {
        EndOfJoin(s, SwapTrail(s, doc, a.swap), LoadTrail(s1, doc, a));
        LoadEnd(s1, doc, a);
        LoadedOutcome(s, s1, e, doc, a);
      }
    }
  }

  lemma LoadedOutcome(s: Snapshot, s1: Snapshot, e: Snapshot, doc: ServerConfig, a: ApplyAnswers)
    requires s1 == s.(files := Swapped(s.files, doc)) && SwapSucceeds(s.files, a.swap) && a.afterSwap && Frame(s, e)
    requires Forward(a) ==> e.singbox == Runs(doc) && Has(e, ConfigJson, Config(doc))
    requires Forward(a) && a.stamp ==> Has(e, AppliedStamp, Stamp(doc))
    requires !Forward(a) && CanRecover(s1, a) ==> e.singbox == LoadedFrom(e.files) && Has(e, ConfigJson, s1.files[ConfigBak])
    requires !(Forward(a) && a.stamp) ==> SameAt(e.files, s1.files, AppliedStamp)
    ensures LoadOutcome(s, e, doc, a, SwapAndLoadVerdict(s, a))
  {}
}
