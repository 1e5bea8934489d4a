/**
 The `.rotate-bak` scaffolding shared by key rotation, obfuscation rotation and
 restore: copy every file aside before touching any, put them back on failure.
 */
module FileTransactions {
  import opened Wrappers
  import opened Hosts

  /** How backing one file up ends; `BackupTorn` and `BackupLate` fail with a backup already on disk. */
  datatype BackupAnswer = BackupDone | BackupNotCreated | BackupTorn | BackupLate

  /** Distinct live files, none of them a backup, the rendered configuration or its stamp. */
  predicate Targets(paths: seq<Path>) {
    && (forall i, j :: 0 <= i < j < |paths| ==> paths[i] != paths[j])
    && (forall i :: 0 <= i < |paths| ==> !paths[i].RotateBak? && paths[i] !in {ConfigJson, ConfigBak, AppliedStamp})
  }

  /** The files of a transaction and their backups. */
  ghost function Slots(paths: seq<Path>): iset<Path> {
    iset p: Path | p in paths || (p.RotateBak? && p.live in paths)
  }

  ghost function Backups(paths: seq<Path>): iset<Path> {
    iset p: Path | p.RotateBak? && p.live in paths
  }

  /** Only backups differ, and no service was touched. */
  ghost predicate LiveSame(s0: Snapshot, s: Snapshot) {
    (forall p: Path :: p.RotateBak? || SameAt(s.files, s0.files, p)) && s.singbox == s0.singbox && s.subscription == s0.subscription
  }

  /** Nothing but the transaction's slots differs, and no service was touched. */
  ghost predicate SlotsOnly(s0: Snapshot, s: Snapshot, paths: seq<Path>) {
    SameExcept(s.files, s0.files, Slots(paths)) && s.singbox == s0.singbox && s.subscription == s0.subscription
  }

  /** The original of `p` is still on disk, live or set aside. */
  predicate Kept(f0: Files, f: Files, p: Path) {
    p in f0 ==> (p in f && f[p] == f0[p]) || (RotateBak(p) in f && f[RotateBak(p)] == f0[p])
  }

  ghost predicate Survives(f0: Files, f: Files, paths: seq<Path>) {
    forall i :: 0 <= i < |paths| ==> Kept(f0, f, paths[i])
  }

  /** The original of `p` is set aside exactly if there was one. */
  predicate SetAside(f0: Files, f: Files, p: Path) {
    (RotateBak(p) in f <==> p in f0) && (p in f0 ==> f[RotateBak(p)] == f0[p])
  }

  ghost predicate BackedUp(f0: Files, f: Files, paths: seq<Path>) {
    forall i :: 0 <= i < |paths| ==> SetAside(f0, f, paths[i])
  }

  ghost predicate Existed(f0: Files, paths: seq<Path>, existed: seq<bool>) {
    |existed| == |paths| && forall i :: 0 <= i < |paths| ==> existed[i] == (paths[i] in f0)
  }

  lemma BackedUpSurvives(f0: Files, f: Files, paths: seq<Path>)
    requires BackedUp(f0, f, paths)
    ensures Survives(f0, f, paths)
  {
    forall i | 0 <= i < |paths| ensures Kept(f0, f, paths[i]) {
      assert SetAside(f0, f, paths[i]);
    }
  }

  /** A transaction's slots are untouched by anything confined to the configuration, its backup and the stamp. */
  lemma SlotsKept(f0: Files, f: Files, g: Files, paths: seq<Path>)
    requires Targets(paths) && SameExcept(g, f, iset{ConfigJson, ConfigBak, AppliedStamp})
    ensures Survives(f0, f, paths) ==> Survives(f0, g, paths)
    ensures BackedUp(f0, f, paths) ==> BackedUp(f0, g, paths)
    ensures forall i :: 0 <= i < |paths| ==> SameAt(g, f, paths[i])
  {
    forall i | 0 <= i < |paths| ensures SameAt(g, f, paths[i]) && SameAt(g, f, RotateBak(paths[i])) {}
  }

  lemma LiveSurvives(s0: Snapshot, s: Snapshot, paths: seq<Path>)
    requires Targets(paths) && LiveSame(s0, s)
    ensures Survives(s0.files, s.files, paths)
  {
    forall i | 0 <= i < |paths| ensures Kept(s0.files, s.files, paths[i]) {
      assert SameAt(s.files, s0.files, paths[i]);
    }
  }

  // ---------------------------------------------------------------- prepare

  /** `backup_for_rotate`: `None` is an error, `Some(existed)` success. A stale backup is never overwritten. */
  method BackupForRotate(h: Host, p: Path, a: BackupAnswer) returns (r: Option<bool>)
    requires h.Valid()
    modifies h
    ensures h.Valid() && old(h.history) <= h.history
    ensures r == if RotateBak(p) in old(h.now).files then None
                 else if p !in old(h.now).files then Some(false)
                 else if a.BackupDone? then Some(true) else None
    ensures SameExcept(h.now.files, old(h.now).files, iset{RotateBak(p)}) && LiveSame(old(h.now), h.now)
    ensures r.Some? ==> SetAside(old(h.now).files, h.now.files, p)
    ensures forall i :: |old(h.history)| <= i < |h.history| ==> LiveSame(old(h.now), h.history[i])
  {
    if RotateBak(p) in h.now.files {
      return None;
    }
    if p !in h.now.files {
      return Some(false);
    }
    if a.BackupNotCreated? {
      return None;
    }
    var whole := h.now.files[p];
    h.Install(RotateBak(p), Torn);
    if a.BackupTorn? {
      return None;
    }
    h.Install(RotateBak(p), whole);
    return if a.BackupLate? then None else Some(true);
  }

  /** No backup is left behind, except where its removal failed. */
  ghost predicate Discarded(s: Snapshot, paths: seq<Path>, discard: Path -> bool) {
    forall i :: 0 <= i < |paths| && discard(paths[i]) ==> RotateBak(paths[i]) !in s.files
  }

  /** Best-effort removal of the backups of `paths`; a failed removal is ignored. */
  method DiscardBackups(h: Host, paths: seq<Path>, discard: Path -> bool)
    requires h.Valid()
    modifies h
    ensures h.Valid() && old(h.history) <= h.history
    ensures LiveSame(old(h.now), h.now)
    ensures SameExcept(h.now.files, old(h.now).files, Backups(paths)) && Discarded(h.now, paths, discard)
    ensures forall i :: |old(h.history)| <= i < |h.history| ==> LiveSame(old(h.now), h.history[i])
  {
    for i := 0 to |paths|
      invariant h.Valid() && old(h.history) <= h.history
      invariant LiveSame(old(h.now), h.now)
      invariant SameExcept(h.now.files, old(h.now).files, Backups(paths)) && Discarded(h.now, paths[..i], discard)
      invariant forall j :: |old(h.history)| <= j < |h.history| ==> LiveSame(old(h.now), h.history[j])
    {
      if discard(paths[i]) {
        h.Remove(RotateBak(paths[i]));
      }
    }
    assert paths[..|paths|] == paths;
  }

  /**
   Sets every file of the transaction aside, or reports failure after removing
   the backups already made. Either way no live file and no service changes, at any step.
   */
  method PrepareBackups(h: Host, paths: seq<Path>, backup: Path -> BackupAnswer, discard: Path -> bool)
    returns (existed: Option<seq<bool>>)
    requires h.Valid() && Targets(paths)
    modifies h
    ensures h.Valid() && old(h.history) <= h.history
    ensures LiveSame(old(h.now), h.now) && SlotsOnly(old(h.now), h.now, paths)
    ensures existed.Some? ==> Existed(old(h.now).files, paths, existed.value) && BackedUp(old(h.now).files, h.now.files, paths)
    ensures existed.Some? <==> Preparable(old(h.now).files, paths, backup)
    ensures forall i :: |old(h.history)| <= i < |h.history| ==> LiveSame(old(h.now), h.history[i])
  {
    var found: seq<bool> := [];
    ghost var s0 := h.now;
    for i := 0 to |paths|
      invariant h.Valid() && old(h.history) <= h.history
      invariant |found| == i && LiveSame(s0, h.now) && SlotsOnly(s0, h.now, paths)
      invariant forall j :: 0 <= j < i ==> found[j] == (paths[j] in s0.files) && SetAside(s0.files, h.now.files, paths[j])
      invariant forall j :: i <= j < |paths| ==> SameAt(h.now.files, s0.files, RotateBak(paths[j]))
      invariant forall j :: 0 <= j < i ==> PreparableAt(s0.files, paths[j], backup)
      invariant forall j :: |old(h.history)| <= j < |h.history| ==> LiveSame(s0, h.history[j])
    {
      ghost var before := h.now;
      var r := BackupForRotate(h, paths[i], backup(paths[i]));
      assert SameAt(before.files, s0.files, paths[i]);
      BackupStep(s0, before, h.now, paths, i);
      if r.None? {
        assert !PreparableAt(s0.files, paths[i], backup);
        ghost var failed := h.now;
        DiscardBackups(h, paths[..i], discard);
        DiscardFrames(s0, failed, h.now, paths, i);
        return None;
      }
      found := found + [r.value];
    }
    return Some(found);
  }

  /** No stale backup is in the way of `p`, and its copy works if there is anything to copy. */
  predicate PreparableAt(files: Files, p: Path, backup: Path -> BackupAnswer) {
    RotateBak(p) !in files && (p in files ==> backup(p).BackupDone?)
  }

  predicate Preparable(files: Files, paths: seq<Path>, backup: Path -> BackupAnswer) {
    forall i :: 0 <= i < |paths| ==> PreparableAt(files, paths[i], backup)
  }

  /** `PrepareBackups`, with its history stated as survival of the originals. */
  method SetAllAside(h: Host, paths: seq<Path>, backup: Path -> BackupAnswer, discard: Path -> bool) returns (existed: Option<seq<bool>>)
    requires h.Valid() && Targets(paths)
    modifies h
    ensures h.Valid() && old(h.history) <= h.history
    ensures LiveSame(old(h.now), h.now) && SlotsOnly(old(h.now), h.now, paths)
    ensures existed.Some? ==> Existed(old(h.now).files, paths, existed.value) && BackedUp(old(h.now).files, h.now.files, paths)
    ensures existed.Some? <==> Preparable(old(h.now).files, paths, backup)
    ensures forall i :: |old(h.history)| <= i < |h.history| ==> Survives(old(h.now).files, h.history[i].files, paths)
  {
    ghost var s0, n := h.now, |h.history|;
    existed := PrepareBackups(h, paths, backup, discard);
    forall i | n <= i < |h.history| ensures Survives(s0.files, h.history[i].files, paths) {
      LiveSurvives(s0, h.history[i], paths);
    }
  }

  lemma BackupStep(s0: Snapshot, s: Snapshot, t: Snapshot, paths: seq<Path>, i: nat)
    requires Targets(paths) && i < |paths|
    requires LiveSame(s0, s) && SlotsOnly(s0, s, paths) && LiveSame(s, t)
    requires SameExcept(t.files, s.files, iset{RotateBak(paths[i])})
    ensures LiveSame(s0, t) && SlotsOnly(s0, t, paths)
    ensures forall j :: 0 <= j < i && SetAside(s0.files, s.files, paths[j]) ==> SetAside(s0.files, t.files, paths[j])
    ensures forall j :: i < j < |paths| && SameAt(s.files, s0.files, RotateBak(paths[j])) ==>
              SameAt(t.files, s0.files, RotateBak(paths[j]))
  {
    assert paths[i] in paths;
    assert RotateBak(paths[i]) in Slots(paths);
    SameExceptTrans(t.files, s.files, s0.files, iset{RotateBak(paths[i])}, Slots(paths), Slots(paths));
    forall p: Path | !p.RotateBak? ensures SameAt(t.files, s0.files, p) {
      assert SameAt(t.files, s.files, p) && SameAt(s.files, s0.files, p);
    }
    forall j | 0 <= j < |paths| && j != i ensures SameAt(t.files, s.files, RotateBak(paths[j])) {}
  }

  lemma DiscardFrames(s0: Snapshot, s: Snapshot, t: Snapshot, paths: seq<Path>, i: nat)
    requires i <= |paths| && LiveSame(s0, s) && SlotsOnly(s0, s, paths) && LiveSame(s, t)
    requires SameExcept(t.files, s.files, Backups(paths[..i]))
    ensures LiveSame(s0, t) && SlotsOnly(s0, t, paths)
  {
    SameExceptTrans(t.files, s.files, s0.files, Backups(paths[..i]), Slots(paths), Slots(paths));
    forall p: Path | !p.RotateBak? ensures SameAt(t.files, s0.files, p) {
      assert SameAt(t.files, s.files, p) && SameAt(s.files, s0.files, p);
    }
  }

  // --------------------------------------------------------------- put back

  /**
   Puts one file back: its backup is renamed over it, or the file is removed
   when there was none. `ok` answers the rename or removal, if one is needed.
   */
  method PutBack(h: Host, p: Path, existed: bool, ok: bool, ghost f0: Files) returns (r: bool)
    requires h.Valid() && !p.RotateBak?
    requires existed == (p in f0) && SetAside(f0, h.now.files, p)
    modifies h
    ensures h.Valid() && old(h.history) <= h.history
    ensures r <==> (p in f0 || p in old(h.now).files ==> ok)
    ensures r ==> SameAt(h.now.files, f0, p)
    ensures !r ==> h.now == old(h.now)
    ensures Kept(f0, h.now.files, p)
    ensures SameExcept(h.now.files, old(h.now).files, iset{p, RotateBak(p)})
            && h.now.singbox == old(h.now).singbox && h.now.subscription == old(h.now).subscription
    ensures h.history == old(h.history) || h.history == old(h.history) + [h.now]
    ensures h.history == old(h.history) ==> h.now == old(h.now)
  {
    if existed {
      if !ok {
        return false;
      }
      h.Become(h.now.(files := h.now.files[p := h.now.files[RotateBak(p)]] - {RotateBak(p)}));
      return true;
    }
    if p in h.now.files {
      if !ok {
        return false;
      }
      h.Remove(p);
    }
    return true;
  }

  /** Files `< i` of the transaction are handled, the rest are still set aside. */
  ghost predicate Undoing(f0: Files, s1: Snapshot, s: Snapshot, paths: seq<Path>, i: nat)
    requires i <= |paths|
  {
    && SlotsOnly(s1, s, paths)
    && (forall j :: 0 <= j < i ==> Kept(f0, s.files, paths[j]))
    && (forall j :: i <= j < |paths| ==> SetAside(f0, s.files, paths[j]))
  }

  lemma UndoStep(f0: Files, s1: Snapshot, s: Snapshot, t: Snapshot, paths: seq<Path>, i: nat)
    requires Targets(paths) && i < |paths| && Undoing(f0, s1, s, paths, i)
    requires SameExcept(t.files, s.files, iset{paths[i], RotateBak(paths[i])})
    requires t.singbox == s.singbox && t.subscription == s.subscription && Kept(f0, t.files, paths[i])
    ensures Undoing(f0, s1, t, paths, i + 1)
    ensures forall j :: 0 <= j < |paths| && j != i ==> SameAt(t.files, s.files, paths[j])
    ensures Survives(f0, t.files, paths)
  {
    assert paths[i] in paths;
    SameExceptTrans(t.files, s.files, s1.files, iset{paths[i], RotateBak(paths[i])}, Slots(paths), Slots(paths));
    forall j | 0 <= j < |paths| && j != i
      ensures SameAt(t.files, s.files, paths[j]) && SameAt(t.files, s.files, RotateBak(paths[j])) {}
  }

  /** Putting `p` back works, or there is nothing to put back or remove. */
  predicate RestoreWorks(f0: Files, f: Files, p: Path, restore: Path -> bool) {
    p in f0 || p in f ==> restore(p)
  }

  predicate RestoresWork(f0: Files, f: Files, paths: seq<Path>, restore: Path -> bool) {
    forall i :: 0 <= i < |paths| ==> RestoreWorks(f0, f, paths[i], restore)
  }

  /**
   Undoes a transaction's file changes in order. Reporting success means every
   file is exactly as it was, absence included; whatever fails, every original
   stays on disk at every step.
   */
  method PutAllBack(h: Host, paths: seq<Path>, existed: seq<bool>, restore: Path -> bool, ghost f0: Files) returns (ok: bool)
    requires h.Valid() && Targets(paths)
    requires Existed(f0, paths, existed) && BackedUp(f0, h.now.files, paths)
    modifies h
    ensures h.Valid() && old(h.history) <= h.history
    ensures SlotsOnly(old(h.now), h.now, paths) && Survives(f0, h.now.files, paths)
    ensures ok ==> forall i :: 0 <= i < |paths| ==> SameAt(h.now.files, f0, paths[i])
    ensures ok <==> RestoresWork(f0, old(h.now).files, paths, restore)
    ensures forall i :: |old(h.history)| <= i < |h.history| ==>
              SlotsOnly(old(h.now), h.history[i], paths) && Survives(f0, h.history[i].files, paths)
  {
    ok := true;
    ghost var s1 := h.now;
    for i := 0 to |paths|
      invariant h.Valid() && old(h.history) <= h.history
      invariant Undoing(f0, s1, h.now, paths, i)
      invariant ok ==> forall j :: 0 <= j < i ==> SameAt(h.now.files, f0, paths[j])
      invariant ok <==> forall j :: 0 <= j < i ==> RestoreWorks(f0, s1.files, paths[j], restore)
      invariant forall j :: i <= j < |paths| ==> SameAt(h.now.files, s1.files, paths[j])
      invariant forall j :: |old(h.history)| <= j < |h.history| ==>
                  SlotsOnly(s1, h.history[j], paths) && Survives(f0, h.history[j].files, paths)
    {
      ghost var s := h.now;
      var back := PutBack(h, paths[i], existed[i], restore(paths[i]), f0);
      UndoStep(f0, s1, s, h.now, paths, i);
      ok := ok && back;
    }
  }
}
