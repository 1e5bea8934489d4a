/**
 User mutations against the running server: the proposed list is loaded into
 sing-box first and published to `users.json` only afterwards.
 */
module UserMutation {
  import opened Wrappers
  import opened CompatModel
  import opened Hosts
  import opened ConfigApply

  /** `config.json` and the running sing-box are the one document `users` stand for at `t`. */
  predicate AgreedAt(d: Deployment, s: Snapshot, users: seq<CompatUser>, t: int) {
    var doc := DocFor(d, s.files, users, t);
    doc.Some? && Has(s, ConfigJson, Config(doc.value)) && s.singbox == Runs(doc.value)
  }

  ghost predicate Agreed(d: Deployment, s: Snapshot, users: seq<CompatUser>) {
    exists t :: AgreedAt(d, s, users, t)
  }

  /** A live mutation whose service manager does not vanish between its two queries. */
  predicate Steady(a: ApplyAnswers) {
    !a.offline && (a.gate ==> a.afterSwap)
  }

  /** Failures that say the previous configuration is (still or again) the running one. */
  predicate Undone(why: ApplyFailure) {
    match why
    case ReloadFailed(recovered) => recovered
    case HandshakeRejected(recovered) => recovered
    case StampFailed => false
    case _ => true
  }

  /** `NotSaved(None)`: the store could not be written, and the previous list was applied again. */
  datatype MutationResult = Done(live: bool) | NotApplied(why: ApplyFailure) | NotSaved(back: Option<ApplyFailure>)

  /** Committed, or reported as fully undone. */
  predicate Clean(r: MutationResult) {
    match r
    case Done(_) => true
    case NotApplied(why) => Undone(why)
    case NotSaved(back) => back.None?
  }

  lemma LiveSettles(d: Deployment, s0: Snapshot, s1: Snapshot, users: seq<CompatUser>, a: ApplyAnswers, requireLive: bool)
    requires ApplyOutcome(d, s0, s1, users, a, requireLive, Live) && StampSound(s0)
    ensures Frame(s0, s1) && AgreedAt(d, s1, users, a.now) && StampHonest(s1)
  {
    SameDoc(d, s1.files, s0.files, users, a.now);
  }

  lemma UndoneAgrees(
    d: Deployment, s0: Snapshot, s1: Snapshot, users: seq<CompatUser>, previous: seq<CompatUser>,
    a: ApplyAnswers, why: ApplyFailure, t: int)
    requires ApplyOutcome(d, s0, s1, users, a, true, Failed(why)) && Undone(why)
    requires AgreedAt(d, s0, previous, t) && StampSound(s0)
    ensures AgreedAt(d, s1, previous, t) && StampSound(s1)
  {
    SameDoc(d, s1.files, s0.files, previous, t);
    if why.NotSwapped? {
      BackupKeepsStampSound(s0, s1);
      assert SameAt(s1.files, s0.files, ConfigJson);
    }
  }

  lemma UndoneStaysAgreed(
    d: Deployment, s0: Snapshot, s1: Snapshot, users: seq<CompatUser>, previous: seq<CompatUser>, a: ApplyAnswers, why: ApplyFailure)
    requires ApplyOutcome(d, s0, s1, users, a, true, Failed(why)) && Undone(why)
    requires Agreed(d, s0, previous) && StampSound(s0)
    ensures Agreed(d, s1, previous) && StampSound(s1)
  {
    var t :| AgreedAt(d, s0, previous, t);
    UndoneAgrees(d, s0, s1, users, previous, a, why, t);
  }

  /** Between consecutive states `users.json` is untouched, or shows `users` with sing-box already on their document. */
  predicate PublishedAfterLoad(d: Deployment, s: Snapshot, t: Snapshot, users: seq<CompatUser>, now: int) {
    || SameAt(t.files, s.files, UsersJson)
    || (&& Has(t, UsersJson, Envelope(USERS_SCHEMA_VERSION, users))
        && DocFor(d, t.files, users, now).Some?
        && s.singbox == t.singbox == Runs(DocFor(d, t.files, users, now).value))
  }

  /** Applying a configuration never touches `users.json`. */
  lemma UsersUntouched(hist: seq<Snapshot>, n: nat, s0: Snapshot)
    requires 0 < n <= |hist| && Frame(s0, hist[n - 1])
    requires forall i :: n <= i < |hist| ==> Frame(s0, hist[i])
    ensures forall i :: n <= i < |hist| ==> SameAt(hist[i].files, hist[i - 1].files, UsersJson)
  {
    forall i | n <= i < |hist| ensures SameAt(hist[i].files, hist[i - 1].files, UsersJson) {
      assert Frame(s0, hist[i]) && Frame(s0, hist[i - 1]);
      assert SameAt(hist[i].files, s0.files, UsersJson) && SameAt(hist[i - 1].files, s0.files, UsersJson);
    }
  }

  /** Writing `users.json` disturbs neither the server nor the shortcut. */
  lemma PublishKeeps(d: Deployment, s: Snapshot, c: Content, users: seq<CompatUser>, t: int)
    ensures var s' := s.(files := s.files[UsersJson := c]);
            && (AgreedAt(d, s', users, t) <==> AgreedAt(d, s, users, t))
            && DocFor(d, s'.files, users, t) == DocFor(d, s.files, users, t)
            && (StampSound(s') <==> StampSound(s)) && (StampHonest(s') <==> StampHonest(s))
  {
    SameDoc(d, s.files[UsersJson := c], s.files, users, t);
  }

  // ------------------------------------------------- when the shortcut is sound

  /** A reload or handshake failed and the previous document could not be brought back. */
  predicate Unrecovered(why: ApplyFailure) {
    (why.ReloadFailed? || why.HandshakeRejected?) && !why.recovered
  }

  /** The result reports an unrecovered reload as the last word on the server. */
  predicate LeavesUnrecovered(r: MutationResult) {
    (r.NotApplied? && Unrecovered(r.why)) || (r.NotSaved? && r.back.Some? && Unrecovered(r.back.value))
  }

  /** The apply goes as far as a reload, and sing-box comes back healthy on the new document or the kept one. */
  predicate ReloadsWell(d: Deployment, s: Snapshot, users: seq<CompatUser>, a: ApplyAnswers) {
    var doc := DocFor(d, s.files, users, a.now);
    && doc.Some? && a.binary && a.gate && !AlreadyCurrent(s, doc.value, a) && SwapSucceeds(s.files, a.swap) && a.afterSwap
    && (Forward(a) || RecoveryWorks(s.files, a))
  }

  /** A healthy reload makes the shortcut sound whatever came before, and only an unrecovered one can make it unsound. */
  lemma SoundAfterApply(d: Deployment, s0: Snapshot, s1: Snapshot, users: seq<CompatUser>, a: ApplyAnswers, r: ApplyResult)
    requires ApplyOutcome(d, s0, s1, users, a, true, r) && Steady(a)
    requires StampSound(s0) || ReloadsWell(d, s0, users, a)
    requires r.Failed? ==> !Unrecovered(r.why)
    ensures StampSound(s1)
  {
    if r == Failed(NotSwapped) && OnlyBackup(s0, s1) && StampSound(s0) {
      BackupKeepsStampSound(s0, s1);
    }
  }

  /** After an apply that did not fail, sing-box runs the document if it was reloaded or ran it before. */
  lemma LoadedAfterApply(d: Deployment, s0: Snapshot, s1: Snapshot, users: seq<CompatUser>, a: ApplyAnswers, r: ApplyResult)
    requires ApplyOutcome(d, s0, s1, users, a, true, r) && !a.offline && !r.Failed?
    ensures var doc := DocFor(d, s0.files, users, a.now);
            && doc.Some? && a.binary && a.gate
            && (AlreadyCurrent(s0, doc.value, a) || SwapSucceeds(s0.files, a.swap))
            && (s1.singbox == Runs(doc.value)
                <==> s0.singbox == Runs(doc.value) || (!AlreadyCurrent(s0, doc.value, a) && a.afterSwap))
  {}

  /** The kept document is copied back and its reload fails too: disk and stamp as before, and sing-box on nothing known. */
  lemma UnrecoveredEnd(d: Deployment, s: Snapshot, users: seq<CompatUser>, a: ApplyAnswers)
    requires ConfigJson in s.files && RefusedApply(DocFor(d, s.files, users, a.now), true, a).None?
    requires !AlreadyCurrent(s, DocFor(d, s.files, users, a.now).value, a) && SwapSucceeds(s.files, a.swap) && a.afterSwap
    requires !a.reload && a.recoverCopy.Copied? && !a.recoverReload
    ensures var e := EndOf(s, ApplyTrail(d, s, users, true, a));
            && e.singbox == Unproven && SameAt(e.files, s.files, ConfigJson) && SameAt(e.files, s.files, AppliedStamp)
    ensures ApplyVerdict(d, s, users, true, a) == Failed(ReloadFailed(false))
  {
    var doc := DocFor(d, s.files, users, a.now).value;
    EndOfJoin(s, SwapTrail(s, doc, a.swap), LoadTrail(s.(files := Swapped(s.files, doc)), doc, a));
    SwapEnd(s, doc, a.swap);
  }

  // ---------------------------------------------------------------- one apply

  /** One live apply of a user list, in terms of what it means for the store. */
  method Authorize(h: Host, users: seq<CompatUser>, a: ApplyAnswers, ghost previous: seq<CompatUser>) returns (r: ApplyResult)
    requires h.Valid()
    modifies h
    ensures h.Valid() && old(h.history) <= h.history
    ensures h.history == old(h.history) + ApplyTrail(h.d, old(h.now), users, true, a)
    ensures r == ApplyVerdict(h.d, old(h.now), users, true, a) && (r.Failed? <==> ApplyFails(h.d, old(h.now), users, a))
    ensures Frame(old(h.now), h.now)
    ensures forall i :: |old(h.history)| <= i < |h.history| ==> SameAt(h.history[i].files, h.history[i - 1].files, UsersJson)
    ensures r.NotLive? && !a.offline ==> a.gate && !a.afterSwap
    ensures r.Live? && StampSound(old(h.now)) ==> AgreedAt(h.d, h.now, users, a.now) && StampHonest(h.now)
    ensures StampSound(old(h.now)) && Agreed(h.d, old(h.now), previous) && r.Failed? && Undone(r.why) ==>
              Agreed(h.d, h.now, previous) && StampSound(h.now)
    ensures Forward(a) && StampSound(old(h.now)) && SwapSafeFor(h.d, old(h.now), users, a) ==>
              forall i :: |old(h.history)| <= i < |h.history| ==> StampSound(h.history[i])
  {
    ghost var s0, n := h.now, |h.history|;
    r := RenderAndApply(h, users, true, a);
    UsersUntouched(h.history, n, s0);
    FailsExactly(h.d, s0, h.now, users, a, r);
    if r.Failed? {
      if StampSound(s0) && Agreed(h.d, s0, previous) && Undone(r.why) {
        UndoneStaysAgreed(h.d, s0, h.now, users, previous, a, r.why);
      }
    } else if StampSound(s0) && r.Live? {
      LiveSettles(h.d, s0, h.now, users, a, true);
    }
  }

  /** Swapping in the document of `users` before the reload would not fool the shortcut. */
  predicate SwapSafeFor(d: Deployment, s: Snapshot, users: seq<CompatUser>, a: ApplyAnswers) {
    var doc := DocFor(d, s.files, users, a.now);
    doc.Some? ==> SwapSafe(s, doc.value)
  }

  /** The compensating apply of the previous list after the store could not be written. */
  method TakeBack(h: Host, previous: seq<CompatUser>, b: ApplyAnswers, ghost s0: Snapshot) returns (back: Option<ApplyFailure>)
    requires h.Valid() && Frame(s0, h.now)
    modifies h
    ensures h.Valid() && old(h.history) <= h.history
    ensures h.history == old(h.history) + ApplyTrail(h.d, old(h.now), previous, true, b)
    ensures back == FailureOf(ApplyVerdict(h.d, old(h.now), previous, true, b))
    ensures Frame(s0, h.now)
    ensures forall i :: |old(h.history)| <= i < |h.history| ==> SameAt(h.history[i].files, h.history[i - 1].files, UsersJson)
    ensures back.None? && Steady(b) && StampSound(old(h.now)) ==> Agreed(h.d, h.now, previous) && StampSound(h.now)
    ensures StampHonest(old(h.now)) && Forward(b) ==>
              forall i :: |old(h.history)| <= i < |h.history| ==> StampSound(h.history[i])
  {
    ghost var s1 := h.now;
    var r := Authorize(h, previous, b, previous);
    SameExceptTrans(h.now.files, s1.files, s0.files, iset{ConfigJson, ConfigBak, AppliedStamp},
      iset{ConfigJson, ConfigBak, AppliedStamp}, iset{ConfigJson, ConfigBak, AppliedStamp});
    return FailureOf(r);
  }

  function FailureOf(r: ApplyResult): Option<ApplyFailure> {
    if r.Failed? then Some(r.why) else None
  }

  // ------------------------------------------------------------ the mutation

  /** The states a mutation passes through, in order. */
  function MutationTrail(
    d: Deployment, s: Snapshot, previous: seq<CompatUser>, users: seq<CompatUser>, a: ApplyAnswers, save: bool, b: ApplyAnswers)
    : seq<Snapshot>
  {
    var first := ApplyTrail(d, s, users, true, a);
    var s1 := EndOf(s, first);
    if ApplyVerdict(d, s, users, true, a).Failed? then first
    else if save then first + [With(s1, UsersJson, Envelope(USERS_SCHEMA_VERSION, users))]
    else first + ApplyTrail(d, s1, previous, true, b)
  }

  function MutationVerdict(
    d: Deployment, s: Snapshot, previous: seq<CompatUser>, users: seq<CompatUser>, a: ApplyAnswers, save: bool, b: ApplyAnswers)
    : MutationResult
  {
    var verdict := ApplyVerdict(d, s, users, true, a);
    if verdict.Failed? then NotApplied(verdict.why)
    else if save then Done(verdict.Live?)
    else NotSaved(FailureOf(ApplyVerdict(d, EndOf(s, ApplyTrail(d, s, users, true, a)), previous, true, b)))
  }

  /** What a mutation does to `users.json` and when it gives which result, as seen at its end `e`. */
  ghost predicate MutationEffect(
    d: Deployment, s: Snapshot, e: Snapshot, users: seq<CompatUser>, a: ApplyAnswers, save: bool, r: MutationResult)
  {
    // exactly when each result is given
    && (r.NotApplied? <==> ApplyFails(d, s, users, a))
    && (r.Done? <==> !ApplyFails(d, s, users, a) && save)
    && (r.Done? && !r.live && !a.offline ==> a.gate && !a.afterSwap)
    // users.json: the new list on success, untouched on every error
    && (r.Done? ==> Has(e, UsersJson, Envelope(USERS_SCHEMA_VERSION, users)))
    && (!r.Done? ==> SameAt(e.files, s.files, UsersJson))
    && SameExcept(e.files, s.files, iset{ConfigJson, ConfigBak, AppliedStamp, UsersJson}) && e.subscription == s.subscription
  }

  lemma MutationEnds(
    d: Deployment, s: Snapshot, previous: seq<CompatUser>, users: seq<CompatUser>, a: ApplyAnswers, save: bool, b: ApplyAnswers)
    ensures MutationEffect(d, s, EndOf(s, MutationTrail(d, s, previous, users, a, save, b)), users, a, save,
              MutationVerdict(d, s, previous, users, a, save, b))
  {
    var first := ApplyTrail(d, s, users, true, a);
    var s1 := EndOf(s, first);
    ApplyFramed(d, s, users, true, a);
    ApplyEnds(d, s, users, true, a);
    FailsExactly(d, s, s1, users, a, ApplyVerdict(d, s, users, true, a));
    if !ApplyVerdict(d, s, users, true, a).Failed? && !save {
      ApplyFramed(d, s1, previous, true, b);
      EndOfJoin(s, first, ApplyTrail(d, s1, previous, true, b));
      SameExceptTrans(EndOf(s1, ApplyTrail(d, s1, previous, true, b)).files, s1.files, s.files,
        iset{ConfigJson, ConfigBak, AppliedStamp}, iset{ConfigJson, ConfigBak, AppliedStamp}, iset{ConfigJson, ConfigBak, AppliedStamp});
    }
  }

  /** A clean result leaves the server on the list `users.json` shows. */
  lemma CleanAgrees(
    d: Deployment, s: Snapshot, previous: seq<CompatUser>, users: seq<CompatUser>, a: ApplyAnswers, save: bool, b: ApplyAnswers)
    requires StampSound(s) && Agreed(d, s, previous) && Steady(a) && Steady(b)
    requires Clean(MutationVerdict(d, s, previous, users, a, save, b))
    ensures var e := EndOf(s, MutationTrail(d, s, previous, users, a, save, b));
            StampSound(e) && Agreed(d, e, if MutationVerdict(d, s, previous, users, a, save, b).Done? then users else previous)
  {
    var first, verdict := ApplyTrail(d, s, users, true, a), ApplyVerdict(d, s, users, true, a);
    var s1 := EndOf(s, first);
    ApplyEnds(d, s, users, true, a);
    if verdict.Failed? {
      UndoneStaysAgreed(d, s, s1, users, previous, a, verdict.why);
    } else {
      LiveSettles(d, s, s1, users, a, true);
      if save {
        PublishKeeps(d, s1, Envelope(USERS_SCHEMA_VERSION, users), users, a.now);
      } else {
        ApplyEnds(d, s1, previous, true, b);
        LiveSettles(d, s1, EndOf(s1, ApplyTrail(d, s1, previous, true, b)), previous, b, true);
        EndOfJoin(s, first, ApplyTrail(d, s1, previous, true, b));
      }
    }
  }

  /** Without a failed reload no state of a mutation makes the shortcut unsound. */
  lemma MutationSound(
    d: Deployment, s: Snapshot, previous: seq<CompatUser>, users: seq<CompatUser>, a: ApplyAnswers, save: bool, b: ApplyAnswers)
    requires StampSound(s) && SwapSafeFor(d, s, users, a) && Steady(a) && Forward(a) && Forward(b)
    ensures AllSound(MutationTrail(d, s, previous, users, a, save, b))
  {
    var first := ApplyTrail(d, s, users, true, a);
    var s1 := EndOf(s, first);
    ApplySound(d, s, users, true, a);
    ApplyEnds(d, s, users, true, a);
    if !ApplyVerdict(d, s, users, true, a).Failed? {
      LiveSettles(d, s, s1, users, a, true);
      PublishKeeps(d, s1, Envelope(USERS_SCHEMA_VERSION, users), users, a.now);
      ApplySound(d, s1, previous, true, b);
      JoinSound(first, ApplyTrail(d, s1, previous, true, b));
    }
  }

  /** The steps of `apply_users_and_save`; without a failed reload none of them makes the shortcut unsound. */
  method ApplyThenSave(
    h: Host, previous: seq<CompatUser>, users: seq<CompatUser>, a: ApplyAnswers, save: bool, b: ApplyAnswers)
    returns (r: MutationResult)
    requires h.Valid()
    modifies h
    ensures h.Valid() && old(h.history) <= h.history
    ensures h.history == old(h.history) + MutationTrail(h.d, old(h.now), previous, users, a, save, b)
    ensures r == MutationVerdict(h.d, old(h.now), previous, users, a, save, b)
    ensures StampSound(old(h.now)) && SwapSafeFor(h.d, old(h.now), users, a) && Steady(a) && Forward(a) && Forward(b) ==>
              forall i :: |old(h.history)| <= i < |h.history| ==> StampSound(h.history[i])
  {
    ghost var s0 := h.now;
    var first := Authorize(h, users, a, previous);
    ghost var s1 := h.now;
    if first.Failed? {
      return NotApplied(first.why);
    }
    if !save {
      var back := TakeBack(h, previous, b, s0);
      TrailsJoin(old(h.history), ApplyTrail(h.d, s0, users, true, a), ApplyTrail(h.d, s1, previous, true, b));
      return NotSaved(back);
    }
    h.Install(UsersJson, Envelope(USERS_SCHEMA_VERSION, users));
    PublishKeeps(h.d, s1, Envelope(USERS_SCHEMA_VERSION, users), users, a.now);
    TrailsJoin(old(h.history), ApplyTrail(h.d, s0, users, true, a), [h.now]);
    return Done(first.Live?);
  }

  /**
   `apply_users_and_save`. `a` answers the forward apply, `save` the store
   write, `b` the compensating apply of `previous`.
   */
  method ApplyUsersAndSave(
    h: Host, previous: seq<CompatUser>, users: seq<CompatUser>, a: ApplyAnswers, save: bool, b: ApplyAnswers)
    returns (r: MutationResult)
    requires h.Valid()
    modifies h
    ensures h.Valid() && old(h.history) <= h.history
    // exactly which states it passes, which result it gives, and what that means for users.json.
    ensures h.history == old(h.history) + MutationTrail(h.d, old(h.now), previous, users, a, save, b)
    ensures r == MutationVerdict(h.d, old(h.now), previous, users, a, save, b)
    ensures MutationEffect(h.d, old(h.now), h.now, users, a, save, r)
    // a live command shows its list before sing-box has loaded it if and only if it takes the early branch.
    ensures !a.offline ==>
              (TrailInOrder(h.d, old(h.now), h.history[|old(h.history)|..], users, a.now)
               <==> !PublishesEarly(h.d, old(h.now), users, a, save))
    // a clean result leaves the server on the list users.json shows.
    ensures StampSound(old(h.now)) && Agreed(h.d, old(h.now), previous) && Steady(a) && Steady(b) && Clean(r) ==>
              StampSound(h.now) && Agreed(h.d, h.now, if r.Done? then users else previous)
    // without a failed reload no step ever makes the shortcut unsound.
    ensures StampSound(old(h.now)) && SwapSafeFor(h.d, old(h.now), users, a) && Steady(a) && Forward(a) && Forward(b) ==>
              forall i :: |old(h.history)| <= i < |h.history| ==> StampSound(h.history[i])
  {
    ghost var s0 := h.now;
    r := ApplyThenSave(h, previous, users, a, save, b);
    assert h.now == EndOf(s0, MutationTrail(h.d, s0, previous, users, a, save, b));
    MutationEnds(h.d, s0, previous, users, a, save, b);
    assert h.history[|old(h.history)|..] == MutationTrail(h.d, s0, previous, users, a, save, b);
    if !a.offline {
      InOrderUnlessEarly(h.d, s0, previous, users, a, save, b);
    }
    if StampSound(s0) && Agreed(h.d, s0, previous) && Steady(a) && Steady(b) && Clean(r) {
      CleanAgrees(h.d, s0, previous, users, a, save, b);
    }
  }

  // -------------------------------------------------------- never ahead, when

  function Before(s: Snapshot, trail: seq<Snapshot>, i: nat): Snapshot
    requires i <= |trail|
  {
    if i == 0 then s else trail[i - 1]
  }

  /** No step of the trail shows `users` before sing-box runs their document. */
  ghost predicate TrailInOrder(d: Deployment, s: Snapshot, trail: seq<Snapshot>, users: seq<CompatUser>, now: int) {
    forall i :: 0 <= i < |trail| ==> PublishedAfterLoad(d, Before(s, trail, i), trail[i], users, now)
  }

  /**
   The branch that publishes early: the store is written with a new list after
   the shortcut was taken, or after a swap whose service query came back empty,
   while sing-box does not run the list's document.
   */
  predicate PublishesEarly(d: Deployment, s: Snapshot, users: seq<CompatUser>, a: ApplyAnswers, save: bool) {
    var doc := DocFor(d, s.files, users, a.now);
    && save && doc.Some? && a.binary && a.gate
    && (AlreadyCurrent(s, doc.value, a) || (SwapSucceeds(s.files, a.swap) && !a.afterSwap))
    && s.singbox != Runs(doc.value) && !Has(s, UsersJson, Envelope(USERS_SCHEMA_VERSION, users))
  }

  lemma {:induction false} FramedInOrder(d: Deployment, s0: Snapshot, s: Snapshot, trail: seq<Snapshot>, users: seq<CompatUser>, now: int)
    requires Frame(s0, s) && AllFramed(s0, trail)
    ensures TrailInOrder(d, s, trail, users, now)
    ensures Frame(s0, EndOf(s, trail))
  {
    forall i | 0 <= i < |trail| ensures PublishedAfterLoad(d, Before(s, trail, i), trail[i], users, now) {
      assert Frame(s0, trail[i]) && Frame(s0, Before(s, trail, i));
      assert SameAt(trail[i].files, s0.files, UsersJson) && SameAt(Before(s, trail, i).files, s0.files, UsersJson);
    }
  }

  lemma JoinInOrder(d: Deployment, s: Snapshot, x: seq<Snapshot>, y: seq<Snapshot>, users: seq<CompatUser>, now: int)
    ensures TrailInOrder(d, s, x + y, users, now)
       <==> TrailInOrder(d, s, x, users, now) && TrailInOrder(d, EndOf(s, x), y, users, now)
  {
    var t := x + y;
    if TrailInOrder(d, s, t, users, now) {
      forall i | 0 <= i < |x| ensures PublishedAfterLoad(d, Before(s, x, i), x[i], users, now) {
        assert PublishedAfterLoad(d, Before(s, t, i), t[i], users, now);
      }
      forall i | 0 <= i < |y| ensures PublishedAfterLoad(d, Before(EndOf(s, x), y, i), y[i], users, now) {
        assert PublishedAfterLoad(d, Before(s, t, i + |x|), t[i + |x|], users, now);
      }
    }
    if TrailInOrder(d, s, x, users, now) && TrailInOrder(d, EndOf(s, x), y, users, now) {
      forall i | 0 <= i < |t| ensures PublishedAfterLoad(d, Before(s, t, i), t[i], users, now) {
        if i < |x| {
          assert PublishedAfterLoad(d, Before(s, x, i), x[i], users, now);
        } else {
          assert PublishedAfterLoad(d, Before(EndOf(s, x), y, i - |x|), y[i - |x|], users, now);
        }
      }
    }
  }

  /** Writing the store is in order exactly if it changes nothing or sing-box runs the document. */
  lemma PublishInOrder(d: Deployment, s0: Snapshot, s1: Snapshot, users: seq<CompatUser>, now: int)
    requires Frame(s0, s1)
    ensures TrailInOrder(d, s1, [With(s1, UsersJson, Envelope(USERS_SCHEMA_VERSION, users))], users, now)
       <==> || Has(s0, UsersJson, Envelope(USERS_SCHEMA_VERSION, users))
            || (DocFor(d, s0.files, users, now).Some? && s1.singbox == Runs(DocFor(d, s0.files, users, now).value))
  {
    var trail := [With(s1, UsersJson, Envelope(USERS_SCHEMA_VERSION, users))];
    PublishKeeps(d, s1, Envelope(USERS_SCHEMA_VERSION, users), users, now);
    SameDoc(d, s1.files, s0.files, users, now);
    assert SameAt(s1.files, s0.files, UsersJson);
    assert TrailInOrder(d, s1, trail, users, now) <==> PublishedAfterLoad(d, Before(s1, trail, 0), trail[0], users, now);
  }

  /**
   From any state and with any answers: a live mutation shows its list before
   sing-box has loaded it if and only if it takes the branch of `PublishesEarly`.
   */
  lemma InOrderUnlessEarly(
    d: Deployment, s: Snapshot, previous: seq<CompatUser>, users: seq<CompatUser>, a: ApplyAnswers, save: bool, b: ApplyAnswers)
    requires !a.offline
    ensures TrailInOrder(d, s, MutationTrail(d, s, previous, users, a, save, b), users, a.now)
       <==> !PublishesEarly(d, s, users, a, save)
  {
    var first := ApplyTrail(d, s, users, true, a);
    var s1 := EndOf(s, first);
    ApplyFramed(d, s, users, true, a);
    FramedInOrder(d, s, s, first, users, a.now);
    ApplyEnds(d, s, users, true, a);
    FailsExactly(d, s, s1, users, a, ApplyVerdict(d, s, users, true, a));
    if !ApplyVerdict(d, s, users, true, a).Failed? {
      LoadedAfterApply(d, s, s1, users, a, ApplyVerdict(d, s, users, true, a));
      if save {
        PublishInOrder(d, s, s1, users, a.now);
        JoinInOrder(d, s, first, [With(s1, UsersJson, Envelope(USERS_SCHEMA_VERSION, users))], users, a.now);
      } else {
        ApplyFramed(d, s1, previous, true, b);
        FramedInOrder(d, s1, s1, ApplyTrail(d, s1, previous, true, b), users, a.now);
        JoinInOrder(d, s, first, ApplyTrail(d, s1, previous, true, b), users, a.now);
      }
    }
  }

  /** From a sound stamp, with a service manager that does not vanish in between, no mutation publishes early. */
  lemma SoundNeverEarly(d: Deployment, s: Snapshot, users: seq<CompatUser>, a: ApplyAnswers, save: bool)
    requires StampSound(s) && Steady(a)
    ensures !PublishesEarly(d, s, users, a, save)
  {}

  /** What a mutation leaves the shortcut with. */
  lemma SoundAfterMutation(
    d: Deployment, s: Snapshot, previous: seq<CompatUser>, users: seq<CompatUser>, a: ApplyAnswers, save: bool, b: ApplyAnswers)
    requires Steady(a) && Steady(b) && (StampSound(s) || ReloadsWell(d, s, users, a))
    requires !LeavesUnrecovered(MutationVerdict(d, s, previous, users, a, save, b))
    ensures StampSound(EndOf(s, MutationTrail(d, s, previous, users, a, save, b)))
  {
    var first := ApplyTrail(d, s, users, true, a);
    var s1 := EndOf(s, first);
    ApplyEnds(d, s, users, true, a);
    SoundAfterApply(d, s, s1, users, a, ApplyVerdict(d, s, users, true, a));
    if !ApplyVerdict(d, s, users, true, a).Failed? {
      if save {
        PublishKeeps(d, s1, Envelope(USERS_SCHEMA_VERSION, users), users, a.now);
      } else {
        ApplyEnds(d, s1, previous, true, b);
        SoundAfterApply(d, s1, EndOf(s1, ApplyTrail(d, s1, previous, true, b)), previous, b, ApplyVerdict(d, s1, previous, true, b));
        EndOfJoin(s, first, ApplyTrail(d, s1, previous, true, b));
      }
    }
  }
}
