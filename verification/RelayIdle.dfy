/**
 The relay's inactivity bound. A session is a trace of instants at which bytes
 moved, counted from the start of the copy, finite or endless; timers fire late
 by at most `late`, and a byte moving at the very instant of a check may or may
 not be counted.
 */
module RelayIdle {
  import opened Wrappers

  datatype Session = Session(
    idle: real,
    late: real,
    moved: nat -> real,       // instant of the `i`-th move
    moves: Option<nat>,       // how many moves there are; `None` is an endless trace
    finish: Option<real>,     // when the copy ends by itself, if ever
    fires: nat -> real,       // when check `k` happens
    sees: nat -> nat)         // the activity counter as check `k` reads it

  predicate IsMove(s: Session, i: nat) {
    s.moves.None? || i < s.moves.value
  }

  ghost predicate Ordered(s: Session) {
    forall i: nat, j: nat :: i <= j && IsMove(s, j) ==> 0.0 <= s.moved(i) <= s.moved(j)
  }

  /** A timer set for `idle` never fires early, and at most `late` seconds late. */
  ghost predicate Timers(s: Session) {
    && s.fires(0) == 0.0
    && forall k: nat :: s.fires(k) + s.idle <= s.fires(k + 1) <= s.fires(k) + s.idle + s.late
  }

  /** A check counts every move before it and none after it. */
  ghost predicate Counts(s: Session, k: nat) {
    && (forall i: nat :: IsMove(s, i) && s.moved(i) < s.fires(k) ==> i < s.sees(k))
    && forall i: nat :: i < s.sees(k) ==> IsMove(s, i) && s.moved(i) <= s.fires(k)
  }

  ghost predicate Coherent(s: Session) {
    s.idle > 0.0 && s.late >= 0.0 && Ordered(s) && Timers(s) && forall k: nat :: Counts(s, k)
  }

  /** `Open`: nothing has ended the session within the checks looked at. */
  datatype Outcome = Finished(at: real) | IdleAborted(at: real) | Open

  /** The last of the first `n` moves, or the start of the session. */
  ghost function LastOf(s: Session, n: nat): real {
    if n == 0 then 0.0 else s.moved(n - 1)
  }

  /** A move later than `t` and sooner than `t + idle`. */
  ghost predicate FollowedSoon(s: Session, t: real) {
    exists i: nat :: IsMove(s, i) && t < s.moved(i) < t + s.idle
  }

  /** The start of the session and every move are followed by a move sooner than `idle`, up to instant `t`. */
  ghost predicate GapsBelowIdle(s: Session, t: real) {
    forall n: nat :: (n == 0 || IsMove(s, n - 1)) && LastOf(s, n) + s.idle <= t ==> FollowedSoon(s, LastOf(s, n))
  }

  /** No byte moved during window `k`. */
  ghost predicate Silent(s: Session, k: nat) {
    s.sees(k) == s.sees(k + 1)
  }

  lemma CountsGrow(s: Session, k: nat)
    requires Coherent(s)
    ensures s.sees(k) <= s.sees(k + 1)
  {
    assert Counts(s, k) && Counts(s, k + 1);
    assert s.fires(k) < s.fires(k + 1);
    if s.sees(k) > 0 {
      var i := s.sees(k) - 1;
      assert IsMove(s, i) && s.moved(i) <= s.fires(k);
    }
  }

  /** A silent window is a gap of at least `idle` after the last move. */
  lemma SilentIsGap(s: Session, k: nat)
    requires Coherent(s) && Silent(s, k)
    ensures LastOf(s, s.sees(k)) + s.idle <= s.fires(k + 1)
    ensures forall i: nat :: s.sees(k) <= i && IsMove(s, i) ==> s.moved(i) >= s.fires(k + 1)
    ensures !GapsBelowIdle(s, s.fires(k + 1))
  {
    var c := s.sees(k);
    FiresAfterStart(s, k);
    assert Counts(s, k) && Counts(s, k + 1);
    assert c > 0 ==> IsMove(s, c - 1);
    forall i: nat | IsMove(s, i) ensures s.moved(i) <= LastOf(s, c) || s.moved(i) >= LastOf(s, c) + s.idle {
      if i < c {
        assert s.moved(i) <= s.moved(c - 1);
      }
    }
    assert !FollowedSoon(s, LastOf(s, c));
  }

  lemma {:induction false} FiresAfterStart(s: Session, k: nat)
    requires Coherent(s)
    ensures s.fires(k) >= 0.0
  {
    if k > 0 {
      FiresAfterStart(s, k - 1);
      assert s.fires(k - 1) + s.idle <= s.fires(k - 1 + 1);
    }
  }

  lemma {:induction false} FiresInOrder(s: Session, j: nat, k: nat)
    requires Coherent(s) && j <= k
    ensures s.fires(j) <= s.fires(k)
  {
    if j < k {
      FiresInOrder(s, j, k - 1);
      assert s.fires(k - 1) + s.idle <= s.fires(k - 1 + 1);
    }
  }

  lemma NoEarlierSilence(s: Session, k: nat)
    requires Coherent(s) && forall j: nat :: j < k ==> !Silent(s, j)
    ensures forall j: nat :: s.fires(j + 1) < s.fires(k + 1) ==> !Silent(s, j)
  {
    forall j: nat | s.fires(j + 1) < s.fires(k + 1) ensures !Silent(s, j) {
      if j >= k {
        FiresInOrder(s, k + 1, j + 1);
      }
    }
  }

  /** A window after one with activity ends within two windows of the last move counted at its start. */
  lemma LastIsRecent(s: Session, k: nat)
    requires Coherent(s) && (k > 0 ==> !Silent(s, k - 1))
    ensures s.fires(k + 1) <= LastOf(s, s.sees(k)) + 2.0 * (s.idle + s.late)
  {
    assert Counts(s, k);
    assert s.fires(k + 1) <= s.fires(k) + s.idle + s.late;
    if k == 0 {
      assert s.sees(0) > 0 ==> IsMove(s, s.sees(0) - 1);
    } else {
      var j := k - 1;
      CountsGrow(s, j);
      assert Counts(s, j);
      assert s.fires(j + 1) <= s.fires(j) + s.idle + s.late;
      assert IsMove(s, s.sees(k) - 1);
    }
  }

  lemma {:induction false} ActiveWindowsCount(s: Session, k: nat)
    requires Coherent(s) && forall j: nat :: j < k ==> !Silent(s, j)
    ensures s.sees(k) >= k
  {
    if k > 0 {
      ActiveWindowsCount(s, k - 1);
      CountsGrow(s, k - 1);
      assert !Silent(s, k - 1);
    }
  }

  /**
   The copy loop, watched for any number of checks; `counted` is how many moves
   the last check had seen. An abort comes at least `idle` and at most two
   windows after the last move, whatever the length of the session, and never
   while the gaps stay below `idle`. The first silent window aborts. A session
   still open has moved bytes in every window; one with finitely many moves does
   not stay open.
   */
  method CopyWithIdleTimeout(s: Session, checks: nat) returns (r: Outcome, ghost counted: nat)
    requires Coherent(s)
    ensures r.Finished? ==> s.finish == Some(r.at) && r.at <= LastOf(s, counted) + 2.0 * (s.idle + s.late)
    ensures !r.Open? ==> forall k: nat :: s.fires(k + 1) < r.at ==> !Silent(s, k)
    ensures r.IdleAborted? ==> !GapsBelowIdle(s, r.at) && (s.finish.None? || s.finish.value > r.at)
    ensures r.IdleAborted? ==> LastOf(s, counted) + s.idle <= r.at <= LastOf(s, counted) + 2.0 * (s.idle + s.late)
    ensures r.IdleAborted? ==> exists k: nat :: Silent(s, k) && r.at == s.fires(k + 1) && counted == s.sees(k)
    ensures r.IdleAborted? ==> forall i: nat :: counted <= i && IsMove(s, i) ==> s.moved(i) >= r.at
    ensures r.Open? ==> (forall k: nat :: k < checks ==> !Silent(s, k)) && (checks > 0 && s.finish.Some? ==> s.finish.value > s.fires(checks))
    ensures s.moves.Some? && checks > s.moves.value ==> !r.Open?
  {
    var k: nat := 0;
    while k < checks
      invariant k <= checks
      invariant forall j: nat :: j < k ==> !Silent(s, j)
      invariant k > 0 && s.finish.Some? ==> s.finish.value > s.fires(k)
    {
      var before := s.sees(k);
      NoEarlierSilence(s, k);
      LastIsRecent(s, k);
      if s.finish.Some? && s.finish.value <= s.fires(k + 1) {
        return Finished(s.finish.value), before;
      }
      if s.sees(k + 1) == before {
        SilentIsGap(s, k);
        return IdleAborted(s.fires(k + 1)), before;
      }
      k := k + 1;
    }
    ActiveWindowsCount(s, checks);
    assert Counts(s, checks);
    assert s.sees(checks) > 0 ==> IsMove(s, s.sees(checks) - 1);
    return Open, s.sees(checks);
  }

  /** With punctual timers the abort comes at least one and at most two idle periods after the last move. */
  lemma PunctualBound(s: Session, k: nat)
    requires Coherent(s) && s.late == 0.0 && Silent(s, k) && (k > 0 ==> !Silent(s, k - 1))
    ensures LastOf(s, s.sees(k)) + s.idle <= s.fires(k + 1) <= LastOf(s, s.sees(k)) + 2.0 * s.idle
    ensures s.fires(k + 1) == LastOf(s, s.sees(k)) + s.idle <==> LastOf(s, s.sees(k)) == s.fires(k)
  {
    SilentIsGap(s, k);
    LastIsRecent(s, k);
    assert s.fires(k) + s.idle <= s.fires(k + 1) <= s.fires(k) + s.idle + s.late;
    assert Counts(s, k);
    FiresAfterStart(s, k);
  }

  /** Check `k` of a punctual timer. */
  function Due(idle: real, k: nat): real {
    if k == 0 then 0.0 else Due(idle, k - 1) + idle
  }

  lemma {:induction false} DueLater(idle: real, k: nat)
    requires idle > 0.0 && k > 0
    ensures Due(idle, k) >= idle
  {
    if k > 1 {
      DueLater(idle, k - 1);
    }
  }

  /** One byte, moving at the instant of the first check after the start and counted by it; then silence. */
  function OneByteOnTheDot(idle: real): Session {
    Session(idle, 0.0, (i: nat) => idle, Some(1), None, (k: nat) => Due(idle, k), (k: nat) => if k == 0 then 0 else 1)
  }

  lemma OnTheDotIsCoherent(idle: real)
    requires idle > 0.0
    ensures Coherent(OneByteOnTheDot(idle))
  {
    var s := OneByteOnTheDot(idle);
    forall k: nat ensures Counts(s, k) {
      if k > 0 {
        DueLater(idle, k);
      }
    }
    assert forall k: nat :: s.fires(k + 1) == s.fires(k) + s.idle;
  }

  /** The lower bound is reached: the session is aborted exactly one idle period after its byte. */
  method AbortedOnTheDot(idle: real) returns (r: Outcome, ghost counted: nat)
    requires idle > 0.0
    ensures counted == 1 && LastOf(OneByteOnTheDot(idle), counted) == idle && r == IdleAborted(idle + idle)
  {
    var s := OneByteOnTheDot(idle);
    OnTheDotIsCoherent(idle);
    r, counted := CopyWithIdleTimeout(s, 2);
    ghost var k: nat :| Silent(s, k) && r.at == s.fires(k + 1) && counted == s.sees(k);
    SecondWindowIsSilent(idle, k);
  }

  /** Its second window is the first silent one, and every later check comes later. */
  lemma SecondWindowIsSilent(idle: real, k: nat)
    requires idle > 0.0 && Silent(OneByteOnTheDot(idle), k)
    ensures var s := OneByteOnTheDot(idle);
            && k > 0 && Silent(s, 1) && s.fires(2) == idle + idle && (k > 1 ==> s.fires(k + 1) > s.fires(2))
  {
    assert Due(idle, 1) == idle;
    if k > 1 {
      DueLater(idle, k - 1);
      assert Due(idle, k + 1) == Due(idle, k - 1) + idle + idle;
    }
  }

  /** A session whose gaps stay below `idle` is never aborted, however long it is watched, until it finishes. */
  method BusySessionIsNeverAborted(s: Session, checks: nat) returns (r: Outcome)
    requires Coherent(s)
    requires forall t :: (s.finish.Some? ==> t < s.finish.value) ==> GapsBelowIdle(s, t)
    ensures r == Open || (s.finish.Some? && r == Finished(s.finish.value))
  {
    ghost var counted;
    r, counted := CopyWithIdleTimeout(s, checks);
  }
}
