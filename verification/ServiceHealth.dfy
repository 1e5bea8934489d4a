/** The health gate behind every reload: three consecutive healthy observations in a bounded window. */
module ServiceHealth {

  /** Some three consecutive observations were healthy. */
  ghost predicate HeldUp(observations: seq<bool>) {
    exists i :: 0 <= i <= |observations| - 3 && observations[i] && observations[i + 1] && observations[i + 2]
  }

  /** The healthy observations at the end of `s`. */
  function TrailingHealthy(s: seq<bool>): nat {
    if s == [] || !s[|s| - 1] then 0 else 1 + TrailingHealthy(s[..|s| - 1])
  }

  lemma {:induction false} TrailingHealthyBound(s: seq<bool>)
    ensures TrailingHealthy(s) <= |s|
    ensures forall i :: |s| - TrailingHealthy(s) <= i < |s| ==> s[i]
    ensures TrailingHealthy(s) < |s| ==> !s[|s| - 1 - TrailingHealthy(s)]
  {
    if s != [] && s[|s| - 1] {
      TrailingHealthyBound(s[..|s| - 1]);
    }
  }

  /** A longer record holds up if the shorter did, or its last three observations are healthy. */
  lemma HeldUpGrows(s: seq<bool>)
    requires s != []
    ensures HeldUp(s) <==> HeldUp(s[..|s| - 1]) || (|s| >= 3 && s[|s| - 1] && s[|s| - 2] && s[|s| - 3])
  {
    var front := s[..|s| - 1];
    if k :| 0 <= k <= |s| - 3 && s[k] && s[k + 1] && s[k + 2] {
      if k + 3 < |s| {
        assert front[k] && front[k + 1] && front[k + 2];
      }
    }
    if k :| 0 <= k <= |front| - 3 && front[k] && front[k + 1] && front[k + 2] {
      assert s[k] && s[k + 1] && s[k + 2];
    }
    if |s| >= 3 && s[|s| - 1] && s[|s| - 2] && s[|s| - 3] {
      var k := |s| - 3;
      assert s[k] && s[k + 1] && s[k + 2];
    }
  }

  /**
   `reload_and_verify`. `reload` answers the reload itself, `observations` are
   the is-active answers of the iterations that begin before the deadline.
   A unit that is only briefly active, or flaps, is not accepted.
   */
  method ReloadAndVerify(reload: bool, observations: seq<bool>) returns (ok: bool)
    ensures ok <==> reload && HeldUp(observations)
  {
    if !reload {
      return false;
    }
    var consecutive := 0;
    for i := 0 to |observations|
      invariant consecutive == TrailingHealthy(observations[..i]) && consecutive < 3
      invariant !HeldUp(observations[..i])
    {
      var seen := observations[..i + 1];
      assert seen[..i] == observations[..i];
      TrailingHealthyBound(observations[..i]);
      if observations[i] {
        consecutive := consecutive + 1;
        if consecutive == 3 {
          assert observations[i - 2] && observations[i - 1] && observations[i];
          return true;
        }
      } else {
        consecutive := 0;
      }
      TrailingHealthyBound(seen);
      HeldUpGrows(seen);
    }
    assert observations[..|observations|] == observations;
    return false;
  }
}
