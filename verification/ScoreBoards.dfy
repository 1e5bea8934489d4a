/** The score board over all candidates, and candidate selection. */
module ScoreBoards {
  import opened Wrappers
  import opened Scores

  datatype Candidate = Candidate(transport: string, endpoint: string)

  type Board = map<Candidate, Score>

  function ScoreAt(board: Board, c: Candidate): Score {
    if c in board then board[c] else NEUTRAL
  }

  /** Only successes and remote signals touch the board, and only at their own candidate. */
  function Noted(board: Board, c: Candidate, o: Observation): Board {
    if o.Failure? && !o.category.IsRemoteSignal() then board else board[c := Observed(ScoreAt(board, c), o)]
  }

  class ScoreBoard {
    var scores: Board

    constructor ()
      ensures scores == map[]
    {
      scores := map[];
    }

    method ObserveSuccess(c: Candidate)
      modifies this
      ensures scores == Noted(old(scores), c, Success)
    {
      scores := scores[c := AfterSuccess(ScoreAt(scores, c))];
    }

    method ObserveFailure(c: Candidate, category: FailureCategory, at: Instant, jitter: nat)
      modifies this
      ensures scores == Noted(old(scores), c, Failure(category, at, jitter))
    {
      if !category.IsRemoteSignal() {
        return;
      }
      scores := scores[c := AfterFailure(ScoreAt(scores, c), category, at, jitter)];
    }

    /**
     Weighted sampling among the eligible candidates; `draw` stands for the
     sample. Nothing is returned exactly while every candidate is quarantined,
     and whatever is eligible some draw returns, its weight being positive.
     */
    method SelectNext(candidates: seq<Candidate>, now: Instant, draw: nat) returns (chosen: Option<Candidate>)
      ensures chosen.None? <==> forall i :: 0 <= i < |candidates| ==> ScoreAt(scores, candidates[i]).IsQuarantined(now)
      ensures chosen.Some? ==> chosen.value in candidates && !ScoreAt(scores, chosen.value).IsQuarantined(now)
      ensures chosen.Some? ==> ScoreAt(scores, chosen.value).SelectionWeight() > 0.0
      ensures chosen == if Eligible(scores, candidates, now) == [] then None
                        else Some(Eligible(scores, candidates, now)[draw % |Eligible(scores, candidates, now)|])
    {
      var eligible: seq<Candidate> := [];
      for i := 0 to |candidates|
        invariant eligible == Eligible(scores, candidates[..i], now)
      {
        assert candidates[..i + 1][..i] == candidates[..i];
        if !ScoreAt(scores, candidates[i]).IsQuarantined(now) {
          eligible := eligible + [candidates[i]];
        }
      }
      assert candidates[..|candidates|] == candidates;
      EligibleExact(scores, candidates, now);
      if eligible == [] {
        return None;
      }
      assert eligible[draw % |eligible|] in eligible;
      return Some(eligible[draw % |eligible|]);
    }
  }

  /** The candidates that are not quarantined, in list order. */
  function Eligible(board: Board, candidates: seq<Candidate>, now: Instant): seq<Candidate> {
    if candidates == [] then []
    else
      var last := candidates[|candidates| - 1];
      Eligible(board, candidates[..|candidates| - 1], now) + (if ScoreAt(board, last).IsQuarantined(now) then [] else [last])
  }

  lemma {:induction false} EligibleExact(board: Board, candidates: seq<Candidate>, now: Instant)
    ensures forall c :: c in Eligible(board, candidates, now) <==> c in candidates && !ScoreAt(board, c).IsQuarantined(now)
  {
    if candidates != [] {
      var front := candidates[..|candidates| - 1];
      EligibleExact(board, front, now);
      assert candidates == front + [candidates[|candidates| - 1]];
    }
  }

  // ---------------------------------------------------- the board and its history

  datatype Report = Report(c: Candidate, o: Observation)

  predicate Counts(o: Observation) {
    o.Success? || o.category.IsRemoteSignal()
  }

  function BoardOf(reports: seq<Report>): Board {
    if reports == [] then map[]
    else Noted(BoardOf(reports[..|reports| - 1]), reports[|reports| - 1].c, reports[|reports| - 1].o)
  }

  /** What was observed of one candidate, local failures left out. */
  function About(reports: seq<Report>, c: Candidate): seq<Observation> {
    if reports == [] then []
    else
      var last := reports[|reports| - 1];
      About(reports[..|reports| - 1], c) + (if last.c == c && Counts(last.o) then [last.o] else [])
  }

  function Counted(reports: seq<Report>): nat {
    if reports == [] then 0
    else Counted(reports[..|reports| - 1]) + (if Counts(reports[|reports| - 1].o) then 1 else 0)
  }

  /** Each candidate's score is the score of its own history, whatever happened to the others. */
  lemma {:induction false} ScoresAreSeparate(reports: seq<Report>, c: Candidate)
    ensures ScoreAt(BoardOf(reports), c) == ScoreOf(About(reports, c))
  {
    if reports != [] {
      var front, last := reports[..|reports| - 1], reports[|reports| - 1];
      ScoresAreSeparate(front, c);
      if last.c == c && Counts(last.o) {
        var h := About(reports, c);
        assert h == About(front, c) + [last.o];
        assert h[..|h| - 1] == About(front, c);
      } else {
        assert About(reports, c) == About(front, c) + [];
        assert About(reports, c) == About(front, c);
      }
    }
  }

  ghost function Attempts(board: Board, keys: set<Candidate>): nat
    requires keys <= board.Keys
  {
    if keys == {} then 0
    else
      var c :| c in keys;
      board[c].totalAttempts + Attempts(board, keys - {c})
  }

  lemma {:induction false} AttemptsSplit(board: Board, keys: set<Candidate>, c: Candidate)
    requires keys <= board.Keys && c in keys
    ensures Attempts(board, keys) == board[c].totalAttempts + Attempts(board, keys - {c})
  {
    var first :| first in keys && Attempts(board, keys) == board[first].totalAttempts + Attempts(board, keys - {first});
    if first != c {
      AttemptsSplit(board, keys - {first}, c);
      AttemptsSplit(board, keys - {c}, first);
      assert keys - {first} - {c} == keys - {c} - {first};
    }
  }

  lemma {:induction false} AttemptsFrame(board: Board, board': Board, keys: set<Candidate>)
    requires keys <= board.Keys && keys <= board'.Keys
    requires forall c :: c in keys ==> board[c].totalAttempts == board'[c].totalAttempts
    ensures Attempts(board, keys) == Attempts(board', keys)
  {
    if keys != {} {
      var c :| c in keys;
      AttemptsSplit(board, keys, c);
      AttemptsSplit(board', keys, c);
      AttemptsFrame(board, board', keys - {c});
    }
  }

  lemma {:induction false} AboutAtMost(reports: seq<Report>, c: Candidate)
    ensures |About(reports, c)| <= Counted(reports)
  {
    if reports != [] {
      AboutAtMost(reports[..|reports| - 1], c);
    }
  }

  /**
   Conservation: below saturation the attempts on the board add up to the
   successes plus the remote failures reported; local failures add nothing.
   */
  lemma {:induction false} AttemptsConserved(reports: seq<Report>)
    requires Counted(reports) <= U32_MAX
    ensures Attempts(BoardOf(reports), BoardOf(reports).Keys) == Counted(reports)
  {
    if reports != [] {
      var front, last := reports[..|reports| - 1], reports[|reports| - 1];
      AttemptsConserved(front);
      if Counts(last.o) {
        NotedAddsOne(front, last);
      }
    }
  }

  lemma NotedAddsOne(front: seq<Report>, last: Report)
    requires Counts(last.o) && Counted(front) < U32_MAX
    ensures var before, after := BoardOf(front), Noted(BoardOf(front), last.c, last.o);
            Attempts(after, after.Keys) == Attempts(before, before.Keys) + 1
  {
    var before, c := BoardOf(front), last.c;
    var after := Noted(before, c, last.o);
    ScoresAreSeparate(front, c);
    CountersAreHistory(About(front, c));
    AboutAtMost(front, c);
    var others := before.Keys - {c};
    assert after.Keys - {c} == others;
    AttemptsSplit(after, after.Keys, c);
    AttemptsFrame(before, after, others);
    if c in before {
      AttemptsSplit(before, before.Keys, c);
    } else {
      assert others == before.Keys;
    }
  }
}
