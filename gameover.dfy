/** The game-over summary (`setup_game_over_screen`): the best of all Score
    values, starting from 0. Scores are natural numbers. */
module GameOver {

  /** The running best after visiting `scores` in order, as the loop keeps it:
      a later score replaces the best only when strictly greater. */
  function MaxScore(scores: seq<nat>): (m: nat)
    ensures forall i :: 0 <= i < |scores| ==> scores[i] <= m
    ensures m == 0 || m in scores
  {
    if |scores| == 0 then 0
    else
      var best := MaxScore(scores[..|scores| - 1]);
      if scores[|scores| - 1] > best then scores[|scores| - 1] else best
  }

  /** The two properties of MaxScore pin it down: any bound on a sequence that
      is 0 or one of its elements is its maximum. */
  lemma MaxScoreUnique(scores: seq<nat>, m: nat)
    requires forall i :: 0 <= i < |scores| ==> scores[i] <= m
    requires m == 0 || m in scores
    ensures m == MaxScore(scores)
  {
  }

  /** The best score does not depend on the order in which the scores are
      visited. */
  lemma MaxScoreOrderFree(s: seq<nat>, t: seq<nat>)
    requires multiset(s) == multiset(t)
    ensures MaxScore(s) == MaxScore(t)
  {
    var m := MaxScore(s);
    forall i | 0 <= i < |t| ensures t[i] <= m {
      assert t[i] in multiset(t);
      assert t[i] in s;
    }
    if m != 0 {
      assert m in multiset(s);
      assert m in t;
    }
    MaxScoreUnique(t, m);
  }

  /** The loop of `setup_game_over_screen`. */
  method BestScore(scores: seq<nat>) returns (best: nat)
    ensures forall i :: 0 <= i < |scores| ==> scores[i] <= best
    ensures best == 0 || best in scores
    ensures best == MaxScore(scores)
  {
    best := 0;
    for i := 0 to |scores|
      invariant best == MaxScore(scores[..i])
    {
      assert scores[..i + 1][..i] == scores[..i];
      if scores[i] > best {
        best := scores[i];
      }
    }
    assert scores[..|scores|] == scores;
  }
}
