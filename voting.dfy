/**
 * Majority voting over judges and the choice of the best suggestion.
 * Scores are reals: the float arithmetic of the average is not modelled
 * bit for bit.
 */
module Voting {
  import opened Wrappers

  /** `sum(votes)`: how many votes are true. */
  function CountTrue(votes: seq<bool>): (n: nat)
    ensures n <= |votes|
  {
    if votes == [] then 0 else CountTrue(votes[..|votes| - 1]) + (if votes[|votes| - 1] then 1 else 0)
  }

  /** `majority_vote`: no votes is false; otherwise the true votes must be more than half of them. */
  function MajorityVote(votes: seq<bool>): (r: bool)
    ensures r <==> votes != [] && CountTrue(votes) > |votes| - CountTrue(votes)
  {
    if votes == [] then false else CountTrue(votes) as real > |votes| as real / 2.0
  }

  /** Each vote flipped. */
  function Negated(votes: seq<bool>): (r: seq<bool>)
    ensures |r| == |votes|
  {
    seq(|votes|, i requires 0 <= i < |votes| => !votes[i])
  }

  lemma {:induction false} CountNegated(votes: seq<bool>)
    ensures CountTrue(Negated(votes)) == |votes| - CountTrue(votes)
  {
    if votes != [] {
      var init := votes[..|votes| - 1];
      CountNegated(init);
      assert Negated(votes)[..|votes| - 1] == Negated(init);
    }
  }

  /** A majority is strict: exactly half the votes true is no majority, and so is a unanimous no. */
  lemma {:induction false} MajorityIsStrict(votes: seq<bool>)
    ensures MajorityVote(votes) <==> votes != [] && 2 * CountTrue(votes) > |votes|
    ensures 2 * CountTrue(votes) == |votes| ==> !MajorityVote(votes)
  {
  }

  /** A vote and its negation cannot both carry a majority; with an odd number of votes exactly one does. */
  lemma {:induction false} MajorityOfNegation(votes: seq<bool>)
    ensures !(MajorityVote(votes) && MajorityVote(Negated(votes)))
    ensures |votes| % 2 == 1 ==> (MajorityVote(votes) <==> !MajorityVote(Negated(votes)))
  {
    CountNegated(votes);
  }

  /** Unanimity decides: all true (and at least one vote) is a majority, all false is not. */
  lemma {:induction false} MajorityUnanimous(votes: seq<bool>)
    ensures (forall i :: 0 <= i < |votes| ==> votes[i]) ==> CountTrue(votes) == |votes|
    ensures (forall i :: 0 <= i < |votes| ==> !votes[i]) ==> CountTrue(votes) == 0
    ensures votes != [] && (forall i :: 0 <= i < |votes| ==> votes[i]) ==> MajorityVote(votes)
    ensures (forall i :: 0 <= i < |votes| ==> !votes[i]) ==> !MajorityVote(votes)
  {
    if votes != [] {
      var init := votes[..|votes| - 1];
      MajorityUnanimous(init);
      assert forall i :: 0 <= i < |init| ==> init[i] == votes[i];
    }
  }

  /** Turning one vote to true never loses a majority. */
  lemma {:induction false} MajorityMonotone(votes: seq<bool>, k: nat)
    requires k < |votes|
    ensures CountTrue(votes[k := true]) >= CountTrue(votes)
    ensures MajorityVote(votes) ==> MajorityVote(votes[k := true])
  {
    var init := votes[..|votes| - 1];
    if k < |votes| - 1 {
      MajorityMonotone(init, k);
      assert votes[k := true][..|votes| - 1] == init[k := true];
    } else {
      assert votes[k := true][..|votes| - 1] == init;
    }
  }

  /** The sum of the scores. */
  function SumScores(scores: seq<real>): real {
    if scores == [] then 0.0 else SumScores(scores[..|scores| - 1]) + scores[|scores| - 1]
  }

  /** `majority_vote_with_scores`: no judgments is `(false, 0.0)`; otherwise the majority of the votes and the mean score. */
  function MajorityVoteWithScores(judgments: seq<(bool, real)>): (r: (bool, real))
    ensures r.0 ==> judgments != []
    ensures |judgments| == 1 ==> r == judgments[0]
  {
    if judgments == [] then (false, 0.0)
    else
      var votes := seq(|judgments|, i requires 0 <= i < |judgments| => judgments[i].0);
      var scores := seq(|judgments|, i requires 0 <= i < |judgments| => judgments[i].1);
      assert |judgments| == 1 ==> CountTrue(votes) == (if judgments[0].0 then 1 else 0) && SumScores(scores) == judgments[0].1 by {
        if |judgments| == 1 {
          assert votes[..0] == [] && scores[..0] == [];
        }
      }
      (MajorityVote(votes), SumScores(scores) / |scores| as real)
  }

  /** The mean of scores within bounds stays within them. */
  lemma {:induction false} SumScoresBounds(scores: seq<real>, lo: real, hi: real)
    requires forall i :: 0 <= i < |scores| ==> lo <= scores[i] <= hi
    ensures |scores| as real * lo <= SumScores(scores) <= |scores| as real * hi
  {
    if scores != [] {
      var init := scores[..|scores| - 1];
      SumScoresBounds(init, lo, hi);
    }
  }

  /** The vote column decides the verdict, and the mean score lies between the smallest and largest possible score. */
  lemma {:induction false} WithScoresAgrees(judgments: seq<(bool, real)>, lo: real, hi: real)
    requires forall i :: 0 <= i < |judgments| ==> lo <= judgments[i].1 <= hi
    ensures var r := MajorityVoteWithScores(judgments);
      && r.0 == MajorityVote(seq(|judgments|, i requires 0 <= i < |judgments| => judgments[i].0))
      && (judgments != [] ==> lo <= r.1 <= hi)
  {
    if judgments != [] {
      var scores := seq(|judgments|, i requires 0 <= i < |judgments| => judgments[i].1);
      SumScoresBounds(scores, lo, hi);
      var n := |scores| as real;
      assert n * lo <= SumScores(scores) <= n * hi;
      assert lo <= SumScores(scores) / n <= hi by {
        assert SumScores(scores) / n * n == SumScores(scores);
      }
    }
  }

  /**
   * The position `max(suggestions, key=score)` returns: a greatest score,
   * and of those the first, since later equal scores do not replace it.
   */
  function BestIndex<T>(suggestions: seq<T>, score: T -> real): (i: nat)
    requires suggestions != []
    ensures i < |suggestions|
    ensures forall k :: 0 <= k < |suggestions| ==> score(suggestions[k]) <= score(suggestions[i])
    ensures forall k :: 0 <= k < i ==> score(suggestions[k]) < score(suggestions[i])
  {
    if |suggestions| == 1 then 0
    else
      var j := BestIndex(suggestions[..|suggestions| - 1], score);
      if score(suggestions[|suggestions| - 1]) > score(suggestions[j]) then |suggestions| - 1 else j
  }

  /** `select_best_suggestion`: nothing for no suggestions, else the first one with the greatest score. */
  function SelectBestSuggestion<T>(suggestions: seq<T>, score: T -> real): (r: Option<T>)
    ensures r.None? <==> suggestions == []
    ensures r.Some? ==> r.value in suggestions && forall s :: s in suggestions ==> score(s) <= score(r.value)
    ensures r.Some? ==> exists i :: 0 <= i < |suggestions| && suggestions[i] == r.value &&
                                    forall k :: 0 <= k < i ==> score(suggestions[k]) < score(r.value)
  {
    if suggestions == [] then None else Some(suggestions[BestIndex(suggestions, score)])
  }

  /** The first greatest score is a single position: any position that is greatest and first is `BestIndex`. */
  lemma {:induction false} BestIndexUnique<T>(suggestions: seq<T>, score: T -> real, i: nat)
    requires i < |suggestions|
    requires forall k :: 0 <= k < |suggestions| ==> score(suggestions[k]) <= score(suggestions[i])
    requires forall k :: 0 <= k < i ==> score(suggestions[k]) < score(suggestions[i])
    ensures BestIndex(suggestions, score) == i
  {
  }
}
