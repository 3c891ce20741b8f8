/**
 * The selection rule shared by both matchers (`find_person` in the current
 * back end, `find_profile` in the legacy one).  Only records whose date of
 * birth equals the query's are candidates; each candidate is scored; the
 * first candidate of highest score wins, and is accepted only when its
 * score reaches the threshold.  Here the candidates are marked by
 * `eligible` and scored by `scores`, position by position.
 */
module Matching {
  import opened Wrappers

  /** `best_score >= 2`: a name match alone, or an email and a phone match together. */
  const AcceptScore := 2

  /** Position `i` is, among the first `n`, the first eligible one of highest score. */
  predicate IsFirstBestUpTo(eligible: seq<bool>, scores: seq<int>, n: nat, i: nat)
    requires |eligible| == |scores| && n <= |scores|
  {
    && i < n && eligible[i]
    && (forall j :: 0 <= j < n && eligible[j] ==> scores[j] <= scores[i])
    && (forall j :: 0 <= j < i && eligible[j] ==> scores[j] < scores[i])
  }

  /** What a matcher must return: the first best candidate if it scores enough, otherwise nothing. */
  predicate Chooses(eligible: seq<bool>, scores: seq<int>, r: Option<nat>)
    requires |eligible| == |scores|
  {
    match r
    case Some(i) => IsFirstBestUpTo(eligible, scores, |scores|, i) && scores[i] >= AcceptScore
    case None => forall j :: 0 <= j < |scores| && eligible[j] ==> scores[j] < AcceptScore
  }

  /**
   * The running `best` after the first `n` records: a later candidate replaces
   * the current best only with a strictly higher score.
   */
  function BestIn(eligible: seq<bool>, scores: seq<int>, n: nat): (r: Option<nat>)
    requires |eligible| == |scores| && n <= |scores|
    ensures r.None? <==> forall j :: 0 <= j < n ==> !eligible[j]
    ensures r.Some? ==> IsFirstBestUpTo(eligible, scores, n, r.value)
  {
    if n == 0 then None
    else
      var prev := BestIn(eligible, scores, n - 1);
      if !eligible[n - 1] then prev
      else if prev.None? || scores[n - 1] > scores[prev.value] then Some(n - 1)
      else prev
  }

  /** One step of the scoring loop. */
  lemma BestInStep(eligible: seq<bool>, scores: seq<int>, n: nat)
    requires |eligible| == |scores| && n < |scores|
    ensures var prev := BestIn(eligible, scores, n);
      BestIn(eligible, scores, n + 1) ==
        if !eligible[n] then prev
        else if prev.None? || scores[n] > scores[prev.value] then Some(n)
        else prev
  {
  }

  /** The matcher's answer: the running best, kept only when it reaches the threshold. */
  function Select(eligible: seq<bool>, scores: seq<int>): (r: Option<nat>)
    requires |eligible| == |scores|
    ensures Chooses(eligible, scores, r)
  {
    match BestIn(eligible, scores, |scores|)
    case Some(i) => if scores[i] >= AcceptScore then Some(i) else None
    case None => None
  }

  /** There is only one right answer. */
  lemma ChoiceUnique(eligible: seq<bool>, scores: seq<int>, r1: Option<nat>, r2: Option<nat>)
    requires |eligible| == |scores|
    requires Chooses(eligible, scores, r1) && Chooses(eligible, scores, r2)
    ensures r1 == r2
  {
  }

  /** A candidate reaching the threshold guarantees a match, though not necessarily that one. */
  lemma HighScoreMatches(eligible: seq<bool>, scores: seq<int>, i: nat)
    requires |eligible| == |scores| && i < |scores| && eligible[i] && scores[i] >= AcceptScore
    ensures Select(eligible, scores).Some?
    ensures scores[Select(eligible, scores).value] >= scores[i]
  {
  }

  /** The first candidate whose score no other candidate reaches is the one chosen. */
  lemma UniqueBestChosen(eligible: seq<bool>, scores: seq<int>, i: nat)
    requires |eligible| == |scores| && i < |scores| && eligible[i] && scores[i] >= AcceptScore
    requires forall j :: 0 <= j < |scores| && j != i && eligible[j] ==> scores[j] < scores[i]
    ensures Select(eligible, scores) == Some(i)
  {
    var r := Select(eligible, scores);
    assert Chooses(eligible, scores, Some(i));
    ChoiceUnique(eligible, scores, r, Some(i));
  }
}
