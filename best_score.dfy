/**
 * The best-score tracker of the trainer: the running extremum `best_score`
 * that `_is_best_epoch` maintains, kept as a maximum when
 * `save_max_metric_score` is set and as a minimum otherwise.
 */
module BestScore {
  import opened Scores

  /**
   * `score` is at least as good as `best` in the given mode: `score >= best`
   * when keeping a maximum, `score <= best` when keeping a minimum. Ties
   * count as good.
   */
  predicate AtLeastAsGood(maxMode: bool, score: Score, best: Score) {
    if maxMode then Ge(score, best) else Le(score, best)
  }

  lemma AtLeastAsGoodReflexive(maxMode: bool, a: Score)
    ensures AtLeastAsGood(maxMode, a, a)
  {
    LeReflexive(a);
  }

  lemma AtLeastAsGoodTransitive(maxMode: bool, a: Score, b: Score, c: Score)
    requires AtLeastAsGood(maxMode, a, b) && AtLeastAsGood(maxMode, b, c)
    ensures AtLeastAsGood(maxMode, a, c)
  {
    if maxMode { LeTransitive(c, b, a); } else { LeTransitive(a, b, c); }
  }

  /**
   * The best score a trainer starts with: -inf when keeping a maximum and
   * +inf when keeping a minimum, so every score is at least as good as it
   * and the first validated epoch is always a best epoch.
   */
  function InitialBest(maxMode: bool): (b: Score)
    ensures forall s :: AtLeastAsGood(maxMode, s, b)
    ensures forall s :: AtLeastAsGood(maxMode, b, s) ==> s == b
  {
    if maxMode then NegInf else PosInf
  }

  /**
   * The best score after one `_is_best_epoch(score)` call: the better of the
   * old best and the new score, preferring the new score on a tie.
   */
  function NextBest(maxMode: bool, score: Score, best: Score): (r: Score)
    ensures AtLeastAsGood(maxMode, r, best) && AtLeastAsGood(maxMode, r, score)
    ensures r == score || r == best
    ensures AtLeastAsGood(maxMode, score, best) ==> r == score
    ensures !AtLeastAsGood(maxMode, score, best) ==> r == best
  {
    LeTotal(score, best);
    LeReflexive(score);
    if AtLeastAsGood(maxMode, score, best) then score else best
  }

  /**
   * The best score after `_is_best_epoch` has been called on each of `scores`
   * in order: never worse than where it started, and either that start or
   * one of the scores.
   */
  function Track(maxMode: bool, best: Score, scores: seq<Score>): (r: Score)
    decreases |scores|
    ensures AtLeastAsGood(maxMode, r, best)
    ensures r == best || r in scores
  {
    if scores == [] then
      AtLeastAsGoodReflexive(maxMode, best);
      best
    else
      var next := NextBest(maxMode, scores[0], best);
      var r := Track(maxMode, next, scores[1..]);
      AtLeastAsGoodTransitive(maxMode, r, next, best);
      assert r != next ==> r in scores[1..];
      r
  }

  /** Calling on `xs` and then on `ys` is calling on `xs + ys`. */
  lemma {:induction false} TrackSplit(maxMode: bool, best: Score, xs: seq<Score>, ys: seq<Score>)
    ensures Track(maxMode, best, xs + ys) == Track(maxMode, Track(maxMode, best, xs), ys)
    decreases |xs|
  {
    if xs == [] {
      assert xs + ys == ys;
    } else {
      assert (xs + ys)[0] == xs[0];
      assert (xs + ys)[1..] == xs[1..] + ys;
      TrackSplit(maxMode, NextBest(maxMode, xs[0], best), xs[1..], ys);
    }
  }

  /**
   * Across any sequence of calls the best score is monotone: never decreasing
   * when keeping a maximum, never increasing when keeping a minimum.
   */
  lemma {:induction false} TrackMonotone(maxMode: bool, best: Score, scores: seq<Score>, i: nat, j: nat)
    requires i <= j <= |scores|
    ensures AtLeastAsGood(maxMode, Track(maxMode, best, scores[..j]), Track(maxMode, best, scores[..i]))
  {
    assert scores[..j] == scores[..i] + scores[i..j];
    TrackSplit(maxMode, best, scores[..i], scores[i..j]);
  }

  /**
   * The tracked best is the extremum of the starting best and all scores
   * seen: at least as good as every score (and, by the contract of `Track`,
   * as the start, and equal to one of them).
   */
  lemma {:induction false} TrackIsExtremum(maxMode: bool, best: Score, scores: seq<Score>)
    ensures forall i :: 0 <= i < |scores| ==> AtLeastAsGood(maxMode, Track(maxMode, best, scores), scores[i])
    decreases |scores|
  {
    if scores != [] {
      var next := NextBest(maxMode, scores[0], best);
      var r := Track(maxMode, next, scores[1..]);
      TrackIsExtremum(maxMode, next, scores[1..]);
      AtLeastAsGoodTransitive(maxMode, r, next, scores[0]);
      forall i | 0 <= i < |scores|
        ensures AtLeastAsGood(maxMode, r, scores[i])
      {
        if i > 0 { assert scores[i] == scores[1..][i - 1]; }
      }
    }
  }

  /**
   * From the initial -inf/+inf, the best score after at least one validation
   * is one of the validated scores: the initial value never survives.
   */
  lemma {:induction false} TrackFromInitialIsAScore(maxMode: bool, scores: seq<Score>)
    requires scores != []
    ensures Track(maxMode, InitialBest(maxMode), scores) in scores
  {
    var next := NextBest(maxMode, scores[0], InitialBest(maxMode));
    assert next == scores[0];
    var r := Track(maxMode, next, scores[1..]);
    if r != next { assert r in scores[1..]; }
  }
}
