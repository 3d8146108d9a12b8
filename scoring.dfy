/** The Score of one run of the randomised planner (planned fraction, mean
    priority, mean cloud probability of the planned windows), the linear
    comparison isBetterThan, and the best-of-N selection of main. */
module Scoring {
  import opened Problem

  datatype Score = Score(run: int, plannedFraction: real, meanPriority: real, meanCloudProba: real)

  /** The Score(run) constructor: an unreachably bad score. */
  function InitialScore(run: int): Score
  {
    Score(run, 0.0, 1000.0, 1000.0)
  }

  /** Every planned window, satellite by satellite, each plan in its order. */
  function AllPlanned(W: seq<seq<Window>>): seq<Window>
    decreases |W|
  {
    if W == [] then [] else AllPlanned(W[..|W| - 1]) + W[|W| - 1]
  }

  function Priority(w: Window): real { w.priority as real }

  function Cloud(w: Window): real { w.cloudProba }

  /** The sum of f over ws, accumulated from the front. */
  function Sum(ws: seq<Window>, f: Window -> real): real
    decreases |ws|
  {
    if ws == [] then 0.0 else Sum(ws[..|ws| - 1], f) + f(ws[|ws| - 1])
  }

  /** getScore on the plans' window lists W.  With nothing planned the
      means would be 0/0; the default score stands in for that case. */
  function ScoreOf(W: seq<seq<Window>>, nCandidates: nat, run: int): Score
    requires |AllPlanned(W)| > 0 ==> nCandidates > 0
  {
    var ws := AllPlanned(W);
    var n := |ws| as real;
    if |ws| == 0 then InitialScore(run)
    else Score(run, n / nCandidates as real, Sum(ws, Priority) / n, Sum(ws, Cloud) / n)
  }

  /** The inner loop of getScore, over the windows of one plan, continuing
      the count and the sums over the windows before it. */
  method AddPlan(acqWindows: seq<Window>, ghost before: seq<Window>, numberPlanned: nat, sumPriority: real, sumCloudProba: real)
    returns (numberPlanned': nat, sumPriority': real, sumCloudProba': real)
    requires numberPlanned == |before| && sumPriority == Sum(before, Priority) && sumCloudProba == Sum(before, Cloud)
    ensures numberPlanned' == |before + acqWindows|
    ensures sumPriority' == Sum(before + acqWindows, Priority) && sumCloudProba' == Sum(before + acqWindows, Cloud)
  {
    numberPlanned', sumPriority', sumCloudProba' := numberPlanned, sumPriority, sumCloudProba;
    assert before + acqWindows[..0] == before;
    for j := 0 to |acqWindows|
      invariant numberPlanned' == |before| + j
      invariant sumPriority' == Sum(before + acqWindows[..j], Priority)
      invariant sumCloudProba' == Sum(before + acqWindows[..j], Cloud)
    {
      var aw := acqWindows[j];
      assert before + acqWindows[..j + 1] == (before + acqWindows[..j]) + [aw];
      numberPlanned' := numberPlanned' + 1;
      sumPriority' := sumPriority' + aw.priority as real;
      sumCloudProba' := sumCloudProba' + aw.cloudProba;
    }
    assert acqWindows[..|acqWindows|] == acqWindows;
  }

  /** A sum of values between lo and hi lies between |ws|·lo and |ws|·hi. */
  lemma {:induction false} SumBounds(ws: seq<Window>, f: Window -> real, lo: real, hi: real)
    requires forall i :: 0 <= i < |ws| ==> lo <= f(ws[i]) <= hi
    ensures (|ws| as real) * lo <= Sum(ws, f) <= (|ws| as real) * hi
    decreases |ws|
  {
    if ws != [] {
      var pre := ws[..|ws| - 1];
      assert forall i :: 0 <= i < |pre| ==> pre[i] == ws[i];
      SumBounds(pre, f, lo, hi);
      assert (|ws| as real) * lo == (|pre| as real) * lo + lo;
      assert (|ws| as real) * hi == (|pre| as real) * hi + hi;
    }
  }

  lemma MeanBounds(a: real, n: real, lo: real, hi: real)
    requires n > 0.0 && n * lo <= a <= n * hi
    ensures lo <= a / n <= hi
  {
  }

  /** When something is planned, no more windows than there are candidates,
      and priorities and cloud probabilities lie between 0 and 1, the three
      components of the score lie between 0 and 1 (the planned fraction
      above 0). */
  lemma ScoreRanges(W: seq<seq<Window>>, nCandidates: nat, run: int)
    requires 0 < |AllPlanned(W)| <= nCandidates
    requires forall i :: 0 <= i < |AllPlanned(W)| ==>
      0 <= AllPlanned(W)[i].priority <= 1 && 0.0 <= AllPlanned(W)[i].cloudProba <= 1.0
    ensures var s := ScoreOf(W, nCandidates, run);
      && 0.0 < s.plannedFraction <= 1.0
      && 0.0 <= s.meanPriority <= 1.0
      && 0.0 <= s.meanCloudProba <= 1.0
  {
    var ws := AllPlanned(W);
    var n, m := |ws| as real, nCandidates as real;
    var sp, sc := Sum(ws, Priority), Sum(ws, Cloud);
    assert 0.0 <= sp / n <= 1.0 by {
      SumBounds(ws, Priority, 0.0, 1.0);
      MeanBounds(sp, n, 0.0, 1.0);
    }
    assert 0.0 <= sc / n <= 1.0 by {
      SumBounds(ws, Cloud, 0.0, 1.0);
      MeanBounds(sc, n, 0.0, 1.0);
    }
    assert 0.0 < n / m <= 1.0 by {
      MeanBounds(n, m, 0.0, 1.0);
    }
    assert ScoreOf(W, nCandidates, run) == Score(run, n / m, sp / n, sc / n);
  }

  // ---------------------------------------------------------------------
  // Comparing scores
  // ---------------------------------------------------------------------

  /** total_delta: positive when s1 is better than s2. */
  function Delta(s1: Score, s2: Score): real
  {
    (s1.plannedFraction - s2.plannedFraction)
      + -(s1.meanPriority - s2.meanPriority)
      + -(s1.meanCloudProba - s2.meanCloudProba)
  }

  predicate IsBetterThan(s1: Score, s2: Score)
  {
    Delta(s1, s2) > 0.0
  }

  /** The linear merit that isBetterThan compares. */
  function Merit(s: Score): real
  {
    s.plannedFraction - s.meanPriority - s.meanCloudProba
  }

  /** isBetterThan compares merits: it holds exactly when the first merit is
      strictly larger. */
  lemma BetterIffMerit(s1: Score, s2: Score)
    ensures IsBetterThan(s1, s2) <==> Merit(s1) > Merit(s2)
  {
  }

  /** isBetterThan is a strict order: irreflexive, asymmetric, transitive. */
  lemma BetterStrictOrder(s1: Score, s2: Score, s3: Score)
    ensures !IsBetterThan(s1, s1)
    ensures IsBetterThan(s1, s2) ==> !IsBetterThan(s2, s1)
    ensures IsBetterThan(s1, s2) && IsBetterThan(s2, s3) ==> IsBetterThan(s1, s3)
  {
  }

  /** The bound stated beside total_delta: between -3 and 3 for scores whose
      components all lie between 0 and 1. */
  lemma DeltaRange(s1: Score, s2: Score)
    requires 0.0 <= s1.plannedFraction <= 1.0 && 0.0 <= s1.meanPriority <= 1.0 && 0.0 <= s1.meanCloudProba <= 1.0
    requires 0.0 <= s2.plannedFraction <= 1.0 && 0.0 <= s2.meanPriority <= 1.0 && 0.0 <= s2.meanCloudProba <= 1.0
    ensures -3.0 <= Delta(s1, s2) <= 3.0
  {
  }

  // ---------------------------------------------------------------------
  // Best of N runs
  // ---------------------------------------------------------------------

  /** The best-of-N loop of main over the scores of the runs, in run order,
      starting from Score(-1): the position of the run that holds the best
      score at the end, or None when no run beat the initial score. */
  function BestRun(scores: seq<Score>): (r: Option<nat>)
    ensures r.Some? ==> r.value < |scores|
    decreases |scores|
  {
    if scores == [] then None
    else
      var k := |scores| - 1;
      var b := BestRun(scores[..k]);
      var best := if b.Some? then scores[b.value] else InitialScore(-1);
      if IsBetterThan(scores[k], best) then Some(k) else b
  }

  /** best_score after the loop. */
  function BestScore(scores: seq<Score>): Score
  {
    match BestRun(scores)
    case None => InitialScore(-1)
    case Some(i) => scores[i]
  }

  /** The loop keeps the first run of maximal merit, provided it beats the
      initial score: every earlier run is strictly worse and no later run is
      better; when no run beats the initial score none is kept. */
  lemma {:induction false} BestRunFirstMaximiser(scores: seq<Score>)
    ensures match BestRun(scores)
      case None => forall j :: 0 <= j < |scores| ==> Merit(scores[j]) <= Merit(InitialScore(-1))
      case Some(i) =>
        && Merit(scores[i]) > Merit(InitialScore(-1))
        && (forall j :: 0 <= j < i ==> Merit(scores[j]) < Merit(scores[i]))
        && (forall j :: i < j < |scores| ==> Merit(scores[j]) <= Merit(scores[i]))
    decreases |scores|
  {
    if scores != [] {
      var k := |scores| - 1;
      var pre := scores[..k];
      BestRunFirstMaximiser(pre);
      assert forall j :: 0 <= j < k ==> pre[j] == scores[j];
    }
  }

  /** The best score's merit is at least that of every run and of the
      initial score. */
  lemma BestScoreMaximal(scores: seq<Score>)
    ensures Merit(BestScore(scores)) >= Merit(InitialScore(-1))
    ensures forall j :: 0 <= j < |scores| ==> Merit(scores[j]) <= Merit(BestScore(scores))
  {
    BestRunFirstMaximiser(scores);
  }
}
