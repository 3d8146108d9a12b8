/** AcquisitionPlannerGreedySimpleAcquisitionsRandomProcess.  The constructor
    turns every (candidate, window) pair into a single-window copy of the
    candidate, splits the copies into a priority-0 list and a list of every
    other priority, sorts each list by cloud probability and cuts it into one
    subgroup per probability border.  One run of planAcquisitions shuffles
    every subgroup, concatenates them, and commits each copy whose window
    keeps its satellite's plan feasible, dropping the remaining copies of a
    candidate as soon as one of them is committed. */
module RandomProcess {
  import opened Problem
  import opened Sorting
  import opened Timeline
  import opened Insertion
  import opened Fleet
  import opened Selection
  import opened Scoring

  // ---------------------------------------------------------------------
  // Single-window copies
  // ---------------------------------------------------------------------

  /** The copy of candidate c made for its window w: same index and
      priority, w as its only window. */
  function Copy(c: Candidate, w: Window): Candidate
  {
    Candidate(c.idx, c.priority, [w])
  }

  /** The copies of c, one per window, in list order. */
  function Copies(c: Candidate): (r: seq<Candidate>)
    ensures |r| == |c.windows|
  {
    seq(|c.windows|, j requires 0 <= j < |c.windows| => Copy(c, c.windows[j]))
  }

  /** The copies the constructor appends to the priority-0 list (zero) or
      to the list of every other priority (!zero). */
  function Exploded(cs: seq<Candidate>, zero: bool): seq<Candidate>
    decreases |cs|
  {
    if cs == [] then []
    else
      var c := cs[|cs| - 1];
      Exploded(cs[..|cs| - 1], zero) + (if (c.priority == 0) == zero then Copies(c) else [])
  }

  /** The nested loop of the constructor over candidates and their windows. */
  method Explode(cs: seq<Candidate>) returns (p0: seq<Candidate>, p1: seq<Candidate>)
    ensures p0 == Exploded(cs, true) && p1 == Exploded(cs, false)
  {
    p0, p1 := [], [];
    for i := 0 to |cs|
      invariant p0 == Exploded(cs[..i], true) && p1 == Exploded(cs[..i], false)
    {
      var acq := cs[i];
      assert cs[..i + 1][..i] == cs[..i];
      ghost var e0, e1 := p0, p1;
      for j := 0 to |acq.windows|
        invariant acq.priority == 0 ==> p0 == e0 + Copies(acq)[..j] && p1 == e1
        invariant acq.priority != 0 ==> p0 == e0 && p1 == e1 + Copies(acq)[..j]
      {
        var tempAcq := Candidate(acq.idx, acq.priority, [acq.windows[j]]);
        assert Copies(acq)[..j + 1] == Copies(acq)[..j] + [tempAcq];
        if acq.priority == 0 {
          p0 := p0 + [tempAcq];
        } else {
          p1 := p1 + [tempAcq];
        }
      }
      assert Copies(acq)[..|acq.windows|] == Copies(acq);
    }
    assert cs[..|cs|] == cs;
  }

  /** Every copy in a list has the list's priority class and exactly one
      window, which is a window of an input candidate whose index and
      priority the copy keeps. */
  lemma {:induction false} ExplodedFrom(cs: seq<Candidate>, zero: bool)
    ensures forall d :: d in Exploded(cs, zero) ==>
      && (d.priority == 0) == zero && |d.windows| == 1
      && exists c :: c in cs && d == Copy(c, d.windows[0]) && d.windows[0] in c.windows
    decreases |cs|
  {
    if cs != [] {
      var pre, c := cs[..|cs| - 1], cs[|cs| - 1];
      ExplodedFrom(pre, zero);
      forall d | d in Exploded(cs, zero)
        ensures (d.priority == 0) == zero && |d.windows| == 1
        ensures exists c :: c in cs && d == Copy(c, d.windows[0]) && d.windows[0] in c.windows
      {
        if d in Exploded(pre, zero) {
          var c' :| c' in pre && d == Copy(c', d.windows[0]) && d.windows[0] in c'.windows;
          assert c' in cs;
        } else {
          var j :| 0 <= j < |c.windows| && Copies(c)[j] == d;
          assert c.windows[j] in c.windows;
        }
      }
    }
  }

  /** Conversely, every window of an input candidate of the list's priority
      class gives a copy in that list. */
  lemma {:induction false} ExplodedAll(cs: seq<Candidate>, zero: bool)
    ensures forall c, w :: c in cs && w in c.windows && (c.priority == 0) == zero ==> Copy(c, w) in Exploded(cs, zero)
    decreases |cs|
  {
    if cs != [] {
      var pre, last := cs[..|cs| - 1], cs[|cs| - 1];
      ExplodedAll(pre, zero);
      forall c, w | c in cs && w in c.windows && (c.priority == 0) == zero
        ensures Copy(c, w) in Exploded(cs, zero)
      {
        if c != last {
          assert c in pre;
        } else {
          var j :| 0 <= j < |c.windows| && c.windows[j] == w;
          assert Copies(c)[j] == Copy(c, w);
        }
      }
    }
  }

  /** The total number of windows of a list of candidates. */
  function NumWindows(cs: seq<Candidate>): nat
    decreases |cs|
  {
    if cs == [] then 0 else NumWindows(cs[..|cs| - 1]) + |cs[|cs| - 1].windows|
  }

  /** One copy per (candidate, window) pair: the two lists together hold as
      many copies as the candidates have windows. */
  lemma {:induction false} ExplodedCount(cs: seq<Candidate>)
    ensures |Exploded(cs, true)| + |Exploded(cs, false)| == NumWindows(cs)
    decreases |cs|
  {
    if cs != [] {
      ExplodedCount(cs[..|cs| - 1]);
    }
  }

  // ---------------------------------------------------------------------
  // Sorting by cloud probability and cutting into subgroups
  // ---------------------------------------------------------------------

  /** CloudProbaComparator: the cloud probability of a copy's window (every
      copy has one). */
  function CloudKey(d: Candidate): real
  {
    if d.windows == [] then 0.0 else d.windows[0].cloudProba
  }

  /** Each list ends sorted by non-decreasing cloud probability, as a
      permutation of its input, copies of equal cloud probability in their
      input order. */
  lemma CloudOrder(l: seq<Candidate>)
    ensures var s := SortBy(l, CloudKey);
      Sorted(s, CloudKey) && multiset(s) == multiset(l) && SameKeyOrder(s, l, CloudKey)
  {
    SortBySorted(l, CloudKey);
    SortByMultiset(l, CloudKey);
    SortByStable(l, CloudKey);
  }

  /** The inner while loop: from istop, move right while the copy there has
      a cloud probability of at most t and istop < size - 1. */
  function Advance(l: seq<Candidate>, istop: nat, t: real): (r: nat)
    requires istop < |l|
    ensures istop <= r < |l|
    decreases |l| - istop
  {
    if CloudKey(l[istop]) <= t && istop < |l| - 1 then Advance(l, istop + 1, t) else istop
  }

  /** The subgroups of list l for the borders bs, the first starting at
      istart: [istart, istop) for each border in turn, istop becoming the
      next istart.  The source reads l[istop] for every border, so a
      non-empty border list needs a non-empty list. */
  function Cut(l: seq<Candidate>, bs: seq<real>, istart: nat): (r: seq<seq<Candidate>>)
    requires istart <= |l| && (bs != [] ==> istart < |l|)
    ensures |r| == |bs|
    decreases |bs|
  {
    if bs == [] then []
    else
      var istop := Advance(l, istart, bs[0]);
      [l[istart..istop]] + Cut(l, bs[1..], istop)
  }

  /** The istart after the last border. */
  function CutEnd(l: seq<Candidate>, bs: seq<real>, istart: nat): (r: nat)
    requires istart <= |l| && (bs != [] ==> istart < |l|)
    ensures istart <= r <= |l| && (r == |l| ==> bs == [] && r == istart)
    decreases |bs|
  {
    if bs == [] then istart else CutEnd(l, bs[1..], Advance(l, istart, bs[0]))
  }

  /** The subgroup loop for one list. */
  method CutSubgroups(currentList: seq<Candidate>, borders: seq<real>) returns (subgroups: seq<seq<Candidate>>)
    requires borders == [] || currentList != []
    ensures subgroups == Cut(currentList, borders, 0)
  {
    subgroups := [];
    var istart, istop := 0, 0;
    for j := 0 to |borders|
      invariant istart == istop && istart <= |currentList| && (borders != [] ==> istart < |currentList|)
      invariant subgroups + Cut(currentList, borders[j..], istart) == Cut(currentList, borders, 0)
    {
      var probaThreshold := borders[j];
      var simpleAcqSize := |currentList|;
      var stillInSubgroup := true;
      while stillInSubgroup
        invariant istart <= istop < |currentList|
        invariant Advance(currentList, istart, probaThreshold) == Advance(currentList, istop, probaThreshold)
        invariant !stillInSubgroup ==> istop == Advance(currentList, istart, probaThreshold)
        decreases |currentList| - istop, stillInSubgroup
      {
        var proba := CloudKey(currentList[istop]);
        if proba <= probaThreshold {
          if istop < simpleAcqSize - 1 {
            istop := istop + 1;
          } else {
            stillInSubgroup := false;
          }
        } else {
          stillInSubgroup := false;
        }
      }
      var currentSubgroup := if istop == istart then [] else currentList[istart..istop];
      assert currentSubgroup == currentList[istart..istop];
      assert borders[j..][1..] == borders[j + 1..];
      assert Cut(currentList, borders[j..], istart) == [currentSubgroup] + Cut(currentList, borders[j + 1..], istop);
      subgroups := subgroups + [currentSubgroup];
      istart := istop;
    }
  }

  /** Concatenation of a list of lists, as addAll does it. */
  function Concat(gs: seq<seq<Candidate>>): seq<Candidate>
    decreases |gs|
  {
    if gs == [] then [] else Concat(gs[..|gs| - 1]) + gs[|gs| - 1]
  }

  lemma {:induction false} ConcatCons(g: seq<Candidate>, gs: seq<seq<Candidate>>)
    ensures Concat([g] + gs) == g + Concat(gs)
    decreases |gs|
  {
    if gs != [] {
      var pre := gs[..|gs| - 1];
      assert ([g] + gs)[..|gs|] == [g] + pre;
      ConcatCons(g, pre);
    }
  }

  lemma {:induction false} ConcatAppend(a: seq<seq<Candidate>>, b: seq<seq<Candidate>>)
    ensures Concat(a + b) == Concat(a) + Concat(b)
    decreases |b|
  {
    if b != [] {
      var b', x := b[..|b| - 1], b[|b| - 1];
      var ab := a + b;
      assert ab[..|ab| - 1] == a + b' && ab[|ab| - 1] == x;
      assert b[..|b| - 1] == b';
      ConcatAppend(a, b');
    } else {
      assert a + b == a;
    }
  }

  /** The subgroups of a list are adjacent slices: together they are the
      list up to the final istop, which stops short of the last element. */
  lemma {:induction false} CutTiles(l: seq<Candidate>, bs: seq<real>, istart: nat)
    requires istart <= |l| && (bs != [] ==> istart < |l|)
    ensures Concat(Cut(l, bs, istart)) == l[istart..CutEnd(l, bs, istart)]
    decreases |bs|
  {
    if bs != [] {
      var istop := Advance(l, istart, bs[0]);
      ConcatCons(l[istart..istop], Cut(l, bs[1..], istop));
      CutTiles(l, bs[1..], istop);
      assert l[istart..istop] + l[istop..CutEnd(l, bs, istart)] == l[istart..CutEnd(l, bs, istart)];
    }
  }

  /** Every element of a subgroup is an element of the list. */
  lemma CutMembers(l: seq<Candidate>, bs: seq<real>)
    requires bs == [] || l != []
    ensures forall k, x :: 0 <= k < |bs| && x in Cut(l, bs, 0)[k] ==> x in l
  {
    forall k, x | 0 <= k < |bs| && x in Cut(l, bs, 0)[k] ensures x in l {
      CutTiles(l, bs, 0);
      ConcatMembers(Cut(l, bs, 0), k, x);
    }
  }

  lemma ConcatMembers(gs: seq<seq<Candidate>>, k: nat, x: Candidate)
    requires k < |gs| && x in gs[k]
    ensures x in Concat(gs)
  {
    assert gs == gs[..k] + [gs[k]] + gs[k + 1..];
    ConcatAppend(gs[..k] + [gs[k]], gs[k + 1..]);
    ConcatAppend(gs[..k], [gs[k]]);
    assert Concat([gs[k]]) == Concat([]) + gs[k];
  }

  /** Where each istop comes to rest on a sorted list: after the copies of
      cloud probability at most t, but never past the last position. */
  function Stop(l: seq<Candidate>, t: real): nat
    requires Sorted(l, CloudKey) && l != []
  {
    var p := CountAtMost(l, CloudKey, t);
    if p < |l| - 1 then p else |l| - 1
  }

  predicate Ascending(bs: seq<real>)
  {
    forall i, j :: 0 <= i < j < |bs| ==> bs[i] <= bs[j]
  }

  lemma {:induction false} AdvanceSorted(l: seq<Candidate>, istop: nat, t: real)
    requires Sorted(l, CloudKey) && istop < |l|
    ensures Advance(l, istop, t) == if istop <= Stop(l, t) then Stop(l, t) else istop
    decreases |l| - istop
  {
    if CloudKey(l[istop]) <= t && istop < |l| - 1 {
      AdvanceSorted(l, istop + 1, t);
    }
  }

  lemma StopMonotone(l: seq<Candidate>, t: real, t': real)
    requires Sorted(l, CloudKey) && l != [] && t <= t'
    ensures Stop(l, t) <= Stop(l, t')
  {
    CountAtMostMonotone(l, CloudKey, t, t');
  }

  lemma {:induction false} CutBandsFrom(l: seq<Candidate>, bs: seq<real>, istart: nat)
    requires Sorted(l, CloudKey) && l != [] && Ascending(bs) && istart < |l|
    requires bs != [] ==> istart <= Stop(l, bs[0])
    ensures forall k {:trigger Cut(l, bs, istart)[k]} :: 0 <= k < |bs| ==>
      var lo := if k == 0 then istart else Stop(l, bs[k - 1]);
      lo <= Stop(l, bs[k]) && Cut(l, bs, istart)[k] == l[lo..Stop(l, bs[k])]
    decreases |bs|
  {
    if bs != [] {
      AdvanceSorted(l, istart, bs[0]);
      var istop := Stop(l, bs[0]);
      if |bs| > 1 {
        StopMonotone(l, bs[0], bs[1]);
      }
      CutBandsFrom(l, bs[1..], istop);
      forall k | 1 <= k < |bs|
        ensures Stop(l, bs[k - 1]) <= Stop(l, bs[k]) && Cut(l, bs, istart)[k] == l[Stop(l, bs[k - 1])..Stop(l, bs[k])]
      {
        assert bs[1..][k - 1] == bs[k];
        assert Cut(l, bs, istart)[k] == Cut(l, bs[1..], istop)[k - 1];
        if k > 1 {
          assert bs[1..][k - 2] == bs[k - 1];
        }
      }
    }
  }

  /** On a sorted list with ascending borders, subgroup k is exactly the
      slice from where subgroup k - 1 stopped to where the istop of border k
      stops: after the copies of cloud probability at most bs[k], capped at
      the last position. */
  lemma CutBands(l: seq<Candidate>, bs: seq<real>)
    requires Sorted(l, CloudKey) && l != [] && Ascending(bs)
    ensures forall k {:trigger Cut(l, bs, 0)[k]} :: 0 <= k < |bs| ==>
      var lo := if k == 0 then 0 else Stop(l, bs[k - 1]);
      lo <= Stop(l, bs[k]) && Cut(l, bs, 0)[k] == l[lo..Stop(l, bs[k])]
  {
    CutBandsFrom(l, bs, 0);
    forall k | 0 <= k < |bs|
      ensures var lo := if k == 0 then 0 else Stop(l, bs[k - 1]);
        lo <= Stop(l, bs[k]) && Cut(l, bs, 0)[k] == l[lo..Stop(l, bs[k])]
    {
      var subgroup := Cut(l, bs, 0)[k];
    }
  }

  /** Subgroup contents on a sorted list with ascending borders: subgroup 0
      holds cloud probabilities at most bs[0], subgroup k > 0 those in
      (bs[k - 1], bs[k]]; so no copy above the last border is in any
      subgroup. */
  lemma SubgroupBounds(l: seq<Candidate>, bs: seq<real>)
    requires Sorted(l, CloudKey) && l != [] && Ascending(bs)
    ensures forall k, x :: 0 <= k < |bs| && x in Cut(l, bs, 0)[k] ==>
      && CloudKey(x) <= bs[k]
      && (k > 0 ==> CloudKey(x) > bs[k - 1])
      && CloudKey(x) <= bs[|bs| - 1]
  {
    CutBands(l, bs);
    forall k, x | 0 <= k < |bs| && x in Cut(l, bs, 0)[k]
      ensures CloudKey(x) <= bs[k] && (k > 0 ==> CloudKey(x) > bs[k - 1]) && CloudKey(x) <= bs[|bs| - 1]
    {
      BandMember(l, bs, k, x);
    }
  }

  lemma BandMember(l: seq<Candidate>, bs: seq<real>, k: nat, x: Candidate)
    requires Sorted(l, CloudKey) && l != [] && Ascending(bs) && k < |bs|
    requires var lo := if k == 0 then 0 else Stop(l, bs[k - 1]);
      lo <= Stop(l, bs[k]) && x in l[lo..Stop(l, bs[k])]
    ensures CloudKey(x) <= bs[k] && (k > 0 ==> CloudKey(x) > bs[k - 1]) && CloudKey(x) <= bs[|bs| - 1]
  {
    var lo := if k == 0 then 0 else Stop(l, bs[k - 1]);
    var i :| lo <= i < Stop(l, bs[k]) && l[i] == x;
    assert CloudKey(l[i]) <= bs[k];
    if k > 0 {
      assert CloudKey(l[i]) > bs[k - 1];
    }
  }

  /** As written, a copy below every border is still left out when it comes
      last: one copy of cloud probability 0 and the border 0.1 give a single
      empty subgroup. */
  lemma ScenarioCutDropsLast()
    ensures var l := [Candidate(0, 0, [ScenarioWindow(0.0, 10.0, 1.0)])];
      CloudKey(l[0]) <= 0.1 && Cut(l, [0.1], 0) == [[]]
  {
    var l := [Candidate(0, 0, [ScenarioWindow(0.0, 10.0, 1.0)])];
    assert Advance(l, 0, 0.1) == 0;
  }

  /** The inner while loop as the border comment of the parameters evidently
      means it: istop may step past the last copy, so only copies above the
      border stop it. */
  function AdvanceFixed(l: seq<Candidate>, istop: nat, t: real): (r: nat)
    requires istop <= |l|
    ensures istop <= r <= |l|
    decreases |l| - istop
  {
    if istop < |l| && CloudKey(l[istop]) <= t then AdvanceFixed(l, istop + 1, t) else istop
  }

  /** The subgroups cut with the corrected inner loop. */
  function CutFixed(l: seq<Candidate>, bs: seq<real>, istart: nat): (r: seq<seq<Candidate>>)
    requires istart <= |l|
    ensures |r| == |bs|
    decreases |bs|
  {
    if bs == [] then []
    else
      var istop := AdvanceFixed(l, istart, bs[0]);
      [l[istart..istop]] + CutFixed(l, bs[1..], istop)
  }

  /** On a sorted list, the corrected istop rests after the copies of cloud
      probability at most t. */
  lemma {:induction false} AdvanceFixedSorted(l: seq<Candidate>, istop: nat, t: real)
    requires Sorted(l, CloudKey) && istop <= CountAtMost(l, CloudKey, t)
    ensures AdvanceFixed(l, istop, t) == CountAtMost(l, CloudKey, t)
    decreases |l| - istop
  {
    if istop < CountAtMost(l, CloudKey, t) {
      AdvanceFixedSorted(l, istop + 1, t);
    }
  }

  lemma {:induction false} CutFixedFrom(l: seq<Candidate>, bs: seq<real>, istart: nat)
    requires Sorted(l, CloudKey) && Ascending(bs) && bs != []
    requires istart <= CountAtMost(l, CloudKey, bs[0])
    ensures istart <= CountAtMost(l, CloudKey, bs[|bs| - 1])
    ensures Concat(CutFixed(l, bs, istart)) == l[istart..CountAtMost(l, CloudKey, bs[|bs| - 1])]
    decreases |bs|
  {
    AdvanceFixedSorted(l, istart, bs[0]);
    var istop := CountAtMost(l, CloudKey, bs[0]);
    var last := CountAtMost(l, CloudKey, bs[|bs| - 1]);
    CountAtMostMonotone(l, CloudKey, bs[0], bs[|bs| - 1]);
    if |bs| == 1 {
      ConcatCons(l[istart..istop], []);
    } else {
      CountAtMostMonotone(l, CloudKey, bs[0], bs[1]);
      assert bs[1..][0] == bs[1] && bs[1..][|bs[1..]| - 1] == bs[|bs| - 1];
      CutFixedFrom(l, bs[1..], istop);
      ConcatCons(l[istart..istop], CutFixed(l, bs[1..], istop));
      SliceJoin(l, istart, istop, last);
    }
  }

  lemma SliceJoin(l: seq<Candidate>, i: nat, j: nat, k: nat)
    requires i <= j <= k <= |l|
    ensures l[i..j] + l[j..k] == l[i..k]
  {
  }

  /** The corrected cut of a sorted list with ascending borders: the
      subgroups together are the list up to the last copy at or below the
      last border, so a copy is in a subgroup exactly when its cloud
      probability is at most the last border. */
  lemma CutFixedCovers(l: seq<Candidate>, bs: seq<real>)
    requires Sorted(l, CloudKey) && Ascending(bs) && bs != []
    ensures Concat(CutFixed(l, bs, 0)) == l[..CountAtMost(l, CloudKey, bs[|bs| - 1])]
    ensures forall x :: x in Concat(CutFixed(l, bs, 0)) <==> x in l && CloudKey(x) <= bs[|bs| - 1]
  {
    CutFixedFrom(l, bs, 0);
    var p := CountAtMost(l, CloudKey, bs[|bs| - 1]);
    forall x ensures x in l[..p] <==> x in l && CloudKey(x) <= bs[|bs| - 1] {
      if x in l && CloudKey(x) <= bs[|bs| - 1] {
        var i :| 0 <= i < |l| && l[i] == x;
        assert l[..p][i] == x;
      }
    }
  }

  /** all_subgroups as the constructor builds it: the subgroups of the
      sorted priority-0 copies, then those of the sorted other copies. */
  function Subgroups(cs: seq<Candidate>, bs: seq<real>): (r: seq<seq<Candidate>>)
    requires bs == [] || (Exploded(cs, true) != [] && Exploded(cs, false) != [])
    ensures |r| == 2 * |bs|
  {
    Cut(SortBy(Exploded(cs, true), CloudKey), bs, 0) + Cut(SortBy(Exploded(cs, false), CloudKey), bs, 0)
  }

  /** Every copy in a subgroup is one of the exploded copies. */
  lemma SubgroupsFrom(cs: seq<Candidate>, bs: seq<real>)
    requires bs == [] || (Exploded(cs, true) != [] && Exploded(cs, false) != [])
    ensures forall k, d :: 0 <= k < |Subgroups(cs, bs)| && d in Subgroups(cs, bs)[k] ==>
      d in Exploded(cs, true) || d in Exploded(cs, false)
  {
    var l0, l1 := SortBy(Exploded(cs, true), CloudKey), SortBy(Exploded(cs, false), CloudKey);
    CutMembers(l0, bs);
    CutMembers(l1, bs);
    SortByMembers(Exploded(cs, true), CloudKey);
    SortByMembers(Exploded(cs, false), CloudKey);
    forall k, d | 0 <= k < 2 * |bs| && d in Subgroups(cs, bs)[k]
      ensures d in Exploded(cs, true) || d in Exploded(cs, false)
    {
      if k < |bs| {
        assert Subgroups(cs, bs)[k] == Cut(l0, bs, 0)[k];
      } else {
        assert Subgroups(cs, bs)[k] == Cut(l1, bs, 0)[k - |bs|];
      }
    }
  }

  // ---------------------------------------------------------------------
  // The processing order of one run
  // ---------------------------------------------------------------------

  /** Every subgroup after its shuffle: the k-th call shuffles subgroup k. */
  function Shuffled(gs: seq<seq<Candidate>>, sh: Shuffle<Candidate>): (r: seq<seq<Candidate>>)
    ensures |r| == |gs|
  {
    seq(|gs|, k requires 0 <= k < |gs| => sh(k, gs[k]))
  }

  /** simple_candidate_acquisitions: the shuffled subgroups, concatenated. */
  function Order(gs: seq<seq<Candidate>>, sh: Shuffle<Candidate>): seq<Candidate>
  {
    Concat(Shuffled(gs, sh))
  }

  lemma {:induction false} ConcatMultiset(a: seq<seq<Candidate>>, b: seq<seq<Candidate>>)
    requires |a| == |b| && forall k :: 0 <= k < |a| ==> multiset(a[k]) == multiset(b[k])
    ensures multiset(Concat(a)) == multiset(Concat(b))
    decreases |a|
  {
    if a != [] {
      ConcatMultiset(a[..|a| - 1], b[..|b| - 1]);
    }
  }

  /** The run order is the concatenation of the subgroups, each permuted:
      it holds every copy of the subgroups as often as they do. */
  lemma OrderPermutes(gs: seq<seq<Candidate>>, sh: Shuffle<Candidate>)
    requires Permutes(sh)
    ensures forall k :: 0 <= k < |gs| ==> multiset(Shuffled(gs, sh)[k]) == multiset(gs[k])
    ensures multiset(Order(gs, sh)) == multiset(Concat(gs))
  {
    ConcatMultiset(Shuffled(gs, sh), gs);
  }

  // ---------------------------------------------------------------------
  // One run, as functions
  // ---------------------------------------------------------------------

  /** A copy with exactly one window, on an existing satellite. */
  predicate Single(d: Candidate, n: nat)
  {
    |d.windows| == 1 && d.windows[0].satellite < n
  }

  predicate AllSingle(ds: seq<Candidate>, n: nat)
  {
    forall d :: d in ds ==> Single(d, n)
  }

  /** removeAll: the elements of s not in rs, in order. */
  function RemoveAll(s: seq<Candidate>, rs: seq<Candidate>): (r: seq<Candidate>)
    ensures |r| <= |s|
    ensures forall x :: x in r <==> x in s && x !in rs
    decreases |s|
  {
    if s == [] then []
    else
      assert forall x :: x in s <==> x == s[0] || x in s[1..];
      (if s[0] in rs then [] else [s[0]]) + RemoveAll(s[1..], rs)
  }

  /** removeList: the copies of s with index idx, in order. */
  function Matching(s: seq<Candidate>, idx: nat): (r: seq<Candidate>)
    ensures forall x :: x in r <==> x in s && x.idx == idx
    decreases |s|
  {
    if s == [] then []
    else
      var pre, last := s[..|s| - 1], s[|s| - 1];
      assert s == pre + [last];
      Matching(pre, idx) + (if last.idx == idx then [last] else [])
  }

  /** The plans, the selectedAcquisitionWindow of each committed copy (by
      index) and the copies still to process. */
  datatype RunState = RunState(plans: seq<PlanState>, selected: map<nat, Window>, pending: seq<Candidate>)

  /** One iteration of the while loop: remove the head, add its window,
      test; on success keep it and remove every remaining copy of the same
      candidate, on failure remove the window again. */
  function Step(s: RunState, h: real, tr: Transition): (r: RunState)
    requires s.pending != [] && Single(s.pending[0], |s.plans|)
    ensures |r.plans| == |s.plans| && |r.pending| < |s.pending|
    ensures forall x :: x in r.pending ==> x in s.pending
  {
    var c, rest := s.pending[0], s.pending[1..];
    var w := c.windows[0];
    var a := TryInsert(s.plans, w, h, tr);
    assert forall x :: x in rest ==> x in s.pending;
    if a.ok then RunState(a.plans, s.selected[c.idx := w], RemoveAll(rest, Matching(rest, c.idx)))
    else RunState(a.plans, s.selected, rest)
  }

  /** The while loop, until no copy is left. */
  function Run(s: RunState, h: real, tr: Transition): (r: RunState)
    requires AllSingle(s.pending, |s.plans|)
    ensures |r.plans| == |s.plans| && r.pending == []
    decreases |s.pending|
  {
    if s.pending == [] then s else Run(Step(s, h, tr), h, tr)
  }

  /** The same run on window lists. */
  datatype Progress = Progress(windows: seq<seq<Window>>, selected: map<nat, Window>, pending: seq<Candidate>)

  function Abs(s: RunState): (r: Progress)
    ensures |r.windows| == |s.plans| && r.selected == s.selected && r.pending == s.pending
  {
    Progress(Windows(s.plans), s.selected, s.pending)
  }

  /** The reference for one iteration: commit the head's window exactly when
      adding it, on its own, is feasible. */
  function StepSpec(p: Progress, h: real, tr: Transition): (r: Progress)
    requires p.pending != [] && Single(p.pending[0], |p.windows|)
    ensures |r.windows| == |p.windows| && |r.pending| < |p.pending|
    ensures forall x :: x in r.pending ==> x in p.pending
  {
    var c, rest := p.pending[0], p.pending[1..];
    var w := c.windows[0];
    assert forall x :: x in rest ==> x in p.pending;
    if FeasibleAfter(p.windows, w, h, tr) then
      Progress(Inserted(p.windows, w), p.selected[c.idx := w], RemoveAll(rest, Matching(rest, c.idx)))
    else Progress(p.windows, p.selected, rest)
  }

  function RunSpec(p: Progress, h: real, tr: Transition): (r: Progress)
    requires AllSingle(p.pending, |p.windows|)
    ensures |r.windows| == |p.windows| && r.pending == []
    decreases |p.pending|
  {
    if p.pending == [] then p else RunSpec(StepSpec(p, h, tr), h, tr)
  }

  /** Every copy still to process has one window, on an existing satellite
      and owned by the copy's candidate, and that candidate has nothing
      committed yet. */
  ghost predicate Fresh(pending: seq<Candidate>, sel: map<nat, Window>, n: nat)
  {
    forall d {:trigger d in pending} :: d in pending ==>
      Single(d, n) && d.windows[0].candidate == d.idx && d.idx !in sel
  }

  /** The invariant of the run: every plan sorted and feasible (or empty),
      planned and selected windows in one-to-one agreement, and the copies
      left fresh. */
  ghost predicate Good(p: Progress, h: real, tr: Transition)
  {
    && PlansOk(p.windows, h, tr)
    && Tracked(p.windows, p.selected)
    && Placed(p.windows, p.selected)
    && Fresh(p.pending, p.selected, |p.windows|)
  }

  lemma FreshSingle(p: Progress)
    requires Fresh(p.pending, p.selected, |p.windows|)
    ensures AllSingle(p.pending, |p.windows|)
  {
  }

  /** One iteration keeps the invariant. */
  lemma StepGood(p: Progress, h: real, tr: Transition)
    requires Good(p, h, tr) && p.pending != []
    ensures Single(p.pending[0], |p.windows|)
    ensures Good(StepSpec(p, h, tr), h, tr)
  {
    var c, rest := p.pending[0], p.pending[1..];
    assert c in p.pending;
    var w := c.windows[0];
    if FeasibleAfter(p.windows, w, h, tr) {
      InsertedOk(p.windows, w, h, tr);
      CommitTracked(p.windows, p.selected, w);
      CommitPlaced(p.windows, p.selected, w);
    }
  }

  /** The whole run keeps the invariant. */
  lemma {:induction false} RunGood(p: Progress, h: real, tr: Transition)
    requires Good(p, h, tr)
    ensures AllSingle(p.pending, |p.windows|)
    ensures Good(RunSpec(p, h, tr), h, tr)
    decreases |p.pending|
  {
    FreshSingle(p);
    if p.pending != [] {
      StepGood(p, h, tr);
      RunGood(StepSpec(p, h, tr), h, tr);
    }
  }

  /** Under the invariant, the head's window is not planned yet and its
      satellite's plan is sorted. */
  lemma HeadReady(p: Progress, h: real, tr: Transition)
    requires Good(p, h, tr) && p.pending != []
    ensures Single(p.pending[0], |p.windows|)
    ensures var w := p.pending[0].windows[0];
      p.windows[w.satellite] == SortByStart(p.windows[w.satellite]) && w !in p.windows[w.satellite]
  {
    assert p.pending[0] in p.pending;
  }

  /** One iteration on the plans does what the reference says. */
  lemma StepMatches(s: RunState, p: Progress, h: real, tr: Transition)
    requires Abs(s) == p && p.pending != [] && Single(p.pending[0], |p.windows|)
    requires var w := p.pending[0].windows[0];
      p.windows[w.satellite] == SortByStart(p.windows[w.satellite]) && w !in p.windows[w.satellite]
    ensures Abs(Step(s, h, tr)) == StepSpec(p, h, tr)
  {
    var w := p.pending[0].windows[0];
    assert Windows(s.plans)[w.satellite] == s.plans[w.satellite].windows;
    TryInsertSpec(s.plans, w, h, tr);
  }

  /** The run on the plans computes what the reference computes. */
  lemma {:induction false} RunMatches(s: RunState, p: Progress, h: real, tr: Transition)
    requires Abs(s) == p && Good(p, h, tr)
    ensures AllSingle(s.pending, |s.plans|)
    ensures Abs(Run(s, h, tr)) == RunSpec(p, h, tr)
    decreases |s.pending|
  {
    FreshSingle(p);
    if s.pending != [] {
      HeadReady(p, h, tr);
      StepMatches(s, p, h, tr);
      StepGood(p, h, tr);
      RunMatches(Step(s, h, tr), StepSpec(p, h, tr), h, tr);
    }
  }

  /** The indices of the copies in a list. */
  lemma {:induction false} RunKeys(p: Progress, h: real, tr: Transition)
    requires AllSingle(p.pending, |p.windows|)
    ensures RunSpec(p, h, tr).selected.Keys <= p.selected.Keys + Indices(p.pending)
    decreases |p.pending|
  {
    if p.pending != [] {
      var q := StepSpec(p, h, tr);
      RunKeys(q, h, tr);
      assert p.pending[0] in p.pending;
      assert Indices(q.pending) <= Indices(p.pending);
    }
  }

  /** The windows offered by a list of copies. */
  function Offered(ds: seq<Candidate>): set<Window>
  {
    set d, w | d in ds && w in d.windows :: w
  }

  /** A run plans nothing but windows it was offered. */
  lemma {:induction false} RunOffered(p: Progress, h: real, tr: Transition)
    requires AllSingle(p.pending, |p.windows|)
    ensures var r := RunSpec(p, h, tr);
      forall s, w :: 0 <= s < |r.windows| && w in r.windows[s] ==> w in p.windows[s] || w in Offered(p.pending)
    decreases |p.pending|
  {
    if p.pending != [] {
      var q := StepSpec(p, h, tr);
      RunOffered(q, h, tr);
      var c := p.pending[0];
      assert c in p.pending && c.windows[0] in c.windows;
      InsertedMembers(p.windows, c.windows[0]);
      assert Offered(q.pending) <= Offered(p.pending);
      forall s | 0 <= s < |p.windows| ensures forall w :: w in q.windows[s] ==> w in p.windows[s] || w in Offered(p.pending) {
        if s != c.windows[0].satellite {
          assert q.windows[s] == p.windows[s];
        }
      }
    }
  }

  /** Tracked plans hold at most one window per candidate, over all
      satellites. */
  lemma OnePerCandidate(W: seq<seq<Window>>, sel: map<nat, Window>)
    requires Tracked(W, sel)
    ensures forall s, s', w, w' :: 0 <= s < |W| && 0 <= s' < |W| && w in W[s] && w' in W[s'] && w.candidate == w'.candidate ==> w == w'
  {
  }

  /** Single-window copies, each window owned by its copy's candidate. */
  ghost predicate Owned(ds: seq<Candidate>, n: nat)
  {
    forall d :: d in ds ==> Single(d, n) && d.windows[0].candidate == d.idx
  }

  /** What a run delivers for the input candidates cs: every plan sorted
      and feasible (or empty), every planned window the selected window of
      its candidate and every selected window planned, only input candidates
      selected, and every planned window a window of an input candidate. */
  ghost predicate Delivered(r: Progress, cs: seq<Candidate>, n: nat, h: real, tr: Transition)
  {
    && |r.windows| == n
    && PlansOk(r.windows, h, tr) && Tracked(r.windows, r.selected) && Placed(r.windows, r.selected)
    && r.selected.Keys <= Indices(cs)
    && forall s, w :: 0 <= s < n && w in r.windows[s] ==> exists c :: c in cs && w in c.windows
  }

  /** What one run of the planner computes from empty plans, on the
      subgroups the constructor builds: see Delivered; in particular at most
      one window per candidate is planned (OnePerCandidate). */
  lemma PlanningResult(cs: seq<Candidate>, bs: seq<real>, sh: Shuffle<Candidate>, n: nat, h: real, tr: Transition)
    requires forall c :: c in cs ==> WellFormedCandidate(c, n)
    requires bs == [] || (Exploded(cs, true) != [] && Exploded(cs, false) != [])
    requires Permutes(sh)
    ensures AllSingle(Order(Subgroups(cs, bs), sh), n)
    ensures Delivered(Abs(Run(RunState(EmptyPlans(n), map[], Order(Subgroups(cs, bs), sh)), h, tr)), cs, n, h, tr)
  {
    var s := RunState(EmptyPlans(n), map[], Order(Subgroups(cs, bs), sh));
    SpecResult(cs, bs, sh, n, h, tr);
    InitialGood(s.pending, n, h, tr);
    RunMatches(s, Abs(s), h, tr);
  }

  /** The same on window lists. */
  lemma SpecResult(cs: seq<Candidate>, bs: seq<real>, sh: Shuffle<Candidate>, n: nat, h: real, tr: Transition)
    requires forall c :: c in cs ==> WellFormedCandidate(c, n)
    requires bs == [] || (Exploded(cs, true) != [] && Exploded(cs, false) != [])
    requires Permutes(sh)
    ensures Owned(Order(Subgroups(cs, bs), sh), n) && AllSingle(Order(Subgroups(cs, bs), sh), n)
    ensures Delivered(RunSpec(Abs(RunState(EmptyPlans(n), map[], Order(Subgroups(cs, bs), sh))), h, tr), cs, n, h, tr)
  {
    var order := Order(Subgroups(cs, bs), sh);
    OrderCopies(cs, bs, sh, n);
    OrderFromInput(cs, bs, sh, n);
    var p := Abs(RunState(EmptyPlans(n), map[], order));
    InitialGood(order, n, h, tr);
    RunOutcome(p, h, tr);
    assert forall s :: 0 <= s < n ==> p.windows[s] == [];
    var r := RunSpec(p, h, tr);
    forall s, w | 0 <= s < n && w in r.windows[s] ensures exists c :: c in cs && w in c.windows {
      assert p.windows[s] == [];
      assert w in Offered(order);
    }
  }

  /** From empty plans with nothing selected, a list of owned single-window
      copies satisfies the invariant. */
  lemma InitialGood(order: seq<Candidate>, n: nat, h: real, tr: Transition)
    requires Owned(order, n)
    ensures Good(Abs(RunState(EmptyPlans(n), map[], order)), h, tr)
  {
    assert forall i :: 0 <= i < n ==> Windows(EmptyPlans(n))[i] == [];
  }

  /** The run's result on window lists: the invariant, the selected indices,
      and the windows it plans. */
  lemma RunOutcome(p: Progress, h: real, tr: Transition)
    requires Good(p, h, tr)
    ensures AllSingle(p.pending, |p.windows|)
    ensures var r := RunSpec(p, h, tr);
      && Good(r, h, tr)
      && r.selected.Keys <= p.selected.Keys + Indices(p.pending)
      && forall s, w :: 0 <= s < |r.windows| && w in r.windows[s] ==> w in p.windows[s] || w in Offered(p.pending)
  {
    RunGood(p, h, tr);
    RunKeys(p, h, tr);
    RunOffered(p, h, tr);
  }

  /** The indices and windows of the run order are those of the input
      candidates. */
  lemma OrderFromInput(cs: seq<Candidate>, bs: seq<real>, sh: Shuffle<Candidate>, n: nat)
    requires forall c :: c in cs ==> WellFormedCandidate(c, n)
    requires bs == [] || (Exploded(cs, true) != [] && Exploded(cs, false) != [])
    requires Permutes(sh)
    ensures Indices(Order(Subgroups(cs, bs), sh)) <= Indices(cs)
    ensures forall w :: w in Offered(Order(Subgroups(cs, bs), sh)) ==> exists c :: c in cs && w in c.windows
  {
    var order := Order(Subgroups(cs, bs), sh);
    OrderCopies(cs, bs, sh, n);
    forall k | k in Indices(order) ensures k in Indices(cs) {
      var d :| d in order && d.idx == k;
      var c :| c in cs && d == Copy(c, d.windows[0]);
    }
    forall w | w in Offered(order) ensures exists c :: c in cs && w in c.windows {
      var d :| d in order && w in d.windows;
      var c :| c in cs && d == Copy(c, d.windows[0]) && d.windows[0] in c.windows;
    }
  }

  /** Every copy of the run order is a single-window copy of an input
      candidate, owned by it. */
  lemma OrderCopies(cs: seq<Candidate>, bs: seq<real>, sh: Shuffle<Candidate>, n: nat)
    requires forall c :: c in cs ==> WellFormedCandidate(c, n)
    requires bs == [] || (Exploded(cs, true) != [] && Exploded(cs, false) != [])
    requires Permutes(sh)
    ensures forall d :: d in Order(Subgroups(cs, bs), sh) ==>
      && Single(d, n) && d.windows[0].candidate == d.idx
      && exists c :: c in cs && d == Copy(c, d.windows[0]) && d.windows[0] in c.windows
  {
    var gs := Subgroups(cs, bs);
    OrderPermutes(gs, sh);
    SubgroupsFrom(cs, bs);
    ExplodedFrom(cs, true);
    ExplodedFrom(cs, false);
    forall d | d in Order(gs, sh)
      ensures Single(d, n) && d.windows[0].candidate == d.idx
      ensures exists c :: c in cs && d == Copy(c, d.windows[0]) && d.windows[0] in c.windows
    {
      assert d in multiset(Concat(gs));
      ConcatFrom(gs, d);
      var c :| c in cs && d == Copy(c, d.windows[0]) && d.windows[0] in c.windows;
    }
  }

  lemma {:induction false} ConcatFrom(gs: seq<seq<Candidate>>, x: Candidate)
    requires x in Concat(gs)
    ensures exists k :: 0 <= k < |gs| && x in gs[k]
    decreases |gs|
  {
    var pre := gs[..|gs| - 1];
    if x !in gs[|gs| - 1] {
      ConcatFrom(pre, x);
      var k :| 0 <= k < |pre| && x in pre[k];
      assert gs[k] == pre[k];
    }
  }

  // ---------------------------------------------------------------------
  // The planner object
  // ---------------------------------------------------------------------

  class RandomPlanner {
    const horizonStart: real
    const transition: Transition
    /** satellitePlans, indexed by satellite number. */
    const satellitePlans: seq<SatellitePlan>
    /** all_subgroups: the subgroups of the priority-0 copies, then those
        of the other copies, one per border each. */
    var allSubgroups: seq<seq<Candidate>>

    ghost predicate Valid()
      reads this
    {
      && Distinct(satellitePlans) && Shared(satellitePlans, horizonStart, transition)
      && forall k :: 0 <= k < |allSubgroups| ==> AllSingle(allSubgroups[k], |satellitePlans|)
    }

    /** The constructor: empty plans, and the subgroups of the copies.  Each
        of the two lists must be non-empty when there are borders. */
    constructor (nSatellites: nat, candidateAcquisitions: seq<Candidate>, borders: seq<real>, h: real, tr: Transition)
      requires AllInRange(candidateAcquisitions, nSatellites)
      requires borders == [] || (Exploded(candidateAcquisitions, true) != [] && Exploded(candidateAcquisitions, false) != [])
      ensures Valid() && |satellitePlans| == nSatellites
      ensures horizonStart == h && transition == tr
      ensures States(satellitePlans) == EmptyPlans(nSatellites)
      ensures forall i :: 0 <= i < nSatellites ==> fresh(satellitePlans[i])
      ensures allSubgroups == Subgroups(candidateAcquisitions, borders)
    {
      var plans := NewPlans(nSatellites, h, tr);
      var p0, p1 := Explode(candidateAcquisitions);
      p0 := SortBy(p0, CloudKey);
      p1 := SortBy(p1, CloudKey);
      var subgroups := CutAll(p0, p1, borders);
      SubgroupsSingle(candidateAcquisitions, borders, nSatellites, subgroups);
      horizonStart := h;
      transition := tr;
      satellitePlans := plans;
      allSubgroups := subgroups;
    }

    /** The loop of planAcquisitions that shuffles every subgroup in place
        and concatenates them. */
    method ShuffleSubgroups(shuffle: Shuffle<Candidate>) returns (candidates: seq<Candidate>)
      requires Valid() && Permutes(shuffle)
      modifies this
      ensures Valid() && allSubgroups == Shuffled(old(allSubgroups), shuffle)
      ensures candidates == Order(old(allSubgroups), shuffle)
      ensures AllSingle(candidates, |satellitePlans|)
    {
      ghost var gs := allSubgroups;
      ghost var target := Shuffled(gs, shuffle);
      var subgroups := allSubgroups;
      candidates := [];
      for k := 0 to |subgroups|
        invariant |subgroups| == |gs|
        invariant forall j :: 0 <= j < k ==> subgroups[j] == target[j]
        invariant forall j :: k <= j < |gs| ==> subgroups[j] == gs[j]
        invariant candidates == Concat(target[..k])
      {
        var subgroup := shuffle(k, subgroups[k]);
        assert target[..k + 1] == target[..k] + [subgroup];
        subgroups := subgroups[k := subgroup];
        candidates := candidates + subgroup;
      }
      assert target[..|gs|] == target;
      assert subgroups == target;
      allSubgroups := subgroups;
      ShuffledSingle(gs, shuffle, |satellitePlans|);
    }

    /** planAcquisitions: one run of the random process on the current
        plans; returns the selected window of each committed copy, by
        candidate index. */
    method PlanAcquisitions(shuffle: Shuffle<Candidate>) returns (selected: map<nat, Window>)
      requires Valid() && Permutes(shuffle)
      modifies this, satellitePlans
      ensures Valid() && allSubgroups == Shuffled(old(allSubgroups), shuffle)
      ensures AllSingle(Order(old(allSubgroups), shuffle), |satellitePlans|)
      ensures var r := Run(RunState(old(States(satellitePlans)), map[], Order(old(allSubgroups), shuffle)), horizonStart, transition);
        States(satellitePlans) == r.plans && selected == r.selected
    {
      var simpleCandidateAcquisitions := ShuffleSubgroups(shuffle);
      ghost var target := Run(RunState(States(satellitePlans), map[], simpleCandidateAcquisitions), horizonStart, transition);
      selected := map[];
      var remaining := simpleCandidateAcquisitions;
      while remaining != []
        invariant AllSingle(remaining, |satellitePlans|)
        invariant Run(RunState(States(satellitePlans), selected, remaining), horizonStart, transition) == target
        modifies satellitePlans
        decreases |remaining|
      {
        selected, remaining := PlanHead(selected, remaining);
      }
    }

    /** One iteration of the while loop of planAcquisitions.  A copy holds
        exactly one window, so the loop over its windows runs once. */
    method PlanHead(selected: map<nat, Window>, pending: seq<Candidate>) returns (selected': map<nat, Window>, pending': seq<Candidate>)
      requires Valid() && pending != [] && AllSingle(pending, |satellitePlans|)
      modifies satellitePlans
      ensures AllSingle(pending', |satellitePlans|)
      ensures RunState(States(satellitePlans), selected', pending')
           == Step(RunState(old(States(satellitePlans)), selected, pending), horizonStart, transition)
    {
      var currentAcq := pending[0];
      assert currentAcq in pending;
      pending' := pending[1..];
      selected' := selected;
      var acqWindow := currentAcq.windows[0];
      var ok := TryAt(satellitePlans, acqWindow, horizonStart, transition);
      if ok {
        selected' := selected'[currentAcq.idx := acqWindow];
        var removeList := CollectCopies(pending', currentAcq.idx);
        pending' := RemoveAll(pending', removeList);
      }
    }

    /** getScore: counts the planned windows over all satellites and sums
        their priorities and cloud probabilities. */
    method GetScore(nCandidates: nat, run: int) returns (score: Score)
      requires Valid()
      requires |AllPlanned(Windows(States(satellitePlans)))| > 0 ==> nCandidates > 0
      ensures score == ScoreOf(Windows(States(satellitePlans)), nCandidates, run)
    {
      ghost var W := Windows(States(satellitePlans));
      var numberPlanned := 0;
      var sumPriority, sumCloudProba := 0.0, 0.0;
      for sat := 0 to |satellitePlans|
        invariant numberPlanned == |AllPlanned(W[..sat])|
        invariant sumPriority == Sum(AllPlanned(W[..sat]), Priority)
        invariant sumCloudProba == Sum(AllPlanned(W[..sat]), Cloud)
      {
        var acqWindows := satellitePlans[sat].acqWindows;
        assert acqWindows == W[sat];
        numberPlanned, sumPriority, sumCloudProba :=
          AddPlan(acqWindows, AllPlanned(W[..sat]), numberPlanned, sumPriority, sumCloudProba);
        assert W[..sat + 1][..sat] == W[..sat];
      }
      assert W[..|satellitePlans|] == W;
      score := InitialScore(run);
      if numberPlanned > 0 {
        score := score.(plannedFraction := numberPlanned as real / nCandidates as real,
                        meanPriority := sumPriority / numberPlanned as real,
                        meanCloudProba := sumCloudProba / numberPlanned as real);
      }
    }
  }

  /** The loop of the constructor over the two sorted lists. */
  method CutAll(p0: seq<Candidate>, p1: seq<Candidate>, borders: seq<real>) returns (subgroups: seq<seq<Candidate>>)
    requires borders == [] || (p0 != [] && p1 != [])
    ensures subgroups == Cut(p0, borders, 0) + Cut(p1, borders, 0)
  {
    var allPrioritiesAcquisitions := [p0, p1];
    subgroups := [];
    var nPriorities := |allPrioritiesAcquisitions|;
    var prioritiesLeft := nPriorities;
    ghost var cuts := [Cut(p0, borders, 0), Cut(p1, borders, 0)];
    while prioritiesLeft > 0
      invariant 0 <= prioritiesLeft <= 2
      invariant subgroups == (if prioritiesLeft <= 1 then cuts[0] else [])
                           + (if prioritiesLeft == 0 then cuts[1] else [])
    {
      var currentList := allPrioritiesAcquisitions[nPriorities - prioritiesLeft];
      var cut := CutSubgroups(currentList, borders);
      subgroups := subgroups + cut;
      prioritiesLeft := prioritiesLeft - 1;
    }
  }

  /** The loop that fills removeList. */
  method CollectCopies(s: seq<Candidate>, idx: nat) returns (removeList: seq<Candidate>)
    ensures removeList == Matching(s, idx)
  {
    removeList := [];
    for i := 0 to |s|
      invariant removeList == Matching(s[..i], idx)
    {
      assert s[..i + 1][..i] == s[..i];
      if s[i].idx == idx {
        removeList := removeList + [s[i]];
      }
    }
    assert s[..|s|] == s;
  }

  /** The constructor's subgroups hold only single-window copies on
      existing satellites. */
  lemma SubgroupsSingle(cs: seq<Candidate>, bs: seq<real>, n: nat, gs: seq<seq<Candidate>>)
    requires AllInRange(cs, n)
    requires bs == [] || (Exploded(cs, true) != [] && Exploded(cs, false) != [])
    requires gs == Subgroups(cs, bs)
    ensures forall k :: 0 <= k < |gs| ==> AllSingle(gs[k], n)
  {
    SubgroupsFrom(cs, bs);
    ExplodedFrom(cs, true);
    ExplodedFrom(cs, false);
    forall k, d | 0 <= k < |gs| && d in gs[k] ensures Single(d, n) {
      var c :| c in cs && d == Copy(c, d.windows[0]) && d.windows[0] in c.windows;
    }
  }

  /** Shuffling keeps the subgroups single-window, and so is their
      concatenation. */
  lemma ShuffledSingle(gs: seq<seq<Candidate>>, sh: Shuffle<Candidate>, n: nat)
    requires Permutes(sh) && forall k :: 0 <= k < |gs| ==> AllSingle(gs[k], n)
    ensures forall k :: 0 <= k < |gs| ==> AllSingle(Shuffled(gs, sh)[k], n)
    ensures AllSingle(Order(gs, sh), n)
  {
    forall k, d | 0 <= k < |gs| && d in Shuffled(gs, sh)[k] ensures Single(d, n) {
      assert multiset(sh(k, gs[k])) == multiset(gs[k]);
      assert d in multiset(gs[k]);
    }
    forall d | d in Order(gs, sh) ensures Single(d, n) {
      ConcatFrom(Shuffled(gs, sh), d);
    }
  }
}
