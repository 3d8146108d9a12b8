/** Bookkeeping shared by the greedy planners: which candidates have a
    selected window, the trial verdicts of a candidate's windows against
    fixed plans, and the agreement between planned and selected windows. */
module Selection {
  import opened Problem
  import opened Sorting
  import opened Timeline
  import opened Insertion

  predicate InRange(c: Candidate, n: nat)
  {
    forall w :: w in c.windows ==> w.satellite < n
  }

  predicate AllInRange(cs: seq<Candidate>, n: nat)
  {
    forall c :: c in cs ==> InRange(c, n)
  }

  /** Plans, the selectedAcquisitionWindow of each candidate (by index) and
      the nPlanned counter. */
  datatype Outcome = Outcome(plans: seq<PlanState>, selected: map<nat, Window>, nPlanned: nat)

  /** The outcome of testing each window, on its own, against fixed window
      lists. */
  function Trials(W: seq<seq<Window>>, ws: seq<Window>, h: real, tr: Transition): (r: seq<bool>)
    requires forall w :: w in ws ==> w.satellite < |W|
    ensures |r| == |ws|
  {
    seq(|ws|, i requires 0 <= i < |ws| => FeasibleAfter(W, ws[i], h, tr))
  }

  lemma TrialsTail(W: seq<seq<Window>>, ws: seq<Window>, h: real, tr: Transition)
    requires ws != [] && forall w :: w in ws ==> w.satellite < |W|
    ensures Trials(W, ws[1..], h, tr) == Trials(W, ws, h, tr)[1..]
    ensures Trials(W, ws, h, tr)[0] == FeasibleAfter(W, ws[0], h, tr)
  {
    forall i | 0 <= i < |ws| - 1 ensures Trials(W, ws[1..], h, tr)[i] == Trials(W, ws, h, tr)[i + 1] {
      assert ws[1..][i] == ws[i + 1];
    }
  }

  /** The reference for the inner loop: the first position holding true. */
  function FirstTrue(bs: seq<bool>): (r: Option<nat>)
    ensures r.Some? ==> r.value < |bs| && bs[r.value] && forall i :: 0 <= i < r.value ==> !bs[i]
    ensures r.None? ==> forall i :: 0 <= i < |bs| ==> !bs[i]
  {
    if bs == [] then None
    else if bs[0] then Some(0)
    else
      match FirstTrue(bs[1..])
      case None => None
      case Some(i) => Some(i + 1)
  }

  /** What the invariant speaks about: the window lists of the plans, the
      selected window of each planned candidate, and nPlanned. */
  datatype Summary = Summary(windows: seq<seq<Window>>, selected: map<nat, Window>, nPlanned: nat)

  /** Every planned window sits on its own satellite and is the selected
      window of its candidate. */
  ghost predicate Tracked(W: seq<seq<Window>>, sel: map<nat, Window>)
  {
    forall s, w {:trigger w in W[s]} :: 0 <= s < |W| && w in W[s] ==>
      w.satellite == s && w.candidate in sel && sel[w.candidate] == w
  }

  /** Every selected window is planned on its satellite. */
  ghost predicate Placed(W: seq<seq<Window>>, sel: map<nat, Window>)
  {
    forall k :: k in sel ==> sel[k].satellite < |W| && sel[k] in W[sel[k].satellite]
  }

  lemma CommitTracked(W: seq<seq<Window>>, sel: map<nat, Window>, w: Window)
    requires w.satellite < |W| && Tracked(W, sel) && w.candidate !in sel
    ensures Tracked(Inserted(W, w), sel[w.candidate := w])
  {
    InsertedMembers(W, w);
  }

  lemma CommitPlaced(W: seq<seq<Window>>, sel: map<nat, Window>, w: Window)
    requires w.satellite < |W| && Placed(W, sel)
    ensures Placed(Inserted(W, w), sel[w.candidate := w])
  {
    InsertedMembers(W, w);
    forall k | k in sel || k == w.candidate
      ensures var v := sel[w.candidate := w][k]; v.satellite < |W| && v in Inserted(W, w)[v.satellite]
    {
      if k != w.candidate {
        var v := sel[k];
        if v.satellite == w.satellite {
          assert v in Inserted(W, w)[w.satellite];
        } else {
          assert Inserted(W, w)[v.satellite] == W[v.satellite];
        }
      }
    }
  }

  lemma AddKey(sel: map<nat, Window>, k: nat, w: Window)
    requires k !in sel
    ensures |sel[k := w]| == |sel| + 1
  {
    assert sel[k := w].Keys == sel.Keys + {k};
  }

  /** The indices of a list of candidates. */
  function Indices(cs: seq<Candidate>): set<nat>
  {
    set c | c in cs :: c.idx
  }

  /** In a well-formed list, the last candidate's index occurs nowhere
      before it. */
  lemma LastIndexFresh(order: seq<Candidate>, n: nat)
    requires order != [] && WellFormed(order, n)
    ensures order[|order| - 1].idx !in Indices(order[..|order| - 1])
    ensures WellFormed(order[..|order| - 1], n)
  {
    var pre := order[..|order| - 1];
    forall c | c in pre ensures c.idx != order[|order| - 1].idx {
      var i :| 0 <= i < |pre| && pre[i] == c;
    }
  }

  lemma SplitLast(order: seq<Candidate>)
    requires order != []
    ensures var pre, last := order[..|order| - 1], order[|order| - 1];
      && Indices(order) == Indices(pre) + {last.idx}
      && forall c :: c in order <==> c in pre || c == last
  {
    assert order == order[..|order| - 1] + [order[|order| - 1]];
  }

  lemma WellFormedInRange(order: seq<Candidate>, n: nat)
    requires WellFormed(order, n)
    ensures AllInRange(order, n)
  {
  }

  /** The indices of the first k candidates of a list. */
  function IdxUpTo(cs: seq<Candidate>, k: nat): set<nat>
    requires k <= |cs|
  {
    set i | 0 <= i < k :: cs[i].idx
  }

  /** In a well-formed list, no candidate shares its index with an earlier
      one. */
  lemma DistinctIdx(cs: seq<Candidate>, n: nat, k: nat)
    requires WellFormed(cs, n) && k < |cs|
    ensures cs[k].idx !in IdxUpTo(cs, k)
  {
  }

  /** In a well-formed list, a candidate is the only one with its index. */
  lemma IdxInjective(cs: seq<Candidate>, n: nat, c: Candidate, d: Candidate)
    requires WellFormed(cs, n) && c in cs && d in cs && c.idx == d.idx
    ensures c == d
  {
    var i :| 0 <= i < |cs| && cs[i] == c;
    var j :| 0 <= j < |cs| && cs[j] == d;
  }

  /** A well-formed list holds each of its candidates once. */
  lemma {:induction false} NoDuplicates(cs: seq<Candidate>, n: nat)
    requires WellFormed(cs, n)
    ensures forall c :: c in cs ==> multiset(cs)[c] == 1
  {
    if cs != [] {
      var pre, last := cs[..|cs| - 1], cs[|cs| - 1];
      assert cs == pre + [last];
      LastIndexFresh(cs, n);
      NoDuplicates(pre, n);
      assert last !in pre;
    }
  }

  /** Well-formedness carries over to any list holding candidates of a
      well-formed list at most as often as it does (a permutation, a
      sub-list). */
  lemma WellFormedSub(cs: seq<Candidate>, order: seq<Candidate>, n: nat)
    requires WellFormed(cs, n) && multiset(order) <= multiset(cs)
    ensures WellFormed(order, n)
  {
    NoDuplicates(cs, n);
    forall c | c in order ensures c in cs {
      assert c in multiset(order);
    }
    forall i, j | 0 <= i < j < |order| ensures order[i].idx != order[j].idx {
      assert order[i] in order && order[j] in order;
      if order[i].idx == order[j].idx {
        IdxInjective(cs, n, order[i], order[j]);
        TwoPositions(order, i, j);
        assert false;
      }
    }
  }

  lemma TwoPositions<T>(s: seq<T>, i: nat, k: nat)
    requires i < k < |s| && s[i] == s[k]
    ensures multiset(s)[s[k]] >= 2
  {
    assert s == s[..k] + s[k..];
    assert s[i] in s[..k] && s[k] in s[k..];
  }
}
