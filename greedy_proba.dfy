/** AcquisitionPlannerGreedyPriorityGreedyProba: the priority-0 candidates in
    shuffled order, then the priority-1 candidates in shuffled order; every
    window of a candidate is tried against its satellite's plan and taken out
    again, and one window is committed afterwards according to the `martin`
    flag and the running choice `feasible`. */
module GreedyProba {
  import opened Problem
  import opened Sorting
  import opened Timeline
  import opened Insertion
  import opened Fleet
  import opened Selection

  // ---------------------------------------------------------------------
  // The processing order
  // ---------------------------------------------------------------------

  /** The candidates of priority p, in list order. */
  function Tier(cs: seq<Candidate>, p: int): seq<Candidate>
    decreases |cs|
  {
    if cs == [] then []
    else Tier(cs[..|cs| - 1], p) + (if cs[|cs| - 1].priority == p then [cs[|cs| - 1]] else [])
  }

  /** The loop that fills candidateAcquisitionsPriority0 and ...Priority1. */
  method SplitTiers(cs: seq<Candidate>) returns (p0: seq<Candidate>, p1: seq<Candidate>)
    ensures p0 == Tier(cs, 0) && p1 == Tier(cs, 1)
  {
    p0, p1 := [], [];
    var i := 0;
    while i < |cs|
      invariant i <= |cs| && p0 == Tier(cs[..i], 0) && p1 == Tier(cs[..i], 1)
    {
      var acq := cs[i];
      assert cs[..i + 1][..i] == cs[..i];
      if acq.priority == 0 {
        p0 := p0 + [acq];
      }
      if acq.priority == 1 {
        p1 := p1 + [acq];
      }
      i := i + 1;
    }
    assert cs[..i] == cs;
  }

  /** A tier holds every candidate of its priority as often as the input
      does, and nothing else. */
  lemma {:induction false} TierMultiset(cs: seq<Candidate>, p: int)
    ensures forall c :: multiset(Tier(cs, p))[c] == if c.priority == p then multiset(cs)[c] else 0
  {
    if cs != [] {
      var pre := cs[..|cs| - 1];
      assert cs == pre + [cs[|cs| - 1]];
      TierMultiset(pre, p);
    }
  }

  /** The list the main loop consumes: the shuffled priority-0 tier followed
      by the shuffled priority-1 tier. */
  function Order(cs: seq<Candidate>, sh: Shuffle<Candidate>): seq<Candidate>
  {
    sh(0, Tier(cs, 0)) + sh(1, Tier(cs, 1))
  }

  /** The processing order is a permutation of the priority-0 candidates
      followed by a permutation of the priority-1 candidates. */
  lemma ProcessingOrder(cs: seq<Candidate>, sh: Shuffle<Candidate>)
    requires Permutes(sh)
    ensures var order, n0 := Order(cs, sh), |Tier(cs, 0)|;
      && n0 <= |order|
      && multiset(order[..n0]) == multiset(Tier(cs, 0))
      && multiset(order[n0..]) == multiset(Tier(cs, 1))
  {
    var a, b := sh(0, Tier(cs, 0)), sh(1, Tier(cs, 1));
    assert |a| == |multiset(a)| == |multiset(Tier(cs, 0))|;
    assert (a + b)[..|a|] == a && (a + b)[|a|..] == b;
  }

  /** Hence the first part holds priority 0 only and the rest priority 1
      only. */
  lemma OrderPriorities(cs: seq<Candidate>, sh: Shuffle<Candidate>)
    requires Permutes(sh)
    ensures var order, n0 := Order(cs, sh), |Tier(cs, 0)|;
      && n0 <= |order|
      && (forall i :: 0 <= i < n0 ==> order[i].priority == 0)
      && (forall i :: n0 <= i < |order| ==> order[i].priority == 1)
  {
    var a, b := sh(0, Tier(cs, 0)), sh(1, Tier(cs, 1));
    assert |a| == |multiset(a)| == |multiset(Tier(cs, 0))|;
    TierPriority(cs, 0);
    TierPriority(cs, 1);
    SamePriority(a, Tier(cs, 0), 0);
    SamePriority(b, Tier(cs, 1), 1);
    ConcatPriorities(a, b);
  }

  /** Priority-0 candidates followed by priority-1 candidates. */
  lemma ConcatPriorities(a: seq<Candidate>, b: seq<Candidate>)
    requires (forall i :: 0 <= i < |a| ==> a[i].priority == 0) && (forall i :: 0 <= i < |b| ==> b[i].priority == 1)
    ensures (forall i :: 0 <= i < |a| ==> (a + b)[i].priority == 0)
    ensures (forall i :: |a| <= i < |a + b| ==> (a + b)[i].priority == 1)
  {
    assert forall i :: |a| <= i < |a + b| ==> (a + b)[i] == b[i - |a|];
  }

  lemma {:induction false} TierPriority(cs: seq<Candidate>, p: int)
    ensures forall c :: c in Tier(cs, p) ==> c.priority == p
  {
    if cs != [] {
      TierPriority(cs[..|cs| - 1], p);
    }
  }

  /** A rearrangement of a list of priority-p candidates holds only
      priority-p candidates. */
  lemma SamePriority(a: seq<Candidate>, t: seq<Candidate>, p: int)
    requires multiset(a) == multiset(t) && forall c :: c in t ==> c.priority == p
    ensures forall i :: 0 <= i < |a| ==> a[i].priority == p
  {
    forall i | 0 <= i < |a| ensures a[i].priority == p {
      assert a[i] in multiset(t);
    }
  }

  /** A candidate of priority 0 or 1 appears in the processing order as often
      as in the input; a candidate of any other priority never appears. */
  lemma OrderCounts(cs: seq<Candidate>, sh: Shuffle<Candidate>)
    requires Permutes(sh)
    ensures forall c :: multiset(Order(cs, sh))[c] == if c.priority == 0 || c.priority == 1 then multiset(cs)[c] else 0
  {
    var a, b := sh(0, Tier(cs, 0)), sh(1, Tier(cs, 1));
    TierMultiset(cs, 0);
    TierMultiset(cs, 1);
    assert multiset(a + b) == multiset(Tier(cs, 0)) + multiset(Tier(cs, 1));
  }

  /** A well-formed candidate list stays well formed in processing order. */
  lemma OrderWellFormed(cs: seq<Candidate>, sh: Shuffle<Candidate>, n: nat)
    requires Permutes(sh) && WellFormed(cs, n)
    ensures WellFormed(Order(cs, sh), n)
  {
    OrderCounts(cs, sh);
    WellFormedSub(cs, Order(cs, sh), n);
  }

  // ---------------------------------------------------------------------
  // One candidate, as functions of the plan states
  // ---------------------------------------------------------------------

  datatype Probe = Probe(ok: bool, plans: seq<PlanState>)

  /** add, isFeasible, remove: the trial of one window, which takes the
      window out again whatever the verdict. */
  function ProbeAt(ps: seq<PlanState>, w: Window, h: real, tr: Transition): (r: Probe)
    requires w.satellite < |ps|
    ensures |r.plans| == |ps|
  {
    var s := w.satellite;
    var c := CheckFeasible(AddWindow(ps[s], w), h, tr);
    Probe(c.ok, ps[s := RemoveWindow(c.plan, w)])
  }

  /** The plans, the `martin` flag and the running choice `feasible` after
      the first k iterations of the trial loop. */
  datatype Search = Search(plans: seq<PlanState>, found: bool, best: Window)

  /** One iteration of the trial loop, on window w. */
  function ProbeStep(s: Search, w: Window, h: real, tr: Transition): (r: Search)
    requires w.satellite < |s.plans|
    ensures |r.plans| == |s.plans|
  {
    var p := ProbeAt(s.plans, w, h, tr);
    Search(p.plans, s.found || p.ok,
           if p.ok && s.found && w.cloudProba < s.best.cloudProba then w else s.best)
  }

  function Probes(ps: seq<PlanState>, ws: seq<Window>, k: nat, h: real, tr: Transition): (r: Search)
    requires 0 < |ws| && k <= |ws| && forall w :: w in ws ==> w.satellite < |ps|
    ensures |r.plans| == |ps| && r.best in ws
  {
    if k == 0 then Search(ps, false, ws[0])
    else ProbeStep(Probes(ps, ws, k - 1, h, tr), ws[k - 1], h, tr)
  }

  lemma ProbesUnfold(ps: seq<PlanState>, ws: seq<Window>, k: nat, h: real, tr: Transition)
    requires 0 < |ws| && 0 < k <= |ws| && forall w :: w in ws ==> w.satellite < |ps|
    ensures Probes(ps, ws, k, h, tr) == ProbeStep(Probes(ps, ws, k - 1, h, tr), ws[k - 1], h, tr)
  {
  }

  /** One iteration of the main loop: a candidate without windows is
      skipped; otherwise, if some trial succeeded, the chosen window is
      appended to its plan, with no feasibility test. */
  function Step(o: Outcome, c: Candidate, h: real, tr: Transition): (r: Outcome)
    requires InRange(c, |o.plans|)
    ensures |r.plans| == |o.plans|
  {
    if c.windows == [] then o
    else
      var s := Probes(o.plans, c.windows, |c.windows|, h, tr);
      if s.found then
        var w := s.best;
        Outcome(s.plans[w.satellite := AddWindow(s.plans[w.satellite], w)],
                o.selected[c.idx := w], o.nPlanned + 1)
      else Outcome(s.plans, o.selected, o.nPlanned)
  }

  /** The first k iterations of the main loop. */
  function Run(o: Outcome, order: seq<Candidate>, k: nat, h: real, tr: Transition): (r: Outcome)
    requires k <= |order| && AllInRange(order, |o.plans|)
    ensures |r.plans| == |o.plans|
  {
    if k == 0 then o
    else Step(Run(o, order, k - 1, h, tr), order[k - 1], h, tr)
  }

  // ---------------------------------------------------------------------
  // The choice among the trial verdicts
  // ---------------------------------------------------------------------

  /** The `martin` flag and the position of `feasible`. */
  datatype Pick = Pick(found: bool, idx: nat)

  /** The trial loop's bookkeeping over the verdicts bs of the windows ws,
      after k iterations. */
  function Scan(bs: seq<bool>, ws: seq<Window>, k: nat): (r: Pick)
    requires |bs| == |ws| && k <= |ws|
    ensures r.idx == 0 || r.idx < k
  {
    if k == 0 then Pick(false, 0)
    else NextPick(Scan(bs, ws, k - 1), bs, ws, k - 1)
  }

  /** One iteration of the bookkeeping, on verdict bs[j]: a window replaces
      the choice only when its trial succeeds, an earlier one already did,
      and it is strictly less cloudy. */
  function NextPick(p: Pick, bs: seq<bool>, ws: seq<Window>, j: nat): (r: Pick)
    requires |bs| == |ws| && j < |ws| && p.idx <= j
    ensures r.idx == p.idx || r.idx == j
  {
    if bs[j] && p.found && ws[j].cloudProba < ws[p.idx].cloudProba then Pick(true, j)
    else Pick(p.found || bs[j], p.idx)
  }

  /** The windows the loop can end up choosing, f being the first feasible
      trial: window 0, and every feasible window after f. */
  predicate Eligible(bs: seq<bool>, f: nat, j: nat)
    requires j < |bs|
  {
    j == 0 || (f < j && bs[j])
  }

  /** After k iterations the flag says whether some trial so far succeeded;
      the choice is then the earliest window of least cloud probability
      among the eligible ones seen so far, and window 0 otherwise. */
  lemma {:induction false} ScanChoice(bs: seq<bool>, ws: seq<Window>, k: nat)
    requires |bs| == |ws| && 0 < k <= |ws|
    ensures var p, f := Scan(bs, ws, k), FirstTrue(bs);
      && (p.found <==> exists j :: 0 <= j < k && bs[j])
      && (!p.found ==> p.idx == 0)
      && (p.found ==>
            && f.Some? && f.value < k && p.idx < k && Eligible(bs, f.value, p.idx)
            && (forall j :: 0 <= j < k && Eligible(bs, f.value, j) ==> ws[p.idx].cloudProba <= ws[j].cloudProba)
            && (forall j :: 0 <= j < p.idx && Eligible(bs, f.value, j) ==> ws[j].cloudProba > ws[p.idx].cloudProba))
  {
    if k > 1 {
      ScanChoice(bs, ws, k - 1);
      var p, f := Scan(bs, ws, k - 1), FirstTrue(bs);
      if bs[k - 1] && !p.found {
        assert f.Some? && f.value == k - 1;
      }
    }
  }

  /** When window 0 passes its trial, the committed window is a feasible one
      of least cloud probability, the earliest listed among equals. */
  lemma ChoiceFirstFeasible(bs: seq<bool>, ws: seq<Window>)
    requires |bs| == |ws| && 0 < |ws| && bs[0]
    ensures var p := Scan(bs, ws, |ws|);
      && p.found && p.idx < |ws| && bs[p.idx]
      && (forall j :: 0 <= j < |ws| && bs[j] ==> ws[p.idx].cloudProba <= ws[j].cloudProba)
      && (forall j :: 0 <= j < p.idx && bs[j] ==> ws[j].cloudProba > ws[p.idx].cloudProba)
  {
    ScanChoice(bs, ws, |ws|);
  }

  /** When window 0 fails its trial but a later one passes, the first
      feasible window is never the one committed: the loop commits window 0
      itself, whose addition was just found infeasible, or a later feasible
      window of cloud probability strictly below window 0's. */
  lemma ChoiceFirstInfeasible(bs: seq<bool>, ws: seq<Window>)
    requires |bs| == |ws| && 0 < |ws| && !bs[0] && exists j :: 0 <= j < |ws| && bs[j]
    ensures var p, f := Scan(bs, ws, |ws|), FirstTrue(bs);
      && p.found && f.Some? && p.idx != f.value
      && (p.idx == 0 || (p.idx < |ws| && bs[p.idx] && ws[p.idx].cloudProba < ws[0].cloudProba))
  {
    ScanChoice(bs, ws, |ws|);
  }

  // ---------------------------------------------------------------------
  // The reference, on sorted window lists
  // ---------------------------------------------------------------------

  /** The window lists as the next feasibility test sees them: sorted by
      earliest start.  A commit appends without sorting, so the plans
      themselves need not be sorted. */
  function Norm(ps: seq<PlanState>): (r: seq<seq<Window>>)
    ensures |r| == |ps|
  {
    seq(|ps|, i requires 0 <= i < |ps| => SortByStart(ps[i].windows))
  }

  function Abs(o: Outcome): (r: Summary)
    ensures |r.windows| == |o.plans| && r.selected == o.selected && r.nPlanned == o.nPlanned
  {
    Summary(Norm(o.plans), o.selected, o.nPlanned)
  }

  /** The reference for one iteration: every window is judged against the
      plans as they were before the candidate, and the window Scan picks
      is inserted when some verdict is positive. */
  function StepSpec(a: Summary, c: Candidate, h: real, tr: Transition): (r: Summary)
    requires InRange(c, |a.windows|)
    ensures |r.windows| == |a.windows|
  {
    if c.windows == [] then a
    else
      var p := Scan(Trials(a.windows, c.windows, h, tr), c.windows, |c.windows|);
      if p.found then
        var w := c.windows[p.idx];
        Summary(Inserted(a.windows, w), a.selected[c.idx := w], a.nPlanned + 1)
      else a
  }

  function RunSpec(a: Summary, order: seq<Candidate>, k: nat, h: real, tr: Transition): (r: Summary)
    requires k <= |order| && AllInRange(order, |a.windows|)
    ensures |r.windows| == |a.windows|
  {
    if k == 0 then a
    else StepSpec(RunSpec(a, order, k - 1, h, tr), order[k - 1], h, tr)
  }

  /** The invariant: planned and selected windows in agreement, nPlanned
      counting the selections.  Unlike the first-fit planner, plans are not
      kept feasible. */
  ghost predicate Good(a: Summary)
  {
    && Tracked(a.windows, a.selected)
    && Placed(a.windows, a.selected)
    && a.nPlanned == |a.selected|
  }

  /** Every window list is sorted by earliest start. */
  ghost predicate SortedPlans(W: seq<seq<Window>>)
  {
    forall s :: 0 <= s < |W| ==> W[s] == SortByStart(W[s])
  }

  /** Whatever order a commit left a plan's windows in, the feasibility test
      sees them sorted by earliest start. */
  lemma NormSorted(ps: seq<PlanState>)
    ensures SortedPlans(Norm(ps))
  {
    forall s | 0 <= s < |ps| ensures Norm(ps)[s] == SortByStart(Norm(ps)[s]) {
      SortBySorted(ps[s].windows, StartKey);
      SortByIdempotent(Norm(ps)[s], StartKey);
    }
  }

  ghost predicate Inv(o: Outcome)
  {
    Good(Abs(o))
  }

  lemma InitialInv(n: nat)
    ensures Inv(Outcome(EmptyPlans(n), map[], 0))
  {
    assert forall s :: 0 <= s < n ==> Norm(EmptyPlans(n))[s] == [];
  }

  /** One iteration keeps the invariant. */
  lemma StepGood(a: Summary, c: Candidate, h: real, tr: Transition)
    requires Good(a) && WellFormedCandidate(c, |a.windows|) && c.idx !in a.selected
    ensures Good(StepSpec(a, c, h, tr))
  {
    if c.windows != [] {
      var p := Scan(Trials(a.windows, c.windows, h, tr), c.windows, |c.windows|);
      if p.found {
        var w := c.windows[p.idx];
        assert w in c.windows;
        CommitTracked(a.windows, a.selected, w);
        CommitPlaced(a.windows, a.selected, w);
        AddKey(a.selected, w.candidate, w);
      }
    }
  }

  /** A candidate is committed exactly when one of its trials, against the
      plans as they were before it, succeeds; the commit inserts the chosen
      window and counts it once, and nothing changes otherwise. */
  lemma StepCommits(a: Summary, c: Candidate, h: real, tr: Transition)
    requires InRange(c, |a.windows|)
    ensures var bs := Trials(a.windows, c.windows, h, tr);
            var r := StepSpec(a, c, h, tr);
      if exists j :: 0 <= j < |bs| && bs[j] then
        var w := c.windows[Scan(bs, c.windows, |bs|).idx];
        r == Summary(Inserted(a.windows, w), a.selected[c.idx := w], a.nPlanned + 1)
      else r == a
  {
    if c.windows != [] {
      ScanChoice(Trials(a.windows, c.windows, h, tr), c.windows, |c.windows|);
    }
  }

  // ---------------------------------------------------------------------
  // The untested commit, and the choice as evidently intended
  // ---------------------------------------------------------------------

  /** As written: when window 0 fails its trial and Scan still rests on it
      with the flag raised, the planner commits window 0, and the plan it is
      committed to no longer passes the feasibility test. */
  lemma CommitInfeasible(a: Summary, c: Candidate, h: real, tr: Transition)
    requires InRange(c, |a.windows|) && c.windows != []
    ensures var bs, w0 := Trials(a.windows, c.windows, h, tr), c.windows[0];
            var r := StepSpec(a, c, h, tr);
      !bs[0] && Scan(bs, c.windows, |bs|) == Pick(true, 0) ==>
        && w0.satellite < |r.windows|
        && r.selected == a.selected[c.idx := w0]
        && !Feasible(r.windows[w0.satellite], h, tr)
  {
    assert c.windows[0] in c.windows;
  }

  function ScenarioAcq(id: nat, candidate: nat, satellite: nat, es: real, ls: real, d: real, cloud: real): Window
  {
    Window(id, candidate, 0, satellite, es, ls, d, cloud)
  }

  /** The case happens: satellite 0 holds A, which fills [0, 10]; candidate 1
      offers w0 at [5, 5] on satellite 0, which cannot follow A, and w1 on the
      idle satellite 1, which passes but is cloudier.  The planner commits w0
      and the plan of satellite 0, feasible before, is not any more. */
  lemma ScenarioCommitInfeasible(tr: Transition)
    requires tr(ScenarioAcq(0, 0, 0, 0.0, 0.0, 10.0, 0.0), ScenarioAcq(1, 1, 0, 5.0, 5.0, 1.0, 0.0)) >= 0.0
    ensures var A, w0, w1 := ScenarioAcq(0, 0, 0, 0.0, 0.0, 10.0, 0.0), ScenarioAcq(1, 1, 0, 5.0, 5.0, 1.0, 0.0),
                             ScenarioAcq(2, 1, 1, 0.0, 10.0, 1.0, 0.5);
            var a := Summary([[A], []], map[0 := A], 1);
            var r := StepSpec(a, Candidate(1, 0, [w0, w1]), 0.0, tr);
      && Good(a) && PlansOk(a.windows, 0.0, tr)
      && r.selected == map[0 := A, 1 := w0] && r.nPlanned == 2
      && !Feasible(r.windows[0], 0.0, tr) && !PlansOk(r.windows, 0.0, tr)
  {
    var A, w0, w1 := ScenarioAcq(0, 0, 0, 0.0, 0.0, 10.0, 0.0), ScenarioAcq(1, 1, 0, 5.0, 5.0, 1.0, 0.0),
                     ScenarioAcq(2, 1, 1, 0.0, 10.0, 1.0, 0.5);
    var a := Summary([[A], []], map[0 := A], 1);
    var c := Candidate(1, 0, [w0, w1]);
    assert SortByStart([A]) == [A];
    assert SortByStart([w1]) == [w1];
    assert [A] + [w0] == [A, w0] && [] + [w1] == [w1];
    assert SortByStart([A, w0]) == [A, w0] by {
      assert [A, w0][1..] == [w0];
      assert SortByStart([w0]) == [w0];
    }
    assert StartAt([A, w0], 0.0, tr, 1) > 5.0;
    var bs := Trials(a.windows, c.windows, 0.0, tr);
    assert !bs[0] && bs[1];
    assert Scan(bs, c.windows, 2) == Pick(true, 0);
    assert Inserted(a.windows, w0)[0] == [A, w0];
  }

  /** One iteration of the bookkeeping as the commented-out assignment
      `feasible = acqWindow` evidently meant it: the first feasible window is
      taken, and a later feasible one replaces it when strictly less cloudy. */
  function NextPickFixed(p: Pick, bs: seq<bool>, ws: seq<Window>, j: nat): (r: Pick)
    requires |bs| == |ws| && j < |ws| && p.idx <= j
    ensures r.idx == p.idx || r.idx == j
  {
    if bs[j] && (!p.found || ws[j].cloudProba < ws[p.idx].cloudProba) then Pick(true, j) else p
  }

  function ScanFixed(bs: seq<bool>, ws: seq<Window>, k: nat): (r: Pick)
    requires |bs| == |ws| && k <= |ws|
    ensures r.idx == 0 || r.idx < k
  {
    if k == 0 then Pick(false, 0)
    else NextPickFixed(ScanFixed(bs, ws, k - 1), bs, ws, k - 1)
  }

  /** The intended choice: the flag says whether some trial succeeded; the
      choice is then a feasible window of least cloud probability, the
      earliest listed among equals. */
  lemma {:induction false} ScanFixedChoice(bs: seq<bool>, ws: seq<Window>, k: nat)
    requires |bs| == |ws| && k <= |ws|
    ensures var p := ScanFixed(bs, ws, k);
      && (p.found <==> exists j :: 0 <= j < k && bs[j])
      && (p.found ==>
            && p.idx < k && bs[p.idx]
            && (forall j :: 0 <= j < k && bs[j] ==> ws[p.idx].cloudProba <= ws[j].cloudProba)
            && (forall j :: 0 <= j < p.idx && bs[j] ==> ws[j].cloudProba > ws[p.idx].cloudProba))
  {
    if k > 0 {
      ScanFixedChoice(bs, ws, k - 1);
    }
  }

  /** When window 0 passes its trial, the source's choice is the intended
      one. */
  lemma FixedAgrees(bs: seq<bool>, ws: seq<Window>)
    requires |bs| == |ws| && 0 < |ws| && bs[0]
    ensures ScanFixed(bs, ws, |ws|) == Scan(bs, ws, |ws|)
  {
    ChoiceFirstFeasible(bs, ws);
    ScanFixedChoice(bs, ws, |ws|);
    var p, q := Scan(bs, ws, |ws|), ScanFixed(bs, ws, |ws|);
    assert !(p.idx < q.idx) && !(q.idx < p.idx);
  }

  /** The reference iteration with the intended choice. */
  function StepFixed(a: Summary, c: Candidate, h: real, tr: Transition): (r: Summary)
    requires InRange(c, |a.windows|)
    ensures |r.windows| == |a.windows|
  {
    if c.windows == [] then a
    else
      var p := ScanFixed(Trials(a.windows, c.windows, h, tr), c.windows, |c.windows|);
      if p.found then
        var w := c.windows[p.idx];
        Summary(Inserted(a.windows, w), a.selected[c.idx := w], a.nPlanned + 1)
      else a
  }

  /** With the intended choice every commit passed its own trial, so the
      iteration keeps every plan sorted and feasible besides the invariant. */
  lemma StepFixedOk(a: Summary, c: Candidate, h: real, tr: Transition)
    requires Good(a) && PlansOk(a.windows, h, tr) && WellFormedCandidate(c, |a.windows|) && c.idx !in a.selected
    ensures var r := StepFixed(a, c, h, tr);
      Good(r) && PlansOk(r.windows, h, tr)
  {
    if c.windows != [] {
      var bs := Trials(a.windows, c.windows, h, tr);
      ScanFixedChoice(bs, c.windows, |c.windows|);
      var p := ScanFixed(bs, c.windows, |c.windows|);
      if p.found {
        var w := c.windows[p.idx];
        assert w in c.windows;
        InsertedOk(a.windows, w, h, tr);
        CommitTracked(a.windows, a.selected, w);
        CommitPlaced(a.windows, a.selected, w);
        AddKey(a.selected, w.candidate, w);
      }
    }
  }

  // ---------------------------------------------------------------------
  // The plan states follow the reference
  // ---------------------------------------------------------------------

  /** The state of the trial loop matches the bookkeeping p: same sorted
      lists as ps, same flag, and the window at p's position as choice. */
  ghost predicate Agrees(ps: seq<PlanState>, ws: seq<Window>, s: Search, p: Pick)
    requires p.idx < |ws|
  {
    |s.plans| == |ps| && Norm(s.plans) == Norm(ps) && s.found == p.found && s.best == ws[p.idx]
  }

  /** The trial loop judges every window against the plans as they were
      before the candidate, tracks the flag and choice that Scan computes on
      those verdicts, and leaves every list with the same windows, sorted or
      in their old order. */
  lemma {:induction false} ProbesSpec(ps: seq<PlanState>, ws: seq<Window>, k: nat, h: real, tr: Transition)
    requires 0 < |ws| && k <= |ws| && forall w :: w in ws ==> w.satellite < |ps|
    requires forall w :: w in ws ==> w !in ps[w.satellite].windows
    ensures Agrees(ps, ws, Probes(ps, ws, k, h, tr), Scan(Trials(Windows(ps), ws, h, tr), ws, k))
  {
    if k > 0 {
      ProbesSpec(ps, ws, k - 1, h, tr);
      ProbesNext(ps, ws, k, h, tr);
    }
  }

  /** The induction step of ProbesSpec. */
  lemma ProbesNext(ps: seq<PlanState>, ws: seq<Window>, k: nat, h: real, tr: Transition)
    requires 0 < |ws| && 0 < k <= |ws| && forall w :: w in ws ==> w.satellite < |ps|
    requires forall w :: w in ws ==> w !in ps[w.satellite].windows
    requires Agrees(ps, ws, Probes(ps, ws, k - 1, h, tr), Scan(Trials(Windows(ps), ws, h, tr), ws, k - 1))
    ensures Agrees(ps, ws, Probes(ps, ws, k, h, tr), Scan(Trials(Windows(ps), ws, h, tr), ws, k))
  {
    ProbeAgree(ps, ws, k, Probes(ps, ws, k - 1, h, tr), Scan(Trials(Windows(ps), ws, h, tr), ws, k - 1), h, tr);
  }

  /** One trial keeps the loop state in agreement with the bookkeeping on
      the verdicts against the original lists. */
  lemma ProbeAgree(ps: seq<PlanState>, ws: seq<Window>, k: nat, s: Search, p: Pick, h: real, tr: Transition)
    requires 0 < k <= |ws| && forall w :: w in ws ==> w.satellite < |ps|
    requires forall w :: w in ws ==> w !in ps[w.satellite].windows
    requires (p.idx == 0 || p.idx < k - 1) && Agrees(ps, ws, s, p)
    ensures Agrees(ps, ws, ProbeStep(s, ws[k - 1], h, tr), NextPick(p, Trials(Windows(ps), ws, h, tr), ws, k - 1))
  {
    assert ws[k - 1] in ws;
    ProbeAgain(ps, ws, k - 1, s, h, tr);
  }

  /** A trial on lists that sort to the original ones: its verdict is that
      of the original lists, and afterwards the lists still sort to the
      original ones. */
  lemma ProbeAgain(ps: seq<PlanState>, ws: seq<Window>, j: nat, s: Search, h: real, tr: Transition)
    requires j < |ws| && forall w :: w in ws ==> w.satellite < |ps|
    requires |s.plans| == |ps| && Norm(s.plans) == Norm(ps) && ws[j] !in ps[ws[j].satellite].windows
    ensures var w, q, ok := ws[j], ProbeStep(s, ws[j], h, tr), Trials(Windows(ps), ws, h, tr)[j];
      && Norm(q.plans) == Norm(ps)
      && q.found == (s.found || ok)
      && q.best == if ok && s.found && w.cloudProba < s.best.cloudProba then w else s.best
  {
    var w := ws[j];
    var t := w.satellite;
    var X, L := s.plans[t].windows, ps[t].windows;
    assert Norm(s.plans)[t] == Norm(ps)[t];
    SortByMembers(X, StartKey);
    SortByMembers(L, StartKey);
    SortAppendResort(X, w, StartKey);
    SortAppendResort(L, w, StartKey);
    SortAppendRemoveUnsorted(X, w, StartKey);
    SortByFixed(X, StartKey);
    assert Windows(ps)[t] == L;
    var q := ProbeStep(s, w, h, tr);
    forall i | 0 <= i < |ps| ensures Norm(q.plans)[i] == Norm(ps)[i] {
      if i != t {
        assert Norm(s.plans)[i] == Norm(ps)[i];
      }
    }
  }

  /** None of c's windows is in the list of its satellite. */
  ghost predicate Unplanned(W: seq<seq<Window>>, c: Candidate)
  {
    forall w :: w in c.windows ==> w.satellite < |W| && w !in W[w.satellite]
  }

  /** Under the invariant, a candidate not selected yet has none of its
      windows planned. */
  lemma GoodUnplanned(a: Summary, c: Candidate)
    requires Good(a) && WellFormedCandidate(c, |a.windows|) && c.idx !in a.selected
    ensures Unplanned(a.windows, c)
  {
  }

  /** Sorting a list does not change its members. */
  lemma FreshWindows(o: Outcome, c: Candidate)
    requires Unplanned(Norm(o.plans), c)
    ensures forall w :: w in c.windows ==> w.satellite < |o.plans| && w !in o.plans[w.satellite].windows
  {
    forall w | w in c.windows ensures w !in o.plans[w.satellite].windows {
      SortByMembers(o.plans[w.satellite].windows, StartKey);
      assert Norm(o.plans)[w.satellite] == SortByStart(o.plans[w.satellite].windows);
    }
  }

  /** Appending w to a list that sorts to the original one sorts to the
      original with w inserted. */
  lemma CommitNorm(xs: seq<PlanState>, ps: seq<PlanState>, w: Window)
    requires |xs| == |ps| && Norm(xs) == Norm(ps) && w.satellite < |ps|
    ensures Norm(xs[w.satellite := AddWindow(xs[w.satellite], w)]) == Inserted(Norm(ps), w)
  {
    var s := w.satellite;
    assert Norm(xs)[s] == Norm(ps)[s];
    SortAppendResort(xs[s].windows, w, StartKey);
    var ys := xs[s := AddWindow(xs[s], w)];
    forall i | 0 <= i < |ps| ensures Norm(ys)[i] == Inserted(Norm(ps), w)[i] {
      if i != s {
        assert Norm(xs)[i] == Norm(ps)[i];
      }
    }
  }

  /** Trials against the sorted lists and against the lists as they are
      give the same verdicts. */
  lemma TrialsNorm(ps: seq<PlanState>, ws: seq<Window>, h: real, tr: Transition)
    requires forall w :: w in ws ==> w.satellite < |ps|
    ensures Trials(Norm(ps), ws, h, tr) == Trials(Windows(ps), ws, h, tr)
  {
    forall i | 0 <= i < |ws| ensures Trials(Norm(ps), ws, h, tr)[i] == Trials(Windows(ps), ws, h, tr)[i] {
      var t := ws[i].satellite;
      assert ws[i] in ws;
      assert Norm(ps)[t] == SortByStart(Windows(ps)[t]);
      SortAppendResort(Windows(ps)[t], ws[i], StartKey);
    }
  }

  /** From a state a abstracts, on a candidate none of whose windows is
      planned, one iteration does what the reference says. */
  lemma StepMatches(o: Outcome, a: Summary, c: Candidate, h: real, tr: Transition)
    requires Abs(o) == a && Unplanned(a.windows, c)
    ensures Abs(Step(o, c, h, tr)) == StepSpec(a, c, h, tr)
  {
    if c.windows != [] {
      FreshWindows(o, c);
      ProbesSpec(o.plans, c.windows, |c.windows|, h, tr);
      var s := Probes(o.plans, c.windows, |c.windows|, h, tr);
      TrialsNorm(o.plans, c.windows, h, tr);
      if s.found {
        CommitNorm(s.plans, o.plans, s.best);
      }
    }
  }

  /** No window of ws is listed on its satellite. */
  ghost predicate Untried(ps: seq<PlanState>, ws: seq<Window>)
  {
    forall w :: w in ws ==> w.satellite < |ps| && w !in ps[w.satellite].windows
  }

  /** None of the first k windows of ws has a start-time entry on its
      satellite. */
  ghost predicate Untimed(ps: seq<PlanState>, ws: seq<Window>, k: nat)
    requires k <= |ws| && Untried(ps, ws)
  {
    forall j :: 0 <= j < k ==> ws[j] in ws && ws[j] !in ps[ws[j].satellite].startTimes
  }

  /** A trial of w leaves any other window x that is neither listed nor
      timed on x's satellite untimed, and removes w's own entry. */
  lemma ProbeUntimed(s: Search, w: Window, x: Window, h: real, tr: Transition)
    requires w.satellite < |s.plans| && x.satellite < |s.plans|
    requires x != w ==> x !in s.plans[x.satellite].windows && x !in s.plans[x.satellite].startTimes
    ensures x !in ProbeStep(s, w, h, tr).plans[x.satellite].startTimes
  {
    var t := w.satellite;
    if x != w && x.satellite == t {
      var ws := SortByStart(s.plans[t].windows + [w]);
      SortByMembers(s.plans[t].windows + [w], StartKey);
      var n := Written(ws, h, tr);
      assert x !in s.plans[t].windows + [w];
      RecordedMiss(s.plans[t].startTimes, ws, h, tr, n, x);
    }
  }

  /** A trial of a window that is not listed leaves its satellite's list
      with the same members, sorted. */
  lemma ProbeUntried(s: Search, ws: seq<Window>, w: Window, h: real, tr: Transition)
    requires Untried(s.plans, ws) && w in ws
    ensures Untried(ProbeStep(s, w, h, tr).plans, ws)
  {
    var t := w.satellite;
    SortAppendRemoveUnsorted(s.plans[t].windows, w, StartKey);
    SortByMembers(s.plans[t].windows, StartKey);
  }

  /** One trial keeps the loop state untried and extends the untimed
      prefix by the window just tried. */
  lemma ProbeUntimedStep(ws: seq<Window>, k: nat, s: Search, h: real, tr: Transition)
    requires 0 < k <= |ws| && Untried(s.plans, ws) && Untimed(s.plans, ws, k - 1)
    ensures Untried(ProbeStep(s, ws[k - 1], h, tr).plans, ws)
    ensures Untimed(ProbeStep(s, ws[k - 1], h, tr).plans, ws, k)
  {
    assert ws[k - 1] in ws;
    ProbeUntried(s, ws, ws[k - 1], h, tr);
    forall j | 0 <= j < k ensures ws[j] !in ProbeStep(s, ws[k - 1], h, tr).plans[ws[j].satellite].startTimes {
      assert ws[j] in ws;
      ProbeUntimed(s, ws[k - 1], ws[j], h, tr);
    }
  }

  /** After the trial loop, no tried window has a start-time entry on its
      satellite: each trial removes its window's entry, and later trials
      only write entries of the windows they test. */
  lemma {:induction false} ProbesUntimed(ps: seq<PlanState>, ws: seq<Window>, k: nat, h: real, tr: Transition)
    requires 0 < |ws| && k <= |ws| && Untried(ps, ws)
    ensures Untried(Probes(ps, ws, k, h, tr).plans, ws) && Untimed(Probes(ps, ws, k, h, tr).plans, ws, k)
  {
    if k > 0 {
      ProbesUntimed(ps, ws, k - 1, h, tr);
      ProbeUntimedStep(ws, k, Probes(ps, ws, k - 1, h, tr), h, tr);
      ProbesUnfold(ps, ws, k, h, tr);
    }
  }

  /** As written, the window committed after the trial loop is appended to
      its plan without a feasibility test, so it is listed but has no entry
      in the start-time map until a later test of that plan writes one. */
  lemma CommitUntimed(o: Outcome, c: Candidate, h: real, tr: Transition)
    requires InRange(c, |o.plans|) && Unplanned(Norm(o.plans), c) && c.idx !in o.selected
    ensures var r := Step(o, c, h, tr);
      c.idx in r.selected ==>
        var w := r.selected[c.idx];
        && w in c.windows && w.satellite < |r.plans|
        && w in r.plans[w.satellite].windows && w !in r.plans[w.satellite].startTimes
  {
    if c.windows != [] {
      FreshWindows(o, c);
      ProbesUntimed(o.plans, c.windows, |c.windows|, h, tr);
      var s := Probes(o.plans, c.windows, |c.windows|, h, tr);
      var j :| 0 <= j < |c.windows| && c.windows[j] == s.best;
    }
  }

  // ---------------------------------------------------------------------
  // The whole run
  // ---------------------------------------------------------------------

  /** The first k iterations select only candidates among the first k. */
  lemma {:induction false} RunKeys(a: Summary, order: seq<Candidate>, k: nat, h: real, tr: Transition)
    requires k <= |order| && AllInRange(order, |a.windows|)
    ensures RunSpec(a, order, k, h, tr).selected.Keys <= a.selected.Keys + IdxUpTo(order, k)
  {
    if k > 0 {
      RunKeys(a, order, k - 1, h, tr);
      StepCommits(RunSpec(a, order, k - 1, h, tr), order[k - 1], h, tr);
    }
  }

  /** The candidate at position k - 1 of a well-formed order is neither in
      the initial selection nor among the candidates before it. */
  lemma NextFresh(order: seq<Candidate>, n: nat, k: nat, init: set<nat>, keys: set<nat>)
    requires WellFormed(order, n) && 0 < k <= |order|
    requires forall i :: 0 <= i < |order| ==> order[i].idx !in init
    requires keys <= init + IdxUpTo(order, k - 1)
    ensures order[k - 1].idx !in keys
  {
    DistinctIdx(order, n, k - 1);
    assert order[k - 1] in order;
  }

  /** The run keeps the invariant. */
  lemma {:induction false} RunGood(a: Summary, order: seq<Candidate>, k: nat, h: real, tr: Transition)
    requires Good(a) && WellFormed(order, |a.windows|) && AllInRange(order, |a.windows|) && k <= |order|
    requires forall i :: 0 <= i < |order| ==> order[i].idx !in a.selected
    ensures Good(RunSpec(a, order, k, h, tr))
  {
    if k > 0 {
      RunGood(a, order, k - 1, h, tr);
      RunGoodStep(a, order, k, h, tr);
    }
  }

  /** The induction step of RunGood. */
  lemma RunGoodStep(a: Summary, order: seq<Candidate>, k: nat, h: real, tr: Transition)
    requires WellFormed(order, |a.windows|) && AllInRange(order, |a.windows|) && 0 < k <= |order|
    requires forall i :: 0 <= i < |order| ==> order[i].idx !in a.selected
    requires Good(RunSpec(a, order, k - 1, h, tr))
    ensures Good(RunSpec(a, order, k, h, tr))
  {
    NextUnselected(a, order, k, h, tr);
    StepGood(RunSpec(a, order, k - 1, h, tr), order[k - 1], h, tr);
  }

  /** One iteration leaves every other candidate's selection as it was and
      gives the candidate at hand, if newly selected, one of its own
      windows. */
  lemma StepSelects(a: Summary, c: Candidate, h: real, tr: Transition)
    requires InRange(c, |a.windows|)
    ensures var r := StepSpec(a, c, h, tr);
      && (forall k :: k in r.selected && k != c.idx ==> k in a.selected && r.selected[k] == a.selected[k])
      && (c.idx in r.selected && c.idx !in a.selected ==> r.selected[c.idx] in c.windows)
  {
  }

  /** Each selected candidate of the order got one of its own windows. */
  lemma {:induction false} RunOwnWindows(a: Summary, order: seq<Candidate>, k: nat, h: real, tr: Transition)
    requires WellFormed(order, |a.windows|) && k <= |order|
    requires forall i :: 0 <= i < |order| ==> order[i].idx !in a.selected
    ensures AllInRange(order, |a.windows|)
    ensures OwnWindows(order, k, RunSpec(a, order, k, h, tr).selected)
  {
    WellFormedInRange(order, |a.windows|);
    if k > 0 {
      RunKeys(a, order, k - 1, h, tr);
      RunOwnWindows(a, order, k - 1, h, tr);
      DistinctIdx(order, |a.windows|, k - 1);
      var p := RunSpec(a, order, k - 1, h, tr);
      assert order[k - 1] in order;
      StepSelects(p, order[k - 1], h, tr);
      OwnWindowsStep(order, k, a.selected.Keys, p.selected, StepSpec(p, order[k - 1], h, tr).selected);
    }
  }

  /** Among the first k candidates of the order, each selected one got one
      of its own windows. */
  ghost predicate OwnWindows(order: seq<Candidate>, k: nat, sel: map<nat, Window>)
    requires k <= |order|
  {
    forall i :: 0 <= i < k && order[i].idx in sel ==> sel[order[i].idx] in order[i].windows
  }

  /** The induction step of RunOwnWindows, on the selections alone. */
  lemma OwnWindowsStep(order: seq<Candidate>, k: nat, init: set<nat>, p: map<nat, Window>, r: map<nat, Window>)
    requires 0 < k <= |order| && OwnWindows(order, k - 1, p)
    requires p.Keys <= init + IdxUpTo(order, k - 1)
    requires order[k - 1].idx !in init && order[k - 1].idx !in IdxUpTo(order, k - 1)
    requires forall j :: j in r && j != order[k - 1].idx ==> j in p && r[j] == p[j]
    requires order[k - 1].idx in r && order[k - 1].idx !in p ==> r[order[k - 1].idx] in order[k - 1].windows
    ensures OwnWindows(order, k, r)
  {
    forall i | 0 <= i < k && order[i].idx in r ensures r[order[i].idx] in order[i].windows {
      if i < k - 1 {
        assert order[i].idx in IdxUpTo(order, k - 1);
      }
    }
  }

  /** From a state a abstracts, under the invariant, the main loop does what
      the reference says. */
  lemma {:induction false} RunMatches(o: Outcome, a: Summary, order: seq<Candidate>, k: nat, h: real, tr: Transition)
    requires Abs(o) == a && Good(a) && WellFormed(order, |a.windows|) && AllInRange(order, |a.windows|)
    requires k <= |order|
    requires forall i :: 0 <= i < |order| ==> order[i].idx !in a.selected
    ensures Abs(Run(o, order, k, h, tr)) == RunSpec(a, order, k, h, tr)
  {
    if k > 0 {
      RunMatches(o, a, order, k - 1, h, tr);
      NextReady(a, order, k, h, tr);
      StepMatches(Run(o, order, k - 1, h, tr), RunSpec(a, order, k - 1, h, tr), order[k - 1], h, tr);
    }
  }

  /** Before iteration k of the reference run, none of the windows of the
      candidate at hand is planned. */
  lemma NextReady(a: Summary, order: seq<Candidate>, k: nat, h: real, tr: Transition)
    requires Good(a) && WellFormed(order, |a.windows|) && AllInRange(order, |a.windows|) && 0 < k <= |order|
    requires forall i :: 0 <= i < |order| ==> order[i].idx !in a.selected
    ensures Unplanned(RunSpec(a, order, k - 1, h, tr).windows, order[k - 1])
  {
    RunGood(a, order, k - 1, h, tr);
    NextUnselected(a, order, k, h, tr);
    GoodUnplanned(RunSpec(a, order, k - 1, h, tr), order[k - 1]);
  }

  /** Before iteration k of the reference run, the candidate at hand is not
      yet selected. */
  lemma NextUnselected(a: Summary, order: seq<Candidate>, k: nat, h: real, tr: Transition)
    requires WellFormed(order, |a.windows|) && AllInRange(order, |a.windows|) && 0 < k <= |order|
    requires forall i :: 0 <= i < |order| ==> order[i].idx !in a.selected
    ensures WellFormedCandidate(order[k - 1], |a.windows|)
    ensures order[k - 1].idx !in RunSpec(a, order, k - 1, h, tr).selected
  {
    RunKeys(a, order, k - 1, h, tr);
    NextFresh(order, |a.windows|, k, a.selected.Keys, RunSpec(a, order, k - 1, h, tr).selected.Keys);
    assert order[k - 1] in order;
  }

  /** What the planner computes from empty plans follows the reference and
      keeps the invariant. */
  lemma PlanningResult(cs: seq<Candidate>, sh: Shuffle<Candidate>, n: nat, h: real, tr: Transition)
    requires WellFormed(cs, n) && Permutes(sh)
    ensures AllInRange(Order(cs, sh), n)
    ensures var order := Order(cs, sh);
            var o := Outcome(EmptyPlans(n), map[], 0);
            var r := Run(o, order, |order|, h, tr);
      Inv(r) && Abs(r) == RunSpec(Abs(o), order, |order|, h, tr)
  {
    var order := Order(cs, sh);
    var o := Outcome(EmptyPlans(n), map[], 0);
    OrderWellFormed(cs, sh, n);
    InitialInv(n);
    WellFormedInRange(order, n);
    RunMatches(o, Abs(o), order, |order|, h, tr);
    RunGood(Abs(o), order, |order|, h, tr);
  }

  /** From no selection, the reference selects only candidates of priority
      0 or 1. */
  lemma SelectedTiers(cs: seq<Candidate>, sh: Shuffle<Candidate>, a: Summary, h: real, tr: Transition)
    requires AllInRange(cs, |a.windows|) && Permutes(sh) && a.selected == map[]
    ensures AllInRange(Order(cs, sh), |a.windows|)
    ensures var order := Order(cs, sh);
      forall k :: k in RunSpec(a, order, |order|, h, tr).selected ==>
        exists c :: c in cs && c.idx == k && (c.priority == 0 || c.priority == 1)
  {
    var order := Order(cs, sh);
    OrderInRange(cs, sh, |a.windows|);
    RunKeys(a, order, |order|, h, tr);
    OrderCounts(cs, sh);
    forall k | k in IdxUpTo(order, |order|)
      ensures exists c :: c in cs && c.idx == k && (c.priority == 0 || c.priority == 1)
    {
      var i :| 0 <= i < |order| && order[i].idx == k;
      assert order[i] in multiset(order);
    }
  }

  /** From no selection, the reference gives each selected candidate one of
      its own windows. */
  lemma SelectedOwnWindows(cs: seq<Candidate>, sh: Shuffle<Candidate>, a: Summary, h: real, tr: Transition)
    requires WellFormed(cs, |a.windows|) && Permutes(sh) && a.selected == map[]
    ensures AllInRange(Order(cs, sh), |a.windows|)
    ensures var order := Order(cs, sh);
            var r := RunSpec(a, order, |order|, h, tr);
      forall c :: c in cs && c.idx in r.selected ==> r.selected[c.idx] in c.windows
  {
    var order := Order(cs, sh);
    OrderWellFormed(cs, sh, |a.windows|);
    OrderCounts(cs, sh);
    RunKeys(a, order, |order|, h, tr);
    RunOwnWindows(a, order, |order|, h, tr);
    OwnWindowsOf(cs, order, |a.windows|, RunSpec(a, order, |order|, h, tr).selected);
  }

  /** Own windows by position in the order are own windows by candidate of
      the input. */
  lemma OwnWindowsOf(cs: seq<Candidate>, order: seq<Candidate>, n: nat, sel: map<nat, Window>)
    requires WellFormed(cs, n) && forall c :: c in order ==> c in cs
    requires sel.Keys <= IdxUpTo(order, |order|) && OwnWindows(order, |order|, sel)
    ensures forall c :: c in cs && c.idx in sel ==> sel[c.idx] in c.windows
  {
    forall c | c in cs && c.idx in sel ensures sel[c.idx] in c.windows {
      var i :| 0 <= i < |order| && order[i].idx == c.idx;
      assert order[i] in order;
    }
  }

  // ---------------------------------------------------------------------
  // The planner object
  // ---------------------------------------------------------------------

  class ProbaPlanner {
    const horizonStart: real
    const transition: Transition
    /** satellitePlans, indexed by satellite number. */
    const satellitePlans: seq<SatellitePlan>

    ghost predicate Valid()
    {
      Distinct(satellitePlans) && Shared(satellitePlans, horizonStart, transition)
    }

    constructor (nSatellites: nat, h: real, tr: Transition)
      ensures Valid() && |satellitePlans| == nSatellites
      ensures horizonStart == h && transition == tr
      ensures States(satellitePlans) == EmptyPlans(nSatellites)
      ensures forall i :: 0 <= i < nSatellites ==> fresh(satellitePlans[i])
    {
      var plans := NewPlans(nSatellites, h, tr);
      horizonStart := h;
      transition := tr;
      satellitePlans := plans;
    }

    /** The trial loop over the windows of one candidate, with the `martin`
        flag and the running choice `feasible`. */
    method TrialWindows(a: Candidate) returns (martin: bool, feasible: Window)
      requires Valid() && InRange(a, |satellitePlans|) && a.windows != []
      modifies satellitePlans
      ensures Search(States(satellitePlans), martin, feasible)
           == Probes(old(States(satellitePlans)), a.windows, |a.windows|, horizonStart, transition)
    {
      ghost var ps := States(satellitePlans);
      martin := false;
      feasible := a.windows[0];
      ghost var cur := Search(ps, martin, feasible);
      for j := 0 to |a.windows|
        invariant cur == Probes(ps, a.windows, j, horizonStart, transition)
        invariant Search(States(satellitePlans), martin, feasible) == cur
      {
        martin, feasible := TrialWindow(a.windows[j], martin, feasible);
        ProbesUnfold(ps, a.windows, j + 1, horizonStart, transition);
        cur := ProbeStep(cur, a.windows[j], horizonStart, transition);
      }
    }

    /** One iteration of the trial loop: add, isFeasible, update of
        `martin` and `feasible` on success, remove. */
    method TrialWindow(acqWindow: Window, martin: bool, feasible: Window) returns (martin': bool, feasible': Window)
      requires Valid() && acqWindow.satellite < |satellitePlans|
      modifies satellitePlans
      ensures Search(States(satellitePlans), martin', feasible')
           == ProbeStep(Search(old(States(satellitePlans)), martin, feasible), acqWindow, horizonStart, transition)
    {
      var s := acqWindow.satellite;
      martin', feasible' := martin, feasible;
      AddAt(satellitePlans, s, acqWindow);
      var ok := CheckAt(satellitePlans, s, horizonStart, transition);
      if ok {
        if !martin' {
          martin' := true;
        } else if acqWindow.cloudProba < feasible'.cloudProba {
          feasible' := acqWindow;
        }
      }
      RemoveAt(satellitePlans, s, acqWindow);
    }

    /** planAcquisitions: returns the selected window of each planned
        candidate (by index) and nPlanned. */
    method PlanAcquisitions(candidateAcquisitions: seq<Candidate>, shuffle: Shuffle<Candidate>)
      returns (selected: map<nat, Window>, nPlanned: nat)
      requires Valid() && AllInRange(candidateAcquisitions, |satellitePlans|) && Permutes(shuffle)
      modifies satellitePlans
      ensures AllInRange(Order(candidateAcquisitions, shuffle), |satellitePlans|)
      ensures var order := Order(candidateAcquisitions, shuffle);
              var o := Run(Outcome(old(States(satellitePlans)), map[], 0), order, |order|, horizonStart, transition);
        States(satellitePlans) == o.plans && selected == o.selected && nPlanned == o.nPlanned
    {
      var p0, p1 := SplitTiers(candidateAcquisitions);
      var candidates := shuffle(0, p0) + shuffle(1, p1);
      OrderInRange(candidateAcquisitions, shuffle, |satellitePlans|);
      ghost var init := Outcome(States(satellitePlans), map[], 0);
      ghost var cur := init;
      ghost var k := 0;
      selected, nPlanned := map[], 0;
      var remaining := candidates;
      while remaining != []
        invariant k <= |candidates| && remaining == candidates[k..]
        invariant cur == Run(init, candidates, k, horizonStart, transition)
        invariant Outcome(States(satellitePlans), selected, nPlanned) == cur
        decreases |remaining|
      {
        var a := remaining[0];
        remaining := remaining[1..];
        assert a == candidates[k] && a in candidates;
        selected, nPlanned := PlanCandidate(a, selected, nPlanned);
        cur := Step(cur, a, horizonStart, transition);
        k := k + 1;
      }
    }

    /** One iteration of the main loop of planAcquisitions, on candidate a. */
    method PlanCandidate(a: Candidate, selected: map<nat, Window>, nPlanned: nat)
      returns (selected': map<nat, Window>, nPlanned': nat)
      requires Valid() && InRange(a, |satellitePlans|)
      modifies satellitePlans
      ensures Outcome(States(satellitePlans), selected', nPlanned')
           == Step(Outcome(old(States(satellitePlans)), selected, nPlanned), a, horizonStart, transition)
    {
      selected', nPlanned' := selected, nPlanned;
      if |a.windows| > 0 {
        var martin, feasible := TrialWindows(a);
        if martin {
          AddAt(satellitePlans, feasible.satellite, feasible);
          nPlanned' := nPlanned' + 1;
          selected' := selected'[a.idx := feasible];
        }
      }
    }
  }

  lemma OrderInRange(cs: seq<Candidate>, sh: Shuffle<Candidate>, n: nat)
    requires AllInRange(cs, n) && Permutes(sh)
    ensures AllInRange(Order(cs, sh), n)
  {
    OrderCounts(cs, sh);
    forall c | c in Order(cs, sh) ensures InRange(c, n) {
      assert c in multiset(Order(cs, sh));
    }
  }
}
