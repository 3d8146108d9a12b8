/** AcquisitionPlannerGreedyPriority: candidates are taken by non-decreasing
    priority, and each one gets the first of its windows, in list order, whose
    addition keeps its satellite's plan feasible. */
module GreedyPriority {
  import opened Problem
  import opened Sorting
  import opened Timeline
  import opened Insertion
  import opened Fleet
  import opened Selection

  /** The candidate comparator: by priority, smaller first. */
  function PriorityKey(c: Candidate): real { c.priority as real }

  // ---------------------------------------------------------------------
  // The selection as functions
  // ---------------------------------------------------------------------

  datatype Trial = Trial(plans: seq<PlanState>, chosen: Option<Window>)

  /** The inner loop over one candidate's windows, stopping at the first
      success. */
  function TryWindows(ps: seq<PlanState>, ws: seq<Window>, h: real, tr: Transition): (r: Trial)
    requires forall w :: w in ws ==> w.satellite < |ps|
    ensures |r.plans| == |ps|
    decreases |ws|
  {
    if ws == [] then Trial(ps, None)
    else
      var a := TryInsert(ps, ws[0], h, tr);
      if a.ok then Trial(a.plans, Some(ws[0]))
      else TryWindows(a.plans, ws[1..], h, tr)
  }

  /** One iteration of the outer loop, on candidate c. */
  function Step(o: Outcome, c: Candidate, h: real, tr: Transition): (r: Outcome)
    requires InRange(c, |o.plans|)
    ensures |r.plans| == |o.plans|
  {
    var t := TryWindows(o.plans, c.windows, h, tr);
    match t.chosen
    case None => Outcome(t.plans, o.selected, o.nPlanned)
    case Some(w) => Outcome(t.plans, o.selected[c.idx := w], o.nPlanned + 1)
  }

  /** The outer loop over candidates in the given processing order. */
  function Run(o: Outcome, order: seq<Candidate>, h: real, tr: Transition): (r: Outcome)
    requires AllInRange(order, |o.plans|)
    ensures |r.plans| == |o.plans|
    decreases |order|
  {
    if order == [] then o
    else Step(Run(o, order[..|order| - 1], h, tr), order[|order| - 1], h, tr)
  }

  lemma RunSnoc(o: Outcome, order: seq<Candidate>, k: nat, h: real, tr: Transition)
    requires k < |order| && AllInRange(order, |o.plans|)
    ensures Run(o, order[..k + 1], h, tr) == Step(Run(o, order[..k], h, tr), order[k], h, tr)
  {
    assert order[..k + 1][..k] == order[..k];
  }

  /** Re-sorting what is left and removing its head yields the next
      candidate of the processing order, and leaves a sorted rest. */
  lemma PopFacts(remaining: seq<Candidate>, cs: seq<Candidate>, order: seq<Candidate>, k: nat, n: nat)
    requires order == SortBy(cs, PriorityKey) && AllInRange(cs, n)
    requires remaining != [] && k <= |order| && SortBy(remaining, PriorityKey) == order[k..]
    ensures k < |order| && SortBy(remaining, PriorityKey)[0] == order[k] && InRange(order[k], n)
    ensures SortBy(SortBy(remaining, PriorityKey)[1..], PriorityKey) == order[k + 1..]
  {
    OrderInRange(cs, n);
    SortBySorted(cs, PriorityKey);
    assert order[k..][1..] == order[k + 1..];
    SortByIdempotent(order[k + 1..], PriorityKey);
  }

  // ---------------------------------------------------------------------
  // Properties
  // ---------------------------------------------------------------------

  /** The processing order: all candidates, each once, by non-decreasing
      priority, equal priorities in their original order. */
  lemma PriorityOrder(cs: seq<Candidate>)
    ensures var order := SortBy(cs, PriorityKey);
      && Sorted(order, PriorityKey)
      && multiset(order) == multiset(cs)
      && |order| == |cs|
      && SameKeyOrder(order, cs, PriorityKey)
  {
    SortBySorted(cs, PriorityKey);
    SortByStable(cs, PriorityKey);
    SortByMultiset(cs, PriorityKey);
  }

  lemma OrderInRange(cs: seq<Candidate>, n: nat)
    requires AllInRange(cs, n)
    ensures AllInRange(SortBy(cs, PriorityKey), n)
  {
    SortByMembers(cs, PriorityKey);
  }

  /** The inner loop tests every window against the plans as they were
      before the candidate (a failed trial restores its plan's windows), and
      commits the first feasible one, inserting it in its satellite's plan; a
      candidate with no such window, or no window at all, stays unselected
      and every plan keeps exactly its windows. */
  lemma {:induction false} TryWindowsFirstFeasible(ps: seq<PlanState>, ws: seq<Window>, h: real, tr: Transition)
    requires forall w :: w in ws ==> w.satellite < |ps|
    requires forall w :: w in ws ==> ps[w.satellite].windows == SortByStart(ps[w.satellite].windows) && w !in ps[w.satellite].windows
    ensures var r := TryWindows(ps, ws, h, tr);
            var f := FirstTrue(Trials(Windows(ps), ws, h, tr));
      && r.chosen == (if f.Some? then Some(ws[f.value]) else None)
      && Windows(r.plans) == (if f.Some? then Inserted(Windows(ps), ws[f.value]) else Windows(ps))
    decreases |ws|
  {
    if ws != [] {
      TrialsTail(Windows(ps), ws, h, tr);
      TryInsertSpec(ps, ws[0], h, tr);
      var a := TryInsert(ps, ws[0], h, tr);
      if !a.ok {
        forall w | w in ws[1..] ensures a.plans[w.satellite].windows == ps[w.satellite].windows {
          assert Windows(a.plans)[w.satellite] == a.plans[w.satellite].windows;
        }
        TryWindowsFirstFeasible(a.plans, ws[1..], h, tr);
        var f := FirstTrue(Trials(Windows(ps), ws[1..], h, tr));
        if f.Some? {
          assert ws[1..][f.value] == ws[f.value + 1];
        }
      }
    }
  }

  function Abs(o: Outcome): (r: Summary)
    ensures |r.windows| == |o.plans| && r.selected == o.selected && r.nPlanned == o.nPlanned
  {
    Summary(Windows(o.plans), o.selected, o.nPlanned)
  }

  /** The reference for one outer-loop iteration: commit the first window
      whose addition, on its own, is feasible. */
  function StepSpec(a: Summary, c: Candidate, h: real, tr: Transition): (r: Summary)
    requires InRange(c, |a.windows|)
    ensures |r.windows| == |a.windows|
  {
    match FirstTrue(Trials(a.windows, c.windows, h, tr))
    case None => a
    case Some(i) =>
      var w := c.windows[i];
      Summary(Inserted(a.windows, w), a.selected[c.idx := w], a.nPlanned + 1)
  }

  /** The reference for the outer loop. */
  function RunSpec(a: Summary, order: seq<Candidate>, h: real, tr: Transition): (r: Summary)
    requires AllInRange(order, |a.windows|)
    ensures |r.windows| == |a.windows|
    decreases |order|
  {
    if order == [] then a
    else StepSpec(RunSpec(a, order[..|order| - 1], h, tr), order[|order| - 1], h, tr)
  }

  /** The planner's invariant: every plan sorted and feasible (or empty),
      planned and selected windows in one-to-one agreement, and nPlanned
      counting the selected candidates. */
  ghost predicate Good(a: Summary, h: real, tr: Transition)
  {
    && PlansOk(a.windows, h, tr)
    && Tracked(a.windows, a.selected)
    && Placed(a.windows, a.selected)
    && a.nPlanned == |a.selected|
  }

  ghost predicate Inv(o: Outcome, h: real, tr: Transition)
  {
    Good(Abs(o), h, tr)
  }

  lemma InitialInv(n: nat, h: real, tr: Transition)
    ensures Inv(Outcome(EmptyPlans(n), map[], 0), h, tr)
  {
    assert forall s :: 0 <= s < n ==> Windows(EmptyPlans(n))[s] == [];
  }

  /** Committing a feasible window of a candidate not selected yet keeps the
      invariant. */
  lemma CommitGood(a: Summary, w: Window, h: real, tr: Transition)
    requires Good(a, h, tr) && w.satellite < |a.windows| && w.candidate !in a.selected
    requires FeasibleAfter(a.windows, w, h, tr)
    ensures Good(Summary(Inserted(a.windows, w), a.selected[w.candidate := w], a.nPlanned + 1), h, tr)
  {
    InsertedOk(a.windows, w, h, tr);
    CommitTracked(a.windows, a.selected, w);
    CommitPlaced(a.windows, a.selected, w);
    AddKey(a.selected, w.candidate, w);
  }

  /** One iteration keeps the invariant. */
  lemma StepGood(a: Summary, c: Candidate, h: real, tr: Transition)
    requires Good(a, h, tr) && WellFormedCandidate(c, |a.windows|) && c.idx !in a.selected
    ensures Good(StepSpec(a, c, h, tr), h, tr)
  {
    var f := FirstTrue(Trials(a.windows, c.windows, h, tr));
    if f.Some? {
      CommitGood(a, c.windows[f.value], h, tr);
    }
  }

  /** One iteration selects at most the candidate at hand, with the first of
      its windows whose addition is feasible, and keeps earlier selections. */
  lemma StepSelects(a: Summary, c: Candidate, h: real, tr: Transition)
    requires InRange(c, |a.windows|)
    ensures var r := StepSpec(a, c, h, tr);
            var f := FirstTrue(Trials(a.windows, c.windows, h, tr));
      && (f.Some? ==> r.selected == a.selected[c.idx := c.windows[f.value]])
      && (f.None? ==> r.selected == a.selected)
  {
  }

  /** A candidate whose index is not selected yet has none of its windows
      planned. */
  lemma FreshCandidate(o: Outcome, c: Candidate, h: real, tr: Transition)
    requires Inv(o, h, tr) && WellFormedCandidate(c, |o.plans|) && c.idx !in o.selected
    ensures forall w :: w in c.windows ==>
      o.plans[w.satellite].windows == SortByStart(o.plans[w.satellite].windows) && w !in o.plans[w.satellite].windows
  {
    forall w | w in c.windows
      ensures o.plans[w.satellite].windows == SortByStart(o.plans[w.satellite].windows) && w !in o.plans[w.satellite].windows
    {
      assert Windows(o.plans)[w.satellite] == o.plans[w.satellite].windows;
    }
  }

  /** Under the invariant, one iteration of the outer loop of the planner does
      what the reference says. */
  lemma StepMatches(o: Outcome, c: Candidate, h: real, tr: Transition)
    requires Inv(o, h, tr) && WellFormedCandidate(c, |o.plans|) && c.idx !in o.selected
    ensures Abs(Step(o, c, h, tr)) == StepSpec(Abs(o), c, h, tr)
  {
    FreshCandidate(o, c, h, tr);
    TryWindowsFirstFeasible(o.plans, c.windows, h, tr);
  }

  /** The run selects only candidates of the order. */
  lemma {:induction false} RunKeys(a: Summary, order: seq<Candidate>, h: real, tr: Transition)
    requires AllInRange(order, |a.windows|)
    ensures RunSpec(a, order, h, tr).selected.Keys <= a.selected.Keys + Indices(order)
    decreases |order|
  {
    if order != [] {
      var pre, last := order[..|order| - 1], order[|order| - 1];
      SplitLast(order);
      RunKeys(a, pre, h, tr);
      StepSelects(RunSpec(a, pre, h, tr), last, h, tr);
    }
  }

  /** The whole run keeps the invariant. */
  lemma {:induction false} RunGood(a: Summary, order: seq<Candidate>, h: real, tr: Transition)
    requires Good(a, h, tr) && WellFormed(order, |a.windows|)
    requires forall i :: 0 <= i < |order| ==> order[i].idx !in a.selected
    ensures AllInRange(order, |a.windows|)
    ensures Good(RunSpec(a, order, h, tr), h, tr)
    decreases |order|
  {
    WellFormedInRange(order, |a.windows|);
    if order != [] {
      var pre, last := order[..|order| - 1], order[|order| - 1];
      SplitLast(order);
      LastIndexFresh(order, |a.windows|);
      RunGood(a, pre, h, tr);
      RunKeys(a, pre, h, tr);
      StepGood(RunSpec(a, pre, h, tr), last, h, tr);
    }
  }

  /** The run never changes or drops a selection made before it. */
  lemma {:induction false} RunKeeps(a: Summary, order: seq<Candidate>, h: real, tr: Transition)
    requires WellFormed(order, |a.windows|)
    requires forall i :: 0 <= i < |order| ==> order[i].idx !in a.selected
    ensures AllInRange(order, |a.windows|)
    ensures var r := RunSpec(a, order, h, tr);
      forall k :: k in a.selected ==> k in r.selected && r.selected[k] == a.selected[k]
    decreases |order|
  {
    WellFormedInRange(order, |a.windows|);
    if order != [] {
      var pre, last := order[..|order| - 1], order[|order| - 1];
      SplitLast(order);
      LastIndexFresh(order, |a.windows|);
      RunKeeps(a, pre, h, tr);
      StepSelects(RunSpec(a, pre, h, tr), last, h, tr);
    }
  }

  /** Each candidate of the order that ends up selected got one of its own
      windows. */
  lemma {:induction false} RunOwnWindows(a: Summary, order: seq<Candidate>, h: real, tr: Transition)
    requires WellFormed(order, |a.windows|)
    requires forall i :: 0 <= i < |order| ==> order[i].idx !in a.selected
    ensures AllInRange(order, |a.windows|)
    ensures var r := RunSpec(a, order, h, tr);
      forall c :: c in order && c.idx in r.selected ==> r.selected[c.idx] in c.windows
    decreases |order|
  {
    WellFormedInRange(order, |a.windows|);
    if order != [] {
      var pre, last := order[..|order| - 1], order[|order| - 1];
      SplitLast(order);
      LastIndexFresh(order, |a.windows|);
      RunKeys(a, pre, h, tr);
      RunOwnWindows(a, pre, h, tr);
      var p := RunSpec(a, pre, h, tr);
      StepSelects(p, last, h, tr);
      var r := StepSpec(p, last, h, tr);
      forall c | c in order && c.idx in r.selected ensures r.selected[c.idx] in c.windows {
        if c != last {
          assert c in pre && c.idx in Indices(pre);
        }
      }
    }
  }

  /** The planner's outer loop computes what the reference computes. */
  lemma {:induction false} RunMatches(o: Outcome, order: seq<Candidate>, h: real, tr: Transition)
    requires Inv(o, h, tr) && WellFormed(order, |o.plans|)
    requires forall i :: 0 <= i < |order| ==> order[i].idx !in o.selected
    ensures AllInRange(order, |o.plans|)
    ensures Abs(Run(o, order, h, tr)) == RunSpec(Abs(o), order, h, tr)
    decreases |order|
  {
    RunGood(Abs(o), order, h, tr);
    if order != [] {
      var pre, last := order[..|order| - 1], order[|order| - 1];
      SplitLast(order);
      LastIndexFresh(order, |o.plans|);
      RunMatches(o, pre, h, tr);
      RunGood(Abs(o), pre, h, tr);
      RunKeys(Abs(o), pre, h, tr);
      StepMatches(Run(o, pre, h, tr), last, h, tr);
    }
  }

  /** What the planner computes from empty plans: every plan sorted and
      feasible, no candidate selected twice, each selection one of the
      candidate's own windows, and nPlanned counting the selections. */
  lemma PlanningResult(cs: seq<Candidate>, n: nat, h: real, tr: Transition)
    requires WellFormed(cs, n)
    ensures AllInRange(SortBy(cs, PriorityKey), n)
    ensures var r := Run(Outcome(EmptyPlans(n), map[], 0), SortBy(cs, PriorityKey), h, tr);
      && Inv(r, h, tr)
      && Abs(r) == RunSpec(Summary(Windows(EmptyPlans(n)), map[], 0), SortBy(cs, PriorityKey), h, tr)
      && r.selected.Keys <= Indices(cs)
      && (forall c :: c in cs && c.idx in r.selected ==> r.selected[c.idx] in c.windows)
  {
    var order := SortBy(cs, PriorityKey);
    var o := Outcome(EmptyPlans(n), map[], 0);
    SortByMembers(cs, PriorityKey);
    SortByMultiset(cs, PriorityKey);
    WellFormedSub(cs, order, n);
    InitialInv(n, h, tr);
    RunMatches(o, order, h, tr);
    RunGood(Abs(o), order, h, tr);
    RunKeys(Abs(o), order, h, tr);
    RunOwnWindows(Abs(o), order, h, tr);
  }


  // ---------------------------------------------------------------------
  // The planner object
  // ---------------------------------------------------------------------

  class PriorityPlanner {
    const horizonStart: real
    const transition: Transition
    /** satellitePlans, indexed by satellite number. */
    const satellitePlans: seq<SatellitePlan>

    ghost predicate Valid()
    {
      Distinct(satellitePlans) && Shared(satellitePlans, horizonStart, transition)
    }

    constructor (nSatellites: nat, h: real, tr: Transition)
      ensures Valid() && |satellitePlans| == nSatellites
      ensures horizonStart == h && transition == tr
      ensures States(satellitePlans) == EmptyPlans(nSatellites)
      ensures forall i :: 0 <= i < nSatellites ==> fresh(satellitePlans[i])
    {
      var plans := NewPlans(nSatellites, h, tr);
      horizonStart := h;
      transition := tr;
      satellitePlans := plans;
    }

    /** The body of the outer loop for one candidate: try its windows in
        list order and stop at the first feasible one. */
    method PlanCandidate(a: Candidate) returns (chosen: Option<Window>)
      requires Valid() && InRange(a, |satellitePlans|)
      modifies satellitePlans
      ensures Trial(States(satellitePlans), chosen) == TryWindows(old(States(satellitePlans)), a.windows, horizonStart, transition)
    {
      ghost var target := TryWindows(States(satellitePlans), a.windows, horizonStart, transition);
      chosen := None;
      var j := 0;
      while j < |a.windows|
        invariant j <= |a.windows| && chosen == None
        invariant TryWindows(States(satellitePlans), a.windows[j..], horizonStart, transition) == target
      {
        var acqWindow := a.windows[j];
        assert a.windows[j..][0] == acqWindow && a.windows[j..][1..] == a.windows[j + 1..];
        var ok := TryAt(satellitePlans, acqWindow, horizonStart, transition);
        if ok {
          chosen := Some(acqWindow);
          return;
        }
        j := j + 1;
      }
    }

    /** planAcquisitions: returns the selected window of each planned
        candidate (by index) and nPlanned. */
    method PlanAcquisitions(candidateAcquisitions: seq<Candidate>) returns (selected: map<nat, Window>, nPlanned: nat)
      requires Valid() && AllInRange(candidateAcquisitions, |satellitePlans|)
      modifies satellitePlans
      ensures AllInRange(SortBy(candidateAcquisitions, PriorityKey), |satellitePlans|)
      ensures var o := Run(Outcome(old(States(satellitePlans)), map[], 0),
                           SortBy(candidateAcquisitions, PriorityKey), horizonStart, transition);
        States(satellitePlans) == o.plans && selected == o.selected && nPlanned == o.nPlanned
    {
      ghost var init := Outcome(States(satellitePlans), map[], 0);
      ghost var order := SortBy(candidateAcquisitions, PriorityKey);
      OrderInRange(candidateAcquisitions, |satellitePlans|);
      ghost var k := 0;
      var remaining := candidateAcquisitions;
      selected, nPlanned := map[], 0;
      while remaining != []
        invariant k <= |order| && SortBy(remaining, PriorityKey) == order[k..]
        invariant Outcome(States(satellitePlans), selected, nPlanned) == Run(init, order[..k], horizonStart, transition)
        decreases |remaining|
      {
        PopFacts(remaining, candidateAcquisitions, order, k, |satellitePlans|);
        remaining := SortBy(remaining, PriorityKey);
        var a := remaining[0];
        remaining := remaining[1..];
        ghost var before := Outcome(States(satellitePlans), selected, nPlanned);
        var chosen := PlanCandidate(a);
        if chosen.Some? {
          nPlanned := nPlanned + 1;
          selected := selected[a.idx := chosen.value];
        }
        RunSnoc(init, order, k, horizonStart, transition);
        k := k + 1;
      }
      assert order[..k] == order;
    }
  }
}
