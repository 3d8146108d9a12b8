/** The insertion primitive shared by the greedy planners: add a window to its
    satellite's plan, run the feasibility test, and keep the window on success
    or remove it again on failure. */
module Insertion {
  import opened Problem
  import opened Sorting
  import opened Timeline
  import opened Fleet

  /** The window lists of all plans, forgetting their start times. */
  function Windows(ps: seq<PlanState>): (r: seq<seq<Window>>)
    ensures |r| == |ps|
  {
    seq(|ps|, i requires 0 <= i < |ps| => ps[i].windows)
  }

  /** The window lists after w has been inserted into its satellite's plan,
      at the place sorting by earliest start gives it. */
  function Inserted(ws: seq<seq<Window>>, w: Window): seq<seq<Window>>
    requires w.satellite < |ws|
  {
    ws[w.satellite := SortByStart(ws[w.satellite] + [w])]
  }

  datatype Attempt = Attempt(ok: bool, plans: seq<PlanState>)

  /** add, isFeasible, and remove on failure, on the plan of w's satellite. */
  function TryInsert(ps: seq<PlanState>, w: Window, h: real, tr: Transition): (r: Attempt)
    requires w.satellite < |ps|
    ensures |r.plans| == |ps|
  {
    var s := w.satellite;
    var c := CheckFeasible(AddWindow(ps[s], w), h, tr);
    if c.ok then Attempt(true, ps[s := c.plan])
    else Attempt(false, ps[s := RemoveWindow(c.plan, w)])
  }

  /** Whether adding w to its satellite's window list passes the feasibility
      test. */
  predicate FeasibleAfter(ws: seq<seq<Window>>, w: Window, h: real, tr: Transition)
    requires w.satellite < |ws|
  {
    Feasible(SortByStart(ws[w.satellite] + [w]), h, tr)
  }

  /** Every window list is sorted by earliest start (sorting it again changes
      nothing) and, unless empty, passes the feasibility test. */
  ghost predicate PlansOk(ws: seq<seq<Window>>, h: real, tr: Transition)
  {
    forall s :: 0 <= s < |ws| ==>
      ws[s] == SortByStart(ws[s]) && (ws[s] != [] ==> Feasible(ws[s], h, tr))
  }

  /** On a sorted plan that does not hold w yet: the attempt succeeds exactly
      when the plan with w added is feasible; a success inserts w in place in
      that plan; a failure gives the plan back exactly the windows it had.
      No other satellite's plan changes. */
  lemma TryInsertSpec(ps: seq<PlanState>, w: Window, h: real, tr: Transition)
    requires w.satellite < |ps|
    requires ps[w.satellite].windows == SortByStart(ps[w.satellite].windows) && w !in ps[w.satellite].windows
    ensures var r := TryInsert(ps, w, h, tr);
      && r.ok == FeasibleAfter(Windows(ps), w, h, tr)
      && Windows(r.plans) == if r.ok then Inserted(Windows(ps), w) else Windows(ps)
  {
    var r := TryInsert(ps, w, h, tr);
    SortedAppendRemove(ps[w.satellite].windows, w, StartKey);
    assert Windows(ps)[w.satellite] == ps[w.satellite].windows;
    if r.ok {
      assert Windows(r.plans) == Inserted(Windows(ps), w);
    } else {
      assert Windows(r.plans) == Windows(ps);
    }
  }

  /** Inserting a window whose addition is feasible keeps every plan sorted
      and feasible. */
  lemma InsertedOk(ws: seq<seq<Window>>, w: Window, h: real, tr: Transition)
    requires w.satellite < |ws| && PlansOk(ws, h, tr) && FeasibleAfter(ws, w, h, tr)
    ensures PlansOk(Inserted(ws, w), h, tr)
  {
    SortByFixed(ws[w.satellite] + [w], StartKey);
  }

  /** The windows of the plan w was inserted into are exactly its old windows
      and w. */
  lemma InsertedMembers(ws: seq<seq<Window>>, w: Window)
    requires w.satellite < |ws|
    ensures forall v :: v in Inserted(ws, w)[w.satellite] <==> v in ws[w.satellite] || v == w
  {
    SortByMembers(ws[w.satellite] + [w], StartKey);
  }

  // ---------------------------------------------------------------------
  // The start-time map after an attempt

  /** Every window of the plan maps to the start the forward pass computes for
      it on the plan's list, so the map is the schedule that list yields. */
  ghost predicate Timed(p: PlanState, h: real, tr: Transition)
  {
    && NoDuplicates(p.windows)
    && forall i :: 0 <= i < |p.windows| ==>
         p.windows[i] in p.startTimes && p.startTimes[p.windows[i]] == StartAt(p.windows, h, tr, i)
  }

  /** A successful attempt on a plan without repeated windows that does not
      hold w yet leaves that plan's map holding the computed start of every
      window, w included. */
  lemma InsertedTimed(ps: seq<PlanState>, w: Window, h: real, tr: Transition)
    requires w.satellite < |ps| && NoDuplicates(ps[w.satellite].windows) && w !in ps[w.satellite].windows
    requires TryInsert(ps, w, h, tr).ok
    ensures Timed(TryInsert(ps, w, h, tr).plans[w.satellite], h, tr)
  {
    var ws := SortByStart(ps[w.satellite].windows + [w]);
    AppendedDistinct(ps[w.satellite].windows, w);
    SortByMultiset(ps[w.satellite].windows + [w], StartKey);
    SameElementsDistinct(ws, ps[w.satellite].windows + [w]);
    WrittenFeasible(ws, h, tr);
    forall i | 0 <= i < |ws| ensures ws[i] in TryInsert(ps, w, h, tr).plans[w.satellite].startTimes
      && TryInsert(ps, w, h, tr).plans[w.satellite].startTimes[ws[i]] == StartAt(ws, h, tr, i)
    {
      RecordedHit(ps[w.satellite].startTimes, ws, h, tr, |ws|, i);
    }
  }

  lemma AppendedDistinct<T>(s: seq<T>, x: T)
    requires NoDuplicates(s) && x !in s
    ensures NoDuplicates(s + [x])
  {
    forall i, j | 0 <= i < j < |s| + 1 ensures (s + [x])[i] != (s + [x])[j] {
      if j == |s| {
        assert (s + [x])[i] == s[i];
      }
    }
  }

  lemma {:induction false} DistinctCount<T>(s: seq<T>, x: T)
    requires NoDuplicates(s)
    ensures multiset(s)[x] <= 1
  {
    if s != [] {
      assert s == [s[0]] + s[1..];
      DistinctCount(s[1..], x);
      if s[0] == x {
        assert x !in s[1..] by {
          forall j | 0 <= j < |s[1..]| ensures s[1..][j] != x {
            assert s[1..][j] == s[j + 1];
          }
        }
      }
    }
  }

  /** A rearrangement of a list without repeated elements has none either. */
  lemma SameElementsDistinct<T>(a: seq<T>, b: seq<T>)
    requires multiset(a) == multiset(b) && NoDuplicates(b)
    ensures NoDuplicates(a)
  {
    forall i, j | 0 <= i < j < |a| ensures a[i] != a[j] {
      if a[i] == a[j] {
        assert a == a[..i] + [a[i]] + a[i + 1..j] + [a[j]] + a[j + 1..];
        assert multiset(a)[a[i]] >= 2;
        DistinctCount(b, a[i]);
      }
    }
  }

  /** The intended consequence of a timed plan: with non-negative durations and
      transition times, on a sorted feasible list, no two recorded
      acquisitions overlap. */
  lemma TimedNoOverlap(p: PlanState, h: real, tr: Transition, i: nat, j: nat)
    requires Timed(p, h, tr) && Feasible(p.windows, h, tr) && BoundsOrdered(p.windows) && NonNegative(tr)
    requires forall k :: 0 <= k < |p.windows| ==> p.windows[k].duration >= 0.0
    requires i < j < |p.windows|
    ensures p.startTimes[p.windows[i]] + p.windows[i].duration <= p.startTimes[p.windows[j]]
  {
    FeasibleSound(p.windows, h, tr);
    ScheduleNoOverlap(p.windows, Starts(p.windows, h, tr), h, tr, i, j);
  }

  // The windows of the stale-start scenario: A, B and C are committed, W is
  // the window whose trial fails.
  const StaleA := ScenarioWindow(0.0, 100.0, 10.0)
  const StaleB := ScenarioWindow(20.0, 100.0, 10.0)
  const StaleC := ScenarioWindow(50.0, 50.0, 10.0)
  const StaleW := ScenarioWindow(5.0, 100.0, 35.0)

  /** The plan of the scenario, its map holding the computed starts. */
  function StalePlan(): PlanState
  {
    PlanState([StaleA, StaleB, StaleC], map[StaleA := 0.0, StaleB := 20.0, StaleC := 50.0])
  }

  /** As written, a failed attempt leaves the start times that the forward
      pass wrote before it failed: here B is moved to 45 by the new window W,
      while C keeps its old start 50, so the map of the plan, which was timed
      before, no longer is and schedules B (until 55) over C. */
  lemma StaleStartsOverlap(tr: Transition)
    requires tr(StaleA, StaleB) == 0.0 && tr(StaleB, StaleC) == 0.0 && tr(StaleA, StaleW) == 0.0 && tr(StaleW, StaleB) == 0.0
    ensures var r := TryInsert([StalePlan()], StaleW, 0.0, tr);
      && Feasible(StalePlan().windows, 0.0, tr) && Timed(StalePlan(), 0.0, tr)
      && !r.ok && r.plans[0].windows == StalePlan().windows
      && r.plans[0].startTimes == map[StaleA := 0.0, StaleB := 45.0, StaleC := 50.0]
      && r.plans[0].startTimes[StaleB] + StaleB.duration > r.plans[0].startTimes[StaleC]
      && !Timed(r.plans[0], 0.0, tr)
  {
    StaleBefore(tr);
    StaleSorted();
    StaleTrial(tr);
    var r := TryInsert([StalePlan()], StaleW, 0.0, tr);
    assert r.plans[0].windows[1] == StaleB && StartAt(r.plans[0].windows, 0.0, tr, 1) == 20.0;
  }

  /** The scenario's plan is feasible and timed. */
  lemma StaleBefore(tr: Transition)
    requires tr(StaleA, StaleB) == 0.0 && tr(StaleB, StaleC) == 0.0
    ensures Feasible(StalePlan().windows, 0.0, tr) && Timed(StalePlan(), 0.0, tr)
  {
    var ws := StalePlan().windows;
    assert StartAt(ws, 0.0, tr, 1) == 20.0;
    assert StartAt(ws, 0.0, tr, 2) == 50.0;
  }

  /** W sorts in after A. */
  lemma StaleSorted()
    ensures SortByStart(StalePlan().windows + [StaleW]) == [StaleA, StaleW, StaleB, StaleC]
  {
    var l := [StaleA, StaleB, StaleC, StaleW];
    assert StalePlan().windows + [StaleW] == l;
    assert l[1..] == [StaleB, StaleC, StaleW] && l[1..][1..] == [StaleC, StaleW] && l[1..][1..][1..] == [StaleW];
    assert SortByStart([StaleW]) == [StaleW];
    assert SortByStart([StaleC, StaleW]) == Insert(StaleC, [StaleW], StartKey) == [StaleW, StaleC];
    assert SortByStart([StaleB, StaleC, StaleW]) == Insert(StaleB, [StaleW, StaleC], StartKey) == [StaleW, StaleB, StaleC];
  }

  /** The forward pass over the sorted list times A, W and B and fails at C. */
  lemma StaleTrial(tr: Transition)
    requires tr(StaleA, StaleW) == 0.0 && tr(StaleW, StaleB) == 0.0 && tr(StaleB, StaleC) == 0.0
    ensures var ws := [StaleA, StaleW, StaleB, StaleC];
      && !Feasible(ws, 0.0, tr) && Written(ws, 0.0, tr) == 3
      && Recorded(StalePlan().startTimes, ws, 0.0, tr, 3) - {StaleW} == map[StaleA := 0.0, StaleB := 45.0, StaleC := 50.0]
      && RemoveFirst(ws, StaleW) == StalePlan().windows
  {
    var ws := [StaleA, StaleW, StaleB, StaleC];
    assert StartAt(ws, 0.0, tr, 1) == 10.0;
    assert StartAt(ws, 0.0, tr, 2) == 45.0;
    assert StartAt(ws, 0.0, tr, 3) == 55.0;
    assert WrittenFrom(ws, 0.0, tr, 3) == 3;
    assert WrittenFrom(ws, 0.0, tr, 1) == 3;
    var m := StalePlan().startTimes;
    assert Recorded(m, ws, 0.0, tr, 1) == m[StaleA := 0.0];
    assert Recorded(m, ws, 0.0, tr, 2) == m[StaleA := 0.0][StaleW := 10.0];
    assert Recorded(m, ws, 0.0, tr, 3) == m[StaleA := 0.0][StaleW := 10.0][StaleB := 45.0];
  }

  /** The attempt as evidently intended: a failure gives the plan back as it
      was, start times included. */
  function TryInsertRestoring(ps: seq<PlanState>, w: Window, h: real, tr: Transition): Attempt
    requires w.satellite < |ps|
  {
    var a := TryInsert(ps, w, h, tr);
    if a.ok then a else Attempt(false, ps)
  }

  /** The restoring attempt has the verdict and window lists of the attempt as
      written, and keeps every plan it touches timed: after a success or a
      failure, every window's start is the one the test computes. */
  lemma RestoringTimed(ps: seq<PlanState>, w: Window, h: real, tr: Transition)
    requires w.satellite < |ps| && Timed(ps[w.satellite], h, tr) && w !in ps[w.satellite].windows
    requires ps[w.satellite].windows == SortByStart(ps[w.satellite].windows)
    ensures var r, a := TryInsertRestoring(ps, w, h, tr), TryInsert(ps, w, h, tr);
      && r.ok == a.ok && Windows(r.plans) == Windows(a.plans)
      && forall s :: 0 <= s < |ps| && Timed(ps[s], h, tr) ==> Timed(r.plans[s], h, tr)
  {
    TryInsertSpec(ps, w, h, tr);
    if TryInsert(ps, w, h, tr).ok {
      InsertedTimed(ps, w, h, tr);
    }
  }

  /** The add / isFeasible / remove-on-failure sequence on the plan objects. */
  method TryAt(plans: seq<SatellitePlan>, w: Window, ghost h: real, ghost tr: Transition) returns (ok: bool)
    requires Distinct(plans) && Shared(plans, h, tr) && w.satellite < |plans|
    modifies plans[w.satellite]
    ensures var a := TryInsert(old(States(plans)), w, h, tr);
            ok == a.ok && States(plans) == a.plans
  {
    var s := w.satellite;
    AddAt(plans, s, w);
    ok := CheckAt(plans, s, h, tr);
    if !ok {
      RemoveAt(plans, s, w);
    }
  }
}
