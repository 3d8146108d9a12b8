/** The per-satellite timeline (class SatellitePlan, written out identically in
    the three acquisition planners): the committed acquisition windows of one
    satellite, the start time computed for each of them by the last feasibility
    test, and that test itself. */
module Timeline {
  import opened Problem
  import opened Sorting

  function StartKey(w: Window): real { w.earliestStart }

  /** The in-place sort by increasing earliest start (a stable sort). */
  function SortByStart(ws: seq<Window>): seq<Window> { SortBy(ws, StartKey) }

  /** java.lang.Math.max on values that are not NaN. */
  function Max(a: real, b: real): real { if a >= b then a else b }

  // ---------------------------------------------------------------------
  // The forward pass of isFeasible, as functions of the sorted window list

  /** The start time the forward pass computes for the i-th window: the first
      window starts as early as the horizon and its own bound allow, every
      later one after the previous end plus the transition time. */
  function StartAt(ws: seq<Window>, h: real, tr: Transition, i: nat): real
    requires i < |ws|
  {
    if i == 0 then Max(h, ws[0].earliestStart)
    else Max(StartAt(ws, h, tr, i - 1) + ws[i - 1].duration + tr(ws[i - 1], ws[i]),
             ws[i].earliestStart)
  }

  function Starts(ws: seq<Window>, h: real, tr: Transition): seq<real>
  {
    seq(|ws|, i requires 0 <= i < |ws| => StartAt(ws, h, tr, i))
  }

  /** isFeasible's verdict on an already sorted list: the horizon start does
      not exceed the first window's latest start, and no later computed start
      exceeds its window's latest start. */
  predicate Feasible(ws: seq<Window>, h: real, tr: Transition)
  {
    && |ws| > 0
    && h <= ws[0].latestStart
    && forall i :: 1 <= i < |ws| ==> StartAt(ws, h, tr, i) <= ws[i].latestStart
  }

  /** Index of the first window from i on whose computed start is too late,
      or |ws| if there is none. */
  function WrittenFrom(ws: seq<Window>, h: real, tr: Transition, i: nat): (r: nat)
    requires 1 <= i <= |ws|
    ensures i <= r <= |ws|
    decreases |ws| - i
  {
    if i == |ws| then |ws|
    else if StartAt(ws, h, tr, i) > ws[i].latestStart then i
    else WrittenFrom(ws, h, tr, i + 1)
  }

  /** How many leading windows get their start time recorded before the
      forward pass returns. */
  function Written(ws: seq<Window>, h: real, tr: Transition): (r: nat)
    requires |ws| > 0
    ensures r <= |ws|
  {
    if h > ws[0].latestStart then 0 else WrittenFrom(ws, h, tr, 1)
  }

  /** The start-time map after recording the first n computed starts into m. */
  function Recorded(m: map<Window, real>, ws: seq<Window>, h: real, tr: Transition, n: nat)
    : map<Window, real>
    requires n <= |ws|
  {
    if n == 0 then m
    else Recorded(m, ws, h, tr, n - 1)[ws[n - 1] := StartAt(ws, h, tr, n - 1)]
  }

  // ---------------------------------------------------------------------
  // Abstract state of a SatellitePlan and its operations as functions

  datatype PlanState = PlanState(windows: seq<Window>, startTimes: map<Window, real>)

  /** Result of a feasibility test: the verdict and the new plan state. */
  datatype Check = Check(ok: bool, plan: PlanState)

  function EmptyPlan(): PlanState { PlanState([], map[]) }

  function AddWindow(p: PlanState, w: Window): PlanState
  {
    PlanState(p.windows + [w], p.startTimes)
  }

  function RemoveWindow(p: PlanState, w: Window): PlanState
  {
    PlanState(RemoveFirst(p.windows, w), p.startTimes - {w})
  }

  /** isFeasible: sort the windows, then run the forward pass, recording the
      start times it reaches before it returns. */
  function CheckFeasible(p: PlanState, h: real, tr: Transition): Check
    requires |p.windows| > 0
  {
    var ws := SortByStart(p.windows);
    Check(Feasible(ws, h, tr), PlanState(ws, Recorded(p.startTimes, ws, h, tr, Written(ws, h, tr))))
  }

  // ---------------------------------------------------------------------
  // Properties of the feasibility test

  /** A schedule for the windows in this order: every start lies within its
      window's bounds and after the horizon start, and consecutive windows are
      separated by the previous duration plus the transition time. */
  ghost predicate ValidSchedule(ws: seq<Window>, starts: seq<real>, h: real, tr: Transition)
  {
    && |starts| == |ws|
    && (|ws| > 0 ==> starts[0] >= h)
    && (forall i :: 0 <= i < |ws| ==> ws[i].earliestStart <= starts[i] <= ws[i].latestStart)
    && (forall i :: 1 <= i < |ws| ==>
          starts[i] >= starts[i - 1] + ws[i - 1].duration + tr(ws[i - 1], ws[i]))
  }

  ghost predicate BoundsOrdered(ws: seq<Window>)
  {
    forall i :: 0 <= i < |ws| ==> ws[i].earliestStart <= ws[i].latestStart
  }

  /** Soundness: when the test succeeds (and every window has
      earliestStart <= latestStart) the computed starts form a schedule, and
      the first one is max(horizonStart, earliestStart). */
  lemma FeasibleSound(ws: seq<Window>, h: real, tr: Transition)
    requires Feasible(ws, h, tr) && BoundsOrdered(ws)
    ensures ValidSchedule(ws, Starts(ws, h, tr), h, tr)
    ensures Starts(ws, h, tr)[0] == Max(h, ws[0].earliestStart)
  {
    var s := Starts(ws, h, tr);
    forall i | 0 <= i < |ws| ensures ws[i].earliestStart <= s[i] <= ws[i].latestStart {
      if i == 0 {
        assert ws[0] == ws[i];
      }
    }
  }

  /** The computed starts are the earliest possible: no schedule for the same
      order starts any window earlier. */
  lemma {:induction false} StartAtMinimal(ws: seq<Window>, starts: seq<real>, h: real, tr: Transition, i: nat)
    requires ValidSchedule(ws, starts, h, tr) && i < |ws|
    ensures StartAt(ws, h, tr, i) <= starts[i]
  {
    if i > 0 {
      StartAtMinimal(ws, starts, h, tr, i - 1);
    }
  }

  /** Completeness: if any schedule exists for the windows in this order, the
      test succeeds.  With FeasibleSound: the test succeeds exactly when a
      schedule exists. */
  lemma FeasibleComplete(ws: seq<Window>, starts: seq<real>, h: real, tr: Transition)
    requires |ws| > 0 && ValidSchedule(ws, starts, h, tr)
    ensures Feasible(ws, h, tr)
  {
    forall i | 1 <= i < |ws| ensures StartAt(ws, h, tr, i) <= ws[i].latestStart {
      StartAtMinimal(ws, starts, h, tr, i);
    }
  }

  /** With non-negative transition times and durations, a schedule's windows
      never overlap: each window ends before any later one starts. */
  lemma {:induction false} ScheduleNoOverlap(ws: seq<Window>, starts: seq<real>, h: real, tr: Transition, i: nat, j: nat)
    requires ValidSchedule(ws, starts, h, tr) && NonNegative(tr)
    requires forall k :: 0 <= k < |ws| ==> ws[k].duration >= 0.0
    requires i < j < |ws|
    ensures starts[i] + ws[i].duration <= starts[j]
    decreases j - i
  {
    assert tr(ws[j - 1], ws[j]) >= 0.0;
    if i < j - 1 {
      ScheduleNoOverlap(ws, starts, h, tr, i, j - 1);
      assert starts[j - 1] <= starts[j];
    }
  }

  lemma {:induction false} WrittenFromBounds(ws: seq<Window>, h: real, tr: Transition, i: nat)
    requires 1 <= i <= |ws|
    ensures i <= WrittenFrom(ws, h, tr, i) <= |ws|
    ensures forall k :: i <= k < WrittenFrom(ws, h, tr, i) ==> StartAt(ws, h, tr, k) <= ws[k].latestStart
    ensures WrittenFrom(ws, h, tr, i) < |ws| ==>
              StartAt(ws, h, tr, WrittenFrom(ws, h, tr, i)) > ws[WrittenFrom(ws, h, tr, i)].latestStart
    decreases |ws| - i
  {
    if i < |ws| && StartAt(ws, h, tr, i) <= ws[i].latestStart {
      WrittenFromBounds(ws, h, tr, i + 1);
    }
  }

  /** The test fails exactly at the first window whose start is too late:
      every window before that point has its start recorded, none after. */
  lemma WrittenFeasible(ws: seq<Window>, h: real, tr: Transition)
    requires |ws| > 0
    ensures Written(ws, h, tr) <= |ws|
    ensures Feasible(ws, h, tr) <==> Written(ws, h, tr) == |ws|
  {
    WrittenFromBounds(ws, h, tr, 1);
  }

  predicate NoDuplicates<T(==)>(s: seq<T>)
  {
    forall i, j :: 0 <= i < j < |s| ==> s[i] != s[j]
  }

  /** After recording the first n windows of a duplicate-free list, the map
      holds the computed start of each of them. */
  lemma {:induction false} RecordedHit(m: map<Window, real>, ws: seq<Window>, h: real, tr: Transition, n: nat, k: nat)
    requires n <= |ws| && NoDuplicates(ws) && k < n
    ensures ws[k] in Recorded(m, ws, h, tr, n)
    ensures Recorded(m, ws, h, tr, n)[ws[k]] == StartAt(ws, h, tr, k)
  {
    if k < n - 1 {
      RecordedHit(m, ws, h, tr, n - 1, k);
      assert ws[k] != ws[n - 1];
    }
  }

  /** After recording, every other window keeps its previous entry, which
      may be stale (left by an earlier failed test), or stays absent. */
  lemma {:induction false} RecordedMiss(m: map<Window, real>, ws: seq<Window>, h: real, tr: Transition, n: nat, w: Window)
    requires n <= |ws| && w !in ws[..n]
    ensures w in Recorded(m, ws, h, tr, n) <==> w in m
    ensures w in m ==> Recorded(m, ws, h, tr, n)[w] == m[w]
  {
    if n > 0 {
      assert ws[..n] == ws[..n - 1] + [ws[n - 1]];
      RecordedMiss(m, ws, h, tr, n - 1, w);
    }
  }

  // ---------------------------------------------------------------------
  // Worked scenarios

  function ScenarioWindow(es: real, ls: real, d: real): Window
  {
    Window(0, 0, 0, 0, es, ls, d, 0.0)
  }

  /** One window [10, 20] of duration 5 from horizon 0 starts at 10. */
  lemma ScenarioSingle(tr: Transition)
    ensures var ws := [ScenarioWindow(10.0, 20.0, 5.0)];
            Feasible(ws, 0.0, tr) && Starts(ws, 0.0, tr) == [10.0]
  {
    var ws := [ScenarioWindow(10.0, 20.0, 5.0)];
    assert Starts(ws, 0.0, tr)[0] == 10.0;
  }

  /** A window ending at 15 followed, with a transition of 3, by a window
      [10, 30] of duration 4: the second one starts at 18. */
  lemma ScenarioTransition(tr: Transition)
    requires tr(ScenarioWindow(10.0, 10.0, 5.0), ScenarioWindow(10.0, 30.0, 4.0)) == 3.0
    ensures var ws := [ScenarioWindow(10.0, 10.0, 5.0), ScenarioWindow(10.0, 30.0, 4.0)];
            Feasible(ws, 0.0, tr) && Starts(ws, 0.0, tr) == [10.0, 18.0]
  {
    var ws := [ScenarioWindow(10.0, 10.0, 5.0), ScenarioWindow(10.0, 30.0, 4.0)];
    assert StartAt(ws, 0.0, tr, 0) == 10.0;
    assert StartAt(ws, 0.0, tr, 1) == 18.0;
  }

  // ---------------------------------------------------------------------
  // The class

  class SatellitePlan {
    /** Acquisitions to be realised by the satellite. */
    var acqWindows: seq<Window>
    /** Start time of each acquisition, as computed by the last test. */
    var startTimes: map<Window, real>
    /** planningProblem.horizonStart and getTransitionTime of the enclosing planner. */
    const horizonStart: real
    const transition: Transition

    function State(): PlanState
      reads this
    {
      PlanState(acqWindows, startTimes)
    }

    constructor (horizonStart: real, transition: Transition)
      ensures State() == EmptyPlan()
      ensures this.horizonStart == horizonStart && this.transition == transition
    {
      this.horizonStart := horizonStart;
      this.transition := transition;
      acqWindows := [];
      startTimes := map[];
    }

    method Add(aw: Window)
      modifies this
      ensures acqWindows == old(acqWindows) + [aw]
      ensures startTimes == old(startTimes)
    {
      acqWindows := acqWindows + [aw];
    }

    method Remove(aw: Window)
      modifies this
      ensures acqWindows == RemoveFirst(old(acqWindows), aw)
      ensures startTimes == old(startTimes) - {aw}
    {
      acqWindows := RemoveFirst(acqWindows, aw);
      startTimes := startTimes - {aw};
    }

    /** Sorts the windows by earliest start, then walks them forward computing
        each start time; returns false as soon as one start exceeds its
        window's latest start.  An empty list is not allowed (the source reads
        element 0 unconditionally); every caller adds a window first. */
    method IsFeasible() returns (ok: bool)
      requires |acqWindows| > 0
      modifies this
      ensures Check(ok, State()) == CheckFeasible(old(State()), horizonStart, transition)
    {
      ghost var m0 := startTimes;
      acqWindows := SortBy(acqWindows, StartKey);
      ghost var ws := acqWindows;
      WrittenFeasible(ws, horizonStart, transition);
      var prevAcqWindow := acqWindows[0];
      if horizonStart > prevAcqWindow.latestStart {
        assert Written(ws, horizonStart, transition) == 0;
        return false;
      }
      var startTime := Max(horizonStart, prevAcqWindow.earliestStart);
      startTimes := startTimes[prevAcqWindow := startTime];
      var prevEndTime := startTime + prevAcqWindow.duration;
      var i := 1;
      while i < |acqWindows|
        invariant acqWindows == ws
        invariant 1 <= i <= |ws|
        invariant prevAcqWindow == ws[i - 1]
        invariant startTime == StartAt(ws, horizonStart, transition, i - 1)
        invariant prevEndTime == startTime + prevAcqWindow.duration
        invariant forall k :: 1 <= k < i ==> StartAt(ws, horizonStart, transition, k) <= ws[k].latestStart
        invariant Written(ws, horizonStart, transition) == WrittenFrom(ws, horizonStart, transition, i)
        invariant startTimes == Recorded(m0, ws, horizonStart, transition, i)
      {
        var acqWindow := acqWindows[i];
        var rollAngleTransitionTime := transition(prevAcqWindow, acqWindow);
        startTime := Max(prevEndTime + rollAngleTransitionTime, acqWindow.earliestStart);
        if startTime > acqWindow.latestStart {
          assert WrittenFrom(ws, horizonStart, transition, i) == i;
          return false;
        }
        startTimes := startTimes[acqWindow := startTime];
        prevEndTime := startTime + acqWindow.duration;
        prevAcqWindow := acqWindow;
        i := i + 1;
      }
      return true;
    }
  }
}
