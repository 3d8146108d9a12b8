/** The satellitePlans map of a planner: one SatellitePlan object per
    satellite, indexed by the satellite's number, never shared between two
    satellites.  The wrappers below say what one call on one satellite's plan
    does to the whole collection. */
module Fleet {
  import opened Problem
  import opened Sorting
  import opened Timeline

  predicate Distinct(plans: seq<SatellitePlan>)
  {
    forall i, j :: 0 <= i < j < |plans| ==> plans[i] != plans[j]
  }

  /** Every plan uses the planner's horizon start and transition time. */
  ghost predicate Shared(plans: seq<SatellitePlan>, h: real, tr: Transition)
  {
    forall i :: 0 <= i < |plans| ==> plans[i].horizonStart == h && plans[i].transition == tr
  }

  /** The abstract state of every satellite's plan. */
  function States(plans: seq<SatellitePlan>): seq<PlanState>
    reads plans
  {
    seq(|plans|, i requires 0 <= i < |plans| reads plans => plans[i].State())
  }

  function EmptyPlans(n: nat): seq<PlanState>
  {
    seq(n, _ => EmptyPlan())
  }

  /** The planner constructors: a fresh, empty plan for each satellite. */
  method NewPlans(nSatellites: nat, h: real, tr: Transition) returns (plans: seq<SatellitePlan>)
    ensures |plans| == nSatellites && Distinct(plans) && Shared(plans, h, tr)
    ensures forall i :: 0 <= i < |plans| ==> fresh(plans[i])
    ensures States(plans) == EmptyPlans(nSatellites)
  {
    plans := [];
    while |plans| < nSatellites
      invariant |plans| <= nSatellites && Distinct(plans) && Shared(plans, h, tr)
      invariant forall i :: 0 <= i < |plans| ==> fresh(plans[i])
      invariant States(plans) == EmptyPlans(|plans|)
    {
      ghost var before := States(plans);
      var p := new SatellitePlan(h, tr);
      assert States(plans) == before;
      plans := plans + [p];
      assert States(plans) == before + [EmptyPlan()];
    }
  }

  method AddAt(plans: seq<SatellitePlan>, k: nat, w: Window)
    requires Distinct(plans) && k < |plans|
    modifies plans[k]
    ensures States(plans) == old(States(plans))[k := AddWindow(old(States(plans))[k], w)]
    ensures plans[k].acqWindows == old(plans[k].acqWindows) + [w]
  {
    plans[k].Add(w);
  }

  method RemoveAt(plans: seq<SatellitePlan>, k: nat, w: Window)
    requires Distinct(plans) && k < |plans|
    modifies plans[k]
    ensures States(plans) == old(States(plans))[k := RemoveWindow(old(States(plans))[k], w)]
  {
    plans[k].Remove(w);
  }

  method CheckAt(plans: seq<SatellitePlan>, k: nat, ghost h: real, ghost tr: Transition) returns (ok: bool)
    requires Distinct(plans) && Shared(plans, h, tr) && k < |plans|
    requires |plans[k].acqWindows| > 0
    modifies plans[k]
    ensures var c := CheckFeasible(old(States(plans))[k], h, tr);
            ok == c.ok && States(plans) == old(States(plans))[k := c.plan]
  {
    ok := plans[k].IsFeasible();
  }
}
