# Satellite acquisition and download planning, modelled in Dafny

This project models the planning core of a satellite-constellation planner.
An earth-observation problem gives:

- candidate acquisitions (targets), each with a priority and a list of
  acquisition windows;
- per window: a satellite, an earliest and a latest start, a duration and a
  cloud probability;
- a transition time that a satellite needs to re-orient its sensor between
  two acquisitions;
- download windows towards ground stations.

The model covers four parts.

- **The per-satellite timeline** (`SatellitePlan`, module `Timeline`).
  - It is a class whose fields are the window list and the start-time map.
  - `add`, `remove` and `isFeasible` are methods on it.
  - `isFeasible` sorts the list by earliest start, then walks it forward. It
    computes each start as the later of (previous end + transition) and the
    window's earliest start, and fails at the first window whose start would
    be after its latest start.
  - The methods are proved against pure functions of the abstract state
    (`PlanState`). For those functions the model proves:
    - soundness: the computed starts form a schedule;
    - completeness: if any schedule exists in this order, the test passes;
    - minimality of the computed starts;
    - which entries the start-time map holds after a test.
  - A failed test has already overwritten the starts of the windows before
    the failure point, and `remove` only drops the tried window's entry. So
    after a failed trial the map of a committed plan can schedule two
    windows on top of each other (`Insertion.StaleStartsOverlap`). After a
    successful trial the map holds the computed start of every window
    (`Insertion.InsertedTimed`). See "## Findings".
- **Three greedy acquisition planners.** Each keeps one `SatellitePlan` per
  satellite (module `Fleet`) and inserts windows by add / isFeasible / remove
  on failure (module `Insertion`).
  - `GreedyPriority`:
    - re-sorts the remaining candidates by priority on every iteration and
      takes the head;
    - commits the candidate's first window that passes the test.
  - `GreedyProba`:
    - processes the shuffled priority-0 candidates, then the shuffled
      priority-1 candidates;
    - tries every window of a candidate, then commits the `feasible` window.
    - As written, `feasible` starts as window 0, and the first passing trial
      only raises the `martin` flag without recording that window. So when
      window 0 fails its own test but a later window passes, the committed
      window is window 0 or a passing window whose cloud probability is
      below window 0's. The model keeps this behaviour and states it
      (`GreedyProba.ChoiceFirstInfeasible`).
    - The commit `add(feasible)` runs no feasibility test. The committed
      window therefore has no start-time entry until a later test of that
      plan writes one (`GreedyProba.CommitUntimed`). When the commit is
      window 0 after its own trial failed, the plan it joins is infeasible
      (`GreedyProba.CommitInfeasible`, `GreedyProba.ScenarioCommitInfeasible`).
      See "## Findings".
  - `RandomProcess`:
    - the constructor explodes each candidate into single-window copies and
      splits them by priority (0, or anything else);
    - it sorts each list by cloud probability and cuts it into subgroups at
      the probability borders;
    - each run shuffles every subgroup and processes the concatenation;
    - committing a copy removes every pending copy of the same candidate
      (`removeAll`).
    - As written, the cut loop never puts the last element of a sorted list
      into any subgroup: `istop` stops at the last index, and subList
      excludes its upper bound. The model keeps this (`RandomProcess.CutEnd`,
      `RandomProcess.CutTiles`, `RandomProcess.ScenarioCutDropsLast`). See
      "## Findings".
- **Scoring** (module `Scoring`).
  - The score of a run has three components: the planned fraction, the mean
    priority and the mean cloud probability.
  - `isBetterThan` is the linear comparison of two scores.
  - The best-of-N loop of the driver keeps the best score over the runs.
- **The time-based download planner** (module `Download`):
  - station visibility and satellite visibility at a time;
  - the minimum-key search;
  - the initialisation of the station cursors, with the 1e99 "no window"
    value;
  - the per-satellite chronological traversal. For each satellite it
    gathers that satellite's recorded and planned products and sorts them
    by acquisition time. It then sorts the satellite's download windows by
    start and places each product in the first window, from the current
    one on, that can hold the whole download. It produces
    `(REC|CAND, idx, windowIdx, start, end)` lines.

Common pieces:

- **Sorting.** `Collections.sort` with a single-key comparator is the stable
  sort `Sorting.SortBy`. `Sorting.SortedUnique` proves that every stable
  sort gives the same result.
- **Shuffles.** `Collections.shuffle` is a caller-supplied permutation
  (`Shuffle`, constrained by `Permutes`).
- **Transition time.** The roll-angle transition time is an uninterpreted
  function parameter.
- **Selected windows.** Each planner returns the selected window of each
  candidate as a map from candidate index to window.
  - In `GreedyPriority` and `GreedyProba` the map stands for the
    `selectedAcquisitionWindow` field of the problem's candidates.
  - In `RandomProcess` the field is set on the single-window copy being
    planned (src/solver/AcquisitionPlannerGreedySimpleAcquisitionsRandomProcess.java:172),
    never on the problem's candidates. There the map stands for the
    fields of the committed copies, keyed by their candidate index.

## Model

| member | source | states |
|---|---|---|
| Timeline.SatellitePlan.constructor | src/solver/AcquisitionPlannerGreedyPriority.java:103-106 | a new plan has no windows and an empty start-time map |
| Timeline.SatellitePlan.Add | src/solver/AcquisitionPlannerGreedyPriority.java:116-118 | the window is appended at the end of the list; the start times are unchanged |
| Timeline.SatellitePlan.Remove | src/solver/AcquisitionPlannerGreedyPriority.java:120-123 | the first occurrence of the window is removed from the list, and its start time is removed from the map |
| Timeline.SatellitePlan.IsFeasible | src/solver/AcquisitionPlannerGreedyPriority.java:129-154 | the verdict and the new state are CheckFeasible of the old state: the list is sorted by earliest start, and the computed start of every window before the first failure is recorded |
| Timeline.WrittenFeasible | src/solver/AcquisitionPlannerGreedyPriority.java:135-152 | the test succeeds exactly when no window's computed start is after its latest start, i.e. exactly when every window's start gets recorded |
| Timeline.WrittenFromBounds | src/solver/AcquisitionPlannerGreedyPriority.java:143-152 | the forward loop records every window before the first failing one, and that one fails |
| Timeline.FeasibleSound | src/solver/AcquisitionPlannerGreedyPriority.java:129-154 | when the test succeeds (and each window's earliest start is at most its latest), the computed starts form a schedule: no start before the horizon start, each inside its window, each after the previous end plus the transition time; the first is max(horizon start, earliest start) |
| Timeline.FeasibleComplete | src/solver/AcquisitionPlannerGreedyPriority.java:129-154 | if any schedule exists for the windows in this order, the test succeeds |
| Timeline.StartAtMinimal | src/solver/AcquisitionPlannerGreedyPriority.java:138-150 | each computed start is no later than the start of the same window in any schedule |
| Timeline.ScheduleNoOverlap | src/solver/AcquisitionPlannerGreedyPriority.java:146-150 | with non-negative transition times and durations, no two acquisitions of a schedule overlap |
| Timeline.RecordedHit | src/solver/AcquisitionPlannerGreedyPriority.java:138-150 | after the loop, every recorded window of a duplicate-free list maps to its computed start |
| Timeline.RecordedMiss | src/solver/AcquisitionPlannerGreedyPriority.java:138-150 | every window that is not recorded keeps its previous entry (possibly stale) or stays absent |
| Timeline.ScenarioSingle | src/solver/AcquisitionPlannerGreedyPriority.java:135-140 | one window [10, 20] of duration 5 from horizon 0 is feasible and starts at 10 |
| Timeline.ScenarioTransition | src/solver/AcquisitionPlannerGreedyPriority.java:143-152 | a window [10, 10] of duration 5 (ending at 15), then with a transition of 3 a window [10, 30]: the test passes and the second starts at 18 |
| Sorting.SortBySorted | src/solver/AcquisitionPlannerGreedyPriority.java:158-164 | the sort orders the list by non-decreasing key |
| Sorting.SortByMultiset | src/solver/AcquisitionPlannerGreedyPriority.java:132 | the sort permutes its input |
| Sorting.SortByStable | src/solver/AcquisitionPlannerGreedyPriority.java:132 | the sort keeps elements with equal keys in their input order |
| Sorting.SortedUnique | src/solver/AcquisitionPlannerGreedyPriority.java:132 | two sorted lists with the same elements per key, in the same order, are equal; so any stable sort gives SortBy's result |
| Sorting.SortAppendRemove | src/solver/AcquisitionPlannerGreedyPriority.java:81-88 | add, sort, then remove of a window not in a sorted list gives back that list |
| Sorting.SortByIdempotent | src/solver/AcquisitionPlannerGreedyPriority.java:132 | sorting a sorted list changes nothing |
| Fleet.NewPlans | src/solver/AcquisitionPlannerGreedyPriority.java:44-50 | one fresh, distinct, empty plan per satellite, all sharing the horizon start and the transition time |
| Fleet.AddAt | src/solver/AcquisitionPlannerGreedyPriority.java:81 | adding to one satellite's plan changes that plan only |
| Fleet.RemoveAt | src/solver/AcquisitionPlannerGreedyPriority.java:88 | removing from one satellite's plan changes that plan only |
| Fleet.CheckAt | src/solver/AcquisitionPlannerGreedyPriority.java:82 | checking one satellite's plan changes that plan only, as CheckFeasible says |
| Insertion.TryAt | src/solver/AcquisitionPlannerGreedyPriority.java:79-88 | add, test and remove-on-failure on the window's own plan give TryInsert of the old plan states |
| Insertion.TryInsertSpec | src/solver/AcquisitionPlannerGreedyPriority.java:79-88 | on a sorted plan not holding the window, the attempt succeeds iff adding the window passes the test; the windows then gain that window, otherwise they are unchanged (the start-time map is the subject of InsertedTimed and StaleStartsOverlap) |
| Insertion.InsertedTimed | src/solver/AcquisitionPlannerGreedyPriority.java:129-154 | after a successful attempt on a plan without repeated windows, every window of that plan, the new one included, maps to its computed start |
| Insertion.TimedNoOverlap | src/solver/AcquisitionPlannerGreedyPriority.java:138-150 | in a timed, feasible plan with non-negative durations and transition times, no two recorded acquisitions overlap |
| Insertion.StaleStartsOverlap | src/solver/AcquisitionPlannerGreedyPriority.java:129-154 | a failed attempt of W(5, 100, 35) on the timed plan A(0, 100, 10), B(20, 100, 10), C(50, 50, 10) leaves B at 45 and C at 50, so the map schedules B over C and the plan is no longer timed |
| Insertion.RestoringTimed | src/solver/AcquisitionPlannerGreedyPriority.java:79-88 | the attempt that restores the old plan on failure has the same verdict and windows as the attempt as written, and keeps every timed plan timed |
| Insertion.InsertedOk | src/solver/AcquisitionPlannerGreedyPriority.java:81-86 | committing a window that passes the test keeps every plan sorted and feasible |
| Insertion.InsertedMembers | src/solver/AcquisitionPlannerGreedyPriority.java:81 | after the commit, a plan holds exactly its old windows and the new one |
| Selection.FirstTrue | src/solver/AcquisitionPlannerGreedyPriority.java:78-89 | the position of the first passing trial, with none before it, or None when no trial passes |
| GreedyPriority.PriorityPlanner.constructor | src/solver/AcquisitionPlannerGreedyPriority.java:44-50 | empty, fresh plans per satellite |
| GreedyPriority.PriorityPlanner.PlanCandidate | src/solver/AcquisitionPlannerGreedyPriority.java:78-89 | the window loop on the plan objects computes TryWindows of the old plan states |
| GreedyPriority.PriorityPlanner.PlanAcquisitions | src/solver/AcquisitionPlannerGreedyPriority.java:56-92 | re-sorting what remains and removing its head processes the candidates in SortBy order by priority; the plans, selections and nPlanned are Run of that order |
| GreedyPriority.PopFacts | src/solver/AcquisitionPlannerGreedyPriority.java:71-75 | re-sorting the remaining candidates and taking the head yields the next candidate of the initial sorted order |
| GreedyPriority.PriorityOrder | src/solver/AcquisitionPlannerGreedyPriority.java:71-74 | the processing order is sorted by priority, is a permutation of the candidates, and keeps equal priorities in input order |
| GreedyPriority.TryWindowsFirstFeasible | src/solver/AcquisitionPlannerGreedyPriority.java:78-89 | the window loop commits exactly the first window whose test passes against the plans it started from, and nothing if none passes |
| GreedyPriority.StepSelects | src/solver/AcquisitionPlannerGreedyPriority.java:82-85 | one iteration selects the candidate at hand with its first passing window, or selects nothing |
| GreedyPriority.StepGood | src/solver/AcquisitionPlannerGreedyPriority.java:75-89 | one iteration keeps the invariant: every plan sorted and feasible, every planned window the selection of its candidate, nPlanned the number of selections |
| GreedyPriority.StepMatches | src/solver/AcquisitionPlannerGreedyPriority.java:75-89 | under the invariant, the iteration on plan states does what the window-level reference does |
| GreedyPriority.RunGood | src/solver/AcquisitionPlannerGreedyPriority.java:65-90 | the whole loop keeps the invariant |
| GreedyPriority.RunKeeps | src/solver/AcquisitionPlannerGreedyPriority.java:65-90 | no earlier selection is changed or dropped |
| GreedyPriority.RunOwnWindows | src/solver/AcquisitionPlannerGreedyPriority.java:84 | each selected candidate got one of its own windows |
| GreedyPriority.RunMatches | src/solver/AcquisitionPlannerGreedyPriority.java:65-90 | the loop on plan states computes the reference run |
| GreedyPriority.PlanningResult | src/solver/AcquisitionPlannerGreedyPriority.java:56-92 | from empty plans: the invariant holds at the end, only input candidates are selected, and each with one of its own windows |
| GreedyProba.ProbaPlanner.constructor | src/solver/AcquisitionPlannerGreedyPriorityGreedyProba.java:44-50 | empty, fresh plans per satellite |
| GreedyProba.SplitTiers | src/solver/AcquisitionPlannerGreedyPriorityGreedyProba.java:68-75 | the two lists hold the candidates of priority 0 and of priority 1, in input order |
| GreedyProba.TierMultiset | src/solver/AcquisitionPlannerGreedyPriorityGreedyProba.java:68-75 | a tier holds each candidate of its priority as often as the input, and nothing else |
| GreedyProba.ProcessingOrder | src/solver/AcquisitionPlannerGreedyPriorityGreedyProba.java:77-80 | the processing order is a permutation of the priority-0 tier followed by a permutation of the priority-1 tier |
| GreedyProba.OrderPriorities | src/solver/AcquisitionPlannerGreedyPriorityGreedyProba.java:77-80 | every priority-0 candidate comes before every priority-1 candidate |
| GreedyProba.OrderCounts | src/solver/AcquisitionPlannerGreedyPriorityGreedyProba.java:68-80 | candidates of any other priority are dropped; the others appear as often as in the input |
| GreedyProba.ScanChoice | src/solver/AcquisitionPlannerGreedyPriorityGreedyProba.java:93-122 | after k trials: martin holds iff some trial passed; feasible is window 0 or a passing window after the first passing one, of least cloud probability among those, the first such |
| GreedyProba.ChoiceFirstFeasible | src/solver/AcquisitionPlannerGreedyPriorityGreedyProba.java:93-122 | when window 0 passes, the committed window passes and has the least cloud probability of all passing windows, the first such |
| GreedyProba.ChoiceFirstInfeasible | src/solver/AcquisitionPlannerGreedyPriorityGreedyProba.java:93-136 | when window 0 fails but a later window passes, the commit is not the first passing window: it is window 0 or a passing window of lower cloud probability than window 0 |
| GreedyProba.ProbesSpec | src/solver/AcquisitionPlannerGreedyPriorityGreedyProba.java:95-122 | every trial is judged against the plans as they were before the loop, and martin and feasible follow the bookkeeping of Scan |
| GreedyProba.StepCommits | src/solver/AcquisitionPlannerGreedyPriorityGreedyProba.java:124-136 | a candidate is committed iff one of its trials passed, with the window Scan chose (the commit's effect on the start times and on feasibility is stated by CommitUntimed and CommitInfeasible) |
| GreedyProba.ProbesUntimed | src/solver/AcquisitionPlannerGreedyPriorityGreedyProba.java:95-122 | after the trial loop no tried window has a start-time entry on its satellite, and none is listed there |
| GreedyProba.CommitUntimed | src/solver/AcquisitionPlannerGreedyPriorityGreedyProba.java:131-135 | the newly committed window is one of the candidate's windows, is listed on its satellite, and has no entry in that plan's start-time map |
| GreedyProba.CommitInfeasible | src/solver/AcquisitionPlannerGreedyPriorityGreedyProba.java:94-136 | when window 0 fails its trial and the choice stays on it with martin raised, window 0 is committed and its plan fails the feasibility test |
| GreedyProba.ScenarioCommitInfeasible | src/solver/AcquisitionPlannerGreedyPriorityGreedyProba.java:94-136 | on a good, feasible state with A on satellite 0, the candidate [w0 on satellite 0, w1 on satellite 1] commits w0, and satellite 0's plan becomes infeasible |
| GreedyProba.ScanFixedChoice | src/solver/AcquisitionPlannerGreedyPriorityGreedyProba.java:94-122 | with the first passing window recorded, as intended: martin holds iff some trial passed, and the choice then passes, has the least cloud probability of all passing windows, and is the first such |
| GreedyProba.FixedAgrees | src/solver/AcquisitionPlannerGreedyPriorityGreedyProba.java:94-122 | when window 0 passes, the source's choice and the intended one coincide |
| GreedyProba.StepFixedOk | src/solver/AcquisitionPlannerGreedyPriorityGreedyProba.java:124-136 | with the intended choice an iteration keeps the invariant and keeps every plan sorted and feasible |
| GreedyProba.NormSorted | src/solver/AcquisitionPlannerGreedyPriorityGreedyProba.java:185 | the lists the next test sees are sorted by earliest start |
| GreedyProba.StepGood | src/solver/AcquisitionPlannerGreedyPriorityGreedyProba.java:88-136 | one iteration keeps the invariant (planned windows and selections agree, nPlanned counts them) |
| GreedyProba.StepSelects | src/solver/AcquisitionPlannerGreedyPriorityGreedyProba.java:124-136 | one iteration changes only the selection of the candidate at hand, to one of its own windows |
| GreedyProba.StepMatches | src/solver/AcquisitionPlannerGreedyPriorityGreedyProba.java:88-136 | on a candidate none of whose windows is planned, the iteration on plan states does what the reference does |
| GreedyProba.RunGood | src/solver/AcquisitionPlannerGreedyPriorityGreedyProba.java:82-143 | the whole loop keeps the invariant |
| GreedyProba.RunMatches | src/solver/AcquisitionPlannerGreedyPriorityGreedyProba.java:82-143 | the loop on plan states computes the reference run |
| GreedyProba.PlanningResult | src/solver/AcquisitionPlannerGreedyPriorityGreedyProba.java:56-145 | from empty plans the planner follows the reference and keeps the invariant |
| GreedyProba.SelectedTiers | src/solver/AcquisitionPlannerGreedyPriorityGreedyProba.java:68-80 | only candidates of priority 0 or 1 are ever selected |
| GreedyProba.SelectedOwnWindows | src/solver/AcquisitionPlannerGreedyPriorityGreedyProba.java:131-135 | each selected candidate got one of its own windows |
| GreedyProba.ProbaPlanner.TrialWindows | src/solver/AcquisitionPlannerGreedyPriorityGreedyProba.java:93-122 | the trial loop on the plan objects computes Probes of the old plan states |
| GreedyProba.ProbaPlanner.PlanAcquisitions | src/solver/AcquisitionPlannerGreedyPriorityGreedyProba.java:56-145 | the plans, selections and nPlanned are Run of the tiered, shuffled order |
| GreedyProba.ProbaPlanner.PlanCandidate | src/solver/AcquisitionPlannerGreedyPriorityGreedyProba.java:88-136 | one iteration on the plan objects computes Step of the old state |
| RandomProcess.Explode | src/solver/AcquisitionPlannerGreedySimpleAcquisitionsRandomProcess.java:60-72 | the nested loop yields the copies of the priority-0 candidates and those of the others, in input order |
| RandomProcess.ExplodedFrom | src/solver/AcquisitionPlannerGreedySimpleAcquisitionsRandomProcess.java:62-71 | every copy has one window, belongs to the list of its priority class, and is the copy of an input candidate for one of its windows |
| RandomProcess.ExplodedAll | src/solver/AcquisitionPlannerGreedySimpleAcquisitionsRandomProcess.java:62-71 | every window of every input candidate gives a copy in the list of its priority class |
| RandomProcess.ExplodedCount | src/solver/AcquisitionPlannerGreedySimpleAcquisitionsRandomProcess.java:62-71 | the two lists together hold one copy per (candidate, window) pair |
| RandomProcess.CloudOrder | src/solver/AcquisitionPlannerGreedySimpleAcquisitionsRandomProcess.java:76-89 | each list is sorted by cloud probability and permuted |
| RandomProcess.CutSubgroups | src/solver/AcquisitionPlannerGreedySimpleAcquisitionsRandomProcess.java:104-131 | the istart/istop loop over the borders computes Cut of the list |
| RandomProcess.Advance | src/solver/AcquisitionPlannerGreedySimpleAcquisitionsRandomProcess.java:114-122 | the while loop moves istop right and never past the last index |
| RandomProcess.CutEnd | src/solver/AcquisitionPlannerGreedySimpleAcquisitionsRandomProcess.java:108-131 | with at least one border, the final istart is below the list length, so the last element is in no subgroup |
| RandomProcess.CutTiles | src/solver/AcquisitionPlannerGreedySimpleAcquisitionsRandomProcess.java:124-130 | the subgroups are adjacent slices that together form the list from its start up to the final istart |
| RandomProcess.ScenarioCutDropsLast | src/solver/AcquisitionPlannerGreedySimpleAcquisitionsRandomProcess.java:111-131 | a single copy of cloud probability 0, below the border 0.1, ends up in no subgroup |
| RandomProcess.AdvanceFixedSorted | src/solver/AcquisitionPlannerGreedySimpleAcquisitionsRandomProcess.java:114-122 | with the loop allowed past the last copy, istop on a sorted list rests after the copies within the border |
| RandomProcess.CutFixedCovers | src/params/Params.java:26-32 | with the corrected loop, on a sorted list with ascending borders, the subgroups together are the copies at or below the last border, and a copy is in a subgroup iff its cloud probability is at most the last border |
| RandomProcess.CutMembers | src/solver/AcquisitionPlannerGreedySimpleAcquisitionsRandomProcess.java:124-128 | every element of a subgroup is an element of the list |
| RandomProcess.AdvanceSorted | src/solver/AcquisitionPlannerGreedySimpleAcquisitionsRandomProcess.java:114-122 | on a sorted list istop comes to rest after the copies of cloud probability within the border (capped at the last index) |
| RandomProcess.CutBands | src/solver/AcquisitionPlannerGreedySimpleAcquisitionsRandomProcess.java:103-131 | on a sorted list with ascending borders, subgroup k is the slice between the stop positions of borders k-1 and k |
| RandomProcess.SubgroupBounds | src/solver/AcquisitionPlannerGreedySimpleAcquisitionsRandomProcess.java:103-131 | every copy in subgroup k has cloud probability at most border k, above border k-1, and at most the last border |
| RandomProcess.CutAll | src/solver/AcquisitionPlannerGreedySimpleAcquisitionsRandomProcess.java:98-135 | the loop over the two priority lists gives the subgroups of the priority-0 list followed by those of the other |
| RandomProcess.SubgroupsFrom | src/solver/AcquisitionPlannerGreedySimpleAcquisitionsRandomProcess.java:98-135 | every copy in a subgroup is one of the exploded copies |
| RandomProcess.SubgroupsSingle | src/solver/AcquisitionPlannerGreedySimpleAcquisitionsRandomProcess.java:60-135 | every subgroup holds only single-window copies on existing satellites |
| RandomProcess.RandomPlanner.constructor | src/solver/AcquisitionPlannerGreedySimpleAcquisitionsRandomProcess.java:52-136 | empty fresh plans per satellite, and all_subgroups as Subgroups of the input |
| RandomProcess.RandomPlanner.ShuffleSubgroups | src/solver/AcquisitionPlannerGreedySimpleAcquisitionsRandomProcess.java:153-159 | each subgroup is shuffled in place and the run order is their concatenation |
| RandomProcess.OrderPermutes | src/solver/AcquisitionPlannerGreedySimpleAcquisitionsRandomProcess.java:156-159 | each shuffled subgroup is a permutation of the subgroup, and the run order a permutation of the concatenated subgroups |
| RandomProcess.RemoveAll | src/solver/AcquisitionPlannerGreedySimpleAcquisitionsRandomProcess.java:180 | removeAll keeps exactly the elements not in the removal list, in order |
| RandomProcess.Matching | src/solver/AcquisitionPlannerGreedySimpleAcquisitionsRandomProcess.java:174-179 | removeList holds exactly the pending copies with the committed index |
| RandomProcess.CollectCopies | src/solver/AcquisitionPlannerGreedySimpleAcquisitionsRandomProcess.java:174-179 | the loop that fills removeList computes Matching |
| RandomProcess.RandomPlanner.PlanHead | src/solver/AcquisitionPlannerGreedySimpleAcquisitionsRandomProcess.java:164-183 | one iteration on the plan objects computes Step: the head's window is committed when it passes the test, and then every pending copy of its candidate is removed |
| RandomProcess.RandomPlanner.PlanAcquisitions | src/solver/AcquisitionPlannerGreedySimpleAcquisitionsRandomProcess.java:138-185 | the subgroups are shuffled in place and the plans and selections are Run of the concatenated order |
| RandomProcess.StepGood | src/solver/AcquisitionPlannerGreedySimpleAcquisitionsRandomProcess.java:164-183 | one iteration keeps the invariant (plans sorted and feasible; planned and selected windows agree; pending copies single-window and of unselected candidates) |
| RandomProcess.RunGood | src/solver/AcquisitionPlannerGreedySimpleAcquisitionsRandomProcess.java:161-184 | the whole loop keeps the invariant |
| RandomProcess.StepMatches | src/solver/AcquisitionPlannerGreedySimpleAcquisitionsRandomProcess.java:164-183 | one iteration on plan states does what the window-level reference does |
| RandomProcess.RunMatches | src/solver/AcquisitionPlannerGreedySimpleAcquisitionsRandomProcess.java:161-184 | the loop on plan states computes the reference run |
| RandomProcess.RunKeys | src/solver/AcquisitionPlannerGreedySimpleAcquisitionsRandomProcess.java:172 | a run selects only indices of pending copies |
| RandomProcess.RunOffered | src/solver/AcquisitionPlannerGreedySimpleAcquisitionsRandomProcess.java:167-171 | a run plans no window except the windows offered by its copies |
| RandomProcess.OnePerCandidate | src/solver/AcquisitionPlannerGreedySimpleAcquisitionsRandomProcess.java:174-180 | under the invariant, at most one window per candidate is planned over all satellites |
| RandomProcess.OrderCopies | src/solver/AcquisitionPlannerGreedySimpleAcquisitionsRandomProcess.java:60-159 | every copy of the run order is a single-window copy of an input candidate for one of its windows |
| RandomProcess.PlanningResult | src/solver/AcquisitionPlannerGreedySimpleAcquisitionsRandomProcess.java:138-185 | one run from empty plans leaves every plan sorted and feasible, the selections tracked, only input indices selected, and only input windows planned |
| Scoring.AddPlan | src/solver/AcquisitionPlannerGreedySimpleAcquisitionsRandomProcess.java:307-311 | the inner loop continues the count and the two sums over one plan's windows |
| RandomProcess.RandomPlanner.GetScore | src/solver/AcquisitionPlannerGreedySimpleAcquisitionsRandomProcess.java:296-319 | the score is ScoreOf the plans' windows: planned fraction, mean priority, mean cloud probability |
| Scoring.ScoreRanges | src/solver/AcquisitionPlannerGreedySimpleAcquisitionsRandomProcess.java:314-317 | with something planned and components in [0, 1], the planned fraction is in (0, 1] and both means are in [0, 1] |
| Scoring.BetterIffMerit | src/solver/AcquisitionPlannerGreedySimpleAcquisitionsRandomProcess.java:321-330 | isBetterThan holds iff the first score's merit (fraction − priority − cloud) is strictly larger |
| Scoring.BetterStrictOrder | src/solver/AcquisitionPlannerGreedySimpleAcquisitionsRandomProcess.java:321-330 | isBetterThan is irreflexive, asymmetric and transitive |
| Scoring.DeltaRange | src/solver/AcquisitionPlannerGreedySimpleAcquisitionsRandomProcess.java:327 | total_delta lies between −3 and 3 for components in [0, 1] |
| Scoring.BestRunFirstMaximiser | src/solver/AcquisitionPlannerGreedySimpleAcquisitionsRandomProcess.java:339-357 | the loop keeps the first run of maximal merit, if that beats Score(-1); otherwise no run is kept and none beats it |
| Scoring.BestScoreMaximal | src/solver/AcquisitionPlannerGreedySimpleAcquisitionsRandomProcess.java:339-357 | the best score's merit is at least that of every run and of Score(-1) |
| Download.GetStationVisi | src/solver/TimeBasedDownloadPlanner.java:38-53 | the map has an entry for every satellite and every satellite the station sees at that time, and it is true exactly when some window of the station covers the satellite at that time |
| Download.GetSatVisi | src/solver/TimeBasedDownloadPlanner.java:55-68 | the count is the number of distinct stations with a window covering the satellite at that time |
| Download.SatVisiBound | src/solver/TimeBasedDownloadPlanner.java:55-68 | that count is at most the number of stations |
| Download.GetMinKey | src/solver/TimeBasedDownloadPlanner.java:78-91 | the key has a minimal value, and it is the first such key in iteration order |
| Download.EarliestStartMinimal | src/solver/TimeBasedDownloadPlanner.java:104-114 | a station's cursor is its earliest window start, or 1e99 when it has no window |
| Download.InitialCursors | src/solver/TimeBasedDownloadPlanner.java:104-114 | the two loops give every station, and only stations, its EarliestStart |
| Download.StartStation | src/solver/TimeBasedDownloadPlanner.java:104-117 | the current station is a station whose cursor is the least, and the current time is that cursor |
| Download.GatherProducts | src/solver/TimeBasedDownloadPlanner.java:193-202 | the satellite's recorded products, then its planned ones, in input order |
| Download.GatherWindows | src/solver/TimeBasedDownloadPlanner.java:219-223 | the satellite's download windows, in input order |
| Download.OfSatellite | src/solver/TimeBasedDownloadPlanner.java:193-202 | exactly the products of that satellite |
| Download.WindowsOf | src/solver/TimeBasedDownloadPlanner.java:219-223 | exactly the windows of that satellite |
| Download.Seek | src/solver/TimeBasedDownloadPlanner.java:246-254 | the search neither moves back nor lowers the time; a found window holds the download to its end, and a window moved to starts no later than the time |
| Download.SeekWindow | src/solver/TimeBasedDownloadPlanner.java:246-254 | the while loop computes Seek |
| Download.SeekSkipped | src/solver/TimeBasedDownloadPlanner.java:246-254 | on sorted windows, every skipped window cannot hold the download from the later of the time and its start |
| Download.PlaceProduct | src/solver/TimeBasedDownloadPlanner.java:244-254 | the loop body up to the window search computes Place, and the windows run out exactly when Place is None |
| Download.TraverseProduct | src/solver/TimeBasedDownloadPlanner.java:243-268 | one turn of the product loop either ends the traversal, when Place finds no window, or outputs the line of product i and continues from the end of its download, as Pack says |
| Download.Traverse | src/solver/TimeBasedDownloadPlanner.java:240-269 | the chronological traversal outputs the lines of Pack of the sorted products from the first window's start |
| Download.PlanDownloads | src/solver/TimeBasedDownloadPlanner.java:191-270 | the per-satellite loop outputs DownloadPlan: each satellite's lines in turn, none for a satellite without windows |
| Download.PackFits | src/solver/TimeBasedDownloadPlanner.java:243-268 | download k is of product k; it lies within its window, starts no earlier than the acquisition, and lasts volume / rate |
| Download.PackOrdered | src/solver/TimeBasedDownloadPlanner.java:246-268 | consecutive downloads do not overlap, and their window position never decreases |
| Download.PackStops | src/solver/TimeBasedDownloadPlanner.java:256-257 | after the first product that finds no window nothing more is downloaded, so the downloads are of a prefix of the sorted products |
| Download.SatelliteDownloadsFit | src/solver/TimeBasedDownloadPlanner.java:191-269 | every line of a satellite downloads, in order, a product of a prefix of its sorted products, in a window of that satellite holding the whole download |
| Download.SatelliteDownloadsDisjoint | src/solver/TimeBasedDownloadPlanner.java:243-268 | a satellite's downloads do not overlap |
| Download.NoWindowNoDownload | src/solver/TimeBasedDownloadPlanner.java:236-237 | a satellite without download windows downloads nothing |
| Download.DownloadPlanFit | src/solver/TimeBasedDownloadPlanner.java:191-270 | every line downloads a recorded or planned product of a listed satellite, in a window of that satellite holding the download |

## Findings

| source | as written | input that shows it | evidently intended | confidence | as-written member | corrected member |
|---|---|---|---|---|---|---|
| src/solver/AcquisitionPlannerGreedyPriorityGreedyProba.java:94-136 | `feasible` starts as window 0 and the first passing trial only raises `martin`; the commit `add(feasible)` runs no test | plan [A(0, 0, 10)] on satellite 0; candidate [w0(5, 5, 1) on satellite 0, w1 passing on satellite 1, cloudier]: w0 is committed and satellite 0's plan is infeasible | the first passing window is recorded (the commented-out `feasible = acqWindow`), so only a window that passed is committed and plans stay feasible | not executed | GreedyProba.ScenarioCommitInfeasible | GreedyProba.StepFixedOk |
| src/solver/AcquisitionPlannerGreedyPriority.java:129-154 | a failed `isFeasible` keeps the starts it wrote before the failure, and `remove` drops only the tried window's entry | plan A(0, 100, 10), B(20, 100, 10), C(50, 50, 10) with starts 0, 20, 50; the trial of W(5, 100, 35) fails and leaves B at 45, overlapping C at 50 | a failed trial leaves the plan's start times as they were, so they stay the schedule of its windows | not executed | Insertion.StaleStartsOverlap | Insertion.RestoringTimed |
| src/solver/AcquisitionPlannerGreedySimpleAcquisitionsRandomProcess.java:114-130 | istop stops at the last index and `subList` excludes it, so the last copy of each sorted list is in no subgroup | one copy of cloud probability 0 and the border 0.1: the only subgroup is empty | only copies above the last border are left out, as the border comment at src/params/Params.java:26-32 says | not executed | RandomProcess.ScenarioCutDropsLast | RandomProcess.CutFixedCovers |

The planners themselves are modelled as written. Each corrected member
sits beside the as-written definition it corrects: `GreedyProba.StepFixed`
beside `StepSpec`, `Insertion.TryInsertRestoring` beside `TryInsert`, and
`RandomProcess.CutFixed` beside `Cut`.

## Left out

- File I/O: the XML problem parser, writePlan, printScores, the plan files
  and the console output. Plans and lines are returned as values.
- Floating point: doubles are mathematical reals. NaN and rounding are not
  modelled; `Math.max` and `Double.compare` are the real maximum and order.
- The roll-angle transition time (`getTransitionTime`) is not modelled. It
  is an uninterpreted parameter; non-overlap assumes it is non-negative.
- `Collections.shuffle` and its random source: the shuffle is a
  caller-supplied permutation.
- HashMap iteration order: `Download.GetMinKey` and `Download.StartStation`
  take the key order as a parameter (`keyOrder`). The cursor
  initialisation, `Download.InitialCursors`, gives every station its cursor
  whatever the order, so it takes none.
- Java object identity: windows and candidates are values.
  - `List.remove(Object)` and `removeAll` compare by `equals`. The model
    compares values; this removes the same copies, since every matching copy
    has the committed index.
  - The `subList` views that `all_subgroups` keeps are not modelled. In
    Java, shuffling a subgroup also reorders the backing sorted list; the
    model keeps the subgroups as values of their own.
- The three copies of `SatellitePlan` (one per planner) are identical and
  modelled once, `Timeline.SatellitePlan`, cited at its first copy.
- `getStart` and `getAcqWindows` are the class's fields, read directly.
- The unfinished part of `planDownloads`:
  - `is_sat_occupied` has no body;
  - the `while (true)` loop exits at once;
  - `satVisi` is not used.

  Only the station-cursor initialisation before them is modelled.
- `DownloadPlanLine` and `StrategiesTest` are not part of this model.
- The problem-package classes are not part of this model.
  `Acquisition.getAcquisitionTime` and `getVolume` become fields of
  `Download.Product`. A planned candidate's satellite is the field
  `satellite`, taken from its selected window.
- `Params` constants are parameters:
  - the downlink rate, required positive;
  - the probability borders; `CutBands` and `SubgroupBounds` assume they
    ascend, as `{0.1, 0.2, 0.4, 0.8}` does;
  - the number of runs, which is the length of the score list.
- The driver `main` methods (parse, construct, run, write) are left out;
  only the best-of-N fold over the scores is modelled.
- Scoring.ScoreOf: with nothing planned the Java means are 0/0 (NaN). The
  model uses the unreachably bad Score(run) instead. In the best-of-N fold
  neither a NaN score nor this one is ever better than Score(-1) or a
  score with components in [0, 1], so the fold keeps the same run.
- RandomProcess.RandomPlanner.constructor: requires both priority lists to
  be non-empty when there are borders. The Java `get(istop)` on an empty
  list would throw.
- Download.GetMinKey: requires a non-empty key list, on which the Java
  `keys.get(0)` would throw.
- Download.StartStation: requires at least one station, and every window's
  station to be a station. Otherwise the map lookup at
  src/solver/TimeBasedDownloadPlanner.java:111 would fail.
- Timeline.SatellitePlan.IsFeasible: requires a non-empty window list. The
  Java `get(0)` throws on an empty one, and every caller adds a window
  first.
- The comparator `a1.priority - a2.priority` is modelled as a comparison of
  priorities. Integer overflow of the subtraction is not modelled.
