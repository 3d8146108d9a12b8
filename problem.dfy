/** The read-only planning problem shared by every planner: acquisition
    windows, candidate acquisitions and the roll-angle transition time.
    Satellites, candidates and windows are identified by small integers. */
module Problem {

  datatype Option<T> = None | Some(value: T)

  /** One opportunity to realise a candidate acquisition on one satellite.
      `candidate` and `priority` are those of the owning candidate. */
  datatype Window = Window(
    id: nat,
    candidate: nat,
    priority: int,
    satellite: nat,
    earliestStart: real,
    latestStart: real,
    duration: real,
    cloudProba: real)

  /** A target not observed yet, with its alternative windows in list order. */
  datatype Candidate = Candidate(idx: nat, priority: int, windows: seq<Window>)

  /** Minimum time needed to re-orient the sensor between two consecutive
      acquisitions; the roll-angle computation itself is not modelled. */
  type Transition = (Window, Window) -> real

  ghost predicate NonNegative(tr: Transition)
  {
    forall a, b :: tr(a, b) >= 0.0
  }

  /** Every window refers back to its candidate and to an existing satellite. */
  predicate WellFormedCandidate(c: Candidate, nSatellites: nat)
  {
    forall w :: w in c.windows ==>
      w.candidate == c.idx && w.priority == c.priority && w.satellite < nSatellites
  }

  /** Candidates are well formed and no two positions of the list carry the
      same index (so no candidate is listed twice). */
  predicate WellFormed(cands: seq<Candidate>, nSatellites: nat)
  {
    && (forall c :: c in cands ==> WellFormedCandidate(c, nSatellites))
    && (forall i, j :: 0 <= i < j < |cands| ==> cands[i].idx != cands[j].idx)
  }
}
