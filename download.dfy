/** TimeBasedDownloadPlanner: the visibility helpers, get_min_key, the
    initial station cursors, and the chronological traversal that packs
    the acquired products of each satellite into its download windows. */
module Download {
  import opened Problem
  import opened Sorting

  /** A visibility interval between one satellite and one station; idx is
      the window's own number, written in the plan. */
  datatype DownloadWindow = DownloadWindow(idx: nat, satellite: nat, station: nat, start: real, end: real)

  /** REC tags a recorded acquisition, CAND a planned candidate. */
  datatype Kind = REC | CAND

  /** An acquired product awaiting download.  For a planned candidate the
      satellite is that of its selected window. */
  datatype Product = Product(kind: Kind, idx: nat, satellite: nat, acquisitionTime: real, volume: real)

  /** One line of the download plan: kind, product index, window index,
      start and end of the download. */
  datatype Download = Download(kind: Kind, idx: nat, windowIdx: nat, start: real, end: real)

  function Max(a: real, b: real): real { if a >= b then a else b }

  /** The window covers time, bounds included. */
  predicate Covers(d: DownloadWindow, time: real)
  {
    time >= d.start && time <= d.end
  }

  // ---------------------------------------------------------------------
  // Visibility
  // ---------------------------------------------------------------------

  /** Some window between the station and satellite s covers time. */
  ghost predicate Visible(windows: seq<DownloadWindow>, time: real, station: nat, s: nat)
  {
    exists d :: d in windows && Covers(d, time) && d.station == station && d.satellite == s
  }

  /** get_station_visi: an entry for every satellite (and for every other
      satellite a covering window of the station names), true exactly when
      a window of the station covers time for it. */
  method GetStationVisi(time: real, station: nat, satellites: seq<nat>, windows: seq<DownloadWindow>)
    returns (stationVisi: map<nat, bool>)
    ensures forall s :: s in stationVisi <==> s in satellites || Visible(windows, time, station, s)
    ensures forall s :: s in stationVisi ==> (stationVisi[s] <==> Visible(windows, time, station, s))
  {
    stationVisi := map[];
    for i := 0 to |satellites|
      invariant forall s :: s in stationVisi <==> s in satellites[..i]
      invariant forall s :: s in stationVisi ==> !stationVisi[s]
    {
      assert satellites[..i + 1] == satellites[..i] + [satellites[i]];
      stationVisi := stationVisi[satellites[i] := false];
    }
    assert satellites[..|satellites|] == satellites;
    for i := 0 to |windows|
      invariant forall s :: s in stationVisi <==> s in satellites || Visible(windows[..i], time, station, s)
      invariant forall s :: s in stationVisi ==> (stationVisi[s] <==> Visible(windows[..i], time, station, s))
    {
      var d := windows[i];
      VisibleStep(windows, i, time, station);
      if time >= d.start && time <= d.end && d.station == station {
        stationVisi := stationVisi[d.satellite := true];
      }
    }
    assert windows[..|windows|] == windows;
  }

  lemma VisibleStep(windows: seq<DownloadWindow>, i: nat, time: real, station: nat)
    requires i < |windows|
    ensures forall s :: Visible(windows[..i + 1], time, station, s) <==>
      Visible(windows[..i], time, station, s)
      || (Covers(windows[i], time) && windows[i].station == station && windows[i].satellite == s)
  {
    var pre, w := windows[..i], windows[i];
    assert windows[..i + 1] == pre + [w];
    forall s ensures Visible(pre + [w], time, station, s) ==>
      Visible(pre, time, station, s) || (Covers(w, time) && w.station == station && w.satellite == s)
    {
      if Visible(pre + [w], time, station, s) {
        var d :| d in pre + [w] && Covers(d, time) && d.station == station && d.satellite == s;
        if d != w {
          assert d in pre;
        }
      }
    }
  }

  /** The stations whose window covers time for satellite sat. */
  ghost function CoveringStations(windows: seq<DownloadWindow>, time: real, sat: nat): set<nat>
  {
    set d | d in windows && Covers(d, time) && d.satellite == sat :: d.station
  }

  lemma CoveringStep(windows: seq<DownloadWindow>, i: nat, time: real, sat: nat)
    requires i < |windows|
    ensures CoveringStations(windows[..i + 1], time, sat)
         == CoveringStations(windows[..i], time, sat)
          + (if Covers(windows[i], time) && windows[i].satellite == sat then {windows[i].station} else {})
  {
    assert windows[..i + 1] == windows[..i] + [windows[i]];
  }

  /** The elements of a sequence, as a set. */
  ghost function Elems(s: seq<nat>): set<nat>
  {
    set x | x in s
  }

  predicate NoDuplicates(s: seq<nat>)
  {
    forall i, j :: 0 <= i < j < |s| ==> s[i] != s[j]
  }

  /** get_sat_visi: the number of distinct stations with a window covering
      time for the satellite. */
  method GetSatVisi(time: real, sat: nat, windows: seq<DownloadWindow>) returns (satVisi: nat)
    ensures satVisi == |CoveringStations(windows, time, sat)|
  {
    satVisi := 0;
    var listStations: seq<nat> := [];
    for i := 0 to |windows|
      invariant NoDuplicates(listStations) && satVisi == |listStations|
      invariant Elems(listStations) == CoveringStations(windows[..i], time, sat)
    {
      var d := windows[i];
      CoveringStep(windows, i, time, sat);
      if time >= d.start && time <= d.end && d.satellite == sat && d.station !in listStations {
        satVisi := satVisi + 1;
        listStations := listStations + [d.station];
      }
    }
    assert windows[..|windows|] == windows;
    DistinctCard(listStations);
  }

  lemma {:induction false} DistinctCard(s: seq<nat>)
    requires NoDuplicates(s)
    ensures |Elems(s)| == |s|
    decreases |s|
  {
    if s != [] {
      var pre, last := s[..|s| - 1], s[|s| - 1];
      assert s == pre + [last];
      DistinctCard(pre);
      var elems := Elems(pre);
      forall i | 0 <= i < |pre| ensures pre[i] != last {
        assert pre[i] == s[i];
      }
      assert last !in elems;
      assert Elems(s) == elems + {last};
    }
  }

  /** The count of get_sat_visi is at most the number of stations. */
  lemma SatVisiBound(windows: seq<DownloadWindow>, time: real, sat: nat, stations: set<nat>)
    requires forall d :: d in windows ==> d.station in stations
    ensures |CoveringStations(windows, time, sat)| <= |stations|
  {
    var c := CoveringStations(windows, time, sat);
    assert stations == c + (stations - c);
  }

  // ---------------------------------------------------------------------
  // Station cursors
  // ---------------------------------------------------------------------

  /** get_min_key over the keys in iteration order: a key of minimal value,
      the first one in that order (later keys replace it only when strictly
      smaller). */
  method GetMinKey(keys: seq<nat>, m: map<nat, real>) returns (key: nat)
    requires keys != [] && forall k :: k in keys ==> k in m
    ensures key in m && forall k :: k in keys ==> m[key] <= m[k]
    ensures exists i :: 0 <= i < |keys| && keys[i] == key && forall j :: 0 <= j < i ==> m[keys[j]] > m[key]
  {
    key := keys[0];
    var minimum := m[key];
    ghost var pos := 0;
    for i := 0 to |keys|
      invariant pos <= i && pos < |keys| && keys[pos] == key && minimum == m[key]
      invariant forall j :: 0 <= j < i ==> minimum <= m[keys[j]]
      invariant forall j :: 0 <= j < pos ==> m[keys[j]] > minimum
    {
      var k := keys[i];
      if m[k] < minimum {
        key := k;
        minimum := m[k];
        pos := i;
      }
    }
  }

  /** The cursor of a station without windows. */
  const NoWindow: real := 1e99

  /** The station's cursor after the loop over the windows: NoWindow,
      lowered to every window start of the station that is below it. */
  function EarliestStart(windows: seq<DownloadWindow>, station: nat): real
    decreases |windows|
  {
    if windows == [] then NoWindow
    else
      var m := EarliestStart(windows[..|windows| - 1], station);
      var d := windows[|windows| - 1];
      if d.station == station && d.start < m then d.start else m
  }

  /** The cursor is at most NoWindow and every start of the station's
      windows; it is NoWindow or one of those starts, and NoWindow when the
      station has no window. */
  lemma {:induction false} EarliestStartMinimal(windows: seq<DownloadWindow>, station: nat)
    ensures var r := EarliestStart(windows, station);
      && r <= NoWindow
      && (forall d :: d in windows && d.station == station ==> r <= d.start)
      && (r == NoWindow || exists d :: d in windows && d.station == station && d.start == r)
      && ((forall d :: d in windows ==> d.station != station) ==> r == NoWindow)
    decreases |windows|
  {
    if windows != [] {
      var pre := windows[..|windows| - 1];
      EarliestStartMinimal(pre, station);
      assert windows == pre + [windows[|windows| - 1]];
    }
  }

  /** The initialisation of StationCurrentTimes: NoWindow for every
      station, then lowered window by window.  Every window's station must
      be a station (the lookup of another would fail). */
  method InitialCursors(stations: seq<nat>, windows: seq<DownloadWindow>) returns (cursors: map<nat, real>)
    requires forall d :: d in windows ==> d.station in stations
    ensures forall s :: s in cursors <==> s in stations
    ensures forall s :: s in cursors ==> cursors[s] == EarliestStart(windows, s)
  {
    cursors := map[];
    for i := 0 to |stations|
      invariant forall s :: s in cursors <==> s in stations[..i]
      invariant forall s :: s in cursors ==> cursors[s] == NoWindow
    {
      assert stations[..i + 1] == stations[..i] + [stations[i]];
      cursors := cursors[stations[i] := NoWindow];
    }
    assert stations[..|stations|] == stations;
    for i := 0 to |windows|
      invariant forall s :: s in cursors <==> s in stations
      invariant forall s :: s in cursors ==> cursors[s] == EarliestStart(windows[..i], s)
    {
      var dlw := windows[i];
      assert windows[..i + 1][..i] == windows[..i];
      assert dlw in windows;
      if dlw.start < cursors[dlw.station] {
        cursors := cursors[dlw.station := dlw.start];
      }
    }
    assert windows[..|windows|] == windows;
  }

  /** The station-cursor initialisation: the cursors, then the station of
      least cursor (first in the map's iteration order keyOrder) and its
      time.  There must be a station. */
  method StartStation(stations: seq<nat>, windows: seq<DownloadWindow>, keyOrder: seq<nat>)
    returns (cursors: map<nat, real>, currentStation: nat, currentTime: real)
    requires stations != [] && forall d :: d in windows ==> d.station in stations
    requires forall s :: s in keyOrder <==> s in stations
    ensures forall s :: s in cursors <==> s in stations
    ensures forall s :: s in cursors ==> cursors[s] == EarliestStart(windows, s)
    ensures currentStation in stations && currentTime == EarliestStart(windows, currentStation)
    ensures forall s :: s in stations ==> currentTime <= EarliestStart(windows, s)
  {
    cursors := InitialCursors(stations, windows);
    assert stations[0] in keyOrder;
    currentStation := GetMinKey(keyOrder, cursors);
    currentTime := cursors[currentStation];
  }

  // ---------------------------------------------------------------------
  // The per-satellite traversal
  // ---------------------------------------------------------------------

  /** getAcquisitionTime, the key products are sorted by. */
  function AcqTime(p: Product): real { p.acquisitionTime }

  /** The key download windows are sorted by. */
  function WindowStart(w: DownloadWindow): real { w.start }

  /** The products of satellite sat, in list order. */
  function OfSatellite(ps: seq<Product>, sat: nat): (r: seq<Product>)
    ensures forall p :: p in r <==> p in ps && p.satellite == sat
    decreases |ps|
  {
    if ps == [] then []
    else
      var pre := OfSatellite(ps[..|ps| - 1], sat);
      assert ps == ps[..|ps| - 1] + [ps[|ps| - 1]];
      if ps[|ps| - 1].satellite == sat then pre + [ps[|ps| - 1]] else pre
  }

  /** The download windows of satellite sat, in list order. */
  function WindowsOf(ws: seq<DownloadWindow>, sat: nat): (r: seq<DownloadWindow>)
    ensures forall w :: w in r <==> w in ws && w.satellite == sat
    decreases |ws|
  {
    if ws == [] then []
    else
      var pre := WindowsOf(ws[..|ws| - 1], sat);
      assert ws == ws[..|ws| - 1] + [ws[|ws| - 1]];
      if ws[|ws| - 1].satellite == sat then pre + [ws[|ws| - 1]] else pre
  }

  /** candidateDownloads of satellite sat: its recorded acquisitions, then
      its planned ones, sorted by acquisition time. */
  function CandidateDownloads(recorded: seq<Product>, planned: seq<Product>, sat: nat): seq<Product>
  {
    SortBy(OfSatellite(recorded, sat) + OfSatellite(planned, sat), AcqTime)
  }

  /** downloadWindows of satellite sat, sorted by start. */
  function SatWindows(windows: seq<DownloadWindow>, sat: nat): seq<DownloadWindow>
  {
    SortBy(WindowsOf(windows, sat), WindowStart)
  }

  /** The state of the traversal: the position of currentWindow in the
      sorted window list, and currentTime. */
  datatype Cursor = Cursor(pos: nat, time: real)

  /** The inner while loop: while a download of duration d from the
      current time would end after the current window, move to the next
      window and to no earlier than its start; pos = |dws| once the windows
      run out. */
  function Seek(dws: seq<DownloadWindow>, c: Cursor, d: real): (r: Cursor)
    requires c.pos < |dws|
    ensures c.pos <= r.pos <= |dws| && c.time <= r.time
    ensures r.pos < |dws| ==> r.time + d <= dws[r.pos].end
    ensures r.pos < |dws| && r.pos > c.pos ==> dws[r.pos].start <= r.time
    ensures r.pos == c.pos ==> r.time == c.time
    decreases |dws| - c.pos
  {
    if c.time + d <= dws[c.pos].end then c
    else if c.pos + 1 < |dws| then Seek(dws, Cursor(c.pos + 1, Max(c.time, dws[c.pos + 1].start)), d)
    else Cursor(c.pos + 1, c.time)
  }

  /** dlDuration: the product's volume at the downlink rate. */
  function Duration(p: Product, rate: real): (d: real)
    requires rate > 0.0
    ensures p.volume >= 0.0 ==> d >= 0.0
  {
    p.volume / rate
  }

  /** A download found by the traversal: the product, the position of its
      window in the sorted window list, that window, and the interval. */
  datatype Slot = Slot(product: Product, pos: nat, window: DownloadWindow, start: real, end: real)

  /** One turn of the loop over the products, for product p from cursor
      c: the download starts no earlier than the product's acquisition time
      and the window search runs; None when the windows run out. */
  function Place(p: Product, dws: seq<DownloadWindow>, c: Cursor, rate: real): (r: Option<Slot>)
    requires rate > 0.0 && c.pos < |dws|
    ensures r.Some? ==> r.value.product == p && c.pos <= r.value.pos < |dws| && r.value.window == dws[r.value.pos]
  {
    var d := Duration(p, rate);
    var c' := Seek(dws, Cursor(c.pos, Max(c.time, p.acquisitionTime)), d);
    if c'.pos >= |dws| then None else Some(Slot(p, c'.pos, dws[c'.pos], c'.time, c'.time + d))
  }

  /** The loop over the sorted products from cursor c; it stops for good
      at the first product that finds no window, and otherwise goes on from
      the end of each download. */
  function Pack(ps: seq<Product>, dws: seq<DownloadWindow>, c: Cursor, rate: real): (r: seq<Slot>)
    requires rate > 0.0 && c.pos < |dws|
    ensures |r| <= |ps|
    decreases |ps|
  {
    if ps == [] then []
    else match Place(ps[0], dws, c, rate)
      case None => []
      case Some(s) => [s] + Pack(ps[1..], dws, Cursor(s.pos, s.end), rate)
  }

  /** The plan line of a slot. */
  function Line(s: Slot): Download
  {
    Download(s.product.kind, s.product.idx, s.window.idx, s.start, s.end)
  }

  function Lines(slots: seq<Slot>): (r: seq<Download>)
    ensures |r| == |slots|
    decreases |slots|
  {
    if slots == [] then [] else [Line(slots[0])] + Lines(slots[1..])
  }

  lemma LinesCons(s: Slot, rest: seq<Slot>)
    ensures Lines([s] + rest) == [Line(s)] + Lines(rest)
  {
    assert ([s] + rest)[1..] == rest;
  }

  lemma {:induction false} LinesAt(slots: seq<Slot>, k: nat)
    requires k < |slots|
    ensures Lines(slots)[k] == Line(slots[k])
    decreases k
  {
    if k > 0 {
      LinesAt(slots[1..], k - 1);
    }
  }

  lemma AppendAssoc(a: seq<Download>, b: seq<Download>, c: seq<Download>)
    ensures a + (b + c) == (a + b) + c
  {
  }

  /** The downloads of satellite sat; none when it has no window. */
  function SatelliteDownloads(recorded: seq<Product>, planned: seq<Product>, windows: seq<DownloadWindow>, sat: nat, rate: real): seq<Download>
    requires rate > 0.0
  {
    var dws := SatWindows(windows, sat);
    if dws == [] then []
    else Lines(Pack(CandidateDownloads(recorded, planned, sat), dws, Cursor(0, dws[0].start), rate))
  }

  /** The download plan: the downloads of each satellite in turn. */
  function DownloadPlan(satellites: seq<nat>, recorded: seq<Product>, planned: seq<Product>, windows: seq<DownloadWindow>, rate: real): seq<Download>
    requires rate > 0.0
    decreases |satellites|
  {
    if satellites == [] then []
    else
      DownloadPlan(satellites[..|satellites| - 1], recorded, planned, windows, rate)
        + SatelliteDownloads(recorded, planned, windows, satellites[|satellites| - 1], rate)
  }

  // ---------------------------------------------------------------------
  // Properties of the traversal
  // ---------------------------------------------------------------------

  /** The cursor invariant of the traversal: the time is not before the
      start of the current window. */
  predicate InWindow(dws: seq<DownloadWindow>, c: Cursor)
  {
    c.pos < |dws| && dws[c.pos].start <= c.time
  }

  /** With windows sorted by start, every window the search skips could
      not hold the download from the later of the time and that window's
      start. */
  lemma {:induction false} SeekSkipped(dws: seq<DownloadWindow>, c: Cursor, d: real)
    requires Sorted(dws, WindowStart) && InWindow(dws, c)
    ensures forall i :: c.pos <= i < Seek(dws, c, d).pos ==> Max(c.time, dws[i].start) + d > dws[i].end
    decreases |dws| - c.pos
  {
    if c.time + d > dws[c.pos].end && c.pos + 1 < |dws| {
      var c1 := Cursor(c.pos + 1, Max(c.time, dws[c.pos + 1].start));
      SeekSkipped(dws, c1, d);
      forall i | c.pos + 1 <= i < Seek(dws, c, d).pos
        ensures Max(c.time, dws[i].start) + d > dws[i].end
      {
        assert WindowStart(dws[c.pos + 1]) <= WindowStart(dws[i]);
        assert Max(c1.time, dws[i].start) == Max(c.time, dws[i].start);
      }
    }
  }

  /** A download found from a cursor in its window lies in its window,
      starts no earlier than the cursor and the product's acquisition time,
      and lasts the product's duration. */
  lemma PlaceFits(p: Product, dws: seq<DownloadWindow>, c: Cursor, rate: real)
    requires rate > 0.0 && InWindow(dws, c) && Place(p, dws, c, rate).Some?
    ensures var s := Place(p, dws, c, rate).value;
      && dws[s.pos].start <= s.start
      && s.end <= dws[s.pos].end
      && s.start >= p.acquisitionTime
      && s.start >= c.time
      && s.end == s.start + Duration(p, rate)
  {
  }

  /** Download k lies in its window, starts no earlier than its
      product's acquisition time and the cursor, and lasts the product's
      duration; given volumes that are not negative. */
  lemma {:induction false} PackFitsAt(ps: seq<Product>, dws: seq<DownloadWindow>, c: Cursor, rate: real, k: nat)
    requires rate > 0.0 && InWindow(dws, c)
    requires forall k :: 0 <= k < |ps| ==> ps[k].volume >= 0.0
    requires k < |Pack(ps, dws, c, rate)|
    ensures var s := Pack(ps, dws, c, rate)[k];
      && s.product == ps[k] && s.pos < |dws| && s.window == dws[s.pos]
      && dws[s.pos].start <= s.start
      && s.end <= dws[s.pos].end
      && s.start >= ps[k].acquisitionTime
      && s.start >= c.time
      && s.pos >= c.pos
      && s.end == s.start + Duration(ps[k], rate)
    decreases k
  {
    var s := Place(ps[0], dws, c, rate).value;
    var next := Cursor(s.pos, s.end);
    var rest := Pack(ps[1..], dws, next, rate);
    assert Pack(ps, dws, c, rate) == [s] + rest;
    PlaceFits(ps[0], dws, c, rate);
    if k > 0 {
      assert ps[0].volume >= 0.0;
      assert forall j :: 0 <= j < |ps[1..]| ==> ps[1..][j].volume >= 0.0;
      PackFitsAt(ps[1..], dws, next, rate, k - 1);
      assert ps[1..][k - 1] == ps[k];
    }
  }

  /** Every download lies in its window, starts no earlier than its
      product's acquisition time, and lasts the product's duration. */
  lemma PackFits(ps: seq<Product>, dws: seq<DownloadWindow>, c: Cursor, rate: real)
    requires rate > 0.0 && InWindow(dws, c)
    requires forall k :: 0 <= k < |ps| ==> ps[k].volume >= 0.0
    ensures var r := Pack(ps, dws, c, rate);
      forall k :: 0 <= k < |r| ==>
        && r[k].product == ps[k] && r[k].pos < |dws| && r[k].window == dws[r[k].pos]
        && dws[r[k].pos].start <= r[k].start
        && r[k].end <= dws[r[k].pos].end
        && r[k].start >= ps[k].acquisitionTime
        && r[k].end == r[k].start + Duration(ps[k], rate)
  {
    forall k | 0 <= k < |Pack(ps, dws, c, rate)| {
      PackFitsAt(ps, dws, c, rate, k);
    }
  }

  /** Each download ends before the next starts, in a window no earlier
      in the sorted list. */
  predicate Ordered(r: seq<Slot>)
  {
    forall k :: 0 <= k < |r| - 1 ==> r[k].end <= r[k + 1].start && r[k].pos <= r[k + 1].pos
  }

  /** Consecutive downloads do not overlap, and their window position never
      decreases. */
  lemma {:induction false} PackOrdered(ps: seq<Product>, dws: seq<DownloadWindow>, c: Cursor, rate: real)
    requires rate > 0.0 && InWindow(dws, c)
    requires forall k :: 0 <= k < |ps| ==> ps[k].volume >= 0.0
    ensures Ordered(Pack(ps, dws, c, rate))
    decreases |ps|
  {
    if ps != [] && Place(ps[0], dws, c, rate).Some? {
      var s := Place(ps[0], dws, c, rate).value;
      var next := Cursor(s.pos, s.end);
      var rest := Pack(ps[1..], dws, next, rate);
      PlaceFits(ps[0], dws, c, rate);
      assert ps[0].volume >= 0.0;
      assert forall k :: 0 <= k < |ps[1..]| ==> ps[1..][k].volume >= 0.0;
      PackOrdered(ps[1..], dws, next, rate);
      if rest != [] {
        PackFitsAt(ps[1..], dws, next, rate, 0);
      }
      OrderedCons(s, rest);
    }
  }

  lemma OrderedCons(s: Slot, rest: seq<Slot>)
    requires Ordered(rest) && (rest != [] ==> s.end <= rest[0].start && s.pos <= rest[0].pos)
    ensures Ordered([s] + rest)
  {
    var r := [s] + rest;
    forall k | 0 < k < |r| - 1 ensures r[k].end <= r[k + 1].start && r[k].pos <= r[k + 1].pos {
      assert r[k] == rest[k - 1] && r[k + 1] == rest[k];
    }
  }

  /** Once a product finds no window the traversal is over: products after
      it are never considered, so the downloaded products are a prefix of
      the sorted list. */
  lemma {:induction false} PackStops(ps: seq<Product>, more: seq<Product>, dws: seq<DownloadWindow>, c: Cursor, rate: real)
    requires rate > 0.0 && c.pos < |dws|
    requires |Pack(ps, dws, c, rate)| < |ps|
    ensures Pack(ps + more, dws, c, rate) == Pack(ps, dws, c, rate)
    decreases |ps|
  {
    assert (ps + more)[0] == ps[0];
    if Place(ps[0], dws, c, rate).Some? {
      var s := Place(ps[0], dws, c, rate).value;
      assert (ps + more)[1..] == ps[1..] + more;
      PackStops(ps[1..], more, dws, Cursor(s.pos, s.end), rate);
    }
  }

  /** The loop over the products, from position i on: it stops when the
      product finds no window, and otherwise goes on after its download. */
  lemma PackFrom(ps: seq<Product>, i: nat, dws: seq<DownloadWindow>, c: Cursor, rate: real)
    requires rate > 0.0 && c.pos < |dws| && i < |ps|
    ensures Place(ps[i], dws, c, rate).None? ==> Pack(ps[i..], dws, c, rate) == []
    ensures Place(ps[i], dws, c, rate).Some? ==>
      var s := Place(ps[i], dws, c, rate).value;
      Pack(ps[i..], dws, c, rate) == [s] + Pack(ps[i + 1..], dws, Cursor(s.pos, s.end), rate)
  {
    assert ps[i..][0] == ps[i] && ps[i..][1..] == ps[i + 1..];
  }

  /** The output so far followed by the lines of the rest of the loop, one
      turn later: unchanged when the windows run out, otherwise the line of
      product i moves to the output. */
  lemma PackNext(ps: seq<Product>, i: nat, dws: seq<DownloadWindow>, c: Cursor, rate: real, lines: seq<Download>)
    requires rate > 0.0 && c.pos < |dws| && i < |ps|
    ensures Place(ps[i], dws, c, rate).None? ==> lines + Lines(Pack(ps[i..], dws, c, rate)) == lines
    ensures Place(ps[i], dws, c, rate).Some? ==>
      var s := Place(ps[i], dws, c, rate).value;
      lines + Lines(Pack(ps[i..], dws, c, rate)) == (lines + [Line(s)]) + Lines(Pack(ps[i + 1..], dws, Cursor(s.pos, s.end), rate))
  {
    PackFrom(ps, i, dws, c, rate);
    if Place(ps[i], dws, c, rate).Some? {
      var s := Place(ps[i], dws, c, rate).value;
      var rest := Pack(ps[i + 1..], dws, Cursor(s.pos, s.end), rate);
      LinesCons(s, rest);
      AppendAssoc(lines, [Line(s)], Lines(rest));
    } else {
      assert lines + [] == lines;
    }
  }

  // ---------------------------------------------------------------------
  // Properties of the plan
  // ---------------------------------------------------------------------

  /** Line l downloads product p in window w of the product's satellite:
      inside the window, no earlier than the acquisition, for the
      product's duration. */
  predicate LineOf(l: Download, p: Product, w: DownloadWindow, rate: real)
    requires rate > 0.0
  {
    && l.kind == p.kind && l.idx == p.idx && l.windowIdx == w.idx
    && w.satellite == p.satellite
    && w.start <= l.start && l.end <= w.end
    && l.start >= p.acquisitionTime
    && l.end == l.start + Duration(p, rate)
  }

  /** Every product has a volume that is not negative. */
  ghost predicate Volumes(ps: seq<Product>)
  {
    forall p :: p in ps ==> p.volume >= 0.0
  }

  /** The downloads of a satellite take its sorted products in order, as a
      prefix, each in a window of that satellite that holds the whole
      download. */
  lemma SatelliteDownloadsFit(recorded: seq<Product>, planned: seq<Product>, windows: seq<DownloadWindow>, sat: nat, rate: real)
    requires rate > 0.0 && Volumes(recorded) && Volumes(planned)
    ensures var lines := SatelliteDownloads(recorded, planned, windows, sat, rate);
      var ps := CandidateDownloads(recorded, planned, sat);
      && |lines| <= |ps|
      && forall k :: 0 <= k < |lines| ==>
        && ps[k].satellite == sat && (ps[k] in recorded || ps[k] in planned)
        && exists w :: w in windows && LineOf(lines[k], ps[k], w, rate)
  {
    var dws := SatWindows(windows, sat);
    var ps := CandidateDownloads(recorded, planned, sat);
    SortByMembers(OfSatellite(recorded, sat) + OfSatellite(planned, sat), AcqTime);
    SortByMembers(WindowsOf(windows, sat), WindowStart);
    if dws != [] {
      var c := Cursor(0, dws[0].start);
      var slots := Pack(ps, dws, c, rate);
      forall k | 0 <= k < |ps| ensures ps[k].volume >= 0.0 {
        assert ps[k] in ps;
      }
      forall k | 0 <= k < |slots|
        ensures && ps[k].satellite == sat && (ps[k] in recorded || ps[k] in planned)
                && exists w :: w in windows && LineOf(Lines(slots)[k], ps[k], w, rate)
      {
        PackFitsAt(ps, dws, c, rate, k);
        LinesAt(slots, k);
        assert ps[k] in ps && dws[slots[k].pos] in dws;
        assert LineOf(Lines(slots)[k], ps[k], dws[slots[k].pos], rate);
      }
    }
  }

  /** The downloads of a satellite do not overlap: each ends no later than
      the next one starts. */
  lemma SatelliteDownloadsDisjoint(recorded: seq<Product>, planned: seq<Product>, windows: seq<DownloadWindow>, sat: nat, rate: real)
    requires rate > 0.0 && Volumes(recorded) && Volumes(planned)
    ensures var lines := SatelliteDownloads(recorded, planned, windows, sat, rate);
      forall k :: 0 <= k < |lines| - 1 ==> lines[k].end <= lines[k + 1].start
  {
    var dws := SatWindows(windows, sat);
    var ps := CandidateDownloads(recorded, planned, sat);
    if dws != [] {
      SortByMembers(OfSatellite(recorded, sat) + OfSatellite(planned, sat), AcqTime);
      forall k | 0 <= k < |ps| ensures ps[k].volume >= 0.0 {
        assert ps[k] in ps;
      }
      var c := Cursor(0, dws[0].start);
      var slots := Pack(ps, dws, c, rate);
      PackOrdered(ps, dws, c, rate);
      forall k | 0 <= k < |slots| - 1 ensures Lines(slots)[k].end <= Lines(slots)[k + 1].start {
        LinesAt(slots, k);
        LinesAt(slots, k + 1);
      }
    }
  }

  /** A satellite without download windows downloads nothing. */
  lemma NoWindowNoDownload(recorded: seq<Product>, planned: seq<Product>, windows: seq<DownloadWindow>, sat: nat, rate: real)
    requires rate > 0.0 && forall w :: w in windows ==> w.satellite != sat
    ensures SatelliteDownloads(recorded, planned, windows, sat, rate) == []
  {
    WindowsOfNone(windows, sat);
    assert SatWindows(windows, sat) == [];
  }

  lemma {:induction false} WindowsOfNone(ws: seq<DownloadWindow>, sat: nat)
    requires forall w :: w in ws ==> w.satellite != sat
    ensures WindowsOf(ws, sat) == []
    decreases |ws|
  {
    if ws != [] {
      WindowsOfNone(ws[..|ws| - 1], sat);
      assert ws[|ws| - 1] in ws;
    }
  }

  /** Every line of the plan downloads a recorded or planned product of a
      listed satellite, in a window of that satellite that holds the whole
      download. */
  lemma {:induction false} DownloadPlanFit(satellites: seq<nat>, recorded: seq<Product>, planned: seq<Product>, windows: seq<DownloadWindow>, rate: real)
    requires rate > 0.0 && Volumes(recorded) && Volumes(planned)
    ensures forall l :: l in DownloadPlan(satellites, recorded, planned, windows, rate) ==>
      exists p, w :: (p in recorded || p in planned) && p.satellite in satellites && w in windows && LineOf(l, p, w, rate)
    decreases |satellites|
  {
    if satellites != [] {
      var pre, sat := satellites[..|satellites| - 1], satellites[|satellites| - 1];
      DownloadPlanFit(pre, recorded, planned, windows, rate);
      SatelliteDownloadsFit(recorded, planned, windows, sat, rate);
      var lines := SatelliteDownloads(recorded, planned, windows, sat, rate);
      var ps := CandidateDownloads(recorded, planned, sat);
      forall l | l in DownloadPlan(satellites, recorded, planned, windows, rate)
        ensures exists p, w :: (p in recorded || p in planned) && p.satellite in satellites && w in windows && LineOf(l, p, w, rate)
      {
        if l in DownloadPlan(pre, recorded, planned, windows, rate) {
          var p, w :| (p in recorded || p in planned) && p.satellite in pre && w in windows && LineOf(l, p, w, rate);
          assert p.satellite in satellites;
        } else {
          var k :| 0 <= k < |lines| && lines[k] == l;
          var w :| w in windows && LineOf(lines[k], ps[k], w, rate);
          assert ps[k].satellite in satellites;
        }
      }
    }
  }

  // ---------------------------------------------------------------------
  // The loops of planDownloads
  // ---------------------------------------------------------------------

  /** The loops that fill candidateDownloads: the recorded acquisitions of
      the satellite, then its planned ones. */
  method GatherProducts(recorded: seq<Product>, planned: seq<Product>, sat: nat) returns (candidateDownloads: seq<Product>)
    ensures candidateDownloads == OfSatellite(recorded, sat) + OfSatellite(planned, sat)
  {
    candidateDownloads := [];
    for i := 0 to |recorded|
      invariant candidateDownloads == OfSatellite(recorded[..i], sat)
    {
      assert recorded[..i + 1][..i] == recorded[..i];
      if recorded[i].satellite == sat {
        candidateDownloads := candidateDownloads + [recorded[i]];
      }
    }
    assert recorded[..|recorded|] == recorded;
    ghost var fromRecorded := candidateDownloads;
    for i := 0 to |planned|
      invariant candidateDownloads == fromRecorded + OfSatellite(planned[..i], sat)
    {
      assert planned[..i + 1][..i] == planned[..i];
      if planned[i].satellite == sat {
        candidateDownloads := candidateDownloads + [planned[i]];
      }
    }
    assert planned[..|planned|] == planned;
  }

  /** The loop that fills downloadWindows. */
  method GatherWindows(windows: seq<DownloadWindow>, sat: nat) returns (downloadWindows: seq<DownloadWindow>)
    ensures downloadWindows == WindowsOf(windows, sat)
  {
    downloadWindows := [];
    for i := 0 to |windows|
      invariant downloadWindows == WindowsOf(windows[..i], sat)
    {
      assert windows[..i + 1][..i] == windows[..i];
      if windows[i].satellite == sat {
        downloadWindows := downloadWindows + [windows[i]];
      }
    }
    assert windows[..|windows|] == windows;
  }

  /** The inner while loop of the traversal. */
  method SeekWindow(downloadWindows: seq<DownloadWindow>, idx: nat, time: real, dlDuration: real)
    returns (currentDownloadWindowIdx: nat, currentTime: real)
    requires idx < |downloadWindows|
    ensures Cursor(currentDownloadWindowIdx, currentTime) == Seek(downloadWindows, Cursor(idx, time), dlDuration)
  {
    currentDownloadWindowIdx, currentTime := idx, time;
    var currentWindow := downloadWindows[idx];
    while currentTime + dlDuration > currentWindow.end
      invariant currentDownloadWindowIdx < |downloadWindows| && currentWindow == downloadWindows[currentDownloadWindowIdx]
      invariant Seek(downloadWindows, Cursor(currentDownloadWindowIdx, currentTime), dlDuration)
             == Seek(downloadWindows, Cursor(idx, time), dlDuration)
      decreases |downloadWindows| - currentDownloadWindowIdx
    {
      currentDownloadWindowIdx := currentDownloadWindowIdx + 1;
      if currentDownloadWindowIdx < |downloadWindows| {
        currentWindow := downloadWindows[currentDownloadWindowIdx];
        currentTime := Max(currentTime, currentWindow.start);
      } else {
        return;
      }
    }
  }

  /** The loop body up to the window search: the later of the current
      time and the acquisition time, the duration, and the inner while
      loop. */
  method PlaceProduct(downloadWindows: seq<DownloadWindow>, a: Product, idx: nat, time: real, rate: real)
    returns (currentDownloadWindowIdx: nat, currentTime: real, dlDuration: real)
    requires rate > 0.0 && idx < |downloadWindows|
    ensures currentDownloadWindowIdx >= |downloadWindows| <==> Place(a, downloadWindows, Cursor(idx, time), rate).None?
    ensures currentDownloadWindowIdx < |downloadWindows| ==>
      Place(a, downloadWindows, Cursor(idx, time), rate)
        == Some(Slot(a, currentDownloadWindowIdx, downloadWindows[currentDownloadWindowIdx], currentTime, currentTime + dlDuration))
  {
    currentTime := Max(time, a.acquisitionTime);
    dlDuration := Duration(a, rate);
    currentDownloadWindowIdx, currentTime := SeekWindow(downloadWindows, idx, currentTime, dlDuration);
  }

  /** One turn of the loop over the products, on product i: the window
      search, then the plan line and the time after the download; None
      when the windows run out. */
  method TraverseProduct(candidateDownloads: seq<Product>, i: nat, downloadWindows: seq<DownloadWindow>, idx: nat, time: real, rate: real, ghost lines: seq<Download>)
    returns (currentDownloadWindowIdx: nat, currentTime: real, line: Option<Download>)
    requires rate > 0.0 && idx < |downloadWindows| && i < |candidateDownloads|
    ensures line.None? ==> lines + Lines(Pack(candidateDownloads[i..], downloadWindows, Cursor(idx, time), rate)) == lines
    ensures line.Some? ==> currentDownloadWindowIdx < |downloadWindows|
    ensures line.Some? ==>
      lines + Lines(Pack(candidateDownloads[i..], downloadWindows, Cursor(idx, time), rate))
        == (lines + [line.value]) + Lines(Pack(candidateDownloads[i + 1..], downloadWindows, Cursor(currentDownloadWindowIdx, currentTime), rate))
  {
    var a := candidateDownloads[i];
    var dlDuration;
    currentDownloadWindowIdx, currentTime, dlDuration := PlaceProduct(downloadWindows, a, idx, time, rate);
    PackNext(candidateDownloads, i, downloadWindows, Cursor(idx, time), rate, lines);
    if currentDownloadWindowIdx >= |downloadWindows| {
      return currentDownloadWindowIdx, currentTime, None;
    }
    line := Some(Download(a.kind, a.idx, downloadWindows[currentDownloadWindowIdx].idx, currentTime, currentTime + dlDuration));
    currentTime := currentTime + dlDuration;
  }

  /** The chronological traversal of one satellite's sorted products and
      sorted, non-empty window list. */
  method Traverse(candidateDownloads: seq<Product>, downloadWindows: seq<DownloadWindow>, rate: real)
    returns (lines: seq<Download>)
    requires rate > 0.0 && downloadWindows != []
    ensures lines == Lines(Pack(candidateDownloads, downloadWindows, Cursor(0, downloadWindows[0].start), rate))
  {
    ghost var target := Lines(Pack(candidateDownloads, downloadWindows, Cursor(0, downloadWindows[0].start), rate));
    var currentDownloadWindowIdx: nat := 0;
    var currentTime := downloadWindows[0].start;
    lines := [];
    for i := 0 to |candidateDownloads|
      invariant currentDownloadWindowIdx < |downloadWindows|
      invariant target == lines + Lines(Pack(candidateDownloads[i..], downloadWindows, Cursor(currentDownloadWindowIdx, currentTime), rate))
    {
      var line;
      currentDownloadWindowIdx, currentTime, line := TraverseProduct(candidateDownloads, i, downloadWindows, currentDownloadWindowIdx, currentTime, rate, lines);
      if line.None? {
        break;
      }
      lines := lines + [line.value];
    }
  }

  /** The per-satellite loop of planDownloads, returning the plan lines
      instead of writing them. */
  method PlanDownloads(satellites: seq<nat>, recorded: seq<Product>, planned: seq<Product>, windows: seq<DownloadWindow>, rate: real)
    returns (plan: seq<Download>)
    requires rate > 0.0
    ensures plan == DownloadPlan(satellites, recorded, planned, windows, rate)
  {
    plan := [];
    for i := 0 to |satellites|
      invariant plan == DownloadPlan(satellites[..i], recorded, planned, windows, rate)
    {
      var satellite := satellites[i];
      assert satellites[..i + 1][..i] == satellites[..i];
      var candidateDownloads := GatherProducts(recorded, planned, satellite);
      candidateDownloads := SortBy(candidateDownloads, AcqTime);
      var downloadWindows := GatherWindows(windows, satellite);
      downloadWindows := SortBy(downloadWindows, WindowStart);
      if downloadWindows == [] {
        continue;
      }
      var lines := Traverse(candidateDownloads, downloadWindows, rate);
      plan := plan + lines;
    }
    assert satellites[..|satellites|] == satellites;
  }
}
