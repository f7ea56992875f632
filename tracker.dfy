/**
 * `OccupancyTracker` (parking_system.py): an append-only list of parking
 * sessions. `record_entry` appends an open session, `record_exit` closes the
 * newest open session of a spot and plate, and `get_statistics` summarises
 * the sessions that entered within a time window. Reading and writing the
 * history file are not modelled; a tracker starts with an empty history.
 */
module Tracker {
  import opened Optional
  import opened Spots
  import opened Layout

  /** A history record; times are in seconds. */
  datatype HistoryEntry = HistoryEntry(
    spotId: SpotId,
    spotType: SpotType,
    vehicle: VehicleInfo,
    entryTime: Option<int>,
    exitTime: Option<int>)

  /** The record `record_entry` appends: the spot's type and entry time, still open. */
  function EntryFor(id: SpotId, s: Spot, v: VehicleInfo): HistoryEntry {
    HistoryEntry(id, s.kind, v, s.entryTime, None)
  }

  /** A session of vehicle `plate` on spot `id` that has not been closed. */
  predicate OpenFor(e: HistoryEntry, id: SpotId, plate: string) {
    e.spotId == id && e.vehicle.plate == plate && e.exitTime.None?
  }

  /** The index of the newest open session of `plate` on spot `id`, if any. */
  function LastOpen(h: seq<HistoryEntry>, id: SpotId, plate: string): (r: Option<nat>)
    ensures r.Some? ==> r.value < |h| && OpenFor(h[r.value], id, plate)
    ensures r.Some? ==> forall j :: r.value < j < |h| ==> !OpenFor(h[j], id, plate)
    ensures r.None? <==> forall j :: 0 <= j < |h| ==> !OpenFor(h[j], id, plate)
    decreases |h|
  {
    if h == [] then None
    else if OpenFor(h[|h| - 1], id, plate) then Some(|h| - 1)
    else
      var r := LastOpen(h[..|h| - 1], id, plate);
      assert forall j :: 0 <= j < |h| - 1 ==> h[..|h| - 1][j] == h[j];
      r
  }

  function Close(e: HistoryEntry, now: int): HistoryEntry {
    e.(exitTime := Some(now))
  }

  /** The history after closing the newest open session of `plate` on `id`. */
  function Closing(h: seq<HistoryEntry>, id: SpotId, plate: string, now: int): seq<HistoryEntry> {
    match LastOpen(h, id, plate)
    case None => h
    case Some(i) => h[i := Close(h[i], now)]
  }

  /** `record_exit`'s effect: nothing unless the spot exists and holds a vehicle. */
  function AfterExit(h: seq<HistoryEntry>, spot: Option<Spot>, id: SpotId, now: int): (r: seq<HistoryEntry>)
    ensures |r| == |h|
    ensures forall j :: 0 <= j < |h| && r[j] != h[j] ==> r[j] == h[j].(exitTime := Some(now)) && h[j].spotId == id
    ensures spot.None? || spot.value.vehicle.None? ==> r == h
  {
    if spot.Some? && spot.value.vehicle.Some? then Closing(h, id, spot.value.vehicle.value.plate, now) else h
  }

  /** The number of open sessions of `plate` on spot `id`. */
  function OpenCount(h: seq<HistoryEntry>, id: SpotId, plate: string): nat
    decreases |h|
  {
    if h == [] then 0
    else OpenCount(h[..|h| - 1], id, plate) + (if OpenFor(h[|h| - 1], id, plate) then 1 else 0)
  }

  lemma {:induction false} OpenCountZero(h: seq<HistoryEntry>, id: SpotId, plate: string)
    ensures OpenCount(h, id, plate) == 0 <==> forall j :: 0 <= j < |h| ==> !OpenFor(h[j], id, plate)
    decreases |h|
  {
    if h != [] {
      var p := h[..|h| - 1];
      OpenCountZero(p, id, plate);
      assert forall j :: 0 <= j < |p| ==> p[j] == h[j];
    }
  }

  /** Closing an open session at position i lowers the open count by one. */
  lemma {:induction false} CloseLowersCount(h: seq<HistoryEntry>, id: SpotId, plate: string, i: nat, now: int)
    requires i < |h| && OpenFor(h[i], id, plate)
    ensures OpenCount(h[i := Close(h[i], now)], id, plate) == OpenCount(h, id, plate) - 1
    decreases |h|
  {
    var c := h[i := Close(h[i], now)];
    var p := h[..|h| - 1];
    if i == |h| - 1 {
      assert c[..|c| - 1] == p;
    } else {
      assert c[..|c| - 1] == p[i := Close(p[i], now)];
      CloseLowersCount(p, id, plate, i, now);
    }
  }

  /**
   * `record_exit` closes at most one session, the newest open one of that
   * spot and plate: every changed entry was that one and only gained an exit
   * time; the open count drops by one when there was an open session and
   * nothing changes when there was none.
   */
  lemma ClosingClosesOne(h: seq<HistoryEntry>, id: SpotId, plate: string, now: int)
    ensures var c := Closing(h, id, plate, now);
      && |c| == |h|
      && (forall j :: 0 <= j < |h| && c[j] != h[j] ==>
            && OpenFor(h[j], id, plate)
            && c[j] == h[j].(exitTime := Some(now))
            && forall k :: j < k < |h| ==> !OpenFor(h[k], id, plate))
      && (forall j, k :: 0 <= j < |h| && 0 <= k < |h| && c[j] != h[j] && c[k] != h[k] ==> j == k)
      && OpenCount(c, id, plate) == (if OpenCount(h, id, plate) == 0 then 0 else OpenCount(h, id, plate) - 1)
      && (OpenCount(h, id, plate) == 0 ==> c == h)
  {
    OpenCountZero(h, id, plate);
    match LastOpen(h, id, plate)
    case None =>
    case Some(i) =>
      CloseLowersCount(h, id, plate, i, now);
  }

  /** The entry times of every record are set (the statistics parse each of them). */
  predicate Timed(h: seq<HistoryEntry>) {
    forall i :: 0 <= i < |h| ==> h[i].entryTime.Some?
  }

  /** `get_statistics`' period argument; AllTime stands for every other value. */
  datatype Period = Day | Week | Month | AllTime

  const SecondsPerDay := 86400

  /** The earliest entry time counted; None is `datetime.min`. */
  function Cutoff(period: Period, now: int): (r: Option<int>)
    ensures r.None? <==> period == AllTime
    ensures r.Some? ==> now - 30 * SecondsPerDay <= r.value < now
    ensures period == Day ==> r == Some(now - 86400)
    ensures period == Week ==> r == Some(now - 604800)
    ensures period == Month ==> r == Some(now - 2592000)
  {
    match period
    case Day => Some(now - SecondsPerDay)
    case Week => Some(now - 7 * SecondsPerDay)
    case Month => Some(now - 30 * SecondsPerDay)
    case AllTime => None
  }

  predicate InWindow(e: HistoryEntry, cutoff: Option<int>) {
    cutoff.None? || (e.entryTime.Some? && e.entryTime.value >= cutoff.value)
  }

  /** `relevant_entries`: the records that entered at or after the cutoff, in history order. */
  function Relevant(h: seq<HistoryEntry>, cutoff: Option<int>): (r: seq<HistoryEntry>)
    ensures forall e :: e in r <==> e in h && InWindow(e, cutoff)
    ensures |r| <= |h|
    decreases |h|
  {
    if h == [] then []
    else
      var last := h[|h| - 1];
      var p := h[..|h| - 1];
      assert h == p + [last];
      Relevant(p, cutoff) + (if InWindow(last, cutoff) then [last] else [])
  }

  /**
   * Every in-window record is kept as many times as the history holds it, and
   * no other record is kept, so `total_vehicles` counts the in-window entries.
   */
  lemma {:induction false} RelevantMultiset(h: seq<HistoryEntry>, cutoff: Option<int>)
    ensures forall e :: multiset(Relevant(h, cutoff))[e] == (if InWindow(e, cutoff) then multiset(h)[e] else 0)
    decreases |h|
  {
    if h != [] {
      var p := h[..|h| - 1];
      assert h == p + [h[|h| - 1]];
      RelevantMultiset(p, cutoff);
    }
  }

  /** A shorter period counts a subset of a longer one. */
  lemma WindowsNest(h: seq<HistoryEntry>, now: int)
    ensures forall e :: e in Relevant(h, Cutoff(Day, now)) ==> e in Relevant(h, Cutoff(Week, now))
    ensures forall e :: e in Relevant(h, Cutoff(Week, now)) ==> e in Relevant(h, Cutoff(Month, now))
  {
  }

  /** Any period other than day, week and month counts the whole history. */
  lemma {:induction false} AllTimeKeepsAll(h: seq<HistoryEntry>, now: int)
    ensures Relevant(h, Cutoff(AllTime, now)) == h
    decreases |h|
  {
    if h != [] {
      var p := h[..|h| - 1];
      AllTimeKeepsAll(p, now);
      assert h == p + [h[|h| - 1]];
    }
  }

  /** Session length in minutes (zero for a record without both times). */
  function Minutes(e: HistoryEntry): real {
    if e.entryTime.Some? && e.exitTime.Some? then (e.exitTime.value - e.entryTime.value) as real / 60.0 else 0.0
  }

  predicate OfKind(e: HistoryEntry, kind: Option<SpotType>) {
    kind.None? || e.spotType == kind.value
  }

  /** The lengths of the closed sessions (of one type, or of all), in order. */
  function Durations(r: seq<HistoryEntry>, kind: Option<SpotType>): seq<real>
    decreases |r|
  {
    if r == [] then []
    else
      var last := r[|r| - 1];
      Durations(r[..|r| - 1], kind) + (if last.exitTime.Some? && OfKind(last, kind) then [Minutes(last)] else [])
  }

  /** The number of sessions on spots of type t. */
  function TypeCount(r: seq<HistoryEntry>, t: SpotType): nat
    decreases |r|
  {
    if r == [] then 0
    else TypeCount(r[..|r| - 1], t) + (if r[|r| - 1].spotType == t then 1 else 0)
  }

  /** The spot types in the order they first appear: the key order of `by_type`. */
  function Kinds(r: seq<HistoryEntry>): seq<SpotType>
    decreases |r|
  {
    if r == [] then []
    else
      var ks := Kinds(r[..|r| - 1]);
      var t := r[|r| - 1].spotType;
      ks + (if t in ks then [] else [t])
  }

  function Sum(xs: seq<real>): real
    decreases |xs|
  {
    if xs == [] then 0.0 else Sum(xs[..|xs| - 1]) + xs[|xs| - 1]
  }

  /** The mean, or None for no values. */
  function Mean(xs: seq<real>): Option<real> {
    if xs == [] then None else Some(Sum(xs) / (|xs| as real))
  }

  datatype TypeSummary = TypeSummary(kind: SpotType, count: nat, durationMinutes: real)

  datatype Statistics = Statistics(totalVehicles: nat, avgDuration: Option<real>, byType: seq<TypeSummary>)

  /** The summary of type t; the mean length is 0 when no session of that type is closed. */
  function SummaryOf(r: seq<HistoryEntry>, t: SpotType): TypeSummary {
    var m := Mean(Durations(r, Some(t)));
    TypeSummary(t, TypeCount(r, t), if m.Some? then m.value else 0.0)
  }

  function Summaries(r: seq<HistoryEntry>, ks: seq<SpotType>): (res: seq<TypeSummary>)
    ensures |res| == |ks|
    decreases |ks|
  {
    if ks == [] then [] else Summaries(r, ks[..|ks| - 1]) + [SummaryOf(r, ks[|ks| - 1])]
  }

  /** What `get_statistics` returns for the in-window records r. */
  function Summarize(r: seq<HistoryEntry>): (s: Statistics)
    ensures s.totalVehicles == |r|
    ensures s.avgDuration.None? <==> Durations(r, None) == []
    ensures |s.byType| == |Kinds(r)|
  {
    Statistics(|r|, Mean(Durations(r, None)), Summaries(r, Kinds(r)))
  }


  /** Each type of the records is listed once, and only those types. */
  lemma {:induction false} KindsFacts(r: seq<HistoryEntry>)
    ensures Distinct(Kinds(r))
    ensures forall t :: t in Kinds(r) <==> exists i :: 0 <= i < |r| && r[i].spotType == t
    decreases |r|
  {
    if r != [] {
      var p := r[..|r| - 1];
      KindsFacts(p);
      assert forall i :: 0 <= i < |p| ==> p[i] == r[i];
      forall t | exists i :: 0 <= i < |r| && r[i].spotType == t
        ensures t in Kinds(r)
      {
        var i :| 0 <= i < |r| && r[i].spotType == t;
        if i < |p| {
          assert p[i].spotType == t;
        }
      }
    }
  }

  /** A type that does not occur has no sessions and no durations. */
  lemma {:induction false} AbsentType(r: seq<HistoryEntry>, t: SpotType)
    requires t !in Kinds(r)
    ensures TypeCount(r, t) == 0 && Durations(r, Some(t)) == []
    decreases |r|
  {
    if r != [] {
      AbsentType(r[..|r| - 1], t);
    }
  }

  /** The number of records whose type is in ks. */
  function CountIn(r: seq<HistoryEntry>, ks: seq<SpotType>): nat
    decreases |r|
  {
    if r == [] then 0
    else CountIn(r[..|r| - 1], ks) + (if r[|r| - 1].spotType in ks then 1 else 0)
  }

  function SumCounts(ss: seq<TypeSummary>): nat
    decreases |ss|
  {
    if ss == [] then 0 else SumCounts(ss[..|ss| - 1]) + ss[|ss| - 1].count
  }

  lemma {:induction false} CountInStep(r: seq<HistoryEntry>, ks: seq<SpotType>, t: SpotType)
    requires t !in ks
    ensures CountIn(r, ks + [t]) == CountIn(r, ks) + TypeCount(r, t)
    decreases |r|
  {
    if r != [] {
      CountInStep(r[..|r| - 1], ks, t);
    }
  }

  lemma {:induction false} SummariesCount(r: seq<HistoryEntry>, ks: seq<SpotType>)
    requires Distinct(ks)
    ensures SumCounts(Summaries(r, ks)) == CountIn(r, ks)
    decreases |ks|
  {
    if ks == [] {
      CountInNone(r);
    } else {
      var p := ks[..|ks| - 1];
      var t := ks[|ks| - 1];
      assert ks == p + [t];
      SummariesCount(r, p);
      CountInStep(r, p, t);
    }
  }

  lemma {:induction false} CountInNone(r: seq<HistoryEntry>)
    ensures CountIn(r, []) == 0
    decreases |r|
  {
    if r != [] {
      CountInNone(r[..|r| - 1]);
    }
  }

  lemma {:induction false} CountInAll(r: seq<HistoryEntry>, ks: seq<SpotType>)
    requires forall i :: 0 <= i < |r| ==> r[i].spotType in ks
    ensures CountIn(r, ks) == |r|
    decreases |r|
  {
    if r != [] {
      var p := r[..|r| - 1];
      assert forall i :: 0 <= i < |p| ==> p[i] == r[i];
      CountInAll(p, ks);
    }
  }

  lemma {:induction false} NoDurations(r: seq<HistoryEntry>, kind: Option<SpotType>)
    ensures Durations(r, kind) == [] <==> forall i :: 0 <= i < |r| && OfKind(r[i], kind) ==> r[i].exitTime.None?
    decreases |r|
  {
    if r != [] {
      var p := r[..|r| - 1];
      assert forall i :: 0 <= i < |p| ==> p[i] == r[i];
      NoDurations(p, kind);
    }
  }

  lemma {:induction false} SummariesAt(r: seq<HistoryEntry>, ks: seq<SpotType>)
    ensures |Summaries(r, ks)| == |ks|
    ensures forall j :: 0 <= j < |ks| ==> Summaries(r, ks)[j] == SummaryOf(r, ks[j])
    decreases |ks|
  {
    if ks != [] {
      var p := ks[..|ks| - 1];
      SummariesAt(r, p);
      var prev := Summaries(r, p);
      var last := SummaryOf(r, ks[|ks| - 1]);
      assert Summaries(r, ks) == prev + [last];
      forall j | 0 <= j < |ks| ensures Summaries(r, ks)[j] == SummaryOf(r, ks[j]) {
        if j < |p| {
          assert ks[j] == p[j];
          assert (prev + [last])[j] == prev[j];
        }
      }
    }
  }

  /**
   * The totals of the in-window summary: `total_vehicles` is the number of
   * records, the per-type counts add up to it, and the average is None
   * exactly when no record is closed.
   */
  lemma StatisticsTotals(r: seq<HistoryEntry>)
    ensures var st := Summarize(r);
      && st.totalVehicles == |r|
      && SumCounts(st.byType) == st.totalVehicles
      && (st.avgDuration.None? <==> forall i :: 0 <= i < |r| ==> r[i].exitTime.None?)
  {
    var ks := Kinds(r);
    KindsFacts(r);
    SummariesCount(r, ks);
    CountInAll(r, ks);
    NoDurations(r, None);
  }

  /**
   * The per-type part of the in-window summary: each type of the records
   * occurs once, with a positive count, and reports 0 minutes when none of
   * its sessions is closed.
   */
  lemma StatisticsByType(r: seq<HistoryEntry>)
    ensures var st := Summarize(r);
      && (forall j, k :: 0 <= j < k < |st.byType| ==> st.byType[j].kind != st.byType[k].kind)
      && (forall i :: 0 <= i < |r| ==> exists j :: 0 <= j < |st.byType| && st.byType[j].kind == r[i].spotType)
      && (forall j :: 0 <= j < |st.byType| ==> st.byType[j].count > 0)
      && (forall j :: 0 <= j < |st.byType| ==>
            (forall i :: 0 <= i < |r| && r[i].spotType == st.byType[j].kind ==> r[i].exitTime.None?) ==>
            st.byType[j].durationMinutes == 0.0)
  {
    var ks := Kinds(r);
    KindsFacts(r);
    SummariesAt(r, ks);
    var st := Summarize(r);
    forall i | 0 <= i < |r| ensures exists j :: 0 <= j < |st.byType| && st.byType[j].kind == r[i].spotType {
      assert r[i].spotType in ks;
      var j :| 0 <= j < |ks| && ks[j] == r[i].spotType;
      assert st.byType[j].kind == r[i].spotType;
    }
    forall j | 0 <= j < |st.byType| ensures st.byType[j].count > 0 {
      PresentType(r, ks[j]);
    }
    forall j | 0 <= j < |st.byType|
      ensures (forall i :: 0 <= i < |r| && r[i].spotType == st.byType[j].kind ==> r[i].exitTime.None?) ==>
              st.byType[j].durationMinutes == 0.0
    {
      NoDurations(r, Some(ks[j]));
    }
  }

  lemma {:induction false} PresentType(r: seq<HistoryEntry>, t: SpotType)
    requires t in Kinds(r)
    ensures TypeCount(r, t) > 0
    decreases |r|
  {
    var p := r[..|r| - 1];
    if r[|r| - 1].spotType != t {
      PresentType(p, t);
    }
  }

  /** One record appended: how the type list, the counts and the durations grow. */
  lemma StepFacts(p: seq<HistoryEntry>, e: HistoryEntry)
    ensures var q := p + [e];
      && Kinds(q) == Kinds(p) + (if e.spotType in Kinds(p) then [] else [e.spotType])
      && (forall t {:trigger TypeCount(q, t)} :: TypeCount(q, t) == TypeCount(p, t) + (if e.spotType == t then 1 else 0))
      && (forall k {:trigger Durations(q, k)} :: Durations(q, k) == Durations(p, k) + (if e.exitTime.Some? && OfKind(e, k) then [Minutes(e)] else []))
  {
    var q := p + [e];
    assert q[..|q| - 1] == p;
  }

  class OccupancyTracker {
    const layout: ParkingLayout
    /** `self.history` */
    var history: seq<HistoryEntry>

    constructor (layout: ParkingLayout)
      ensures this.layout == layout && history == []
    {
      this.layout := layout;
      history := [];
    }

    /**
     * `record_entry`: appends one open record carrying the spot's type and
     * entry time. The source fails on an unknown spot.
     */
    method RecordEntry(id: SpotId, v: VehicleInfo)
      requires id in layout.spots
      modifies this
      ensures history == old(history) + [EntryFor(id, layout.spots[id], v)]
    {
      var spot := SpotInfo(layout.spots, id);
      history := history + [EntryFor(id, spot.value, v)];
    }

    /**
     * `record_exit`: scans the history from the newest record and stamps the
     * exit time `now` on the first open record of this spot and of the plate
     * the spot holds; nothing happens for an unknown or empty spot.
     */
    method RecordExit(id: SpotId, now: int)
      modifies this
      ensures history == AfterExit(old(history), SpotInfo(layout.spots, id), id, now)
    {
      var spot := SpotInfo(layout.spots, id);
      if spot.Some? && spot.value.vehicle.Some? {
        var plate := spot.value.vehicle.value.plate;
        var i := |history|;
        while i > 0
          invariant 0 <= i <= |history|
          invariant history == old(history)
          invariant forall j :: i <= j < |history| ==> !OpenFor(history[j], id, plate)
          decreases i
        {
          i := i - 1;
          var entry := history[i];
          if entry.spotId == id && entry.vehicle.plate == plate && entry.exitTime.None? {
            history := history[i := entry.(exitTime := Some(now))];
            return;
          }
        }
      }
    }

    /** `get_statistics(period)` at time `now`. */
    method GetStatistics(period: Period, now: int) returns (st: Statistics)
      requires Timed(history)
      ensures st == Summarize(Relevant(history, Cutoff(period, now)))
    {
      var relevant := Relevant(history, Cutoff(period, now));
      var kinds, byType, durations := Accumulate(relevant);
      var avg := if durations == [] then None else Some(Sum(durations) / (|durations| as real));
      var typeStats := TypeStats(relevant, kinds, byType);
      st := Statistics(|relevant|, avg, typeStats);
    }
  }

  /** One `by_type` value: a type's session count and closed-session lengths. */
  datatype TypeAcc = TypeAcc(count: nat, durations: seq<real>)

  function AccOf(r: seq<HistoryEntry>, t: SpotType): TypeAcc {
    TypeAcc(TypeCount(r, t), Durations(r, Some(t)))
  }

  /** The `by_type` value of type t after one more record e: one more session, and e's length if it is closed. */
  function Tallied(acc: TypeAcc, e: HistoryEntry): TypeAcc {
    TypeAcc(acc.count + 1, acc.durations + (if e.exitTime.Some? then [Minutes(e)] else []))
  }

  /** The loop's invariant on `by_type`: exactly the listed types, each with its tallies over p. */
  ghost predicate TalliesOf(p: seq<HistoryEntry>, kinds: seq<SpotType>, byType: map<SpotType, TypeAcc>) {
    (forall t :: t in byType <==> t in kinds) && (forall t :: t in byType ==> byType[t] == AccOf(p, t))
  }

  /** One record more: tallying its type keeps `by_type` equal to the per-type tallies. */
  lemma TallyStep(p: seq<HistoryEntry>, e: HistoryEntry, byType: map<SpotType, TypeAcc>)
    requires TalliesOf(p, Kinds(p), byType)
    ensures var t := e.spotType;
      var acc := if t in byType then byType[t] else TypeAcc(0, []);
      TalliesOf(p + [e], Kinds(p + [e]), byType[t := Tallied(acc, e)])
  {
    var t := e.spotType;
    StepFacts(p, e);
    if t !in byType {
      AbsentType(p, t);
    }
  }

  /**
   * The loop of `get_statistics` over the in-window records: the types in
   * first-appearance order with each type's count and closed-session
   * lengths, and all closed-session lengths.
   */
  method Accumulate(relevant: seq<HistoryEntry>)
    returns (kinds: seq<SpotType>, byType: map<SpotType, TypeAcc>, durations: seq<real>)
    ensures kinds == Kinds(relevant)
    ensures forall t :: t in byType <==> t in kinds
    ensures forall t :: t in byType ==> byType[t] == AccOf(relevant, t)
    ensures durations == Durations(relevant, None)
  {
    kinds, byType, durations := [], map[], [];
    for i := 0 to |relevant|
      invariant kinds == Kinds(relevant[..i])
      invariant TalliesOf(relevant[..i], kinds, byType)
      invariant durations == Durations(relevant[..i], None)
    {
      var entry := relevant[i];
      var t := entry.spotType;
      assert relevant[..i + 1] == relevant[..i] + [entry];
      StepFacts(relevant[..i], entry);
      TallyStep(relevant[..i], entry, byType);
      var acc := TypeAcc(0, []);
      if t in byType {
        acc := byType[t];
      } else {
        kinds := kinds + [t];
      }
      if entry.exitTime.Some? {
        durations := durations + [Minutes(entry)];
      }
      byType := byType[t := Tallied(acc, entry)];
    }
    assert relevant[..|relevant|] == relevant;
  }

  /** The loop of `get_statistics` that turns each type's tallies into its summary. */
  method TypeStats(relevant: seq<HistoryEntry>, kinds: seq<SpotType>, byType: map<SpotType, TypeAcc>)
    returns (stats: seq<TypeSummary>)
    requires forall t :: t in kinds ==> t in byType
    requires forall t :: t in byType ==> byType[t] == AccOf(relevant, t)
    ensures stats == Summaries(relevant, kinds)
  {
    stats := [];
    for j := 0 to |kinds|
      invariant stats == Summaries(relevant, kinds[..j])
    {
      var t := kinds[j];
      assert kinds[..j + 1][..j] == kinds[..j];
      var data := byType[t];
      assert data == AccOf(relevant, t);
      var ds := data.durations;
      stats := stats + [TypeSummary(t, data.count, if ds == [] then 0.0 else Sum(ds) / (|ds| as real))];
    }
    assert kinds[..|kinds|] == kinds;
  }
}
