/**
 * The parts of app.py that work on the lot: the duplicate-plate check, the
 * map colour of a spot, the revenue figures of the analytics page, and the
 * order of calls in the entry and exit flows. Rendering, uploads, plate
 * recognition and the CSV records are not modelled.
 */
module App {
  import opened Optional
  import opened Spots
  import opened Layout
  import opened Assigner
  import opened Tracker
  import opened Fees

  // ---------------------------------------------------------------- plates

  /** `str.upper()` on ASCII letters; every other character is kept. */
  function UpperChar(c: char): char {
    if 'a' <= c <= 'z' then (c as int - 32) as char else c
  }

  function Upper(s: string): string {
    seq(|s|, i requires 0 <= i < |s| => UpperChar(s[i]))
  }

  lemma UpperIdempotent(s: string)
    ensures Upper(Upper(s)) == Upper(s)
    ensures |Upper(s)| == |s|
  {
    assert forall i :: 0 <= i < |s| ==> UpperChar(UpperChar(s[i])) == UpperChar(s[i]);
  }

  /** Spot `id` is occupied by a vehicle whose upper-cased plate is p. */
  predicate HoldsPlate(spots: map<SpotId, Spot>, id: SpotId, p: string) {
    id in spots && spots[id].occupied && spots[id].vehicle.Some? && Upper(spots[id].vehicle.value.plate) == p
  }

  /** `get_all_parked_vehicles`: the upper-cased non-empty plates of the occupied spots, in key order. */
  function ParkedPlates(order: seq<SpotId>, spots: map<SpotId, Spot>): (r: seq<string>)
    ensures |r| <= |order|
    ensures forall i :: 0 <= i < |r| ==> r[i] != "" && r[i] == Upper(r[i])
    decreases |order|
  {
    if order == [] then []
    else
      var rest := ParkedPlates(order[..|order| - 1], spots);
      var id := order[|order| - 1];
      if id in spots && spots[id].occupied && spots[id].vehicle.Some? && Upper(spots[id].vehicle.value.plate) != ""
      then rest + [Upper(spots[id].vehicle.value.plate)]
      else rest
  }

  /** The listed plates are exactly the non-empty upper-cased plates held by listed spots. */
  lemma {:induction false} ParkedPlatesMembers(order: seq<SpotId>, spots: map<SpotId, Spot>)
    ensures forall p :: p in ParkedPlates(order, spots) <==> p != "" && exists id :: id in order && HoldsPlate(spots, id, p)
    decreases |order|
  {
    if order != [] {
      var prefix := order[..|order| - 1];
      var last := order[|order| - 1];
      ParkedPlatesMembers(prefix, spots);
      assert order == prefix + [last];
      var rest := ParkedPlates(prefix, spots);
      forall p ensures p in ParkedPlates(order, spots) <==> p != "" && exists id :: id in order && HoldsPlate(spots, id, p) {
        if p in ParkedPlates(order, spots) {
          if p in rest {
            var id :| id in prefix && HoldsPlate(spots, id, p);
            assert id in order;
          } else {
            assert HoldsPlate(spots, last, p) && last in order;
          }
        }
        if p != "" && exists id :: id in order && HoldsPlate(spots, id, p) {
          var id :| id in order && HoldsPlate(spots, id, p);
          if id != last {
            assert id in prefix;
          }
        }
      }
    }
  }

  /** `is_plate_already_parked(p)`: `p.upper()` is among the parked plates. */
  predicate PlateParked(order: seq<SpotId>, spots: map<SpotId, Spot>, plate: string) {
    Upper(plate) in ParkedPlates(order, spots)
  }

  /**
   * The duplicate check ignores case: a plate is parked exactly when some
   * occupied spot holds a vehicle with the same plate up to case, and an
   * empty plate never is.
   */
  lemma PlateParkedMeans(order: seq<SpotId>, spots: map<SpotId, Spot>, plate: string)
    ensures PlateParked(order, spots, plate) <==>
      plate != "" && exists id :: id in order && HoldsPlate(spots, id, Upper(plate))
    ensures PlateParked(order, spots, plate) == PlateParked(order, spots, Upper(plate))
  {
    ParkedPlatesMembers(order, spots);
    UpperIdempotent(plate);
  }

  method GetAllParkedVehicles(layout: ParkingLayout) returns (plates: seq<string>)
    requires layout.Valid()
    ensures plates == ParkedPlates(layout.order, layout.spots)
  {
    plates := [];
    for i := 0 to |layout.order|
      invariant plates == ParkedPlates(layout.order[..i], layout.spots)
    {
      assert layout.order[..i + 1][..i] == layout.order[..i];
      var id := layout.order[i];
      assert id in layout.order;
      assert id in layout.spots;
      var spot := layout.spots[id];
      if spot.occupied && spot.vehicle.Some? {
        var plate := Upper(spot.vehicle.value.plate);
        if plate != "" {
          plates := plates + [plate];
        }
      }
    }
    assert layout.order[..|layout.order|] == layout.order;
  }

  method IsPlateAlreadyParked(layout: ParkingLayout, plateText: string) returns (parked: bool)
    requires layout.Valid()
    ensures parked <==> PlateParked(layout.order, layout.spots, plateText)
  {
    var plates := GetAllParkedVehicles(layout);
    parked := Upper(plateText) in plates;
  }

  // --------------------------------------------------------------- colours

  const OccupiedColour := "#FF6B6B"
  const HandicapColour := "#87CEEB"
  const PremiumColour := "#FFD700"
  const FreeColour := "#90EE90"

  /** `get_spot_color` */
  function SpotColor(s: Spot): (r: string)
    ensures r in {OccupiedColour, HandicapColour, PremiumColour, FreeColour}
    ensures s.occupied ==> r == OccupiedColour
    ensures !s.occupied && s.kind.Other? ==> r == FreeColour
  {
    if s.occupied then OccupiedColour
    else if s.kind == Handicap then HandicapColour
    else if s.kind == Premium then PremiumColour
    else FreeColour
  }

  /**
   * The colour shows occupancy first: red exactly for an occupied spot of
   * any type; a free spot is coloured by its type, standard and any other
   * type falling back to green.
   */
  lemma SpotColorMeans(s: Spot)
    ensures SpotColor(s) == OccupiedColour <==> s.occupied
    ensures !s.occupied ==> (SpotColor(s) == HandicapColour <==> s.kind == Handicap)
    ensures !s.occupied ==> (SpotColor(s) == PremiumColour <==> s.kind == Premium)
    ensures !s.occupied ==> (SpotColor(s) == FreeColour <==> s.kind != Handicap && s.kind != Premium)
  {
    assert OccupiedColour[3] == '6' && HandicapColour[3] == 'C' && PremiumColour[3] == 'D' && FreeColour[3] == 'E';
  }

  // --------------------------------------------------------------- revenue

  /** The revenue loops parse the entry time of every closed record. */
  predicate ClosedTimed(h: seq<HistoryEntry>) {
    forall i :: 0 <= i < |h| && h[i].exitTime.Some? ==> h[i].entryTime.Some?
  }

  function Seconds(e: HistoryEntry): int {
    if e.entryTime.Some? && e.exitTime.Some? then e.exitTime.value - e.entryTime.value else 0
  }

  predicate ClosedOfKind(e: HistoryEntry, kind: Option<SpotType>) {
    e.exitTime.Some? && OfKind(e, kind)
  }

  /** The fees of the closed sessions (of one type, or of all). */
  function RevenueOf(h: seq<HistoryEntry>, kind: Option<SpotType>): (r: int)
    ensures r >= 0
    decreases |h|
  {
    if h == [] then 0
    else
      var e := h[|h| - 1];
      RevenueOf(h[..|h| - 1], kind) + (if ClosedOfKind(e, kind) then SessionFeeCents(Seconds(e)) else 0)
  }

  /** The number of closed sessions (of one type, or of all). */
  function ClosedOf(h: seq<HistoryEntry>, kind: Option<SpotType>): nat
    decreases |h|
  {
    if h == [] then 0
    else ClosedOf(h[..|h| - 1], kind) + (if ClosedOfKind(h[|h| - 1], kind) then 1 else 0)
  }

  /** The parked seconds of the closed sessions (of one type, or of all). */
  function SecondsOf(h: seq<HistoryEntry>, kind: Option<SpotType>): int
    decreases |h|
  {
    if h == [] then 0
    else
      var e := h[|h| - 1];
      SecondsOf(h[..|h| - 1], kind) + (if ClosedOfKind(e, kind) then Seconds(e) else 0)
  }

  /** Some closed session is of a type other than the three listed ones. */
  predicate HasUnlisted(h: seq<HistoryEntry>) {
    exists i :: 0 <= i < |h| && h[i].exitTime.Some? && !IsListedType(h[i].spotType)
  }

  lemma RevenueStep(p: seq<HistoryEntry>, e: HistoryEntry)
    ensures var q := p + [e];
      && (forall k {:trigger RevenueOf(q, k)} :: RevenueOf(q, k) == RevenueOf(p, k) + (if ClosedOfKind(e, k) then SessionFeeCents(Seconds(e)) else 0))
      && (forall k {:trigger ClosedOf(q, k)} :: ClosedOf(q, k) == ClosedOf(p, k) + (if ClosedOfKind(e, k) then 1 else 0))
      && (forall k {:trigger SecondsOf(q, k)} :: SecondsOf(q, k) == SecondsOf(p, k) + (if ClosedOfKind(e, k) then Seconds(e) else 0))
  {
    var q := p + [e];
    assert q[..|q| - 1] == p;
  }

  /** Every closed session adds at least Ksh. 100 to the revenue. */
  lemma {:induction false} RevenueFloor(h: seq<HistoryEntry>)
    ensures RevenueOf(h, None) >= MinimumChargeCents * ClosedOf(h, None)
    decreases |h|
  {
    if h != [] {
      var e := h[|h| - 1];
      RevenueFloor(h[..|h| - 1]);
      RevenueStep(h[..|h| - 1], e);
      assert h == h[..|h| - 1] + [e];
      SessionFeeFloor(Seconds(e));
    }
  }

  /** The revenue of concatenated histories is the sum of their revenues. */
  lemma {:induction false} RevenueAppend(h: seq<HistoryEntry>, more: seq<HistoryEntry>)
    ensures RevenueOf(h + more, None) == RevenueOf(h, None) + RevenueOf(more, None)
    decreases |more|
  {
    if more == [] {
      assert h + more == h;
    } else {
      var e := more[|more| - 1];
      var m := more[..|more| - 1];
      RevenueAppend(h, m);
      assert h + more == (h + m) + [e];
      assert more == m + [e];
      RevenueStep(h + m, e);
      RevenueStep(m, e);
    }
  }

  /** A history with no closed session of the given type (or of any type) earns nothing for it. */
  lemma {:induction false} NoClosedAddsNothing(h: seq<HistoryEntry>, kind: Option<SpotType>)
    requires forall i :: 0 <= i < |h| ==> !ClosedOfKind(h[i], kind)
    ensures RevenueOf(h, kind) == 0
    decreases |h|
  {
    if h != [] {
      var p := h[..|h| - 1];
      assert forall i :: 0 <= i < |p| ==> p[i] == h[i];
      NoClosedAddsNothing(p, kind);
    }
  }

  /** Open sessions add nothing to the revenue. */
  lemma {:induction false} OpenAddsNothing(more: seq<HistoryEntry>)
    requires forall i :: 0 <= i < |more| ==> more[i].exitTime.None?
    ensures RevenueOf(more, None) == 0
    decreases |more|
  {
    if more != [] {
      var m := more[..|more| - 1];
      assert forall i :: 0 <= i < |m| ==> m[i] == more[i];
      OpenAddsNothing(m);
      RevenueStep(m, more[|more| - 1]);
      assert more == m + [more[|more| - 1]];
    }
  }

  /**
   * Only collects `RevenueFloor`, `RevenueAppend` and `OpenAddsNothing`
   * for callers that want all three facts about the total revenue at once.
   */
  lemma RevenueFacts(h: seq<HistoryEntry>, more: seq<HistoryEntry>)
    ensures RevenueOf(h, None) >= MinimumChargeCents * ClosedOf(h, None)
    ensures RevenueOf(h + more, None) == RevenueOf(h, None) + RevenueOf(more, None)
    ensures (forall i :: 0 <= i < |more| ==> more[i].exitTime.None?) ==> RevenueOf(h + more, None) == RevenueOf(h, None)
  {
    RevenueFloor(h);
    RevenueAppend(h, more);
    if forall i :: 0 <= i < |more| ==> more[i].exitTime.None? {
      OpenAddsNothing(more);
    }
  }

  /**
   * When every closed session is of a listed type, the per-type revenues,
   * counts and seconds add up to the totals.
   */
  lemma {:induction false} PerTypeAddsUp(h: seq<HistoryEntry>)
    requires !HasUnlisted(h)
    ensures RevenueOf(h, Some(Standard)) + RevenueOf(h, Some(Handicap)) + RevenueOf(h, Some(Premium)) == RevenueOf(h, None)
    ensures ClosedOf(h, Some(Standard)) + ClosedOf(h, Some(Handicap)) + ClosedOf(h, Some(Premium)) == ClosedOf(h, None)
    ensures SecondsOf(h, Some(Standard)) + SecondsOf(h, Some(Handicap)) + SecondsOf(h, Some(Premium)) == SecondsOf(h, None)
    decreases |h|
  {
    if h != [] {
      var p := h[..|h| - 1];
      assert !HasUnlisted(p) by {
        forall i | 0 <= i < |p| ensures !(p[i].exitTime.Some? && !IsListedType(p[i].spotType)) {
          assert p[i] == h[i];
        }
      }
      PerTypeAddsUp(p);
      assert h[|h| - 1].exitTime.Some? ==> IsListedType(h[|h| - 1].spotType);
    }
  }

  /** The "Est. Revenue" loop of the analytics page. */
  method EstimatedRevenue(h: seq<HistoryEntry>) returns (total: int)
    requires ClosedTimed(h)
    ensures total == RevenueOf(h, None)
  {
    total := 0;
    for i := 0 to |h|
      invariant total == RevenueOf(h[..i], None)
    {
      var entry := h[i];
      assert h[..i + 1] == h[..i] + [entry];
      RevenueStep(h[..i], entry);
      if entry.exitTime.Some? {
        var fee := SessionFeeCents(entry.exitTime.value - entry.entryTime.value);
        total := total + fee;
      }
    }
    assert h[..|h|] == h;
  }

  /** A dictionary with the keys 'standard', 'handicap' and 'premium'. */
  datatype PerType = PerType(standard: int, handicap: int, premium: int)

  function PerTypeOf(f: SpotType -> int): PerType {
    PerType(f(Standard), f(Handicap), f(Premium))
  }

  function AddTo(p: PerType, t: SpotType, x: int): PerType
    requires IsListedType(t)
  {
    match t
    case Standard => p.(standard := p.standard + x)
    case Handicap => p.(handicap := p.handicap + x)
    case Premium => p.(premium := p.premium + x)
  }

  function Total(p: PerType): int {
    p.standard + p.handicap + p.premium
  }

  datatype Financials = Financials(
    revenueByType: PerType,
    exitedByType: PerType,
    secondsByType: PerType,
    totalRevenue: int,
    totalExited: int)

  /**
   * The "Financial Analytics" loop: per-type revenue, exits and parked time
   * of the closed sessions, and their sums. A closed session of an unlisted
   * type is a missing dictionary key, which ends the loop with an error:
   * None.
   */
  method FinancialAnalytics(h: seq<HistoryEntry>) returns (r: Option<Financials>)
    requires ClosedTimed(h)
    ensures r.None? <==> HasUnlisted(h)
    ensures r.Some? ==> r.value == Financials(
      PerTypeOf(t => RevenueOf(h, Some(t))),
      PerTypeOf(t => ClosedOf(h, Some(t))),
      PerTypeOf(t => SecondsOf(h, Some(t))),
      RevenueOf(h, None),
      ClosedOf(h, None))
  {
    var revenue := PerType(0, 0, 0);
    var exited := PerType(0, 0, 0);
    var seconds := PerType(0, 0, 0);
    for i := 0 to |h|
      invariant !HasUnlisted(h[..i])
      invariant revenue == PerTypeOf(t => RevenueOf(h[..i], Some(t)))
      invariant exited == PerTypeOf(t => ClosedOf(h[..i], Some(t)))
      invariant seconds == PerTypeOf(t => SecondsOf(h[..i], Some(t)))
    {
      var entry := h[i];
      assert h[..i + 1] == h[..i] + [entry];
      RevenueStep(h[..i], entry);
      if entry.exitTime.Some? {
        var spotType := entry.spotType;
        if !IsListedType(spotType) {
          assert h[i] == entry;
          return None;
        }
        var duration := entry.exitTime.value - entry.entryTime.value;
        var fee := SessionFeeCents(duration);
        revenue := AddTo(revenue, spotType, fee);
        exited := AddTo(exited, spotType, 1);
        seconds := AddTo(seconds, spotType, duration);
      }
      ghost var done := h[..i + 1];
      assert !HasUnlisted(done) by {
        forall j | 0 <= j < |done| ensures !(done[j].exitTime.Some? && !IsListedType(done[j].spotType)) {
          if j < i {
            assert done[j] == h[..i][j];
          }
        }
      }
    }
    assert h[..|h|] == h;
    PerTypeAddsUp(h);
    r := Some(Financials(revenue, exited, seconds, Total(revenue), Total(exited)));
  }

  // ------------------------------------------------------- entry and exit

  /** The lot as the flows change it: the spot records and the history. */
  datatype LotState = LotState(spots: map<SpotId, Spot>, history: seq<HistoryEntry>)

  datatype EntryOutcome = MissingPlate | AlreadyParked | NoSpot | Parked(id: SpotId)

  /**
   * After the duplicate check: assign a spot and, when the assigner returns
   * a truthy spot ID, record the entry. A returned spot 0 is occupied but,
   * being falsy, gets no history record.
   */
  function Admit(order: seq<SpotId>, st: LotState, v: VehicleInfo, now: int): (r: (EntryOutcome, LotState))
    ensures r.0 != MissingPlate
    ensures r.1.spots.Keys == st.spots.Keys
    ensures r.1.history == st.history || (r.0.Parked? && |r.1.history| == |st.history| + 1 && r.1.history[..|st.history|] == st.history)
    ensures r.0.Parked? ==> r.0.id in st.spots && r.1.spots[r.0.id].occupied
  {
    if PlateParked(order, st.spots, v.plate) then (AlreadyParked, st)
    else
      var choice := ChooseSpot(order, st.spots, v);
      ChooseSpotFree(order, st.spots, v);
      if choice.None? then (NoSpot, st)
      else
        var id := choice.value;
        var spots := OccupyIn(st.spots, id, v, now);
        if id != 0 then (Parked(id), LotState(spots, st.history + [EntryFor(id, spots[id], v)]))
        else (NoSpot, LotState(spots, st.history))
  }

  /** The vehicle record the entry pages build. */
  function EntryVehicle(plate: string, preferred: SpotType, permit: bool, notes: string, now: int): VehicleInfo {
    VehicleInfo(Upper(plate), now, Some(preferred), permit, notes)
  }

  /** app.py's manual entry: an empty plate is refused, the plate is upper-cased, the notes read "Manual entry". */
  function ManualEntrySpec(order: seq<SpotId>, st: LotState, plate: string, preferred: SpotType, permit: bool, now: int): (r: (EntryOutcome, LotState))
    ensures r.0 == MissingPlate <==> plate == ""
    ensures r.0 == MissingPlate ==> r.1 == st
    ensures r.1.spots.Keys == st.spots.Keys
  {
    if plate == "" then (MissingPlate, st)
    else Admit(order, st, EntryVehicle(plate, preferred, permit, "Manual entry", now), now)
  }

  /** app.py's entry of a recognised plate: upper-cased, with the operator's notes. */
  function DetectedEntrySpec(order: seq<SpotId>, st: LotState, detected: string, preferred: SpotType, permit: bool, notes: string, now: int): (r: (EntryOutcome, LotState))
    ensures r.0 != MissingPlate
    ensures r.1.spots.Keys == st.spots.Keys
  {
    Admit(order, st, EntryVehicle(detected, preferred, permit, notes, now), now)
  }

  /**
   * A plate already parked is turned away before any spot is assigned and
   * nothing changes; otherwise the chosen free spot is occupied and, when it
   * is a truthy ID, exactly one open record for that spot is appended with
   * its type and the entry time. Only a full lot (or a chosen spot 0) yields
   * no parking: a full lot changes nothing, and a chosen spot 0 is occupied
   * without a history record.
   */
  lemma AdmitFacts(order: seq<SpotId>, st: LotState, v: VehicleInfo, now: int)
    ensures var (outcome, after) := Admit(order, st, v, now);
      && (outcome == AlreadyParked <==> PlateParked(order, st.spots, v.plate))
      && (outcome == AlreadyParked ==> after == st)
      && (outcome.Parked? ==>
            && ChooseSpot(order, st.spots, v) == Some(outcome.id)
            && outcome.id in st.spots && !st.spots[outcome.id].occupied
            && after.spots == OccupyIn(st.spots, outcome.id, v, now)
            && after.history == st.history + [HistoryEntry(outcome.id, st.spots[outcome.id].kind, v, Some(now), None)])
      && (outcome == NoSpot ==>
            && after.history == st.history
            && ((forall id :: id in order && id in st.spots ==> st.spots[id].occupied) || ChooseSpot(order, st.spots, v) == Some(0))
            && (ChooseSpot(order, st.spots, v) == None ==> after == st)
            && (ChooseSpot(order, st.spots, v) != None ==>
                  && ChooseSpot(order, st.spots, v) == Some(0)
                  && 0 in st.spots && !st.spots[0].occupied
                  && after.spots == OccupyIn(st.spots, 0, v, now)))
      && outcome != MissingPlate
  {
    ChooseSpotFree(order, st.spots, v);
  }

  /** Once a vehicle with a non-empty plate is parked, the same plate is turned away. */
  lemma SecondEntryRefused(order: seq<SpotId>, st: LotState, v: VehicleInfo, now: int, w: VehicleInfo, later: int)
    requires Upper(v.plate) == Upper(w.plate) && v.plate != ""
    requires Admit(order, st, v, now).0.Parked?
    ensures Admit(order, Admit(order, st, v, now).1, w, later) == (AlreadyParked, Admit(order, st, v, now).1)
  {
    var (outcome, after) := Admit(order, st, v, now);
    var id := outcome.id;
    ChooseSpotFree(order, st.spots, v);
    UpperIdempotent(v.plate);
    assert HoldsPlate(after.spots, id, Upper(w.plate));
    PlateParkedMeans(order, after.spots, w.plate);
    UpperIdempotent(w.plate);
  }

  /** A manual entry with an empty plate does nothing; otherwise it is the admission of the upper-cased plate. */
  lemma ManualEntryFacts(order: seq<SpotId>, st: LotState, plate: string, preferred: SpotType, permit: bool, now: int)
    ensures var (outcome, after) := ManualEntrySpec(order, st, plate, preferred, permit, now);
      && (outcome == MissingPlate <==> plate == "")
      && (outcome == MissingPlate ==> after == st)
      && (outcome == AlreadyParked <==> plate != "" && PlateParked(order, st.spots, plate))
  {
    var v := EntryVehicle(plate, preferred, permit, "Manual entry", now);
    if plate != "" {
      AdmitFacts(order, st, v, now);
      PlateParkedMeans(order, st.spots, plate);
    }
  }

  /** Spot `e.spotId` is occupied by e's vehicle since e's entry time. */
  predicate OpenMatches(spots: map<SpotId, Spot>, e: HistoryEntry) {
    && e.spotId in spots
    && spots[e.spotId].occupied
    && spots[e.spotId].vehicle.Some?
    && spots[e.spotId].vehicle.value.plate == e.vehicle.plate
    && spots[e.spotId].entryTime == e.entryTime
  }

  /**
   * The lot and the history agree: every open session sits on an occupied
   * spot holding its vehicle, no spot has two open sessions, every occupied
   * spot has one, and every record has its entry time.
   */
  ghost predicate SessionsConsistent(spots: map<SpotId, Spot>, h: seq<HistoryEntry>) {
    && (forall id :: id in spots ==> Consistent(spots[id]))
    && Timed(h)
    && (forall i :: 0 <= i < |h| && h[i].exitTime.None? ==> OpenMatches(spots, h[i]))
    && (forall i, j :: 0 <= i < j < |h| && h[i].exitTime.None? && h[j].exitTime.None? ==> h[i].spotId != h[j].spotId)
    && (forall id :: id in spots && spots[id].occupied ==>
          exists i :: 0 <= i < |h| && h[i].exitTime.None? && h[i].spotId == id)
  }

  /** Occupying a free spot and recording its entry keeps the lot and the history in agreement. */
  lemma EntryKeepsSessions(spots: map<SpotId, Spot>, h: seq<HistoryEntry>, id: SpotId, v: VehicleInfo, now: int)
    requires SessionsConsistent(spots, h)
    requires id in spots && !spots[id].occupied
    ensures SessionsConsistent(OccupyIn(spots, id, v, now), h + [EntryFor(id, OccupyIn(spots, id, v, now)[id], v)])
  {
    var spots' := OccupyIn(spots, id, v, now);
    var e := EntryFor(id, spots'[id], v);
    var h' := h + [e];
    forall i | 0 <= i < |h| && h[i].exitTime.None? ensures h[i].spotId != id && OpenMatches(spots', h[i]) {
      assert OpenMatches(spots, h[i]);
    }
    forall i | 0 <= i < |h'| && h'[i].exitTime.None? ensures OpenMatches(spots', h'[i]) {
      if i < |h| {
        assert h'[i] == h[i];
      }
    }
    forall i, j | 0 <= i < j < |h'| && h'[i].exitTime.None? && h'[j].exitTime.None? ensures h'[i].spotId != h'[j].spotId {
      assert h'[i] == h[i];
      if j < |h| {
        assert h'[j] == h[j];
      }
    }
    forall x | x in spots' && spots'[x].occupied
      ensures exists i :: 0 <= i < |h'| && h'[i].exitTime.None? && h'[i].spotId == x
    {
      if x == id {
        assert h'[|h|] == e;
      } else {
        var i :| 0 <= i < |h| && h[i].exitTime.None? && h[i].spotId == x;
        assert h'[i] == h[i];
      }
    }
    assert Timed(h') by {
      forall i | 0 <= i < |h'| ensures h'[i].entryTime.Some? {
        if i < |h| {
          assert h'[i] == h[i];
        }
      }
    }
  }

  /** Admitting a vehicle keeps the lot and the history in agreement when no spot has ID 0. */
  lemma AdmitKeepsSessions(order: seq<SpotId>, st: LotState, v: VehicleInfo, now: int)
    requires SessionsConsistent(st.spots, st.history) && 0 !in st.spots
    ensures SessionsConsistent(Admit(order, st, v, now).1.spots, Admit(order, st, v, now).1.history)
  {
    ChooseSpotFree(order, st.spots, v);
    var choice := ChooseSpot(order, st.spots, v);
    if !PlateParked(order, st.spots, v.plate) && choice.Some? {
      EntryKeepsSessions(st.spots, st.history, choice.value, v, now);
    }
  }

  /** `release_spot` followed by `record_exit`, as the exit page calls them. */
  function ReleaseThenRecord(st: LotState, id: SpotId, now: int): (r: LotState)
    ensures r.spots.Keys == st.spots.Keys && |r.history| == |st.history|
    ensures id in st.spots ==> !r.spots[id].occupied
  {
    var spots := if id in st.spots && st.spots[id].occupied then ReleaseIn(st.spots, id) else st.spots;
    LotState(spots, AfterExit(st.history, SpotInfo(spots, id), id, now))
  }

  /** `record_exit` followed by `release_spot`. */
  function RecordThenRelease(st: LotState, id: SpotId, now: int): (r: LotState)
    ensures r.spots.Keys == st.spots.Keys && |r.history| == |st.history|
    ensures id in st.spots ==> !r.spots[id].occupied
  {
    var history := AfterExit(st.history, SpotInfo(st.spots, id), id, now);
    LotState(if id in st.spots && st.spots[id].occupied then ReleaseIn(st.spots, id) else st.spots, history)
  }

  /**
   * As the exit page orders the calls, `record_exit` finds the spot already
   * empty: the history never changes, and after a vehicle leaves its session
   * stays open on a spot that is now free, so the lot and the history no
   * longer agree.
   */
  lemma ReleaseFirstNeverCloses(st: LotState, id: SpotId, now: int)
    requires forall x :: x in st.spots ==> Consistent(st.spots[x])
    ensures ReleaseThenRecord(st, id, now).history == st.history
    ensures SessionsConsistent(st.spots, st.history) && id in st.spots && st.spots[id].occupied ==>
      && (exists i :: 0 <= i < |st.history| && st.history[i].exitTime.None? && st.history[i].spotId == id)
      && !SessionsConsistent(ReleaseThenRecord(st, id, now).spots, ReleaseThenRecord(st, id, now).history)
  {
    if SessionsConsistent(st.spots, st.history) && id in st.spots && st.spots[id].occupied {
      var after := ReleaseThenRecord(st, id, now);
      var i :| 0 <= i < |st.history| && st.history[i].exitTime.None? && st.history[i].spotId == id;
      assert !OpenMatches(after.spots, after.history[i]);
    }
  }

  /** The open session of an occupied spot is the newest open record of its plate there. */
  lemma OpenSessionOf(spots: map<SpotId, Spot>, h: seq<HistoryEntry>, id: SpotId) returns (k: nat)
    requires SessionsConsistent(spots, h) && id in spots && spots[id].occupied
    ensures LastOpen(h, id, spots[id].vehicle.value.plate) == Some(k)
    ensures forall j :: 0 <= j < |h| && j != k && h[j].exitTime.None? ==> h[j].spotId != id
  {
    var plate := spots[id].vehicle.value.plate;
    var i :| 0 <= i < |h| && h[i].exitTime.None? && h[i].spotId == id;
    assert OpenMatches(spots, h[i]);
    assert OpenFor(h[i], id, plate);
    k := LastOpen(h, id, plate).value;
    assert h[k].exitTime.None? && h[k].spotId == id;
    forall j | 0 <= j < |h| && j != k && h[j].exitTime.None? ensures h[j].spotId != id {
      if j < k {
        assert h[j].spotId != h[k].spotId;
      } else {
        assert h[k].spotId != h[j].spotId;
      }
    }
  }

  /** Closing the one open session of a spot and freeing the spot keeps the lot and the history in agreement. */
  lemma CloseKeepsSessions(spots: map<SpotId, Spot>, h: seq<HistoryEntry>, id: SpotId, k: nat, now: int)
    requires SessionsConsistent(spots, h) && id in spots && spots[id].occupied
    requires k < |h| && h[k].spotId == id && h[k].exitTime.None?
    requires forall j :: 0 <= j < |h| && j != k && h[j].exitTime.None? ==> h[j].spotId != id
    ensures SessionsConsistent(ReleaseIn(spots, id), h[k := Close(h[k], now)])
  {
    var spots' := ReleaseIn(spots, id);
    var h' := h[k := Close(h[k], now)];
    forall i | 0 <= i < |h'| && h'[i].exitTime.None? ensures OpenMatches(spots', h'[i]) {
      assert i != k && h'[i] == h[i];
      assert OpenMatches(spots, h[i]);
    }
    forall i, j | 0 <= i < j < |h'| && h'[i].exitTime.None? && h'[j].exitTime.None? ensures h'[i].spotId != h'[j].spotId {
      assert h'[i] == h[i] && h'[j] == h[j];
    }
    forall x | x in spots' && spots'[x].occupied
      ensures exists i :: 0 <= i < |h'| && h'[i].exitTime.None? && h'[i].spotId == x
    {
      var i :| 0 <= i < |h| && h[i].exitTime.None? && h[i].spotId == x;
      assert i != k && h'[i] == h[i];
    }
    assert Timed(h') by {
      forall i | 0 <= i < |h'| ensures h'[i].entryTime.Some? {
        assert h'[i].entryTime == h[i].entryTime;
      }
    }
  }

  /**
   * Recording the exit before releasing the spot closes the vehicle's
   * session, exactly one, and keeps the lot and the history in agreement.
   */
  lemma RecordFirstKeepsSessions(st: LotState, id: SpotId, now: int)
    requires SessionsConsistent(st.spots, st.history)
    ensures SessionsConsistent(RecordThenRelease(st, id, now).spots, RecordThenRelease(st, id, now).history)
    ensures id in st.spots && st.spots[id].occupied ==>
      var plate := st.spots[id].vehicle.value.plate;
      OpenCount(RecordThenRelease(st, id, now).history, id, plate) == OpenCount(st.history, id, plate) - 1
    ensures !(id in st.spots && st.spots[id].occupied) ==> RecordThenRelease(st, id, now) == st
  {
    var spots, h := st.spots, st.history;
    if id in spots && spots[id].occupied {
      var plate := spots[id].vehicle.value.plate;
      var k := OpenSessionOf(spots, h, id);
      ClosingClosesOne(h, id, plate, now);
      OpenCountZero(h, id, plate);
      assert RecordThenRelease(st, id, now) == LotState(ReleaseIn(spots, id), h[k := Close(h[k], now)]);
      CloseKeepsSessions(spots, h, id, k, now);
    }
  }

  // ------------------------------------------------ the flows over objects

  /** The admission step shared by both entry pages, after the plate is final. */
  method AdmitVehicle(assigner: SpotAssigner, tracker: OccupancyTracker, v: VehicleInfo, now: int) returns (outcome: EntryOutcome)
    requires assigner.layout == tracker.layout && tracker.layout.Valid()
    modifies tracker.layout, tracker
    ensures tracker.layout.Valid() && tracker.layout.order == old(tracker.layout.order)
    ensures (outcome, LotState(tracker.layout.spots, tracker.history)) ==
      Admit(old(tracker.layout.order), LotState(old(tracker.layout.spots), old(tracker.history)), v, now)
  {
    var layout := tracker.layout;
    var parked := IsPlateAlreadyParked(layout, v.plate);
    if parked {
      return AlreadyParked;
    }
    ChooseSpotFree(layout.order, layout.spots, v);
    var spotId := assigner.AutoAssignSpot(v, now);
    if spotId.Some? && spotId.value != 0 {
      tracker.RecordEntry(spotId.value, v);
      return Parked(spotId.value);
    }
    return NoSpot;
  }

  /** The "Manual Entry" button. */
  method ManualEntry(assigner: SpotAssigner, tracker: OccupancyTracker, plate: string, preferred: SpotType, permit: bool, now: int)
    returns (outcome: EntryOutcome)
    requires assigner.layout == tracker.layout && tracker.layout.Valid()
    modifies tracker.layout, tracker
    ensures tracker.layout.Valid() && tracker.layout.order == old(tracker.layout.order)
    ensures (outcome, LotState(tracker.layout.spots, tracker.history)) ==
      ManualEntrySpec(old(tracker.layout.order), LotState(old(tracker.layout.spots), old(tracker.history)), plate, preferred, permit, now)
  {
    if plate == "" {
      return MissingPlate;
    }
    var finalPlate := Upper(plate);
    var v := VehicleInfo(finalPlate, now, Some(preferred), permit, "Manual entry");
    outcome := AdmitVehicle(assigner, tracker, v, now);
  }

  /** The "Confirm Entry" button after a plate was recognised. */
  method DetectedEntry(assigner: SpotAssigner, tracker: OccupancyTracker, detected: string, preferred: SpotType, permit: bool, notes: string, now: int)
    returns (outcome: EntryOutcome)
    requires assigner.layout == tracker.layout && tracker.layout.Valid()
    modifies tracker.layout, tracker
    ensures tracker.layout.Valid() && tracker.layout.order == old(tracker.layout.order)
    ensures (outcome, LotState(tracker.layout.spots, tracker.history)) ==
      DetectedEntrySpec(old(tracker.layout.order), LotState(old(tracker.layout.spots), old(tracker.history)), detected, preferred, permit, notes, now)
  {
    var finalPlate := Upper(detected);
    var v := VehicleInfo(finalPlate, now, Some(preferred), permit, notes);
    outcome := AdmitVehicle(assigner, tracker, v, now);
  }

  /** The "Confirm Exit" button as written: release the spot, then record the exit. */
  method ConfirmExit(tracker: OccupancyTracker, spotId: SpotId, now: int)
    requires tracker.layout.Valid()
    modifies tracker.layout, tracker
    ensures tracker.layout.Valid() && tracker.layout.order == old(tracker.layout.order)
    ensures LotState(tracker.layout.spots, tracker.history) ==
      ReleaseThenRecord(LotState(old(tracker.layout.spots), old(tracker.history)), spotId, now)
  {
    var _ := tracker.layout.ReleaseSpot(spotId);
    tracker.RecordExit(spotId, now);
  }

  /** The exit with the calls in the order that closes the session: record the exit, then release the spot. */
  method ConfirmExitRecordFirst(tracker: OccupancyTracker, spotId: SpotId, now: int)
    requires tracker.layout.Valid()
    modifies tracker.layout, tracker
    ensures tracker.layout.Valid() && tracker.layout.order == old(tracker.layout.order)
    ensures LotState(tracker.layout.spots, tracker.history) ==
      RecordThenRelease(LotState(old(tracker.layout.spots), old(tracker.history)), spotId, now)
  {
    tracker.RecordExit(spotId, now);
    var _ := tracker.layout.ReleaseSpot(spotId);
  }
}
