/** The source's "no value" marker (Python's `None`). */
module Optional {
  datatype Option<T> = None | Some(value: T)
}

/**
 * Spot records of the parking lot and the pure queries over the roster
 * (`ParkingLayout.get_spot_info`, `get_available_spots`,
 * `get_occupancy_status` in parking_system.py).
 *
 * The roster is the pair (order, spots): `spots` is the dictionary keyed by
 * spot ID and `order` is its key order (Python dictionaries iterate in
 * insertion order).
 */
module Spots {
  import opened Optional

  type SpotId = int

  /** A spot type is a string in the source; only three are ever laid out. */
  datatype SpotType = Standard | Handicap | Premium | Other(name: string)

  predicate IsListedType(t: SpotType) {
    !t.Other?
  }

  datatype Side = North | South

  /**
   * The vehicle record the caller builds at entry. `preferred` is None when
   * the record has no 'preferred_type' key; `stamp` is the record's own
   * 'entry_time'.
   */
  datatype VehicleInfo = VehicleInfo(
    plate: string,
    stamp: int,
    preferred: Option<SpotType>,
    handicapPermit: bool,
    notes: string)

  /** `vehicle_info.get('preferred_type', 'standard')` */
  function PreferredType(v: VehicleInfo): SpotType {
    match v.preferred
    case Some(t) => t
    case None => Standard
  }

  datatype Spot = Spot(
    row: int,
    position: int,
    side: Side,
    kind: SpotType,
    occupied: bool,
    vehicle: Option<VehicleInfo>,
    entryTime: Option<int>)

  /** occupied <==> vehicle_info present <==> entry_time present */
  predicate Consistent(s: Spot) {
    s.occupied == s.vehicle.Some? && s.occupied == s.entryTime.Some?
  }

  /** The fields a spot keeps for good: row, position, side and type. */
  predicate SameFixture(s: Spot, t: Spot) {
    s.row == t.row && s.position == t.position && s.side == t.side && s.kind == t.kind
  }

  /** The fields `occupy_spot` writes. */
  function Occupied(s: Spot, v: VehicleInfo, now: int): Spot {
    s.(occupied := true, vehicle := Some(v), entryTime := Some(now))
  }

  /** The fields `release_spot` writes. */
  function Released(s: Spot): Spot {
    s.(occupied := false, vehicle := None, entryTime := None)
  }

  /**
   * `occupy_spot` on the dictionary: spot `id` becomes occupied by `v` since
   * `now` and keeps its fixture; no other key and no other spot changes.
   */
  function OccupyIn(spots: map<SpotId, Spot>, id: SpotId, v: VehicleInfo, now: int): (r: map<SpotId, Spot>)
    requires id in spots
    ensures r.Keys == spots.Keys
    ensures Consistent(r[id]) && r[id].occupied && r[id].vehicle == Some(v) && r[id].entryTime == Some(now)
    ensures SameFixture(r[id], spots[id])
    ensures forall k :: k in spots && k != id ==> r[k] == spots[k]
  {
    spots[id := Occupied(spots[id], v, now)]
  }

  /**
   * `release_spot` on the dictionary: spot `id` becomes free with no vehicle
   * and no entry time and keeps its fixture; nothing else changes.
   */
  function ReleaseIn(spots: map<SpotId, Spot>, id: SpotId): (r: map<SpotId, Spot>)
    requires id in spots
    ensures r.Keys == spots.Keys
    ensures Consistent(r[id]) && !r[id].occupied
    ensures SameFixture(r[id], spots[id])
    ensures forall k :: k in spots && k != id ==> r[k] == spots[k]
  {
    spots[id := Released(spots[id])]
  }

  /** Occupying a free spot and releasing it again restores the spot exactly. */
  lemma OccupyReleaseRoundTrip(spots: map<SpotId, Spot>, id: SpotId, v: VehicleInfo, now: int)
    requires id in spots && !spots[id].occupied && Consistent(spots[id])
    ensures ReleaseIn(OccupyIn(spots, id, v, now), id) == spots
    ensures Consistent(OccupyIn(spots, id, v, now)[id])
    ensures SameFixture(spots[id], OccupyIn(spots, id, v, now)[id])
  {
    assert Released(Occupied(spots[id], v, now)) == spots[id];
  }

  /** No element is listed twice. */
  ghost predicate Distinct<T>(xs: seq<T>) {
    forall i, j :: 0 <= i < j < |xs| ==> xs[i] != xs[j]
  }

  ghost predicate Increasing(ids: seq<SpotId>) {
    forall i, j :: 0 <= i < j < |ids| ==> ids[i] < ids[j]
  }

  /** The roster invariant: keys listed once each, and every spot consistent. */
  ghost predicate WellFormed(order: seq<SpotId>, spots: map<SpotId, Spot>) {
    && Distinct(order)
    && (forall id :: id in spots <==> id in order)
    && (forall id :: id in spots ==> Consistent(spots[id]))
  }

  /** `get_spot_info`: the spot's record, or None for an unknown ID. */
  function SpotInfo(spots: map<SpotId, Spot>, id: SpotId): (r: Option<Spot>)
    ensures r.Some? <==> id in spots
    ensures r.Some? ==> r.value == spots[id]
  {
    if id in spots then Some(spots[id]) else None
  }

  /** A spot `get_available_spots(filter)` lists. */
  predicate Candidate(spots: map<SpotId, Spot>, id: SpotId, filter: Option<SpotType>) {
    id in spots && !spots[id].occupied && (filter.None? || spots[id].kind == filter.value)
  }

  /** `get_available_spots(filter)`: the free spots (of the given type) in key order. */
  function Available(order: seq<SpotId>, spots: map<SpotId, Spot>, filter: Option<SpotType>): (r: seq<SpotId>)
    ensures forall id :: id in r <==> id in order && Candidate(spots, id, filter)
    ensures |r| <= |order|
    decreases |order|
  {
    if order == [] then []
    else
      var last := order[|order| - 1];
      Available(order[..|order| - 1], spots, filter) + (if Candidate(spots, last, filter) then [last] else [])
  }

  /** `get_available_spots` keeps the key order: ascending keys give an ascending list. */
  lemma {:induction false} AvailableAscending(order: seq<SpotId>, spots: map<SpotId, Spot>, filter: Option<SpotType>)
    requires Increasing(order)
    ensures Increasing(Available(order, spots, filter))
    decreases |order|
  {
    if order != [] {
      var prefix := order[..|order| - 1];
      var last := order[|order| - 1];
      AvailableAscending(prefix, spots, filter);
      var rest := Available(prefix, spots, filter);
      forall x | x in rest ensures x < last {
        var j :| 0 <= j < |prefix| && prefix[j] == x;
        assert order[j] == x;
      }
      var r := Available(order, spots, filter);
      forall i, j | 0 <= i < j < |r| ensures r[i] < r[j] {
        if j < |rest| {
          assert r[i] == rest[i] && r[j] == rest[j];
        } else {
          assert r[i] == rest[i] && rest[i] in rest;
        }
      }
    }
  }

  /** Position k of `order` holds a candidate and no earlier position does. */
  ghost predicate EarliestAt(order: seq<SpotId>, spots: map<SpotId, Spot>, filter: Option<SpotType>, k: int) {
    && 0 <= k < |order|
    && Candidate(spots, order[k], filter)
    && forall j :: 0 <= j < k ==> !Candidate(spots, order[j], filter)
  }

  /** The head of `get_available_spots(filter)` is the earliest candidate in key order. */
  lemma {:induction false} FirstAvailable(order: seq<SpotId>, spots: map<SpotId, Spot>, filter: Option<SpotType>) returns (k: int)
    requires Available(order, spots, filter) != []
    ensures EarliestAt(order, spots, filter, k) && order[k] == Available(order, spots, filter)[0]
    decreases |order|
  {
    var prefix := order[..|order| - 1];
    assert order == prefix + [order[|order| - 1]];
    if Available(prefix, spots, filter) == [] {
      k := |order| - 1;
      forall j | 0 <= j < k ensures !Candidate(spots, order[j], filter) {
        assert order[j] == prefix[j] && order[j] in prefix;
      }
    } else {
      k := FirstAvailable(prefix, spots, filter);
    }
  }

  /** A candidate at the earliest position is what `get_available_spots` returns first. */
  lemma EarliestIsFirst(order: seq<SpotId>, spots: map<SpotId, Spot>, filter: Option<SpotType>, k: int)
    requires EarliestAt(order, spots, filter, k)
    ensures Available(order, spots, filter) != [] && Available(order, spots, filter)[0] == order[k]
  {
    assert order[k] in Available(order, spots, filter);
    var k' := FirstAvailable(order, spots, filter);
  }

  /** Spot `id` is a key of the given type (None: any type) and, when `occupiedOnly`, occupied. */
  predicate Matches(spots: map<SpotId, Spot>, id: SpotId, kind: Option<SpotType>, occupiedOnly: bool) {
    id in spots && (kind.None? || spots[id].kind == kind.value) && (!occupiedOnly || spots[id].occupied)
  }

  /**
   * get_occupancy_status: the number of listed keys whose spot matches a type
   * (None: any) and, optionally, is occupied; never more than the keys listed.
   */
  function Count(order: seq<SpotId>, spots: map<SpotId, Spot>, kind: Option<SpotType>, occupiedOnly: bool): (r: nat)
    ensures r <= |order|
    decreases |order|
  {
    if order == [] then 0
    else
      var last := order[|order| - 1];
      Count(order[..|order| - 1], spots, kind, occupiedOnly) + (if Matches(spots, last, kind, occupiedOnly) then 1 else 0)
  }

  datatype Tally = Tally(total: nat, occupied: nat)

  datatype TypeBreakdown = TypeBreakdown(standard: Tally, handicap: Tally, premium: Tally)

  datatype Status = Status(
    totalSpots: nat,
    occupiedSpots: nat,
    availableSpots: int,
    occupancyRate: real,
    byType: TypeBreakdown)

  function TallyOf(order: seq<SpotId>, spots: map<SpotId, Spot>, t: SpotType): Tally {
    Tally(Count(order, spots, Some(t), false), Count(order, spots, Some(t), true))
  }

  /**
   * `get_occupancy_status`; the rate is kept exact (the source divides
   * floats). The total is the size of the dictionary, the free count is what
   * the occupied count leaves of it, the rate is never negative and an empty
   * lot reports a rate of 0.
   */
  function OccupancyStatus(order: seq<SpotId>, spots: map<SpotId, Spot>): (r: Status)
    ensures r.totalSpots == |spots|
    ensures r.occupiedSpots <= |order|
    ensures r.availableSpots == r.totalSpots - r.occupiedSpots
    ensures r.occupancyRate >= 0.0
    ensures r.totalSpots == 0 ==> r.occupancyRate == 0.0
  {
    var total := |spots|;
    var occupied := Count(order, spots, None, true);
    Status(
      total,
      occupied,
      total - occupied,
      if total > 0 then (occupied as real) / (total as real) * 100.0 else 0.0,
      TypeBreakdown(TallyOf(order, spots, Standard), TallyOf(order, spots, Handicap), TallyOf(order, spots, Premium)))
  }

  lemma {:induction false} DistinctCardinality(ids: seq<SpotId>)
    requires Distinct(ids)
    ensures |set id | id in ids| == |ids|
    decreases |ids|
  {
    if ids != [] {
      var prefix := ids[..|ids| - 1];
      var last := ids[|ids| - 1];
      assert ids == prefix + [last];
      DistinctCardinality(prefix);
      assert last !in prefix by {
        forall j | 0 <= j < |prefix| ensures prefix[j] != last {
          assert prefix[j] == ids[j];
        }
      }
      assert (set id | id in ids) == (set id | id in prefix) + {last};
    }
  }

  /** The dictionary has as many entries as its key order. */
  lemma RosterSize(order: seq<SpotId>, spots: map<SpotId, Spot>)
    requires WellFormed(order, spots)
    ensures |spots| == |order|
  {
    DistinctCardinality(order);
    forall x ensures x in spots.Keys <==> x in (set id | id in order) {
      assert x in spots <==> x in order;
    }
    assert spots.Keys == set id | id in order;
  }

  lemma {:induction false} CountOccupiedAtMostTotal(order: seq<SpotId>, spots: map<SpotId, Spot>, kind: Option<SpotType>)
    ensures Count(order, spots, kind, true) <= Count(order, spots, kind, false) <= |order|
    decreases |order|
  {
    if order != [] {
      CountOccupiedAtMostTotal(order[..|order| - 1], spots, kind);
    }
  }

  /** Spots that are listed and not occupied are exactly what `get_available_spots()` returns. */
  lemma {:induction false} FreeCountIsAvailable(order: seq<SpotId>, spots: map<SpotId, Spot>)
    requires forall id :: id in order ==> id in spots
    ensures Count(order, spots, None, false) == |order|
    ensures Count(order, spots, None, false) - Count(order, spots, None, true) == |Available(order, spots, None)|
    decreases |order|
  {
    if order != [] {
      var prefix := order[..|order| - 1];
      assert order == prefix + [order[|order| - 1]];
      FreeCountIsAvailable(prefix, spots);
    }
  }

  lemma {:induction false} ListedTypesPartition(order: seq<SpotId>, spots: map<SpotId, Spot>)
    requires forall id :: id in order ==> id in spots && IsListedType(spots[id].kind)
    ensures Count(order, spots, Some(Standard), false) + Count(order, spots, Some(Handicap), false)
            + Count(order, spots, Some(Premium), false) == |order|
    ensures Count(order, spots, Some(Standard), true) + Count(order, spots, Some(Handicap), true)
            + Count(order, spots, Some(Premium), true) == Count(order, spots, None, true)
    decreases |order|
  {
    if order != [] {
      var prefix := order[..|order| - 1];
      assert order == prefix + [order[|order| - 1]];
      ListedTypesPartition(prefix, spots);
    }
  }

  lemma RateBound(occupied: nat, total: nat)
    requires 0 < total && occupied <= total
    ensures 0.0 <= (occupied as real) / (total as real) * 100.0 <= 100.0
  {
    var o, t := occupied as real, total as real;
    assert o / t <= 1.0 by {
      assert o / t * t == o;
    }
  }

  /**
   * What `get_occupancy_status` promises: available + occupied = total, the
   * available count is what `get_available_spots()` lists, the rate lies in
   * [0, 100] and is 0 for an empty lot, per-type occupied counts are bounded
   * by the per-type totals, and the three per-type totals add up to the
   * total when every spot has one of the three listed types.
   */
  lemma OccupancyStatusFacts(order: seq<SpotId>, spots: map<SpotId, Spot>)
    requires WellFormed(order, spots)
    ensures var s := OccupancyStatus(order, spots);
      && s.totalSpots == |order|
      && 0 <= s.occupiedSpots <= s.totalSpots
      && s.availableSpots + s.occupiedSpots == s.totalSpots
      && s.availableSpots == |Available(order, spots, None)|
      && 0.0 <= s.occupancyRate <= 100.0
      && (s.totalSpots == 0 ==> s.occupancyRate == 0.0)
      && s.byType.standard.occupied <= s.byType.standard.total
      && s.byType.handicap.occupied <= s.byType.handicap.total
      && s.byType.premium.occupied <= s.byType.premium.total
      && ((forall id :: id in spots ==> IsListedType(spots[id].kind)) ==>
            && s.byType.standard.total + s.byType.handicap.total + s.byType.premium.total == s.totalSpots
            && s.byType.standard.occupied + s.byType.handicap.occupied + s.byType.premium.occupied == s.occupiedSpots)
  {
    var s := OccupancyStatus(order, spots);
    RosterSize(order, spots);
    FreeCountIsAvailable(order, spots);
    CountOccupiedAtMostTotal(order, spots, None);
    CountOccupiedAtMostTotal(order, spots, Some(Standard));
    CountOccupiedAtMostTotal(order, spots, Some(Handicap));
    CountOccupiedAtMostTotal(order, spots, Some(Premium));
    if s.totalSpots > 0 {
      RateBound(s.occupiedSpots, s.totalSpots);
    }
    if forall id :: id in spots ==> IsListedType(spots[id].kind) {
      ListedTypesPartition(order, spots);
    }
  }
}
