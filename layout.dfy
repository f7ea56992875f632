/**
 * `ParkingLayout` (parking_system.py): the registry of spots, updated in
 * place. Its queries (`get_spot_info`, `get_available_spots`,
 * `get_occupancy_status`) are the functions `SpotInfo`, `Available` and
 * `OccupancyStatus` of module Spots applied to its two fields. Writing the
 * configuration file after each change is not modelled.
 */
module Layout {
  import opened Optional
  import opened Spots
  import opened Roster

  class ParkingLayout {
    /** The dictionary's key order. */
    var order: seq<SpotId>
    /** `self.spots` */
    var spots: map<SpotId, Spot>

    ghost predicate Valid()
      reads this
    {
      WellFormed(order, spots)
    }

    /** A layout without a configuration file to load: the realistic roster. */
    constructor ()
      ensures Valid()
      ensures order == NewIds({}, Capacity) && spots == RosterUpTo(Capacity)
    {
      order := [];
      spots := map[];
      new;
      FreshLayout();
      CreateRealisticLayout();
    }

    /** `self.spots[id] = s`: a new key joins the end of the key order, a present one keeps its place. */
    method Store(id: SpotId, s: Spot)
      modifies this
      ensures spots == old(spots)[id := s]
      ensures order == if id in old(spots) then old(order) else old(order) + [id]
    {
      if id !in spots {
        order := order + [id];
      }
      spots := spots[id := s];
    }

    /** The roster after laying out keys 1..n from the starting state (o0, s0). */
    ghost predicate LaidUpTo(o0: seq<SpotId>, s0: map<SpotId, Spot>, n: int)
      reads this
    {
      0 <= n <= Capacity && order == o0 + NewIds(s0.Keys, n) && spots == Overlay(s0, n)
    }

    /** Writes the free realistic record under key n + 1. */
    method LayNext(ghost o0: seq<SpotId>, ghost s0: map<SpotId, Spot>, n: int, s: Spot)
      requires LaidUpTo(o0, s0, n) && n < Capacity && s == RealisticSpot(n + 1)
      modifies this
      ensures LaidUpTo(o0, s0, n + 1)
    {
      LayStep(o0, s0, n);
      Store(n + 1, s);
    }

    /** Row 1 of `create_realistic_layout`: spots 1-2 handicap, the rest standard, facing north. */
    method LayRow1(ghost o0: seq<SpotId>, ghost s0: map<SpotId, Spot>)
      requires LaidUpTo(o0, s0, 0)
      modifies this
      ensures LaidUpTo(o0, s0, 8)
    {
      var spotId := 1;
      for col := 0 to SpotsPerRow
        invariant spotId == 1 + col && LaidUpTo(o0, s0, spotId - 1)
      {
        var spotType := if col < 2 then Handicap else Standard;
        RowSpot(1, col, spotId, spotType);
        LayNext(o0, s0, spotId - 1, Spot(1, col + 1, North, spotType, false, None, None));
        spotId := spotId + 1;
      }
    }

    /** Row 2 of `create_realistic_layout`: standard, facing south. */
    method LayRow2(ghost o0: seq<SpotId>, ghost s0: map<SpotId, Spot>)
      requires LaidUpTo(o0, s0, 8)
      modifies this
      ensures LaidUpTo(o0, s0, 16)
    {
      var spotId := 9;
      for col := 0 to SpotsPerRow
        invariant spotId == 9 + col && LaidUpTo(o0, s0, spotId - 1)
      {
        RowSpot(2, col, spotId, Standard);
        LayNext(o0, s0, spotId - 1, Spot(2, col + 1, South, Standard, false, None, None));
        spotId := spotId + 1;
      }
    }

    /** Row 3 of `create_realistic_layout`: standard, facing north. */
    method LayRow3(ghost o0: seq<SpotId>, ghost s0: map<SpotId, Spot>)
      requires LaidUpTo(o0, s0, 16)
      modifies this
      ensures LaidUpTo(o0, s0, 24)
    {
      var spotId := 17;
      for col := 0 to SpotsPerRow
        invariant spotId == 17 + col && LaidUpTo(o0, s0, spotId - 1)
      {
        RowSpot(3, col, spotId, Standard);
        LayNext(o0, s0, spotId - 1, Spot(3, col + 1, North, Standard, false, None, None));
        spotId := spotId + 1;
      }
    }

    /** Row 4 of `create_realistic_layout`: the last two premium, the rest standard, facing south. */
    method LayRow4(ghost o0: seq<SpotId>, ghost s0: map<SpotId, Spot>)
      requires LaidUpTo(o0, s0, 24)
      modifies this
      ensures LaidUpTo(o0, s0, 32)
    {
      var spotId := 25;
      for col := 0 to SpotsPerRow
        invariant spotId == 25 + col && LaidUpTo(o0, s0, spotId - 1)
      {
        var spotType := if col >= 6 then Premium else Standard;
        RowSpot(4, col, spotId, spotType);
        LayNext(o0, s0, spotId - 1, Spot(4, col + 1, South, spotType, false, None, None));
        spotId := spotId + 1;
      }
    }

    /** `create_realistic_layout`: four rows of eight spots, numbered from 1. */
    method CreateRealisticLayout()
      requires Valid()
      modifies this
      ensures Valid()
      ensures spots == LaidOutSpots(old(spots))
      ensures order == LaidOutOrder(old(order), old(spots))
    {
      ghost var o0, s0 := order, spots;
      LayRow1(o0, s0);
      LayRow2(o0, s0);
      LayRow3(o0, s0);
      LayRow4(o0, s0);
      OverlayIsUnion(s0, Capacity);
      LayoutContents(o0, s0);
    }

    /**
     * `occupy_spot`: fails on an unknown or occupied spot and changes nothing;
     * otherwise records the vehicle and the entry time on that spot only.
     */
    method OccupySpot(id: SpotId, v: VehicleInfo, now: int) returns (ok: bool)
      requires Valid()
      modifies this
      ensures Valid()
      ensures ok <==> old(id in spots && !spots[id].occupied)
      ensures order == old(order)
      ensures spots == if ok then OccupyIn(old(spots), id, v, now) else old(spots)
    {
      if id !in spots || spots[id].occupied {
        return false;
      }
      spots := OccupyIn(spots, id, v, now);
      return true;
    }

    /**
     * `release_spot`: fails on an unknown or free spot and changes nothing;
     * otherwise clears the vehicle and the entry time of that spot only.
     */
    method ReleaseSpot(id: SpotId) returns (ok: bool)
      requires Valid()
      modifies this
      ensures Valid()
      ensures ok <==> old(id in spots && spots[id].occupied)
      ensures order == old(order)
      ensures spots == if ok then ReleaseIn(old(spots), id) else old(spots)
    {
      if id !in spots || !spots[id].occupied {
        return false;
      }
      spots := ReleaseIn(spots, id);
      return true;
    }
  }
}
