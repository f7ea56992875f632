/**
 * `SpotAssigner.auto_assign_spot` (parking_system.py): a three-step priority
 * policy over `get_available_spots`, taking the head of the first non-empty
 * list and occupying that spot.
 */
module Assigner {
  import opened Optional
  import opened Spots
  import opened Roster
  import opened Layout

  /**
   * The spot the policy picks: the first free handicap spot for a permit
   * holder, else the first free spot of the preferred type, else the first
   * free spot of any type, else none.
   */
  function ChooseSpot(order: seq<SpotId>, spots: map<SpotId, Spot>, v: VehicleInfo): (r: Option<SpotId>)
    ensures r.Some? ==> r.value in order && Candidate(spots, r.value, None)
    ensures r.Some? && v.handicapPermit && Available(order, spots, Some(Handicap)) != [] ==> spots[r.value].kind == Handicap
    ensures (r.Some? && !(v.handicapPermit && Available(order, spots, Some(Handicap)) != [])
              && Available(order, spots, Some(PreferredType(v))) != []) ==> spots[r.value].kind == PreferredType(v)
  {
    var handicap := Available(order, spots, Some(Handicap));
    var preferred := Available(order, spots, Some(PreferredType(v)));
    var any := Available(order, spots, None);
    if v.handicapPermit && handicap != [] then
      assert handicap[0] in handicap;
      assert Candidate(spots, handicap[0], Some(Handicap));
      assert handicap[0] in order;
      Some(handicap[0])
    else if preferred != [] then
      assert preferred[0] in preferred;
      assert Candidate(spots, preferred[0], Some(PreferredType(v)));
      assert preferred[0] in order;
      Some(preferred[0])
    else if any != [] then
      assert any[0] in any;
      assert Candidate(spots, any[0], None);
      assert any[0] in order;
      Some(any[0])
    else None
  }

  /** A chosen spot is listed and was free; no spot is chosen exactly when every listed spot is taken. */
  lemma ChooseSpotFree(order: seq<SpotId>, spots: map<SpotId, Spot>, v: VehicleInfo)
    ensures var r := ChooseSpot(order, spots, v);
      && (r.Some? ==> r.value in order && r.value in spots && !spots[r.value].occupied)
      && (r.None? <==> forall id :: id in order && id in spots ==> spots[id].occupied)
  {
    var handicap := Available(order, spots, Some(Handicap));
    var preferred := Available(order, spots, Some(PreferredType(v)));
    var any := Available(order, spots, None);
    var r := ChooseSpot(order, spots, v);
    if handicap != [] {
      assert handicap[0] in handicap && Candidate(spots, handicap[0], None);
      assert handicap[0] in any;
    }
    if preferred != [] {
      assert preferred[0] in preferred && Candidate(spots, preferred[0], None);
      assert preferred[0] in any;
    }
    if any != [] {
      assert any[0] in any;
      assert r.Some? && Candidate(spots, r.value, None) && r.value in order;
    } else {
      assert handicap == [] && preferred == [];
      forall id | id in order && id in spots ensures spots[id].occupied {
        assert !Candidate(spots, id, None);
      }
    }
  }

  /** Priority 1: a permit holder gets the earliest free handicap spot whenever there is one. */
  lemma HandicapPriority(order: seq<SpotId>, spots: map<SpotId, Spot>, v: VehicleInfo, k: int)
    requires v.handicapPermit && EarliestAt(order, spots, Some(Handicap), k)
    ensures ChooseSpot(order, spots, v) == Some(order[k])
    ensures spots[order[k]].kind == Handicap
  {
    EarliestIsFirst(order, spots, Some(Handicap), k);
  }

  /** Priority 2: without a permit, or with no free handicap spot, the earliest free spot of the preferred type. */
  lemma PreferredNext(order: seq<SpotId>, spots: map<SpotId, Spot>, v: VehicleInfo, k: int)
    requires !v.handicapPermit || Available(order, spots, Some(Handicap)) == []
    requires EarliestAt(order, spots, Some(PreferredType(v)), k)
    ensures ChooseSpot(order, spots, v) == Some(order[k])
    ensures spots[order[k]].kind == PreferredType(v)
  {
    EarliestIsFirst(order, spots, Some(PreferredType(v)), k);
  }

  /** Priority 3: when neither of the first two applies, the earliest free spot of any type. */
  lemma AnyFallback(order: seq<SpotId>, spots: map<SpotId, Spot>, v: VehicleInfo, k: int)
    requires !v.handicapPermit || Available(order, spots, Some(Handicap)) == []
    requires Available(order, spots, Some(PreferredType(v))) == []
    requires EarliestAt(order, spots, None, k)
    ensures ChooseSpot(order, spots, v) == Some(order[k])
  {
    EarliestIsFirst(order, spots, None, k);
  }

  /** On the freshly laid-out lot a permit holder gets spot 1. */
  lemma FreshPermitChoice(v: VehicleInfo)
    requires v.handicapPermit
    ensures ChooseSpot(NewIds({}, Capacity), RosterUpTo(Capacity), v) == Some(1)
  {
    var o, s := NewIds({}, Capacity), RosterUpTo(Capacity);
    FreshRosterWellFormed();
    assert o[0] == 1;
    assert s[1] == RealisticSpot(1);
    HandicapPriority(o, s, v, 0);
  }

  /** On the freshly laid-out lot a vehicle without a permit that prefers standard gets spot 3. */
  lemma FreshStandardChoice(v: VehicleInfo)
    requires !v.handicapPermit && PreferredType(v) == Standard
    ensures ChooseSpot(NewIds({}, Capacity), RosterUpTo(Capacity), v) == Some(3)
  {
    var o, s := NewIds({}, Capacity), RosterUpTo(Capacity);
    FreshRosterWellFormed();
    assert o[0] == 1 && o[1] == 2 && o[2] == 3;
    assert s[1] == RealisticSpot(1) && s[2] == RealisticSpot(2) && s[3] == RealisticSpot(3);
    PreferredNext(o, s, v, 2);
  }

  /** On the freshly laid-out lot a vehicle without a permit that prefers premium gets spot 31. */
  lemma FreshPremiumChoice(v: VehicleInfo)
    requires !v.handicapPermit && PreferredType(v) == Premium
    ensures ChooseSpot(NewIds({}, Capacity), RosterUpTo(Capacity), v) == Some(31)
  {
    var o, s := NewIds({}, Capacity), RosterUpTo(Capacity);
    FreshRosterWellFormed();
    assert o[30] == 31;
    forall j | 0 <= j < 30 ensures !Candidate(s, o[j], Some(Premium)) {
      assert o[j] == j + 1;
      assert s[j + 1] == RealisticSpot(j + 1);
    }
    assert s[31] == RealisticSpot(31);
    PreferredNext(o, s, v, 30);
  }

  class SpotAssigner {
    const layout: ParkingLayout

    constructor (layout: ParkingLayout)
      ensures this.layout == layout
    {
      this.layout := layout;
    }

    /**
     * `auto_assign_spot`: occupies the spot the policy picks with the
     * vehicle and the entry time, and returns it; returns None and changes
     * nothing when no spot is free.
     */
    method AutoAssignSpot(v: VehicleInfo, now: int) returns (r: Option<SpotId>)
      requires layout.Valid()
      modifies layout
      ensures layout.Valid()
      ensures r == ChooseSpot(old(layout.order), old(layout.spots), v)
      ensures layout.order == old(layout.order)
      ensures r.Some? ==> r.value in old(layout.spots) && !old(layout.spots)[r.value].occupied
      ensures layout.spots == if r.Some? then OccupyIn(old(layout.spots), r.value, v, now) else old(layout.spots)
    {
      ChooseSpotFree(layout.order, layout.spots, v);
      if v.handicapPermit {
        var available := Available(layout.order, layout.spots, Some(Handicap));
        if available != [] {
          var spotId := available[0];
          var _ := layout.OccupySpot(spotId, v, now);
          return Some(spotId);
        }
      }
      var available := Available(layout.order, layout.spots, Some(PreferredType(v)));
      if available != [] {
        var spotId := available[0];
        var _ := layout.OccupySpot(spotId, v, now);
        return Some(spotId);
      }
      available := Available(layout.order, layout.spots, None);
      if available != [] {
        var spotId := available[0];
        var _ := layout.OccupySpot(spotId, v, now);
        return Some(spotId);
      }
      return None;
    }
  }
}
