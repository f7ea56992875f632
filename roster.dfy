/**
 * The fixed roster `ParkingLayout.create_realistic_layout` writes
 * (parking_system.py): four rows of eight spots numbered 1..32 row by row,
 * rows 1 and 3 facing north and rows 2 and 4 facing south, spots 1-2
 * handicap, spots 31-32 premium and the rest standard, all free.
 *
 * The layout overwrites keys 1..32 and leaves every other key alone; keys
 * that were not yet in the dictionary join the end of its key order.
 */
module Roster {
  import opened Optional
  import opened Spots

  const SpotsPerRow := 8
  const Capacity := 32

  function RowOf(id: int): int
    requires 1 <= id <= Capacity
  {
    if id <= 8 then 1 else if id <= 16 then 2 else if id <= 24 then 3 else 4
  }

  /** The record written under key `id`. */
  function RealisticSpot(id: int): (r: Spot)
    requires 1 <= id <= Capacity
    ensures 1 <= r.row <= 4 && 1 <= r.position <= SpotsPerRow
    ensures id == SpotsPerRow * (r.row - 1) + r.position
    ensures r.kind == Handicap <==> id <= 2
    ensures r.kind == Premium <==> id >= 31
    ensures Consistent(r) && !r.occupied
  {
    var row := RowOf(id);
    Spot(
      row,
      id - SpotsPerRow * (row - 1),
      SideOf(row),
      if id <= 2 then Handicap else if id >= 31 then Premium else Standard,
      false, None, None)
  }

  /** The side rows face: rows 1 and 3 north, rows 2 and 4 south. */
  function SideOf(row: int): Side {
    if row == 1 || row == 3 then North else South
  }

  /**
   * The record written at column `col` of `row` is the realistic record of
   * key `spotId`, the key that follows the 8 * (row - 1) keys of the rows
   * before it; `kind` is the type that loop gives that column.
   */
  lemma RowSpot(row: int, col: int, spotId: int, kind: SpotType)
    requires 1 <= row <= 4 && 0 <= col < SpotsPerRow && spotId == SpotsPerRow * (row - 1) + col + 1
    requires kind == if row == 1 && col < 2 then Handicap else if row == 4 && col >= 6 then Premium else Standard
    ensures 1 <= spotId <= Capacity
    ensures RealisticSpot(spotId) == Spot(row, col + 1, SideOf(row), kind, false, None, None)
  {
  }

  /** The records for keys 1..n. */
  function RosterUpTo(n: int): map<SpotId, Spot>
    requires 0 <= n <= Capacity
  {
    map id | 1 <= id <= n :: RealisticSpot(id)
  }

  /** The keys among 1..n that are not in `present`, ascending: what joins the key order. */
  function NewIds(present: set<SpotId>, n: int): seq<SpotId>
    requires 0 <= n <= Capacity
    decreases n
  {
    if n == 0 then [] else NewIds(present, n - 1) + (if n in present then [] else [n])
  }

  lemma {:induction false} NewIdsFacts(present: set<SpotId>, n: int)
    requires 0 <= n <= Capacity
    ensures forall x :: x in NewIds(present, n) <==> 1 <= x <= n && x !in present
    ensures Increasing(NewIds(present, n))
    decreases n
  {
    if n > 0 {
      NewIdsFacts(present, n - 1);
      var prefix := NewIds(present, n - 1);
      var r := NewIds(present, n);
      forall i, j | 0 <= i < j < |r| ensures r[i] < r[j] {
        assert r[i] == prefix[i] && prefix[i] in prefix;
        if j < |prefix| {
          assert r[j] == prefix[j];
        }
      }
    }
  }

  /** The map after the layout loops have written keys 1..n, one at a time, over `spots`. */
  function Overlay(spots: map<SpotId, Spot>, n: int): map<SpotId, Spot>
    requires 0 <= n <= Capacity
    decreases n
  {
    if n == 0 then spots else Overlay(spots, n - 1)[n := RealisticSpot(n)]
  }

  /** Writing keys 1..n adds exactly those keys. */
  lemma {:induction false} OverlayKeys(spots: map<SpotId, Spot>, n: int)
    requires 0 <= n <= Capacity
    ensures forall id :: id in Overlay(spots, n) <==> id in spots || 1 <= id <= n
    decreases n
  {
    if n > 0 {
      OverlayKeys(spots, n - 1);
    }
  }

  /** Overriding with the first n - 1 records and then writing record n is overriding with the first n. */
  lemma UnionStep(spots: map<SpotId, Spot>, n: int)
    requires 0 < n <= Capacity
    ensures (spots + RosterUpTo(n - 1))[n := RealisticSpot(n)] == spots + RosterUpTo(n)
  {
    var before, after := RosterUpTo(n - 1), RosterUpTo(n);
    var a, b := (spots + before)[n := RealisticSpot(n)], spots + after;
    forall id ensures (id in a <==> id in b) && (id in a ==> a[id] == b[id]) {
      if id == n {
        assert id in after && after[id] == RealisticSpot(n);
      } else if 1 <= id < n {
        assert id in before && id in after && before[id] == after[id];
      } else {
        assert id !in before && id !in after;
      }
    }
  }

  /** Writing keys 1..n one at a time gives the old map overridden by the first n records of the roster. */
  lemma {:induction false} OverlayIsUnion(spots: map<SpotId, Spot>, n: int)
    requires 0 <= n <= Capacity
    ensures Overlay(spots, n) == spots + RosterUpTo(n)
    decreases n
  {
    if n == 0 {
      assert spots + RosterUpTo(0) == spots;
    } else {
      OverlayIsUnion(spots, n - 1);
      UnionStep(spots, n);
    }
  }

  /** One step of the layout loops: key n + 1 joins the key order exactly when it was not a key before the layout. */
  lemma LayStep(o0: seq<SpotId>, s0: map<SpotId, Spot>, n: int)
    requires 0 <= n < Capacity
    ensures (n + 1 in Overlay(s0, n)) == (n + 1 in s0)
    ensures o0 + NewIds(s0.Keys, n + 1) ==
      if n + 1 in s0 then o0 + NewIds(s0.Keys, n) else o0 + NewIds(s0.Keys, n) + [n + 1]
  {
    OverlayKeys(s0, n);
    var added := NewIds(s0.Keys, n);
    if n + 1 in s0 {
      assert added + [] == added;
    } else {
      assert o0 + added + [n + 1] == o0 + (added + [n + 1]);
    }
  }

  /** The map after `create_realistic_layout`. */
  function LaidOutSpots(spots: map<SpotId, Spot>): map<SpotId, Spot> {
    spots + RosterUpTo(Capacity)
  }

  /** The key order after `create_realistic_layout`. */
  function LaidOutOrder(order: seq<SpotId>, spots: map<SpotId, Spot>): seq<SpotId> {
    order + NewIds(spots.Keys, Capacity)
  }

  lemma {:induction false} AscendingIsDistinct(ids: seq<SpotId>)
    requires Increasing(ids)
    ensures Distinct(ids)
  {
  }

  /** After laying out keys 1..n, the key order lists every key of the map exactly once. */
  lemma PartialOrderDistinct(order: seq<SpotId>, spots: map<SpotId, Spot>, n: int)
    requires WellFormed(order, spots) && 0 <= n <= Capacity
    ensures Distinct(order + NewIds(spots.Keys, n))
    ensures forall id :: id in order + NewIds(spots.Keys, n) <==> id in spots || 1 <= id <= n
  {
    var added := NewIds(spots.Keys, n);
    var o := order + added;
    NewIdsFacts(spots.Keys, n);
    AscendingIsDistinct(added);
    forall i, j | 0 <= i < j < |o| ensures o[i] != o[j] {
      if j < |order| {
        assert o[i] == order[i] && o[j] == order[j];
      } else if i < |order| {
        assert o[i] == order[i] && o[j] == added[j - |order|] && o[j] in added;
      } else {
        assert o[i] == added[i - |order|] && o[j] == added[j - |order|];
      }
    }
  }

  /** Laying out keys 1..n, one at a time, keeps the roster invariant at every step. */
  lemma PartialLayoutWellFormed(order: seq<SpotId>, spots: map<SpotId, Spot>, n: int)
    requires WellFormed(order, spots) && 0 <= n <= Capacity
    ensures WellFormed(order + NewIds(spots.Keys, n), spots + RosterUpTo(n))
  {
    PartialOrderDistinct(order, spots, n);
    var m, r := spots + RosterUpTo(n), RosterUpTo(n);
    var o := order + NewIds(spots.Keys, n);
    forall id ensures id in m <==> id in o {
      assert id in r <==> 1 <= id <= n;
    }
    forall id | id in m ensures Consistent(m[id]) {
      if 1 <= id <= n {
        assert id in r && m[id] == RealisticSpot(id);
      } else {
        assert id !in r && m[id] == spots[id];
      }
    }
  }

  /**
   * `create_realistic_layout` writes the free realistic record under every
   * key 1..32 and leaves every other key as it was.
   */
  lemma LaidOutSpotsAt(spots: map<SpotId, Spot>)
    ensures forall id :: 1 <= id <= Capacity ==>
      id in LaidOutSpots(spots) && LaidOutSpots(spots)[id] == RealisticSpot(id) && !LaidOutSpots(spots)[id].occupied
    ensures forall id :: id in spots && !(1 <= id <= Capacity) ==>
      id in LaidOutSpots(spots) && LaidOutSpots(spots)[id] == spots[id]
    ensures forall id :: id in LaidOutSpots(spots) <==> id in spots || 1 <= id <= Capacity
  {
    var m, r := LaidOutSpots(spots), RosterUpTo(Capacity);
    forall id | 1 <= id <= Capacity ensures id in m && m[id] == RealisticSpot(id) && !m[id].occupied {
      assert id in r && r[id] == RealisticSpot(id);
    }
    forall id | id in spots && !(1 <= id <= Capacity) ensures id in m && m[id] == spots[id] {
      assert id !in r;
    }
    forall id ensures id in m <==> id in spots || 1 <= id <= Capacity {
      assert id in r <==> 1 <= id <= Capacity;
    }
  }

  /** `create_realistic_layout` keeps the roster invariant and only appends to the key order. */
  lemma LayoutContents(order: seq<SpotId>, spots: map<SpotId, Spot>)
    requires WellFormed(order, spots)
    ensures WellFormed(LaidOutOrder(order, spots), LaidOutSpots(spots))
    ensures LaidOutOrder(order, spots)[..|order|] == order
  {
    PartialLayoutWellFormed(order, spots, Capacity);
  }

  lemma {:induction false} NoNewIds(present: set<SpotId>, n: int)
    requires 0 <= n <= Capacity
    requires forall x :: 1 <= x <= n ==> x in present
    ensures NewIds(present, n) == []
    decreases n
  {
    if n > 0 {
      NoNewIds(present, n - 1);
    }
  }

  /** Laying out an empty dictionary gives the fresh roster, with key order 1..32. */
  lemma FreshLayout()
    ensures LaidOutSpots(map[]) == RosterUpTo(Capacity)
    ensures LaidOutOrder([], map[]) == NewIds({}, Capacity)
  {
    var empty: map<SpotId, Spot> := map[];
    assert empty.Keys == {};
    assert empty + RosterUpTo(Capacity) == RosterUpTo(Capacity);
  }

  /** A map that already holds the roster's records under keys 1..32 is unchanged by overriding with them. */
  lemma RosterOverrideTwice(m: map<SpotId, Spot>)
    requires forall id :: 1 <= id <= Capacity ==> id in m && m[id] == RealisticSpot(id)
    ensures m + RosterUpTo(Capacity) == m
  {
    var r := RosterUpTo(Capacity);
    forall id ensures (id in m + r <==> id in m) && (id in m ==> (m + r)[id] == m[id]) {
      if 1 <= id <= Capacity {
        assert id in r && r[id] == RealisticSpot(id);
      } else {
        assert id !in r;
      }
    }
  }

  /** Laying out the lot a second time changes nothing. */
  lemma LayoutIdempotent(order: seq<SpotId>, spots: map<SpotId, Spot>)
    ensures LaidOutSpots(LaidOutSpots(spots)) == LaidOutSpots(spots)
    ensures LaidOutOrder(LaidOutOrder(order, spots), LaidOutSpots(spots)) == LaidOutOrder(order, spots)
  {
    var m := LaidOutSpots(spots);
    LaidOutSpotsAt(spots);
    RosterOverrideTwice(m);
    NoNewIds(m.Keys, Capacity);
    assert LaidOutOrder(order, spots) + [] == LaidOutOrder(order, spots);
  }

  /** A key order grown in ascending order from nothing: 1..n. */
  lemma {:induction false} FreshIds(n: int)
    requires 0 <= n <= Capacity
    ensures |NewIds({}, n)| == n
    ensures forall k :: 0 <= k < n ==> NewIds({}, n)[k] == k + 1
    decreases n
  {
    if n > 0 {
      FreshIds(n - 1);
    }
  }

  /** One more key of the fresh key order: n itself, after keys 1..n - 1. */
  lemma FreshStep(n: int)
    requires 0 < n <= Capacity
    ensures var o := NewIds({}, n);
      && |o| > 0 && o[..|o| - 1] == NewIds({}, n - 1) && o[|o| - 1] == n
      && n in RosterUpTo(Capacity) && RosterUpTo(Capacity)[n] == RealisticSpot(n)
  {
    var o := NewIds({}, n);
    assert o == NewIds({}, n - 1) + [n];
  }

  /** No spot among the first n keys of the fresh roster is occupied, whatever the type filter. */
  lemma {:induction false} FreshNoneOccupied(n: int, kind: Option<SpotType>)
    requires 0 <= n <= Capacity
    ensures Count(NewIds({}, n), RosterUpTo(Capacity), kind, true) == 0
    decreases n
  {
    if n > 0 {
      FreshNoneOccupied(n - 1, kind);
      FreshStep(n);
    }
  }

  /** The first n keys of the fresh roster hold min(n, 2) handicap spots. */
  lemma {:induction false} FreshHandicap(n: int)
    requires 0 <= n <= Capacity
    ensures Count(NewIds({}, n), RosterUpTo(Capacity), Some(Handicap), false) == if n < 2 then n else 2
    decreases n
  {
    if n > 0 {
      FreshHandicap(n - 1);
      FreshStep(n);
      assert Matches(RosterUpTo(Capacity), n, Some(Handicap), false) <==> n <= 2;
    }
  }

  /** The first n keys of the fresh roster hold max(0, n - 30) premium spots. */
  lemma {:induction false} FreshPremium(n: int)
    requires 0 <= n <= Capacity
    ensures Count(NewIds({}, n), RosterUpTo(Capacity), Some(Premium), false) == if n < 31 then 0 else n - 30
    decreases n
  {
    if n > 0 {
      FreshPremium(n - 1);
      FreshStep(n);
      assert Matches(RosterUpTo(Capacity), n, Some(Premium), false) <==> n >= 31;
    }
  }

  /** The first n keys of the fresh roster hold n - min(n, 2) - max(0, n - 30) standard spots. */
  lemma {:induction false} FreshStandard(n: int)
    requires 0 <= n <= Capacity
    ensures Count(NewIds({}, n), RosterUpTo(Capacity), Some(Standard), false) ==
      n - (if n < 2 then n else 2) - (if n < 31 then 0 else n - 30)
    decreases n
  {
    if n > 0 {
      FreshStandard(n - 1);
      FreshStep(n);
      assert Matches(RosterUpTo(Capacity), n, Some(Standard), false) <==> 2 < n < 31;
    }
  }

  lemma FreshCounts(n: int)
    requires 0 <= n <= Capacity
    ensures var o, s := NewIds({}, n), RosterUpTo(Capacity);
      && Count(o, s, Some(Handicap), false) == (if n < 2 then n else 2)
      && Count(o, s, Some(Premium), false) == (if n < 31 then 0 else n - 30)
      && Count(o, s, Some(Standard), false) == n - (if n < 2 then n else 2) - (if n < 31 then 0 else n - 30)
      && Count(o, s, None, true) == 0
      && Count(o, s, Some(Handicap), true) == 0
      && Count(o, s, Some(Premium), true) == 0
      && Count(o, s, Some(Standard), true) == 0
  {
    FreshHandicap(n);
    FreshPremium(n);
    FreshStandard(n);
    FreshNoneOccupied(n, None);
    FreshNoneOccupied(n, Some(Handicap));
    FreshNoneOccupied(n, Some(Premium));
    FreshNoneOccupied(n, Some(Standard));
  }

  /** The status of the freshly laid-out roster: 32 free spots, 28 standard, 2 handicap, 2 premium. */
  lemma FreshStatus()
    ensures var st := OccupancyStatus(NewIds({}, Capacity), RosterUpTo(Capacity));
      && st.totalSpots == 32 && st.occupiedSpots == 0 && st.availableSpots == 32 && st.occupancyRate == 0.0
      && st.byType == TypeBreakdown(Tally(28, 0), Tally(2, 0), Tally(2, 0))
  {
    var o, s := NewIds({}, Capacity), RosterUpTo(Capacity);
    FreshCounts(Capacity);
    FreshRosterWellFormed();
    RosterSize(o, s);
    assert |s| == 32;
  }

  /** The fresh key order lists exactly the keys of the fresh roster. */
  lemma FreshKeys()
    ensures forall id :: id in RosterUpTo(Capacity) <==> id in NewIds({}, Capacity)
  {
    NewIdsFacts({}, Capacity);
    forall id ensures id in RosterUpTo(Capacity) <==> id in NewIds({}, Capacity) {
      assert id in NewIds({}, Capacity) <==> 1 <= id <= Capacity;
    }
  }

  lemma FreshRosterWellFormed()
    ensures WellFormed(NewIds({}, Capacity), RosterUpTo(Capacity))
    ensures |NewIds({}, Capacity)| == Capacity && Increasing(NewIds({}, Capacity))
    ensures forall k :: 0 <= k < Capacity ==> NewIds({}, Capacity)[k] == k + 1
  {
    var o, s := NewIds({}, Capacity), RosterUpTo(Capacity);
    FreshIds(Capacity);
    AscendingIsDistinct(o);
    FreshKeys();
    forall id | id in s ensures Consistent(s[id]) {
      assert s[id] == RealisticSpot(id);
    }
  }
}
