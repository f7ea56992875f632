# Parking lot occupancy engine

A Dafny model of the occupancy engine of a smart parking system: the spot
registry (`ParkingLayout`), the spot assignment policy
(`SpotAssigner.auto_assign_spot`) and the session history
(`OccupancyTracker`) of `parking_system.py`, together with the parts of the
Streamlit front end `app.py` that act on them: the duplicate-plate check, the
spot colours, the parking fee, the revenue figures, and the order of calls in
the entry and exit flows.

Modules, one per component:

- `Optional`: the `Option` datatype.
- `Spots` (spots.dfy): spot records, the roster invariant
  (`occupied` ⇔ vehicle present ⇔ entry time present), and the registry's
  pure queries: `get_spot_info`, `get_available_spots` and
  `get_occupancy_status`. A Python dict is modelled as a map plus its key
  order (`order`), because `get_available_spots` and app.py's
  `get_all_parked_vehicles` iterate the dict in insertion order. (The
  revenue loops iterate the history list, which is a sequence.)
- `Roster` (roster.dfy): the fixed 4×8 roster that `create_realistic_layout`
  writes. Spots 1–2 are handicap, 31–32 premium and the rest standard.
  Rows 1 and 3 face north and rows 2 and 4 face south.
- `Layout` (layout.dfy): class `ParkingLayout`, whose methods update the
  spot map in place.
- `Assigner` (assigner.dfy): the pure assignment policy `ChooseSpot` and
  class `SpotAssigner`.
- `Tracker` (tracker.dfy): history records, class `OccupancyTracker`, and
  the statistics specification.
- `Fees` (fees.dfy): the fee `max(100, round(hours * 100, 2))` in cents.
- `App` (app.dfy): plates, colours, revenue loops, and the entry and exit
  flows, specified as functions over `LotState` (spots and history).

Time is an integer number of seconds, passed in as `now`. The occupancy rate
and the averages are exact reals. Fees are integer cents. Rounding to two
decimals is rounding to the nearest cent, and it never meets a tie, because
the exact amounts differ from whole cents by thirds (minutes) or ninths
(seconds).

## Model

| member | source | states |
|---|---|---|
| `Spots.OccupyIn` | parking_system.py:109-120 | Occupying spot `id` marks it occupied by the vehicle since `now`, consistently, and keeps its row, position, side and type. No key is added or removed and no other spot changes. |
| `Spots.ReleaseIn` | parking_system.py:122-133 | Releasing spot `id` leaves it free, with no vehicle and no entry time, and keeps its fixture. No key is added or removed and no other spot changes. |
| `Spots.OccupyReleaseRoundTrip` | parking_system.py:109-133 | Releasing a just-occupied free spot restores the map exactly. The occupied record is consistent and keeps row, position, side and type. |
| `Spots.SpotInfo` | parking_system.py:98-100 | Gives the spot's record when the ID is a key, and None otherwise. |
| `Spots.Available` | parking_system.py:102-107 | An ID is listed iff it is a key whose spot is free and, when a type is given, of that type. The list is no longer than the key order. |
| `Spots.AvailableAscending` | parking_system.py:102-107 | If the key order is ascending, so is the list of free spots. |
| `Spots.FirstAvailable` | parking_system.py:102-107 | The head of a non-empty list is the earliest candidate in key order. |
| `Spots.EarliestIsFirst` | parking_system.py:102-107 | The earliest candidate in key order is the head of the list (the converse of the previous row). |
| `Spots.Count` | parking_system.py:137-146 | The count of matching spots is at most the length of the key order. |
| `Spots.CountOccupiedAtMostTotal` | parking_system.py:137-146 | For every type filter, the occupied count is at most the total count, which is at most the number of keys. |
| `Spots.FreeCountIsAvailable` | parking_system.py:137-152 | Total minus occupied equals the length of `get_available_spots()`. |
| `Spots.ListedTypesPartition` | parking_system.py:139-146 | When every spot has one of the three types, the per-type totals and per-type occupied counts sum to the overall ones. |
| `Spots.RateBound` | parking_system.py:152 | The occupancy rate lies between 0 and 100. |
| `Spots.OccupancyStatus` | parking_system.py:135-154 | The total is the size of the dictionary and the occupied count never exceeds the listed keys. Available is total minus occupied. The rate is never negative, and is 0 for an empty lot. |
| `Spots.OccupancyStatusFacts` | parking_system.py:135-154 | On a well-formed map: total is the number of spots; available + occupied = total; available is the length of `get_available_spots()`; the rate is in [0, 100] and is 0 when there are no spots; each type's occupied ≤ its total; when all types are listed, the per-type totals sum to the total and the per-type occupied counts sum to the occupied count. |
| `Roster.RealisticSpot` | parking_system.py:36-90 | The record of key `id` sits in row 1..4 at position 1..8, with `id` = 8·(row−1)+position. It is handicap iff `id` ≤ 2, and premium iff `id` ≥ 31. It is free, with no vehicle and no entry time. |
| `Roster.RowSpot` | parking_system.py:36-90 | The record a row loop writes at column `col`, with `spot_id` 8·(row−1)+col+1 and the type that loop picks, is the realistic record of that key: that row, position col+1, and the row's side. |
| `Roster.NewIdsFacts` | parking_system.py:34-90 | The keys that join the key order are exactly the keys in 1..n not yet present, and they come in ascending order. |
| `Roster.LaidOutSpotsAt` | parking_system.py:34-90 | After layout: keys 1..32 hold free realistic records; other keys are untouched; the key set is the old keys plus 1..32. |
| `Roster.LayStep` | parking_system.py:41-49 | Key n+1 is a key after keys 1..n are written iff it was a key before the layout, so it joins the key order exactly when it was not there. |
| `Roster.OverlayIsUnion` | parking_system.py:34-90 | Writing keys 1..n one at a time, as the loops do, gives the old map overridden by the roster's first n records. |
| `Roster.PartialOrderDistinct` | parking_system.py:34-90 | After keys 1..n are laid out, the key order has no repeats and lists exactly the old keys plus 1..n. |
| `Roster.PartialLayoutWellFormed` | parking_system.py:34-90 | Every intermediate state of the layout, with keys 1..n written, keeps the roster invariant. |
| `Roster.LayoutContents` | parking_system.py:34-90 | Laying out keeps the roster invariant (distinct order listing exactly the keys, every record consistent) and keeps the old order as a prefix. |
| `Roster.LayoutIdempotent` | parking_system.py:34-90 | Laying out a second time changes neither the map nor the key order. |
| `Roster.FreshIds` | parking_system.py:34-90 | From an empty map the key order is 1, 2, …, n. |
| `Roster.FreshCounts` | config.py:21-25 | The first n keys of the fresh roster hold min(n, 2) handicap spots, max(0, n−30) premium spots and the rest standard, none occupied. |
| `Roster.FreshStatus` | test.py:44-50 | The fresh lot's status: 32 spots, 0 occupied, 32 available, rate 0, and 28 standard, 2 handicap, 2 premium. |
| `Roster.FreshRosterWellFormed` | parking_system.py:34-90 | The fresh roster satisfies the invariant, and its key order is 1..32, ascending. |
| `Layout.ParkingLayout.constructor` | parking_system.py:9-32 | Without a configuration file, the layout is the fresh roster, in key order 1..32. |
| `Layout.ParkingLayout.Store` | parking_system.py:41-49 | Dict assignment: the map is updated at one key; a new key joins the end of the order and an existing key keeps its place. |
| `Layout.ParkingLayout.LayNext` | parking_system.py:41-50 | Writing the realistic record under key n+1 takes a layout holding keys 1..n to one holding keys 1..n+1. |
| `Layout.ParkingLayout.LayRow1` | parking_system.py:38-50 | The first loop writes the free realistic records of keys 1..8 (row 1, north, the first two handicap), adding the new keys to the order in ascending order. |
| `Layout.ParkingLayout.LayRow2` | parking_system.py:52-63 | The second loop writes the free realistic records of keys 9..16 (row 2, south, standard), adding the new keys to the order in ascending order. |
| `Layout.ParkingLayout.LayRow3` | parking_system.py:65-76 | The third loop writes the free realistic records of keys 17..24 (row 3, north, standard), adding the new keys to the order in ascending order. |
| `Layout.ParkingLayout.LayRow4` | parking_system.py:78-90 | The fourth loop writes the free realistic records of keys 25..32 (row 4, south, the last two premium), adding the new keys to the order in ascending order. |
| `Layout.ParkingLayout.CreateRealisticLayout` | parking_system.py:34-90 | The four row loops leave the map and order equal to `LaidOutSpots` and `LaidOutOrder` of the old ones, and keep the invariant. |
| `Layout.ParkingLayout.OccupySpot` | parking_system.py:109-120 | Returns true iff the ID is a key whose spot is free. On true, only that spot changes, gaining the vehicle and entry time `now`. On false, nothing changes. |
| `Layout.ParkingLayout.ReleaseSpot` | parking_system.py:122-133 | Returns true iff the ID is a key whose spot is occupied. On true, only that spot's three occupancy fields are cleared. On false, nothing changes. |
| `Assigner.ChooseSpot` | parking_system.py:318-345 | A chosen spot is a listed key whose spot is free. It is a handicap spot when the vehicle has a permit and one is free. Otherwise it is of the preferred type when one of that type is free. |
| `Assigner.ChooseSpotFree` | parking_system.py:318-345 | A chosen spot is a listed key that was free. No spot is chosen iff every listed spot is occupied. |
| `Assigner.HandicapPriority` | parking_system.py:322-331 | A permit holder gets the earliest free handicap spot whenever one exists. |
| `Assigner.PreferredNext` | parking_system.py:319-338 | Without a permit, or with no free handicap spot, the vehicle gets the earliest free spot of its preferred type (standard by default). |
| `Assigner.AnyFallback` | parking_system.py:340-345 | Failing both of the above, the vehicle gets the earliest free spot of any type. |
| `Assigner.FreshPermitChoice` | test.py:141-169 | On the fresh lot a permit holder gets spot 1. |
| `Assigner.FreshStandardChoice` | test.py:77-105 | On the fresh lot a vehicle without a permit that prefers standard gets spot 3. |
| `Assigner.FreshPremiumChoice` | parking_system.py:331-336 | On the fresh lot a vehicle without a permit that prefers premium gets spot 31. |
| `Assigner.SpotAssigner.AutoAssignSpot` | parking_system.py:318-345 | Returns the policy's choice. The chosen spot was free and now holds the vehicle from `now`. With no choice, nothing changes. |
| `Tracker.LastOpen` | parking_system.py:392-397 | Gives the index of the newest open record with this spot and plate, or None iff there is no such record. |
| `Tracker.AfterExit` | parking_system.py:384-397 | `record_exit` keeps the length of the history. A changed record is one of this spot that only gained the exit time `now`. Nothing changes for an unknown spot or a spot without a vehicle. |
| `Tracker.ClosingClosesOne` | parking_system.py:384-397 | At most one record changes, and only by gaining the exit time. It is the newest open record of that spot and plate. The open count drops by one, or the history is unchanged if nothing was open. |
| `Tracker.OccupancyTracker.constructor` | parking_system.py:353-356 | A tracker starts with an empty history, on the given layout. |
| `Tracker.OccupancyTracker.RecordEntry` | parking_system.py:371-382 | Appends exactly one open record carrying the spot's type and entry time. Earlier records are unchanged. |
| `Tracker.OccupancyTracker.RecordExit` | parking_system.py:384-397 | The backward scan yields `AfterExit`: the newest open record of the spot's plate is closed, and nothing changes for an unknown or empty spot. |
| `Tracker.Cutoff` | parking_system.py:403-410 | Only "all time" has no cutoff. The day, week and month cutoffs are exactly 86400, 604800 and 2592000 seconds before `now`. |
| `Tracker.Relevant` | parking_system.py:412-416 | A record is kept iff it is in the history and entered at or after the cutoff. |
| `Tracker.RelevantMultiset` | parking_system.py:412-416 | Each in-window record is kept exactly as many times as the history holds it, and no other record is kept, so `total_vehicles` is the number of in-window entries. |
| `Tracker.WindowsNest` | parking_system.py:403-416 | Every record in the day window is in the week window. Every record in the week window is in the month window. |
| `Tracker.AllTimeKeepsAll` | parking_system.py:409-416 | Any other period keeps the whole history, in order. |
| `Tracker.KindsFacts` | parking_system.py:422-426 | The `by_type` keys are distinct and are exactly the types that occur. |
| `Tracker.Summarize` | parking_system.py:418-453 | `total_vehicles` is the number of records. The average is missing iff no record is closed. `by_type` has one entry per distinct type. |
| `Tracker.StatisticsTotals` | parking_system.py:418-453 | `total_vehicles` is the record count and the per-type counts sum to it; `avg_duration` is None iff no record is closed. |
| `Tracker.StatisticsByType` | parking_system.py:418-453 | Each type of the records appears once in `by_type`, with a positive count, and reports 0 minutes when none of its sessions is closed. |
| `Tracker.Accumulate` | parking_system.py:422-434 | The loop's `by_type` and `durations` equal the per-type counts and closed lengths, with keys in first-appearance order. |
| `Tracker.TypeStats` | parking_system.py:439-445 | Each type's summary has its count and mean closed length, or 0 if no session of that type is closed. |
| `Tracker.OccupancyTracker.GetStatistics` | parking_system.py:399-453 | The result is the summary of the records in the period's window. |
| `Fees.ExitFeeCents` | app.py:1017-1019 | The exit fee is the larger of Ksh. 100 and the rounded per-minute charge: at least both, and equal to one of them. |
| `Fees.SessionFeeCents` | app.py:1216-1219 | The revenue fee is the larger of Ksh. 100 and the rounded per-second charge: at least both, and equal to one of them. |
| `Fees.ExitFeeFloor` | app.py:1017-1019 | The exit fee is at least Ksh. 100, is exactly that for stays of up to 60 minutes (5 minutes, say), and above that is the hourly charge rounded to the cent. |
| `Fees.ExitFeeMonotone` | app.py:1017-1019 | A longer stay never costs less at exit. |
| `Fees.SessionFeeFloor` | app.py:1216-1219 | The revenue fee is at least Ksh. 100, and is exactly that for sessions of up to an hour. |
| `Fees.SessionFeeMonotone` | app.py:1216-1219 | A longer session never adds less revenue. |
| `Fees.MinutesRounding` | app.py:1019 | Rounding the per-minute charge lands within half a cent of the exact amount. |
| `Fees.SecondsRounding` | app.py:1219 | Rounding the per-second charge lands within half a cent of the exact amount. |
| `Fees.MinutesParked` | app.py:453 | The minutes shown have the sign of the length and never exceed it in size. Any length under a minute either way shows 0. |
| `Fees.MinutesParkedBounds` | app.py:453 | The minutes shown are the whole minutes of the stay, truncated toward zero. |
| `Fees.WholeMinutesAgree` | app.py:1018-1019 | For a stay of whole minutes, the exit fee and the revenue fee agree. |
| `Fees.ExitFeeAtMostSessionFee` | app.py:453 | Charging by the truncated minutes never asks more than the revenue figures count for the same stay. |
| `App.UpperIdempotent` | app.py:266-267 | Upper-casing twice is upper-casing once, and keeps the length. |
| `App.ParkedPlates` | app.py:254-262 | The list is no longer than the key order. Each plate is non-empty and already upper case. |
| `App.ParkedPlatesMembers` | app.py:254-262 | A plate is listed iff it is non-empty and is the upper-cased plate of a vehicle on an occupied spot. |
| `App.GetAllParkedVehicles` | app.py:254-262 | The loop returns the parked plates in key order. |
| `App.PlateParkedMeans` | app.py:264-267 | A plate counts as parked iff it is non-empty and, up to case, some occupied spot holds it. The check gives the same answer for a plate and its upper-cased form. |
| `App.IsPlateAlreadyParked` | app.py:264-267 | Returns true iff the upper-cased plate is among the parked plates. |
| `App.SpotColor` | app.py:243-252 | The colour is one of the four palette colours. An occupied spot is red. A free spot of an unlisted type is green. |
| `App.SpotColorMeans` | app.py:243-252 | Red iff occupied, whatever the type. A free spot is sky blue iff handicap, gold iff premium, and green otherwise, which covers standard and any other type. |
| `App.RevenueOf` | app.py:1213-1220 | The revenue is never negative. |
| `App.RevenueFloor` | app.py:1213-1220 | The revenue is at least Ksh. 100 for every closed session. |
| `App.RevenueAppend` | app.py:1213-1220 | The revenue of two histories joined is the sum of their revenues. |
| `App.NoClosedAddsNothing` | app.py:1213-1220 | A history with no closed session of a type (or of any type) earns nothing for it, so open sessions contribute nothing to the total or to any per-type revenue. |
| `App.OpenAddsNothing` | app.py:1213-1220 | A history of open sessions earns nothing. |
| `App.RevenueFacts` | app.py:1213-1220 | Collects the three facts above about the total revenue: at least Ksh. 100 per closed session, additive over concatenated histories, and unchanged by appended open sessions. |
| `App.EstimatedRevenue` | app.py:1213-1220 | The loop's total is the sum of the fees of the closed sessions. |
| `App.PerTypeAddsUp` | app.py:1253-1272 | When all closed sessions are of listed types, the per-type revenue, exits and parked time sum to the totals. |
| `App.FinancialAnalytics` | app.py:1253-1272 | The loop fails (None) iff some closed session is of an unlisted type. Otherwise the per-type revenue, exits and parked time are those of the closed sessions, and the totals are the overall revenue and closed count. |
| `App.Admit` | app.py:816-834 | Admission never reports a missing plate and never adds or removes spots. The history is unchanged unless the vehicle is parked, and then exactly one record is appended. A parked vehicle's spot is now occupied. |
| `App.AdmitFacts` | app.py:816-834 | A parked plate is rejected and nothing changes; that happens iff the plate is parked. Otherwise the chosen free spot is occupied, and a truthy ID gets exactly one open record with the spot's type and the entry time. "No spot" means the lot is full, or the choice was spot 0. A full lot changes nothing. A chosen spot 0 is occupied but gets no history record. |
| `App.SecondEntryRefused` | app.py:816-834 | Once a vehicle is parked, a second entry with the same plate (up to case) is rejected and changes nothing. |
| `App.ManualEntrySpec` | app.py:916-940 | A missing plate is reported iff the plate is empty, and then nothing changes. No spot is added or removed. |
| `App.DetectedEntrySpec` | app.py:814-834 | A recognised plate is never reported missing, and no spot is added or removed. |
| `App.ManualEntryFacts` | app.py:916-940 | An empty manual plate does nothing. A parked plate is rejected iff the plate is non-empty and already parked. |
| `App.EntryKeepsSessions` | parking_system.py:109-120 | Occupying a free spot and recording its entry keeps the lot and the history in agreement. |
| `App.AdmitKeepsSessions` | app.py:816-834 | Every admission keeps the lot and the history in agreement, provided no spot has ID 0. |
| `App.AdmitVehicle` | app.py:818-834 | The duplicate check, then `auto_assign_spot`, then `record_entry` for a truthy spot. The new state is `Admit` of the old one. |
| `App.ManualEntry` | app.py:916-940 | The manual entry button's effect is `ManualEntrySpec`. |
| `App.DetectedEntry` | app.py:814-834 | The confirm-entry button's effect is `DetectedEntrySpec`. |
| `App.ReleaseFirstNeverCloses` | app.py:1036-1039 | With release before `record_exit`, the history never changes. After a vehicle leaves, its open session remains on a spot that is now free, so lot and history disagree. |
| `App.ReleaseThenRecord` | app.py:1036-1039 | After the exit as written, the spots keep their keys, the history keeps its length, and the spot is free. |
| `App.ConfirmExit` | app.py:1036-1039 | The exit button as written: the new state is `ReleaseThenRecord` of the old one. |
| `App.OpenSessionOf` | parking_system.py:384-397 | When lot and history agree, an occupied spot's only open record is the newest open record of its plate. |
| `App.RecordFirstKeepsSessions` | test.py:182-186 | Recording the exit before releasing closes exactly one session of the plate, and keeps lot and history in agreement. Exiting a free or unknown spot changes nothing. |
| `App.CloseKeepsSessions` | parking_system.py:122-133 | Closing a spot's one open session and clearing the spot keeps the lot and the history in agreement. |
| `App.RecordThenRelease` | test.py:182-186 | After the exit in the corrected order, the spots keep their keys, the history keeps its length, and the spot is free. |
| `App.ConfirmExitRecordFirst` | test.py:182-186 | The exit in the corrected order: the new state is `RecordThenRelease` of the old one. |

## Left out

- JSON persistence is left out, because it is file I/O. Writing
  (`save_config`, `save_history`) has no effect in the model. The model's
  constructors are the "no file yet" path of loading: the fresh roster, and
  an empty history. A loaded configuration and the old-format fallback
  (parking_system.py:26-29) are not modelled.
- `ParkingVisualizer`, the module-level singleton instances, the Streamlit
  pages, charts and exports, the CSV parking records
  (`ParkingManager.add_parking_record`), plate recognition
  (read_plate_number.py), startup.py and config.py's constant getters are all
  left out, because they are drawing, UI, foreign library code or static
  data.
- `datetime.now()` is the integer parameter `now`, so the model does no ISO
  string formatting or parsing. An entry reads the clock twice, for the
  vehicle record's `entry_time` and for `occupy_spot`; the model uses one
  value for both. Session lengths are whole seconds, not fractional ones.
- Floating point is left out. The occupancy rate and the averages are exact
  reals. Fees are exact cents without binary rounding artefacts.
- `App.Upper` upper-cases ASCII letters only, not Python's full Unicode
  `str.upper()`.
- Vehicle records are values. In the source, the spot and the history entry
  share one dict. Nothing mutates that dict after entry, so the model never
  observes the sharing.
- A vehicle record always has a plate. The `.get('license_plate', '')`
  default and an empty vehicle dict are not modelled.
- Spot types are strings in the source. The model has Standard, Handicap and
  Premium, and `Other(name)` for anything else. Any period other than day,
  week and month is `AllTime`.
- `Tracker.OccupancyTracker.RecordEntry` requires the spot to exist. The
  source raises an error on an unknown spot.
- `Tracker.OccupancyTracker.GetStatistics` requires every record to have an
  entry time. `App.EstimatedRevenue` and `App.FinancialAnalytics` require it
  of every closed record. The source raises an error when it parses a missing
  time.
- `App.FinancialAnalytics` keeps the per-type parked time in seconds, where
  the source keeps float hours. The missing-key error for an unlisted type is
  the result None.
- `Tracker.Relevant` states which records are kept, and `Tracker.RelevantMultiset`
  states how many times each is kept, but neither states that they keep
  their history order; the order comes from the body, which walks the
  history front to back.
- The entry flows treat the returned spot ID as the source does: `if
  spot_id:`, so a spot with ID 0 would be occupied without a history record.
  No layout the model builds has a spot 0. `App.AdmitKeepsSessions` assumes
  there is none.

## Findings

| source | as written | input that shows it | evidently intended | confidence | as-written member | corrected member |
|---|---|---|---|---|---|---|
| app.py:1036-1039 | The exit button calls `release_spot` and then `record_exit`. By then the spot has no vehicle record, so `record_exit` finds nothing and the session is never closed. | Enter plate ABC123 on the fresh lot (spot 3), then confirm its exit. The history keeps ABC123's record with no exit time, and spot 3 is free. | Record the exit first, then release the spot, as test.py:185-186 does. The session gets its exit time, and lot and history stay in agreement. | high; not executed | `App.ReleaseFirstNeverCloses` | `App.RecordFirstKeepsSessions` |
