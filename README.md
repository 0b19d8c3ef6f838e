# Explorer decision core

A Dafny model of the per-tick decision engine of the ballsbot `Explorer`
(`lib/ballsbot/ai/explorer.py`). The explorer is a small lidar car that
wanders autonomously. On each tick of its `run` loop it either holds the
current command or plans a new one. To plan, it:

0. first checks two gates that come before any scanning: after a brake it
   repeats the brake while the car still moves against it, and otherwise
   stops; after a full throttle that has left the car standing for more
   than three ticks (jammed) it stops for four ticks;
1. otherwise filters the lidar returns down to the obstacle points that matter (the
   ellipse-like range cutoff, then the exclusion of the turn columns and of
   the car's own body);
2. scans those points once for each of ten movement sectors (straight, full
   turn or slight turn, each forward and backward), giving a
   `(possible, clearance)` pair per sector;
3. brakes when the heading of the previous full throttle is blocked, stops
   when every sector is blocked, and otherwise adjusts the occupancy-grid
   weights of the sectors and picks the heaviest open sector, or the roomiest
   one when no weight is positive;
4. turns a direct reversal of a full-throttle command into a brake.

Modules, in the order of the program:

- `Seqs`: Python's `list(filter(...))` and the subsequence relation.
- `Params`: the class constants of `Explorer`.
- `Geometry`: points, the body rectangle, and the turn columns of `_get_columns`.
- `ObstacleFilter`: `_ellipse_like_range_filter` and `not_in_columns_and_a_car`.
- `Sectors`: the ten sector keys and the commands.
- `Analyzer`: the `_filter_*` turn filters and the ten per-sector
  `_can_move_*` scans, whose loops sit in four methods: the two straight
  scans and `_can_move_some_forward/backward`. Each scan is a declarative verdict function plus a loop method, with the
  early return, that is proved equal to it.
- `Selector`: the gates after the scans, the in-place weight adjustment, the
  arg-max, the fallback and the brake substitution.
- `Planner`: `_get_next_move` and the `run` loop. The loop is a class
  `Explorer` with the loop variables as fields and a `Tick` method for one
  iteration.

Distances are compared on squares (`distance(c, p) < r` becomes
`|c - p|² < r²`), which is exact because every radius is a positive
constant. π is the decimal value of Python's `math.pi`.

## Model

| member | source | states |
|---|---|---|
| Seqs.Filter | lib/ballsbot/ai/explorer.py:141 | the filtered list is no longer than its input and holds exactly the input elements that pass the predicate |
| Seqs.FilterCounts | lib/ballsbot/ai/explorer.py:141 | the filtered list holds each passing element exactly as often as the input does, and no other element |
| Seqs.FilterKeepsOrder | lib/ballsbot/ai/explorer.py:141 | the filtered list is a subsequence of its input, in the same order |
| Geometry.ColumnsClearOfAxis | lib/ballsbot/ai/explorer.py:315-317 | the column radius is positive and below the turn diameter, so each column disc lies strictly on its own side of the x axis |
| Geometry.InsideDiscBand | lib/ballsbot/ai/explorer.py:333 | a point strictly inside a disc is within the radius of the centre along y |
| ObstacleFilter.WrapAngle | lib/ballsbot/ai/explorer.py:356 | `angle % (2π)` lies in [0, 2π) and differs from the angle by a whole number of turns |
| ObstacleFilter.WrapAngleUnique | lib/ballsbot/ai/explorer.py:356 | the wrapped angle is the only value in [0, 2π) a whole number of turns from the angle |
| ObstacleFilter.FoldAngle | lib/ballsbot/ai/explorer.py:365-368 | folding through the rear half and the left/right symmetry gives an angle in [0, π/2] |
| ObstacleFilter.LidarOffset | lib/ballsbot/ai/explorer.py:360-363 | the lidar-to-centre offset counts only outside [π/2, 3π/2]; what it does to the limit is stated by FrontGainsLidarOffset |
| ObstacleFilter.FrontGainsLidarOffset | lib/ballsbot/ai/explorer.py:358-372 | a return from the front half reaches further than its rear mirror image by FROM_LIDAR_TO_CENTER times its angle from side-on |
| ObstacleFilter.RangeLimit | lib/ballsbot/ai/explorer.py:354-372 | the cutoff distance is at least CHECK_RADIUS + FEAR_DISTANCE and below the radius the lidar is asked for |
| ObstacleFilter.FetchRadiusNeverDecides | lib/ballsbot/ai/explorer.py:320-323 | every kept return is within the fetch radius, and every return nearer than CHECK_RADIUS + FEAR_DISTANCE is kept |
| ObstacleFilter.RangeCutoffSymmetric | lib/ballsbot/ai/explorer.py:354-372 | returns at θ and at 2π − θ get the same verdict |
| ObstacleFilter.RangeCutoffPeriodic | lib/ballsbot/ai/explorer.py:356 | angles a whole turn apart get the same verdict |
| ObstacleFilter.RangeLimitWidestSideOn | lib/ballsbot/ai/explorer.py:361-372 | the limit grows from straight ahead to side-on and shrinks from side-on to straight behind |
| ObstacleFilter.WithinEllipse | lib/ballsbot/ai/explorer.py:370-372 | the strict cutoff below the limit; its meaning is stated by FetchRadiusNeverDecides, RangeCutoffSymmetric, RangeCutoffPeriodic and WithinRange |
| ObstacleFilter.WithinRange | lib/ballsbot/ai/explorer.py:325 | the cutoff keeps exactly the returns strictly inside the limit, as a subsequence of the input |
| ObstacleFilter.NotInColumnsAndCar | lib/ballsbot/ai/explorer.py:330-350 | the column test chosen by the sign of y, then the body test; its meaning is stated by ExclusionZones |
| ObstacleFilter.ExclusionZones | lib/ballsbot/ai/explorer.py:330-350 | a point is dropped exactly when it is in the shrunk body (bounds included), in either column disc, or in a column's band beyond its centre; points on the x axis meet only the body test |
| ObstacleFilter.ExcludeColumnsAndCar | lib/ballsbot/ai/explorer.py:352 | the exclusion keeps exactly the points passing `not_in_columns_and_a_car`, as a subsequence of its input |
| ObstacleFilter.NearbyPoints | lib/ballsbot/ai/explorer.py:319-352 | a point is nearby exactly when it passes the exclusion and is the position of some return inside the range cutoff |
| Sectors.SteeringOf | lib/ballsbot/ai/explorer.py:29-32 | every steering level is within [−1, 1] and is 0 only for the straight sectors |
| Sectors.SectorTableDistinct | lib/ballsbot/ai/explorer.py:246-257 | the `can_move` table lists no sector twice |
| Sectors.SectorTableComplete | lib/ballsbot/ai/explorer.py:246-257 | the `can_move` table lists every sector |
| Analyzer.StopDistanceAt | lib/ballsbot/ai/explorer.py:378-383 | the stopping distance is at least STOP_DISTANCE, with equality exactly at speeds up to 0.5 |
| Analyzer.StopDistanceMonotone | lib/ballsbot/ai/explorer.py:378-383 | a faster car never gets a shorter stopping distance |
| Analyzer.AheadVerdictMeaning | lib/ballsbot/ai/explorer.py:108-116 | a forward scan is blocked exactly when a relevant point is nearer than the stop line, with clearance 0; otherwise the clearance is the least x of the relevant points, or the far edge |
| Analyzer.BehindVerdictMeaning | lib/ballsbot/ai/explorer.py:125-132 | a backward scan is blocked exactly when a relevant point is beyond the stop line, with clearance 0; otherwise the clearance is minus the greatest x, or minus the far edge |
| Analyzer.AheadScanIsVerdict | lib/ballsbot/ai/explorer.py:108-116 | the scan in list order reaches the order-free forward verdict on the points its window keeps |
| Analyzer.BehindScanIsVerdict | lib/ballsbot/ai/explorer.py:125-132 | the scan in list order reaches the order-free backward verdict on the points its window keeps |
| Analyzer.AheadScanStaysBlocked | lib/ballsbot/ai/explorer.py:112-113 | once a forward scan is blocked, the later points do not change the result, so the early return is sound |
| Analyzer.BehindScanStaysBlocked | lib/ballsbot/ai/explorer.py:129-130 | once a backward scan is blocked, the later points do not change the result |
| Analyzer.StraightForward | lib/ballsbot/ai/explorer.py:100-115 | the straight-forward verdict; its meaning is stated by StraightForwardMeaning |
| Analyzer.StraightBackward | lib/ballsbot/ai/explorer.py:117-132 | the straight-backward verdict; its meaning is stated by StraightBackwardMeaning |
| Analyzer.StraightForwardMeaning | lib/ballsbot/ai/explorer.py:100-115 | straight forward is blocked exactly when a point in the lateral band and the forward window is nearer than the stop line; otherwise the clearance is at most the front edge plus CHECK_RADIUS, at most every windowed x, and equal to one of them or to that edge |
| Analyzer.StraightBackwardMeaning | lib/ballsbot/ai/explorer.py:117-132 | straight backward is the mirror image: blocked by a windowed point beyond the stop line, otherwise minus the greatest windowed x, or minus the far rear edge |
| Analyzer.TurnPoints | lib/ballsbot/ai/explorer.py:134-172 | each turn filter keeps exactly the points strictly inside its disc (full turns) or strictly between its radii (slight turns), as a subsequence |
| Analyzer.TurnRadiiPositive | lib/ballsbot/ai/explorer.py:134-172 | the turn radii are positive and the inner radius is below the outer one |
| Analyzer.TurnForward | lib/ballsbot/ai/explorer.py:174-200 | the verdict of a forward turn on its filtered points; its meaning is stated by TurnForwardMeaning |
| Analyzer.TurnBackward | lib/ballsbot/ai/explorer.py:202-228 | the verdict of a backward turn on its filtered points; its meaning is stated by TurnBackwardMeaning |
| Analyzer.TurnForwardMeaning | lib/ballsbot/ai/explorer.py:174-200 | a forward turn ignores the lateral band: it is blocked exactly when a point on the turn's path lies between the front edge (less INNER_OFFSET) and the stop line; otherwise the clearance is at most the far edge and at most every such x, and equals one of them or that edge |
| Analyzer.TurnBackwardMeaning | lib/ballsbot/ai/explorer.py:202-228 | a backward turn is blocked exactly when a point on the turn's path lies between the stop line and the rear edge (plus INNER_OFFSET); otherwise minus the clearance is at least the far rear edge and every such x, and equals one of them or that edge |
| Analyzer.SectorVerdict | lib/ballsbot/ai/explorer.py:246-257 | the verdict of the scan entered under each key; its meaning is stated by CanMove, SectorVerdictOnlyMembers and ClearFieldAllOpen |
| Analyzer.CanMove | lib/ballsbot/ai/explorer.py:246-257 | the `can_move` table has an entry for every sector, holding that sector's verdict |
| Analyzer.CanMoveIgnoresOrder | lib/ballsbot/ai/explorer.py:100-228 | the verdicts and clearances of all ten sectors do not depend on the order of the points |
| Analyzer.SectorVerdictOnlyMembers | lib/ballsbot/ai/explorer.py:100-228 | one sector's verdict depends only on which points are present |
| Analyzer.ClearFieldAllOpen | lib/ballsbot/ai/explorer.py:100-228 | with no points every sector is open, and its clearance is the far edge of its window: the front edge plus CHECK_RADIUS forward, CHECK_RADIUS minus the rear edge backward |
| Analyzer.ScanStraightForward | lib/ballsbot/ai/explorer.py:100-115 | the loop with its early return computes the straight-forward verdict |
| Analyzer.ScanStraightBackward | lib/ballsbot/ai/explorer.py:117-132 | the loop with its early return computes the straight-backward verdict |
| Analyzer.ScanSomeForward | lib/ballsbot/ai/explorer.py:174-188 | the loop over filtered points computes the forward verdict on the points beyond the front edge |
| Analyzer.ScanSomeBackward | lib/ballsbot/ai/explorer.py:202-216 | the loop over filtered points computes the backward verdict on the points before the rear edge |
| Analyzer.ScanTurnForward | lib/ballsbot/ai/explorer.py:190-200 | each forward turn scan filters for its turn and then scans, giving that turn's verdict |
| Analyzer.ScanTurnBackward | lib/ballsbot/ai/explorer.py:218-228 | each backward turn scan filters for its turn and then scans, giving that turn's verdict |
| Analyzer.ScanAll | lib/ballsbot/ai/explorer.py:246-257 | the ten scans, entered under their keys, build the `can_move` table |
| Selector.AdjustedWeightPositive | lib/ballsbot/ai/explorer.py:270-282 | a sector keeps a positive weight exactly when it is open and its grid weight is positive; blocked sectors get 0 |
| Selector.AdjustedWeightPlain | lib/ballsbot/ai/explorer.py:270-280 | an open sector with at least half a metre of clearance that does not keep the previous full-throttle heading keeps its grid weight unchanged |
| Selector.AdjustedWeightKeepsHeading | lib/ballsbot/ai/explorer.py:277-280 | an open sector on the heading of the previous full-throttle command gets four times the weight of one that is not |
| Selector.AdjustedWeightCrowded | lib/ballsbot/ai/explorer.py:275-276 | an open sector with less than half a metre of clearance gets half the weight it would get with more room |
| Selector.AdjustedWeight | lib/ballsbot/ai/explorer.py:270-280 | one sector's adjusted weight; its meaning is stated by AdjustedWeightPositive, AdjustedWeightPlain, AdjustedWeightKeepsHeading and AdjustedWeightCrowded |
| Selector.AdjustedWeights | lib/ballsbot/ai/explorer.py:270-280 | the adjusted weight table has an entry for every sector |
| Selector.AdjustWeights | lib/ballsbot/ai/explorer.py:270-280 | the loop updating the weights in place ends with every sector's adjusted weight |
| Selector.LastMax | lib/ballsbot/ai/explorer.py:297-303 | `sorted(...)[-1]` picks an item with the greatest key, and every later item has a strictly smaller key (the sort is stable) |
| Selector.LastMaxUnique | lib/ballsbot/ai/explorer.py:297-303 | only one position has both properties |
| Selector.Positive | lib/ballsbot/ai/explorer.py:282 | the kept weights are exactly those above 0 |
| Selector.Heaviest | lib/ballsbot/ai/explorer.py:283-285 | the pick has a positive weight and no sector weighs more |
| Selector.PreferredHeading | lib/ballsbot/ai/explorer.py:288-291 | the fallback prefers backward exactly after a full-throttle backward command |
| Selector.OpenSectors | lib/ballsbot/ai/explorer.py:295-296 | the list holds exactly the open sectors |
| Selector.OpenToward | lib/ballsbot/ai/explorer.py:293 | the list holds exactly the open sectors of the heading |
| Selector.FallbackPool | lib/ballsbot/ai/explorer.py:288-296 | the list the fallback sorts; its meaning is stated by FallbackPoolMembers |
| Selector.FallbackPoolMembers | lib/ballsbot/ai/explorer.py:293-296 | when something is open, the fallback pool is non-empty and holds exactly the open sectors of the preferred heading, or every open sector if that heading has none |
| Selector.MostRoom | lib/ballsbot/ai/explorer.py:297-303 | the pick is in the pool and no pool member has more clearance, or as much clearance and straighter steering; a full tie goes to the later pool entry |
| Selector.Roomiest | lib/ballsbot/ai/explorer.py:286-303 | the fallback pick is in the pool and is maximal by (clearance, −\|steering\|); every later pool entry ranks strictly lower, so a full tie goes to the later entry |
| Selector.ChooseSector | lib/ballsbot/ai/explorer.py:282-303 | the chosen sector; its meaning is stated by ChosenIsOpen, ChosenIsHeaviest and FallbackChoice |
| Selector.ChosenIsOpen | lib/ballsbot/ai/explorer.py:270-303 | the chosen sector is always one the scans found open |
| Selector.ChosenIsHeaviest | lib/ballsbot/ai/explorer.py:282-285 | when some open sector has a positive weight, the choice carries the greatest adjusted weight |
| Selector.FallbackChoice | lib/ballsbot/ai/explorer.py:286-303 | when no open sector has a positive grid weight, the choice is open, is on the preferred heading whenever that heading has an open sector, and has the most room of its heading's open sectors, with the straightest steering among those with as much |
| Selector.SectorCommand | lib/ballsbot/ai/explorer.py:305-313 | the command steers as its sector does |
| Selector.SectorCommandThrottle | lib/ballsbot/ai/explorer.py:305-313 | after full forward the throttle is full forward or the forward brake, after full backward it is full backward or the backward brake, otherwise it is the sector's full throttle; a brake appears exactly for a reversal |
| Selector.Select | lib/ballsbot/ai/explorer.py:258-313 | the command after the scans; its meaning is stated by the Select lemmas below |
| Selector.SelectBrakesWhenBlocked | lib/ballsbot/ai/explorer.py:258-263 | driving at full throttle into a heading with no open sector brakes, with the previous steering |
| Selector.SelectBrakesOnlyToReverse | lib/ballsbot/ai/explorer.py:305-313 | while the previous heading is open, a brake replaces a reversal toward an open sector of the other heading and has that sector's steering |
| Selector.SelectStopsOnlyWhenBlocked | lib/ballsbot/ai/explorer.py:258-265 | the result is a stop exactly when every sector is blocked and the previous command was not a full throttle |
| Selector.SelectThrottleTransitions | lib/ballsbot/ai/explorer.py:258-313 | the throttle never flips between full forward and full backward in one decision |
| Selector.SelectDrivesOpenSector | lib/ballsbot/ai/explorer.py:270-313 | a full-throttle command drives into an open sector of its heading, with that sector's steering |
| Selector.SelectCanonical | lib/ballsbot/ai/explorer.py:258-313 | every command uses the fixed steering and throttle levels |
| Planner.BrakeUntilStill | lib/ballsbot/ai/explorer.py:232-237 | after a brake, the brake is repeated for one tick while the car still moves against it, and otherwise the car stops for one tick |
| Planner.JamStops | lib/ballsbot/ai/explorer.py:238-240 | a full throttle held more than three ticks with the car not moving gives a stop for four ticks |
| Planner.NextMove | lib/ballsbot/ai/explorer.py:230-313 | the plan of `_get_next_move`; its meaning is stated by BrakeUntilStill, JamStops, NextMoveHold, NextMoveThrottleTransitions and NextMoveCanonical |
| Planner.NextMoveHold | lib/ballsbot/ai/explorer.py:230-313 | every plan is held for one tick, except the four-tick stop of a jam |
| Planner.NextMoveThrottleTransitions | lib/ballsbot/ai/explorer.py:230-313 | the throttle moves only along the brake cycle: full throttle, then its brake or a stop, and a full throttle only after a stop |
| Planner.NextMoveCanonical | lib/ballsbot/ai/explorer.py:230-313 | a command planned from fixed levels uses fixed levels |
| Planner.Step | lib/ballsbot/ai/explorer.py:76-98 | one iteration of `run`; its meaning is stated by StepKeepsInv, HeldPlan, JamStopHeld and FullThrottleOnlyFromStandstill |
| Planner.Run | lib/ballsbot/ai/explorer.py:75-98 | the iterations of `run` over a finite sequence of inputs; its meaning is stated by RunKeepsInv |
| Planner.StepKeepsInv | lib/ballsbot/ai/explorer.py:75-98 | one tick keeps the command on the fixed levels and the ticks left between 0 and 3 |
| Planner.RunKeepsInv | lib/ballsbot/ai/explorer.py:75-98 | any number of ticks keeps that invariant |
| Planner.HeldPlan | lib/ballsbot/ai/explorer.py:78-98 | while a plan has ticks left, the inputs are not consulted: the command stays, the ticks left go down by one per tick and the repeat count goes up by one |
| Planner.JamStopHeld | lib/ballsbot/ai/explorer.py:78-81 | a jam stop is applied on the tick that decides it and on the three ticks after |
| Planner.FullThrottleOnlyFromStandstill | lib/ballsbot/ai/explorer.py:75-98 | a tick switches to a full throttle only from a standstill command |
| Planner.Explorer.constructor | lib/ballsbot/ai/explorer.py:71-74 | the loop starts stopped, with no plan and no repeats |
| Planner.Explorer.NextMoveOf | lib/ballsbot/ai/explorer.py:230-313 | the imperative `_get_next_move` (scans, in-place weight loop, arg-max or fallback) returns the plan `NextMove` specifies |
| Planner.Explorer.Tick | lib/ballsbot/ai/explorer.py:76-98 | one iteration replans when the plan has run out, counts the tick, and updates the repeat count, keeping the invariant |
| Planner.Explorer.RunTicks | lib/ballsbot/ai/explorer.py:75-98 | running the loop over a finite sequence of ticks reaches the state `Run` specifies and keeps the invariant |

## Left out

- Sensor acquisition is left out, because it is foreign and trig-based. Each reading comes in as its polar `(angle, distance)` pair together with its cartesian position, in vehicle coordinates. This covers `get_radial_lidar_points`, `radial_points_to_cartesian` and `calibration_to_xywh`. The body rectangle `BODY_POSITION` is a parameter.
- The lidar's own radius cut at the fetch radius is not applied separately. The ellipse-like limit is always below that radius (`FetchRadiusNeverDecides`), so applying it would change nothing.
- The occupancy grid is left out, because it is native code. The weights of `get_directions_weights` are an input map with an entry for exactly the ten sectors and no other key: the update at lines 270-280 reads and writes the key of every open sector it halves or quadruples (a missing one would raise `KeyError`), an open sector missing from the map and left alone would simply take no part in the arg-max, and the arg-max at lines 282-285 would otherwise be able to pick a key that is not a sector. `update_grid` and the pose are not modelled.
- The grid's dict order is unknown, so ties in the arg-max follow the order of the `can_move` table. `Heaviest` only promises a maximal weight, not which of several equal sectors wins.
- Odometry, the IMU and the tracker threads are left out; their outputs are inputs. The direction sign is `motion`. The speed is read once per tick and shared by the ten scans, whereas the source reads it again inside each `_get_stop_distance`.
- Side effects are left out: `keep_rps` pacing, `print`, the actuator calls of `_follow_direction`, the `track_info` log and its JSON export, and the `cached_*` fields.
- The `while True` loop is modelled as `Tick` (one iteration) and `RunTicks` over a finite sequence of inputs.
- Floating point is modelled as exact reals, with no rounding. `distance` (a square root) is replaced by comparisons of squares.
- The dead branch `if angle < 0: angle = -angle` of the range cutoff is not modelled. Python's `%` by a positive modulus never yields a negative angle.
- The straight scans test the lateral band and a two-sided window. The turn scans have no band test and a one-sided window: x beyond the front edge less INNER_OFFSET forward (line 183), x before the rear edge plus INNER_OFFSET backward (line 211). Inclusive and strict bounds follow the code.
- The range cutoff is widest side-on, because HALF_CAR_WIDTH (0.09) exceeds FROM_LIDAR_TO_CENTER (0.07) (`RangeLimitWidestSideOn`).
- With uniform positive weights, no previous full-throttle command and an empty field around a body whose empty-field clearances are all at least half a metre, every sector gets the same adjusted weight, and the arg-max takes the last of them in the grid's dict order. Since that order is not modelled, no particular sector is claimed for this case.
