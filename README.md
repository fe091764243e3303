# Road traffic exporter — a Dafny model of its simulation core

The road traffic exporter synthesises car-traffic metrics for a fixed set of
named roads. Each road has an occupancy (`currentCars`, a real number) and four
rate parameters (entry rate, exit rate, capacity, minimum delay). Live entry
and exit workers move the occupancy up and down one car at a time. A
pattern-set command (`night`, `rush_hour`, anything else meaning normal)
swaps the rate parameters and snaps the occupancy down to a target. A
backfill command reconstructs a 55-minute history of per-cohort occupancy
gauges and cumulative entry counters, one sample every five minutes, for
bulk ingestion. A cohort is a (color, maker) pair, 5 × 5 of them.

This project models that core in Dafny 4.11:

- `cohorts.dfy` (`Cohorts`): the 25 cohorts, numbered `colorIndex * 5 + makerIndex`.
  The entry worker draws one color and one maker at random; the backfill walks
  colors in its outer loop and makers in its inner loop, which is this order.
- `road.dfy` (`RoadState`): the `Road` class with its defaults, the delay
  formula, and one cycle of an entry worker and of an exit worker as methods
  that update the road in place.
- `rate_controller.dfy` (`RateController`): the preset table, the target
  occupancy, the snap-down, and `SetRate` on a registry of roads, including
  the not-found reply.
- `backfill_window.dfy` (`BackfillWindow`): the window arithmetic on Unix
  milliseconds, the UTC hour of day, and the regime table (base rate, travel time).
- `backfill.dfy` (`BackfillReconstructor`): entry records, the expiry filter,
  per-cohort re-summing, the arrivals of one step, and the full reconstruction
  loop over timestamps and roads with its shared totals.
- `series.dfy` (`SeriesAssembly`): the flattening of data points into one
  `cars_on_road` and one `road_traffic_total` series per (timestamp, road,
  cohort), each with exactly one sample.

Randomness and the clock are inputs. The delay draw is an integer in
[0, 1000). The cohort draws are indices in [0, 5). The backfill's uniform draws
are a function `draws: nat -> real` with values in [0, 1). They are read in
the source's call order: timestamp, then road, then color, then maker. The
current time is a Unix millisecond count. `Backfill` returns exactly
`Reconstruction(nowMs, roads, draws)`, a function of its inputs, so the same
clock, road list and draws always give the same data points, and
`BackfillSeries` returns exactly the series of those data points.

The model follows the code on four points that are easy to misread:

- The night target is 2.5 cars. It is 5% of the capacity the night preset
  has just stored (50, main.go:156-159), not of the road's previous capacity.
- Occupancy is not always non-negative. The exit guard tests `> 0`. After a
  night snap to 2.5, three exits lead to -0.5 (`NightSnapThenExits`,
  `ExitCanGoNegative`). Non-negativity holds only while the occupancy is a
  whole number (`ExitKeepsWholeNonNegative`).
- The cumulative totals of the backfill are keyed by color and maker only
  (main.go:208, 342-343), not by road, so all roads add to the same 25 totals.
  The model does the same. `Backfill` proves that totals strictly increase
  along the processing order, across roads as well as across timestamps.
- An entry is dropped exactly at its cutoff, because the source keeps only
  entries strictly after `t - travelTime`.

## Model

| member | source | states |
|---|---|---|
| `Cohorts.CohortOf` | cmd/road_traffic_exporter/main.go:78-91 | the cohort drawn from a color index and a maker index gives back both indices (one cohort per pair) |
| `Cohorts.CohortRoundTrip` | cmd/road_traffic_exporter/main.go:209-217 | every cohort is the cohort of its own color index and maker index |
| `Cohorts.CohortLabels` | cmd/road_traffic_exporter/main.go:90-91 | the cohort of a drawn color and maker carries exactly that color and that maker as labels |
| `Cohorts.CohortLabelsInjective` | cmd/road_traffic_exporter/main.go:209-217 | two cohorts with the same color and the same maker are the same cohort, so `color/maker` keys and cohorts correspond one to one |
| `RoadState.Road.constructor` | cmd/road_traffic_exporter/main.go:51-70 | a new road has zero occupancy, entry rate 1, exit rate 1, capacity 100, min delay 500, zero entry counters and no pattern reported |
| `RoadState.Delay` | cmd/road_traffic_exporter/main.go:82-83 | the sleep is the min delay plus the integer quotient of the draw by the rate, i.e. the largest q with q·rate ≤ draw; it lies in [minDelay, minDelay + 1000) |
| `RoadState.DelayAntitone` | cmd/road_traffic_exporter/main.go:82-83 | for the same draw a higher rate never gives a longer delay |
| `RoadState.AfterEntry` | cmd/road_traffic_exporter/main.go:85-94 | occupancy grows exactly when it is strictly below capacity, and then by exactly one car |
| `RoadState.AfterExit` | cmd/road_traffic_exporter/main.go:110-116 | occupancy shrinks exactly when it is strictly positive, and then by exactly one car |
| `RoadState.Road.EntryCycle` | cmd/road_traffic_exporter/main.go:81-99 | delay from the entry rate; if occupancy < capacity, occupancy +1 and exactly the drawn cohort's counter +1, otherwise nothing changes; rates, capacity, min delay and pattern unchanged |
| `RoadState.Road.ExitCycle` | cmd/road_traffic_exporter/main.go:106-119 | delay from the exit rate; occupancy −1 if it is > 0, otherwise unchanged; counters, rates and pattern unchanged |
| `RoadState.EntryKeepsWholeWithinCapacity` | cmd/road_traffic_exporter/main.go:85-94 | a whole-numbered occupancy within capacity stays whole and within capacity after an entry cycle |
| `RoadState.EntryCanOvershootCapacity` | cmd/road_traffic_exporter/main.go:86-94 | entry does not keep occupancy ≤ capacity in general: 49.5 with capacity 50 becomes 50.5 |
| `RoadState.ExitKeepsWholeNonNegative` | cmd/road_traffic_exporter/main.go:110-116 | a non-negative whole occupancy stays a non-negative whole number after an exit cycle |
| `RoadState.ExitCanGoNegative` | cmd/road_traffic_exporter/main.go:110-116 | from occupancy 0.5 the exit guard lets occupancy reach −0.5 |
| `RateController.PresetFor` | cmd/road_traffic_exporter/main.go:145-167 | pattern code 3 exactly for `rush_hour`, 1 exactly for `night`, 2 for every other name; rates ≥ 1, positive capacity and delay, fraction strictly between 0 and 1 |
| `RateController.Target` | cmd/road_traffic_exporter/main.go:152-166 | the target is positive and strictly below the newly stored capacity |
| `RateController.TargetValues` | cmd/road_traffic_exporter/main.go:145-166 | the targets are exactly 120 (rush hour), 2.5 (night) and 40 (normal) |
| `RateController.Rebalanced` | cmd/road_traffic_exporter/main.go:169-176 | after rebalancing the occupancy is at most both its old value and the target, and equals one of them |
| `RateController.RebalancedIsMin` | cmd/road_traffic_exporter/main.go:169-176 | rebalancing yields min(occupancy, target): exactly the target from above, unchanged at or below it; applying it twice equals once |
| `RateController.NightSnapThenExits` | cmd/road_traffic_exporter/main.go:153-176 | 40 cars under the night pattern snap to 2.5, and three exit cycles then give −0.5 |
| `RateController.Registry.SetRate` | cmd/road_traffic_exporter/main.go:125-179 | unknown road: 404 reply `Road <name> not found` and no road changes; known road: the preset's four parameters and pattern code stored, occupancy rebalanced to the new target, 200 reply, every other road unchanged |
| `BackfillWindow.WindowEnd` | cmd/road_traffic_exporter/main.go:189 | the end is a whole minute and the largest one at or before now − 1 minute |
| `BackfillWindow.Timestamps` | cmd/road_traffic_exporter/main.go:196-200 | the k-th timestamp is start + k·5 min, all are before the end, and the next step would reach the end |
| `BackfillWindow.WindowTimes` | cmd/road_traffic_exporter/main.go:189-200 | the window always has exactly 11 timestamps |
| `BackfillWindow.Window` | cmd/road_traffic_exporter/main.go:189-200 | start = end − 55 min and exactly 11 strictly increasing timestamps, all in [start, end) with end < now; they are the window's timestamps |
| `BackfillWindow.WindowAtNoon` | cmd/road_traffic_exporter/main.go:189-190 | at 2024-01-01T12:00:00Z the window ends at 11:59:00Z and starts at 11:04:00Z |
| `BackfillWindow.HourOfDay` | cmd/road_traffic_exporter/main.go:266 | the UTC hour is in 0..23 and is the hour whose span of the day holds the timestamp |
| `BackfillWindow.RegimeAt` | cmd/road_traffic_exporter/main.go:289-306 | hours 7–9 and 16–18: base rate 4.0 and 40 min; hours 23–4: 0.5 and 10 min; every other hour: 2.0 and 25 min |
| `BackfillWindow.RegimeOrdering` | cmd/road_traffic_exporter/main.go:219-306 | travel time orders the regimes exactly as the base rate does, and every base rate is positive |
| `BackfillWindow.Cutoff` | cmd/road_traffic_exporter/main.go:309 | the cutoff never lies after the step, and lies strictly before it exactly when the travel time is positive |
| `BackfillWindow.CutoffRange` | cmd/road_traffic_exporter/main.go:293-309 | in every regime the cutoff lies between 40 and 10 minutes before the step |
| `BackfillReconstructor.Unexpired` | cmd/road_traffic_exporter/main.go:322-329 | expiry never adds entries |
| `BackfillReconstructor.UnexpiredMembers` | cmd/road_traffic_exporter/main.go:322-329 | an entry is kept exactly when it was recorded and its time is strictly after the cutoff |
| `BackfillReconstructor.UnexpiredAppend` | cmd/road_traffic_exporter/main.go:322-330 | expiry distributes over concatenation, so kept entries keep their relative order |
| `BackfillReconstructor.UnexpiredTwice` | cmd/road_traffic_exporter/main.go:309-330 | expiring at one cutoff and then at another equals expiring once at the later cutoff: expired entries never come back |
| `BackfillReconstructor.CohortSumPositive` | cmd/road_traffic_exporter/main.go:317-328 | with positive counts a cohort's re-summed occupancy is non-negative, and positive exactly when an entry of that cohort is present |
| `BackfillReconstructor.CohortSumAppend` | cmd/road_traffic_exporter/main.go:323-328 | a cohort's sum over two runs of entries is the sum of the two sums |
| `BackfillReconstructor.CohortSumUnexpired` | cmd/road_traffic_exporter/main.go:317-329 | with positive counts, expiry lowers a cohort's sum but never below zero |
| `BackfillReconstructor.Entering` | cmd/road_traffic_exporter/main.go:337 | with a positive base rate and u in [0,1), the entering quantity lies in [baseRate/2, 3·baseRate/2), so it is positive |
| `BackfillReconstructor.Arrivals` | cmd/road_traffic_exporter/main.go:345-351 | one step appends 25 records |
| `BackfillReconstructor.ArrivalsStamped` | cmd/road_traffic_exporter/main.go:332-351 | every appended record is stamped with the step's timestamp and carries its own cohort's entering quantity |
| `BackfillReconstructor.Expire` | cmd/road_traffic_exporter/main.go:317-330 | the kept entries are the unexpired ones in order, and each cohort's occupancy, re-summed from zero, is the sum of its kept counts |
| `BackfillReconstructor.Arrive` | cmd/road_traffic_exporter/main.go:332-353 | each cohort's occupancy and shared total grow by its entering quantity, the 25 records are appended, and occupancy stays the per-cohort sum of the recent entries |
| `BackfillReconstructor.NextRecentMeaning` | cmd/road_traffic_exporter/main.go:309-353 | after a step a cohort's occupancy is its unexpired sum plus what entered; every recent entry is an unexpired old one or one stamped now, and none is a travel time old |
| `BackfillReconstructor.StepBounds` | cmd/road_traffic_exporter/main.go:317-343 | with draws in [0,1) and positive counts, counts stay positive, every shared total strictly increases, and occupancy is positive and grows by no more than the total |
| `BackfillReconstructor.StepRoad` | cmd/road_traffic_exporter/main.go:288-353 | recent entries become the unexpired ones plus the arrivals; occupancy is the kept counts plus entering, and the sum over the new entries; totals grow by entering; no entry is a travel time old |
| `BackfillReconstructor.StampSteps` | cmd/road_traffic_exporter/main.go:278-354 | after n roads of one timestamp: n road data, 25 draws used per road, and the shared totals are those the last road reported |
| `BackfillReconstructor.StepTimestamp` | cmd/road_traffic_exporter/main.go:277-355 | the loop over roads equals StampSteps; road i kept its unexpired entries and added arrivals from draws 25·i past the cursor, and its totals grew from those the road before it left |
| `BackfillReconstructor.ReplayCursor` | cmd/road_traffic_exporter/main.go:265-355 | after k timestamps the reconstruction has used 25·|roads|·k draws |
| `BackfillReconstructor.ReplayPointMeaning` | cmd/road_traffic_exporter/main.go:265-358 | for any timestamps, road i's cohort c at the k-th one: occupancy is the unexpired sum plus entering and the sum over the unexpired entries, none a travel time old; the total is the previous one plus entering |
| `BackfillReconstructor.ReplayTimestamps` | cmd/road_traffic_exporter/main.go:265-358 | the loop over timestamps builds exactly the reference reconstruction, starting from no entries and zero totals |
| `BackfillReconstructor.ReconstructionBounds` | cmd/road_traffic_exporter/main.go:181-358 | 11 data points at start + k·5 min before the end, one road data per road in order; 0 < occupancy ≤ total; totals strictly increase along timestamps and roads for every cohort |
| `BackfillReconstructor.ReconstructionPoint` | cmd/road_traffic_exporter/main.go:265-358 | the sample of road i, cohort c at the k-th window timestamp: occupancy = unexpired sum + baseRate·(0.5 + draw 25·(R·k + i) + c), also the sum over entries none of which is a travel time old; total = the previous road's (or timestamp's) total + that quantity |
| `BackfillReconstructor.Backfill` | cmd/road_traffic_exporter/main.go:181-358 | the window and exactly the reconstruction of its inputs (so the same inputs give the same output), with 11 data points at start + k·5 min, 0 < occupancy ≤ total, and totals strictly increasing along timestamps and roads |
| `SeriesAssembly.SeriesLabelsInjective` | cmd/road_traffic_exporter/main.go:367-391 | two label sets are equal exactly when metric, road and cohort are |
| `SeriesAssembly.SeriesIdentity` | cmd/road_traffic_exporter/main.go:367-391 | a gauge series and a counter series never share labels, and two series of one metric share labels exactly when road and cohort agree |
| `SeriesAssembly.RoadSeries` | cmd/road_traffic_exporter/main.go:363-392 | one road yields two series per cohort |
| `SeriesAssembly.RoadSeriesShape` | cmd/road_traffic_exporter/main.go:363-392 | each of a road's series has one sample at the data point's timestamp, and each cohort has its gauge and counter series |
| `SeriesAssembly.PointSeries` | cmd/road_traffic_exporter/main.go:362-393 | one data point yields 50 series per road |
| `SeriesAssembly.PointSeriesShape` | cmd/road_traffic_exporter/main.go:362-393 | a data point's series each have one sample at its timestamp and cover every road and cohort with both metrics |
| `SeriesAssembly.AllSeriesAppend` | cmd/road_traffic_exporter/main.go:361-395 | the series of two runs of data points follow one another, so the output keeps the data-point order |
| `SeriesAssembly.AllSeriesCount` | cmd/road_traffic_exporter/main.go:361-395 | with R roads there are 2·25·R series per data point |
| `SeriesAssembly.AllSeriesSamples` | cmd/road_traffic_exporter/main.go:361-395 | every series holds exactly one sample, timestamped within the data points' range |
| `SeriesAssembly.AllSeriesComplete` | cmd/road_traffic_exporter/main.go:361-395 | every (data point, road, cohort) has both its `cars_on_road` series with the occupancy and its `road_traffic_total` series with the total |
| `SeriesAssembly.Assemble` | cmd/road_traffic_exporter/main.go:360-395 | the appending loops build exactly the series list defined by data point, road and cohort order |
| `SeriesAssembly.WindowSeries` | cmd/road_traffic_exporter/main.go:361-395 | data points shaped after R roads in [lo, hi) give 2·25·R series per data point, each with one sample in [lo, hi) |
| `SeriesAssembly.ReconstructionSeries` | cmd/road_traffic_exporter/main.go:181-395 | the reconstructed window gives 2·25·R·11 series, each with one sample inside [start, end) |
| `SeriesAssembly.BackfillSeries` | cmd/road_traffic_exporter/main.go:181-400 | the series are exactly those of the reconstructed data points; with R roads there are 2·25·R·11 of them, each with one sample inside [start, end) |

## Left out

- Concurrency. The model leaves out the goroutines, the endless `for` loops,
  `time.Sleep`, the mutexes and the atomic loads and stores. One method call
  is one worker cycle. So the model does not capture the stale occupancy
  snapshot in `setRate` or the gap between the guard and the update in the
  entry worker. Both only matter under interleaving.
- Metric objects. `carCounter` is the ghost per-road `entered` sequence.
  `trafficPattern` is the ghost `pattern` field, where 0 means no pattern
  has been set yet. The `carsOnRoad` gauge is not modelled. After every
  update the source sets it to `currentCars`.
- HTTP handling. The query parameters arrive as plain strings; a missing one is the
  empty string, which selects the normal preset like any other name.
  Response headers, `ServeFile`, `ListenAndServe` and all logging are out.
  `SetRate` returns the status code and body text instead of writing them.
- Encoding. `proto.Marshal`, `snappy.Encode` and the write to the client are
  foreign library calls. So is the internal-error reply on a marshal
  failure. The model stops at the list of time series.
- `math/rand` and `time.Now`. Both are parameters. `now` is in whole milliseconds.
  Its sub-millisecond part cannot change a time truncated to the minute.
- Floating point. Occupancies, counts and totals are `real`. The snap
  `x - (x - target)` is exact in reals. It is exact in binary floating point
  for the small whole and half values that occur.
- Integer width. Rates, delays and timestamps are unbounded integers. The
  source's int64 values stay far from overflow.
- Go map iteration order. Roads are a `seq` processed in the same order at
  every timestamp and in the series output. The source may pick a new order
  for each timestamp and again for the output. Because the totals are
  shared, the values depend on that order.
- Map representation. The source keys its per-cohort maps by `color/maker`
  strings and its per-road maps by road name. The model indexes both by
  position. The nested color and maker loops are one loop over the 25
  cohorts in the same order.
- Start-up. `main`'s road list, creating the registry and starting the workers
  are not modelled.
