/** Assembly of the reconstructed data points into remote-write time series:
    for every data point, road and cohort, one `cars_on_road` series and one
    `road_traffic_total` series, each carrying a single sample. Encoding and
    compression of the resulting request are not part of this model. */
module SeriesAssembly {
  import opened Cohorts
  import opened BackfillWindow
  import opened BackfillReconstructor

  datatype Label = Label(name: string, value: string)
  datatype Sample = Sample(value: real, timestamp: int)
  datatype TimeSeries = TimeSeries(labels: seq<Label>, samples: seq<Sample>)

  const CarsOnRoad := "cars_on_road"
  const RoadTrafficTotal := "road_traffic_total"

  function SeriesLabels(metric: string, road: string, c: Cohort): seq<Label>
  {
    [Label("__name__", metric), Label("road", road), Label("color", ColorOf(c)), Label("maker", MakerOf(c))]
  }

  function GaugeSeries(timestamp: int, rd: RoadData, c: Cohort): TimeSeries
    requires WellShaped(rd)
  {
    TimeSeries(SeriesLabels(CarsOnRoad, rd.road, c), [Sample(rd.cars[c], timestamp)])
  }

  function CounterSeries(timestamp: int, rd: RoadData, c: Cohort): TimeSeries
    requires WellShaped(rd)
  {
    TimeSeries(SeriesLabels(RoadTrafficTotal, rd.road, c), [Sample(rd.totals[c], timestamp)])
  }

  /** Label sets identify series: two label sets are equal exactly when
      metric, road and cohort are. */
  lemma SeriesLabelsInjective(metric1: string, road1: string, c1: Cohort,
                              metric2: string, road2: string, c2: Cohort)
    ensures SeriesLabels(metric1, road1, c1) == SeriesLabels(metric2, road2, c2)
        <==> metric1 == metric2 && road1 == road2 && c1 == c2
  {
    if SeriesLabels(metric1, road1, c1) == SeriesLabels(metric2, road2, c2) {
      assert SeriesLabels(metric1, road1, c1)[2] == SeriesLabels(metric2, road2, c2)[2];
      assert SeriesLabels(metric1, road1, c1)[3] == SeriesLabels(metric2, road2, c2)[3];
      CohortLabelsInjective(c1, c2);
    }
  }

  /** A gauge series and a counter series never share labels, and two
      series of the same metric share labels exactly when their road and
      cohort are the same: each (metric, road, cohort) is its own series,
      whatever the timestamp and values. */
  lemma SeriesIdentity(t1: int, rd1: RoadData, c1: Cohort, t2: int, rd2: RoadData, c2: Cohort)
    requires WellShaped(rd1) && WellShaped(rd2)
    ensures GaugeSeries(t1, rd1, c1).labels != CounterSeries(t2, rd2, c2).labels
    ensures GaugeSeries(t1, rd1, c1).labels == GaugeSeries(t2, rd2, c2).labels
        <==> rd1.road == rd2.road && c1 == c2
    ensures CounterSeries(t1, rd1, c1).labels == CounterSeries(t2, rd2, c2).labels
        <==> rd1.road == rd2.road && c1 == c2
  {
    assert |CarsOnRoad| != |RoadTrafficTotal|;
    SeriesLabelsInjective(CarsOnRoad, rd1.road, c1, RoadTrafficTotal, rd2.road, c2);
    SeriesLabelsInjective(CarsOnRoad, rd1.road, c1, CarsOnRoad, rd2.road, c2);
    SeriesLabelsInjective(RoadTrafficTotal, rd1.road, c1, RoadTrafficTotal, rd2.road, c2);
  }

  /** A series with exactly one sample, taken at `timestamp`. */
  predicate SingleSampleAt(s: TimeSeries, timestamp: int)
  {
    |s.samples| == 1 && s.samples[0].timestamp == timestamp
  }

  /** The series of cohorts 0 .. n-1 of one road, gauge before counter. */
  function RoadSeries(timestamp: int, rd: RoadData, n: nat): (r: seq<TimeSeries>)
    requires WellShaped(rd) && n <= NumCohorts
    ensures |r| == 2 * n
  {
    if n == 0 then []
    else RoadSeries(timestamp, rd, n - 1) + [GaugeSeries(timestamp, rd, n - 1), CounterSeries(timestamp, rd, n - 1)]
  }

  /** Each of a road's series has one sample at the data point's timestamp,
      and each of its cohorts has both its gauge and its counter series. */
  lemma {:induction false} RoadSeriesShape(timestamp: int, rd: RoadData, n: nat)
    requires WellShaped(rd) && n <= NumCohorts
    ensures forall s :: s in RoadSeries(timestamp, rd, n) ==> SingleSampleAt(s, timestamp)
    ensures forall c :: 0 <= c < n ==>
      GaugeSeries(timestamp, rd, c) in RoadSeries(timestamp, rd, n) &&
      CounterSeries(timestamp, rd, c) in RoadSeries(timestamp, rd, n)
  {
    if n > 0 {
      var init := RoadSeries(timestamp, rd, n - 1);
      var last := [GaugeSeries(timestamp, rd, n - 1), CounterSeries(timestamp, rd, n - 1)];
      assert RoadSeries(timestamp, rd, n) == init + last;
      RoadSeriesShape(timestamp, rd, n - 1);
      assert forall s :: s in init + last <==> s in init || s in last;
      forall c | 0 <= c < n
        ensures GaugeSeries(timestamp, rd, c) in init + last && CounterSeries(timestamp, rd, c) in init + last
      {
        if c < n - 1 {
          assert GaugeSeries(timestamp, rd, c) in init && CounterSeries(timestamp, rd, c) in init;
        } else {
          assert last[0] == GaugeSeries(timestamp, rd, c) && last[1] == CounterSeries(timestamp, rd, c);
        }
      }
    }
  }

  predicate AllWellShaped(dp: DataPoint)
  {
    forall i :: 0 <= i < |dp.roadData| ==> WellShaped(dp.roadData[i])
  }

  /** The series of roads 0 .. n-1 of one data point. */
  function PointSeries(dp: DataPoint, n: nat): (r: seq<TimeSeries>)
    requires AllWellShaped(dp) && n <= |dp.roadData|
    ensures |r| == 2 * NumCohorts * n
  {
    if n == 0 then []
    else PointSeries(dp, n - 1) + RoadSeries(dp.timestamp, dp.roadData[n - 1], NumCohorts)
  }

  lemma {:induction false} PointSeriesShape(dp: DataPoint, n: nat)
    requires AllWellShaped(dp) && n <= |dp.roadData|
    ensures forall s :: s in PointSeries(dp, n) ==> SingleSampleAt(s, dp.timestamp)
    ensures forall i, c :: 0 <= i < n && 0 <= c < NumCohorts ==>
      GaugeSeries(dp.timestamp, dp.roadData[i], c) in PointSeries(dp, n) &&
      CounterSeries(dp.timestamp, dp.roadData[i], c) in PointSeries(dp, n)
  {
    if n > 0 {
      PointSeriesShape(dp, n - 1);
      RoadSeriesShape(dp.timestamp, dp.roadData[n - 1], NumCohorts);
    }
  }

  predicate AllShaped(dps: seq<DataPoint>)
  {
    forall k :: 0 <= k < |dps| ==> AllWellShaped(dps[k])
  }

  /** Data points shaped after `roads` are well shaped throughout. */
  lemma ShapedAllShaped(dps: seq<DataPoint>, roads: seq<string>)
    requires Shaped(dps, roads)
    ensures AllShaped(dps) && forall k :: 0 <= k < |dps| ==> |dps[k].roadData| == |roads|
  {
    forall k | 0 <= k < |dps|
      ensures AllWellShaped(dps[k])
    {
      assert |dps[k].roadData| == |roads|;
    }
  }

  /** All series of all data points, in data-point order. */
  function AllSeries(dps: seq<DataPoint>): seq<TimeSeries>
    requires AllShaped(dps)
  {
    if dps == [] then []
    else AllSeries(dps[..|dps| - 1]) + PointSeries(dps[|dps| - 1], |dps[|dps| - 1].roadData|)
  }

  /** The series of consecutive runs of data points follow one another:
      the output keeps the data-point order. */
  lemma {:induction false} AllSeriesAppend(a: seq<DataPoint>, b: seq<DataPoint>)
    requires AllShaped(a) && AllShaped(b)
    ensures AllShaped(a + b)
    ensures AllSeries(a + b) == AllSeries(a) + AllSeries(b)
  {
    forall k | 0 <= k < |a + b|
      ensures AllWellShaped((a + b)[k])
    {
      if k < |a| {
        assert (a + b)[k] == a[k];
      } else {
        assert (a + b)[k] == b[k - |a|];
      }
    }
    if b == [] {
      assert a + b == a;
    } else {
      var b' := b[..|b| - 1];
      var last := b[|b| - 1];
      assert (a + b)[..|a + b| - 1] == a + b';
      assert (a + b)[|a + b| - 1] == last;
      assert AllShaped(b');
      AllSeriesAppend(a, b');
      var tail := PointSeries(last, |last.roadData|);
      assert AllSeries(a + b) == AllSeries(a + b') + tail;
      assert AllSeries(b) == AllSeries(b') + tail;
    }
  }

  /** With R roads in every data point there are 2 * 25 * R series per data
      point. */
  lemma {:induction false} AllSeriesCount(dps: seq<DataPoint>, roadCount: nat)
    requires AllShaped(dps)
    requires forall k :: 0 <= k < |dps| ==> |dps[k].roadData| == roadCount
    ensures |AllSeries(dps)| == 2 * NumCohorts * roadCount * |dps|
  {
    if dps != [] {
      var n := |dps| - 1;
      var perPoint := 2 * NumCohorts * roadCount;
      AllSeriesCount(dps[..n], roadCount);
      assert |AllSeries(dps)| == |AllSeries(dps[..n])| + |PointSeries(dps[n], roadCount)|;
      assert perPoint * n + perPoint == perPoint * (n + 1);
    }
  }

  /** Every series carries exactly one sample, and its timestamp is that of
      a data point: when all data points lie in [lo, hi), so do all samples. */
  lemma {:induction false} AllSeriesSamples(dps: seq<DataPoint>, lo: int, hi: int)
    requires AllShaped(dps)
    requires forall k :: 0 <= k < |dps| ==> lo <= dps[k].timestamp < hi
    ensures forall s :: s in AllSeries(dps) ==> |s.samples| == 1 && lo <= s.samples[0].timestamp < hi
  {
    if dps != [] {
      var n := |dps| - 1;
      AllSeriesSamples(dps[..n], lo, hi);
      PointSeriesShape(dps[n], |dps[n].roadData|);
    }
  }

  /** Every (data point, road, cohort) has both its gauge and its counter
      series. */
  lemma {:induction false} AllSeriesComplete(dps: seq<DataPoint>)
    requires AllShaped(dps)
    ensures forall k, i, c :: 0 <= k < |dps| && 0 <= i < |dps[k].roadData| && 0 <= c < NumCohorts ==>
      && GaugeSeries(dps[k].timestamp, dps[k].roadData[i], c) in AllSeries(dps)
      && CounterSeries(dps[k].timestamp, dps[k].roadData[i], c) in AllSeries(dps)
  {
    if dps != [] {
      var n := |dps| - 1;
      var init := dps[..n];
      var last := PointSeries(dps[n], |dps[n].roadData|);
      assert AllSeries(dps) == AllSeries(init) + last;
      AllSeriesComplete(init);
      PointSeriesShape(dps[n], |dps[n].roadData|);
      forall k, i, c | 0 <= k < |dps| && 0 <= i < |dps[k].roadData| && 0 <= c < NumCohorts
        ensures GaugeSeries(dps[k].timestamp, dps[k].roadData[i], c) in AllSeries(init) + last
        ensures CounterSeries(dps[k].timestamp, dps[k].roadData[i], c) in AllSeries(init) + last
      {
        if k < n {
          assert init[k] == dps[k];
          assert GaugeSeries(dps[k].timestamp, dps[k].roadData[i], c) in AllSeries(init);
          assert CounterSeries(dps[k].timestamp, dps[k].roadData[i], c) in AllSeries(init);
        } else {
          assert GaugeSeries(dps[k].timestamp, dps[k].roadData[i], c) in last;
          assert CounterSeries(dps[k].timestamp, dps[k].roadData[i], c) in last;
        }
      }
    }
  }

  /** Builds the series list by appending, data point by data point, road by
      road, cohort by cohort. */
  method Assemble(dataPoints: seq<DataPoint>) returns (timeseries: seq<TimeSeries>)
    requires AllShaped(dataPoints)
    ensures timeseries == AllSeries(dataPoints)
  {
    timeseries := [];
    var k := 0;
    while k < |dataPoints|
      invariant 0 <= k <= |dataPoints|
      invariant timeseries == AllSeries(dataPoints[..k])
    {
      var dp := dataPoints[k];
      ghost var before := timeseries;
      var i := 0;
      while i < |dp.roadData|
        invariant 0 <= i <= |dp.roadData|
        invariant timeseries == before + PointSeries(dp, i)
      {
        var roadData := dp.roadData[i];
        ghost var beforeRoad := timeseries;
        var c := 0;
        while c < NumCohorts
          invariant 0 <= c <= NumCohorts
          invariant timeseries == beforeRoad + RoadSeries(dp.timestamp, roadData, c)
        {
          timeseries := timeseries + [GaugeSeries(dp.timestamp, roadData, c)];
          timeseries := timeseries + [CounterSeries(dp.timestamp, roadData, c)];
          c := c + 1;
        }
        i := i + 1;
      }
      assert dataPoints[..k + 1][..k] == dataPoints[..k];
      k := k + 1;
    }
    assert dataPoints[..|dataPoints|] == dataPoints;
  }

  /** The series of the reconstructed window: 2 * 25 series per road and
      window timestamp, each holding exactly one sample inside the window. */
  lemma ReconstructionSeries(nowMs: int, roads: seq<string>, draws: nat -> real)
    requires forall i: nat :: 0.0 <= draws(i) < 1.0
    ensures var dps := Reconstruction(nowMs, roads, draws);
      && AllShaped(dps)
      && |AllSeries(dps)| == 2 * NumCohorts * |roads| * 11
      && forall s :: s in AllSeries(dps) ==>
           |s.samples| == 1 && WindowEnd(nowMs) - WindowMs <= s.samples[0].timestamp < WindowEnd(nowMs)
  {
    ReconstructionBounds(nowMs, roads, draws);
    WindowSeries(Reconstruction(nowMs, roads, draws), roads, WindowEnd(nowMs) - WindowMs, WindowEnd(nowMs));
  }

  /** The series of data points shaped after `roads` with timestamps in
      [lo, hi): 2 * 25 per road and data point, one sample each, in [lo, hi). */
  lemma WindowSeries(dps: seq<DataPoint>, roads: seq<string>, lo: int, hi: int)
    requires Shaped(dps, roads)
    requires forall k :: 0 <= k < |dps| ==> lo <= dps[k].timestamp < hi
    ensures AllShaped(dps)
    ensures |AllSeries(dps)| == 2 * NumCohorts * |roads| * |dps|
    ensures forall s :: s in AllSeries(dps) ==> |s.samples| == 1 && lo <= s.samples[0].timestamp < hi
  {
    ShapedAllShaped(dps, roads);
    AllSeriesCount(dps, |roads|);
    AllSeriesSamples(dps, lo, hi);
  }

  /** The whole backfill up to the encoder: the series of the reconstructed
      data points, 2 * 25 per road and window timestamp, each holding exactly
      one sample inside the window. */
  method BackfillSeries(nowMs: int, roads: seq<string>, draws: nat -> real)
    returns (timeseries: seq<TimeSeries>)
    requires forall i: nat :: 0.0 <= draws(i) < 1.0
    ensures AllShaped(Reconstruction(nowMs, roads, draws))
         && timeseries == AllSeries(Reconstruction(nowMs, roads, draws))
    ensures |timeseries| == 2 * NumCohorts * |roads| * 11
    ensures forall s :: s in timeseries ==>
      && |s.samples| == 1
      && WindowEnd(nowMs) - WindowMs <= s.samples[0].timestamp < WindowEnd(nowMs)
  {
    var startMs, endMs, dataPoints := Backfill(nowMs, roads, draws);
    ReconstructionSeries(nowMs, roads, draws);
    timeseries := Assemble(dataPoints);
  }
}
