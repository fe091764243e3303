/** The backfill reconstruction: for every window timestamp and every road,
    expire the road's recent entries, re-sum them per cohort, let a new
    quantity of each cohort enter, and record the occupancy and the running
    total. Totals are keyed by cohort only, so all roads share them. */
module BackfillReconstructor {
  import opened Cohorts
  import opened BackfillWindow

  /** A quantity of one cohort that entered a road at `time`. */
  datatype Entry = Entry(time: int, cohort: Cohort, count: real)

  /** The entries strictly after the cutoff, in their original order. */
  function Unexpired(entries: seq<Entry>, cutoff: int): (kept: seq<Entry>)
    ensures |kept| <= |entries|
  {
    if entries == [] then []
    else
      var last := entries[|entries| - 1];
      var rest := Unexpired(entries[..|entries| - 1], cutoff);
      if last.time > cutoff then rest + [last] else rest
  }

  /** An entry is kept exactly when it was recorded and its time is
      strictly after the cutoff. */
  lemma {:induction false} UnexpiredMembers(entries: seq<Entry>, cutoff: int)
    ensures forall e :: e in Unexpired(entries, cutoff) <==> e in entries && e.time > cutoff
  {
    if entries != [] {
      var init := entries[..|entries| - 1];
      var last := entries[|entries| - 1];
      UnexpiredMembers(init, cutoff);
      assert entries == init + [last];
    }
  }

  /** Expiry distributes over concatenation: kept entries keep their
      relative order. */
  lemma {:induction false} UnexpiredAppend(a: seq<Entry>, b: seq<Entry>, cutoff: int)
    ensures Unexpired(a + b, cutoff) == Unexpired(a, cutoff) + Unexpired(b, cutoff)
  {
    if b == [] {
      assert a + b == a;
    } else {
      var b' := b[..|b| - 1];
      assert (a + b)[..|a + b| - 1] == a + b';
      UnexpiredAppend(a, b', cutoff);
    }
  }

  function Max(a: int, b: int): int { if a >= b then a else b }

  /** Expiring twice is expiring once at the later cutoff: an entry that has
      expired never comes back, even when a later step's travel time is
      longer. */
  lemma {:induction false} UnexpiredTwice(s: seq<Entry>, cut1: int, cut2: int)
    ensures Unexpired(Unexpired(s, cut1), cut2) == Unexpired(s, Max(cut1, cut2))
  {
    if s != [] {
      var s' := s[..|s| - 1];
      var last := s[|s| - 1];
      UnexpiredTwice(s', cut1, cut2);
      if last.time > cut1 {
        UnexpiredAppend(Unexpired(s', cut1), [last], cut2);
      }
    }
  }

  /** Sum of the counts of one cohort's entries. */
  function CohortSum(entries: seq<Entry>, c: Cohort): real
  {
    if entries == [] then 0.0
    else
      var last := entries[|entries| - 1];
      CohortSum(entries[..|entries| - 1], c) + (if last.cohort == c then last.count else 0.0)
  }

  predicate AllPositive(entries: seq<Entry>)
  {
    forall e :: e in entries ==> e.count > 0.0
  }

  /** With positive counts a cohort's sum is positive exactly when one of
      its entries is present, and zero otherwise. */
  lemma {:induction false} CohortSumPositive(entries: seq<Entry>, c: Cohort)
    requires AllPositive(entries)
    ensures 0.0 <= CohortSum(entries, c)
    ensures 0.0 < CohortSum(entries, c) <==> exists e :: e in entries && e.cohort == c
  {
    if entries != [] {
      var init := entries[..|entries| - 1];
      var last := entries[|entries| - 1];
      assert AllPositive(init) by {
        forall e | e in init ensures e.count > 0.0 { assert e in entries; }
      }
      CohortSumPositive(init, c);
      assert entries == init + [last];
      if exists e :: e in entries && e.cohort == c {
        var e :| e in entries && e.cohort == c;
        if e != last {
          assert e in init;
        }
      }
    }
  }

  lemma {:induction false} CohortSumAppend(a: seq<Entry>, b: seq<Entry>, c: Cohort)
    ensures CohortSum(a + b, c) == CohortSum(a, c) + CohortSum(b, c)
  {
    if b == [] {
      assert a + b == a;
    } else {
      var b' := b[..|b| - 1];
      assert (a + b)[..|a + b| - 1] == a + b';
      CohortSumAppend(a, b', c);
    }
  }

  /** With positive counts, expiry can only lower a cohort's sum, and never
      below zero. */
  lemma {:induction false} CohortSumUnexpired(s: seq<Entry>, cutoff: int, c: Cohort)
    requires AllPositive(s)
    ensures 0.0 <= CohortSum(Unexpired(s, cutoff), c) <= CohortSum(s, c)
  {
    if s != [] {
      var s' := s[..|s| - 1];
      var last := s[|s| - 1];
      assert AllPositive(s') by {
        forall e | e in s' ensures e.count > 0.0 { assert e in s; }
      }
      CohortSumUnexpired(s', cutoff, c);
      if last.time > cutoff {
        CohortSumAppend(Unexpired(s', cutoff), [last], c);
        assert CohortSum([last], c) == (if last.cohort == c then last.count else 0.0) by {
          assert [last][..0] == [];
        }
      }
    }
  }

  /** The quantity of a cohort entering at one step: the regime's base rate
      scaled by a uniform draw in [0.5, 1.5). */
  function Entering(baseRate: real, u: real): (x: real)
    ensures baseRate > 0.0 && 0.0 <= u < 1.0 ==> baseRate / 2.0 <= x < 3.0 * baseRate / 2.0
  {
    baseRate * (0.5 + u)
  }

  predicate IsDrawTable(us: seq<real>)
  {
    |us| == NumCohorts && forall c :: 0 <= c < |us| ==> 0.0 <= us[c] < 1.0
  }

  /** The 25 entry records one step appends, in cohort order. */
  function Arrivals(t: int, baseRate: real, us: seq<real>): (a: seq<Entry>)
    requires |us| == NumCohorts
    ensures |a| == NumCohorts
  {
    seq(NumCohorts, c requires 0 <= c < NumCohorts => Entry(t, c, Entering(baseRate, us[c])))
  }

  /** Each arrival is stamped with the step's timestamp and carries its own
      cohort's entering quantity. */
  lemma ArrivalsStamped(t: int, baseRate: real, us: seq<real>)
    requires |us| == NumCohorts
    ensures forall e :: e in Arrivals(t, baseRate, us) ==>
      e.time == t && e.count == Entering(baseRate, us[e.cohort])
  {
  }

  /** Filters the recent entries by the cutoff and re-sums the kept ones per
      cohort, starting from zero. */
  method Expire(recent: seq<Entry>, cutoff: int) returns (kept: seq<Entry>, cars: seq<real>)
    ensures kept == Unexpired(recent, cutoff)
    ensures IsCohortTable(cars)
    ensures forall c :: 0 <= c < NumCohorts ==> cars[c] == CohortSum(kept, c)
  {
    kept := [];
    cars := ZeroTable();
    var i := 0;
    while i < |recent|
      invariant 0 <= i <= |recent|
      invariant kept == Unexpired(recent[..i], cutoff)
      invariant IsCohortTable(cars)
      invariant forall c :: 0 <= c < NumCohorts ==> cars[c] == CohortSum(kept, c)
    {
      var entry := recent[i];
      assert recent[..i + 1][..i] == recent[..i];
      if entry.time > cutoff {
        assert (kept + [entry])[..|kept|] == kept;
        kept := kept + [entry];
        cars := cars[entry.cohort := cars[entry.cohort] + entry.count];
      }
      i := i + 1;
    }
    assert recent[..|recent|] == recent;
  }

  /** Lets each cohort enter, in cohort order: the occupancy and the shared
      total of the cohort grow by the entering quantity, and one entry
      record per cohort is appended. The occupancy stays the per-cohort sum
      of the recent entries. */
  method Arrive(t: int, baseRate: real, us: seq<real>, recent: seq<Entry>,
                cars: seq<real>, totals: seq<real>)
    returns (recent': seq<Entry>, cars': seq<real>, totals': seq<real>)
    requires |us| == NumCohorts && IsCohortTable(cars) && IsCohortTable(totals)
    requires forall c :: 0 <= c < NumCohorts ==> cars[c] == CohortSum(recent, c)
    ensures recent' == recent + Arrivals(t, baseRate, us)
    ensures IsCohortTable(cars') && IsCohortTable(totals')
    ensures forall c :: 0 <= c < NumCohorts ==> cars'[c] == cars[c] + Entering(baseRate, us[c])
    ensures forall c :: 0 <= c < NumCohorts ==> totals'[c] == totals[c] + Entering(baseRate, us[c])
    ensures forall c :: 0 <= c < NumCohorts ==> cars'[c] == CohortSum(recent', c)
  {
    recent', cars', totals' := recent, cars, totals;
    ghost var arrivals := Arrivals(t, baseRate, us);
    var c := 0;
    while c < NumCohorts
      invariant 0 <= c <= NumCohorts
      invariant recent' == recent + arrivals[..c]
      invariant IsCohortTable(cars') && IsCohortTable(totals')
      invariant forall j :: 0 <= j < c ==> cars'[j] == cars[j] + Entering(baseRate, us[j])
      invariant forall j :: c <= j < NumCohorts ==> cars'[j] == cars[j]
      invariant forall j :: 0 <= j < c ==> totals'[j] == totals[j] + Entering(baseRate, us[j])
      invariant forall j :: c <= j < NumCohorts ==> totals'[j] == totals[j]
      invariant forall j :: 0 <= j < NumCohorts ==> cars'[j] == CohortSum(recent', j)
    {
      var entering := Entering(baseRate, us[c]);
      var entry := Entry(t, c, entering);
      assert arrivals[..c + 1] == arrivals[..c] + [entry];
      assert (recent' + [entry])[..|recent'|] == recent';
      cars' := cars'[c := cars'[c] + entering];
      totals' := totals'[c := totals'[c] + entering];
      recent' := recent' + [entry];
      c := c + 1;
    }
    assert arrivals[..NumCohorts] == arrivals;
  }

  /** The 25 uniform draws of one (timestamp, road) step: `draws(cursor)`
      for the first cohort up to `draws(cursor + 24)` for the last. */
  function DrawsAt(draws: nat -> real, cursor: nat): (us: seq<real>)
    ensures |us| == NumCohorts
  {
    seq(NumCohorts, c requires 0 <= c < NumCohorts => draws(cursor + c))
  }

  /** Draws in [0, 1) give a table of 25 draws in [0, 1). */
  lemma DrawsAtTable(draws: nat -> real, cursor: nat)
    requires forall i: nat :: 0.0 <= draws(i) < 1.0
    ensures IsDrawTable(DrawsAt(draws, cursor))
  {
  }

  /** A road's recent entries after a step at `t`: the unexpired ones, then
      the arrivals. */
  function NextRecent(t: int, entries: seq<Entry>, us: seq<real>): seq<Entry>
    requires |us| == NumCohorts
  {
    var g := RegimeAt(HourOfDay(t));
    Unexpired(entries, Cutoff(t, g)) + Arrivals(t, g.baseRate, us)
  }

  /** The occupancy table of a road: each cohort's sum of recent counts. */
  function Occupancy(entries: seq<Entry>): (cars: seq<real>)
    ensures IsCohortTable(cars)
  {
    seq(NumCohorts, c requires 0 <= c < NumCohorts => CohortSum(entries, c))
  }

  /** The shared totals after a step at `t`: each grows by what entered. */
  function NextTotals(t: int, totals: seq<real>, us: seq<real>): (totals': seq<real>)
    requires IsCohortTable(totals) && |us| == NumCohorts
    ensures IsCohortTable(totals')
  {
    var g := RegimeAt(HourOfDay(t));
    seq(NumCohorts, c requires 0 <= c < NumCohorts => totals[c] + Entering(g.baseRate, us[c]))
  }

  /** The arrivals of a step add to each cohort exactly its own entering
      quantity (stated for the first m arrivals). */
  lemma {:induction false} CohortSumArrivals(t: int, baseRate: real, us: seq<real>, c: Cohort, m: nat)
    requires |us| == NumCohorts && m <= NumCohorts
    ensures CohortSum(Arrivals(t, baseRate, us)[..m], c) == if c < m then Entering(baseRate, us[c]) else 0.0
  {
    if m > 0 {
      var a := Arrivals(t, baseRate, us);
      assert a[..m][..m - 1] == a[..m - 1];
      CohortSumArrivals(t, baseRate, us, c, m - 1);
    }
  }

  /** After a step, a cohort's occupancy is the sum of its unexpired counts
      plus what entered; every recent entry is an old one that has not
      expired or one that entered at `t`, and none is a travel time old. */
  lemma NextRecentMeaning(t: int, entries: seq<Entry>, us: seq<real>, c: Cohort)
    requires |us| == NumCohorts
    ensures var g := RegimeAt(HourOfDay(t));
      Occupancy(NextRecent(t, entries, us))[c]
        == CohortSum(Unexpired(entries, Cutoff(t, g)), c) + Entering(g.baseRate, us[c])
    ensures forall e :: e in NextRecent(t, entries, us) ==>
      && t - e.time < RegimeAt(HourOfDay(t)).travelMinutes * MinuteMs
      && (e in entries || e.time == t)
  {
    var g := RegimeAt(HourOfDay(t));
    var a := Arrivals(t, g.baseRate, us);
    UnexpiredMembers(entries, Cutoff(t, g));
    ArrivalsStamped(t, g.baseRate, us);
    CohortSumAppend(Unexpired(entries, Cutoff(t, g)), a, c);
    CohortSumArrivals(t, g.baseRate, us, c, NumCohorts);
    assert a[..NumCohorts] == a;
  }

  /** With draws in [0, 1) and positive counts, a step keeps every count
      positive, strictly raises every shared total, and raises no cohort's
      occupancy above its previous sum by more than the total grew. */
  lemma StepBounds(t: int, entries: seq<Entry>, totals: seq<real>, us: seq<real>)
    requires IsCohortTable(totals) && IsDrawTable(us) && AllPositive(entries)
    ensures AllPositive(NextRecent(t, entries, us))
    ensures forall c :: 0 <= c < NumCohorts ==>
      var cars, totals' := Occupancy(NextRecent(t, entries, us)), NextTotals(t, totals, us);
      && totals[c] < totals'[c]
      && 0.0 < cars[c] <= CohortSum(entries, c) + (totals'[c] - totals[c])
  {
    var g := RegimeAt(HourOfDay(t));
    var kept := Unexpired(entries, Cutoff(t, g));
    var a := Arrivals(t, g.baseRate, us);
    UnexpiredMembers(entries, Cutoff(t, g));
    forall e | e in NextRecent(t, entries, us)
      ensures e.count > 0.0
    {
      if e !in kept {
        assert e in a;
        var c :| 0 <= c < NumCohorts && a[c] == e;
      }
    }
    forall c: Cohort
      ensures 0.0 < Occupancy(NextRecent(t, entries, us))[c]
                  <= CohortSum(entries, c) + (NextTotals(t, totals, us)[c] - totals[c])
    {
      NextRecentMeaning(t, entries, us, c);
      CohortSumUnexpired(entries, Cutoff(t, g), c);
    }
  }

  /** One (timestamp, road) step of the reconstruction: expire by the
      regime's travel time, then let every cohort enter. Each cohort's
      occupancy is the sum of its kept counts plus what entered, and no
      recent entry is a travel time old. */
  method StepRoad(t: int, recent: seq<Entry>, totals: seq<real>, us: seq<real>)
    returns (recent': seq<Entry>, cars: seq<real>, totals': seq<real>)
    requires IsCohortTable(totals) && |us| == NumCohorts
    ensures recent' == NextRecent(t, recent, us)
    ensures cars == Occupancy(recent') && totals' == NextTotals(t, totals, us)
    ensures forall c :: 0 <= c < NumCohorts ==>
      var g := RegimeAt(HourOfDay(t));
      cars[c] == CohortSum(Unexpired(recent, Cutoff(t, g)), c) + Entering(g.baseRate, us[c])
    ensures forall e :: e in recent' ==> t - e.time < RegimeAt(HourOfDay(t)).travelMinutes * MinuteMs
  {
    var hourOfDay := HourOfDay(t);
    var g := RegimeAt(hourOfDay);
    var cutoffTime := Cutoff(t, g);
    var kept, cars0 := Expire(recent, cutoffTime);
    recent', cars, totals' := Arrive(t, g.baseRate, us, kept, cars0, totals);
    forall c: Cohort
      ensures cars[c] == CohortSum(kept, c) + Entering(g.baseRate, us[c])
    {
      NextRecentMeaning(t, recent, us, c);
    }
    NextRecentMeaning(t, recent, us, 0);
  }

  /** The occupancy and the running total of every cohort of one road at one
      timestamp. */
  datatype RoadData = RoadData(road: string, cars: seq<real>, totals: seq<real>)

  /** All roads' data at one timestamp. */
  datatype DataPoint = DataPoint(timestamp: int, roadData: seq<RoadData>)

  predicate WellShaped(rd: RoadData)
  {
    IsCohortTable(rd.cars) && IsCohortTable(rd.totals)
  }

  /** Every cohort's total at `a` is strictly below its total at `b`. */
  predicate TotalsBelow(a: RoadData, b: RoadData)
    requires WellShaped(a) && WellShaped(b)
  {
    forall c :: 0 <= c < NumCohorts ==> a.totals[c] < b.totals[c]
  }

  /** Each cohort's total is at most `totals`. */
  predicate TotalsAtMost(a: RoadData, totals: seq<real>)
    requires WellShaped(a) && IsCohortTable(totals)
  {
    forall c :: 0 <= c < NumCohorts ==> a.totals[c] <= totals[c]
  }

  /** Occupancy is positive and never above the running total. */
  predicate GaugeWithinTotal(a: RoadData)
    requires WellShaped(a)
  {
    forall c :: 0 <= c < NumCohorts ==> 0.0 < a.cars[c] <= a.totals[c]
  }

  /** Every road's per-cohort sum of recent entries lies between zero and
      the cohort's shared total. */
  predicate OnRoadWithinTotals(recent: seq<seq<Entry>>, totals: seq<real>)
    requires IsCohortTable(totals)
  {
    forall r :: 0 <= r < |recent| ==> RoadWithinTotals(recent[r], totals)
  }

  /** One road's per-cohort sums lie between zero and the shared totals. */
  predicate RoadWithinTotals(entries: seq<Entry>, totals: seq<real>)
    requires IsCohortTable(totals)
  {
    forall c :: 0 <= c < NumCohorts ==> 0.0 <= CohortSum(entries, c) <= totals[c]
  }

  /** One data point per window timestamp, one road data per road in the
      given order, each holding all 25 cohorts. */
  predicate Shaped(dps: seq<DataPoint>, roads: seq<string>)
  {
    forall k :: 0 <= k < |dps| ==>
      |dps[k].roadData| == |roads| &&
      forall i :: 0 <= i < |roads| ==>
        dps[k].roadData[i].road == roads[i] && WellShaped(dps[k].roadData[i])
  }

  /** The totals strictly increase along the processing order (timestamp
      first, then road), for every cohort: a counter shared by all roads. */
  predicate TotalsIncrease(dps: seq<DataPoint>, roads: seq<string>)
    requires Shaped(dps, roads)
  {
    && (forall k, i1, i2 :: 0 <= k < |dps| && 0 <= i1 < i2 < |roads| ==>
          TotalsBelow(dps[k].roadData[i1], dps[k].roadData[i2]))
    && (forall k1, k2, i1, i2 :: 0 <= k1 < k2 < |dps| && 0 <= i1 < |roads| && 0 <= i2 < |roads| ==>
          TotalsBelow(dps[k1].roadData[i1], dps[k2].roadData[i2]))
  }

  /** Every cohort's total at `a` is strictly above `totals`. */
  predicate TotalsAbove(a: RoadData, totals: seq<real>)
    requires WellShaped(a) && IsCohortTable(totals)
  {
    forall c :: 0 <= c < NumCohorts ==> totals[c] < a.totals[c]
  }

  /** With no recent entries and non-negative totals the bound holds. */
  lemma OnRoadWithinTotalsEmpty(recent: seq<seq<Entry>>, totals: seq<real>)
    requires IsCohortTable(totals) && forall c :: 0 <= c < NumCohorts ==> 0.0 <= totals[c]
    requires forall r :: 0 <= r < |recent| ==> recent[r] == []
    ensures OnRoadWithinTotals(recent, totals)
  {
  }

  /** Replacing one road's entries by entries within the grown totals keeps
      every road within the totals. */
  lemma OnRoadWithinTotalsUpdate(recent: seq<seq<Entry>>, totals: seq<real>, ri: int,
                                 newRecent: seq<Entry>, newTotals: seq<real>)
    requires IsCohortTable(totals) && IsCohortTable(newTotals) && 0 <= ri < |recent|
    requires OnRoadWithinTotals(recent, totals)
    requires forall c :: 0 <= c < NumCohorts ==> totals[c] <= newTotals[c]
    requires RoadWithinTotals(newRecent, newTotals)
    ensures OnRoadWithinTotals(recent[ri := newRecent], newTotals)
  {
  }

  /** The road data of one timestamp so far: one per road in order, each with
      positive occupancy at most its total, above the totals `before` the
      timestamp and at most the current totals `now`, and with totals
      strictly increasing from road to road. */
  predicate StampInvariant(roadData: seq<RoadData>, roads: seq<string>,
                           before: seq<real>, now: seq<real>)
    requires IsCohortTable(before) && IsCohortTable(now)
  {
    && |roadData| <= |roads|
    && (forall i :: 0 <= i < |roadData| ==>
          && roadData[i].road == roads[i] && WellShaped(roadData[i])
          && GaugeWithinTotal(roadData[i])
          && TotalsAbove(roadData[i], before) && TotalsAtMost(roadData[i], now))
    && (forall i1, i2 :: 0 <= i1 < i2 < |roadData| ==> TotalsBelow(roadData[i1], roadData[i2]))
  }

  /** Appending a road whose totals exceed the current ones keeps the
      invariant, with that road's totals as the new current totals. */
  lemma StampInvariantExtend(roadData: seq<RoadData>, roads: seq<string>,
                             before: seq<real>, now: seq<real>, rd: RoadData)
    requires IsCohortTable(before) && IsCohortTable(now)
    requires StampInvariant(roadData, roads, before, now)
    requires |roadData| < |roads| && rd.road == roads[|roadData|]
    requires WellShaped(rd) && GaugeWithinTotal(rd)
    requires forall c :: 0 <= c < NumCohorts ==> before[c] <= now[c] < rd.totals[c]
    ensures StampInvariant(roadData + [rd], roads, before, rd.totals)
  {
  }

  /** The state of a reconstruction in progress: the road data gathered at
      the current timestamp, each road's recent entries, the shared totals,
      and the index of the next draw. */
  datatype Progress = Progress(roadData: seq<RoadData>, recent: seq<seq<Entry>>,
                               totals: seq<real>, cursor: nat)

  /** The first n roads' steps at timestamp `t`, in road order: the
      reference definition of one timestamp of the reconstruction. */
  function StampSteps(t: int, roads: seq<string>, recent: seq<seq<Entry>>, totals: seq<real>,
                      draws: nat -> real, cursor: nat, n: nat): (p: Progress)
    requires |recent| == |roads| && IsCohortTable(totals) && n <= |roads|
    ensures |p.roadData| == n && |p.recent| == |roads| && IsCohortTable(p.totals)
    ensures p.cursor == cursor + NumCohorts * n
    ensures p.totals == if n == 0 then totals else p.roadData[n - 1].totals
  {
    if n == 0 then Progress([], recent, totals, cursor)
    else
      var q := StampSteps(t, roads, recent, totals, draws, cursor, n - 1);
      var us := DrawsAt(draws, q.cursor);
      var entries := NextRecent(t, q.recent[n - 1], us);
      var totals' := NextTotals(t, q.totals, us);
      Progress(q.roadData + [RoadData(roads[n - 1], Occupancy(entries), totals')],
               q.recent[n - 1 := entries], totals', q.cursor + NumCohorts)
  }

  /** The first n roads' steps leave the entries of the roads after them
      alone. */
  lemma {:induction false} StampStepsUntouched(t: int, roads: seq<string>, recent: seq<seq<Entry>>,
                                               totals: seq<real>, draws: nat -> real, cursor: nat,
                                               n: nat, j: int)
    requires |recent| == |roads| && IsCohortTable(totals) && n <= j < |roads|
    ensures StampSteps(t, roads, recent, totals, draws, cursor, n).recent[j] == recent[j]
  {
    if n > 0 {
      var q := StampSteps(t, roads, recent, totals, draws, cursor, n - 1);
      var entries := NextRecent(t, q.recent[n - 1], DrawsAt(draws, q.cursor));
      assert StampSteps(t, roads, recent, totals, draws, cursor, n).recent == q.recent[n - 1 := entries];
      StampStepsUntouched(t, roads, recent, totals, draws, cursor, n - 1, j);
    }
  }

  /** Road i's entries after the first n roads' steps are its own step's
      result: no other road's step touches them. */
  lemma {:induction false} StampStepsRecent(t: int, roads: seq<string>, recent: seq<seq<Entry>>,
                                            totals: seq<real>, draws: nat -> real, cursor: nat,
                                            n: nat, i: int)
    requires |recent| == |roads| && IsCohortTable(totals) && n <= |roads| && 0 <= i < n
    ensures StampSteps(t, roads, recent, totals, draws, cursor, n).recent[i]
         == NextRecent(t, recent[i], DrawsAt(draws, cursor + NumCohorts * i))
  {
    var q := StampSteps(t, roads, recent, totals, draws, cursor, n - 1);
    var entries := NextRecent(t, q.recent[n - 1], DrawsAt(draws, q.cursor));
    assert StampSteps(t, roads, recent, totals, draws, cursor, n).recent == q.recent[n - 1 := entries];
    if i < n - 1 {
      StampStepsRecent(t, roads, recent, totals, draws, cursor, n - 1, i);
    } else {
      StampStepsUntouched(t, roads, recent, totals, draws, cursor, n - 1, i);
    }
  }

  /** Later roads' steps leave an earlier road's data alone. */
  lemma {:induction false} StampStepsStable(t: int, roads: seq<string>, recent: seq<seq<Entry>>,
                                            totals: seq<real>, draws: nat -> real, cursor: nat,
                                            n: nat, m: nat, i: int)
    requires |recent| == |roads| && IsCohortTable(totals) && 0 <= i < n <= m <= |roads|
    ensures StampSteps(t, roads, recent, totals, draws, cursor, m).roadData[i]
         == StampSteps(t, roads, recent, totals, draws, cursor, n).roadData[i]
  {
    if m > n {
      var q := StampSteps(t, roads, recent, totals, draws, cursor, m - 1);
      var us := DrawsAt(draws, q.cursor);
      var entries := NextRecent(t, q.recent[m - 1], us);
      assert StampSteps(t, roads, recent, totals, draws, cursor, m).roadData
          == q.roadData + [RoadData(roads[m - 1], Occupancy(entries), NextTotals(t, q.totals, us))];
      StampStepsStable(t, roads, recent, totals, draws, cursor, n, m - 1, i);
    }
  }

  /** Road i's step at timestamp `t` reads its own recent entries, the
      totals the previous road left (or those before the timestamp, for the
      first road) and the draws from 25 * i past the cursor. */
  lemma StampStepsRoad(t: int, roads: seq<string>, recent: seq<seq<Entry>>,
                       totals: seq<real>, draws: nat -> real, cursor: nat, n: nat, i: int)
    requires |recent| == |roads| && IsCohortTable(totals) && n <= |roads| && 0 <= i < n
    ensures var p := StampSteps(t, roads, recent, totals, draws, cursor, n);
      var us := DrawsAt(draws, cursor + NumCohorts * i);
      var before := if i == 0 then totals else p.roadData[i - 1].totals;
      && IsCohortTable(before)
      && p.recent[i] == NextRecent(t, recent[i], us)
      && p.roadData[i] == RoadData(roads[i], Occupancy(p.recent[i]), NextTotals(t, before, us))
  {
    var q := StampSteps(t, roads, recent, totals, draws, cursor, i + 1);
    var r := StampSteps(t, roads, recent, totals, draws, cursor, i);
    var us := DrawsAt(draws, cursor + NumCohorts * i);
    StampStepsUntouched(t, roads, recent, totals, draws, cursor, i, i);
    assert q.recent[i] == NextRecent(t, recent[i], us);
    assert q.roadData[i] == RoadData(roads[i], Occupancy(q.recent[i]), NextTotals(t, r.totals, us));
    StampStepsRecent(t, roads, recent, totals, draws, cursor, n, i);
    StampStepsStable(t, roads, recent, totals, draws, cursor, i + 1, n, i);
    if i > 0 {
      StampStepsStable(t, roads, recent, totals, draws, cursor, i, n, i - 1);
    }
  }

  /** The facts one timestamp keeps true part-way through its roads:
      counts stay positive, every road stays within the shared totals, the
      totals never decrease, and the road data so far meets StampInvariant. */
  predicate StampBounds(roads: seq<string>, totals: seq<real>, p: Progress)
    requires IsCohortTable(totals)
  {
    && |p.recent| == |roads| && IsCohortTable(p.totals)
    && (forall r :: 0 <= r < |roads| ==> AllPositive(p.recent[r]))
    && OnRoadWithinTotals(p.recent, p.totals)
    && (forall c :: 0 <= c < NumCohorts ==> totals[c] <= p.totals[c])
    && StampInvariant(p.roadData, roads, totals, p.totals)
  }

  /** One road's step keeps StampBounds, given what StepBounds says about
      the step. */
  lemma StampBoundsExtend(roads: seq<string>, totals: seq<real>, q: Progress, i: int,
                          entries: seq<Entry>, cars: seq<real>, newTotals: seq<real>, cursor: nat)
    requires IsCohortTable(totals) && StampBounds(roads, totals, q)
    requires 0 <= i < |roads| && |q.roadData| == i
    requires IsCohortTable(cars) && IsCohortTable(newTotals) && AllPositive(entries)
    requires forall c :: 0 <= c < NumCohorts ==>
      && cars[c] == CohortSum(entries, c)
      && q.totals[c] < newTotals[c]
      && 0.0 < cars[c] <= CohortSum(q.recent[i], c) + (newTotals[c] - q.totals[c])
    ensures StampBounds(roads, totals, Progress(q.roadData + [RoadData(roads[i], cars, newTotals)],
                                                q.recent[i := entries], newTotals, cursor))
  {
    var rd := RoadData(roads[i], cars, newTotals);
    assert RoadWithinTotals(q.recent[i], q.totals);
    forall c | 0 <= c < NumCohorts
      ensures 0.0 < cars[c] <= newTotals[c]
      ensures totals[c] <= q.totals[c] < newTotals[c]
    {
      assert 0.0 <= CohortSum(q.recent[i], c) <= q.totals[c];
    }
    StampInvariantExtend(q.roadData, roads, totals, q.totals, rd);
    OnRoadWithinTotalsUpdate(q.recent, q.totals, i, entries, newTotals);
  }

  /** What one timestamp keeps true: counts stay positive, every road stays
      within the shared totals, and each road's data has positive occupancy
      at most its total, totals above those before the timestamp, and totals
      strictly increasing from road to road. */
  lemma {:induction false} StampStepsBounds(t: int, roads: seq<string>, recent: seq<seq<Entry>>,
                                            totals: seq<real>, draws: nat -> real, cursor: nat, n: nat)
    requires forall i: nat :: 0.0 <= draws(i) < 1.0
    requires |recent| == |roads| && IsCohortTable(totals) && n <= |roads|
    requires forall r :: 0 <= r < |roads| ==> AllPositive(recent[r])
    requires OnRoadWithinTotals(recent, totals)
    ensures StampBounds(roads, totals, StampSteps(t, roads, recent, totals, draws, cursor, n))
  {
    if n == 0 {
      assert StampInvariant([], roads, totals, totals);
    } else {
      StampStepsBounds(t, roads, recent, totals, draws, cursor, n - 1);
      var q := StampSteps(t, roads, recent, totals, draws, cursor, n - 1);
      var us := DrawsAt(draws, q.cursor);
      DrawsAtTable(draws, q.cursor);
      var entries := NextRecent(t, q.recent[n - 1], us);
      var totals' := NextTotals(t, q.totals, us);
      assert StampSteps(t, roads, recent, totals, draws, cursor, n)
          == Progress(q.roadData + [RoadData(roads[n - 1], Occupancy(entries), totals')],
                      q.recent[n - 1 := entries], totals', q.cursor + NumCohorts);
      StampStepBounds(t, roads, totals, q, n - 1, us);
    }
  }

  /** Road i's step after the roads before it keeps StampBounds. */
  lemma StampStepBounds(t: int, roads: seq<string>, totals: seq<real>, q: Progress, i: int, us: seq<real>)
    requires IsCohortTable(totals) && StampBounds(roads, totals, q)
    requires 0 <= i < |roads| && |q.roadData| == i && IsDrawTable(us)
    ensures var entries := NextRecent(t, q.recent[i], us);
      var totals' := NextTotals(t, q.totals, us);
      StampBounds(roads, totals, Progress(q.roadData + [RoadData(roads[i], Occupancy(entries), totals')],
                                          q.recent[i := entries], totals', q.cursor + NumCohorts))
  {
    var entries := NextRecent(t, q.recent[i], us);
    StepBounds(t, q.recent[i], q.totals, us);
    StampBoundsExtend(roads, totals, q, i, entries, Occupancy(entries), NextTotals(t, q.totals, us),
                      q.cursor + NumCohorts);
  }

  /** Road i's step at one timestamp, as seen in the results: it read the
      25 draws from 25 * i past the cursor and the totals the road before it
      left (the shared totals for road 0), kept its unexpired entries and
      added the arrivals, and reported the occupancy of what it kept. */
  predicate RoadStepped(t: int, roads: seq<string>, recent: seq<seq<Entry>>, totals: seq<real>,
                        draws: nat -> real, cursor: nat, roadData: seq<RoadData>,
                        recent': seq<seq<Entry>>, i: int)
    requires 0 <= i < |roads| == |recent| == |roadData| == |recent'|
  {
    var us := DrawsAt(draws, cursor + NumCohorts * i);
    var before := if i == 0 then totals else roadData[i - 1].totals;
    && IsCohortTable(before)
    && recent'[i] == NextRecent(t, recent[i], us)
    && roadData[i] == RoadData(roads[i], Occupancy(recent'[i]), NextTotals(t, before, us))
  }

  /** Each road's step at one timestamp, read from all roads' steps. */
  lemma StampStepsRoadStepped(t: int, roads: seq<string>, recent: seq<seq<Entry>>, totals: seq<real>,
                              draws: nat -> real, cursor: nat, i: int)
    requires |recent| == |roads| && IsCohortTable(totals) && 0 <= i < |roads|
    ensures var p := StampSteps(t, roads, recent, totals, draws, cursor, |roads|);
      RoadStepped(t, roads, recent, totals, draws, cursor, p.roadData, p.recent, i)
  {
    StampStepsRoad(t, roads, recent, totals, draws, cursor, |roads|, i);
  }

  /** All roads' steps at one timestamp, in road order; road i reads the
      draws from 25 * i past the cursor and the totals the road before it
      left. */
  method StepTimestamp(t: int, roads: seq<string>, recent: seq<seq<Entry>>, totals: seq<real>,
                       draws: nat -> real, cursor: nat)
    returns (roadData: seq<RoadData>, recent': seq<seq<Entry>>, totals': seq<real>, cursor': nat)
    requires |recent| == |roads| && IsCohortTable(totals)
    ensures Progress(roadData, recent', totals', cursor')
         == StampSteps(t, roads, recent, totals, draws, cursor, |roads|)
    ensures forall i :: 0 <= i < |roads| ==>
      RoadStepped(t, roads, recent, totals, draws, cursor, roadData, recent', i)
  {
    recent', totals', cursor' := recent, totals, cursor;
    roadData := [];
    var ri := 0;
    while ri < |roads|
      invariant 0 <= ri <= |roads|
      invariant Progress(roadData, recent', totals', cursor')
             == StampSteps(t, roads, recent, totals, draws, cursor, ri)
    {
      var us := DrawsAt(draws, cursor');
      var newRecent, cars, newTotals := StepRoad(t, recent'[ri], totals', us);
      roadData := roadData + [RoadData(roads[ri], cars, newTotals)];
      recent' := recent'[ri := newRecent];
      totals' := newTotals;
      cursor' := cursor' + NumCohorts;
      ri := ri + 1;
    }
    forall i | 0 <= i < |roads|
      ensures RoadStepped(t, roads, recent, totals, draws, cursor, roadData, recent', i)
    {
      StampStepsRoadStepped(t, roads, recent, totals, draws, cursor, i);
    }
  }

  /** The state of the reconstruction after some timestamps: the data points
      so far, each road's recent entries, the shared totals, and the index of
      the next draw. */
  datatype History = History(dataPoints: seq<DataPoint>, recent: seq<seq<Entry>>,
                             totals: seq<real>, cursor: nat)

  /** No recent entries on any of n roads. */
  function NoEntries(n: nat): (recent: seq<seq<Entry>>)
    ensures |recent| == n && forall r :: 0 <= r < n ==> recent[r] == []
  {
    seq(n, _ => [])
  }

  /** The reconstruction after the first k timestamps of `ts`: the reference
      definition of the backfill loop. It starts with no recent entries,
      zero totals and the first draw. */
  function Replay(ts: seq<int>, roads: seq<string>, draws: nat -> real, k: nat): (h: History)
    requires k <= |ts|
    ensures |h.dataPoints| == k && |h.recent| == |roads| && IsCohortTable(h.totals)
  {
    if k == 0 then History([], NoEntries(|roads|), ZeroTable(), 0)
    else
      var h := Replay(ts, roads, draws, k - 1);
      var p := StampSteps(ts[k - 1], roads, h.recent, h.totals, draws, h.cursor, |roads|);
      History(h.dataPoints + [DataPoint(ts[k - 1], p.roadData)], p.recent, p.totals, p.cursor)
  }

  /** The data points the backfill reconstructs for `nowMs`, `roads` and
      `draws`. */
  function Reconstruction(nowMs: int, roads: seq<string>, draws: nat -> real): (dps: seq<DataPoint>)
    ensures |dps| == 11
  {
    var ts := WindowTimes(nowMs);
    Replay(ts, roads, draws, |ts|).dataPoints
  }

  /** What the reconstruction keeps true after k timestamps: one data point
      per timestamp with one road data per road, occupancy positive and at
      most the total, totals at most the current shared totals and strictly
      increasing along the processing order, counts positive and every road
      within the shared totals. */
  predicate HistoryBounds(ts: seq<int>, roads: seq<string>, h: History, k: nat)
  {
    && k <= |ts| && |h.dataPoints| == k && |h.recent| == |roads| && IsCohortTable(h.totals)
    && (forall j :: 0 <= j < k ==> h.dataPoints[j].timestamp == ts[j])
    && Shaped(h.dataPoints, roads)
    && (forall r :: 0 <= r < |roads| ==> AllPositive(h.recent[r]))
    && OnRoadWithinTotals(h.recent, h.totals)
    && (forall j, i :: 0 <= j < k && 0 <= i < |roads| ==>
          GaugeWithinTotal(h.dataPoints[j].roadData[i]) && TotalsAtMost(h.dataPoints[j].roadData[i], h.totals))
    && TotalsIncrease(h.dataPoints, roads)
  }

  /** Appending a data point with one well-shaped road data per road keeps
      the data points shaped after `roads`. */
  lemma ShapedExtend(dps: seq<DataPoint>, roads: seq<string>, dp: DataPoint)
    requires Shaped(dps, roads) && |dp.roadData| == |roads|
    requires forall i :: 0 <= i < |roads| ==> dp.roadData[i].road == roads[i] && WellShaped(dp.roadData[i])
    ensures Shaped(dps + [dp], roads)
  {
    var dps' := dps + [dp];
    assert forall k :: 0 <= k < |dps| ==> dps'[k] == dps[k];
  }

  /** Appending a data point whose totals increase from road to road and
      all lie above `totals`, which bounds every earlier total, keeps the
      totals increasing. */
  lemma TotalsIncreaseExtend(dps: seq<DataPoint>, roads: seq<string>, totals: seq<real>, dp: DataPoint)
    requires Shaped(dps, roads) && IsCohortTable(totals) && |dp.roadData| == |roads|
    requires forall i :: 0 <= i < |roads| ==> dp.roadData[i].road == roads[i] && WellShaped(dp.roadData[i])
    requires TotalsIncrease(dps, roads)
    requires forall k, i :: 0 <= k < |dps| && 0 <= i < |roads| ==> TotalsAtMost(dps[k].roadData[i], totals)
    requires forall i :: 0 <= i < |roads| ==> TotalsAbove(dp.roadData[i], totals)
    requires forall i1, i2 :: 0 <= i1 < i2 < |roads| ==> TotalsBelow(dp.roadData[i1], dp.roadData[i2])
    ensures Shaped(dps + [dp], roads) && TotalsIncrease(dps + [dp], roads)
  {
    ShapedExtend(dps, roads, dp);
    var dps' := dps + [dp];
    forall k, i1, i2 | 0 <= k < |dps'| && 0 <= i1 < i2 < |roads|
      ensures TotalsBelow(dps'[k].roadData[i1], dps'[k].roadData[i2])
    {
      if k < |dps| {
        assert dps'[k] == dps[k];
      }
    }
    forall k1, k2, i1, i2 | 0 <= k1 < k2 < |dps'| && 0 <= i1 < |roads| && 0 <= i2 < |roads|
      ensures TotalsBelow(dps'[k1].roadData[i1], dps'[k2].roadData[i2])
    {
      assert dps'[k1] == dps[k1];
      if k2 < |dps| {
        assert dps'[k2] == dps[k2];
      } else {
        assert TotalsAtMost(dps[k1].roadData[i1], totals);
        assert TotalsAbove(dp.roadData[i2], totals);
      }
    }
  }

  /** Raising the shared totals keeps every earlier total at most them. */
  lemma TotalsAtMostRaise(dps: seq<DataPoint>, roads: seq<string>, totals: seq<real>, totals': seq<real>)
    requires Shaped(dps, roads) && IsCohortTable(totals) && IsCohortTable(totals')
    requires forall c :: 0 <= c < NumCohorts ==> totals[c] <= totals'[c]
    requires forall k, i :: 0 <= k < |dps| && 0 <= i < |roads| ==> TotalsAtMost(dps[k].roadData[i], totals)
    ensures forall k, i :: 0 <= k < |dps| && 0 <= i < |roads| ==> TotalsAtMost(dps[k].roadData[i], totals')
  {
    forall k, i | 0 <= k < |dps| && 0 <= i < |roads|
      ensures TotalsAtMost(dps[k].roadData[i], totals')
    {
      assert TotalsAtMost(dps[k].roadData[i], totals);
    }
  }

  /** One timestamp that keeps StampBounds over all roads keeps
      HistoryBounds. */
  lemma HistoryBoundsExtend(ts: seq<int>, roads: seq<string>, h: History, k: nat, p: Progress)
    requires HistoryBounds(ts, roads, h, k) && k < |ts|
    requires StampBounds(roads, h.totals, p) && |p.roadData| == |roads|
    ensures HistoryBounds(ts, roads, History(h.dataPoints + [DataPoint(ts[k], p.roadData)],
                                             p.recent, p.totals, p.cursor), k + 1)
  {
    var dp := DataPoint(ts[k], p.roadData);
    var dps' := h.dataPoints + [dp];
    assert StampInvariant(p.roadData, roads, h.totals, p.totals);
    ShapedExtend(h.dataPoints, roads, dp);
    TotalsIncreaseExtend(h.dataPoints, roads, h.totals, dp);
    TotalsAtMostRaise(h.dataPoints, roads, h.totals, p.totals);
    assert forall j :: 0 <= j < k ==> dps'[j] == h.dataPoints[j];
  }

  lemma {:induction false} ReplayBounds(ts: seq<int>, roads: seq<string>, draws: nat -> real, k: nat)
    requires forall i: nat :: 0.0 <= draws(i) < 1.0
    requires k <= |ts|
    ensures HistoryBounds(ts, roads, Replay(ts, roads, draws, k), k)
  {
    var h := Replay(ts, roads, draws, k);
    if k == 0 {
      OnRoadWithinTotalsEmpty(h.recent, h.totals);
    } else {
      var g := Replay(ts, roads, draws, k - 1);
      var p := StampSteps(ts[k - 1], roads, g.recent, g.totals, draws, g.cursor, |roads|);
      ReplayUnfold(ts, roads, draws, k - 1);
      ReplayBounds(ts, roads, draws, k - 1);
      StampStepsBounds(ts[k - 1], roads, g.recent, g.totals, draws, g.cursor, |roads|);
      HistoryBoundsExtend(ts, roads, g, k - 1, p);
    }
  }

  /** The reconstructed window: 11 data points at the window's timestamps,
      one road data per road with positive occupancy at most its total, and
      totals strictly increasing along the processing order. */
  lemma ReconstructionBounds(nowMs: int, roads: seq<string>, draws: nat -> real)
    requires forall i: nat :: 0.0 <= draws(i) < 1.0
    ensures var dps := Reconstruction(nowMs, roads, draws);
      && (forall k :: 0 <= k < |dps| ==>
            dps[k].timestamp == WindowEnd(nowMs) - WindowMs + k * StepMs && dps[k].timestamp < WindowEnd(nowMs))
      && Shaped(dps, roads)
      && (forall k, i :: 0 <= k < |dps| && 0 <= i < |roads| ==> GaugeWithinTotal(dps[k].roadData[i]))
      && TotalsIncrease(dps, roads)
  {
    var ts := WindowTimes(nowMs);
    ReplayBounds(ts, roads, draws, |ts|);
  }

  /** After k timestamps the reconstruction has used 25 draws per road and
      timestamp. */
  lemma {:induction false} ReplayCursor(ts: seq<int>, roads: seq<string>, draws: nat -> real, k: nat)
    requires k <= |ts|
    ensures Replay(ts, roads, draws, k).cursor == NumCohorts * (|roads| * k)
  {
    if k > 0 {
      var g := Replay(ts, roads, draws, k - 1);
      var p := StampSteps(ts[k - 1], roads, g.recent, g.totals, draws, g.cursor, |roads|);
      assert Replay(ts, roads, draws, k).cursor == p.cursor;
      ReplayCursor(ts, roads, draws, k - 1);
      assert |roads| * (k - 1) + |roads| == |roads| * k;
      assert |roads| * (k - 1) + |roads| == |roads| * k;
    }
  }

  /** Road i at the k-th timestamp reads its draws i roads past the
      timestamp's first draw. */
  lemma DrawIndexStep(roadCount: nat, k: nat, i: nat)
    ensures NumCohorts * (roadCount * k) + NumCohorts * i == NumCohorts * (roadCount * k + i)
  {
  }

  /** Each timestamp appends exactly one data point. */
  lemma ReplayGrow(ts: seq<int>, roads: seq<string>, draws: nat -> real, k: nat)
    requires k < |ts|
    ensures Replay(ts, roads, draws, k + 1).dataPoints
         == Replay(ts, roads, draws, k).dataPoints + [Replay(ts, roads, draws, k + 1).dataPoints[k]]
  {
    var g := Replay(ts, roads, draws, k);
    var p := StampSteps(ts[k], roads, g.recent, g.totals, draws, g.cursor, |roads|);
    assert Replay(ts, roads, draws, k + 1).dataPoints == g.dataPoints + [DataPoint(ts[k], p.roadData)];
  }

  /** Later timestamps leave the data points of earlier ones alone. */
  lemma {:induction false} ReplayStable(ts: seq<int>, roads: seq<string>, draws: nat -> real, j: nat, k: nat)
    requires j < k <= |ts|
    ensures Replay(ts, roads, draws, k).dataPoints[j] == Replay(ts, roads, draws, j + 1).dataPoints[j]
  {
    if k > j + 1 {
      ReplayGrow(ts, roads, draws, k - 1);
      ReplayStable(ts, roads, draws, j, k - 1);
    }
  }

  /** The (k+1)-th timestamp appends one data point holding the road data of
      all roads' steps and carries their entries, totals and draw cursor on. */
  lemma ReplayUnfold(ts: seq<int>, roads: seq<string>, draws: nat -> real, k: nat)
    requires k < |ts|
    ensures var h := Replay(ts, roads, draws, k);
      var p := StampSteps(ts[k], roads, h.recent, h.totals, draws, h.cursor, |roads|);
      Replay(ts, roads, draws, k + 1)
        == History(h.dataPoints + [DataPoint(ts[k], p.roadData)], p.recent, p.totals, p.cursor)
  {
  }

  /** The (k+1)-th timestamp appends one data point holding the road data of
      all roads' steps, and carries their entries on. */
  lemma ReplayNext(ts: seq<int>, roads: seq<string>, draws: nat -> real, k: nat)
    requires k < |ts|
    ensures var h, h' := Replay(ts, roads, draws, k), Replay(ts, roads, draws, k + 1);
      var p := StampSteps(ts[k], roads, h.recent, h.totals, draws, h.cursor, |roads|);
      && h'.dataPoints[k] == DataPoint(ts[k], p.roadData)
      && h'.recent == p.recent
  {
    var h := Replay(ts, roads, draws, k);
    var p := StampSteps(ts[k], roads, h.recent, h.totals, draws, h.cursor, |roads|);
    assert Replay(ts, roads, draws, k + 1).dataPoints == h.dataPoints + [DataPoint(ts[k], p.roadData)];
  }

  /** Road i's data at the k-th timestamp: the road kept its unexpired
      entries and added that step's arrivals, it read the draws from 25 * i
      past the timestamp's first draw on, and its totals grew from those the road
      before it left (for the first road, those the previous timestamp
      left). */
  lemma ReplayPoint(ts: seq<int>, roads: seq<string>, draws: nat -> real, k: nat, i: nat)
    requires k < |ts| && i < |roads|
    ensures var h, h' := Replay(ts, roads, draws, k), Replay(ts, roads, draws, k + 1);
      var dp := h'.dataPoints[k];
      && dp.timestamp == ts[k] && |dp.roadData| == |roads|
      && RoadStepped(ts[k], roads, h.recent, h.totals, draws, h.cursor, dp.roadData, h'.recent, i)
  {
    var h := Replay(ts, roads, draws, k);
    ReplayNext(ts, roads, draws, k);
    StampStepsRoadStepped(ts[k], roads, h.recent, h.totals, draws, h.cursor, i);
  }

  /** One road's step, read back from its results: occupancy is the kept
      sum plus what entered and the sum over the new entries, the total grew
      by what entered, and no entry is a travel time old. */
  lemma StepMeaning(t: int, entries: seq<Entry>, before: seq<real>, us: seq<real>,
                    recent': seq<Entry>, rd: RoadData, c: Cohort)
    requires IsCohortTable(before) && |us| == NumCohorts
    requires recent' == NextRecent(t, entries, us)
    requires rd.cars == Occupancy(recent') && rd.totals == NextTotals(t, before, us)
    ensures var g := RegimeAt(HourOfDay(t));
      && rd.cars[c] == CohortSum(Unexpired(entries, Cutoff(t, g)), c) + Entering(g.baseRate, us[c])
      && rd.cars[c] == CohortSum(recent', c)
      && rd.totals[c] == before[c] + Entering(g.baseRate, us[c])
      && forall e :: e in recent' ==> t - e.time < g.travelMinutes * MinuteMs
  {
    NextRecentMeaning(t, entries, us, c);
  }

  /** What road i reports for cohort c after its step at timestamp t: the
      occupancy is the unexpired sum plus what entered, drawn from the c-th
      of the 25 draws from 25 * i past the cursor, and also the sum over its
      entries after the step, none of which is a travel time old; the total
      is the one the road before it left (the shared one, for the first
      road) plus what entered. */
  lemma RoadSteppedMeaning(t: int, roads: seq<string>, recent: seq<seq<Entry>>, totals: seq<real>,
                           draws: nat -> real, cursor: nat, roadData: seq<RoadData>,
                           recent': seq<seq<Entry>>, i: int, c: Cohort)
    requires 0 <= i < |roads| == |recent| == |roadData| == |recent'|
    requires RoadStepped(t, roads, recent, totals, draws, cursor, roadData, recent', i)
    ensures var g := RegimeAt(HourOfDay(t));
      var entering := Entering(g.baseRate, DrawsAt(draws, cursor + NumCohorts * i)[c]);
      && IsCohortTable(roadData[i].cars) && IsCohortTable(roadData[i].totals)
      && (if i == 0 then IsCohortTable(totals) else IsCohortTable(roadData[i - 1].totals))
      && roadData[i].cars[c] == CohortSum(Unexpired(recent[i], Cutoff(t, g)), c) + entering
      && roadData[i].cars[c] == CohortSum(recent'[i], c)
      && roadData[i].totals[c] == (if i == 0 then totals[c] else roadData[i - 1].totals[c]) + entering
      && forall e :: e in recent'[i] ==> t - e.time < g.travelMinutes * MinuteMs
  {
    var us := DrawsAt(draws, cursor + NumCohorts * i);
    var before := if i == 0 then totals else roadData[i - 1].totals;
    StepMeaning(t, recent[i], before, us, recent'[i], roadData[i], c);
  }

  /** What the reconstruction over n timestamps reports for road i, cohort
      c at its k-th timestamp. The occupancy is the road's unexpired sum plus
      what entered, drawn from the c-th of the 25 draws the road reads at
      that timestamp (they start at 25 * (|roads| * k + i), by
      ReplayCursor); it is also the sum over the road's entries after the
      step, none of which entered a travel time or more before the
      timestamp. The total is the one the road before it left (for the first
      road, the one the previous timestamp left) plus what entered. */
  lemma ReplayPointMeaning(ts: seq<int>, roads: seq<string>, draws: nat -> real, n: nat, k: nat, i: nat, c: Cohort)
    requires k < n <= |ts| && i < |roads|
    ensures var dp := Replay(ts, roads, draws, n).dataPoints[k];
      var g := RegimeAt(HourOfDay(ts[k]));
      var before, after := Replay(ts, roads, draws, k), Replay(ts, roads, draws, k + 1);
      var entering := Entering(g.baseRate, DrawsAt(draws, before.cursor + NumCohorts * i)[c]);
      && dp.timestamp == ts[k] && |dp.roadData| == |roads|
      && IsCohortTable(dp.roadData[i].cars) && IsCohortTable(dp.roadData[i].totals)
      && (i > 0 ==> IsCohortTable(dp.roadData[i - 1].totals))
      && dp.roadData[i].cars[c] == CohortSum(Unexpired(before.recent[i], Cutoff(ts[k], g)), c) + entering
      && dp.roadData[i].cars[c] == CohortSum(after.recent[i], c)
      && dp.roadData[i].totals[c] == (if i == 0 then before.totals[c] else dp.roadData[i - 1].totals[c]) + entering
      && (forall e :: e in after.recent[i] ==> ts[k] - e.time < g.travelMinutes * MinuteMs)
  {
    var before, after := Replay(ts, roads, draws, k), Replay(ts, roads, draws, k + 1);
    ReplayStable(ts, roads, draws, k, n);
    ReplayPoint(ts, roads, draws, k, i);
    RoadSteppedMeaning(ts[k], roads, before.recent, before.totals, draws, before.cursor,
                       after.dataPoints[k].roadData, after.recent, i, c);
  }

  /** What the reconstruction for `nowMs` reports for road i, cohort c at
      the k-th window timestamp t. The occupancy is the road's unexpired sum
      plus what entered now, scaled from draw 25 * (|roads| * k + i) + c; it
      is also the sum over the road's entries after the step, none of which
      entered a travel time or more before t. The total is the one the road
      before it left (for the first road, the one the previous timestamp
      left) plus what entered. */
  lemma ReconstructionPoint(nowMs: int, roads: seq<string>, draws: nat -> real, k: nat, i: nat, c: Cohort)
    requires k < 11 && i < |roads|
    ensures var ts := WindowTimes(nowMs);
      var dp := Reconstruction(nowMs, roads, draws)[k];
      var g := RegimeAt(HourOfDay(ts[k]));
      var before, after := Replay(ts, roads, draws, k), Replay(ts, roads, draws, k + 1);
      var entering := Entering(g.baseRate, draws(NumCohorts * (|roads| * k + i) + c));
      && dp.timestamp == ts[k] && |dp.roadData| == |roads| && dp.roadData[i].road == roads[i]
      && IsCohortTable(dp.roadData[i].cars) && IsCohortTable(dp.roadData[i].totals)
      && (i > 0 ==> IsCohortTable(dp.roadData[i - 1].totals))
      && dp.roadData[i].cars[c] == CohortSum(Unexpired(before.recent[i], Cutoff(ts[k], g)), c) + entering
      && dp.roadData[i].cars[c] == CohortSum(after.recent[i], c)
      && dp.roadData[i].totals[c] == (if i == 0 then before.totals[c] else dp.roadData[i - 1].totals[c]) + entering
      && (forall e :: e in after.recent[i] ==> ts[k] - e.time < g.travelMinutes * MinuteMs)
  {
    var ts := WindowTimes(nowMs);
    ReplayPointMeaning(ts, roads, draws, |ts|, k, i, c);
    ReplayCursor(ts, roads, draws, k);
    DrawIndexStep(|roads|, k, i);
    ReplayStable(ts, roads, draws, k, |ts|);
    ReplayPoint(ts, roads, draws, k, i);
  }

  /** The loop over the window's timestamps: each timestamp steps every
      road in order, starting from no recent entries, zero totals and the
      first draw. */
  method ReplayTimestamps(ts: seq<int>, roads: seq<string>, draws: nat -> real)
    returns (dataPoints: seq<DataPoint>)
    ensures dataPoints == Replay(ts, roads, draws, |ts|).dataPoints
  {
    var recent := NoEntries(|roads|);
    var totals := ZeroTable();
    var cursor: nat := 0;
    dataPoints := [];
    var k := 0;
    while k < |ts|
      invariant 0 <= k <= |ts|
      invariant History(dataPoints, recent, totals, cursor) == Replay(ts, roads, draws, k)
    {
      ReplayUnfold(ts, roads, draws, k);
      var roadData, recent', totals', cursor' := StepTimestamp(ts[k], roads, recent, totals, draws, cursor);
      dataPoints := dataPoints + [DataPoint(ts[k], roadData)];
      recent, totals, cursor := recent', totals', cursor';
      k := k + 1;
    }
  }

  /** Reconstructs the window before `nowMs` for `roads`, drawing the
      uniform numbers `draws(0), draws(1), ...` in the order timestamp, road,
      color, maker. State starts empty: no recent entries, zero totals. */
  method Backfill(nowMs: int, roads: seq<string>, draws: nat -> real)
    returns (startMs: int, endMs: int, dataPoints: seq<DataPoint>)
    requires forall i: nat :: 0.0 <= draws(i) < 1.0
    ensures endMs == WindowEnd(nowMs) && startMs == endMs - WindowMs
    ensures dataPoints == Reconstruction(nowMs, roads, draws)
    ensures |dataPoints| == 11
    ensures forall k :: 0 <= k < |dataPoints| ==>
      dataPoints[k].timestamp == startMs + k * StepMs && dataPoints[k].timestamp < endMs
    ensures Shaped(dataPoints, roads)
    ensures forall k, i :: 0 <= k < |dataPoints| && 0 <= i < |roads| ==>
      GaugeWithinTotal(dataPoints[k].roadData[i])
    ensures TotalsIncrease(dataPoints, roads)
  {
    var ts;
    startMs, endMs, ts := Window(nowMs);
    dataPoints := ReplayTimestamps(ts, roads, draws);
    ReconstructionBounds(nowMs, roads, draws);
  }
}
