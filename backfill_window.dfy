/** Time arithmetic of the backfill, on Unix milliseconds (UTC): the window
    that ends a minute before now, its 5-minute sample timestamps, the hour
    of day, and the traffic regime of an hour. */
module BackfillWindow {

  const MinuteMs := 60_000
  const HourMs := 60 * MinuteMs
  const DayMs := 24 * HourMs
  const StepMs := 5 * MinuteMs
  const WindowMs := 55 * MinuteMs

  /** End of the window: one minute before now, truncated down to a whole
      minute. It is the largest whole minute at or before now - 1 minute. */
  function WindowEnd(nowMs: int): (e: int)
    ensures e % MinuteMs == 0
    ensures nowMs - 2 * MinuteMs < e <= nowMs - MinuteMs
  {
    ((nowMs - MinuteMs) / MinuteMs) * MinuteMs
  }

  /** The timestamps `start, start + step, ...` strictly before `end`. */
  method Timestamps(startMs: int, endMs: int) returns (ts: seq<int>)
    ensures forall k :: 0 <= k < |ts| ==> ts[k] == startMs + k * StepMs && ts[k] < endMs
    ensures startMs + |ts| * StepMs >= endMs
  {
    ts := [];
    var t := startMs;
    while t < endMs
      invariant t == startMs + |ts| * StepMs
      invariant forall k :: 0 <= k < |ts| ==> ts[k] == startMs + k * StepMs && ts[k] < endMs
      decreases endMs - t
    {
      ts := ts + [t];
      t := t + StepMs;
    }
  }

  /** The 11 window timestamps for `nowMs`: 5 minutes apart, starting 55
      minutes before the end of the window. */
  function WindowTimes(nowMs: int): (ts: seq<int>)
    ensures |ts| == 11
  {
    seq(11, k => WindowEnd(nowMs) - WindowMs + k * StepMs)
  }

  /** The backfill window for `nowMs`: 55 minutes ending a truncated minute
      before now, sampled every 5 minutes, which gives exactly 11
      increasing timestamps, all before the end and so before now. */
  method Window(nowMs: int) returns (startMs: int, endMs: int, ts: seq<int>)
    ensures endMs == WindowEnd(nowMs) && startMs == endMs - WindowMs
    ensures |ts| == 11
    ensures forall k :: 0 <= k < |ts| ==> ts[k] == startMs + k * StepMs
    ensures forall j, k :: 0 <= j < k < |ts| ==> ts[j] < ts[k]
    ensures forall k :: 0 <= k < |ts| ==> startMs <= ts[k] < endMs < nowMs
    ensures ts == WindowTimes(nowMs)
  {
    endMs := WindowEnd(nowMs);
    startMs := endMs - WindowMs;
    ts := Timestamps(startMs, endMs);
    if |ts| > 0 {
      assert ts[|ts| - 1] < endMs;
    }
  }

  /** At 2024-01-01T12:00:00Z the window runs from 11:04 to 11:59. */
  lemma WindowAtNoon()
    ensures WindowEnd(1_704_110_400_000) == 1_704_110_340_000
    ensures WindowEnd(1_704_110_400_000) - WindowMs == 1_704_107_040_000
  {
  }

  /** UTC hour of day of a Unix millisecond timestamp: the hour whose span
      within the day holds the timestamp. */
  function HourOfDay(ms: int): (h: int)
    ensures 0 <= h < 24
    ensures h * HourMs <= ms % DayMs < (h + 1) * HourMs
  {
    (ms / HourMs) % 24
  }

  /** Traffic regime of an hour: cars entering per cohort and step, and how
      many minutes a car stays on the road. */
  datatype Regime = Regime(baseRate: real, travelMinutes: nat)

  predicate IsRush(hour: int) { (7 <= hour <= 9) || (16 <= hour <= 18) }
  predicate IsNight(hour: int) { hour >= 23 || hour <= 4 }

  function RegimeAt(hour: int): (g: Regime)
    ensures IsRush(hour) ==> g == Regime(4.0, 40)
    ensures IsNight(hour) ==> g == Regime(0.5, 10)
    ensures !IsRush(hour) && !IsNight(hour) ==> g == Regime(2.0, 25)
  {
    if 7 <= hour <= 9 then Regime(4.0, 40)
    else if 16 <= hour <= 18 then Regime(4.0, 40)
    else if hour >= 23 || hour <= 4 then Regime(0.5, 10)
    else Regime(2.0, 25)
  }

  /** Busier regimes keep cars longer: the travel time orders the regimes
      exactly as the base rate does. */
  lemma RegimeOrdering(h1: int, h2: int)
    ensures RegimeAt(h1).travelMinutes < RegimeAt(h2).travelMinutes
        <==> RegimeAt(h1).baseRate < RegimeAt(h2).baseRate
    ensures RegimeAt(h1).baseRate > 0.0
  {
  }

  /** Entries at or before the cutoff have left the road. The cutoff never
      lies after `t`, and strictly before it whenever cars take any time to
      cross. */
  function Cutoff(t: int, g: Regime): (cutoff: int)
    ensures cutoff <= t
    ensures cutoff < t <==> g.travelMinutes > 0
  {
    t - g.travelMinutes * MinuteMs
  }

  /** In every regime an entry stays on the road between 10 and 40 minutes:
      the cutoff lies that far before the step. */
  lemma CutoffRange(t: int, hour: int)
    ensures t - 40 * MinuteMs <= Cutoff(t, RegimeAt(hour)) <= t - 10 * MinuteMs
  {
  }
}
