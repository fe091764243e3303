/** Road state and the live simulator's single cycles (entry and exit
    workers), with the goroutines, the sleeps and the locks stripped away:
    one call of EntryCycle or ExitCycle is one iteration of a worker's loop. */
module RoadState {
  import opened Cohorts

  const DefaultEntryRate := 1
  const DefaultExitRate := 1
  const DefaultCapacity := 100
  const DefaultMinDelay := 500

  /** Exclusive upper bound of the random draw `rand.Int63n(1000)`. */
  const DrawBound := 1000

  /** The sleep, in milliseconds, after a worker's cycle: the draw divided
      (integer division) by the current rate, plus the minimum delay.
      The delay is the minimum delay plus the largest q with q * rate <= draw. */
  function Delay(draw: int, rate: int, minDelay: int): (d: int)
    requires 0 <= draw < DrawBound && rate >= 1
    ensures minDelay <= d < minDelay + DrawBound
    ensures (d - minDelay) * rate <= draw < (d - minDelay + 1) * rate
  {
    draw / rate + minDelay
  }

  /** A higher rate never gives a longer delay for the same draw. */
  lemma DelayAntitone(draw: int, rate1: int, rate2: int, minDelay: int)
    requires 0 <= draw < DrawBound && 1 <= rate1 <= rate2
    ensures Delay(draw, rate2, minDelay) <= Delay(draw, rate1, minDelay)
  {
    var q1 := Delay(draw, rate1, minDelay) - minDelay;
    var q2 := Delay(draw, rate2, minDelay) - minDelay;
    if q2 > q1 {
      calc {
        draw;
      < (q1 + 1) * rate1;
      <= { MulMonotone(q1 + 1, rate1, rate2); }
        (q1 + 1) * rate2;
      <= { MulMonotoneLeft(q1 + 1, q2, rate2); }
        q2 * rate2;
      <= draw;
      }
    }
  }

  lemma MulMonotone(a: int, b: int, c: int)
    requires a >= 0 && b <= c
    ensures a * b <= a * c
  {
  }

  lemma MulMonotoneLeft(a: int, b: int, c: int)
    requires a <= b && c >= 0
    ensures a * c <= b * c
  {
  }

  /** Occupancy after one entry cycle: a car enters only while the road is
      strictly below its capacity. */
  function AfterEntry(cars: real, capacity: int): (r: real)
    ensures r > cars <==> cars < capacity as real
    ensures r == cars || r == cars + 1.0
  {
    if cars < capacity as real then cars + 1.0 else cars
  }

  /** Occupancy after one exit cycle: a car leaves whenever the occupancy is
      strictly positive, whole or not. */
  function AfterExit(cars: real): (r: real)
    ensures r < cars <==> cars > 0.0
    ensures r == cars || r == cars - 1.0
  {
    if cars > 0.0 then cars - 1.0 else cars
  }

  ghost predicate Whole(x: real) { x == x.Floor as real }

  /** While the occupancy is a whole number within capacity, entry cycles
      keep it whole and within capacity. */
  lemma EntryKeepsWholeWithinCapacity(cars: real, capacity: int)
    requires Whole(cars) && cars <= capacity as real
    ensures Whole(AfterEntry(cars, capacity))
    ensures AfterEntry(cars, capacity) <= capacity as real
  {
    if cars < capacity as real {
      var n := cars.Floor;
      assert n < capacity;
      assert (n + 1) as real == cars + 1.0;
      assert (cars + 1.0).Floor == n + 1;
    }
  }

  /** Entry does not promise occupancy <= capacity: a fractional occupancy
      just below capacity ends up above it. */
  lemma EntryCanOvershootCapacity()
    ensures AfterEntry(49.5, 50) == 50.5 > 50 as real
  {
  }

  /** While the occupancy is a non-negative whole number, exit cycles keep it
      a non-negative whole number. */
  lemma ExitKeepsWholeNonNegative(cars: real)
    requires Whole(cars) && cars >= 0.0
    ensures Whole(AfterExit(cars)) && AfterExit(cars) >= 0.0
  {
    if cars > 0.0 {
      var n := cars.Floor;
      assert n >= 1;
      assert (n - 1) as real == cars - 1.0;
      assert (cars - 1.0).Floor == n - 1;
    }
  }

  /** The exit guard only tests `> 0`: from a fractional occupancy below one
      the next exit makes it negative. */
  lemma ExitCanGoNegative()
    ensures AfterExit(0.5) == -0.5
  {
  }

  /** The state of one road. `entered` stands for the road's entry counters
      (one per cohort) and `pattern` for its pattern gauge, 0 until a
      pattern has been applied. */
  class Road {
    const name: string
    var currentCars: real
    var entryRate: int
    var exitRate: int
    var capacity: int
    var minDelay: int
    ghost var entered: seq<nat>
    ghost var pattern: nat

    /** Rates stay at least 1, so the delay's division is defined. */
    ghost predicate Valid()
      reads this
    {
      |entered| == NumCohorts && entryRate >= 1 && exitRate >= 1
    }

    constructor (name: string)
      ensures Valid() && this.name == name
      ensures currentCars == 0.0
      ensures entryRate == DefaultEntryRate && exitRate == DefaultExitRate
      ensures capacity == DefaultCapacity && minDelay == DefaultMinDelay
      ensures entered == seq(NumCohorts, _ => 0) && pattern == 0
    {
      this.name := name;
      currentCars := 0.0;
      entryRate := DefaultEntryRate;
      exitRate := DefaultExitRate;
      capacity := DefaultCapacity;
      minDelay := DefaultMinDelay;
      entered := seq(NumCohorts, _ => 0);
      pattern := 0;
    }

    /** One cycle of an entry worker. `draw` is the delay draw, `colorIndex`
        and `makerIndex` the cohort draws; the returned delay is the sleep
        that follows the cycle. */
    method EntryCycle(draw: int, colorIndex: int, makerIndex: int) returns (delay: int)
      requires Valid()
      requires 0 <= draw < DrawBound
      requires 0 <= colorIndex < |Colors| && 0 <= makerIndex < |Makers|
      modifies this
      ensures Valid()
      ensures delay == Delay(draw, entryRate, minDelay)
      ensures currentCars == AfterEntry(old(currentCars), capacity)
      ensures old(currentCars) < capacity as real ==>
        var c := CohortOf(colorIndex, makerIndex);
        entered == old(entered)[c := old(entered)[c] + 1]
      ensures old(currentCars) >= capacity as real ==> entered == old(entered)
      ensures entryRate == old(entryRate) && exitRate == old(exitRate)
      ensures capacity == old(capacity) && minDelay == old(minDelay)
      ensures pattern == old(pattern)
    {
      var currentRate := entryRate;
      delay := draw / currentRate + minDelay;
      var canAdd := currentCars < capacity as real;
      if canAdd {
        var c := CohortOf(colorIndex, makerIndex);
        currentCars := currentCars + 1.0;
        entered := entered[c := entered[c] + 1];
      }
    }

    /** One cycle of an exit worker; exits are not attributed to a cohort. */
    method ExitCycle(draw: int) returns (delay: int)
      requires Valid()
      requires 0 <= draw < DrawBound
      modifies this
      ensures Valid()
      ensures delay == Delay(draw, exitRate, minDelay)
      ensures currentCars == AfterExit(old(currentCars))
      ensures entered == old(entered) && pattern == old(pattern)
      ensures entryRate == old(entryRate) && exitRate == old(exitRate)
      ensures capacity == old(capacity) && minDelay == old(minDelay)
    {
      var currentRate := exitRate;
      delay := draw / currentRate + minDelay;
      var canRemove := currentCars > 0.0;
      if canRemove {
        currentCars := currentCars - 1.0;
      }
    }
  }
}
