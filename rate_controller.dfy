/** The rate controller: applying a named traffic pattern to a road of the
    registry, then snapping the occupancy down to the pattern's target. */
module RateController {
  import opened RoadState

  /** A pattern preset: the four rate parameters, the pattern code reported
      on the pattern gauge, and the fraction of capacity that is the target
      occupancy. */
  datatype Preset = Preset(entryRate: int, exitRate: int, capacity: int, minDelay: int,
                           code: nat, fraction: real)

  const RushHour := "rush_hour"
  const Night := "night"

  /** The preset stored for a pattern name; every name other than the two
      known ones selects the normal daytime preset. */
  function PresetFor(rate: string): (p: Preset)
    ensures p.code in {1, 2, 3}
    ensures p.code == 3 <==> rate == RushHour
    ensures p.code == 1 <==> rate == Night
    ensures p.entryRate >= 1 && p.exitRate >= 1 && p.capacity > 0 && p.minDelay > 0
    ensures 0.0 < p.fraction < 1.0
  {
    if rate == RushHour then Preset(8, 2, 150, 100, 3, 0.8)
    else if rate == Night then Preset(1, 12, 50, 10000, 1, 0.05)
    else Preset(3, 4, 100, 1000, 2, 0.4)
  }

  /** The target occupancy, computed from the capacity the preset stores
      (not from the road's capacity before the switch). */
  function Target(p: Preset): (t: real)
    requires p.capacity > 0 && 0.0 < p.fraction < 1.0
    ensures 0.0 < t < p.capacity as real
  {
    p.capacity as real * p.fraction
  }

  /** The three targets are 80% of 150, 5% of 50 and 40% of 100. */
  lemma TargetValues(rate: string)
    ensures rate == RushHour ==> Target(PresetFor(rate)) == 120.0
    ensures rate == Night ==> Target(PresetFor(rate)) == 2.5
    ensures rate != RushHour && rate != Night ==> Target(PresetFor(rate)) == 40.0
  {
  }

  /** Occupancy after rebalancing: above the target, the difference is
      subtracted; at or below it, nothing happens. The result is the
      smaller of the two. */
  function Rebalanced(cars: real, target: real): (r: real)
    ensures r <= cars && r <= target
    ensures r == cars || r == target
  {
    if cars > target then cars - (cars - target) else cars
  }

  function Min(a: real, b: real): real { if a <= b then a else b }

  /** Rebalancing snaps exactly to the target from above and leaves the
      occupancy alone otherwise, i.e. it takes the minimum; doing it twice
      is the same as doing it once. */
  lemma RebalancedIsMin(cars: real, target: real)
    ensures Rebalanced(cars, target) == Min(cars, target)
    ensures cars > target ==> Rebalanced(cars, target) == target
    ensures cars <= target ==> Rebalanced(cars, target) == cars
    ensures Rebalanced(Rebalanced(cars, target), target) == Rebalanced(cars, target)
  {
  }

  /** A road at 40 cars switched to the night pattern ends at 2.5 cars; three
      exit cycles later its occupancy is negative. */
  lemma NightSnapThenExits()
    ensures Rebalanced(40.0, Target(PresetFor(Night))) == 2.5
    ensures AfterExit(AfterExit(AfterExit(2.5))) == -0.5
  {
  }

  /** The reply of the pattern-set command: HTTP status and body text. */
  datatype Reply = Reply(status: int, body: string)

  const StatusOK := 200
  const StatusNotFound := 404

  /** The road registry: road names to their state. */
  class Registry {
    var roads: map<string, Road>

    ghost predicate Valid()
      reads this, roads.Values
    {
      forall name :: name in roads ==> roads[name].Valid()
    }

    /** Applies pattern `rate` to road `roadName`. An unknown road is a
        not-found reply and changes nothing. */
    method SetRate(roadName: string, rate: string) returns (reply: Reply)
      requires Valid()
      modifies roads.Values
      ensures Valid() && roads == old(roads)
      ensures roadName !in roads ==>
        && reply == Reply(StatusNotFound, "Road " + roadName + " not found\n")
        && unchanged(roads.Values)
      ensures roadName in roads ==>
        var road, p := roads[roadName], PresetFor(rate);
        && reply == Reply(StatusOK, "Traffic pattern for road " + roadName + " set to " + rate)
        && road.entryRate == p.entryRate && road.exitRate == p.exitRate
        && road.capacity == p.capacity && road.minDelay == p.minDelay
        && road.pattern == p.code
        && road.currentCars == Rebalanced(old(road.currentCars), Target(p))
        && road.entered == old(road.entered)
      ensures forall r :: r in roads.Values && (roadName !in roads || r != roads[roadName]) ==> unchanged(r)
    {
      if roadName !in roads {
        reply := Reply(StatusNotFound, "Road " + roadName + " not found\n");
        return;
      }
      var road := roads[roadName];
      var currentCars := road.currentCars;
      var targetCars: real;
      if rate == RushHour {
        road.entryRate, road.exitRate, road.capacity, road.minDelay := 8, 2, 150, 100;
        road.pattern := 3;
        targetCars := road.capacity as real * 0.8;
      } else if rate == Night {
        road.entryRate, road.exitRate, road.capacity, road.minDelay := 1, 12, 50, 10000;
        road.pattern := 1;
        targetCars := road.capacity as real * 0.05;
      } else {
        road.entryRate, road.exitRate, road.capacity, road.minDelay := 3, 4, 100, 1000;
        road.pattern := 2;
        targetCars := road.capacity as real * 0.4;
      }
      if currentCars > targetCars {
        var adjustment := currentCars - targetCars;
        road.currentCars := road.currentCars - adjustment;
      }
      reply := Reply(StatusOK, "Traffic pattern for road " + roadName + " set to " + rate);
    }
  }
}
