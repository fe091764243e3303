/** Car cohorts: the (color, maker) label pairs that partition the entry
    counters and the backfilled series. The live entry worker draws one
    color index and one maker index at random; the backfill walks colors in
    the outer loop and makers in the inner loop. A cohort is numbered
    colorIndex * 5 + makerIndex, which is the backfill's iteration order. */
module Cohorts {

  const Colors: seq<string> := ["red", "blue", "green", "black", "white"]
  const Makers: seq<string> := ["Toyota", "Ford", "BMW", "Tesla", "Honda"]

  const NumCohorts := 25

  /** One of the 25 (color, maker) pairs. */
  type Cohort = c: int | 0 <= c < 25

  /** The cohort of a color index and a maker index, as drawn by
      `rand.Intn(len(colors))` and `rand.Intn(len(makers))`. */
  function CohortOf(colorIndex: int, makerIndex: int): (c: Cohort)
    requires 0 <= colorIndex < |Colors| && 0 <= makerIndex < |Makers|
    ensures c / |Makers| == colorIndex && c % |Makers| == makerIndex
  {
    colorIndex * 5 + makerIndex
  }

  function ColorOf(c: Cohort): string { Colors[c / 5] }

  function MakerOf(c: Cohort): string { Makers[c % 5] }

  /** Every cohort is the cohort of its own color index and maker index. */
  lemma CohortRoundTrip(c: Cohort)
    ensures CohortOf(c / 5, c % 5) == c
  {
  }

  /** The cohort of a drawn color and maker carries exactly those labels. */
  lemma CohortLabels(colorIndex: int, makerIndex: int)
    requires 0 <= colorIndex < |Colors| && 0 <= makerIndex < |Makers|
    ensures ColorOf(CohortOf(colorIndex, makerIndex)) == Colors[colorIndex]
    ensures MakerOf(CohortOf(colorIndex, makerIndex)) == Makers[makerIndex]
  {
  }

  /** Different cohorts have different (color, maker) labels, so the labels
      identify the cohort. */
  lemma CohortLabelsInjective(c1: Cohort, c2: Cohort)
    ensures ColorOf(c1) == ColorOf(c2) && MakerOf(c1) == MakerOf(c2) ==> c1 == c2
  {
  }

  /** Real-valued per-cohort table (the `color/maker`-keyed maps of the source). */
  predicate IsCohortTable(s: seq<real>) { |s| == NumCohorts }

  function ZeroTable(): (s: seq<real>)
    ensures IsCohortTable(s) && forall c :: 0 <= c < |s| ==> s[c] == 0.0
  {
    seq(NumCohorts, _ => 0.0)
  }
}
