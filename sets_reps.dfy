/**
 * `generateRandomSetsReps`: for "Low" and "High" intensity, draw sets and
 * reps uniformly from the constant inclusive ranges; for any other intensity
 * leave both undefined. Each `Math.floor(Math.random() * width)` is an
 * injected offset in `[0, width)`.
 */
module SetsReps {
  import opened Wrappers

  /** An inclusive integer range `[lo, hi]`, as the two-element constant arrays. */
  datatype Range = Range(lo: nat, hi: nat)

  const LowSetsRange := Range(1, 4)
  const LowRepsRange := Range(4, 10)
  const HighSetsRange := Range(4, 8)
  const HighRepsRange := Range(10, 16)

  /** `range[1] - range[0] + 1`, the number of values a draw can produce. */
  function Width(range: Range): nat
  {
    if range.hi < range.lo then 0 else range.hi - range.lo + 1
  }

  /** The two random offsets one call consumes, one for sets and one for reps. */
  datatype Draws = Draws(setsOffset: nat, repsOffset: nat)

  /** The `{ sets, reps }` object; `None` stands for `undefined`. */
  datatype Prescription = Prescription(sets: Option<nat>, reps: Option<nat>)

  /** The offsets are what `Math.floor(Math.random() * width)` can yield for this intensity. */
  predicate ValidDraws(intensity: string, d: Draws)
  {
    && (intensity == "Low" ==> d.setsOffset < Width(LowSetsRange) && d.repsOffset < Width(LowRepsRange))
    && (intensity == "High" ==> d.setsOffset < Width(HighSetsRange) && d.repsOffset < Width(HighRepsRange))
  }

  /** `offset + range[0]`: a value of the range. */
  function DrawFrom(range: Range, offset: nat): (v: nat)
    requires offset < Width(range)
    ensures range.lo <= v <= range.hi
  {
    offset + range.lo
  }

  function GenerateRandomSetsReps(intensity: string, d: Draws): (r: Prescription)
    requires ValidDraws(intensity, d)
    ensures intensity == "Low" ==>
      r.sets.Some? && 1 <= r.sets.value <= 4 && r.reps.Some? && 4 <= r.reps.value <= 10
    ensures intensity == "High" ==>
      r.sets.Some? && 4 <= r.sets.value <= 8 && r.reps.Some? && 10 <= r.reps.value <= 16
    ensures intensity != "Low" && intensity != "High" ==> r.sets.None? && r.reps.None?
  {
    if intensity == "Low" then
      Prescription(Some(DrawFrom(LowSetsRange, d.setsOffset)), Some(DrawFrom(LowRepsRange, d.repsOffset)))
    else if intensity == "High" then
      Prescription(Some(DrawFrom(HighSetsRange, d.setsOffset)), Some(DrawFrom(HighRepsRange, d.repsOffset)))
    else
      Prescription(None, None)
  }

  /**
   * Every pair in the intensity's ranges is produced by exactly one pair of
   * offsets, so uniform offsets give uniform sets and reps.
   */
  lemma DrawsMatchPrescriptionsOneToOne(intensity: string, d: Draws, sets: nat, reps: nat)
    requires intensity == "Low" || intensity == "High"
    requires ValidDraws(intensity, d)
    requires intensity == "Low" ==> 1 <= sets <= 4 && 4 <= reps <= 10
    requires intensity == "High" ==> 4 <= sets <= 8 && 10 <= reps <= 16
    ensures var lo := if intensity == "Low" then Draws(sets - 1, reps - 4) else Draws(sets - 4, reps - 10);
      && ValidDraws(intensity, lo)
      && GenerateRandomSetsReps(intensity, lo) == Prescription(Some(sets), Some(reps))
      && (GenerateRandomSetsReps(intensity, d) == Prescription(Some(sets), Some(reps)) <==> d == lo)
  {
  }
}
