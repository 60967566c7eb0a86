/**
 * The body of the `setTimeout` callback in `handleGenerateWorkout`, apart
 * from the state updates: check the three selections, then render one
 * "<exercise>, Sets: <s> - Reps: <r>" entry per selected exercise and join the
 * entries with ", ".
 */
module Assembly {
  import opened Wrappers
  import opened SetsReps

  const ValidationMessage := "Please select workout type, muscle group, and intensity."
  const Separator := ", "

  predicate IsDigit(c: char) { '0' <= c <= '9' }

  function DigitChar(d: nat): (c: char)
    requires d < 10
  {
    "0123456789"[d]
  }

  function DigitValue(c: char): nat
    requires IsDigit(c)
  {
    (c as int) - ('0' as int)
  }

  /** Decimal rendering of a number, as a template literal writes it. */
  function DecimalString(n: nat): (s: string)
    ensures |s| >= 1
    ensures forall k :: 0 <= k < |s| ==> IsDigit(s[k])
    ensures |s| == 1 || s[0] != '0'
  {
    if n < 10 then [DigitChar(n)] else DecimalString(n / 10) + [DigitChar(n % 10)]
  }

  /** The number a string of decimal digits denotes. */
  function DecimalValue(s: string): nat
    requires forall k :: 0 <= k < |s| ==> IsDigit(s[k])
  {
    if s == [] then 0 else DecimalValue(s[..|s| - 1]) * 10 + DigitValue(s[|s| - 1])
  }

  /** The rendering of a number can be read back as that number. */
  lemma {:induction false} DecimalRoundTrip(n: nat)
    ensures DecimalValue(DecimalString(n)) == n
  {
    var s := DecimalString(n);
    if n >= 10 {
      DecimalRoundTrip(n / 10);
      assert s[..|s| - 1] == DecimalString(n / 10);
    }
  }

  /** `${v}` for a number or `undefined`. */
  function Show(v: Option<nat>): (s: string)
    ensures v.Some? ==> |s| >= 1 && (forall k :: 0 <= k < |s| ==> IsDigit(s[k])) && DecimalValue(s) == v.value
    ensures v.Some? ==> |s| == 1 || s[0] != '0'
    ensures v.None? ==> s == "undefined"
  {
    match v
    case Some(n) => DecimalRoundTrip(n); DecimalString(n)
    case None => "undefined"
  }

  /** The text of one prescription: `${exercise}, Sets: ${sets} - Reps: ${reps}`. */
  function FormatEntry(exercise: string, p: Prescription): (r: string)
    ensures |r| > |exercise| && r[..|exercise|] == exercise
    ensures var reps := Show(p.reps); |r| > |reps| && r[|r| - |reps|..] == reps
  {
    exercise + ", Sets: " + Show(p.sets) + " - Reps: " + Show(p.reps)
  }

  /** `Array.prototype.join(", ")`. */
  function Join(entries: seq<string>): (r: string)
    ensures |entries| > 0 ==> |r| >= |entries[0]| && r[..|entries[0]|] == entries[0]
  {
    if |entries| == 0 then ""
    else if |entries| == 1 then entries[0]
    else entries[0] + Separator + Join(entries[1..])
  }

  /** Joining keeps the entries in order: the join splits at any interior entry boundary. */
  lemma {:induction false} JoinSplitsAt(entries: seq<string>, k: nat)
    requires 0 < k < |entries|
    ensures Join(entries) == Join(entries[..k]) + Separator + Join(entries[k..])
  {
    if k > 1 {
      JoinSplitsAt(entries[1..], k - 1);
      assert entries[1..][..k - 1] == entries[..k][1..];
      assert entries[1..][k - 1..] == entries[k..];
    }
  }

  /** The join ends with the last entry. */
  lemma JoinEndsWithLast(entries: seq<string>)
    requires |entries| > 0
    ensures var last := entries[|entries| - 1];
      |Join(entries)| >= |last| && Join(entries)[|Join(entries)| - |last|..] == last
  {
    var n := |entries|;
    if n > 1 {
      JoinSplitsAt(entries, n - 1);
      assert entries[n - 1..] == [entries[n - 1]];
    }
  }

  /** `workoutType && muscleGroup && intensity`: every selection is a non-empty string. */
  predicate AllSelected(workoutType: string, muscleGroup: string, intensity: string)
  {
    workoutType != "" && muscleGroup != "" && intensity != ""
  }

  /** One valid pair of offsets for each exercise, in exercise order. */
  predicate DrawsCover(intensity: string, draws: seq<Draws>, count: nat)
  {
    |draws| >= count && forall k :: 0 <= k < |draws| ==> ValidDraws(intensity, draws[k])
  }

  /** `exercises.map(...)`: each exercise with its own, independently drawn, sets and reps. */
  function Entries(labels: seq<string>, intensity: string, draws: seq<Draws>): (r: seq<string>)
    requires DrawsCover(intensity, draws, |labels|)
    ensures |r| == |labels|
  {
    seq(|labels|, k requires 0 <= k < |labels| => FormatEntry(labels[k], GenerateRandomSetsReps(intensity, draws[k])))
  }

  /**
   * The workout text the callback computes, where `labels` is what the
   * exercise selector returns for the selections.
   */
  function AssembleWorkout(workoutType: string, muscleGroup: string, intensity: string,
                           labels: seq<string>, draws: seq<Draws>): (r: string)
    requires DrawsCover(intensity, draws, |labels|)
    ensures !AllSelected(workoutType, muscleGroup, intensity) ==> r == ValidationMessage
    ensures AllSelected(workoutType, muscleGroup, intensity) && labels == [] ==> r == ""
    ensures AllSelected(workoutType, muscleGroup, intensity) && labels != [] ==>
      r != "" && r != ValidationMessage
  {
    if AllSelected(workoutType, muscleGroup, intensity) then
      var entries := Entries(labels, intensity, draws);
      if entries == [] then ""
      else
        var n := |labels| - 1;
        WorkoutIsNotTheMessage(entries, labels[n], GenerateRandomSetsReps(intensity, draws[n]));
        Join(entries)
    else
      ValidationMessage
  }

  /** An entry ends with the last character of its reps, a digit or the "d" of "undefined". */
  lemma EntryEndsWithReps(exercise: string, p: Prescription)
    ensures var e := FormatEntry(exercise, p);
      e != "" && (IsDigit(e[|e| - 1]) || e[|e| - 1] == 'd')
  {
    var reps := Show(p.reps);
    var e := FormatEntry(exercise, p);
    assert e == (exercise + ", Sets: " + Show(p.sets) + " - Reps: ") + reps;
    assert e[|e| - 1] == reps[|reps| - 1];
  }

  /**
   * A joined list whose last entry is a prescription is non-empty and ends
   * with a digit or with "undefined", never with the full stop that ends the
   * validation message.
   */
  lemma WorkoutIsNotTheMessage(entries: seq<string>, exercise: string, p: Prescription)
    requires |entries| > 0 && entries[|entries| - 1] == FormatEntry(exercise, p)
    ensures Join(entries) != "" && Join(entries) != ValidationMessage
  {
    var last := entries[|entries| - 1];
    EntryEndsWithReps(exercise, p);
    JoinEndsWithLast(entries);
    var j := Join(entries);
    assert j[|j| - 1] == last[|last| - 1];
    assert ValidationMessage[|ValidationMessage| - 1] == '.';
  }

  /** Splitting the join at entry k, with a separator when entries precede it. */
  lemma JoinHead(entries: seq<string>, k: nat)
    requires k < |entries|
    ensures Join(entries) == Join(entries[..k]) + (if k > 0 then Separator else "") + Join(entries[k..])
  {
    if k > 0 {
      JoinSplitsAt(entries, k);
    } else {
      assert entries[k..] == entries;
    }
  }

  /** The join of the entries from k on starts with entry k. */
  lemma JoinTail(entries: seq<string>, k: nat)
    requires k < |entries|
    ensures Join(entries[k..]) == entries[k] + (if k + 1 < |entries| then Separator else "") + Join(entries[k + 1..])
  {
    var tail := entries[k..];
    assert tail[1..] == entries[k + 1..];
    if k + 1 == |entries| {
      assert tail == [entries[k]];
    }
  }

  /**
   * Regrouping a concatenation; a lemma of its own keeps the unfoldings of
   * `Join` out of this step of `JoinAt`.
   */
  lemma ConcatAssociates(x: string, y: string, z: string)
    ensures x + (y + z) == x + y + z
  {
  }

  /** The k-th entry stands between the join of the entries before it and the join of those after it. */
  lemma JoinAt(entries: seq<string>, k: nat)
    requires k < |entries|
    ensures Join(entries) == Join(entries[..k]) + (if k > 0 then Separator else "")
      + entries[k] + (if k + 1 < |entries| then Separator else "") + Join(entries[k + 1..])
  {
    JoinHead(entries, k);
    JoinTail(entries, k);
    var before: string := Join(entries[..k]);
    var sep1: string := if k > 0 then Separator else "";
    var sep2: string := if k + 1 < |entries| then Separator else "";
    var after: string := Join(entries[k + 1..]);
    ConcatAssociates(before + sep1, entries[k] + sep2, after);
    ConcatAssociates(before, sep1, entries[k] + sep2);
    ConcatAssociates(before + sep1, entries[k], sep2);
  }

  /**
   * The k-th selected exercise's entry stands in k-th place of the workout
   * text, between the entries before it and those after it.
   */
  lemma WorkoutListsEntriesInOrder(workoutType: string, muscleGroup: string, intensity: string,
                                   labels: seq<string>, draws: seq<Draws>, k: nat)
    requires DrawsCover(intensity, draws, |labels|)
    requires AllSelected(workoutType, muscleGroup, intensity) && k < |labels|
    ensures var entries := Entries(labels, intensity, draws);
      AssembleWorkout(workoutType, muscleGroup, intensity, labels, draws)
        == Join(entries[..k]) + (if k > 0 then Separator else "")
           + FormatEntry(labels[k], GenerateRandomSetsReps(intensity, draws[k]))
           + (if k + 1 < |labels| then Separator else "") + Join(entries[k + 1..])
  {
    JoinAt(Entries(labels, intensity, draws), k);
  }
}
