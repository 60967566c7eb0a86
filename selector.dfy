/**
 * `generateRandomExercise`: reorder the catalog entry in place, keep its first
 * four names, then run two superset passes over that selection. Each pass
 * looks in the reordered entry for the first position `i` other than the
 * slot index whose name is not currently in the selection, and appends
 * " (Superset with <name>)" to that slot.
 */
module ExerciseSelector {
  import opened Wrappers
  import opened Permutations

  /** How many exercises `slice(0, 4)` keeps, and the bound of the superset slot draws. */
  const SelectionSize: nat := 4

  function Min(a: nat, b: nat): nat { if a <= b then a else b }

  /** The annotation appended to a slot that gets a superset partner. */
  function SupersetSuffix(name: string): string
  {
    " (Superset with " + name + ")"
  }

  /** The `find` callback: position `i` is not the slot index and its name is not in the selection. */
  predicate IsCandidate(all: seq<string>, selected: seq<string>, index: int, i: int)
    requires 0 <= i < |all|
  {
    i != index && all[i] !in selected
  }

  /** `i` is the position `find` stops at: a candidate with no candidate before it. */
  predicate IsFirstCandidate(all: seq<string>, selected: seq<string>, index: int, i: int)
  {
    && 0 <= i < |all|
    && IsCandidate(all, selected, index, i)
    && forall j :: 0 <= j < i ==> !IsCandidate(all, selected, index, j)
  }

  /** The first candidate position at or after `from`, searching left to right. */
  function FirstCandidateFrom(all: seq<string>, selected: seq<string>, index: int, from: nat): (r: Option<nat>)
    requires from <= |all|
    ensures r.Some? ==> from <= r.value < |all| && IsCandidate(all, selected, index, r.value)
    ensures forall j :: from <= j < |all| && (r.None? || j < r.value) ==> !IsCandidate(all, selected, index, j)
    decreases |all| - from
  {
    if from == |all| then None
    else if IsCandidate(all, selected, index, from) then Some(from)
    else FirstCandidateFrom(all, selected, index, from + 1)
  }

  /**
   * The text one superset pass appends to slot `index`: the suffix naming the
   * element `find` returns, or nothing when `find` returns `undefined` or an
   * empty name (both are falsy in the `if` that guards the update).
   */
  function AppendedSuffix(all: seq<string>, selected: seq<string>, index: int): (r: string)
    ensures r != "" <==> exists i :: IsFirstCandidate(all, selected, index, i) && all[i] != ""
    ensures forall i :: IsFirstCandidate(all, selected, index, i) && all[i] != "" ==> r == SupersetSuffix(all[i])
  {
    match FirstCandidateFrom(all, selected, index, 0)
    case None => ""
    case Some(i) => if all[i] == "" then "" else SupersetSuffix(all[i])
  }

  /**
   * What a selection looks like between the passes: `min(4, |all|)` labels,
   * and, when the entry has at most four names, exactly those names.
   */
  predicate SelectionShape(all: seq<string>, selected: seq<string>)
  {
    && |selected| == Min(SelectionSize, |all|)
    && (|all| <= SelectionSize ==> selected == all)
  }

  /** With every name of the entry already selected, `find` has nothing to return. */
  lemma NoCandidateWhenAllSelected(all: seq<string>, selected: seq<string>, index: int)
    requires selected == all
    ensures AppendedSuffix(all, selected, index) == ""
  {
    forall i | 0 <= i < |all| ensures !IsCandidate(all, selected, index, i) {
      assert all[i] == selected[i];
    }
  }

  /** One iteration of the `for` loop: `selectedExercises[index] += suffix`. */
  function SupersetPass(all: seq<string>, selected: seq<string>, index: nat): (r: seq<string>)
    requires SelectionShape(all, selected) && index < SelectionSize
    ensures SelectionShape(all, r)
  {
    var suffix := AppendedSuffix(all, selected, index);
    if suffix == "" then selected
    else if index < |selected| then selected[index := selected[index] + suffix]
    else
      NoCandidateWhenAllSelected(all, selected, index);
      assert false;
      selected
  }

  /** The passes for the superset slot indexes `indexes`, in order. */
  function SupersetPasses(all: seq<string>, selected: seq<string>, indexes: seq<nat>): (r: seq<string>)
    requires SelectionShape(all, selected)
    requires forall k :: 0 <= k < |indexes| ==> indexes[k] < SelectionSize
    ensures SelectionShape(all, r)
  {
    if indexes == [] then selected
    else SupersetPass(all, SupersetPasses(all, selected, indexes[..|indexes| - 1]), indexes[|indexes| - 1])
  }

  /** The first (at most) four names of the reordered entry. */
  function BaseSelection(all: seq<string>): (r: seq<string>)
    ensures SelectionShape(all, r)
  {
    all[..Min(SelectionSize, |all|)]
  }

  /**
   * The labels `generateRandomExercise` returns for the reordered entry `all`
   * and the two superset slot draws.
   */
  function Selection(all: seq<string>, first: nat, second: nat): (r: seq<string>)
    requires first < SelectionSize && second < SelectionSize
    ensures |r| == Min(SelectionSize, |all|)
    ensures |all| <= SelectionSize ==> r == all
  {
    SupersetPasses(all, BaseSelection(all), [first, second])
  }

  /**
   * The `find` call as a linear search over the reordered entry: the first
   * element that is not at the slot index and not in the current selection.
   */
  method FindSupersetExercise(all: array<string>, selected: seq<string>, index: nat) returns (found: Option<string>)
    ensures found.None? <==> forall i :: 0 <= i < all.Length ==> !IsCandidate(all[..], selected, index, i)
    ensures found.Some? ==> exists i :: IsFirstCandidate(all[..], selected, index, i) && found.value == all[i]
    ensures AppendedSuffix(all[..], selected, index)
      == if found.Some? && found.value != "" then SupersetSuffix(found.value) else ""
  {
    var i := 0;
    while i < all.Length
      invariant 0 <= i <= all.Length
      invariant forall j :: 0 <= j < i ==> !IsCandidate(all[..], selected, index, j)
    {
      if i != index && all[i] !in selected {
        found := Some(all[i]);
        assert IsFirstCandidate(all[..], selected, index, i);
        FoundNameGivesSuffix(all[..], selected, index, found);
        return;
      }
      i := i + 1;
    }
    found := None;
    FoundNameGivesSuffix(all[..], selected, index, found);
  }

  /** `for (const index of supersetIndexes)`: one superset pass per slot draw, updating `chosen` in place. */
  method AddSupersets(entry: array<string>, chosen: array<string>, indexes: seq<nat>)
    requires SelectionShape(entry[..], chosen[..])
    requires forall k :: 0 <= k < |indexes| ==> indexes[k] < SelectionSize
    modifies chosen
    ensures entry[..] == old(entry[..])
    ensures chosen[..] == SupersetPasses(entry[..], old(chosen[..]), indexes)
  {
    ghost var all := entry[..];
    ghost var base := chosen[..];
    for k := 0 to |indexes|
      invariant entry[..] == all
      invariant chosen[..] == SupersetPasses(all, base, indexes[..k])
    {
      var index := indexes[k];
      ghost var before := chosen[..];
      var found := FindSupersetExercise(entry, chosen[..], index);
      if found.Some? && found.value != "" {
        chosen[index] := chosen[index] + SupersetSuffix(found.value);
      }
      PassAppendsFoundName(all, before, index, found, chosen[..]);
      assert indexes[..k + 1][..k] == indexes[..k];
    }
    assert indexes[..|indexes|] == indexes;
  }

  /**
   * Appending the suffix of the name the search returns, when that name is
   * non-empty, performs one superset pass.
   */
  lemma PassAppendsFoundName(all: seq<string>, before: seq<string>, index: nat, found: Option<string>,
                             after: seq<string>)
    requires SelectionShape(all, before) && index < SelectionSize
    requires AppendedSuffix(all, before, index)
      == if found.Some? && found.value != "" then SupersetSuffix(found.value) else ""
    requires found.Some? && found.value != "" ==>
      index < |before| && after == before[index := before[index] + SupersetSuffix(found.value)]
    requires !(found.Some? && found.value != "") ==> after == before
    ensures after == SupersetPass(all, before, index)
  {
  }

  /** The name the search returns determines what the pass appends. */
  lemma FoundNameGivesSuffix(all: seq<string>, selected: seq<string>, index: nat, found: Option<string>)
    requires found.None? <==> forall i :: 0 <= i < |all| ==> !IsCandidate(all, selected, index, i)
    requires found.Some? ==> exists i :: IsFirstCandidate(all, selected, index, i) && found.value == all[i]
    ensures AppendedSuffix(all, selected, index)
      == if found.Some? && found.value != "" then SupersetSuffix(found.value) else ""
  {
    if found.Some? {
      var i :| IsFirstCandidate(all, selected, index, i) && found.value == all[i];
      forall j | IsFirstCandidate(all, selected, index, j) ensures j == i {
      }
    }
  }

  /**
   * `generateRandomExercise` on the catalog entry `entry`. The entry itself is
   * reordered by `perm` (the outcome of the random sort); `first` and `second`
   * are the two `Math.floor(Math.random() * 4)` draws.
   */
  method GenerateRandomExercise(entry: array<string>, perm: seq<nat>, first: nat, second: nat)
    returns (selected: seq<string>)
    requires IsPermutation(perm, entry.Length)
    requires first < SelectionSize && second < SelectionSize
    modifies entry
    ensures entry[..] == Permute(old(entry[..]), perm)
    ensures multiset(entry[..]) == multiset(old(entry[..]))
    ensures selected == Selection(entry[..], first, second)
  {
    Shuffle(entry, perm);
    var n := Min(SelectionSize, entry.Length);
    var chosen := new string[n];
    forall k | 0 <= k < n {
      chosen[k] := entry[k];
    }
    assert chosen[..] == BaseSelection(entry[..]);
    AddSupersets(entry, chosen, [first, second]);
    selected := chosen[..];
  }
}

module SelectorProperties {
  import opened Wrappers
  import opened Permutations
  import opened ExerciseSelector

  /**
   * One superset pass either leaves the selection as it is, or appends to
   * slot `index` the suffix naming the first position `i` other than `index`
   * whose name is not in the selection; no other slot changes.
   */
  lemma SupersetPassAnnotatesOnlyWithCandidate(all: seq<string>, selected: seq<string>, index: nat)
    requires SelectionShape(all, selected) && index < SelectionSize
    ensures var r := SupersetPass(all, selected, index);
      || (r == selected
          && forall i :: IsFirstCandidate(all, selected, index, i) ==> all[i] == "")
      || (index < |selected|
          && exists i :: IsFirstCandidate(all, selected, index, i) && all[i] != ""
                         && r == selected[index := selected[index] + SupersetSuffix(all[i])])
  {
    var r := SupersetPass(all, selected, index);
    if AppendedSuffix(all, selected, index) != "" {
      var i :| IsFirstCandidate(all, selected, index, i) && all[i] != "";
      assert r == selected[index := selected[index] + SupersetSuffix(all[i])];
    }
  }

  /** The selection is the base selection after the first slot's pass and then the second slot's. */
  lemma SelectionIsTwoPasses(all: seq<string>, first: nat, second: nat)
    requires first < SelectionSize && second < SelectionSize
    ensures Selection(all, first, second)
      == SupersetPass(all, SupersetPass(all, BaseSelection(all), first), second)
  {
    var base := BaseSelection(all);
    assert [first, second][..1] == [first] && [first][..0] == [];
    assert SupersetPasses(all, base, [first]) == SupersetPass(all, base, first);
  }

  /**
   * Every label is its base name followed by what the first pass appends
   * (when it is the first slot) and then what the second pass appends (when
   * it is the second slot): a repeated slot receives both suffixes, and every
   * other slot keeps its plain name.
   */
  lemma SelectionLabels(all: seq<string>, first: nat, second: nat)
    requires first < SelectionSize && second < SelectionSize
    ensures var base := BaseSelection(all);
      var suffix1 := AppendedSuffix(all, base, first);
      var suffix2 := AppendedSuffix(all, SupersetPass(all, base, first), second);
      var r := Selection(all, first, second);
      && |r| == |base|
      && forall k :: 0 <= k < |r| ==>
           r[k] == all[k] + (if k == first then suffix1 else "") + (if k == second then suffix2 else "")
  {
    SelectionIsTwoPasses(all, first, second);
  }

  /**
   * The selection before annotation is taken from the original entry without
   * replacement: it holds `min(4, |entry|)` of the entry's names, no name more
   * often than the entry does, and no repeated name when the entry has none.
   */
  lemma BaseSelectionDrawnFromEntry(original: seq<string>, perm: seq<nat>)
    requires IsPermutation(perm, |original|)
    ensures var base := BaseSelection(Permute(original, perm));
      && |base| == Min(SelectionSize, |original|)
      && multiset(base) <= multiset(original)
      && (Distinct(original) ==> Distinct(base))
  {
    var all := Permute(original, perm);
    var m := Min(SelectionSize, |all|);
    PermutePreservesMultiset(original, perm);
    assert all == all[..m] + all[m..];
    assert multiset(all) == multiset(all[..m]) + multiset(all[m..]);
    if Distinct(original) {
      PermutePreservesDistinct(original, perm);
    }
  }

  /**
   * On an entry of more than four distinct names, the first pass annotates
   * its slot with the fifth name of the reordered entry: the four selected
   * names all precede it, and the slot's own position is skipped.
   */
  lemma FirstPassOnDistinctEntry(all: seq<string>, slot: nat)
    requires |all| > SelectionSize && Distinct(all) && all[SelectionSize] != ""
    requires slot < SelectionSize
    ensures var base := BaseSelection(all);
      SupersetPass(all, base, slot) == base[slot := all[slot] + SupersetSuffix(all[SelectionSize])]
  {
    var base := BaseSelection(all);
    forall j | 0 <= j < SelectionSize ensures !IsCandidate(all, base, slot, j) {
      assert all[j] == base[j];
    }
    assert all[SelectionSize] !in base;
    assert IsFirstCandidate(all, base, slot, SelectionSize);
  }

  /**
   * With a repeated slot draw on an entry of more than four distinct names,
   * the slot is annotated twice with the fifth name of the reordered entry:
   * the second pass appends rather than overwrites.
   */
  lemma RepeatedSlotAppendsTwice(all: seq<string>, slot: nat)
    requires |all| > SelectionSize && Distinct(all) && all[SelectionSize] != ""
    requires slot < SelectionSize
    ensures var r := Selection(all, slot, slot);
      && r[slot] == all[slot] + SupersetSuffix(all[SelectionSize]) + SupersetSuffix(all[SelectionSize])
      && forall k :: 0 <= k < |r| && k != slot ==> r[k] == all[k]
  {
    var fifth := all[SelectionSize];
    var base := BaseSelection(all);
    FirstPassOnDistinctEntry(all, slot);
    var once := SupersetPass(all, base, slot);
    forall j | 0 <= j < SelectionSize ensures !IsCandidate(all, once, slot, j) {
      if j != slot {
        assert all[j] == once[j];
      }
    }
    assert |once[slot]| > |fifth|;
    assert fifth !in once;
    assert IsFirstCandidate(all, once, slot, SelectionSize);
    SelectionIsTwoPasses(all, slot, slot);
  }

  /**
   * With two different slot draws on an entry of more than four distinct
   * names, the first slot is annotated with the fifth name, and the second slot
   * with the plain name of the first slot: that name left the selection when
   * the first slot was annotated, so the second search accepts it although it
   * is one of the four selected exercises.
   */
  lemma SecondPassCanNameSelectedExercise(all: seq<string>, first: nat, second: nat)
    requires first < SelectionSize && second < SelectionSize && first != second
    requires |all| > SelectionSize && Distinct(all) && all[SelectionSize] != "" && all[first] != ""
    ensures var r := Selection(all, first, second);
      && r[first] == all[first] + SupersetSuffix(all[SelectionSize])
      && r[second] == all[second] + SupersetSuffix(all[first])
      && all[first] in BaseSelection(all)
  {
    var base := BaseSelection(all);
    FirstPassOnDistinctEntry(all, first);
    var once := SupersetPass(all, base, first);
    forall j | 0 <= j < first ensures !IsCandidate(all, once, second, j) {
      assert all[j] == once[j];
    }
    assert |once[first]| > |all[first]|;
    assert all[first] !in once;
    assert IsFirstCandidate(all, once, second, first);
    SelectionIsTwoPasses(all, first, second);
    assert base[first] == all[first];
  }
}
