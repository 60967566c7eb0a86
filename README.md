# WorkoutGenerator: a Dafny model of the workout generator

The repository is a single React page, `WorkoutGenerator`, that lets a user
pick a workout type, a muscle group and an intensity, and then shows a random
workout: up to four exercises from a catalog entry, some of them paired with a
"superset" partner, each with a number of sets and reps. This project models
the page's logic and proves properties of that model. All randomness is an
explicit input:

- the outcome of the random-comparator `sort` is a supplied index permutation;
- each `Math.floor(Math.random() * n)` is a supplied integer in `[0, n)`.

Modules, one per piece of the component:

- `Permutations` (permutations.dfy): the in-place reordering of the catalog
  entry. `Shuffle` works on the entry's array. `PermutePreservesMultiset` is
  proved by induction.
- `ExerciseSelector` (selector.dfy): `generateRandomExercise` as the method
  `GenerateRandomExercise`. The method reorders the entry array in place,
  copies its first four names into a fresh array, and runs the two superset
  passes in the loop of `AddSupersets`. Each pass calls the linear search
  `FindSupersetExercise` and updates one slot in place. The method is proved against the
  specification function `Selection`.
- `SelectorProperties` (selector.dfy): lemmas about `Selection`.
- `SetsReps` (sets_reps.dfy): `generateRandomSetsReps` over the four constant
  ranges. An unknown intensity gives `None` for both values.
- `Assembly` (assembly.dfy): the callback's validation, the
  `"<exercise>, Sets: <s> - Reps: <r>"` entries and the `", "` join.
  JavaScript writes `undefined` as the text `undefined`, and so does the model.
- `Interaction` (interaction.dfy): the class `WorkoutGenerator` with the five
  `useState` fields. Its transition methods are the three select handlers,
  the start of Generate, the delayed completion, and Start Over.

## Behaviour of the code that the model follows

These are the points where the code's behaviour is easy to misread. The
model follows the code in each case.

- The superset search runs over the reordered entry, not the original order.
  `sort` reorders `exercises[type][group]` in place and returns that same
  array (src/app/page.tsx:38-39). The catalog entry therefore stays reordered
  for later generations. `GenerateRandomExercise` has `modifies entry`.
- A repeated slot draw appends a second suffix instead of overwriting the
  first one. See `RepeatedSlotAppendsTwice`.
- Annotating a slot removes that slot's plain name from the selection. The
  second pass can then pick that name as a partner for another slot, even
  though it is one of the four selected exercises. See
  `SecondPassCanNameSelectedExercise`. So "the partner is never one of the
  selected exercises" does not hold for the second pass. `AppendedSuffix`
  states what does hold: the partner is not in the selection *as it stands*
  when that pass runs.
- `find` returns the partner's name, and a truthiness test guards the
  update. A partner whose name is the empty string is therefore skipped
  without searching further.
- Start Over clears only `generatedWorkout`. The three selections and
  `isLoading` are kept.
- The delayed callback uses the selections captured when Generate was
  clicked. `StartGenerate` returns them as a `Request`, and
  `CompleteGenerate` consumes it.
- If the catalog has no entry for the selected type and group, the callback
  throws before either state update. A missing type makes
  `exercises[type][group]` read a property of `undefined` and throw. A
  missing group makes the lookup give `undefined`, and the `sort` call on
  line 39 throws. The model's completion then changes nothing, so
  `isLoading` stays true.
- An empty catalog entry yields the empty workout text. The page then shows
  the form again, as after Start Over.

## Model

| member | source | states |
|---|---|---|
| `Permutations.PermutePreservesMultiset` | src/app/page.tsx:38-39 | reordering the entry by the sort's permutation keeps every name with its multiplicity |
| `Permutations.PermutePreservesDistinct` | src/app/page.tsx:38-40 | a duplicate-free entry stays duplicate-free after the shuffle |
| `Permutations.Permute` | src/app/page.tsx:39 | the contents `sort` leaves: position k holds the element that was at position p[k] |
| `Permutations.Shuffle` | src/app/page.tsx:39 | the array itself is reordered in place: its new contents are the permutation applied to the old contents, with the same multiset |
| `ExerciseSelector.SupersetSuffix` | src/app/page.tsx:55 | the text " (Superset with X)" appended for partner X |
| `ExerciseSelector.IsCandidate` | src/app/page.tsx:51 | the `find` callback: position i is not the slot index and its name is not in the current selection |
| `ExerciseSelector.IsFirstCandidate` | src/app/page.tsx:50-52 | the position `find` stops at: a candidate with no candidate before it |
| `ExerciseSelector.FirstCandidateFrom` | src/app/page.tsx:50-52 | the search result is a candidate (not the slot index, name not in the selection), and no earlier position from the start point is one |
| `ExerciseSelector.AppendedSuffix` | src/app/page.tsx:50-56 | a pass appends something exactly when `find` stops at a position with a non-empty name, and what it appends is " (Superset with X)" for that position's name X |
| `ExerciseSelector.NoCandidateWhenAllSelected` | src/app/page.tsx:49-56 | when the selection is the whole entry, no pass annotates anything |
| `ExerciseSelector.SupersetPass` | src/app/page.tsx:54-56 | one pass keeps the selection's length, and leaves an entry of at most four names as it is |
| `ExerciseSelector.SupersetPasses` | src/app/page.tsx:49-57 | the loop over the slot draws keeps the same shape |
| `ExerciseSelector.BaseSelection` | src/app/page.tsx:40 | `slice(0, 4)` keeps min(4, length) names, and the whole entry when it has at most four |
| `ExerciseSelector.Selection` | src/app/page.tsx:34-60 | the result has exactly min(4, length) labels; an entry of at most four names comes back with no superset suffix |
| `ExerciseSelector.FindSupersetExercise` | src/app/page.tsx:50-52 | the linear search returns nothing exactly when no position is a candidate; otherwise it returns the name at the first candidate position |
| `ExerciseSelector.FoundNameGivesSuffix` | src/app/page.tsx:50-56 | the name the search returns determines the suffix the pass appends, with an empty name or no name appending nothing |
| `ExerciseSelector.AddSupersets` | src/app/page.tsx:49-57 | the loop over the slot draws updates the selection array in place to the result of the passes, in draw order, and leaves the entry untouched |
| `ExerciseSelector.GenerateRandomExercise` | src/app/page.tsx:34-60 | the catalog array is reordered in place by the permutation, keeping its multiset, and the returned labels are `Selection` of the reordered entry |
| `SelectorProperties.SupersetPassAnnotatesOnlyWithCandidate` | src/app/page.tsx:49-56 | a pass either changes nothing, in which case there is no first candidate with a non-empty name, or appends to the chosen slot only the suffix of the first candidate (index not the slot, name not in the current selection) |
| `SelectorProperties.SelectionLabels` | src/app/page.tsx:43-57 | every label is its base name followed by the first pass's suffix if it is the first slot and the second pass's suffix if it is the second; all other slots are unchanged |
| `SelectorProperties.BaseSelectionDrawnFromEntry` | src/app/page.tsx:38-40 | before annotation, the selection holds min(4, length) names of the original entry, drawn without replacement, and is duplicate-free when the entry is |
| `SelectorProperties.FirstPassOnDistinctEntry` | src/app/page.tsx:49-56 | on a duplicate-free entry of more than four names, the first pass gives its slot the fifth name as partner |
| `SelectorProperties.RepeatedSlotAppendsTwice` | src/app/page.tsx:43-56 | with equal slot draws on a duplicate-free entry of more than four names, the slot gets the fifth name's suffix twice and no other slot changes |
| `SelectorProperties.SecondPassCanNameSelectedExercise` | src/app/page.tsx:49-56 | with different slot draws on such an entry, the second slot's partner is the first slot's plain name, which is one of the selected exercises |
| `SetsReps.Width` | src/app/page.tsx:69 | `range[1] - range[0] + 1`, the number of values a draw can give (also lines 74, 80, 85) |
| `SetsReps.DrawFrom` | src/app/page.tsx:67-70 | `floor(random * (hi - lo + 1)) + lo` lies in the inclusive range |
| `SetsReps.GenerateRandomSetsReps` | src/app/page.tsx:62-90 | Low gives sets in [1,4] and reps in [4,10]; High gives sets in [4,8] and reps in [10,16]; any other intensity leaves both undefined |
| `SetsReps.DrawsMatchPrescriptionsOneToOne` | src/app/page.tsx:19-22 | every (sets, reps) pair of an intensity's ranges comes from exactly one pair of draws, so uniform draws give uniform values |
| `Assembly.DecimalString` | src/app/page.tsx:106 | a number is rendered as a non-empty string of decimal digits |
| `Assembly.DecimalRoundTrip` | src/app/page.tsx:106 | the rendered digits read back as the number |
| `Assembly.Show` | src/app/page.tsx:106 | a defined value renders as its digits, an undefined one as "undefined" |
| `Assembly.EntryEndsWithReps` | src/app/page.tsx:106 | an entry ends with a digit or with the "d" of "undefined" |
| `Assembly.FormatEntry` | src/app/page.tsx:106 | an entry starts with the exercise label and ends with the rendered reps |
| `Assembly.Join` | src/app/page.tsx:109 | `join(", ")`; a non-empty list's join starts with its first entry |
| `Assembly.AllSelected` | src/app/page.tsx:98 | `workoutType && muscleGroup && intensity`: all three selections are non-empty strings |
| `Assembly.Entries` | src/app/page.tsx:104-107 | one entry per selected label |
| `Assembly.JoinSplitsAt` | src/app/page.tsx:109 | the join splits at every interior entry boundary with one separator |
| `Assembly.JoinEndsWithLast` | src/app/page.tsx:109 | the join ends with the last entry |
| `Assembly.JoinHead` | src/app/page.tsx:109 | the join of the first k entries, a separator if k > 0, then the join of the rest |
| `Assembly.JoinAt` | src/app/page.tsx:109 | entry k stands between the join of the entries before it and the join of those after it |
| `Assembly.AssembleWorkout` | src/app/page.tsx:96-112 | a missing selection gives exactly the validation message; no labels give the empty text; otherwise the text is non-empty and differs from the message |
| `Assembly.WorkoutIsNotTheMessage` | src/app/page.tsx:109-111 | a joined list of entries can never be mistaken for the validation message |
| `Assembly.WorkoutListsEntriesInOrder` | src/app/page.tsx:104-109 | the k-th label's entry, with its own sets and reps, is the k-th item of the workout text |
| `Interaction.Lookup` | src/app/page.tsx:38-39 | `exercises[type][group]`, absent when either key is missing: a missing type throws at the lookup, a missing group gives `undefined` and the `sort` call throws |
| `Interaction.WorkoutGenerator.ShowsResult` | src/app/page.tsx:127 | the result list is rendered exactly when `generatedWorkout` is non-empty |
| `Interaction.WorkoutGenerator.constructor` | src/app/page.tsx:25-29 | three empty selections, no workout, not loading |
| `Interaction.WorkoutGenerator.ChangeWorkoutType` | src/app/page.tsx:168 | sets the workout type, nothing else |
| `Interaction.WorkoutGenerator.ChangeMuscleGroup` | src/app/page.tsx:184 | sets the muscle group, nothing else |
| `Interaction.WorkoutGenerator.ChangeIntensity` | src/app/page.tsx:200 | sets the intensity, nothing else |
| `Interaction.WorkoutGenerator.StartGenerate` | src/app/page.tsx:92-95 | sets `isLoading` and captures the current selections for the callback; nothing else changes |
| `Interaction.WorkoutGenerator.CompleteGenerate` | src/app/page.tsx:95-116 | with a missing selection, shows the validation message and stops loading; with a missing catalog entry, changes nothing; otherwise reorders the entry, shows the assembled workout and stops loading; the selections never change |
| `Interaction.WorkoutGenerator.StartOver` | src/app/page.tsx:154 | clears only `generatedWorkout`, so the form is shown again; selections and `isLoading` are kept |

## Left out

- Rendering: the JSX, the Tailwind classes, and the `Button`, `Form`, `Label`
  and `ModeToggle` components (src/app/page.tsx:119-222). The only rendering
  decision modelled is `ShowsResult`: a truthy `generatedWorkout` shows the
  result list.
- The display parsing `split(",")` and `split("-")` (src/app/page.tsx:129,
  134) is presentation. An exercise name containing "," or "-" is displayed
  split across several boxes.
- `Math.random`, floating point and the random-comparator sort are replaced
  by supplied integers and a supplied permutation. Uniformity and other
  distributional claims are not modelled. `DrawsMatchPrescriptionsOneToOne`
  only shows that draws and values correspond one to one.
- `setTimeout` and its 1000 ms delay become two separate events,
  `StartGenerate` and `CompleteGenerate`, with no timing.
- The `disabled={isLoading}` attribute is rendering and is not a
  precondition of `StartGenerate`.
- The select handlers are only reachable while the form is rendered. The
  model does not restrict them to that state.
- The catalog's contents come from `./components/exerciseData`, which is not
  part of this model. The catalog is any map from workout type to muscle
  group to an array of names.
- Interaction.WorkoutGenerator.CompleteGenerate: does not model the thrown
  `TypeError` itself when the catalog has no entry (thrown by the lookup for
  a missing type, by `sort` for a missing group). It only models that no
  state update happens.
