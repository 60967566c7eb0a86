/**
 * The `WorkoutGenerator` component's state: the five `useState` fields and
 * the event handlers that update them. Clicking Generate sets `isLoading`
 * and schedules a callback; the callback running later is a separate event.
 * The callback sees the three selections as they were at the click, since it
 * closes over the values of that render.
 */
module Interaction {
  import opened Wrappers
  import opened Permutations
  import opened ExerciseSelector
  import opened SetsReps
  import opened Assembly

  /** The exercise catalog: workout type, then muscle group, then the entry's array of names. */
  type Catalog = map<string, map<string, array<string>>>

  /**
   * `exercises[type][group]`, or `None` where the entry is missing: a missing
   * type throws at the lookup, and a missing group yields `undefined`, on
   * which `sort` then throws.
   */
  function Lookup(catalog: Catalog, workoutType: string, muscleGroup: string): Option<array<string>>
  {
    if workoutType in catalog && muscleGroup in catalog[workoutType]
    then Some(catalog[workoutType][muscleGroup])
    else None
  }

  /** The entry array a completion may reorder. */
  function EntryFrame(catalog: Catalog, request: Request): set<array<string>>
  {
    match Lookup(catalog, request.workoutType, request.muscleGroup)
    case Some(entry) => {entry}
    case None => {}
  }

  /** The selections the scheduled callback closes over. */
  datatype Request = Request(workoutType: string, muscleGroup: string, intensity: string)

  /**
   * The random outcomes one completion consumes: the sort's reordering, the
   * two superset slot draws, and one pair of sets/reps offsets per label.
   */
  datatype Randomness = Randomness(perm: seq<nat>, first: nat, second: nat, draws: seq<Draws>)

  /** The random outcomes are ones the source's random draws can produce for this request. */
  ghost predicate Fits(rnd: Randomness, catalog: Catalog, request: Request)
  {
    && rnd.first < SelectionSize && rnd.second < SelectionSize
    && DrawsCover(request.intensity, rnd.draws, SelectionSize)
    && match Lookup(catalog, request.workoutType, request.muscleGroup)
       case Some(entry) => IsPermutation(rnd.perm, entry.Length)
       case None => true
  }

  class WorkoutGenerator {
    var workoutType: string
    var muscleGroup: string
    var intensity: string
    var generatedWorkout: string
    var isLoading: bool

    /** The initial `useState` values. */
    constructor ()
      ensures workoutType == "" && muscleGroup == "" && intensity == ""
      ensures generatedWorkout == "" && !isLoading
    {
      workoutType, muscleGroup, intensity := "", "", "";
      generatedWorkout, isLoading := "", false;
    }

    /** The result list is rendered when `generatedWorkout` is truthy; otherwise the form is. */
    predicate ShowsResult()
      reads this
    {
      generatedWorkout != ""
    }

    /** The workout type select's `onChange`. */
    method ChangeWorkoutType(value: string)
      modifies this
      ensures workoutType == value
      ensures muscleGroup == old(muscleGroup) && intensity == old(intensity)
      ensures generatedWorkout == old(generatedWorkout) && isLoading == old(isLoading)
    {
      workoutType := value;
    }

    /** The muscle group select's `onChange`. */
    method ChangeMuscleGroup(value: string)
      modifies this
      ensures muscleGroup == value
      ensures workoutType == old(workoutType) && intensity == old(intensity)
      ensures generatedWorkout == old(generatedWorkout) && isLoading == old(isLoading)
    {
      muscleGroup := value;
    }

    /** The intensity select's `onChange`. */
    method ChangeIntensity(value: string)
      modifies this
      ensures intensity == value
      ensures workoutType == old(workoutType) && muscleGroup == old(muscleGroup)
      ensures generatedWorkout == old(generatedWorkout) && isLoading == old(isLoading)
    {
      intensity := value;
    }

    /**
     * `handleGenerateWorkout` up to `setTimeout`: the component starts loading,
     * and the scheduled callback captures the current selections.
     */
    method StartGenerate() returns (request: Request)
      modifies this
      ensures isLoading
      ensures request == Request(workoutType, muscleGroup, intensity)
      ensures workoutType == old(workoutType) && muscleGroup == old(muscleGroup) && intensity == old(intensity)
      ensures generatedWorkout == old(generatedWorkout)
    {
      isLoading := true;
      request := Request(workoutType, muscleGroup, intensity);
    }

    /**
     * The scheduled callback. Without all three selections it shows the
     * validation message. Otherwise it reorders the catalog entry in place,
     * selects and annotates the exercises, and shows the assembled workout.
     * When the catalog has no entry for the selections, the lookup (missing
     * type) or the `sort` (missing group) throws before any state update, so
     * nothing changes.
     */
    method CompleteGenerate(request: Request, catalog: Catalog, rnd: Randomness)
      requires Fits(rnd, catalog, request)
      modifies this, EntryFrame(catalog, request)
      ensures workoutType == old(workoutType) && muscleGroup == old(muscleGroup) && intensity == old(intensity)
      ensures !AllSelected(request.workoutType, request.muscleGroup, request.intensity) ==>
        && generatedWorkout == ValidationMessage && !isLoading
        && unchanged(EntryFrame(catalog, request))
      ensures AllSelected(request.workoutType, request.muscleGroup, request.intensity) ==>
        match Lookup(catalog, request.workoutType, request.muscleGroup)
        case None =>
          generatedWorkout == old(generatedWorkout) && isLoading == old(isLoading)
        case Some(entry) =>
          && entry[..] == Permute(old(entry[..]), rnd.perm)
          && generatedWorkout == AssembleWorkout(request.workoutType, request.muscleGroup, request.intensity,
                                                 Selection(entry[..], rnd.first, rnd.second), rnd.draws)
          && !isLoading
    {
      if !AllSelected(request.workoutType, request.muscleGroup, request.intensity) {
        generatedWorkout := ValidationMessage;
        isLoading := false;
        return;
      }
      var found := Lookup(catalog, request.workoutType, request.muscleGroup);
      if found.None? {
        return;
      }
      var entry := found.value;
      var labels := GenerateRandomExercise(entry, rnd.perm, rnd.first, rnd.second);
      generatedWorkout := AssembleWorkout(request.workoutType, request.muscleGroup, request.intensity,
                                          labels, rnd.draws);
      isLoading := false;
    }

    /** The Start Over button: clears the result and nothing else, so the form shows again. */
    method StartOver()
      modifies this
      ensures generatedWorkout == "" && !ShowsResult()
      ensures workoutType == old(workoutType) && muscleGroup == old(muscleGroup) && intensity == old(intensity)
      ensures isLoading == old(isLoading)
    {
      generatedWorkout := "";
    }
  }
}
