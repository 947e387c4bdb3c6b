/** The list of logged exercises: a newest-first copy of the section's records, and an inline
    editor that runs the form's field checks again before handing a partial update on. */
module WorkoutList {
  import opened Common
  import opened Text
  import opened Calendar
  import opened Sorting
  import opened WorkoutForm

  /** The sort key of `sortedWorkouts`: the time stamp of the workout's day. */
  function WorkoutDay(w: WorkoutItem): int {
    DayNumber(w.date)
  }

  /** `sortedWorkouts`: a sorted copy, newest day first, of the section's list. The section's
      own list is a value here and is left as it was. */
  function SortedWorkouts(workouts: seq<WorkoutItem>): (r: seq<WorkoutItem>)
    ensures forall i, j :: 0 <= i < j < |r| ==> !Precedes(r[i].date, r[j].date)
    ensures multiset(r) == multiset(workouts)
  {
    var r := SortDesc(workouts, WorkoutDay);
    forall i, j | 0 <= i < j < |r| ensures !Precedes(r[i].date, r[j].date) {
      DayNumberOrder(r[i].date, r[j].date);
    }
    r
  }

  /** Workouts on the same day keep the order the section stores them in. */
  lemma SortedWorkoutsStable(workouts: seq<WorkoutItem>, day: Date)
    ensures WithKey(SortedWorkouts(workouts), WorkoutDay, DayNumber(day)) == WithKey(workouts, WorkoutDay, DayNumber(day))
  {
    SortDescStable(workouts, WorkoutDay, DayNumber(day));
  }

  /** The placeholder is shown exactly when the section holds no workout. */
  lemma PlaceholderIffEmpty(workouts: seq<WorkoutItem>)
    ensures |SortedWorkouts(workouts)| == 0 <==> workouts == []
  {
    assert |multiset(SortedWorkouts(workouts))| == |multiset(workouts)|;
  }

  /** `Partial<WorkoutItem>`: the keys present in an update. `weight == Some(None)` is the key
      present with the value `undefined`, which removes the weight when merged. */
  datatype WorkoutPatch = WorkoutPatch(
    id: Option<Id>, name: Option<string>, sets: Option<int>, reps: Option<int>,
    weight: Option<Option<real>>, date: Option<Date>, completed: Option<bool>)

  /** The four text fields of the inline editor. */
  datatype EditFields = EditFields(name: string, sets: string, reps: string, weight: string)

  /** What `handleEditClick` loads into the editor: the name, the decimal text of sets and
      reps, and the text of the weight, or "" when there is none. `showReal` stands for
      `Number.prototype.toString`. */
  function FieldsOf(w: WorkoutItem, showReal: real -> string): EditFields {
    EditFields(w.name, IntToString(w.sets), IntToString(w.reps),
               if w.weight.Some? then showReal(w.weight.value) else "")
  }

  /** What a save does: raise the error of the first failed check, or emit an update. */
  datatype EditOutcome = EditRejected(failure: Failure) | EditSaved(patch: WorkoutPatch)

  /** The outcome of `handleSaveEdit`: the form's first four checks, without the date check,
      then an update carrying name, sets, reps and weight (`undefined` for a home workout). */
  function SaveEditOutcome(f: EditFields, t: WorkoutType, parseFloat: string -> Option<real>): EditOutcome {
    var s, r, w := ParseInt(f.sets), ParseInt(f.reps), parseFloat(f.weight);
    var check := FieldsCheck(f.name, s, r, w, t);
    if check.Some? then EditRejected(check.value)
    else EditSaved(WorkoutPatch(None, Some(f.name), Some(s.value), Some(r.value),
                                Some(if t == Gym then w else None), None, None))
  }

  /** The editor judges the fields exactly as the form does when a date is picked: it fails
      with the same message on the same fields, and it saves the same name, sets, reps and
      weight the form would log. */
  lemma SaveEditAgreesWithForm(f: EditFields, d: Date, t: WorkoutType, parseFloat: string -> Option<real>)
    ensures var e, s := SaveEditOutcome(f, t, parseFloat), SubmitOutcome(f.name, f.sets, f.reps, f.weight, Some(d), t, parseFloat);
      && (e.EditRejected? <==> s.Rejected?)
      && (e.EditRejected? ==> e.failure == s.failure)
      && (e.EditSaved? ==>
        && e.patch.name == Some(s.workout.name) && e.patch.sets == Some(s.workout.sets)
        && e.patch.reps == Some(s.workout.reps) && e.patch.weight == Some(s.workout.weight))
  {
  }

  /** Every update the editor emits carries a sound name, sets, reps and weight. */
  lemma SavedIsSound(f: EditFields, t: WorkoutType, parseFloat: string -> Option<real>)
    requires SaveEditOutcome(f, t, parseFloat).EditSaved?
    ensures var p := SaveEditOutcome(f, t, parseFloat).patch;
      && p.name.Some? && p.sets.Some? && p.reps.Some? && p.weight.Some? && p.id.None?
      && Sound(p.name.value, p.sets.value, p.reps.value, p.weight.value, t)
  {
  }

  /** Opening the editor on a sound workout and saving at once gives an update that carries
      the workout's own name, sets, reps and weight, provided `parseFloat` reads back the text
      `showReal` gives for the weight. */
  lemma EditRoundTrip(w: WorkoutItem, t: WorkoutType, showReal: real -> string, parseFloat: string -> Option<real>)
    requires Sound(w.name, w.sets, w.reps, w.weight, t)
    requires w.weight.Some? ==> parseFloat(showReal(w.weight.value)) == w.weight
    ensures SaveEditOutcome(FieldsOf(w, showReal), t, parseFloat) ==
      EditSaved(WorkoutPatch(None, Some(w.name), Some(w.sets), Some(w.reps), Some(w.weight), None, None))
  {
    ParseIntShow(w.sets);
    ParseIntShow(w.reps);
  }

  /** The list shows " at <weight>kg" only for a gym workout whose weight is a number above 0. */
  predicate ShowsWeight(t: WorkoutType, w: WorkoutItem) {
    t == Gym && w.weight.Some? && w.weight.value > 0.0
  }

  /** For records the form or the editor produced, the weight is shown on every gym workout
      and on no home workout. */
  lemma SoundShowsWeightOnGymOnly(t: WorkoutType, w: WorkoutItem)
    requires Sound(w.name, w.sets, w.reps, w.weight, t)
    ensures ShowsWeight(t, w) <==> t == Gym
  {
  }

  /** The list's edit-mode state and its two handlers. */
  class Editor {
    const workoutType: WorkoutType
    var editingWorkoutId: Option<Id>
    var editedName: string
    var editedSets: string
    var editedReps: string
    var editedWeight: string

    constructor (workoutType: WorkoutType)
      ensures this.workoutType == workoutType && editingWorkoutId == None
      ensures editedName == "" && editedSets == "" && editedReps == "" && editedWeight == ""
    {
      this.workoutType := workoutType;
      editingWorkoutId := None;
      editedName, editedSets, editedReps, editedWeight := "", "", "", "";
    }

    function Fields(): EditFields
      reads this
    {
      EditFields(editedName, editedSets, editedReps, editedWeight)
    }

    /** `handleEditClick`. */
    method EditClick(w: WorkoutItem, showReal: real -> string)
      modifies this
      ensures editingWorkoutId == Some(w.id) && Fields() == FieldsOf(w, showReal)
    {
      editingWorkoutId := Some(w.id);
      editedName := w.name;
      editedSets := IntToString(w.sets);
      editedReps := IntToString(w.reps);
      editedWeight := if w.weight.Some? then showReal(w.weight.value) else "";
    }

    /** `handleSaveEdit`; `edit` is the pair of arguments `onEditWorkout` is called with, if it
        is called. A failed save keeps the editor open; a successful one closes it but leaves
        the texts in place. */
    method SaveEdit(id: Id, parseFloat: string -> Option<real>) returns (toast: Toast, edit: Option<(Id, WorkoutPatch)>)
      modifies this
      ensures var o := SaveEditOutcome(old(Fields()), workoutType, parseFloat);
        o.EditRejected? ==> toast == Error(Message(o.failure)) && edit == None && editingWorkoutId == old(editingWorkoutId)
      ensures var o := SaveEditOutcome(old(Fields()), workoutType, parseFloat);
        o.EditSaved? ==>
          && toast == Success("Workout updated successfully!") && edit == Some((id, o.patch))
          && editingWorkoutId == None
      ensures Fields() == old(Fields())
    {
      var parsedSets := ParseInt(editedSets);
      var parsedReps := ParseInt(editedReps);
      var parsedWeight := parseFloat(editedWeight);
      edit := None;
      ghost var outcome := SaveEditOutcome(Fields(), workoutType, parseFloat);
      if IsBlank(editedName) {
        assert outcome == EditRejected(BlankName);
        toast := Error(Message(BlankName));
        return;
      }
      if parsedSets.None? || parsedSets.value <= 0 {
        assert outcome == EditRejected(BadSets);
        toast := Error(Message(BadSets));
        return;
      }
      if parsedReps.None? || parsedReps.value <= 0 {
        assert outcome == EditRejected(BadReps);
        toast := Error(Message(BadReps));
        return;
      }
      if workoutType == Gym && (parsedWeight.None? || parsedWeight.value <= 0.0) {
        assert outcome == EditRejected(BadWeight);
        toast := Error(Message(BadWeight));
        return;
      }
      edit := Some((id, WorkoutPatch(None, Some(editedName), Some(parsedSets.value), Some(parsedReps.value),
                                     Some(if workoutType == Gym then parsedWeight else None), None, None)));
      editingWorkoutId := None;
      toast := Success("Workout updated successfully!");
    }
  }
}
