/** One workout log (home or gym): the stored list of workouts and the four handlers the form
    and the list call. The handlers check nothing themselves. */
module WorkoutTypeSection {
  import opened Common
  import opened Lists
  import opened Calendar
  import opened WorkoutForm
  import opened WorkoutList

  /** The local-storage key of a log: `workoutLog_${type}Workouts`. */
  function StorageKey(t: WorkoutType): string {
    "workoutLog_" + (if t == Home then "home" else "gym") + "Workouts"
  }

  /** The home and gym logs are kept under two different keys, so neither overwrites the other. */
  lemma StorageKeysDistinct()
    ensures StorageKey(Home) == "workoutLog_homeWorkouts"
    ensures StorageKey(Gym) == "workoutLog_gymWorkouts"
    ensures StorageKey(Home) != StorageKey(Gym)
  {
  }

  function WorkoutId(w: WorkoutItem): Id {
    w.id
  }

  /** The record `handleAddWorkout` appends: the emitted fields, the fresh id, not completed. */
  function Logged(freshId: Id, w: NewWorkout): (r: WorkoutItem)
    ensures r.id == freshId && !r.completed
    ensures NewWorkout(r.name, r.sets, r.reps, r.weight, r.date) == w
  {
    WorkoutItem(freshId, w.name, w.sets, w.reps, w.weight, w.date, false)
  }

  /** The toggle handler's list: `completed` flips on the workouts with id `id`. */
  function Toggled(workouts: seq<WorkoutItem>, id: Id): (r: seq<WorkoutItem>)
    ensures |r| == |workouts|
    ensures forall i :: 0 <= i < |r| ==>
      r[i] == if workouts[i].id == id then workouts[i].(completed := !workouts[i].completed) else workouts[i]
  {
    UpdateWhere(workouts, WorkoutId, id, (w: WorkoutItem) => w.(completed := !w.completed))
  }

  /** `{ ...w, ...patch }`: every key present in `patch` overwrites the workout's, the others
      stay. */
  function Merged(w: WorkoutItem, patch: WorkoutPatch): WorkoutItem {
    WorkoutItem(
      patch.id.GetOr(w.id), patch.name.GetOr(w.name), patch.sets.GetOr(w.sets), patch.reps.GetOr(w.reps),
      patch.weight.GetOr(w.weight), patch.date.GetOr(w.date), patch.completed.GetOr(w.completed))
  }

  /** The update with no keys. */
  const NoChange := WorkoutPatch(None, None, None, None, None, None, None)

  /** Merging keeps exactly the keys the update leaves out and takes every key it holds: an
      empty update changes nothing and merging twice is merging once. */
  lemma MergedProperties(w: WorkoutItem, patch: WorkoutPatch)
    ensures Merged(w, NoChange) == w
    ensures Merged(Merged(w, patch), patch) == Merged(w, patch)
    ensures Merged(w, patch).id == if patch.id.Some? then patch.id.value else w.id
    ensures Merged(w, patch).name == if patch.name.Some? then patch.name.value else w.name
    ensures Merged(w, patch).sets == if patch.sets.Some? then patch.sets.value else w.sets
    ensures Merged(w, patch).reps == if patch.reps.Some? then patch.reps.value else w.reps
    ensures Merged(w, patch).weight == if patch.weight.Some? then patch.weight.value else w.weight
    ensures Merged(w, patch).date == if patch.date.Some? then patch.date.value else w.date
    ensures Merged(w, patch).completed == if patch.completed.Some? then patch.completed.value else w.completed
  {
  }

  /** The edit handler's list: the workouts with id `id` get the update merged in. */
  function Edited(workouts: seq<WorkoutItem>, id: Id, patch: WorkoutPatch): (r: seq<WorkoutItem>)
    ensures |r| == |workouts|
    ensures forall i :: 0 <= i < |r| ==> r[i] == if workouts[i].id == id then Merged(workouts[i], patch) else workouts[i]
  {
    UpdateWhere(workouts, WorkoutId, id, (w: WorkoutItem) => Merged(w, patch))
  }

  /** Saving the inline editor on an entry without touching its fields leaves the log as it
      was (given that `parseFloat` reads back the weight's text). */
  lemma EditWithoutChangesKeepsLog(
    workouts: seq<WorkoutItem>, i: nat, t: WorkoutType, showReal: real -> string, parseFloat: string -> Option<real>)
    requires i < |workouts| && UniqueIds(workouts, WorkoutId)
    requires Sound(workouts[i].name, workouts[i].sets, workouts[i].reps, workouts[i].weight, t)
    requires workouts[i].weight.Some? ==> parseFloat(showReal(workouts[i].weight.value)) == workouts[i].weight
    ensures var e := SaveEditOutcome(FieldsOf(workouts[i], showReal), t, parseFloat);
      e.EditSaved? && Edited(workouts, workouts[i].id, e.patch) == workouts
  {
    var w := workouts[i];
    EditRoundTrip(w, t, showReal, parseFloat);
    var patch := SaveEditOutcome(FieldsOf(w, showReal), t, parseFloat).patch;
    assert Merged(w, patch) == w;
    EditKeepingEntryKeepsLog(workouts, i, patch);
  }

  /** An update that leaves an entry as it is leaves the log as it is. */
  lemma EditKeepingEntryKeepsLog(workouts: seq<WorkoutItem>, i: nat, patch: WorkoutPatch)
    requires i < |workouts| && UniqueIds(workouts, WorkoutId)
    requires Merged(workouts[i], patch) == workouts[i]
    ensures Edited(workouts, workouts[i].id, patch) == workouts
  {
    var r := Edited(workouts, workouts[i].id, patch);
    forall j | 0 <= j < |r| ensures r[j] == workouts[j] {
      if j != i {
        assert workouts[j].id != workouts[i].id by {
          if j < i {} else {}
        }
      }
    }
  }

  /** Every workout of the log is sound for the log's type. */
  ghost predicate AllSound(workouts: seq<WorkoutItem>, t: WorkoutType) {
    forall i :: 0 <= i < |workouts| ==> Sound(workouts[i].name, workouts[i].sets, workouts[i].reps, workouts[i].weight, t)
  }

  lemma ToggleKeepsLogSound(workouts: seq<WorkoutItem>, t: WorkoutType, id: Id)
    requires AllSound(workouts, t)
    ensures AllSound(Toggled(workouts, id), t)
  {
    var r := Toggled(workouts, id);
    forall k | 0 <= k < |r| ensures Sound(r[k].name, r[k].sets, r[k].reps, r[k].weight, t) {
      assert r[k].name == workouts[k].name && r[k].sets == workouts[k].sets;
      assert r[k].reps == workouts[k].reps && r[k].weight == workouts[k].weight;
    }
  }

  lemma DeleteKeepsLogSound(workouts: seq<WorkoutItem>, t: WorkoutType, id: Id)
    requires AllSound(workouts, t)
    ensures AllSound(Without(workouts, WorkoutId, id), t)
  {
    var r := Without(workouts, WorkoutId, id);
    forall k | 0 <= k < |r| ensures Sound(r[k].name, r[k].sets, r[k].reps, r[k].weight, t) {
      var j :| 0 <= j < |workouts| && workouts[j] == r[k];
    }
  }

  lemma AddKeepsLogSound(workouts: seq<WorkoutItem>, t: WorkoutType, freshId: Id, w: NewWorkout)
    requires AllSound(workouts, t) && Sound(w.name, w.sets, w.reps, w.weight, t)
    ensures AllSound(workouts + [Logged(freshId, w)], t)
  {
    var r := workouts + [Logged(freshId, w)];
    assert forall i :: 0 <= i < |workouts| ==> r[i] == workouts[i];
  }

  lemma EditKeepsLogSound(workouts: seq<WorkoutItem>, t: WorkoutType, id: Id, edit: EditFields, parseFloat: string -> Option<real>)
    requires AllSound(workouts, t)
    requires SaveEditOutcome(edit, t, parseFloat).EditSaved?
    ensures AllSound(Edited(workouts, id, SaveEditOutcome(edit, t, parseFloat).patch), t)
  {
    var patch := SaveEditOutcome(edit, t, parseFloat).patch;
    SavedIsSound(edit, t, parseFloat);
    var r := Edited(workouts, id, patch);
    forall k | 0 <= k < |r| ensures Sound(r[k].name, r[k].sets, r[k].reps, r[k].weight, t) {
      if workouts[k].id == id {
        assert r[k] == Merged(workouts[k], patch);
      } else {
        assert r[k] == workouts[k];
      }
    }
  }

  /** A log that starts sound stays sound under every handler, when the records added come from
      the form and the updates from the inline editor, which is how the page wires them. */
  lemma HandlersKeepLogSound(
    workouts: seq<WorkoutItem>, t: WorkoutType, id: Id, freshId: Id, parseFloat: string -> Option<real>,
    form: EditFields, date: Option<Date>, edit: EditFields)
    requires AllSound(workouts, t)
    ensures AllSound(Toggled(workouts, id), t)
    ensures AllSound(Without(workouts, WorkoutId, id), t)
    ensures var s := SubmitOutcome(form.name, form.sets, form.reps, form.weight, date, t, parseFloat);
      s.Submitted? ==> AllSound(workouts + [Logged(freshId, s.workout)], t)
    ensures var e := SaveEditOutcome(edit, t, parseFloat);
      e.EditSaved? ==> AllSound(Edited(workouts, id, e.patch), t)
  {
    ToggleKeepsLogSound(workouts, t, id);
    DeleteKeepsLogSound(workouts, t, id);
    var s := SubmitOutcome(form.name, form.sets, form.reps, form.weight, date, t, parseFloat);
    if s.Submitted? {
      SubmittedIsSound(form.name, form.sets, form.reps, form.weight, date, t, parseFloat);
      AddKeepsLogSound(workouts, t, freshId, s.workout);
    }
    if SaveEditOutcome(edit, t, parseFloat).EditSaved? {
      EditKeepsLogSound(workouts, t, id, edit, parseFloat);
    }
  }

  /** Each handler keeps the ids unique: adding provided the new id is unused, editing provided
      the update carries no id, as the inline editor's never does. */
  lemma HandlersKeepIdsUnique(workouts: seq<WorkoutItem>, id: Id, freshId: Id, w: NewWorkout, patch: WorkoutPatch)
    requires UniqueIds(workouts, WorkoutId)
    ensures UniqueIds(Toggled(workouts, id), WorkoutId)
    ensures UniqueIds(Without(workouts, WorkoutId, id), WorkoutId)
    ensures FreshId(workouts, WorkoutId, freshId) ==> UniqueIds(workouts + [Logged(freshId, w)], WorkoutId)
    ensures patch.id.None? ==> UniqueIds(Edited(workouts, id, patch), WorkoutId)
  {
    UpdateKeepsUniqueIds(workouts, WorkoutId, id, (x: WorkoutItem) => x.(completed := !x.completed));
    FilterKeepsUniqueIds(workouts, WorkoutId, OtherId(WorkoutId, id));
    if FreshId(workouts, WorkoutId, freshId) {
      AppendKeepsUniqueIds(workouts, WorkoutId, Logged(freshId, w));
    }
    if patch.id.None? {
      UpdateKeepsUniqueIds(workouts, WorkoutId, id, (x: WorkoutItem) => Merged(x, patch));
    }
  }

  /** The section's state and its handlers. */
  class Section {
    const kind: WorkoutType
    var workouts: seq<WorkoutItem>

    /** `stored` is the list saved under `StorageKey(kind)`, or `None` when the key is missing
        or does not hold valid JSON; the default list is empty. */
    constructor (kind: WorkoutType, stored: Option<seq<WorkoutItem>>)
      ensures this.kind == kind && workouts == stored.GetOr([])
    {
      this.kind := kind;
      workouts := stored.GetOr([]);
    }

    /** `handleAddWorkout`; `freshId` is the value `crypto.randomUUID()` returns. Whatever the
        form emits is appended. */
    method AddWorkout(freshId: Id, w: NewWorkout)
      modifies this
      ensures workouts == old(workouts) + [Logged(freshId, w)]
    {
      workouts := workouts + [Logged(freshId, w)];
    }

    /** `handleToggleComplete`. */
    method ToggleComplete(id: Id)
      modifies this
      ensures workouts == Toggled(old(workouts), id)
    {
      workouts := Toggled(workouts, id);
    }

    /** `handleDeleteWorkout`. */
    method DeleteWorkout(id: Id)
      modifies this
      ensures workouts == Without(old(workouts), WorkoutId, id)
    {
      workouts := Without(workouts, WorkoutId, id);
    }

    /** `handleEditWorkout`. */
    method EditWorkout(id: Id, patch: WorkoutPatch)
      modifies this
      ensures workouts == Edited(old(workouts), id, patch)
    {
      workouts := Edited(workouts, id, patch);
    }
  }
}
