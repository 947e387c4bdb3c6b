/** The form that logs a new exercise: a chain of checks on the typed fields that stops at
    the first failure, then the record it hands to the section, then the reset. */
module WorkoutForm {
  import opened Common
  import opened Text
  import opened Calendar

  /** The two workout logs, which share the form, the list and the section. */
  datatype WorkoutType = Home | Gym

  /** A logged exercise. `date` is the day its stored `yyyy-MM-dd` text names; `weight` is
      `None` where the record has no weight (the key is absent or `undefined`). */
  datatype WorkoutItem = WorkoutItem(
    id: Id, name: string, sets: int, reps: int, weight: Option<real>, date: Date, completed: bool)

  /** What the form emits: a workout without its id and completed flag. */
  datatype NewWorkout = NewWorkout(name: string, sets: int, reps: int, weight: Option<real>, date: Date)

  /** The checks a submission can fail, in the order they run. */
  datatype Failure = BlankName | BadSets | BadReps | BadWeight | NoDate

  /** The error toast each failure raises. */
  function Message(f: Failure): string {
    match f
    case BlankName => "Exercise name cannot be empty."
    case BadSets => "Please enter a valid number of sets."
    case BadReps => "Please enter a valid number of reps."
    case BadWeight => "Please enter a valid positive weight for gym workouts."
    case NoDate => "Please select a date."
  }

  /** The four field checks the form and the inline editor share, in their order: the first
      failing check, or `None` when all pass. `sets`, `reps` and `weight` are the
      values `parseInt` and `parseFloat` gave (`None` for NaN). */
  function FieldsCheck(name: string, sets: Option<int>, reps: Option<int>, weight: Option<real>, t: WorkoutType)
    : (r: Option<Failure>)
    ensures r == None <==> !IsBlank(name) && PositiveInt(sets) && PositiveInt(reps) && (t == Gym ==> PositiveReal(weight))
    ensures r != Some(NoDate)
  {
    if IsBlank(name) then Some(BlankName)
    else if !PositiveInt(sets) then Some(BadSets)
    else if !PositiveInt(reps) then Some(BadReps)
    else if t == Gym && !PositiveReal(weight) then Some(BadWeight)
    else None
  }

  /** The checks run in a fixed order and the first one that fails decides the message: a
      later check speaks only when every earlier one has passed. */
  lemma FieldsCheckOrder(name: string, sets: Option<int>, reps: Option<int>, weight: Option<real>, t: WorkoutType)
    ensures FieldsCheck(name, sets, reps, weight, t) == Some(BlankName) <==> IsBlank(name)
    ensures FieldsCheck(name, sets, reps, weight, t) == Some(BadSets) <==> !IsBlank(name) && !PositiveInt(sets)
    ensures FieldsCheck(name, sets, reps, weight, t) == Some(BadReps) <==>
      !IsBlank(name) && PositiveInt(sets) && !PositiveInt(reps)
    ensures FieldsCheck(name, sets, reps, weight, t) == Some(BadWeight) <==>
      !IsBlank(name) && PositiveInt(sets) && PositiveInt(reps) && t == Gym && !PositiveReal(weight)
  {
  }

  /** What a submission does: raise the error of the first failed check, or hand a record on. */
  datatype Outcome = Rejected(failure: Failure) | Submitted(workout: NewWorkout)

  /** The outcome of `handleSubmit` on the typed fields: the first failed check, or the
      record handed to `onAddWorkout`. */
  function SubmitOutcome(
    name: string, sets: string, reps: string, weight: string, date: Option<Date>,
    t: WorkoutType, parseFloat: string -> Option<real>): Outcome
  {
    var s, r, w := ParseInt(sets), ParseInt(reps), parseFloat(weight);
    var check := FieldsCheck(name, s, r, w, t);
    if check.Some? then Rejected(check.value)
    else if date.None? then Rejected(NoDate)
    else Submitted(NewWorkout(name, s.value, r.value, if t == Gym then w else None, date.value))
  }

  /** A submit succeeds exactly when all five checks pass, and what it emits is the typed name,
      the parsed sets and reps, the parsed weight for a gym workout and no weight for a home
      one, whatever was typed there, and the picked day. */
  lemma SubmitOutcomeCharacterised(
    name: string, sets: string, reps: string, weight: string, date: Option<Date>,
    t: WorkoutType, parseFloat: string -> Option<real>)
    ensures SubmitOutcome(name, sets, reps, weight, date, t, parseFloat).Submitted? <==>
      && !IsBlank(name) && PositiveInt(ParseInt(sets)) && PositiveInt(ParseInt(reps))
      && (t == Gym ==> PositiveReal(parseFloat(weight)))
      && date.Some?
    ensures SubmitOutcome(name, sets, reps, weight, date, t, parseFloat).Submitted? ==>
      SubmitOutcome(name, sets, reps, weight, date, t, parseFloat).workout ==
        NewWorkout(name, ParseInt(sets).value, ParseInt(reps).value,
                   if t == Gym then parseFloat(weight) else None, date.value)
    ensures date.None? && FieldsCheck(name, ParseInt(sets), ParseInt(reps), parseFloat(weight), t).None? ==>
      SubmitOutcome(name, sets, reps, weight, date, t, parseFloat) == Rejected(NoDate)
  {
  }

  /** Every record the form emits is sound: a visible name, positive sets and reps, a positive
      weight on a gym workout and none on a home one. */
  predicate Sound(name: string, sets: int, reps: int, weight: Option<real>, t: WorkoutType) {
    !IsBlank(name) && sets > 0 && reps > 0 && (if t == Gym then PositiveReal(weight) else weight.None?)
  }

  lemma SubmittedIsSound(
    name: string, sets: string, reps: string, weight: string, date: Option<Date>,
    t: WorkoutType, parseFloat: string -> Option<real>)
    requires SubmitOutcome(name, sets, reps, weight, date, t, parseFloat).Submitted?
    ensures var w := SubmitOutcome(name, sets, reps, weight, date, t, parseFloat).workout;
      Sound(w.name, w.sets, w.reps, w.weight, t)
  {
  }

  /** The form's state and its submit handler. */
  class Form {
    const workoutType: WorkoutType
    var name: string
    var sets: string
    var reps: string
    var weight: string
    var date: Option<Date>

    /** An empty form; the date picker starts on `today`, the day `new Date()` falls on. */
    constructor (workoutType: WorkoutType, today: Date)
      ensures this.workoutType == workoutType
      ensures Cleared(today)
    {
      this.workoutType := workoutType;
      name, sets, reps, weight := "", "", "", "";
      date := Some(today);
    }

    /** The fields as a fresh form has them, with the date picker on `today`. */
    predicate Cleared(today: Date)
      reads this
    {
      name == "" && sets == "" && reps == "" && weight == "" && date == Some(today)
    }

    /** The five setters after a successful submit: empty fields, the picker back on today. */
    method Reset(today: Date)
      modifies this
      ensures Cleared(today)
    {
      name, sets, reps, weight := "", "", "", "";
      date := Some(today);
    }

    /** `handleSubmit`. `parseFloat` stands for the JavaScript function and `today` for the day
        `new Date()` falls on at submission; `emitted` is the argument of `onAddWorkout`, if
        it is called. */
    method Submit(parseFloat: string -> Option<real>, today: Date) returns (toast: Toast, emitted: Option<NewWorkout>)
      modifies this
      ensures var o := SubmitOutcome(old(name), old(sets), old(reps), old(weight), old(date), workoutType, parseFloat);
        o.Rejected? ==> toast == Error(Message(o.failure)) && emitted == None && unchanged(this)
      ensures var o := SubmitOutcome(old(name), old(sets), old(reps), old(weight), old(date), workoutType, parseFloat);
        o.Submitted? ==>
          && toast == Success("Workout exercise added!") && emitted == Some(o.workout)
          && Cleared(today)
    {
      var parsedSets := ParseInt(sets);
      var parsedReps := ParseInt(reps);
      var parsedWeight := parseFloat(weight);
      emitted := None;
      ghost var outcome := SubmitOutcome(name, sets, reps, weight, date, workoutType, parseFloat);
      if IsBlank(name) {
        assert outcome == Rejected(BlankName);
        toast := Error(Message(BlankName));
        return;
      }
      if parsedSets.None? || parsedSets.value <= 0 {
        assert outcome == Rejected(BadSets);
        toast := Error(Message(BadSets));
        return;
      }
      if parsedReps.None? || parsedReps.value <= 0 {
        assert outcome == Rejected(BadReps);
        toast := Error(Message(BadReps));
        return;
      }
      if workoutType == Gym && (parsedWeight.None? || parsedWeight.value <= 0.0) {
        assert outcome == Rejected(BadWeight);
        toast := Error(Message(BadWeight));
        return;
      }
      if date.None? {
        assert outcome == Rejected(NoDate);
        toast := Error(Message(NoDate));
        return;
      }
      emitted := Some(NewWorkout(name, parsedSets.value, parsedReps.value,
                                 if workoutType == Gym then parsedWeight else None, date.value));
      Reset(today);
      toast := Success("Workout exercise added!");
    }
  }
}
