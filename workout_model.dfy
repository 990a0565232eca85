/** The Mongoose schemas of models/workout.js: an Exercise embedded in a
    Workout, the request bodies they are built from, and the `required`
    validation that decides whether a body becomes a document. */
module WorkoutModel {
  import opened Common

  /** An embedded exercise. It has no identity outside its workout. */
  datatype Exercise = Exercise(
    name: string,
    sets: int,
    reps: int,
    weight: Option<int>,
    createdAt: Time,
    updatedAt: Time)

  /** A stored workout. `author` is a single User reference. The schema does
      not mark it required, so it is optional here too. */
  datatype Workout = Workout(
    title: string,
    date: Time,
    durationInMinutes: Option<int>,
    author: Option<UserId>,
    exercises: seq<Exercise>,
    createdAt: Time,
    updatedAt: Time)

  /** A request body for an exercise: any field may be absent. */
  datatype ExerciseInput = ExerciseInput(
    name: Option<string>,
    sets: Option<int>,
    reps: Option<int>,
    weight: Option<int>)

  /** A request body for a workout: any field may be absent. */
  datatype WorkoutInput = WorkoutInput(
    title: Option<string>,
    date: Option<Time>,
    durationInMinutes: Option<int>,
    author: Option<UserId>,
    exercises: seq<ExerciseInput>)

  /** The path of the first field that the `required` validator rejects. */
  datatype ValidationError = Required(path: string)

  /** Mongoose's `required` check on a String: present and not empty. */
  predicate HasText(s: Option<string>)
  {
    s.Some? && |s.value| > 0
  }

  predicate ExerciseComplete(e: ExerciseInput)
  {
    HasText(e.name) && e.sets.Some? && e.reps.Some?
  }

  predicate AllComplete(es: seq<ExerciseInput>)
  {
    forall i :: 0 <= i < |es| ==> ExerciseComplete(es[i])
  }

  predicate WorkoutComplete(w: WorkoutInput)
  {
    HasText(w.title) && w.date.Some? && AllComplete(w.exercises)
  }

  /** What `save()` re-checks of a stored document. Numbers and dates are
      present by construction, so only the strings can fail. */
  predicate ExerciseConforms(e: Exercise)
  {
    |e.name| > 0
  }

  predicate Conforms(w: Workout)
  {
    |w.title| > 0 && forall i :: 0 <= i < |w.exercises| ==> ExerciseConforms(w.exercises[i])
  }

  /** Casting and validating one exercise body. Both timestamps are set to `now`. */
  function NewExercise(e: ExerciseInput, now: Time): (r: Result<Exercise, ValidationError>)
    ensures r.Success? <==> ExerciseComplete(e)
    ensures r.Success? ==>
      && r.value.name == e.name.value && r.value.sets == e.sets.value
      && r.value.reps == e.reps.value && r.value.weight == e.weight
      && r.value.createdAt == now && r.value.updatedAt == now
      && ExerciseConforms(r.value)
  {
    if !HasText(e.name) then Failure(Required("name"))
    else if e.sets.None? then Failure(Required("sets"))
    else if e.reps.None? then Failure(Required("reps"))
    else Success(Exercise(e.name.value, e.sets.value, e.reps.value, e.weight, now, now))
  }

  /** Casting and validating the embedded exercise array, in order. */
  function NewExercises(es: seq<ExerciseInput>, now: Time): (r: Result<seq<Exercise>, ValidationError>)
    ensures r.Success? <==> AllComplete(es)
    ensures r.Success? ==>
      && |r.value| == |es|
      && forall i :: 0 <= i < |es| ==> Success(r.value[i]) == NewExercise(es[i], now)
    decreases |es|
  {
    if es == [] then Success([])
    else
      match NewExercise(es[0], now)
      case Failure(err) => Failure(Required("exercises." + err.path))
      case Success(first) =>
        match NewExercises(es[1..], now)
        case Failure(err) => Failure(err)
        case Success(rest) =>
          assert forall i :: 1 <= i < |es| ==> es[i] == es[1..][i - 1];
          Success([first] + rest)
  }

  /** `Workout.create(body)`: cast, validate, and stamp both timestamps. */
  function NewWorkout(w: WorkoutInput, now: Time): (r: Result<Workout, ValidationError>)
    ensures r.Success? <==> WorkoutComplete(w)
    ensures r.Success? ==>
      && r.value.title == w.title.value && r.value.date == w.date.value
      && r.value.durationInMinutes == w.durationInMinutes && r.value.author == w.author
      && NewExercises(w.exercises, now) == Success(r.value.exercises)
      && r.value.createdAt == now && r.value.updatedAt == now
      && Conforms(r.value)
  {
    if !HasText(w.title) then Failure(Required("title"))
    else if w.date.None? then Failure(Required("date"))
    else
      match NewExercises(w.exercises, now)
      case Failure(err) => Failure(err)
      case Success(exercises) =>
        Success(Workout(w.title.value, w.date.value, w.durationInMinutes, w.author, exercises, now, now))
  }

  /** The body a client would send to recreate an exercise. */
  function ExerciseBody(e: Exercise): ExerciseInput
  {
    ExerciseInput(Some(e.name), Some(e.sets), Some(e.reps), e.weight)
  }

  function ExerciseBodies(es: seq<Exercise>): (r: seq<ExerciseInput>)
    ensures |r| == |es|
    ensures forall i :: 0 <= i < |es| ==> r[i] == ExerciseBody(es[i])
  {
    seq(|es|, i requires 0 <= i < |es| => ExerciseBody(es[i]))
  }

  /** The body a client would send to recreate a workout. */
  function WorkoutBody(w: Workout): WorkoutInput
  {
    WorkoutInput(Some(w.title), Some(w.date), w.durationInMinutes, w.author, ExerciseBodies(w.exercises))
  }

  /** A conforming exercise created at one instant is rebuilt exactly from its body. */
  lemma ExerciseRoundTrip(e: Exercise)
    requires ExerciseConforms(e) && e.createdAt == e.updatedAt
    ensures NewExercise(ExerciseBody(e), e.createdAt) == Success(e)
  {
  }

  /** The embedded array round-trips element by element. */
  lemma {:induction false} ExercisesRoundTrip(es: seq<Exercise>, now: Time)
    requires forall i :: 0 <= i < |es| ==> ExerciseConforms(es[i]) && es[i].createdAt == now && es[i].updatedAt == now
    ensures NewExercises(ExerciseBodies(es), now) == Success(es)
  {
    var bodies := ExerciseBodies(es);
    forall i | 0 <= i < |es|
      ensures ExerciseComplete(bodies[i]) && NewExercise(bodies[i], now) == Success(es[i])
    {
      ExerciseRoundTrip(es[i]);
    }
    var r := NewExercises(bodies, now);
    assert r.Success?;
    assert r.value == es;
  }

  /** A conforming workout whose parts were all created at one instant is
      rebuilt exactly from its body: validation loses nothing and adds nothing. */
  lemma WorkoutRoundTrip(w: Workout)
    requires Conforms(w) && w.createdAt == w.updatedAt
    requires forall i :: 0 <= i < |w.exercises| ==> w.exercises[i].createdAt == w.createdAt && w.exercises[i].updatedAt == w.createdAt
    ensures NewWorkout(WorkoutBody(w), w.createdAt) == Success(w)
  {
    ExercisesRoundTrip(w.exercises, w.createdAt);
  }
}
