/** The workout routes of controllers/workouts.js: a store of workouts keyed
    by id in which every route is scoped to the authenticated caller. A
    workout is found only by the pair `{_id, author: caller}`. A missing
    workout and another user's workout both give the same 404. */
module Workouts {
  import opened Common
  import opened WorkoutModel

  const NotFoundMessage := "Workout not found or you are not authorized."

  /** The User collection as `populate('author')` sees it. */
  type Directory = map<UserId, Profile>

  /** Every user record is filed under its own `_id`. */
  ghost predicate Keyed(people: Directory)
  {
    forall k :: k in people ==> people[k].id == k
  }

  /** A workout as a response shows it: its id, its fields, and its author
      resolved to a user record (None when the reference does not resolve,
      which Mongoose renders as null). */
  datatype Shown = Shown(id: WorkoutId, workout: Workout, author: Option<Profile>)

  /** A workout as stored, with its id and its author reference unresolved. */
  datatype Stored = Stored(id: WorkoutId, workout: Workout)

  /** The Mongo filter `{_id: id, author: caller}`. */
  predicate Owns(ws: map<WorkoutId, Workout>, caller: UserId, id: WorkoutId)
  {
    id in ws && ws[id].author == Some(caller)
  }

  /** `populate('author')`: the author reference replaced by the user record. */
  function Populate(people: Directory, id: WorkoutId, w: Workout): (s: Shown)
    requires Keyed(people)
    ensures s.id == id && s.workout == w
    ensures s.author.Some? <==> w.author.Some? && w.author.value in people
    ensures s.author.Some? ==> s.author.value == people[w.author.value] && s.author.value.id == w.author.value
  {
    match w.author
    case Some(a) => Shown(id, w, if a in people then Some(people[a]) else None)
    case None => Shown(id, w, None)
  }

  /** `.sort({date: 'desc'})`: the newest workout first. */
  predicate NewestFirst(s: seq<Shown>)
  {
    forall i, j :: 0 <= i < j < |s| ==> s[i].workout.date >= s[j].workout.date
  }

  predicate Distinct(s: seq<Shown>)
  {
    forall i, j :: 0 <= i < j < |s| ==> s[i] != s[j]
  }

  /** Places `x` in a sequence after every strictly newer entry. */
  function InsertByDate(s: seq<Shown>, x: Shown): (r: seq<Shown>)
    ensures |r| == |s| + 1
    ensures forall y :: y in r <==> y in s || y == x
    ensures multiset(r) == multiset(s) + multiset{x}
    decreases |s|
  {
    if s == [] || s[0].workout.date <= x.workout.date then [x] + s
    else
      var rest := InsertByDate(s[1..], x);
      assert s == [s[0]] + s[1..];
      [s[0]] + rest
  }

  /** Inserting into a newest-first sequence keeps it newest-first. */
  lemma {:induction false} InsertKeepsNewestFirst(s: seq<Shown>, x: Shown)
    requires NewestFirst(s)
    ensures NewestFirst(InsertByDate(s, x))
    decreases |s|
  {
    if s == [] || s[0].workout.date <= x.workout.date {
    } else {
      var rest := InsertByDate(s[1..], x);
      InsertKeepsNewestFirst(s[1..], x);
      assert forall y :: y in rest ==> y.workout.date <= s[0].workout.date;
      assert forall k :: 0 <= k < |rest| ==> rest[k] in rest;
    }
  }

  /** Inserting a new entry into a sequence without repeats adds no repeat. */
  lemma {:induction false} InsertKeepsDistinct(s: seq<Shown>, x: Shown)
    requires Distinct(s) && x !in s
    ensures Distinct(InsertByDate(s, x))
    decreases |s|
  {
    if s == [] || s[0].workout.date <= x.workout.date {
    } else {
      var rest := InsertByDate(s[1..], x);
      InsertKeepsDistinct(s[1..], x);
      assert forall k :: 0 <= k < |rest| ==> rest[k] in rest;
    }
  }

  /** An update body: each field is either left alone or replaced. */
  datatype Edit<+T> = Keep | Put(value: T)

  function Edited<T>(e: Edit<T>, prev: T): T
  {
    match e
    case Keep => prev
    case Put(v) => v
  }

  /** The fields an update body may carry. `findOneAndUpdate` runs no
      validators, and nothing in the route strips `author` from the body. */
  datatype WorkoutPatch = WorkoutPatch(
    title: Edit<string>,
    date: Edit<Time>,
    durationInMinutes: Edit<Option<int>>,
    author: Edit<Option<UserId>>)

  /** The document `findOneAndUpdate(filter, body)` leaves behind: the
      given fields replaced, `updatedAt` stamped, everything else kept. */
  function Patched(w: Workout, p: WorkoutPatch, now: Time): (r: Workout)
    ensures r.title == (if p.title.Put? then p.title.value else w.title)
    ensures r.date == (if p.date.Put? then p.date.value else w.date)
    ensures r.durationInMinutes == (if p.durationInMinutes.Put? then p.durationInMinutes.value else w.durationInMinutes)
    ensures r.author == (if p.author.Put? then p.author.value else w.author)
    ensures r.exercises == w.exercises && r.createdAt == w.createdAt && r.updatedAt == now
  {
    w.(title := Edited(p.title, w.title),
       date := Edited(p.date, w.date),
       durationInMinutes := Edited(p.durationInMinutes, w.durationInMinutes),
       author := Edited(p.author, w.author),
       updatedAt := now)
  }

  /** Repeating the same update at the same instant changes nothing more. */
  lemma PatchIdempotent(w: Workout, p: WorkoutPatch, now: Time)
    ensures Patched(Patched(w, p, now), p, now) == Patched(w, p, now)
  {
  }

  /** The author survives an update exactly when the body leaves it alone
      or repeats it. */
  lemma PatchAuthor(w: Workout, p: WorkoutPatch, now: Time)
    ensures Patched(w, p, now).author == w.author <==> p.author.Keep? || p.author.value == w.author
  {
  }

  /** The workout after `exercises.push(body)` and `save()`: one more
      exercise at the end and a new `updatedAt`. */
  function WithExercise(w: Workout, e: Exercise, now: Time): (r: Workout)
    ensures |r.exercises| == |w.exercises| + 1
    ensures r.exercises[..|w.exercises|] == w.exercises && r.exercises[|w.exercises|] == e
    ensures r.(exercises := w.exercises, updatedAt := w.updatedAt) == w
    ensures r.updatedAt == now
  {
    w.(exercises := w.exercises + [e], updatedAt := now)
  }

  class WorkoutStore {
    /** The workouts collection. Embedded exercises live inside their workout. */
    var workouts: map<WorkoutId, Workout>

    constructor ()
      ensures workouts == map[]
    {
      workouts := map[];
    }

    /** GET /workouts: the caller's workouts, newest first, each listed once,
        and nobody else's. Equal dates may come in any order. */
    method List(people: Directory, caller: Profile) returns (r: Reply<seq<Shown>>)
      requires Keyed(people)
      ensures r.Ok? && r.status == StatusOk
      ensures forall s :: s in r.value <==> Owns(workouts, caller.id, s.id) && s == Populate(people, s.id, workouts[s.id])
      ensures forall s :: s in r.value && s.author.Some? ==> s.author.value.id == caller.id
      ensures NewestFirst(r.value) && Distinct(r.value)
    {
      var shown: seq<Shown> := [];
      var rest := workouts.Keys;
      while rest != {}
        invariant rest <= workouts.Keys
        invariant forall s :: s in shown <==>
          s.id in workouts.Keys - rest && Owns(workouts, caller.id, s.id) && s == Populate(people, s.id, workouts[s.id])
        invariant NewestFirst(shown) && Distinct(shown)
        decreases rest
      {
        var id :| id in rest;
        var w := workouts[id];
        if w.author == Some(caller.id) {
          var entry := Populate(people, id, w);
          InsertKeepsNewestFirst(shown, entry);
          InsertKeepsDistinct(shown, entry);
          shown := InsertByDate(shown, entry);
        }
        rest := rest - {id};
      }
      r := Ok(StatusOk, shown);
    }

    /** GET /workouts/:id: found only when the caller is its author. */
    function Get(people: Directory, caller: Profile, id: WorkoutId): (r: Reply<Shown>)
      reads this
      requires Keyed(people)
      ensures r.Ok? <==> Owns(workouts, caller.id, id)
      ensures r.Ok? ==> r.status == StatusOk && r.value == Populate(people, id, workouts[id])
      ensures r.Fail? ==> r == Fail(StatusNotFound, NotFoundMessage)
    {
      if Owns(workouts, caller.id, id) then Ok(StatusOk, Populate(people, id, workouts[id]))
      else Fail(StatusNotFound, NotFoundMessage)
    }

    /** POST /workouts: the body's `author` is overwritten with the caller's
        id before validation; the reply shows the caller's own record as author. */
    method Create(caller: Profile, body: WorkoutInput, now: Time) returns (r: Reply<Shown>)
      modifies this
      ensures var built := NewWorkout(body.(author := Some(caller.id)), now);
        if built.Success? then
          && r.Ok? && r.status == StatusCreated
          && r.value.id !in old(workouts)
          && r.value.workout == built.value
          && r.value.author == Some(caller)
          && workouts == old(workouts)[r.value.id := built.value]
          && workouts[r.value.id].author == Some(caller.id)
        else
          r.Fail? && r.status == StatusServerError && workouts == old(workouts)
    {
      match NewWorkout(body.(author := Some(caller.id)), now)
      case Failure(_) =>
        r := Fail(StatusServerError, "Workout validation failed");
      case Success(w) =>
        ghost var bound := Above(workouts.Keys);
        assert bound !in workouts;
        var id :| id !in workouts;
        workouts := workouts[id := w];
        r := Ok(StatusCreated, Shown(id, w, Some(caller)));
    }

    /** POST /workouts as written, when the JSON body is an array (which
        `express.json()` accepts). Line 41 sets `author` on the array itself,
        not on its elements, so `Workout.create` stores every element that
        validates with the `author` it carries. Line 43 then fails on the
        returned array, so the caller gets a 500 although the documents
        were stored. `ids[i]` is where the i-th body was stored. */
    method CreateAsWritten(caller: Profile, bodies: seq<WorkoutInput>, now: Time)
      returns (r: Reply<Shown>, ghost ids: seq<WorkoutId>)
      modifies this
      ensures r.Fail? && r.status == StatusServerError
      ensures |ids| == |bodies|
      ensures forall k :: k in old(workouts) ==> k in workouts && workouts[k] == old(workouts)[k]
      ensures forall i :: 0 <= i < |bodies| && WorkoutComplete(bodies[i]) ==>
        ids[i] !in old(workouts) && ids[i] in workouts && workouts[ids[i]] == NewWorkout(bodies[i], now).value
      ensures forall i, j :: 0 <= i < j < |bodies| && WorkoutComplete(bodies[i]) && WorkoutComplete(bodies[j]) ==>
        ids[i] != ids[j]
      ensures forall k :: k in workouts && k !in old(workouts) ==>
        exists i :: 0 <= i < |bodies| && WorkoutComplete(bodies[i]) && ids[i] == k
    {
      ids := [];
      var i := 0;
      while i < |bodies|
        invariant 0 <= i <= |bodies| && |ids| == i
        invariant forall k :: k in old(workouts) ==> k in workouts && workouts[k] == old(workouts)[k]
        invariant forall j :: 0 <= j < i && WorkoutComplete(bodies[j]) ==>
          ids[j] !in old(workouts) && ids[j] in workouts && workouts[ids[j]] == NewWorkout(bodies[j], now).value
        invariant forall j1, j2 :: 0 <= j1 < j2 < i && WorkoutComplete(bodies[j1]) && WorkoutComplete(bodies[j2]) ==>
          ids[j1] != ids[j2]
        invariant forall k :: k in workouts && k !in old(workouts) ==>
          exists j :: 0 <= j < i && WorkoutComplete(bodies[j]) && ids[j] == k
        decreases |bodies| - i
      {
        match NewWorkout(bodies[i], now) {
          case Failure(_) =>
            ids := ids + [0];
          case Success(w) =>
            ghost var bound := Above(workouts.Keys);
            assert bound !in workouts;
            var id :| id !in workouts;
            workouts := workouts[id := w];
            ids := ids + [id];
        }
        i := i + 1;
      }
      r := Fail(StatusServerError, "workout._doc is undefined");
    }

    /** PUT /workouts/:id: only the caller's own workout is updated; the
        reply is its state after the update (`new: true`). */
    method Update(people: Directory, caller: Profile, id: WorkoutId, patch: WorkoutPatch, now: Time)
      returns (r: Reply<Shown>)
      requires Keyed(people)
      modifies this
      ensures Owns(old(workouts), caller.id, id) ==>
        && workouts == old(workouts)[id := Patched(old(workouts)[id], patch, now)]
        && r == Ok(StatusOk, Populate(people, id, workouts[id]))
      ensures !Owns(old(workouts), caller.id, id) ==>
        r == Fail(StatusNotFound, NotFoundMessage) && workouts == old(workouts)
    {
      if Owns(workouts, caller.id, id) {
        workouts := workouts[id := Patched(workouts[id], patch, now)];
        r := Ok(StatusOk, Populate(people, id, workouts[id]));
      } else {
        r := Fail(StatusNotFound, NotFoundMessage);
      }
    }

    /** DELETE /workouts/:id: only the caller's own workout is removed,
        embedded exercises with it; the reply is its state before removal. */
    method Delete(caller: Profile, id: WorkoutId) returns (r: Reply<Stored>)
      modifies this
      ensures Owns(old(workouts), caller.id, id) ==>
        workouts == old(workouts) - {id} && r == Ok(StatusOk, Stored(id, old(workouts)[id]))
      ensures !Owns(old(workouts), caller.id, id) ==>
        r == Fail(StatusNotFound, NotFoundMessage) && workouts == old(workouts)
    {
      if Owns(workouts, caller.id, id) {
        r := Ok(StatusOk, Stored(id, workouts[id]));
        workouts := workouts - {id};
      } else {
        r := Fail(StatusNotFound, NotFoundMessage);
      }
    }

    /** POST /workouts/:id/exercises: push one exercise onto the caller's own
        workout and save it. `save()` validates the whole document, so a
        workout that an update left non-conforming, or an incomplete
        exercise, fails with 500 and nothing is stored. The reply is the
        new exercise alone. */
    method AddExercise(caller: Profile, id: WorkoutId, body: ExerciseInput, now: Time)
      returns (r: Reply<Exercise>)
      modifies this
      ensures !Owns(old(workouts), caller.id, id) ==>
        r == Fail(StatusNotFound, NotFoundMessage) && workouts == old(workouts)
      ensures Owns(old(workouts), caller.id, id) && !(ExerciseComplete(body) && Conforms(old(workouts)[id])) ==>
        r.Fail? && r.status == StatusServerError && workouts == old(workouts)
      ensures Owns(old(workouts), caller.id, id) && ExerciseComplete(body) && Conforms(old(workouts)[id]) ==>
        && r == Ok(StatusCreated, NewExercise(body, now).value)
        && workouts == old(workouts)[id := WithExercise(old(workouts)[id], r.value, now)]
        && r.value == workouts[id].exercises[|workouts[id].exercises| - 1]
    {
      if !Owns(workouts, caller.id, id) {
        r := Fail(StatusNotFound, NotFoundMessage);
        return;
      }
      var w := workouts[id];
      match NewExercise(body, now)
      case Failure(_) =>
        r := Fail(StatusServerError, "Workout validation failed");
      case Success(e) =>
        var updated := WithExercise(w, e, now);
        if Conforms(updated) {
          workouts := workouts[id := updated];
          r := Ok(StatusCreated, e);
        } else {
          r := Fail(StatusServerError, "Workout validation failed");
        }
    }
  }

  /** A workout planted by another user: B posts a one-element array whose
      element names A as author. B gets a 500, yet the workout is stored and
      shows up in A's list as A's own. */
  method ArrayBodyPlantsWorkout(people: Directory, a: Profile, b: Profile, body: WorkoutInput, now: Time)
    returns (created: Reply<Shown>, listedByA: Reply<seq<Shown>>, ghost planted: Shown)
    requires Keyed(people) && a.id != b.id
    requires WorkoutComplete(body) && body.author == Some(a.id)
    ensures created.Fail? && created.status == StatusServerError
    ensures listedByA.Ok? && planted in listedByA.value && planted.workout.author == Some(a.id)
  {
    var store := new WorkoutStore();
    ghost var ids;
    created, ids := store.CreateAsWritten(b, [body], now);
    listedByA := store.List(people, a);
    planted := Populate(people, ids[0], store.workouts[ids[0]]);
  }

  /** A freshly created workout accepts any complete exercise: the append's
      `save()` passes validation. */
  lemma FreshWorkoutAcceptsExercise(w: WorkoutInput, e: ExerciseInput, created: Time, now: Time)
    requires WorkoutComplete(w) && ExerciseComplete(e)
    ensures NewWorkout(w, created).Success? && NewExercise(e, now).Success?
    ensures Conforms(WithExercise(NewWorkout(w, created).value, NewExercise(e, now).value, now))
  {
  }

  /** Two users sharing one store: B can neither see, read, change nor
      delete A's workout; once A deletes it, A cannot read it either. */
  method Isolation(people: Directory, a: Profile, b: Profile, body: WorkoutInput, patch: WorkoutPatch, now: Time)
    returns (created: Reply<Shown>, listedByB: Reply<seq<Shown>>, readByB: Reply<Shown>,
             updatedByB: Reply<Shown>, deletedByB: Reply<Stored>, deletedByA: Reply<Stored>,
             readByA: Reply<Shown>)
    requires Keyed(people) && a.id != b.id
    requires WorkoutComplete(body)
    ensures created.Ok? && created.value.workout.author == Some(a.id)
    ensures listedByB.Ok? && forall s :: s !in listedByB.value
    ensures readByB == Fail(StatusNotFound, NotFoundMessage)
    ensures updatedByB == Fail(StatusNotFound, NotFoundMessage)
    ensures deletedByB == Fail(StatusNotFound, NotFoundMessage)
    ensures deletedByA == Ok(StatusOk, Stored(created.value.id, created.value.workout))
    ensures readByA == Fail(StatusNotFound, NotFoundMessage)
  {
    var store := new WorkoutStore();
    created := store.Create(a, body, now);
    var id := created.value.id;
    listedByB := store.List(people, b);
    readByB := store.Get(people, b, id);
    updatedByB := store.Update(people, b, id, patch, now);
    deletedByB := store.Delete(b, id);
    deletedByA := store.Delete(a, id);
    readByA := store.Get(people, a, id);
  }
}
