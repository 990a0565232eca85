# Workout log backend: ownership-scoped workouts and credential flow

This project is a Dafny model of the core of a small workout-tracker HTTP API:

- **Workout schema** (`WorkoutModel`, in `workout_model.dfy`). A Workout has an embedded, ordered list of Exercises. A request body becomes a document only if Mongoose's `required` validation accepts it. A required string must be present and non-empty.
- **Workout service** (`Workouts`, in `workouts.dfy`). A `WorkoutStore` class holds the workouts collection as a map from id to workout. There is one method per route: list, get, create, update, delete and append-exercise. List selects the caller's workouts by `author` alone. Get, update, delete and append-exercise find a workout by the filter `{_id, author: caller}`, so a workout that is missing and a workout owned by someone else give the same 404. Create uses no filter: it sets the author to the caller.
- **Credential flow** (`Auth`, in `auth.dfy`). A `UserStore` class holds the User collection, keyed by email. It has a `Signup` method that checks the email and then inserts, and a read-only `Login` function. bcrypt hashing, bcrypt comparison and JWT signing are opaque function values in a `Crypto` record. They are passed in, together with the signing secret.
- **Shared types** (`Common`, in `common.dfy`). These are replies (status plus body or `{err}`), ids, timestamps, and the identity payload `{name, email, _id}`. That payload is what a token carries and what the routes receive as the caller.

Parameters stand in for I/O and nondeterminism:
- the clock (`now`);
- bcrypt's random salt (`salt`);
- the authenticated caller (a `Profile`, as the token middleware would decode it);
- the User collection as `populate('author')` sees it (a `Directory` map, in which every user record is filed under its own `_id`: `Workouts.Keyed`).

Fresh ObjectIds are any id not already in use. `Common.Above` shows that such an id always exists.

## Model

| member | source | states |
|---|---|---|
| `WorkoutModel.NewExercise` | models/workout.js:3-20 | an exercise body is accepted iff `name` is a non-empty string and `sets` and `reps` are present; `weight` is optional; the document keeps the body's values and gets both timestamps |
| `WorkoutModel.NewExercises` | models/workout.js:35 | the embedded array is accepted iff every element is; the result has the same length and order as the body, element by element |
| `WorkoutModel.NewWorkout` | models/workout.js:23-38 | a workout body is accepted iff `title` is a non-empty string, `date` is present and every exercise is complete; `durationInMinutes` is optional; `author` is one optional user reference; the result keeps the body's fields, is timestamped, and satisfies the schema |
| `WorkoutModel.ExerciseRoundTrip` | models/workout.js:3-20 | a conforming exercise is rebuilt exactly from the body a client would send for it |
| `WorkoutModel.ExercisesRoundTrip` | models/workout.js:35 | a conforming embedded array is rebuilt exactly, in order, from its bodies |
| `WorkoutModel.WorkoutRoundTrip` | models/workout.js:23-38 | a conforming workout is rebuilt exactly from its body: validation loses and adds nothing |
| `Common.Above` | controllers/workouts.js:42 | every finite set of ids has a strict upper bound, so a fresh id for a new document always exists |
| `Workouts.Populate` | controllers/workouts.js:12 | the author reference is replaced by the user record whose `_id` is that reference, or by null when it does not resolve; id and fields are unchanged |
| `Workouts.InsertByDate` | controllers/workouts.js:13 | inserting adds exactly the new entry and keeps every old one, as multisets |
| `Workouts.InsertKeepsNewestFirst` | controllers/workouts.js:13 | inserting into a date-descending sequence keeps it date-descending |
| `Workouts.InsertKeepsDistinct` | controllers/workouts.js:13 | inserting a new entry into a sequence without repeats adds no repeat |
| `Workouts.WorkoutStore.List` | controllers/workouts.js:9-18 | replies 200 with exactly the caller's workouts, each populated and listed once, newest date first; no other user's workout appears, and every resolved author is the caller's own record |
| `Workouts.WorkoutStore.Get` | controllers/workouts.js:21-36 | replies 200 with the populated workout iff it exists and its author is the caller; a missing workout and another user's workout give the same 404 |
| `Workouts.WorkoutStore.Create` | controllers/workouts.js:39-48 | for an object body, the stored author is the caller's id whatever the body said; on success exactly one record is added under a fresh id and the 201 reply shows the caller's record as author; a body failing validation gives 500 and stores nothing |
| `Workouts.WorkoutStore.CreateAsWritten` | controllers/workouts.js:41-44 | for an array body, every element that validates is stored under its own fresh id with the `author` it carries, earlier records are unchanged, nothing else is added, and the reply is 500 |
| `Workouts.ArrayBodyPlantsWorkout` | controllers/workouts.js:41-44 | user B's array body naming user A as author gets a 500, yet the workout is stored and appears in A's list as A's own |
| `Workouts.Patched` | controllers/workouts.js:53-56 | an update replaces exactly the fields the body carries, keeps the exercises and `createdAt`, and stamps `updatedAt` |
| `Workouts.PatchIdempotent` | controllers/workouts.js:53-56 | applying the same update twice at one instant equals applying it once |
| `Workouts.PatchAuthor` | controllers/workouts.js:55 | an update keeps the author iff the body omits `author` or repeats it, so a body naming another author reassigns the workout |
| `Workouts.WorkoutStore.Update` | controllers/workouts.js:51-67 | only the record matching `{_id, author: caller}` changes, and the 200 reply is its post-update state, populated; with no match the reply is 404 and the store is unchanged; other records are unchanged either way |
| `Workouts.WorkoutStore.Delete` | controllers/workouts.js:70-85 | only the matching record is removed, with its embedded exercises, and the 200 reply is its id and prior state, unpopulated; with no match the reply is 404 and nothing is removed |
| `Workouts.WithExercise` | controllers/workouts.js:102-103 | the exercise array grows by exactly one at the end, earlier elements are kept in order, and nothing but `updatedAt` changes otherwise |
| `Workouts.WorkoutStore.AddExercise` | controllers/workouts.js:91-110 | a missing or foreign workout gives 404 and nothing is appended; an incomplete exercise or a non-conforming parent gives 500 and nothing is stored; otherwise the exercise is appended at the end and the 201 reply is exactly the last element |
| `Workouts.FreshWorkoutAcceptsExercise` | controllers/workouts.js:102-103 | appending a complete exercise to a workout just created from a complete body passes the whole-document validation of `save()` |
| `Workouts.Isolation` | controllers/workouts.js:11-85 | user B cannot list, read, update or delete user A's workout; A's delete returns the prior state, and A's later read of the same id is 404 |
| `Auth.Payload` | controllers/auth.js:24 | the token payload is the stored user's `{name, email, _id}` |
| `Auth.UserStore.Signup` | controllers/auth.js:10-32 | a taken email gives 409 "Email already taken." and no change; otherwise exactly one user is added under a fresh id, with the given name and email and the bcrypt hash of the password at cost 12; the 201 token is signed over that user's payload; emails stay unique keys and ids stay distinct |
| `Auth.UserStore.Login` | controllers/auth.js:34-56 | login succeeds iff the email is known and the password matches its stored hash; every failure is the same 401 "Invalid credentials."; success gives 200 with a token over the stored user's payload; the store is only read |
| `Auth.LoginFailuresAlike` | controllers/auth.js:36-46 | an unknown email and a wrong password give identical replies |
| `Auth.LoginAcceptsOwnPassword` | controllers/auth.js:41-52 | if the only bcrypt assumption holds, a user's own password logs that user in, with a token over the same payload shape |
| `Auth.SignupTwiceThenLogin` | controllers/auth.js:10-56 | a second signup with the same email is refused; login then issues a token over the same claims as the first signup |

Notes on the program's behaviour:
- Update passes the body to `findOneAndUpdate` unfiltered, so a body carrying `author` reassigns the workout (`Workouts.PatchAuthor`).
- A workout that is missing and a workout owned by someone else both give 404; no route answers 403.
- The token payload is `{name, email, _id}` and carries no expiry claim.

## Findings

| source | as written | input that shows it | evidently intended | confidence | as-written member | corrected member |
|---|---|---|---|---|---|---|
| controllers/workouts.js:41-44 | `req.body.author = req.user._id` sets `author` on the body; when the body is a JSON array it lands on the array, not on its elements. `Workout.create` then stores each element with its own `author`, and line 43 fails on the returned array, so the reply is 500 after the documents were stored | user B posts `[{"title": "t", "date": "2024-01-01", "author": "<A's id>"}]` | every created workout has the caller as author, and a 500 stores nothing | medium; not executed | `Workouts.WorkoutStore.CreateAsWritten` (witness `Workouts.ArrayBodyPlantsWorkout`) | `Workouts.WorkoutStore.Create` |

The rest of the model creates workouts through `Workouts.WorkoutStore.Create`, which takes an object body.

## Left out

- Process bootstrap is not modelled: environment loading, the database connection, CORS, logging, router mounting and `listen`. All of it is I/O.
- The token middleware (`middleware/verify-token`) is not part of this model. The authenticated caller is a parameter. Token verification and its round trip are therefore not modelled.
- bcrypt and JWT internals are not modelled. `Crypto` holds them as opaque functions. The one property assumed is `Auth.Sound`: a password matches every hash made from it. Nothing is assumed about wrong passwords. The claim that the plaintext is never stored is stated as "the stored field is the hash output".
- `models/user.js` is not part of this model. Any email normalisation or extra required fields in the User schema are missing. So are the exact fields that `populate('author')` exposes, which are modelled as `{id, name, email}`.
- Signup and login bodies with missing fields are not modelled; the inputs are always strings. In the source, a missing `email` makes `findOne` match any user.
- An id that is not a well-formed ObjectId makes Mongoose answer 500 with a cast error. In the model every id is well-formed.
- Database and hashing failures are not modelled. In the source they become a 500 through the catch-all handlers.
- `Workouts.WorkoutStore.Create`: a validation failure is stated only as a 500 with nothing stored. The message text is not modelled, and Mongoose reports all missing paths where the model names only the first.
- `Workouts.WorkoutStore.Create`: a body carrying its own `_id` is not modelled; the model always picks a fresh id, whereas the source answers 500 when that id is already taken. Array bodies are covered only by `Workouts.WorkoutStore.CreateAsWritten`.
- `Workouts.WorkoutStore.CreateAsWritten`: when some elements of an array body fail validation, the model still stores every element that validates; whether Mongoose saves those is not modelled more finely.
- `Workouts.WorkoutStore.AddExercise`: a validation failure on save is stated only as a 500 with nothing stored. The message text is not modelled.
- `Workouts.WorkoutStore.Update`: the update body covers `title`, `date`, `durationInMinutes` and `author`. Three things are not modelled: a body that nulls a required field, a body that replaces the `exercises` array, and fields outside the schema.
- Embedded exercises have no `_id` of their own in the model.
- The unguarded load-then-save race in append-exercise is not modelled. Concurrency is out of scope.
- Numbers (`sets`, `reps`, `weight`, `durationInMinutes`) are integers, not JavaScript floats. Dates are integer timestamps.
- `Workouts.WorkoutStore.List`: the order of workouts with equal dates is left open, as Mongo leaves it.
