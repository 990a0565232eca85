/** Types shared by the credential flow and the workout service: optional
    values, validation results, HTTP replies, identifiers and the identity
    record carried in a bearer token. */
module Common {

  datatype Option<+T> = None | Some(value: T)

  datatype Result<+T, +E> = Success(value: T) | Failure(error: E)

  /** Mongo ObjectIds, abstracted to naturals: only equality and freshness matter. */
  type UserId = nat
  type WorkoutId = nat

  /** A date or timestamp as an integer count (milliseconds for Mongo dates,
      seconds for a token's issue time). */
  type Time = int

  /** The identity claims `{name, email, _id}` signed into a token, which the
      token middleware puts on the request as the authenticated caller. */
  datatype Profile = Profile(id: UserId, name: string, email: string)

  /** What a handler answers: a status with a JSON body, or a status with
      the error body `{err: message}`. */
  datatype Reply<+T> = Ok(status: nat, value: T) | Fail(status: nat, err: string)

  const StatusOk: nat := 200
  const StatusCreated: nat := 201
  const StatusUnauthorized: nat := 401
  const StatusNotFound: nat := 404
  const StatusConflict: nat := 409
  const StatusServerError: nat := 500

  /** A strict upper bound of a finite set of identifiers; it witnesses that
      a fresh identifier always exists, which is all the model needs of
      ObjectId generation. */
  ghost function Above(ids: set<nat>): (r: nat)
    ensures forall x :: x in ids ==> x < r
    decreases ids
  {
    if ids == {} then 0
    else
      var x :| x in ids;
      var rest := Above(ids - {x});
      assert forall y :: y in ids ==> y == x || y in ids - {x};
      if x < rest then rest else x + 1
  }
}
