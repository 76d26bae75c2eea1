/** Values shared by every handler: optional values, identifiers, dates, the
    authenticated caller, the environment the handlers cannot see, and the
    shape of an HTTP outcome. */
module Base {

  /** An optional value; `None` stands for JavaScript `undefined`/`null`. */
  datatype Option<+T> = None | Some(value: T)

  /** Document identifiers (ObjectId strings) are opaque strings. */
  type Id = string

  /** Dates are opaque, totally ordered instants (milliseconds). */
  type Date = int

  /** JavaScript truthiness of an optional string: absent and "" are falsy. */
  predicate Truthy(o: Option<string>) {
    o.Some? && o.value != ""
  }

  /** The authenticated user of a request, as the auth session exposes it. */
  datatype Caller = Caller(role: string, id: Id)

  /** The gate of every teacher-only handler: a session whose role is
      "teacher". */
  predicate IsTeacher(caller: Option<Caller>) {
    caller.Some? && caller.value.role == "teacher"
  }

  /** Everything a handler depends on but cannot see:
      - `validId`: Mongoose's `ObjectId.isValid`, also used as the cast check
        Mongoose applies when it stores or queries a reference;
      - `parseDate`: `new Date(text)`, `None` for an Invalid Date;
      - `now`: the clock;
      - `newId`: the `_id` the database assigns to an inserted document;
      - `hash`: bcrypt's `hash(password, 12)`;
      - `undefinedClears`: whether an `undefined` key in an update clears the
        stored field (Mongoose 5) or is dropped from the update (Mongoose 6+). */
  datatype Env = Env(
    validId: string -> bool,
    parseDate: string -> Option<Date>,
    now: Date,
    newId: Id,
    hash: string -> string,
    undefinedClears: bool)

  /** The body of a JSON response: the data, or an `{ error }` message. */
  datatype Payload<+T> = Json(value: T) | Error(message: string)

  /** What a handler produces: status, body, and the store after the request. */
  datatype Outcome<+T, +S> = Outcome(status: int, payload: Payload<T>, store: S)

  const OK: int := 200
  const CREATED: int := 201
  const BAD_REQUEST: int := 400
  const UNAUTHORIZED: int := 401
  const NOT_FOUND: int := 404
  const SERVER_ERROR: int := 500

  const INTERNAL_ERROR: string := "Internal server error"
}
