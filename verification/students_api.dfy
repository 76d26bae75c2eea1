/** The `/api/students` list route: students of a parent or of a teacher,
    chosen by query parameters alone. The route reads no auth session, so the
    handler takes no caller. */
module StudentsApi {
  import opened Base
  import opened Seqs
  import opened Models

  /** The query `{ parent: userId }` or `{ teacher: userId }` for `role`. */
  predicate RoleMatches(role: string, userId: Id, s: Student) {
    (role == "parent" && s.parent == userId) || (role == "teacher" && s.teacher == userId)
  }

  /** GET `?role=…&userId=…`. */
  function Get(role: Option<string>, userId: Option<string>, store: Store, env: Env)
    : (r: Outcome<seq<Student>, Store>)
    ensures r.store == store
    ensures !(Truthy(role) && Truthy(userId)) ==>
              r.status == BAD_REQUEST && r.payload == Error("Missing role or userId")
    ensures Truthy(role) && Truthy(userId) && !env.validId(userId.value) ==>
              r.status == BAD_REQUEST && r.payload == Error("Invalid userId")
    ensures Truthy(role) && Truthy(userId) && env.validId(userId.value)
            && role.value != "parent" && role.value != "teacher" ==>
              r.status == BAD_REQUEST && r.payload == Error("Invalid role")
    ensures r.status == OK <==>
              Truthy(role) && Truthy(userId) && env.validId(userId.value)
              && (role.value == "parent" || role.value == "teacher")
    ensures r.status == OK ==>
              (role.Some? && userId.Some? && r.payload.Json? &&
               forall s :: multiset(r.payload.value)[s] ==
                 if RoleMatches(role.value, userId.value, s) then multiset(store.students)[s] else 0)
  {
    if !Truthy(role) || !Truthy(userId) then
      Outcome(BAD_REQUEST, Error("Missing role or userId"), store)
    else if !env.validId(userId.value) then
      Outcome(BAD_REQUEST, Error("Invalid userId"), store)
    else if role.value == "parent" then
      Outcome(OK, Json(Filter(store.students, (s: Student) => s.parent == userId.value)), store)
    else if role.value == "teacher" then
      Outcome(OK, Json(Filter(store.students, (s: Student) => s.teacher == userId.value)), store)
    else
      Outcome(BAD_REQUEST, Error("Invalid role"), store)
  }

  /** Every student the route lists satisfies the Student schema's required
      references when the store does. */
  lemma ListedStudentsAreValid(role: Option<string>, userId: Option<string>, store: Store, env: Env)
    requires Consistent(store, env.validId)
    requires Get(role, userId, store, env).status == OK
    ensures forall s :: s in Get(role, userId, store, env).payload.value ==> StudentValid(s, env.validId)
  {
    var listed := Get(role, userId, store, env).payload.value;
    forall s | s in listed
      ensures StudentValid(s, env.validId)
    {
      assert multiset(listed)[s] > 0;
      assert s in store.students;
    }
  }
}
