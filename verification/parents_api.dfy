/** The `/api/parents` route: teachers list every parent account and create
    new ones. */
module ParentsApi {
  import opened Base
  import opened Models

  /** The projection `_id name email` of a user. */
  datatype ParentView = ParentView(id: Id, name: string, email: string)

  /** The body of a successful create: the password hash is not part of it. */
  datatype CreatedParent = CreatedParent(id: Id, name: string, email: string, role: string)

  /** The JSON body of a create request; an absent key is `None`. */
  datatype ParentRequest = ParentRequest(name: Option<string>, email: Option<string>, password: Option<string>)

  function View(u: User): ParentView {
    ParentView(u.id, u.name, u.email)
  }

  /** The projected parent accounts, in store order. */
  function ParentViews(users: seq<User>): (r: seq<ParentView>)
    ensures |r| <= |users|
    ensures forall v :: v in r <==> exists u :: u in users && u.role == "parent" && View(u) == v
  {
    if |users| == 0 then []
    else
      var rest := ParentViews(users[1..]);
      assert forall u :: u in users <==> u == users[0] || u in users[1..];
      if users[0].role == "parent" then [View(users[0])] + rest else rest
  }

  /** GET: a teacher lists every parent account. */
  function Get(caller: Option<Caller>, store: Store): (r: Outcome<seq<ParentView>, Store>)
    ensures r.store == store
    ensures r.status == UNAUTHORIZED <==> !IsTeacher(caller)
    ensures r.status == OK <==> IsTeacher(caller)
    ensures r.status == OK ==>
              (r.payload.Json? &&
               forall v :: v in r.payload.value <==>
                 exists u :: u in store.users && u.role == "parent" && View(u) == v)
    ensures r.status == OK ==> r.payload == Json(ParentViews(store.users))
    ensures r.status == UNAUTHORIZED ==> r.payload == Error("Unauthorized")
  {
    if !IsTeacher(caller) then
      Outcome(UNAUTHORIZED, Error("Unauthorized"), store)
    else
      Outcome(OK, Json(ParentViews(store.users)), store)
  }

  /** Some user already has this email (`User.findOne({ email })`). */
  predicate EmailTaken(users: seq<User>, email: string) {
    exists i :: 0 <= i < |users| && users[i].email == email
  }

  /** POST: a teacher creates a parent account. */
  function Post(caller: Option<Caller>, body: ParentRequest, store: Store, env: Env)
    : (r: Outcome<CreatedParent, Store>)
    ensures caller.None? ==> r.status == UNAUTHORIZED && r.payload == Error("Unauthorized - No session")
    ensures caller.Some? && caller.value.role != "teacher" ==>
              r.status == UNAUTHORIZED && r.payload == Error("Unauthorized - Not a teacher")
    ensures IsTeacher(caller)
            && !(Truthy(body.name) && Truthy(body.email) && Truthy(body.password)) ==>
              r.status == BAD_REQUEST && r.payload == Error("Missing fields")
    ensures IsTeacher(caller)
            && Truthy(body.name) && Truthy(body.email) && Truthy(body.password)
            && EmailTaken(store.users, body.email.value) ==>
              r.status == BAD_REQUEST && r.payload == Error("Email already exists")
    ensures r.status == CREATED <==>
              IsTeacher(caller)
              && Truthy(body.name) && Truthy(body.email) && Truthy(body.password)
              && !EmailTaken(store.users, body.email.value)
    ensures r.status != CREATED ==> r.store == store
    ensures r.status == CREATED ==>
              body.name.Some? && body.email.Some? && body.password.Some? && r.payload.Json?
              && r.store == store.(users := store.users +
                   [User(env.newId, body.name.value, body.email.value, env.hash(body.password.value), "parent")])
              && r.payload.value == CreatedParent(env.newId, body.name.value, body.email.value, "parent")
  {
    if caller.None? then
      Outcome(UNAUTHORIZED, Error("Unauthorized - No session"), store)
    else if caller.value.role != "teacher" then
      Outcome(UNAUTHORIZED, Error("Unauthorized - Not a teacher"), store)
    else if !Truthy(body.name) || !Truthy(body.email) || !Truthy(body.password) then
      Outcome(BAD_REQUEST, Error("Missing fields"), store)
    else if EmailTaken(store.users, body.email.value) then
      Outcome(BAD_REQUEST, Error("Email already exists"), store)
    else
      var user := User(env.newId, body.name.value, body.email.value, env.hash(body.password.value), "parent");
      Outcome(CREATED, Json(CreatedParent(user.id, user.name, user.email, user.role)),
              store.(users := store.users + [user]))
  }

  /** Creating a parent keeps emails unique, and with them the whole store
      consistent. */
  lemma PostKeepsConsistent(caller: Option<Caller>, body: ParentRequest, store: Store, env: Env)
    requires Consistent(store, env.validId)
    ensures Consistent(Post(caller, body, store, env).store, env.validId)
  {
    var r := Post(caller, body, store, env);
    if r.status == CREATED {
      var us := r.store.users;
      assert forall i :: 0 <= i < |us| - 1 ==> us[i] == store.users[i];
    }
  }

  /** Two successive successful creates never share an email. */
  lemma TwoCreatesDistinctEmails(
    c1: Option<Caller>, b1: ParentRequest, c2: Option<Caller>, b2: ParentRequest,
    store: Store, e1: Env, e2: Env)
    requires Post(c1, b1, store, e1).status == CREATED
    requires Post(c2, b2, Post(c1, b1, store, e1).store, e2).status == CREATED
    ensures b1.email.Some? && b2.email.Some? && b1.email.value != b2.email.value
  {
    var mid := Post(c1, b1, store, e1).store;
    assert mid.users[|mid.users| - 1].email == b1.email.value;
  }

  /** Projecting a longer user list projects the added user last, if it is
      a parent. */
  lemma {:induction false} ParentViewsAppend(users: seq<User>, u: User)
    ensures ParentViews(users + [u]) == ParentViews(users) + (if u.role == "parent" then [View(u)] else [])
    decreases |users|
  {
    if |users| > 0 {
      ParentViewsAppend(users[1..], u);
      assert (users + [u])[1..] == users[1..] + [u];
    } else {
      assert ParentViews([u]) == (if u.role == "parent" then [View(u)] else []) + ParentViews([]);
    }
  }

  /** After a successful create, the teacher's parent list is the list as
      before with the new account's `_id name email` added at the end. */
  lemma CreatedParentIsListed(caller: Option<Caller>, body: ParentRequest, store: Store, env: Env)
    requires Post(caller, body, store, env).status == CREATED
    ensures var after := Post(caller, body, store, env).store;
            Get(caller, after).status == OK
            && Get(caller, after).payload.value
               == Get(caller, store).payload.value + [ParentView(env.newId, body.name.value, body.email.value)]
  {
    var u := User(env.newId, body.name.value, body.email.value, env.hash(body.password.value), "parent");
    ParentViewsAppend(store.users, u);
  }
}
