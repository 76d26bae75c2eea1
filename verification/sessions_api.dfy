/** The `/api/sessions` route: list, create, update and delete tutoring
    sessions, gated by the caller's role and, for writes, by ownership
    (`teacher` equal to the caller). */
module SessionsApi {
  import opened Base
  import opened Seqs
  import opened Models

  /** The query parameter and JSON body fields the handlers read; an absent
      key is `None`. */
  datatype SessionRequest = SessionRequest(
    sessionId: Option<string>,
    studentId: Option<string>,
    date: Option<string>,
    sessionNotes: Option<string>,
    parentNotes: Option<string>,
    homework: Option<string>)

  /** Roles allowed to read sessions. */
  predicate IsReader(caller: Option<Caller>) {
    caller.Some? && (caller.value.role == "teacher" || caller.value.role == "parent")
  }

  /** The GET query: sessions of the student; a teacher only sees their own,
      a parent sees every teacher's. */
  predicate Selected(s: Session, studentId: Id, caller: Caller) {
    s.student == studentId && (caller.role == "parent" || s.teacher == caller.id)
  }

  /** A session that the update and delete filter `{ _id, teacher }` matches. */
  predicate Owned(s: Session, sessionId: Id, teacher: Id) {
    s.id == sessionId && s.teacher == teacher
  }

  function OwnedIndex(sessions: seq<Session>, sessionId: Id, teacher: Id): Option<nat> {
    FirstIndex(sessions, (s: Session) => Owned(s, sessionId, teacher))
  }

  /** `date ? new Date(date) : new Date()`: `None` when the given text is an
      Invalid Date, which Mongoose refuses to cast. */
  function RequestedDate(date: Option<string>, env: Env): (r: Option<Date>)
    ensures !Truthy(date) ==> r == Some(env.now)
    ensures Truthy(date) ==> r == env.parseDate(date.value)
    ensures r.None? ==> Truthy(date) && env.parseDate(date.value).None?
  {
    if Truthy(date) then env.parseDate(date.value) else Some(env.now)
  }

  /** GET: the sessions of `studentId` visible to the caller, newest first. */
  function Get(caller: Option<Caller>, studentId: Option<string>, store: Store, env: Env)
    : (r: Outcome<seq<Session>, Store>)
    ensures r.store == store
    ensures r.status == UNAUTHORIZED <==> !IsReader(caller)
    ensures r.status == BAD_REQUEST <==>
              IsReader(caller) && !(Truthy(studentId) && env.validId(studentId.value))
    ensures r.status == SERVER_ERROR <==>
              IsReader(caller) && Truthy(studentId) && env.validId(studentId.value)
              && caller.value.role != "parent" && !env.validId(caller.value.id)
    ensures r.status == OK <==>
              IsReader(caller) && Truthy(studentId) && env.validId(studentId.value)
              && (caller.value.role == "parent" || env.validId(caller.value.id))
    ensures r.status == OK ==> r.payload.Json? && SortedDesc(r.payload.value, SessionDate)
    ensures r.status == OK ==>
              (caller.Some? && studentId.Some? && r.payload.Json? &&
               forall s :: multiset(r.payload.value)[s] ==
                 if Selected(s, studentId.value, caller.value) then multiset(store.sessions)[s] else 0)
  {
    if !IsReader(caller) then
      Outcome(UNAUTHORIZED, Error("Unauthorized"), store)
    else if !Truthy(studentId) || !env.validId(studentId.value) then
      Outcome(BAD_REQUEST, Error("Valid studentId is required"), store)
    else if caller.value.role != "parent" && !env.validId(caller.value.id) then
      Outcome(SERVER_ERROR, Error(INTERNAL_ERROR), store)
    else
      var c := caller.value;
      var sid := studentId.value;
      var found := if c.role == "parent" then Filter(store.sessions, (s: Session) => s.student == sid)
                   else Filter(store.sessions, (s: Session) => s.student == sid && s.teacher == c.id);
      Outcome(OK, Json(SortDesc(found, SessionDate)), store)
  }

  /** The student `studentId` has `parent` as its parent. */
  predicate LinkedTo(students: seq<Student>, studentId: Id, parent: Id) {
    exists i :: 0 <= i < |students| && students[i].id == studentId && students[i].parent == parent
  }

  /** GET as intended: like `Get`, except that a parent reading a student not
      linked to them receives an empty list. */
  function GetLinked(caller: Option<Caller>, studentId: Option<string>, store: Store, env: Env)
    : (r: Outcome<seq<Session>, Store>)
    ensures r.store == store
    ensures r.status == Get(caller, studentId, store, env).status
    ensures r.status != OK ==> r.payload == Get(caller, studentId, store, env).payload
    ensures IsReader(caller) && caller.value.role == "parent" && Truthy(studentId) && env.validId(studentId.value)
            && !LinkedTo(store.students, studentId.value, caller.value.id) ==>
              r.payload == Json([])
    ensures r.status == OK ==>
              (caller.Some? && studentId.Some? && r.payload.Json? &&
               (caller.value.role == "parent" && |r.payload.value| > 0 ==>
                  LinkedTo(store.students, studentId.value, caller.value.id)))
    ensures r.status == OK ==>
              (caller.Some? && studentId.Some? && r.payload.Json? &&
               forall s :: s in r.payload.value ==>
                 s in store.sessions && Selected(s, studentId.value, caller.value))
  {
    var r := Get(caller, studentId, store, env);
    if r.status == OK && caller.value.role == "parent"
       && !LinkedTo(store.students, studentId.value, caller.value.id) then
      Outcome(OK, Json([]), store)
    else
      assert r.status == OK ==> forall s :: s in r.payload.value ==> multiset(r.payload.value)[s] > 0;
      r
  }

  /** For teachers, and for parents reading their own child, the corrected
      GET answers exactly as the route does. */
  lemma GetLinkedAgrees(caller: Option<Caller>, studentId: Option<string>, store: Store, env: Env)
    requires caller.Some? && studentId.Some?
    requires caller.value.role != "parent" || LinkedTo(store.students, studentId.value, caller.value.id)
    ensures GetLinked(caller, studentId, store, env) == Get(caller, studentId, store, env)
  {
  }

  /** A store in which parent "p1" asks about student "st1", whose parent is
      "p2". */
  function UnlinkedStore(): Store {
    Store([], [Student("st1", None, None, None, [], "p2", "t1")],
          [Session("se1", "st1", "t1", Some("private"), Some("notes"), None, 5)])
  }

  function AnyIdEnv(): Env {
    Env((s: string) => true, (s: string) => None, 0, "new", (s: string) => s, false)
  }

  /** The route as written hands another parent's child's session to "p1";
      the corrected GET returns nothing. */
  lemma UnlinkedParentReadsSessions()
    ensures !LinkedTo(UnlinkedStore().students, "st1", "p1")
    ensures Get(Some(Caller("parent", "p1")), Some("st1"), UnlinkedStore(), AnyIdEnv()).payload
            == Json(UnlinkedStore().sessions)
    ensures GetLinked(Some(Caller("parent", "p1")), Some("st1"), UnlinkedStore(), AnyIdEnv()).payload
            == Json([])
  {
    var store := UnlinkedStore();
    var r := Get(Some(Caller("parent", "p1")), Some("st1"), store, AnyIdEnv());
    assert store.students[0].parent == "p2";
    var only := store.sessions[0];
    assert multiset(r.payload.value)[only] == 1;
    assert forall s :: s in r.payload.value ==> s == only by {
      forall s | s in r.payload.value
        ensures s == only
      {
        assert multiset(r.payload.value)[s] > 0;
        assert multiset(store.sessions)[s] > 0;
      }
    }
    assert |r.payload.value| == |multiset(r.payload.value)|;
    assert |multiset(r.payload.value)| == |multiset(store.sessions)|;
    assert r.payload.value == [only];
  }

  /** POST: a teacher records a session for a student. */
  function Post(caller: Option<Caller>, body: SessionRequest, store: Store, env: Env)
    : (r: Outcome<Session, Store>)
    ensures r.status == UNAUTHORIZED <==> !IsTeacher(caller)
    ensures r.status == BAD_REQUEST <==>
              IsTeacher(caller) && !(Truthy(body.studentId) && Truthy(body.sessionNotes))
    ensures r.status == SERVER_ERROR <==>
              IsTeacher(caller) && Truthy(body.studentId) && Truthy(body.sessionNotes)
              && !(env.validId(body.studentId.value) && env.validId(caller.value.id)
                   && RequestedDate(body.date, env).Some?)
    ensures r.status == UNAUTHORIZED ==> r.payload == Error("Unauthorized")
    ensures r.status == BAD_REQUEST ==> r.payload == Error("studentId and sessionNotes are required")
    ensures r.status == SERVER_ERROR ==> r.payload == Error(INTERNAL_ERROR)
    ensures r.status == CREATED <==>
              IsTeacher(caller) && Truthy(body.studentId) && Truthy(body.sessionNotes)
              && env.validId(body.studentId.value) && env.validId(caller.value.id)
              && RequestedDate(body.date, env).Some?
    ensures r.status != CREATED ==> r.store == store
    ensures r.status == CREATED ==>
              caller.Some? && body.studentId.Some? && r.payload.Json?
              && r.store == store.(sessions := store.sessions + [r.payload.value])
              && r.payload.value.id == env.newId
              && r.payload.value.teacher == caller.value.id
              && r.payload.value.student == body.studentId.value
              && r.payload.value.sessionNotes == body.sessionNotes
              && r.payload.value.parentNotes == body.parentNotes
              && r.payload.value.homework == body.homework
              && Some(r.payload.value.date) == RequestedDate(body.date, env)
  {
    if !IsTeacher(caller) then
      Outcome(UNAUTHORIZED, Error("Unauthorized"), store)
    else if !Truthy(body.studentId) || !Truthy(body.sessionNotes) then
      Outcome(BAD_REQUEST, Error("studentId and sessionNotes are required"), store)
    else
      match RequestedDate(body.date, env)
      case None => Outcome(SERVER_ERROR, Error(INTERNAL_ERROR), store)
      case Some(d) =>
        match NewSession(env.newId, body.studentId.value, caller.value.id, body.sessionNotes,
                         body.parentNotes, body.homework, Some(d), env.now, env.validId)
        case None => Outcome(SERVER_ERROR, Error(INTERNAL_ERROR), store)
        case Some(s) => Outcome(CREATED, Json(s), store.(sessions := store.sessions + [s]))
  }

  /** The value an update leaves in an optional field: the given one, or for
      an absent key, cleared or kept depending on the Mongoose version. */
  function UpdatedField(given: Option<string>, stored: Option<string>, env: Env): (r: Option<string>)
    ensures given.Some? ==> r == given
    ensures given.None? && env.undefinedClears ==> r.None?
    ensures given.None? && !env.undefinedClears ==> r == stored
    ensures r == given || r == stored || r.None?
  {
    if given.Some? then given else if env.undefinedClears then None else stored
  }

  /** PATCH: the owning teacher rewrites a session's notes and date. */
  function Patch(caller: Option<Caller>, body: SessionRequest, store: Store, env: Env)
    : (r: Outcome<Session, Store>)
    ensures !IsTeacher(caller) ==> r.status == UNAUTHORIZED
    ensures IsTeacher(caller) && !(Truthy(body.sessionId) && Truthy(body.sessionNotes)) ==>
              r.status == BAD_REQUEST
    ensures r.status == SERVER_ERROR <==>
              IsTeacher(caller) && Truthy(body.sessionId) && Truthy(body.sessionNotes)
              && !(env.validId(body.sessionId.value) && env.validId(caller.value.id)
                   && RequestedDate(body.date, env).Some?)
    ensures r.status == NOT_FOUND <==>
              IsTeacher(caller) && Truthy(body.sessionId) && Truthy(body.sessionNotes)
              && env.validId(body.sessionId.value) && env.validId(caller.value.id)
              && RequestedDate(body.date, env).Some?
              && forall j :: 0 <= j < |store.sessions| ==>
                   !Owned(store.sessions[j], body.sessionId.value, caller.value.id)
    ensures r.status == NOT_FOUND ==> r.payload == Error("Session not found or unauthorized")
    ensures r.status == OK <==>
              IsTeacher(caller) && Truthy(body.sessionId) && Truthy(body.sessionNotes)
              && env.validId(body.sessionId.value) && env.validId(caller.value.id)
              && RequestedDate(body.date, env).Some?
              && exists j :: 0 <= j < |store.sessions|
                   && Owned(store.sessions[j], body.sessionId.value, caller.value.id)
    ensures r.status != OK ==> r.store == store
    ensures r.status == OK ==>
              caller.Some? && body.sessionId.Some? && r.payload.Json?
              && OwnedIndex(store.sessions, body.sessionId.value, caller.value.id).Some?
              && var i := OwnedIndex(store.sessions, body.sessionId.value, caller.value.id).value;
                 var before := store.sessions[i];
                 var after := r.payload.value;
                 && Owned(before, body.sessionId.value, caller.value.id)
                 && r.store == store.(sessions := store.sessions[i := after])
                 && after.id == before.id && after.student == before.student
                 && after.teacher == before.teacher
                 && after.sessionNotes == body.sessionNotes
                 && Some(after.date) == RequestedDate(body.date, env)
                 && (body.parentNotes.Some? ==> after.parentNotes == body.parentNotes)
                 && (body.parentNotes.None? ==>
                       after.parentNotes == (if env.undefinedClears then None else before.parentNotes))
                 && (body.homework.Some? ==> after.homework == body.homework)
                 && (body.homework.None? ==>
                       after.homework == (if env.undefinedClears then None else before.homework))
  {
    if !IsTeacher(caller) then
      Outcome(UNAUTHORIZED, Error("Unauthorized"), store)
    else if !Truthy(body.sessionId) || !Truthy(body.sessionNotes) then
      Outcome(BAD_REQUEST, Error("sessionId and sessionNotes are required"), store)
    else if !env.validId(body.sessionId.value) || !env.validId(caller.value.id)
            || RequestedDate(body.date, env).None? then
      Outcome(SERVER_ERROR, Error(INTERNAL_ERROR), store)
    else
      match OwnedIndex(store.sessions, body.sessionId.value, caller.value.id)
      case None => Outcome(NOT_FOUND, Error("Session not found or unauthorized"), store)
      case Some(i) =>
        var before := store.sessions[i];
        var after := before.(
          sessionNotes := body.sessionNotes,
          parentNotes := UpdatedField(body.parentNotes, before.parentNotes, env),
          homework := UpdatedField(body.homework, before.homework, env),
          date := RequestedDate(body.date, env).value);
        Outcome(OK, Json(after), store.(sessions := store.sessions[i := after]))
  }

  /** DELETE: the owning teacher removes a session. */
  function Delete(caller: Option<Caller>, body: SessionRequest, store: Store, env: Env)
    : (r: Outcome<string, Store>)
    ensures !IsTeacher(caller) ==> r.status == UNAUTHORIZED
    ensures IsTeacher(caller) && !(Truthy(body.sessionId) && env.validId(body.sessionId.value)) ==>
              r.status == BAD_REQUEST
    ensures r.status == SERVER_ERROR <==>
              IsTeacher(caller) && Truthy(body.sessionId) && env.validId(body.sessionId.value)
              && !env.validId(caller.value.id)
    ensures r.status == NOT_FOUND <==>
              IsTeacher(caller) && Truthy(body.sessionId) && env.validId(body.sessionId.value)
              && env.validId(caller.value.id)
              && forall j :: 0 <= j < |store.sessions| ==>
                   !Owned(store.sessions[j], body.sessionId.value, caller.value.id)
    ensures r.status == NOT_FOUND ==> r.payload == Error("Session not found or unauthorized")
    ensures r.status == OK <==>
              IsTeacher(caller) && Truthy(body.sessionId) && env.validId(body.sessionId.value)
              && env.validId(caller.value.id)
              && exists j :: 0 <= j < |store.sessions|
                   && Owned(store.sessions[j], body.sessionId.value, caller.value.id)
    ensures r.status != OK ==> r.store == store
    ensures r.status == OK ==>
              r.payload == Json("Session deleted successfully") && caller.Some? && body.sessionId.Some?
              && OwnedIndex(store.sessions, body.sessionId.value, caller.value.id).Some?
              && var i := OwnedIndex(store.sessions, body.sessionId.value, caller.value.id).value;
                 && Owned(store.sessions[i], body.sessionId.value, caller.value.id)
                 && r.store == store.(sessions := RemoveAt(store.sessions, i))
  {
    if !IsTeacher(caller) then
      Outcome(UNAUTHORIZED, Error("Unauthorized"), store)
    else if !Truthy(body.sessionId) || !env.validId(body.sessionId.value) then
      Outcome(BAD_REQUEST, Error("Valid sessionId is required"), store)
    else if !env.validId(caller.value.id) then
      Outcome(SERVER_ERROR, Error(INTERNAL_ERROR), store)
    else
      match OwnedIndex(store.sessions, body.sessionId.value, caller.value.id)
      case None => Outcome(NOT_FOUND, Error("Session not found or unauthorized"), store)
      case Some(i) =>
        Outcome(OK, Json("Session deleted successfully"),
                store.(sessions := RemoveAt(store.sessions, i)))
  }

  /** With unique session ids, a successful delete removes the one session
      with that id, which the caller owns, and keeps every other session. */
  lemma DeleteRemovesExactlyOne(caller: Option<Caller>, body: SessionRequest, store: Store, env: Env)
    requires Consistent(store, env.validId)
    requires Delete(caller, body, store, env).status == OK
    ensures caller.Some? && body.sessionId.Some?
    ensures var after := Delete(caller, body, store, env).store.sessions;
            && |after| == |store.sessions| - 1
            && (forall s :: s in after ==> s.id != body.sessionId.value)
            && (forall s :: s in store.sessions && s.id != body.sessionId.value ==> s in after)
            && (exists s :: s in store.sessions && s !in after && Owned(s, body.sessionId.value, caller.value.id))
  {
    var i := OwnedIndex(store.sessions, body.sessionId.value, caller.value.id).value;
    RemoveUniqueKey(store.sessions, i, SessionId);
    var after := RemoveAt(store.sessions, i);
    assert store.sessions[i] !in after;
  }

  /** Creating a session with a fresh id keeps the store consistent. */
  lemma PostKeepsConsistent(caller: Option<Caller>, body: SessionRequest, store: Store, env: Env)
    requires Consistent(store, env.validId)
    requires forall s :: s in store.sessions ==> s.id != env.newId
    ensures Consistent(Post(caller, body, store, env).store, env.validId)
  {
    var r := Post(caller, body, store, env);
    if r.status == CREATED {
      var ss := r.store.sessions;
      assert ss[|ss| - 1] == r.payload.value;
      forall i, j | 0 <= i < |ss| && 0 <= j < |ss| && SessionId(ss[i]) == SessionId(ss[j])
        ensures i == j
      {
        if i < |ss| - 1 { assert ss[i] in store.sessions; }
        if j < |ss| - 1 { assert ss[j] in store.sessions; }
      }
    }
  }

  /** An update keeps ids and references, so it keeps the store consistent. */
  lemma PatchKeepsConsistent(caller: Option<Caller>, body: SessionRequest, store: Store, env: Env)
    requires Consistent(store, env.validId)
    ensures Consistent(Patch(caller, body, store, env).store, env.validId)
  {
    var r := Patch(caller, body, store, env);
    if r.status == OK {
      var i := OwnedIndex(store.sessions, body.sessionId.value, caller.value.id).value;
      var ss := r.store.sessions;
      assert forall k :: 0 <= k < |ss| ==> SessionId(ss[k]) == SessionId(store.sessions[k]);
      assert forall k :: 0 <= k < |ss| ==>
        ss[k].student == store.sessions[k].student && ss[k].teacher == store.sessions[k].teacher;
    }
  }

  /** Removing a session keeps the store consistent. */
  lemma DeleteKeepsConsistent(caller: Option<Caller>, body: SessionRequest, store: Store, env: Env)
    requires Consistent(store, env.validId)
    ensures Consistent(Delete(caller, body, store, env).store, env.validId)
  {
    var r := Delete(caller, body, store, env);
    if r.status == OK {
      var i := OwnedIndex(store.sessions, body.sessionId.value, caller.value.id).value;
      var ss := r.store.sessions;
      forall a, b | 0 <= a < |ss| && 0 <= b < |ss| && SessionId(ss[a]) == SessionId(ss[b])
        ensures a == b
      {
        var a' := if a < i then a else a + 1;
        var b' := if b < i then b else b + 1;
        assert ss[a] == store.sessions[a'] && ss[b] == store.sessions[b'];
      }
      forall k | 0 <= k < |ss|
        ensures SessionValid(ss[k], env.validId)
      {
        if k < i { assert ss[k] == store.sessions[k]; } else { assert ss[k] == store.sessions[k + 1]; }
      }
    }
  }

  /** Repeating a successful update under the same environment changes
      nothing more: the same session is matched and already holds the new
      values. (A later repeat without a date would store a new `now`.) */
  lemma PatchIdempotent(caller: Option<Caller>, body: SessionRequest, store: Store, env: Env)
    requires Patch(caller, body, store, env).status == OK
    ensures var once := Patch(caller, body, store, env);
            Patch(caller, body, once.store, env) == once
  {
    var once := Patch(caller, body, store, env);
    var i := OwnedIndex(store.sessions, body.sessionId.value, caller.value.id).value;
    var ss := once.store.sessions;
    assert forall j :: 0 <= j < i ==> ss[j] == store.sessions[j];
    assert Owned(ss[i], body.sessionId.value, caller.value.id);
    assert OwnedIndex(ss, body.sessionId.value, caller.value.id) == Some(i);
    var after := once.payload.value;
    assert ss[i] == after;
    assert UpdatedField(body.parentNotes, after.parentNotes, env) == after.parentNotes;
    assert UpdatedField(body.homework, after.homework, env) == after.homework;
    assert ss[i := after] == ss;
  }

  /** Deleting, as the same teacher, the session a create has just made
      gives back the store as it was before the create. */
  lemma DeleteUndoesPost(caller: Option<Caller>, body: SessionRequest, store: Store, env: Env)
    requires Post(caller, body, store, env).status == CREATED
    requires forall s :: s in store.sessions ==> s.id != env.newId
    requires env.newId != "" && env.validId(env.newId)
    ensures var created := Post(caller, body, store, env);
            Delete(caller, SessionRequest(Some(env.newId), None, None, None, None, None), created.store, env)
              == Outcome(OK, Json("Session deleted successfully"), store)
  {
    var created := Post(caller, body, store, env);
    var ss := created.store.sessions;
    var n := |store.sessions|;
    assert forall j :: 0 <= j < n ==> ss[j] == store.sessions[j];
    assert forall j :: 0 <= j < n ==> !Owned(ss[j], env.newId, caller.value.id) by {
      forall j | 0 <= j < n
        ensures !Owned(ss[j], env.newId, caller.value.id)
      {
        assert store.sessions[j] in store.sessions;
      }
    }
    assert Owned(ss[n], env.newId, caller.value.id);
    assert OwnedIndex(ss, env.newId, caller.value.id) == Some(n);
    assert RemoveAt(ss, n) == store.sessions;
  }
}
