/** The three collections of the document store and the invariants their
    schemas impose. `User` is only used through the fields the handlers
    touch; its schema file is not part of this model. */
module Models {
  import opened Base
  import opened Seqs

  /** A user account; `role` is "teacher", "parent" or "admin". */
  datatype User = User(id: Id, name: string, email: string, passwordHash: string, role: string)

  /** A student: optional descriptive strings, a list of subjects and two
      required references, to its parent and to its teacher. */
  datatype Student = Student(
    id: Id,
    name: Option<string>,
    grade: Option<string>,
    school: Option<string>,
    subjects: seq<string>,
    parent: Id,
    teacher: Id)

  /** A tutoring session: required references to a student and a teacher,
      three optional note strings and a date. */
  datatype Session = Session(
    id: Id,
    student: Id,
    teacher: Id,
    parentNotes: Option<string>,
    sessionNotes: Option<string>,
    homework: Option<string>,
    date: Date)

  /** The document store. Each collection is modelled in insertion order; an
      unsorted `find` has no order the database guarantees, so this order is
      a choice of the model. */
  datatype Store = Store(users: seq<User>, students: seq<Student>, sessions: seq<Session>)

  function SessionId(s: Session): Id { s.id }
  function SessionDate(s: Session): Date { s.date }
  function UserEmail(u: User): string { u.email }

  /** The Student schema's required references hold ObjectIds. */
  predicate StudentValid(s: Student, validId: string -> bool) {
    validId(s.parent) && validId(s.teacher)
  }

  /** The Session schema's required references hold ObjectIds. */
  predicate SessionValid(s: Session, validId: string -> bool) {
    validId(s.student) && validId(s.teacher)
  }

  /** The invariant assumed of a store between requests: every document
      satisfies its schema, session ids are unique, and no two users share an
      email. The create route checks the email by a lookup and does not rely
      on a unique index, and a student update may store a null parent; the
      lemmas that use it say which handlers keep it when requests run one at
      a time. */
  ghost predicate Consistent(store: Store, validId: string -> bool) {
    && (forall i :: 0 <= i < |store.students| ==> StudentValid(store.students[i], validId))
    && (forall i :: 0 <= i < |store.sessions| ==> SessionValid(store.sessions[i], validId))
    && UniqueKeys(store.sessions, SessionId)
    && UniqueKeys(store.users, UserEmail)
  }

  /** In a consistent store every stored student and session has ObjectId
      references, a session id names one session and an email names one
      user. */
  lemma ConsistentDocuments(store: Store, validId: string -> bool)
    requires Consistent(store, validId)
    ensures forall s :: s in store.students ==> StudentValid(s, validId)
    ensures forall s :: s in store.sessions ==> SessionValid(s, validId)
    ensures forall a, b :: a in store.sessions && b in store.sessions && a.id == b.id ==> a == b
    ensures forall u, w :: u in store.users && w in store.users && u.email == w.email ==> u == w
  {
    forall a, b | a in store.sessions && b in store.sessions && a.id == b.id
      ensures a == b
    {
      var i :| 0 <= i < |store.sessions| && store.sessions[i] == a;
      var j :| 0 <= j < |store.sessions| && store.sessions[j] == b;
      assert SessionId(store.sessions[i]) == SessionId(store.sessions[j]);
    }
    forall u, w | u in store.users && w in store.users && u.email == w.email
      ensures u == w
    {
      var i :| 0 <= i < |store.users| && store.users[i] == u;
      var j :| 0 <= j < |store.users| && store.users[j] == w;
      assert UserEmail(store.users[i]) == UserEmail(store.users[j]);
    }
  }

  /** `Session.create`: the document is stored only if both required
      references cast to ObjectIds (a failed cast is a validation error), and
      an absent date takes the creation time. */
  function NewSession(
    id: Id, student: string, teacher: string,
    sessionNotes: Option<string>, parentNotes: Option<string>, homework: Option<string>,
    date: Option<Date>, now: Date, validId: string -> bool): (r: Option<Session>)
    ensures r.Some? <==> validId(student) && validId(teacher)
    ensures r.Some? ==> SessionValid(r.value, validId)
    ensures r.Some? ==> r.value.date == (if date.Some? then date.value else now)
    ensures r.Some? ==> r.value.id == id && r.value.student == student && r.value.teacher == teacher
    ensures r.Some? ==> r.value.sessionNotes == sessionNotes && r.value.parentNotes == parentNotes
                        && r.value.homework == homework
  {
    if validId(student) && validId(teacher) then
      Some(Session(id, student, teacher, parentNotes, sessionNotes, homework,
                   match date case Some(d) => d case None => now))
    else None
  }
}
