/** The modal-based teacher dashboard: saving and deleting students and
    parents, the id check before a student update, the subjects payload, the
    edit form built from a student card, and the routing of the confirm
    dialog. Each handler returns the new lists and the request it sent. */
module Dashboard {
  import opened Base
  import opened Seqs
  import opened Text
  import opened Docs

  /** The student modal's form data; an absent key is `None`. */
  datatype StudentForm = StudentForm(
    id: Option<string>,
    altId: Option<string>,
    name: Option<string>,
    grade: Option<string>,
    school: Option<string>,
    subjects: Option<string>,
    parentId: Option<string>)

  /** The dashboard's lists. */
  datatype Lists = Lists(students: seq<Doc>, parents: seq<Doc>)

  /** What a handler did: the lists afterwards and the request it sent. */
  datatype Step<+P> = Step(lists: Lists, sent: Option<Request<P>>)

  /** `/^[a-fA-F0-9]{24}$/`. */
  predicate IsObjectIdHex(s: string) {
    |s| == 24 && forall i :: 0 <= i < |s| ==> IsHexDigit(s[i])
  }

  predicate IsHexDigit(c: char) {
    '0' <= c <= '9' || 'a' <= c <= 'f' || 'A' <= c <= 'F'
  }

  /** An id that passes the hex check is not empty and has no blanks at its
      ends, so trimming it again changes nothing. */
  lemma ObjectIdHexIsTrimmed(s: string)
    requires IsObjectIdHex(s)
    ensures s != "" && Trim(s) == s
  {
    assert IsHexDigit(s[0]) && IsHexDigit(s[|s| - 1]);
    assert !IsSpace(s[0]) && !IsSpace(s[|s| - 1]);
  }

  function FirstTruthy(a: Option<string>, b: Option<string>): Option<string> {
    if Truthy(a) then a else if Truthy(b) then b else None
  }

  /** `openEditStudent`: the form the edit modal starts from. The id falls back
      from `_id` to `id` to "", an array of subjects is joined with ", ", and
      the parent becomes its id or "". */
  function OpenEditStudent(s: Doc): (r: StudentForm)
    ensures r.id.Some? && r.subjects.Some? && r.parentId.Some?
    ensures Truthy(s.id) ==> r.id == s.id
    ensures !Truthy(s.id) && Truthy(s.altId) ==> r.id == s.altId
    ensures !Truthy(s.id) && !Truthy(s.altId) ==> r.id == Some("")
    ensures s.subjects.SubjectArray? ==> r.subjects == Some(Join(s.subjects.items, ", "))
    ensures s.subjects.SubjectText? ==> r.subjects == Some(s.subjects.text)
    ensures s.subjects.NoSubjects? ==> r.subjects == Some("")
    ensures r.parentId == Some(if Truthy(s.parentRef) then s.parentRef.value else "")
    ensures r.grade == (if s.grade.Given? then Some(s.grade.text) else None)
    ensures r.name == s.name && r.school == s.school && r.altId == s.altId
  {
    StudentForm(
      Some(if Truthy(s.id) then s.id.value else if Truthy(s.altId) then s.altId.value else ""),
      s.altId, s.name, (if s.grade.Given? then Some(s.grade.text) else None), s.school,
      Some(match s.subjects
           case SubjectArray(items) => Join(items, ", ")
           case SubjectText(text) => text
           case NoSubjects => ""),
      Some(if Truthy(s.parentRef) then s.parentRef.value else ""))
  }

  /** The id a save uses: the edited student's `_id` or `id`, else the form's
      `_id`, trimmed; `None` when all are falsy. */
  function SaveId(editing: Option<StudentForm>, form: StudentForm): (r: Option<string>)
    ensures r.Some? ==> IsTrimmed(r.value)
    ensures r.None? <==> !(editing.Some? && (Truthy(editing.value.id) || Truthy(editing.value.altId)))
                         && !Truthy(form.id)
    ensures editing.Some? && Truthy(editing.value.id) ==> r == Some(Trim(editing.value.id.value))
    ensures editing.Some? && !Truthy(editing.value.id) && Truthy(editing.value.altId) ==>
              r == Some(Trim(editing.value.altId.value))
    ensures !(editing.Some? && (Truthy(editing.value.id) || Truthy(editing.value.altId))) && Truthy(form.id) ==>
              r == Some(Trim(form.id.value))
  {
    var raw := if editing.Some? then FirstTruthy(editing.value.id, editing.value.altId) else None;
    var raw' := if Truthy(raw) then raw else if Truthy(form.id) then form.id else None;
    match raw'
    case Some(text) => Some(Trim(text))
    case None => None
  }

  /** `formData.subjects || ""`. */
  function SubjectsText(text: Option<string>): string {
    if Truthy(text) then text.value else ""
  }

  /** The subjects a save sends: the text (or "" when falsy) split on ",",
      trimmed, with empty pieces dropped. */
  function SavedSubjects(text: Option<string>): (r: seq<string>)
    ensures forall x :: x in r ==> x != "" && IsTrimmed(x) && ',' !in x
    ensures r == Filter(TrimmedPieces(SubjectsText(text)), NonEmptyText)
  {
    var pieces := TrimmedPieces(SubjectsText(text));
    assert forall x :: x in pieces ==> IsTrimmed(x) && ',' !in x;
    Filter(pieces, NonEmptyText)
  }

  /** The body a student save sends: the form's strings as they are, the
      saved subjects, and an empty parent choice as absent. */
  function StudentPayloadOf(form: StudentForm): (p: StudentPayload)
    ensures p.name == form.name && p.grade == form.grade && p.school == form.school
    ensures p.subjects == SavedSubjects(form.subjects)
    ensures p.parentId.None? <==> !Truthy(form.parentId)
    ensures p.parentId.Some? ==> p.parentId == form.parentId
  {
    StudentPayload(form.name, form.grade, form.school, SavedSubjects(form.subjects), OrUndefined(form.parentId))
  }

  /** `handleSaveStudent`: an update is sent only for a trimmed 24-hex-digit
      id, a create always; a successful reply replaces (update) or prepends
      (create) the student, and nothing else changes the lists. */
  function SaveStudent(lists: Lists, editing: Option<StudentForm>, form: StudentForm, reply: Reply)
    : (r: Step<StudentPayload>)
    ensures r.lists.parents == lists.parents
    ensures editing.Some? ==>
              (r.sent.Some? <==> SaveId(editing, form).Some? && IsObjectIdHex(SaveId(editing, form).value))
    ensures editing.None? ==> r.sent == Some(Request("POST", "/api/students", StudentPayloadOf(form)))
    ensures r.sent.Some? && editing.Some? ==>
              SaveId(editing, form).Some?
              && r.sent.value == Request("PATCH", "/api/students/" + SaveId(editing, form).value,
                                         StudentPayloadOf(form))
    ensures r.sent.None? ==> r.lists == lists
    ensures r.sent.Some? ==> r.lists.students == AfterSave(lists.students, editing.Some?, reply)
  {
    var payload := StudentPayloadOf(form);
    if editing.Some? then
      var id := SaveId(editing, form);
      if id.None? || id.value == "" || !IsObjectIdHex(id.value) then
        Step(lists, None)
      else
        Step(lists.(students := AfterSave(lists.students, true, reply)),
             Some(Request("PATCH", "/api/students/" + id.value, payload)))
    else
      Step(lists.(students := AfterSave(lists.students, false, reply)),
           Some(Request("POST", "/api/students", payload)))
  }

  /** `handleSaveParent`: always sends the form; a successful reply replaces
      (edit) or prepends (create) the parent. */
  function SaveParent(lists: Lists, editing: Option<Doc>, form: ParentPayload, reply: Reply)
    : (r: Step<ParentPayload>)
    ensures r.lists.students == lists.students
    ensures r.lists.parents == AfterSave(lists.parents, editing.Some?, reply)
    ensures r.sent.Some? && r.sent.value.payload == form
    ensures r.sent.value.verb == (if editing.Some? then "PATCH" else "POST")
    ensures editing.Some? ==> r.sent.value.url == "/api/parents/" + IdText(editing.value.id)
    ensures editing.None? ==> r.sent.value.url == "/api/parents"
  {
    var request := if editing.Some? then Request("PATCH", "/api/parents/" + IdText(editing.value.id), form)
                   else Request("POST", "/api/parents", form);
    Step(lists.(parents := AfterSave(lists.parents, editing.Some?, reply)), Some(request))
  }

  /** `handleDeleteStudent`: on success every student with the target's id
      leaves the list; otherwise the lists are kept. */
  function DeleteStudent(lists: Lists, target: Doc, reply: Reply): (r: Step<()>)
    ensures r.sent == Some(Request("DELETE", "/api/students/" + IdText(target.id), ()))
    ensures r.lists.parents == lists.parents
    ensures !Succeeded(reply) ==> r.lists == lists
    ensures Succeeded(reply) ==> r.lists.students == RemoveById(lists.students, target.id)
  {
    var students := if Succeeded(reply) then RemoveById(lists.students, target.id) else lists.students;
    Step(lists.(students := students), Some(Request("DELETE", "/api/students/" + IdText(target.id), ())))
  }

  /** `handleDeleteParent`: on success every parent with the target's id
      leaves the list; otherwise the lists are kept. */
  function DeleteParent(lists: Lists, target: Doc, reply: Reply): (r: Step<()>)
    ensures r.sent == Some(Request("DELETE", "/api/parents/" + IdText(target.id), ()))
    ensures r.lists.students == lists.students
    ensures !Succeeded(reply) ==> r.lists == lists
    ensures Succeeded(reply) ==> r.lists.parents == RemoveById(lists.parents, target.id)
  {
    var parents := if Succeeded(reply) then RemoveById(lists.parents, target.id) else lists.parents;
    Step(lists.(parents := parents), Some(Request("DELETE", "/api/parents/" + IdText(target.id), ())))
  }

  /** Creating a student whose id is new to the list and then deleting that
      student leaves the lists as they were. */
  lemma CreateThenDeleteStudent(lists: Lists, form: StudentForm, created: Reply, deleted: Reply)
    requires Succeeded(created) && Succeeded(deleted)
    requires forall i :: 0 <= i < |lists.students| ==> lists.students[i].id != created.data.id
    ensures DeleteStudent(SaveStudent(lists, None, form, created).lists, created.data, deleted).lists == lists
  {
    RemoveAfterPrepend(lists.students, created.data);
  }

  /** Creating a parent whose id is new to the list and then deleting that
      parent leaves the lists as they were. */
  lemma CreateThenDeleteParent(lists: Lists, form: ParentPayload, created: Reply, deleted: Reply)
    requires Succeeded(created) && Succeeded(deleted)
    requires forall i :: 0 <= i < |lists.parents| ==> lists.parents[i].id != created.data.id
    ensures DeleteParent(SaveParent(lists, None, form, created).lists, created.data, deleted).lists == lists
  {
    RemoveAfterPrepend(lists.parents, created.data);
  }

  /** Saving the same successful edit twice leaves the lists as one save. */
  lemma SaveParentTwice(lists: Lists, target: Doc, form: ParentPayload, reply: Reply)
    requires Succeeded(reply)
    ensures var once := SaveParent(lists, Some(target), form, reply).lists;
            SaveParent(once, Some(target), form, reply).lists == once
  {
    ReplaceByIdIdempotent(lists.parents, reply.data);
  }

  datatype DeleteKind = StudentDelete | ParentDelete

  /** The confirm dialog's action: a target whose `grade` is not `undefined`
      (a string or `null`) is deleted as a student, anything else (including
      no target) as a parent. */
  function ConfirmAction(target: Option<Doc>): (r: DeleteKind)
    ensures r == StudentDelete <==> target.Some? && !target.value.grade.Absent?
  {
    if target.Some? && target.value.grade != Absent then StudentDelete else ParentDelete
  }

  /** A student document without a `grade` member is routed to the parent
      delete, which sends `DELETE /api/parents/<student id>`. */
  lemma GradelessStudentGoesToParentDelete(s: Doc, lists: Lists, reply: Reply)
    requires s.grade.Absent?
    ensures ConfirmAction(Some(s)) == ParentDelete
    ensures DeleteParent(lists, s, reply).sent.value.url == "/api/parents/" + IdText(s.id)
  {
  }

  /** A student document whose `grade` is `null` still goes to the student
      delete, which sends `DELETE /api/students/<student id>`. */
  lemma NullGradeGoesToStudentDelete(s: Doc, lists: Lists, reply: Reply)
    requires s.grade.Null?
    ensures ConfirmAction(Some(s)) == StudentDelete
    ensures DeleteStudent(lists, s, reply).sent.value.url == "/api/students/" + IdText(s.id)
  {
  }

  /** Trimming undoes the blank `SpaceAfterFirst` puts in front of a trimmed
      element. */
  lemma TrimPadded(items: seq<string>, i: nat)
    requires i < |items|
    requires IsTrimmed(items[i])
    ensures Trim(SpaceAfterFirst(items)[i]) == items[i]
  {
    if i > 0 {
      TrimDropsLeadingSpace(items[i]);
    }
  }

  /** Trimming undoes the blanks that `SpaceAfterFirst` adds to trimmed
      strings. */
  lemma TrimAllUndoesSpaces(items: seq<string>)
    requires |items| >= 1
    requires forall i :: 0 <= i < |items| ==> IsTrimmed(items[i])
    ensures TrimAll(SpaceAfterFirst(items)) == items
  {
    var trimmed := TrimAll(SpaceAfterFirst(items));
    forall i | 0 <= i < |items|
      ensures trimmed[i] == items[i]
    {
      TrimPadded(items, i);
    }
  }

  /** Splitting and trimming `items.join(", ")` gives `items` back when no
      element holds a comma or has blanks at its ends. */
  lemma TrimmedPiecesOfJoin(items: seq<string>)
    requires |items| >= 1
    requires forall i :: 0 <= i < |items| ==> ',' !in items[i] && IsTrimmed(items[i])
    ensures TrimmedPieces(Join(items, ", ")) == items
  {
    SplitJoinCommaSpace(items);
    TrimAllUndoesSpaces(items);
  }

  /** Subjects that are non-empty, comma-free and trimmed survive the edit
      round trip: joining them with ", " in `openEditStudent` and splitting,
      trimming and filtering them on save gives the same list. */
  lemma EditRoundTrip(items: seq<string>)
    requires forall i :: 0 <= i < |items| ==> items[i] != "" && ',' !in items[i] && IsTrimmed(items[i])
    ensures SavedSubjects(Some(Join(items, ", "))) == items
  {
    if |items| == 0 {
      EmptySubjectsSaveNothing();
    } else {
      var joined := Join(items, ", ");
      JoinedText(items);
      TrimmedPiecesOfJoin(items);
      SavedSubjectsOfText(joined, items);
      FilterKeepsAll(items, NonEmptyText);
    }
  }

  /** A list whose first subject is non-empty joins to a truthy text. */
  lemma JoinedText(items: seq<string>)
    requires |items| >= 1 && items[0] != ""
    ensures SubjectsText(Some(Join(items, ", "))) == Join(items, ", ")
  {
    if |items| > 1 {
      assert Join(items, ", ") == items[0] + ", " + Join(items[1..], ", ");
    }
  }

  /** A truthy text saves the non-empty ones among its trimmed pieces. */
  lemma SavedSubjectsOfText(text: string, pieces: seq<string>)
    requires SubjectsText(Some(text)) == text && TrimmedPieces(text) == pieces
    ensures SavedSubjects(Some(text)) == Filter(pieces, NonEmptyText)
  {
  }

  /** An empty subjects field sends no subjects. */
  lemma EmptySubjectsSaveNothing()
    ensures SavedSubjects(Some("")) == []
  {
    assert Split("", ',') == [""];
    assert Trim("") == "";
    assert TrimAll([""]) == [""];
    assert Filter([""], NonEmptyText) == [];
  }

  /** The edit form built from a student with such subjects saves them
      unchanged. */
  lemma EditFormKeepsSubjects(s: Doc)
    requires s.subjects.SubjectArray?
    requires forall i :: 0 <= i < |s.subjects.items| ==>
               s.subjects.items[i] != "" && ',' !in s.subjects.items[i] && IsTrimmed(s.subjects.items[i])
    ensures StudentPayloadOf(OpenEditStudent(s)).subjects == s.subjects.items
  {
    EditRoundTrip(s.subjects.items);
  }
}
