/** The form-based teacher dashboard: inline create forms for a student and
    a parent. Each submit always sends its request; a successful reply puts
    the new document in front of its list and clears that form, any other
    outcome leaves the page as it was. */
module CreateForms {
  import opened Base
  import opened Seqs
  import opened Text
  import opened Docs
  import Dashboard

  /** The student create form's inputs. */
  datatype StudentFields = StudentFields(name: string, grade: string, school: string, subjects: string, parentId: string)

  /** The parent create form's inputs. */
  datatype ParentFields = ParentFields(name: string, email: string, password: string)

  /** The page state: both lists and both forms. */
  datatype Page = Page(students: seq<Doc>, parents: seq<Doc>, studentForm: StudentFields, parentForm: ParentFields)

  /** What a submit did: the page afterwards and the request it sent. */
  datatype Submitted<+P> = Submitted(page: Page, sent: Request<P>)

  const EmptyStudentFields := StudentFields("", "", "", "", "")
  const EmptyParentFields := ParentFields("", "", "")

  /** The student create body: the subjects text split on "," and trimmed,
      empty pieces kept; an empty parent choice is sent as absent. */
  function CreatePayload(f: StudentFields): (p: StudentPayload)
    ensures p.name == Some(f.name) && p.grade == Some(f.grade) && p.school == Some(f.school)
    ensures |p.subjects| == |Split(f.subjects, ',')| == multiset(f.subjects)[','] + 1
    ensures forall i :: 0 <= i < |p.subjects| ==> p.subjects[i] == Trim(Split(f.subjects, ',')[i])
    ensures forall i :: 0 <= i < |p.subjects| ==> IsTrimmed(p.subjects[i]) && ',' !in p.subjects[i]
    ensures p.parentId.None? <==> f.parentId == ""
    ensures p.parentId.Some? ==> p.parentId.value == f.parentId
  {
    StudentPayload(Some(f.name), Some(f.grade), Some(f.school), TrimmedPieces(f.subjects), OrUndefined(Some(f.parentId)))
  }

  /** An empty subjects input sends one empty subject. */
  lemma EmptySubjectsSendOneEmpty(f: StudentFields)
    requires f.subjects == ""
    ensures CreatePayload(f).subjects == [""]
  {
    assert Split("", ',') == [""];
    assert Trim("") == "";
  }

  /** `handleCreate`. */
  function HandleCreate(page: Page, reply: Reply): (r: Submitted<StudentPayload>)
    ensures r.sent == Request("POST", "/api/students", CreatePayload(page.studentForm))
    ensures r.page.parents == page.parents && r.page.parentForm == page.parentForm
    ensures !Succeeded(reply) ==> r.page == page
    ensures Succeeded(reply) ==>
              r.page.students == [reply.data] + page.students && r.page.studentForm == EmptyStudentFields
  {
    var request := Request("POST", "/api/students", CreatePayload(page.studentForm));
    if Succeeded(reply) then
      Submitted(page.(students := [reply.data] + page.students, studentForm := EmptyStudentFields), request)
    else
      Submitted(page, request)
  }

  /** `handleCreateParent`. */
  function HandleCreateParent(page: Page, reply: Reply): (r: Submitted<ParentPayload>)
    ensures r.sent == Request("POST", "/api/parents",
                              ParentPayload(Some(page.parentForm.name), Some(page.parentForm.email),
                                            Some(page.parentForm.password)))
    ensures r.page.students == page.students && r.page.studentForm == page.studentForm
    ensures !Succeeded(reply) ==> r.page == page
    ensures Succeeded(reply) ==>
              r.page.parents == [reply.data] + page.parents && r.page.parentForm == EmptyParentFields
  {
    var f := page.parentForm;
    var request := Request("POST", "/api/parents", ParentPayload(Some(f.name), Some(f.email), Some(f.password)));
    if Succeeded(reply) then
      Submitted(page.(parents := [reply.data] + page.parents, parentForm := EmptyParentFields), request)
    else
      Submitted(page, request)
  }

  /** The two dashboards send the same subjects for the same text, except
      that the modal one drops the empty pieces this form keeps. */
  lemma DashboardsAgreeOnSubjects(f: StudentFields)
    ensures Dashboard.SavedSubjects(Some(f.subjects)) == Filter(CreatePayload(f).subjects, NonEmptyText)
  {
  }
}
