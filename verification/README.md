# Tutoring dashboard — a Dafny model of its API routes and teacher dashboards

The tutoring dashboard is a Next.js application. Teachers record tutoring
sessions for their students and manage student and parent accounts. Parents
read the sessions of their children. This project models:

- the three API route handlers that own the data rules: `/api/sessions`
  (list, create, update, delete), `/api/students` (list by role) and
  `/api/parents` (list, create);
- the `Session` and `Student` schemas they rely on;
- the two teacher dashboards' client logic. These are the modal dashboard
  (`TeacherDashboardClient`) and the inline-form dashboard
  (`app/teacher/client.js`). The model
  covers the request each handler sends, the payload it builds from the form
  text, and how it updates its lists from the reply;
- the home page's role redirect.

Each route handler is a pure function. It takes the signed-in caller
(`Option<Caller>`, `None` when there is no login session), the request
fields (`Option<string>`, `None` when a key is absent) and the store (the
`users`, `students` and `sessions` collections as sequences). It returns an
`Outcome`: an HTTP status, a JSON body or an error message, and the store
afterwards. What the handlers cannot see is passed in as an `Env`:

- `ObjectId.isValid`, which is also the cast check the document store
  applies to ids;
- date parsing;
- the current time;
- the id the store assigns to a new document;
- the bcrypt hash;
- whether the ODM clears or drops update keys whose value is `undefined`.

Modules: `Base` (shared types and status codes), `Seqs` (filter, first
match, removal, descending sort), `Text` (JavaScript `trim`, `split`,
`join`), `Models`, `SessionsApi`, `StudentsApi`, `ParentsApi`, `Docs` (the
client's documents, replies and request bodies), `Dashboard`, `CreateForms`
and `Home`.

The Student schema makes `parent` a required ObjectId reference
(models/Student.js:8-12). The student update route can still store a null
parent (app/api/students/[id]/route.js:57-59), because that update does not
run the schema's validators. The model follows the schema:
`Student.parent` is an `Id`, and `StudentValid` requires it to be a valid
one. `Consistent` is therefore an invariant the model assumes between
requests, not one the database enforces.

## Model

| member | source | states |
|---|---|---|
| `Models.NewSession` | models/Session.js:3-20 | A session is stored only when both required references are ObjectIds. The date defaults to the current time, and the notes are kept as given. |
| `Models.ConsistentDocuments` | models/Session.js:4-13 | In a store that keeps the schema invariant, every stored student and session has ObjectId references, a session id names one session, and an email names one user. |
| `SessionsApi.Get` | app/api/sessions/route.js:14-61 | The store is unchanged. 401 exactly when the caller is neither a teacher nor a parent. 400 exactly when the `studentId` is missing, empty or not an ObjectId. Then 500 exactly when a teacher's own id does not cast, since only the teacher query filters on it. Otherwise 200 with exactly the student's sessions, each as many times as stored: all of them for a parent, only the caller's own for a teacher. They come newest first. |
| `SessionsApi.GetLinked` | app/api/sessions/route.js:37-43 | The corrected parent branch. It answers with the route's status, and with the route's error for every non-200. A parent asking, with a valid id, about a student that is not theirs gets 200 with an empty list. On 200 every returned session belongs to the student, and a parent gets sessions only for a student whose parent they are. |
| `SessionsApi.GetLinkedAgrees` | app/api/sessions/route.js:14-61 | For teachers, and for parents asking about their own child, the corrected route answers exactly as the route as written. |
| `SessionsApi.UnlinkedParentReadsSessions` | app/api/sessions/route.js:37-43 | Counterexample: parent "p1" reads the session of a student whose parent is "p2". The corrected route returns nothing. |
| `SessionsApi.Post` | app/api/sessions/route.js:67-106 | 401 "Unauthorized" exactly for a non-teacher, then 400 "studentId and sessionNotes are required" exactly when either is falsy. 201 exactly when both references are ObjectIds and the date, if given, parses. Otherwise the failed cast in `Session.create` gives 500 "Internal server error". On 201 the new session is appended with the fresh id, the caller as teacher, and the given or current date. Every other outcome leaves the store unchanged. |
| `SessionsApi.RequestedDate` | app/api/sessions/route.js:140 | `date ? new Date(date) : new Date()`: a falsy date means the current time, and only a given date that does not parse makes the value fail to cast. |
| `SessionsApi.UpdatedField` | app/api/sessions/route.js:136-141 | An update stores a given field as given. An absent key clears the field or keeps the stored value, depending on the ODM's treatment of `undefined`. |
| `SessionsApi.Patch` | app/api/sessions/route.js:112-160 | 401 for a non-teacher, then 400 when `sessionId` or `sessionNotes` is falsy. Then 500 exactly when the session id or the caller id does not cast or the given date does not parse. 404, with "Session not found or unauthorized", exactly when those pass and no session has that id and the caller as teacher. 200 exactly when they pass and such a session exists. On 200 only the first owned session changes: new notes, homework and date under both treatments of `undefined` keys, same id, student and teacher. The reply is the updated session. Every other outcome leaves the store unchanged. |
| `SessionsApi.Delete` | app/api/sessions/route.js:165-209 | 401 for a non-teacher, then 400 when `sessionId` is falsy or not an ObjectId. Then 500 exactly when the caller id does not cast. 404, with "Session not found or unauthorized", exactly when the caller owns no session with that id. 200 exactly when they own one. On 200 the reply is "Session deleted successfully", exactly the first owned session is removed, and the others keep their order. |
| `SessionsApi.DeleteRemovesExactlyOne` | app/api/sessions/route.js:186-189 | With unique session ids, a successful delete leaves no session with that id and keeps every other session. |
| `SessionsApi.PostKeepsConsistent` | app/api/sessions/route.js:89-96 | A create with a fresh id keeps every reference valid and session ids unique. |
| `SessionsApi.PatchKeepsConsistent` | app/api/sessions/route.js:134-143 | An update keeps the store consistent. |
| `SessionsApi.DeleteKeepsConsistent` | app/api/sessions/route.js:186-189 | A delete keeps the store consistent. |
| `SessionsApi.PatchIdempotent` | app/api/sessions/route.js:134-143 | Under the same environment (the same current time), repeating a successful update returns the same reply and leaves the store as after the first one. A later repeat without a date would store a new current time. |
| `SessionsApi.DeleteUndoesPost` | app/api/sessions/route.js:186-189 | Deleting, as the same teacher, the session a create just made restores the store, when the new id is fresh and valid. |
| `StudentsApi.Get` | app/api/students/route.js:12-71 | The store is unchanged. The errors come in the route's order: "Missing role or userId", then "Invalid userId", then "Invalid role". 200 exactly for role "parent" or "teacher" with a valid id. It then lists exactly the students whose parent or teacher is that id, each as many times as stored. |
| `StudentsApi.ListedStudentsAreValid` | app/api/students/route.js:55-61 | In a consistent store every listed student has valid parent and teacher references. |
| `ParentsApi.ParentViews` | app/api/parents/route.js:20-22 | The projection lists `_id name email` of exactly the users whose role is "parent". |
| `ParentsApi.Get` | app/api/parents/route.js:9-29 | 401 "Unauthorized" exactly for a non-teacher. Otherwise 200 with the projection of the parent users, each once and in the store's order. The store is unchanged. |
| `ParentsApi.Post` | app/api/parents/route.js:31-84 | "Unauthorized - No session" and "Unauthorized - Not a teacher" come first, then "Missing fields", then 400 "Email already exists" when a user has that email. 201 exactly when all fields are truthy and the email is unused. On 201 a parent account with the hashed password is appended, and the reply leaves the hash out. |
| `ParentsApi.PostKeepsConsistent` | app/api/parents/route.js:53-65 | Creating a parent keeps user emails unique. |
| `ParentsApi.TwoCreatesDistinctEmails` | app/api/parents/route.js:53-56 | Two successful creates in a row were given different emails. |
| `ParentsApi.ParentViewsAppend` | app/api/parents/route.js:20-22 | Projecting a list with one more user adds that user's view at the end when it is a parent. |
| `ParentsApi.CreatedParentIsListed` | app/api/parents/route.js:58-76 | After a successful create, the teacher's parent list is the old list plus the new account's `_id name email`, listed last because the model keeps insertion order. |
| `Seqs.Filter` | app/teacher/components/TeacherDashboardClient.js:99 | The kept elements are exactly those that pass, each with its multiplicity. |
| `Seqs.FilterAppend` | app/teacher/components/TeacherDashboardClient.js:113 | Filtering distributes over concatenation, so the kept elements stay in order. |
| `Seqs.FirstIndex` | app/api/sessions/route.js:134-135 | The first element matching the filter, or none exactly when nothing matches. |
| `Seqs.RemoveAt` | app/api/sessions/route.js:186-189 | Removing one element keeps every other element and their order. |
| `Seqs.RemoveUniqueKey` | app/api/sessions/route.js:186-189 | With unique keys, removing the element at an index removes exactly that key. |
| `Seqs.SortDesc` | app/api/sessions/route.js:41 | `sort({ date: -1 })` is a permutation in non-increasing key order. |
| `Text.Trim` | app/teacher/client.js:36 | `trim` leaves no space at either end, keeps a trimmed string as it is, and adds no character. |
| `Text.TrimIsMiddle` | app/teacher/client.js:36 | `trim` gives a middle slice of the text, and everything it cuts from either end is a space character. |
| `Text.TrimDropsLeadingSpace` | app/teacher/components/TeacherDashboardClient.js:99 | `trim` removes the blank in front of a trimmed piece. |
| `Text.Split` | app/teacher/client.js:36 | `split(",")` gives at least one piece, no piece holds the separator, and joining the pieces gives the text back. |
| `Text.SplitCount` | app/teacher/client.js:36 | `split` gives one piece more than the text has separators. |
| `Text.SplitJoin` | app/teacher/client.js:36 | `split` undoes `join` when no element holds the separator. |
| `Text.SplitJoinCommaSpace` | app/teacher/components/TeacherDashboardClient.js:70 | Splitting `join(", ")` on "," gives the elements back, each after the first with one leading blank. |
| `Text.JoinCount` | app/teacher/components/TeacherDashboardClient.js:70 | Joining separator-free pieces with a one-character separator puts exactly one separator between neighbours. |
| `Docs.OrUndefined` | app/teacher/client.js:37 | `value \|\| undefined` sends a value exactly when it is non-empty. |
| `Docs.ReplaceById` | app/teacher/components/TeacherDashboardClient.js:48 | Every element with the saved id becomes the saved document. All others stay where they are. |
| `Docs.RemoveById` | app/teacher/components/TeacherDashboardClient.js:59 | No element with the id survives, and every other one does, with its multiplicity. |
| `Docs.RemoveAfterReplace` | app/teacher/components/TeacherDashboardClient.js:48-59 | Deleting an id after an edit of that id gives the same list as deleting it without the edit. |
| `Docs.ReplaceByIdIdempotent` | app/teacher/components/TeacherDashboardClient.js:48 | Replacing by the same document twice gives the list one replace gives. |
| `Docs.RemoveAfterPrepend` | app/teacher/components/TeacherDashboardClient.js:113 | Filtering out the id of a document just put in front, in a list where that id is new, gives the list back. |
| `Docs.AfterSave` | app/teacher/components/TeacherDashboardClient.js:103 | A failed save keeps the list. A successful create puts the new document in front. A successful edit replaces by id. |
| `Docs.TrimmedPieces` | app/teacher/client.js:36 | The subjects array has one element more than the text has commas. Element i is the i-th piece of `split(",")`, trimmed, so each is trimmed and free of commas. |
| `Dashboard.OpenEditStudent` | app/teacher/components/TeacherDashboardClient.js:66-75 | The edit form's id falls back from `_id` to `id` to "". An array of subjects is joined with ", ", a string is kept, and absent subjects become "". The parent becomes its id or "". A string grade is copied and a missing or `null` grade becomes absent. The other fields are copied. |
| `Dashboard.SaveId` | app/teacher/components/TeacherDashboardClient.js:82-83 | The edited student's `_id` wins, then its `id`, then the form's `_id`; the one chosen is trimmed. The id is absent exactly when all three are falsy. |
| `Dashboard.ObjectIdHexIsTrimmed` | app/teacher/components/TeacherDashboardClient.js:91 | An id that passes the `/^[a-fA-F0-9]{24}$/` check is non-empty and has no blank at either end, so trimming it changes nothing. |
| `Dashboard.SavedSubjects` | app/teacher/components/TeacherDashboardClient.js:99 | The subjects sent are exactly the non-empty ones among the trimmed `split(",")` pieces of the text ("" when the text is falsy), in order. So each is non-empty, trimmed and comma-free. |
| `Dashboard.StudentPayloadOf` | app/teacher/components/TeacherDashboardClient.js:99 | The save body carries the form's name, grade and school as they are, the saved subjects, and no parent exactly when the parent choice is falsy. |
| `Dashboard.SaveStudent` | app/teacher/components/TeacherDashboardClient.js:77-106 | An update is sent only for a 24-hex-digit id, to `/api/students/<id>`. A create is always sent. After the reply the students list is as `AfterSave` says, and parents are untouched. |
| `Dashboard.SaveParent` | app/teacher/components/TeacherDashboardClient.js:40-51 | PATCH `/api/parents/<_id>` when editing, else POST `/api/parents`, with the form as body. Only the parents list changes, as `AfterSave` says. |
| `Dashboard.DeleteStudent` | app/teacher/components/TeacherDashboardClient.js:108-115 | DELETE `/api/students/<_id>`. A success removes that id from the students only. |
| `Dashboard.DeleteParent` | app/teacher/components/TeacherDashboardClient.js:54-62 | DELETE `/api/parents/<_id>`. A success removes that id from the parents only. |
| `Dashboard.CreateThenDeleteStudent` | app/teacher/components/TeacherDashboardClient.js:103-113 | A successful create of a student with a new id followed by a successful delete of it leaves both lists as they were. |
| `Dashboard.CreateThenDeleteParent` | app/teacher/components/TeacherDashboardClient.js:48-59 | A successful create of a parent with a new id followed by a successful delete of it leaves both lists as they were. |
| `Dashboard.SaveParentTwice` | app/teacher/components/TeacherDashboardClient.js:48 | Applying the same successful parent edit twice leaves the lists as one edit does. |
| `Dashboard.ConfirmAction` | app/teacher/components/TeacherDashboardClient.js:142 | The confirm dialog deletes a student exactly when the target's `grade` is not `undefined`: a string or `null`. |
| `Dashboard.GradelessStudentGoesToParentDelete` | app/teacher/components/TeacherDashboardClient.js:142 | A student document without a `grade` member is sent to the parents delete route. |
| `Dashboard.NullGradeGoesToStudentDelete` | app/teacher/components/TeacherDashboardClient.js:142 | A student document whose `grade` is `null` is still sent to the students delete route. |
| `Dashboard.TrimmedPiecesOfJoin` | app/teacher/components/TeacherDashboardClient.js:70 | Splitting and trimming `join(", ")` gives the subjects back. |
| `Dashboard.EditRoundTrip` | app/teacher/components/TeacherDashboardClient.js:70 | Saving the joined subjects text unchanged sends the same non-empty subjects back. |
| `Dashboard.EmptySubjectsSaveNothing` | app/teacher/components/TeacherDashboardClient.js:99 | An empty subjects field saves no subjects. |
| `Dashboard.EditFormKeepsSubjects` | app/teacher/components/TeacherDashboardClient.js:66-99 | Opening a student for edit and saving without changes sends its subjects back. |
| `CreateForms.CreatePayload` | app/teacher/client.js:32-38 | The create body has the form's strings. Subjects: one element more than the text has commas, element i being the i-th `split(",")` piece trimmed, with empty pieces kept. No parent exactly when the choice is empty, else the chosen id. |
| `CreateForms.EmptySubjectsSendOneEmpty` | app/teacher/client.js:36 | An empty subjects field sends one empty subject. |
| `CreateForms.HandleCreate` | app/teacher/client.js:23-64 | A POST to `/api/students` is always sent. On success the student goes in front and the student form is cleared. On failure the page is kept. The parent side is never touched. |
| `CreateForms.HandleCreateParent` | app/teacher/client.js:66-102 | A POST to `/api/parents` is always sent with the three fields. On success the parent goes in front and the parent form is cleared. On failure the page is kept. |
| `CreateForms.DashboardsAgreeOnSubjects` | app/teacher/client.js:36 | For the same text, the modal dashboard sends this form's subjects minus the empty ones. |
| `Home.Route` | app/page.js:5-20 | No login goes to "/login". A parent, teacher or admin goes to "/" plus the role. Any other role goes to "/login". |
| `Home.RouteTargets` | app/page.js:5-20 | The target is one of four pages, and a role's own page is chosen exactly for that role. |

## Left out

- Database connection, `populate` and `lean`: the store is a value. A populated reference is represented by its id.
- Timestamps (`createdAt`, `updatedAt`) and the document version key are not modelled.
- Request bodies are assumed to be JSON objects. A body that does not parse, and JSON values other than strings or absent keys, are not modelled. This covers `null`, numbers and arrays.
- Failures of the data store other than a rejected cast are not modelled. A rejected cast is an invalid ObjectId or an unparsable date, and it becomes a 500 that leaves the store unchanged.
- ObjectIds are compared as literal strings. The case-insensitive hex normalisation of real ObjectIds is not modelled.
- bcrypt is the `Env.hash` parameter. Salt rounds and randomness are not modelled.
- The ODM version is not fixed by the code, so the treatment of `undefined` update keys is the `Env.undefinedClears` parameter. `SessionsApi.Patch` is specified for both values.
- `SessionsApi.Get`: the store does not fix the order of sessions with equal dates. The contract states the permutation and the order by date, not a tie order.
- `app/api/parents/[id]/route.js`, `app/api/students/[id]/route.js` and student creation on the server are not part of this model. Their cascades are not either. The dashboards' requests to them are modelled only as the requests they send.
- `models/User.js` is not part of this model. Its fields are the `User` datatype.
- Rendering, modal open and close state, loading flags, `alert` messages and console logging are not modelled.
- The parent modal's form data is modelled as the three fields the form holds. Extra keys of an edited parent document sent along in the body are left out.
- Requests are modelled one at a time. Concurrent requests are not modelled, so the lemmas that keep `Consistent` say nothing about interleavings. Two parent creates with the same email can both pass the lookup in app/api/parents/route.js:53-65. The route does not rely on a unique index, and whether models/User.js declares one is not visible. With such an index, the second of two racing creates would fail with a duplicate-key error and get a 500.
- ParentsApi.Get: `User.find({ role: "parent" })` in app/api/parents/route.js:20-22 has no sort, so the database guarantees no order. The model lists the parents in insertion order. That is a modelling choice, and the order stated for the 200 reply holds only under it.
- ParentsApi.CreatedParentIsListed: "the new account is listed last" rests on the same insertion-order choice. The database promises only that the account is in the list.
- Dashboard.OpenEditStudent: a `null` grade is put in the edit form as absent. The source copies `null` and would send `grade: null` on save, but request bodies with `null` are not modelled (see above). The dashboard keeps `null` apart from a missing grade, because the confirm dialog tells them apart.
- `Models.Consistent` is assumed between requests. The null parent that app/api/students/[id]/route.js:57-59 can store would break it; that route is not part of this model.
- HTML `required` attributes on the inputs are not modelled. The handlers are specified for any input.
- The per-student and per-parent pages are outside the modelled core. The teacher's student page posts and updates sessions and changes its own list from the reply, and the teacher's parent page creates students. Those list updates are not modelled; app/teacher/student/[id]/page.js is not part of this model. The parent pages only read.

## Findings

| source | as written | input that shows it | evidently intended | confidence | as-written member | corrected member |
|---|---|---|---|---|---|---|
| app/api/sessions/route.js:37-43 | A parent gets every session of any student id they name. Nothing checks that the student is their child. | Parent "p1" asks for student "st1", whose parent is "p2". The reply is the session of "st1". | A parent reads only the sessions of their own children. | not executed | `SessionsApi.UnlinkedParentReadsSessions` (on `SessionsApi.Get`) | `SessionsApi.GetLinked` |
