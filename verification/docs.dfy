/** What the teacher dashboards hold in their view state: the JSON documents
    the API returns, the replies of `fetch`, the request bodies they build,
    and the list updates they apply after a reply. */
module Docs {
  import opened Base
  import opened Seqs
  import opened Text

  /** The `subjects` member of a document: an array, a plain string, or absent. */
  datatype SubjectsValue = SubjectArray(items: seq<string>) | SubjectText(text: string) | NoSubjects

  /** A member of a JSON document that may be missing, `null`, or a string;
      `!== undefined` tells the first apart from the other two. */
  datatype Member = Absent | Null | Given(text: string)

  /** A student or parent document as the client sees it; an absent member is
      `None`. `altId` is the document's `id` member, `parentRef` is
      `parent?._id`. `grade` keeps `null` apart from a missing member, since a
      student update can store `null` and the confirm dialog tests
      `grade !== undefined`. */
  datatype Doc = Doc(
    id: Option<string>,
    altId: Option<string>,
    name: Option<string>,
    email: Option<string>,
    grade: Member,
    school: Option<string>,
    subjects: SubjectsValue,
    parentRef: Option<string>)

  /** The outcome of `fetch` followed by `res.json()`: an answer with its `ok`
      flag and parsed body, or an exception. */
  datatype Reply = Answer(ok: bool, data: Doc) | Thrown

  predicate Succeeded(reply: Reply) {
    reply.Answer? && reply.ok
  }

  /** A request the client sends. */
  datatype Request<+P> = Request(verb: string, url: string, payload: P)

  /** The JSON body of a student create or update. */
  datatype StudentPayload = StudentPayload(
    name: Option<string>,
    grade: Option<string>,
    school: Option<string>,
    subjects: seq<string>,
    parentId: Option<string>)

  /** The JSON body of a parent create or update. */
  datatype ParentPayload = ParentPayload(name: Option<string>, email: Option<string>, password: Option<string>)

  /** `value || undefined`: an empty string is sent as absent. */
  function OrUndefined(value: Option<string>): (r: Option<string>)
    ensures r.Some? <==> Truthy(value)
    ensures r.Some? ==> r == value
  {
    if Truthy(value) then value else None
  }

  /** A value interpolated into a URL template: `undefined` prints as
      "undefined". */
  function IdText(id: Option<string>): string {
    match id
    case Some(s) => s
    case None => "undefined"
  }

  /** `list.map(x => x._id === d._id ? d : x)`: every element with `d`'s id
      is replaced by `d`, all others stay where they are. */
  function ReplaceById(xs: seq<Doc>, d: Doc): (r: seq<Doc>)
    ensures |r| == |xs|
    ensures forall i :: 0 <= i < |xs| && xs[i].id == d.id ==> r[i] == d
    ensures forall i :: 0 <= i < |xs| && xs[i].id != d.id ==> r[i] == xs[i]
    ensures (forall i :: 0 <= i < |xs| ==> xs[i].id != d.id) ==> r == xs
  {
    if |xs| == 0 then []
    else [if xs[0].id == d.id then d else xs[0]] + ReplaceById(xs[1..], d)
  }

  /** `list.filter(x => x._id !== id)`. */
  function RemoveById(xs: seq<Doc>, id: Option<string>): (r: seq<Doc>)
    ensures forall x :: x in r ==> x.id != id
    ensures forall x :: x in xs && x.id != id ==> x in r
    ensures forall x: Doc :: x.id != id ==> multiset(r)[x] == multiset(xs)[x]
  {
    Filter(xs, Keeps(id))
  }

  /** The filter callback `x => x._id !== id`. */
  function Keeps(id: Option<string>): Doc -> bool {
    (x: Doc) => x.id != id
  }

  /** Deleting by id keeps the survivors in order: the list splits as it did
      before. */
  lemma RemoveByIdSplits(a: seq<Doc>, b: seq<Doc>, id: Option<string>)
    ensures RemoveById(a + b, id) == RemoveById(a, id) + RemoveById(b, id)
  {
    FilterAppend(a, b, Keeps(id));
  }

  /** Replacing and then deleting the same id is the same as deleting it. */
  lemma RemoveAfterReplace(xs: seq<Doc>, d: Doc)
    ensures RemoveById(ReplaceById(xs, d), d.id) == RemoveById(xs, d.id)
  {
    FilterAgree(ReplaceById(xs, d), xs, Keeps(d.id));
  }

  /** `list` after a save answered by `reply`: on success the returned document
      replaces its namesake (edit) or goes in front (create); otherwise the
      list is kept. */
  function AfterSave(xs: seq<Doc>, editing: bool, reply: Reply): (r: seq<Doc>)
    ensures !Succeeded(reply) ==> r == xs
    ensures Succeeded(reply) && !editing ==> |r| == |xs| + 1 && r[0] == reply.data && r[1..] == xs
    ensures Succeeded(reply) && editing ==> r == ReplaceById(xs, reply.data)
  {
    if !Succeeded(reply) then xs
    else if editing then ReplaceById(xs, reply.data)
    else [reply.data] + xs
  }

  /** Every piece trimmed (`pieces.map(s => s.trim())`). */
  function TrimAll(pieces: seq<string>): (r: seq<string>)
    ensures |r| == |pieces|
    ensures forall i :: 0 <= i < |r| ==> IsTrimmed(r[i])
    ensures forall i :: 0 <= i < |r| ==> r[i] == Trim(pieces[i])
  {
    seq(|pieces|, i requires 0 <= i < |pieces| => Trim(pieces[i]))
  }

  /** The subjects text of a form turned into the array a request carries:
      split on ",", each piece trimmed (`split(",").map(s => s.trim())`). */
  function TrimmedPieces(text: string): (r: seq<string>)
    ensures |r| == |Split(text, ',')| == multiset(text)[','] + 1
    ensures forall i :: 0 <= i < |r| ==> r[i] == Trim(Split(text, ',')[i])
    ensures forall i :: 0 <= i < |r| ==> IsTrimmed(r[i]) && ',' !in r[i]
  {
    SplitCount(text, ',');
    TrimAll(Split(text, ','))
  }

  predicate NonEmptyText(s: string) {
    s != ""
  }

  /** Saving the same reply twice leaves the list as one save does. */
  lemma ReplaceByIdIdempotent(xs: seq<Doc>, d: Doc)
    ensures ReplaceById(ReplaceById(xs, d), d) == ReplaceById(xs, d)
  {
  }

  /** Deleting the id of a document just put in front of a list in which
      that id is new gives the list back. */
  lemma RemoveAfterPrepend(xs: seq<Doc>, d: Doc)
    requires forall i :: 0 <= i < |xs| ==> xs[i].id != d.id
    ensures RemoveById([d] + xs, d.id) == xs
  {
    RemoveByIdSplits([d], xs, d.id);
    assert RemoveById([d], d.id) == [];
    FilterKeepsAll(xs, (x: Doc) => x.id != d.id);
  }
}
