/**
 * The project records kept in the data file and what each of the three
 * project routes does to them, as values: `List` for GET /projects, `Create`
 * for POST /projects and `Delete` for DELETE /projects/:id. Each takes the
 * file as it is before the request and gives the file afterwards together
 * with the response.
 */
module Projects {
  import opened Wrappers
  import JsParseInt

  /** One stored project; `createdAt` is the ISO-8601 text stamped at creation. */
  datatype Project = Project(id: int, title: string, description: string, status: string, createdAt: string)

  /** The JSON body of a create request; a field the body lacks is `None`. */
  datatype CreateBody = CreateBody(title: Option<string>, description: Option<string>, status: Option<string>)

  /** What reading and parsing the data file finds. */
  datatype FileState =
    | Unreadable   // the file is missing, cannot be read, or is not JSON
    | NotAnArray   // the file is JSON, but not an array
    | ArrayFile    // the file is a JSON array of project records

  /** The data file: its state, and the records when it holds an array. */
  datatype Store = Store(file: FileState, projects: seq<Project>) {
    /**
     * Records are kept only for a file that holds an array, so each file has
     * one representation; under it the records a create starts from are the
     * stored ones (see `Loaded`).
     */
    predicate Valid() {
      file == ArrayFile || projects == []
    }
  }

  /** The failures a route reports instead of its result. */
  datatype Failure =
    | BadRequest   // missing fields on create, an id that parses to NaN on delete
    | NotFound     // no project has the id to delete
    | StoreError   // the data file cannot serve the request

  datatype Response<T> = Ok(value: T) | Fail(failure: Failure)

  /** What GET /projects sends back from a file that parses. */
  datatype Listing = Records(items: seq<Project>) | OtherJson

  /** The data file after a request, and the request's response. */
  datatype Outcome<T> = Outcome(store: Store, response: Response<T>)

  const DEFAULT_STATUS: string := "en cours"

  /** JavaScript truthiness of an optional string field: present and not empty. */
  predicate Truthy(field: Option<string>) {
    field.Some? && field.value != ""
  }

  /** Ids strictly increase along the records; hence no two records share an id. */
  predicate IdsIncreasing(ps: seq<Project>) {
    forall i, j :: 0 <= i < j < |ps| ==> ps[i].id < ps[j].id
  }

  /** The records a create request starts from: an unreadable or non-array file counts as empty. */
  function Loaded(s: Store): (r: seq<Project>)
    ensures s.file != ArrayFile ==> r == []
    ensures s.Valid() ==> r == s.projects
  {
    if s.file == ArrayFile then s.projects else []
  }

  /** The id a new project receives: one more than the last record's, or 1. */
  function NextId(ps: seq<Project>): (id: int)
    ensures ps == [] ==> id == 1
    ensures IdsIncreasing(ps) ==> forall k :: 0 <= k < |ps| ==> ps[k].id < id
  {
    if |ps| > 0 then ps[|ps| - 1].id + 1 else 1
  }

  /** `Array.prototype.findIndex` with the predicate `p.id === id`: the first match, or -1. */
  function FindIndex(ps: seq<Project>, id: int): (i: int)
    ensures -1 <= i < |ps|
    ensures i == -1 <==> forall k :: 0 <= k < |ps| ==> ps[k].id != id
    ensures 0 <= i ==> ps[i].id == id && forall k :: 0 <= k < i ==> ps[k].id != id
  {
    if ps == [] then -1
    else if ps[0].id == id then 0
    else
      var j := FindIndex(ps[1..], id);
      if j == -1 then -1 else j + 1
  }

  /** GET /projects: the parsed file content, or an error when the file does not parse. */
  function List(s: Store): (r: Response<Listing>)
    ensures r.Fail? <==> s.file == Unreadable
    ensures r.Fail? ==> r.failure == StoreError
    ensures s.file == ArrayFile ==> r == Ok(Records(s.projects))
    ensures s.file == NotAnArray ==> r == Ok(OtherJson)
  {
    match s.file
    case Unreadable => Fail(StoreError)
    case NotAnArray => Ok(OtherJson)
    case ArrayFile => Ok(Records(s.projects))
  }

  /** POST /projects. */
  function Create(s: Store, body: CreateBody, createdAt: string): (r: Outcome<Project>)
    ensures r.response.Fail? <==> !Truthy(body.title) || !Truthy(body.description)
    ensures r.response.Fail? ==> r.response.failure == BadRequest && r.store == s
    ensures r.response.Ok? ==>
      var p := r.response.value;
      && r.store.file == ArrayFile
      && r.store.projects == Loaded(s) + [p]
      && p.title == body.title.value && p.description == body.description.value
      && p.status == (if Truthy(body.status) then body.status.value else DEFAULT_STATUS)
      && p.createdAt == createdAt
    ensures r.response.Ok? ==> r.response.value.id == NextId(Loaded(s))
    ensures r.response.Ok? && s.file != ArrayFile ==>
      r.store.projects == [r.response.value] && r.response.value.id == 1
    ensures r.response.Ok? && IdsIncreasing(Loaded(s)) ==>
      forall k :: 0 <= k < |Loaded(s)| ==> Loaded(s)[k].id < r.response.value.id
    ensures s.Valid() ==> r.store.Valid()
    ensures IdsIncreasing(s.projects) ==> IdsIncreasing(r.store.projects)
  {
    if !Truthy(body.title) || !Truthy(body.description) then
      Outcome(s, Fail(BadRequest))
    else
      var projects := Loaded(s);
      var status := if Truthy(body.status) then body.status.value else DEFAULT_STATUS;
      var p := Project(NextId(projects), body.title.value, body.description.value, status, createdAt);
      Outcome(Store(ArrayFile, projects + [p]), Ok(p))
  }

  /** DELETE /projects/:id, with `idParam` the raw route parameter. */
  function Delete(s: Store, idParam: string): (r: Outcome<Project>)
    ensures r.response.Fail? ==> r.store == s
    ensures r.response == Fail(BadRequest) <==> JsParseInt.ParseInt(idParam).None?
    ensures r.response == Fail(StoreError) <==>
      JsParseInt.ParseInt(idParam).Some? && s.file != ArrayFile
    ensures r.response == Fail(NotFound) <==>
      && JsParseInt.ParseInt(idParam).Some?
      && s.file == ArrayFile
      && forall k :: 0 <= k < |s.projects| ==> s.projects[k].id != JsParseInt.ParseInt(idParam).value
    ensures r.response.Ok? ==>
      && r.response.value.id == JsParseInt.ParseInt(idParam).value
      && r.store.file == ArrayFile
      && |r.store.projects| == |s.projects| - 1
      && multiset(r.store.projects) + multiset{r.response.value} == multiset(s.projects)
    ensures s.Valid() ==> r.store.Valid()
    ensures IdsIncreasing(s.projects) ==> IdsIncreasing(r.store.projects)
  {
    match JsParseInt.ParseInt(idParam)
    case None => Outcome(s, Fail(BadRequest))
    case Some(id) =>
      if s.file != ArrayFile then Outcome(s, Fail(StoreError))
      else
        var i := FindIndex(s.projects, id);
        if i == -1 then Outcome(s, Fail(NotFound))
        else
          RemoveAt(s.projects, i);
          Outcome(Store(ArrayFile, s.projects[..i] + s.projects[i + 1..]), Ok(s.projects[i]))
  }

  /** Removing one record: one fewer, the same records otherwise, ids still increasing. */
  lemma RemoveAt(ps: seq<Project>, i: nat)
    requires i < |ps|
    ensures |ps[..i] + ps[i + 1..]| == |ps| - 1
    ensures multiset(ps[..i] + ps[i + 1..]) + multiset{ps[i]} == multiset(ps)
    ensures IdsIncreasing(ps) ==> IdsIncreasing(ps[..i] + ps[i + 1..])
  {
    var rest := ps[..i] + ps[i + 1..];
    assert ps == ps[..i] + [ps[i]] + ps[i + 1..];
    assert forall k :: 0 <= k < |rest| ==> rest[k] == ps[if k < i then k else k + 1];
  }
}
