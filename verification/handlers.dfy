/**
 * The three project routes as they run: each handler reads the data file;
 * create and delete then change the parsed array (push on create, splice on
 * delete) and write the whole array back. The object stands for the data
 * file; its fields are what reading and parsing that file yields.
 */
module Handlers {
  import opened Projects
  import JsParseInt

  class ProjectStore {
    var file: FileState
    var projects: seq<Project>

    /** The state is canonical: records are kept only for an array file. */
    ghost predicate Valid()
      reads this
    {
      Snapshot().Valid()
    }

    /** The data file as a value. */
    function Snapshot(): Store
      reads this
    {
      Store(file, projects)
    }

    constructor (initial: Store)
      requires initial.Valid()
      ensures Valid() && Snapshot() == initial
    {
      file := initial.file;
      projects := initial.projects;
    }

    /** GET /projects. */
    method List() returns (r: Response<Listing>)
      requires Valid()
      ensures r.Fail? <==> file == Unreadable
      ensures file == ArrayFile ==> r == Ok(Records(projects))
      ensures file == NotAnArray ==> r == Ok(OtherJson)
      ensures r == Projects.List(Snapshot())
    {
      if file == Unreadable {
        return Fail(StoreError);
      }
      if file == NotAnArray {
        return Ok(OtherJson);
      }
      r := Ok(Records(projects));
    }

    /** POST /projects; `createdAt` is the time stamp the request receives. */
    method Create(body: CreateBody, createdAt: string) returns (r: Response<Project>)
      requires Valid()
      modifies this
      ensures Valid()
      ensures Outcome(Snapshot(), r) == Projects.Create(old(Snapshot()), body, createdAt)
      ensures r.Fail? ==> r == Fail(BadRequest) && unchanged(this)
      ensures r.Ok? ==> file == ArrayFile && projects == Loaded(old(Snapshot())) + [r.value]
      ensures r.Ok? ==> r.value.id == NextId(Loaded(old(Snapshot())))
      ensures IdsIncreasing(old(projects)) ==> IdsIncreasing(projects)
    {
      if !Truthy(body.title) || !Truthy(body.description) {
        return Fail(BadRequest);
      }
      var loaded: seq<Project>;
      if file == ArrayFile {
        loaded := projects;
      } else {
        loaded := [];
      }
      var newId := NextId(loaded);
      var status := if Truthy(body.status) then body.status.value else DEFAULT_STATUS;
      var newProject := Project(newId, body.title.value, body.description.value, status, createdAt);
      loaded := loaded + [newProject];
      file, projects := ArrayFile, loaded;
      r := Ok(newProject);
    }

    /** DELETE /projects/:id; `idParam` is the raw route parameter. */
    method Delete(idParam: string) returns (r: Response<Project>)
      requires Valid()
      modifies this
      ensures Valid()
      ensures Outcome(Snapshot(), r) == Projects.Delete(old(Snapshot()), idParam)
      ensures r.Fail? ==> unchanged(this)
      ensures r.Ok? ==> |projects| == |old(projects)| - 1 && r.value in old(projects)
      ensures IdsIncreasing(old(projects)) ==> IdsIncreasing(projects)
    {
      var parsed := JsParseInt.ParseInt(idParam);
      if parsed.None? {
        return Fail(BadRequest);
      }
      if file != ArrayFile {
        return Fail(StoreError);
      }
      var id := parsed.value;
      var index := FindIndex(projects, id);
      if index == -1 {
        return Fail(NotFound);
      }
      var deleted := projects[index];
      projects := projects[..index] + projects[index + 1..];
      r := Ok(deleted);
    }
  }
}
