/**
 * Properties of the project routes that relate several requests, or relate a
 * route to an independent definition of what it should do.
 */
module StoreProperties {
  import opened Wrappers
  import opened Projects
  import JsParseInt

  /** Reference definition of deletion: drop the first record with the id, keep the rest in order. */
  function RemoveFirst(ps: seq<Project>, id: int): seq<Project> {
    if ps == [] then []
    else if ps[0].id == id then ps[1..]
    else [ps[0]] + RemoveFirst(ps[1..], id)
  }

  /** The largest id in a non-empty sequence of records. */
  function MaxId(ps: seq<Project>): (m: int)
    requires ps != []
    ensures forall k :: 0 <= k < |ps| ==> ps[k].id <= m
    ensures exists k :: 0 <= k < |ps| && ps[k].id == m
  {
    if |ps| == 1 then ps[0].id
    else
      var m := MaxId(ps[1..]);
      assert forall k :: 1 <= k < |ps| ==> ps[k] == ps[1..][k - 1];
      if ps[0].id >= m then ps[0].id else m
  }

  /** Splicing out the index findIndex reports is the reference deletion. */
  lemma {:induction false} SpliceIsRemoveFirst(ps: seq<Project>, id: int)
    ensures var i := FindIndex(ps, id);
      RemoveFirst(ps, id) == if i == -1 then ps else ps[..i] + ps[i + 1..]
  {
    if ps == [] {
    } else if ps[0].id == id {
      assert FindIndex(ps, id) == 0;
      assert ps[..0] + ps[1..] == ps[1..];
    } else {
      var tail := ps[1..];
      SpliceIsRemoveFirst(tail, id);
      var j := FindIndex(tail, id);
      assert RemoveFirst(ps, id) == [ps[0]] + RemoveFirst(tail, id);
      if j == -1 {
        assert FindIndex(ps, id) == -1;
        assert [ps[0]] + tail == ps;
      } else {
        assert FindIndex(ps, id) == j + 1;
        SpliceAfterHead(ps, j);
      }
    }
  }

  /** Splicing out index j + 1 keeps the head in front of the tail spliced at j. */
  lemma SpliceAfterHead<T>(ps: seq<T>, j: nat)
    requires j + 1 < |ps|
    ensures ps[..j + 1] + ps[j + 2..] == [ps[0]] + (ps[1..][..j] + ps[1..][j + 1..])
  {
    assert ps[..j + 1] == [ps[0]] + ps[1..][..j];
    assert ps[j + 2..] == ps[1..][j + 1..];
  }

  /**
   * A successful delete removes exactly the first record with the parsed id,
   * returns that record, and keeps every other record in its order.
   */
  lemma DeleteRemovesFirstMatch(s: Store, idParam: string)
    requires Delete(s, idParam).response.Ok?
    ensures var id := JsParseInt.ParseInt(idParam).value;
      var r := Delete(s, idParam);
      && r.store.projects == RemoveFirst(s.projects, id)
      && r.response.value == s.projects[FindIndex(s.projects, id)]
  {
    SpliceIsRemoveFirst(s.projects, JsParseInt.ParseInt(idParam).value);
  }

  /** The id rule takes the last record's id; while ids increase that is the largest id + 1. */
  lemma NextIdIsMaxPlusOne(ps: seq<Project>)
    requires ps != [] && IdsIncreasing(ps)
    ensures NextId(ps) == MaxId(ps) + 1
  {
    var k :| 0 <= k < |ps| && ps[k].id == MaxId(ps);
    assert ps[|ps| - 1].id <= MaxId(ps);
  }

  predicate IdsDistinct(ps: seq<Project>) {
    forall i, j :: 0 <= i < |ps| && 0 <= j < |ps| && i != j ==> ps[i].id != ps[j].id
  }

  /** A request to one of the project routes. */
  datatype Request =
    | GetProjects
    | PostProject(body: CreateBody, createdAt: string)
    | DeleteProject(idParam: string)

  function Step(s: Store, req: Request): Store {
    match req
    case GetProjects => s
    case PostProject(body, createdAt) => Create(s, body, createdAt).store
    case DeleteProject(idParam) => Delete(s, idParam).store
  }

  /** The data file after the requests, served one after another. */
  function Run(s: Store, reqs: seq<Request>): Store
    decreases |reqs|
  {
    if reqs == [] then s else Run(Step(s, reqs[0]), reqs[1..])
  }

  /**
   * From a file whose ids increase (an empty or missing file in particular),
   * every sequence of requests keeps the ids increasing, so no two stored
   * projects ever share an id.
   */
  lemma {:induction false} RunKeepsIdsIncreasing(s: Store, reqs: seq<Request>)
    requires s.Valid() && IdsIncreasing(s.projects)
    ensures Run(s, reqs).Valid() && IdsIncreasing(Run(s, reqs).projects)
    ensures IdsDistinct(Run(s, reqs).projects)
    decreases |reqs|
  {
    if reqs != [] {
      RunKeepsIdsIncreasing(Step(s, reqs[0]), reqs[1..]);
    }
    var ps := Run(s, reqs).projects;
    forall i, j | 0 <= i < |ps| && 0 <= j < |ps| && i != j
      ensures ps[i].id != ps[j].id
    {
      if i < j { assert ps[i].id < ps[j].id; } else { assert ps[j].id < ps[i].id; }
    }
  }

  /**
   * Deleting a project just created, by the id text the page script sends,
   * gives back the file as it was and returns that project.
   */
  lemma DeleteUndoesCreate(ps: seq<Project>, body: CreateBody, createdAt: string)
    requires IdsIncreasing(ps)
    requires Truthy(body.title) && Truthy(body.description)
    ensures var created := Create(Store(ArrayFile, ps), body, createdAt);
      && created.response.Ok?
      && Delete(created.store, JsParseInt.DecimalString(created.response.value.id))
         == Outcome(Store(ArrayFile, ps), Ok(created.response.value))
  {
    var created := Create(Store(ArrayFile, ps), body, createdAt);
    var p := created.response.value;
    var grown := ps + [p];
    assert Loaded(Store(ArrayFile, ps)) == ps;
    assert created.store == Store(ArrayFile, grown);
    assert forall k :: 0 <= k < |ps| ==> grown[k] == ps[k] && ps[k].id < p.id;
    assert grown[|ps|] == p;
    var i := FindIndex(grown, p.id);
    assert i != -1 && !(i < |ps|);
    assert grown[..|ps|] + grown[|ps| + 1..] == ps;
    DeleteFound(created.store, JsParseInt.DecimalString(p.id), p.id);
  }

  /** Delete by the decimal text of an id that is present, spelled out. */
  lemma DeleteFound(s: Store, idParam: string, id: int)
    requires idParam == JsParseInt.DecimalString(id)
    requires s.file == ArrayFile && FindIndex(s.projects, id) != -1
    ensures var i := FindIndex(s.projects, id);
      Delete(s, idParam) == Outcome(Store(ArrayFile, s.projects[..i] + s.projects[i + 1..]), Ok(s.projects[i]))
  {
    JsParseInt.ParseIntReadsDecimal([], id, []);
    assert [] + idParam + [] == idParam;
    DeleteParsed(s, idParam, id);
  }

  /** Delete of an id that parses and is present, spelled out. */
  lemma DeleteParsed(s: Store, idParam: string, id: int)
    requires JsParseInt.ParseInt(idParam) == Some(id)
    requires s.file == ArrayFile && FindIndex(s.projects, id) != -1
    ensures var i := FindIndex(s.projects, id);
      Delete(s, idParam) == Outcome(Store(ArrayFile, s.projects[..i] + s.projects[i + 1..]), Ok(s.projects[i]))
  {
  }

  /**
   * Ids are not reserved: after the newest project is deleted, the next
   * create hands out the same id again.
   */
  lemma IdReusedAfterDeletingNewest(ps: seq<Project>, first: CreateBody, second: CreateBody, t1: string, t2: string)
    requires IdsIncreasing(ps)
    requires Truthy(first.title) && Truthy(first.description)
    requires Truthy(second.title) && Truthy(second.description)
    ensures var created := Create(Store(ArrayFile, ps), first, t1);
      var deleted := Delete(created.store, JsParseInt.DecimalString(created.response.value.id));
      var again := Create(deleted.store, second, t2);
      again.response.Ok? && again.response.value.id == created.response.value.id
  {
    DeleteUndoesCreate(ps, first, t1);
  }

  /**
   * From a missing data file: the first project created gets id 1 and the
   * default status, deleting "1" returns it, and the list is then empty.
   */
  lemma FirstProjectScenario(createdAt: string)
    ensures var created := Create(Store(Unreadable, []), CreateBody(Some("T"), Some("D"), None), createdAt);
      var deleted := Delete(created.store, "1");
      && created.response == Ok(Project(1, "T", "D", "en cours", createdAt))
      && deleted.response == created.response
      && List(deleted.store) == Ok(Records([]))
  {
    var created := Create(Store(Unreadable, []), CreateBody(Some("T"), Some("D"), None), createdAt);
    var p := Project(1, "T", "D", "en cours", createdAt);
    assert created == Outcome(Store(ArrayFile, [p]), Ok(p));
    assert JsParseInt.DecimalString(1) == "1";
    DeleteFound(created.store, "1", 1);
    assert [p][..0] + [p][1..] == [];
  }
}
