/** The fan-out stage: select the underground stops from the stop catalogue and
    create one extraction task per stop in a task queue. */
module EnqueueHaltIds {
  import opened Outcomes
  import opened Cloud
  import opened Iteration

  /** The deployment settings the module reads from its environment. */
  datatype Config = Config(
    bucketName: string,
    extractDeparturesUrl: string,
    serviceAccountEmail: string,
    queueName: string,
    queueRegion: string,
    projectId: string)

  /** Row `row` is an underground stop with stop id `id`. */
  predicate Selects(row: Row, id: string) {
    "Betriebszweig" in row && row["Betriebszweig"] == "U-Bahn" &&
    "VGNKennung" in row && row["VGNKennung"] == id
  }

  /** Every row has the columns the selection looks up. */
  predicate HasSelectionColumns(rows: seq<Row>) {
    forall i :: 0 <= i < |rows| ==>
      "Betriebszweig" in rows[i] &&
      (rows[i]["Betriebszweig"] == "U-Bahn" ==> "VGNKennung" in rows[i])
  }

  /** `{row['VGNKennung'] for row in reader if row['Betriebszweig'] == 'U-Bahn'}`:
      the ids of exactly the underground rows, repeated ids collapsed; a row without
      a column that is looked up raises a `KeyError` for that column. */
  function SelectHaltIds(rows: seq<Row>): (r: Result<set<string>>)
    ensures r.Ok? <==> HasSelectionColumns(rows)
    ensures r.Ok? ==> forall id :: id in r.value ==> exists i :: 0 <= i < |rows| && Selects(rows[i], id)
    ensures r.Ok? ==> forall i, id :: 0 <= i < |rows| && Selects(rows[i], id) ==> id in r.value
    ensures r.Err? ==> r.error in {KeyError("Betriebszweig"), KeyError("VGNKennung")}
  {
    if rows == [] then Ok({})
    else if "Betriebszweig" !in rows[0] then Err(KeyError("Betriebszweig"))
    else if rows[0]["Betriebszweig"] != "U-Bahn" then SelectHaltIds(rows[1..])
    else if "VGNKennung" !in rows[0] then Err(KeyError("VGNKennung"))
    else
      match SelectHaltIds(rows[1..])
      case Ok(ids) => Ok({rows[0]["VGNKennung"]} + ids)
      case Err(e) => Err(e)
  }

  /** Evaluating the comprehension on `row` raises `e`: `Betriebszweig` is missing,
      or the row is an underground row without `VGNKennung`. */
  predicate RaisesAt(row: Row, e: Failure) {
    if "Betriebszweig" !in row then e == KeyError("Betriebszweig")
    else row["Betriebszweig"] == "U-Bahn" && "VGNKennung" !in row && e == KeyError("VGNKennung")
  }

  /** A failing selection raises the `KeyError` of the first row that raises: every
      row before it has the columns the comprehension looks up. */
  lemma {:induction false} SelectHaltIdsFirstError(rows: seq<Row>)
    requires SelectHaltIds(rows).Err?
    ensures exists k ::
      0 <= k < |rows| && HasSelectionColumns(rows[..k]) && RaisesAt(rows[k], SelectHaltIds(rows).error)
  {
    var e := SelectHaltIds(rows).error;
    if RaisesAt(rows[0], e) {
      assert HasSelectionColumns(rows[..0]);
    } else {
      assert SelectHaltIds(rows[1..]).Err? && SelectHaltIds(rows[1..]).error == e;
      SelectHaltIdsFirstError(rows[1..]);
      var k :| 0 <= k < |rows[1..]| && HasSelectionColumns(rows[1..][..k]) && RaisesAt(rows[1..][k], e);
      assert rows[k + 1] == rows[1..][k];
      var before := rows[..k + 1];
      forall i | 0 <= i < k + 1
        ensures "Betriebszweig" in before[i] &&
          (before[i]["Betriebszweig"] == "U-Bahn" ==> "VGNKennung" in before[i])
      {
        if i > 0 {
          assert before[i] == rows[1..][..k][i - 1];
        }
      }
    }
  }

  function Parent(config: Config): (path: string)
    ensures |path| >= 9 && path[..9] == "projects/"
  {
    QueuePath(config.projectId, config.queueRegion, config.queueName)
  }

  /** The task built for one stop. */
  function MakeTask(config: Config, haltId: string): (t: Task)
    ensures t.httpMethod == POST && t.url == config.extractDeparturesUrl
    ensures t.serviceAccountEmail == config.serviceAccountEmail
    ensures t.body.bucketName == config.bucketName && t.body.haltId == haltId
  {
    Task(POST, config.extractDeparturesUrl, TaskBody(config.bucketName, haltId),
         config.serviceAccountEmail)
  }

  /** The queue effects of creating the tasks for `haltIds`, in that order. */
  function TaskLog(config: Config, haltIds: seq<string>): (log: seq<Effect>)
    ensures |log| == |haltIds|
  {
    if haltIds == [] then []
    else TaskLog(config, haltIds[..|haltIds| - 1]) +
         [TaskCreated(Parent(config), MakeTask(config, haltIds[|haltIds| - 1]))]
  }

  /** One task per stop, in order: every task is a POST to the extraction endpoint
      under the configured service account, in the same queue, and its body names
      the configured bucket and exactly the stop at that position. */
  lemma {:induction false} TaskLogAt(config: Config, haltIds: seq<string>, i: nat)
    requires i < |haltIds|
    ensures |TaskLog(config, haltIds)| == |haltIds|
    ensures TaskLog(config, haltIds)[i].TaskCreated?
    ensures TaskLog(config, haltIds)[i].parent == Parent(config)
    ensures TaskLog(config, haltIds)[i].task.httpMethod == POST
    ensures TaskLog(config, haltIds)[i].task.url == config.extractDeparturesUrl
    ensures TaskLog(config, haltIds)[i].task.serviceAccountEmail == config.serviceAccountEmail
    ensures TaskLog(config, haltIds)[i].task.body == TaskBody(config.bucketName, haltIds[i])
  {
    var n := |haltIds|;
    if i < n - 1 {
      TaskLogAt(config, haltIds[..n - 1], i);
    } else if n > 1 {
      TaskLogAt(config, haltIds[..n - 1], 0);
    }
  }

  /** Tasks made for an enumeration of a set of stops: one per element of the set,
      each element gets its task, and no two tasks name the same stop. */
  lemma TaskLogOfSet(config: Config, order: seq<string>, ids: set<string>)
    requires Enumerates(order, ids)
    ensures |TaskLog(config, order)| == |ids|
    ensures forall i :: 0 <= i < |TaskLog(config, order)| ==> TaskLog(config, order)[i].TaskCreated?
    ensures forall i, j :: 0 <= i < j < |TaskLog(config, order)| ==>
      TaskLog(config, order)[i].task.body.haltId != TaskLog(config, order)[j].task.body.haltId
    ensures forall id :: id in ids ==>
      exists i :: 0 <= i < |TaskLog(config, order)| && TaskLog(config, order)[i].task.body.haltId == id
  {
    EnumerationLength(order, ids);
    var log := TaskLog(config, order);
    forall i | 0 <= i < |order|
      ensures |log| == |order| && log[i].TaskCreated? && log[i].task.body.haltId == order[i]
    {
      TaskLogAt(config, order, i);
    }
    forall id | id in ids
      ensures exists i :: 0 <= i < |log| && log[i].task.body.haltId == id
    {
      var i :| 0 <= i < |order| && order[i] == id;
      assert log[i].task.body.haltId == id;
    }
  }

  /** `enqueue_halt_ids`: creates the tasks one stop at a time. A failing
      `create_task` ends the loop, so the created tasks are those of a prefix. */
  method Enqueue(world: World, config: Config, haltIds: seq<string>) returns (ok: bool)
    modifies world
    ensures ok ==> world.log == old(world.log) + TaskLog(config, haltIds)
    ensures !ok ==>
      exists k :: 0 <= k < |haltIds| && world.log == old(world.log) + TaskLog(config, haltIds[..k])
  {
    var parent := Parent(config);
    for i := 0 to |haltIds|
      invariant world.log == old(world.log) + TaskLog(config, haltIds[..i])
    {
      var task := MakeTask(config, haltIds[i]);
      var created := world.CreateTask(parent, task);
      if !created {
        return false;
      }
      assert haltIds[..i + 1][..i] == haltIds[..i];
    }
    assert haltIds[..|haltIds|] == haltIds;
    return true;
  }

  /** The HTTP handler `main`: selects the stops, enqueues one task per stop in the
      set's iteration order `order`, and answers `'True'`. */
  method HandleRequest(world: World, config: Config, rows: seq<Row>)
    returns (r: Result<string>, ghost order: seq<string>)
    modifies world
    ensures SelectHaltIds(rows).Err? ==>
      r == Err(SelectHaltIds(rows).error) && world.log == old(world.log)
    ensures SelectHaltIds(rows).Ok? ==> Enumerates(order, SelectHaltIds(rows).value)
    ensures r.Ok? ==> r.value == "True" && world.log == old(world.log) + TaskLog(config, order)
    ensures SelectHaltIds(rows).Ok? && r.Err? ==> (r.error == TaskCreationFailed &&
      exists k :: 0 <= k < |order| && world.log == old(world.log) + TaskLog(config, order[..k]))
  {
    order := [];
    var selected := SelectHaltIds(rows);
    if selected.Err? {
      return Err(selected.error), order;
    }
    var haltIds := Enumerate(selected.value);
    order := haltIds;
    var ok := Enqueue(world, config, haltIds);
    if !ok {
      return Err(TaskCreationFailed), order;
    }
    return Ok("True"), order;
  }
}
