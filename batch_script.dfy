/** The standalone batch script: read the stop catalogue, then fetch and store the
    departures of every stop with a non-empty id, all under one timestamp. */
module BatchScript {
  import opened Outcomes
  import opened Text
  import opened Cloud
  import opened Iteration

  const DEPARTURES_URL: string := "https://start.vag.de/dm/api/v1/abfahrten/vgn/"
  const BUCKET: string := "vgn-departures"

  /** The departure-API URL of one stop. */
  function DeparturesUrl(haltId: string): (url: string)
    ensures |url| == |DEPARTURES_URL| + |haltId|
    ensures url[..|DEPARTURES_URL|] == DEPARTURES_URL && url[|DEPARTURES_URL|..] == haltId
  {
    DEPARTURES_URL + haltId
  }

  /** `get_departures`: an empty stop id yields `None` without a request; any other
      is fetched from the departure API. */
  method GetDepartures(world: World, haltId: string) returns (text: Option<string>)
    modifies world
    ensures haltId == "" ==> text == None && world.log == old(world.log)
    ensures haltId != "" ==> text.Some? && world.log == old(world.log) + [Fetched(DeparturesUrl(haltId), text.value)]
  {
    if haltId == "" {
      text := None;
    } else {
      var body := world.HttpGet(DeparturesUrl(haltId));
      text := Some(body);
    }
  }

  /** `set([r['VGNKennung'] for r in reader if r['VGNKennung']])`: the non-empty stop
      ids of the catalogue, repeated ids collapsed; a row without the column raises. */
  function VgnIds(rows: seq<Row>): (r: Result<set<string>>)
    ensures r.Ok? <==> forall i :: 0 <= i < |rows| ==> "VGNKennung" in rows[i]
    ensures r.Ok? ==> forall id :: id in r.value ==>
      id != "" && exists i :: 0 <= i < |rows| && rows[i]["VGNKennung"] == id
    ensures r.Ok? ==> forall i :: 0 <= i < |rows| && rows[i]["VGNKennung"] != "" ==>
      rows[i]["VGNKennung"] in r.value
    ensures r.Err? ==> r.error == KeyError("VGNKennung")
  {
    if rows == [] then Ok({})
    else if "VGNKennung" !in rows[0] then Err(KeyError("VGNKennung"))
    else
      match VgnIds(rows[1..])
      case Ok(ids) => Ok(if rows[0]["VGNKennung"] != "" then {rows[0]["VGNKennung"]} + ids else ids)
      case Err(e) => Err(e)
  }

  /** The object key `{year}/{month}/{day}/{hour}/{halt_id}/{microsecond}.json`,
      numbers unpadded. */
  function BatchKey(now: DateTime, haltId: string): (key: string)
    ensures |key| == |RunPrefix(now)| + |haltId| + |RunSuffix(now)|
    ensures key[|RunPrefix(now)|..|RunPrefix(now)| + |haltId|] == haltId
  {
    NatToString(now.year) + "/" + NatToString(now.month) + "/" + NatToString(now.day) + "/" +
    NatToString(now.hour) + "/" + haltId + "/" + NatToString(now.microsecond) + ".json"
  }

  /** The part of every key of a run before the stop id. */
  function RunPrefix(now: DateTime): string {
    NatToString(now.year) + "/" + NatToString(now.month) + "/" + NatToString(now.day) + "/" +
    NatToString(now.hour) + "/"
  }

  /** The part of every key of a run after the stop id. */
  function RunSuffix(now: DateTime): string {
    "/" + NatToString(now.microsecond) + ".json"
  }

  /** Within one run only the stop id segment of the key varies. */
  lemma BatchKeyParts(now: DateTime, haltId: string)
    ensures BatchKey(now, haltId) == RunPrefix(now) + haltId + RunSuffix(now)
  {
    var upToStop, micro := RunPrefix(now) + haltId, NatToString(now.microsecond);
    assert BatchKey(now, haltId) == upToStop + "/" + micro + ".json";
    Associative(upToStop, "/", micro);
    Associative(upToStop, "/" + micro, ".json");
  }

  /** Within one run, distinct stop ids get distinct keys. */
  lemma BatchKeyInjectiveInRun(now: DateTime, h1: string, h2: string)
    requires BatchKey(now, h1) == BatchKey(now, h2)
    ensures h1 == h2
  {
    BatchKeyParts(now, h1);
    BatchKeyParts(now, h2);
    CancelTails(RunPrefix(now) + h1, RunSuffix(now), RunPrefix(now) + h2, RunSuffix(now));
    CancelHeads(RunPrefix(now), h1, RunPrefix(now), h2);
  }

  /** A numeral followed by `/` and the rest: the numeral ends at the first `/`. */
  lemma SplitNumeral(a: nat, x: string, b: nat, y: string)
    requires NatToString(a) + "/" + x == NatToString(b) + "/" + y
    ensures a == b && x == y
  {
    NoSeparatorInNumeral(NatToString(a), '/');
    NoSeparatorInNumeral(NatToString(b), '/');
    SplitAtSeparator(NatToString(a), x, NatToString(b), y, '/');
    NatToStringInjective(a, b);
  }

  /** A key read segment by segment: four numerals each closed by `/`, then the
      stop id, `/` and the microsecond file. */
  lemma BatchKeySegments(now: DateTime, haltId: string)
    ensures BatchKey(now, haltId) ==
      NatToString(now.year) + "/" + (NatToString(now.month) + "/" + (NatToString(now.day) + "/" +
      (NatToString(now.hour) + "/" + (haltId + "/" + (NatToString(now.microsecond) + ".json")))))
  {
    var y, mo, d := NatToString(now.year), NatToString(now.month), NatToString(now.day);
    var h, u := NatToString(now.hour), NatToString(now.microsecond);
    // the segments after each '/', from the right
    var r5 := u + ".json";
    var r4 := haltId + "/" + r5;
    var r3 := h + "/" + r4;
    var r2 := d + "/" + r3;
    var r1 := mo + "/" + r2;
    // the key up to and including each '/', from the left
    var p1 := y + "/";
    var p3 := p1 + mo + "/";
    var p5 := p3 + d + "/";
    var p7 := p5 + h + "/";
    var p9 := p7 + haltId + "/";
    assert BatchKey(now, haltId) == p9 + u + ".json";
    Associative(p9, u, ".json");
    Associative(p7, haltId, "/");
    Associative(p7, haltId + "/", r5);
    Associative(p5, h, "/");
    Associative(p5, h + "/", r4);
    Associative(p3, d, "/");
    Associative(p3, d + "/", r3);
    Associative(p1, mo, "/");
    Associative(p1, mo + "/", r2);
  }

  /** Keys of any two runs coincide only for the same stop id, year, month, day, hour
      and microsecond. */
  lemma BatchKeyDecodes(t1: DateTime, h1: string, t2: DateTime, h2: string)
    requires BatchKey(t1, h1) == BatchKey(t2, h2)
    ensures h1 == h2
    ensures t1.year == t2.year && t1.month == t2.month && t1.day == t2.day
    ensures t1.hour == t2.hour && t1.microsecond == t2.microsecond
  {
    var u1, u2 := NatToString(t1.microsecond) + ".json", NatToString(t2.microsecond) + ".json";
    var r1, r2 := h1 + "/" + u1, h2 + "/" + u2;
    var d1, d2 := NatToString(t1.hour) + "/" + r1, NatToString(t2.hour) + "/" + r2;
    var m1, m2 := NatToString(t1.day) + "/" + d1, NatToString(t2.day) + "/" + d2;
    var y1, y2 := NatToString(t1.month) + "/" + m1, NatToString(t2.month) + "/" + m2;
    BatchKeySegments(t1, h1);
    BatchKeySegments(t2, h2);
    SplitNumeral(t1.year, y1, t2.year, y2);
    SplitNumeral(t1.month, m1, t2.month, m2);
    SplitNumeral(t1.day, d1, t2.day, d2);
    SplitNumeral(t1.hour, r1, t2.hour, r2);
    // the microsecond and the extension hold no '/', so the stop id ends at the last one
    NoSeparatorInNumeral(NatToString(t1.microsecond), '/');
    NoSeparatorInNumeral(NatToString(t2.microsecond), '/');
    SplitAtLastSeparator(h1, u1, h2, u2, '/');
    CancelTails(NatToString(t1.microsecond), ".json", NatToString(t2.microsecond), ".json");
    NatToStringInjective(t1.microsecond, t2.microsecond);
  }

  /** Minute and second are not part of the key: two runs on the same date and hour
      whose clocks read the same microsecond write the same key for a stop. */
  lemma BatchKeyIgnoresMinuteAndSecond(t1: DateTime, t2: DateTime, haltId: string)
    requires t1.year == t2.year && t1.month == t2.month && t1.day == t2.day
    requires t1.hour == t2.hour && t1.microsecond == t2.microsecond
    ensures BatchKey(t1, haltId) == BatchKey(t2, haltId)
  {
  }

  /** The effects of the first `|responses|` iterations of the upload loop: per stop,
      one fetch of its departures and one upload of that response under its key. */
  function BatchLog(now: DateTime, haltIds: seq<string>, responses: seq<string>): (log: seq<Effect>)
    requires |haltIds| == |responses|
    ensures |log| == 2 * |haltIds|
  {
    if haltIds == [] then []
    else
      var n := |haltIds| - 1;
      BatchLog(now, haltIds[..n], responses[..n]) +
      [Fetched(DeparturesUrl(haltIds[n]), responses[n]),
       Uploaded(BUCKET, BatchKey(now, haltIds[n]), Some(responses[n]))]
  }

  /** Iteration `i` of the loop is entries `2i` and `2i + 1` of the log. */
  lemma {:induction false} BatchLogAt(now: DateTime, haltIds: seq<string>, responses: seq<string>, i: nat)
    requires |haltIds| == |responses| && i < |haltIds|
    ensures |BatchLog(now, haltIds, responses)| == 2 * |haltIds|
    ensures BatchLog(now, haltIds, responses)[2 * i] == Fetched(DeparturesUrl(haltIds[i]), responses[i])
    ensures BatchLog(now, haltIds, responses)[2 * i + 1] ==
      Uploaded(BUCKET, BatchKey(now, haltIds[i]), Some(responses[i]))
  {
    var n := |haltIds| - 1;
    if i < n {
      BatchLogAt(now, haltIds[..n], responses[..n], i);
    } else if n > 0 {
      BatchLogAt(now, haltIds[..n], responses[..n], 0);
    }
  }

  /** Every iteration of the loop, at once: entries `2i` and `2i + 1` of the log. */
  lemma BatchLogEntries(now: DateTime, haltIds: seq<string>, responses: seq<string>)
    requires |haltIds| == |responses|
    ensures forall i :: 0 <= i < |haltIds| ==>
      BatchLog(now, haltIds, responses)[2 * i] == Fetched(DeparturesUrl(haltIds[i]), responses[i]) &&
      BatchLog(now, haltIds, responses)[2 * i + 1] == Uploaded(BUCKET, BatchKey(now, haltIds[i]), Some(responses[i]))
  {
    forall i | 0 <= i < |haltIds|
      ensures BatchLog(now, haltIds, responses)[2 * i] == Fetched(DeparturesUrl(haltIds[i]), responses[i])
      ensures BatchLog(now, haltIds, responses)[2 * i + 1] ==
        Uploaded(BUCKET, BatchKey(now, haltIds[i]), Some(responses[i]))
    {
      BatchLogAt(now, haltIds, responses, i);
    }
  }

  /** Distinct stop ids of one run get pairwise distinct keys. */
  lemma BatchKeysDistinct(now: DateTime, haltIds: seq<string>)
    requires Distinct(haltIds)
    ensures forall i, j :: 0 <= i < j < |haltIds| ==> BatchKey(now, haltIds[i]) != BatchKey(now, haltIds[j])
  {
    forall i, j | 0 <= i < j < |haltIds|
      ensures BatchKey(now, haltIds[i]) != BatchKey(now, haltIds[j])
    {
      if BatchKey(now, haltIds[i]) == BatchKey(now, haltIds[j]) {
        BatchKeyInjectiveInRun(now, haltIds[i], haltIds[j]);
      }
    }
  }

  /** A run over an enumeration of the id set fetches and then uploads once per id,
      all to the same bucket; every id of the set gets its own upload, and no two
      uploads share a key. */
  lemma BatchUploadsOfSet(now: DateTime, order: seq<string>, ids: set<string>, responses: seq<string>)
    requires Enumerates(order, ids) && |responses| == |order|
    ensures |BatchLog(now, order, responses)| == 2 * |order| == 2 * |ids|
    ensures forall i :: 0 <= i < |order| ==>
      BatchLog(now, order, responses)[2 * i] == Fetched(DeparturesUrl(order[i]), responses[i]) &&
      BatchLog(now, order, responses)[2 * i + 1] == Uploaded(BUCKET, BatchKey(now, order[i]), Some(responses[i]))
    ensures forall id :: id in ids ==>
      exists i :: 0 <= i < |order| &&
        BatchLog(now, order, responses)[2 * i + 1] == Uploaded(BUCKET, BatchKey(now, id), Some(responses[i]))
    ensures forall i, j :: 0 <= i < j < |order| ==>
      BatchLog(now, order, responses)[2 * i + 1].Uploaded? && BatchLog(now, order, responses)[2 * j + 1].Uploaded? &&
      BatchLog(now, order, responses)[2 * i + 1].key != BatchLog(now, order, responses)[2 * j + 1].key
  {
    EnumerationLength(order, ids);
    BatchLogEntries(now, order, responses);
    BatchKeysDistinct(now, order);
    var log := BatchLog(now, order, responses);
    forall id | id in ids
      ensures exists i :: 0 <= i < |order| && log[2 * i + 1] == Uploaded(BUCKET, BatchKey(now, id), Some(responses[i]))
    {
      var i :| 0 <= i < |order| && order[i] == id;
      BatchLogAt(now, order, responses, i);
    }
    forall i, j | 0 <= i < j < |order|
      ensures log[2 * i + 1].Uploaded? && log[2 * j + 1].Uploaded?
      ensures log[2 * i + 1].key != log[2 * j + 1].key
    {
      BatchLogAt(now, order, responses, i);
      BatchLogAt(now, order, responses, j);
    }
  }

  /** The `__main__` block: collects the ids, reads the clock once, then for each id
      in the set's iteration order `order` (counting from 1) fetches and uploads. The
      ghost `responses` are the bodies the API answered, in the same order. */
  method Run(world: World, rows: seq<Row>, now: DateTime)
    returns (r: Result<()>, ghost order: seq<string>, ghost responses: seq<string>)
    modifies world
    ensures VgnIds(rows).Err? ==> r == Err(VgnIds(rows).error) && world.log == old(world.log)
    ensures VgnIds(rows).Ok? ==> r == Ok(()) && Enumerates(order, VgnIds(rows).value)
    ensures VgnIds(rows).Ok? ==> |responses| == |order|
    ensures VgnIds(rows).Ok? ==> world.log == old(world.log) + BatchLog(now, order, responses)
  {
    order, responses := [], [];
    var selected := VgnIds(rows);
    if selected.Err? {
      return Err(selected.error), order, responses;
    }
    var vgnIds := Enumerate(selected.value);
    order := vgnIds;
    for index := 1 to |vgnIds| + 1
      invariant |responses| == index - 1
      invariant world.log == old(world.log) + BatchLog(now, vgnIds[..index - 1], responses)
    {
      var haltId := vgnIds[index - 1];
      assert haltId in selected.value;
      var fileName := BatchKey(now, haltId);
      var departures := GetDepartures(world, haltId);
      world.Upload(BUCKET, fileName, departures);
      responses := responses + [departures.value];
      assert vgnIds[..index][..index - 1] == vgnIds[..index - 1];
      assert responses[..index - 1] == responses[..|responses| - 1];
    }
    assert vgnIds[..|vgnIds|] == vgnIds;
    return Ok(()), order, responses;
  }
}
