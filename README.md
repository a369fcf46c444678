# VGN departure extractor — a Dafny model

The system collects live departure data for the stops of the Nuremberg-area transit
network (VGN). It has three pieces of logic around three kinds of I/O:

* the **extraction handler** (`src/extract_departures/main.py`). It receives a JSON body
  with `bucket_name` and `halt_id`. When both are non-empty it joins a configured URL
  pattern with the stop id, fetches that URL, and uploads the response to the bucket
  under `{year}/{MM}/{DD}/{halt_id}-{hhmmss}.json`. It answers `'True'` either way;
* the **enqueue dispatcher** (`src/enqueue_halt_ids/main.py`). It selects the ids
  (`VGNKennung`) of the underground rows (`Betriebszweig == 'U-Bahn'`) of the stop
  catalogue as a set. It then creates one Cloud Tasks HTTP task per id. Every task is a
  POST to the extraction endpoint with an OIDC identity, and its body is
  `{"bucket_name": BUCKET_NAME, "halt_id": id}`;
* the **batch script** (`main.py`). It collects every non-empty stop id of the
  catalogue as a set and reads the clock once. For each id it fetches the departures
  and uploads them to bucket `vgn-departures` under
  `{year}/{month}/{day}/{hour}/{halt_id}/{microsecond}.json`, with unpadded numbers.

How the model represents the outside world:

* The cloud services are a `Cloud.World` object. Its `log` records each effect: a
  fetch (with the body the server answered), an upload, or a created task.
* The HTTP response body is arbitrary, so `HttpGet` leaves it unconstrained.
* `create_task` may fail. On failure nothing is stored and the failure propagates.
* The clock reading (`datetime.now()`) is a `DateTime` parameter.
* Environment variables are parameters: the URL pattern, and `EnqueueHaltIds.Config`.
* The catalogue is a sequence of rows, each a `map<string, string>`. The request
  body is such a map too.
* A Python `KeyError` is `Err(KeyError(key))`. In every handler it comes before any
  effect.
* A Python set is a Dafny `set`. A loop over it goes through `Iteration.Enumerate`,
  which picks an unspecified order that visits every element exactly once.

Module layout:

| file | module | models |
|---|---|---|
| outcomes.dfy | `Outcomes` | `None`, exceptions as `Result` |
| text.dfy | `Text` | `str(n)`, `("0" + str(n))[-2:]`, splitting concatenations |
| iteration.dfy | `Iteration` | iterating over a set |
| cloud.dfy | `Cloud` | clock reading, effects, tasks, the services |
| extract_departures.dfy | `ExtractDepartures` | `src/extract_departures/main.py` |
| enqueue_halt_ids.dfy | `EnqueueHaltIds` | `src/enqueue_halt_ids/main.py` |
| batch_script.dfy | `BatchScript` | `main.py` |

## Key formats and collisions

- Tasks carry only `bucket_name` and `halt_id`, with no extraction id. Object keys are built from the clock reading.
- The handler's keys have second resolution. Two calls for the same stop whose clock readings fall in the same clock second (same date, hour, minute and second) write the same key (`ExtractDepartures.FileNameIgnoresMicrosecond`). Otherwise keys are distinct (`ExtractDepartures.FileNameInjective`).
- The batch script's keys leave out minute and second. Two runs on the same date and hour whose clocks read the same microsecond write the same key for a stop (`BatchScript.BatchKeyIgnoresMinuteAndSecond`). Within one run keys are distinct (`BatchScript.BatchKeyInjectiveInRun`).
- The batch script prints its date fields unpadded, as `str` of each number.

## Model

| member | source | states |
|---|---|---|
| `Text.NatToString` | src/extract_departures/main.py:32 | `str(n)` for `n >= 0` is a non-empty string of decimal digits; it is one character exactly when `n < 10`; it starts with `0` only for `n == 0` (no leading zero, hence no padding in the batch keys) |
| `Text.DecimalRoundTrip` | src/extract_departures/main.py:32 | reading the printed numeral back as a decimal gives `n` again |
| `Text.NatToStringInjective` | main.py:29 | distinct numbers print as distinct numerals |
| `Text.PyTail` | src/extract_departures/main.py:27 | for `k > 0`, Python's `s[-k:]` has `min(|s|, k)` characters and they are the end of `s` |
| `Text.Pad2` | src/extract_departures/main.py:27-31 | `("0" + str(n))[-2:]` always has exactly two characters |
| `Text.Pad2Digits` | src/extract_departures/main.py:27-31 | `("0" + str(n))[-2:]` always has exactly two characters: the tens and units digits of `n` (larger numbers are truncated to their last two digits) |
| `Text.Pad2ZeroPadded` | src/extract_departures/main.py:27-31 | for `0 <= n <= 99` the padding equals the zero-padded two-digit decimal of `n` |
| `Text.Pad2RoundTrip` | src/extract_departures/main.py:27-31 | for `n <= 99` the padding is two digits whose decimal value is `n` |
| `Text.Pad2Injective` | src/extract_departures/main.py:27-31 | distinct numbers in 0..99 pad to distinct strings |
| `Iteration.Enumerate` | src/enqueue_halt_ids/main.py:20 | iterating over a set visits every element exactly once (no repeats, nothing missed), in an unspecified order |
| `Iteration.EnumerationLength` | main.py:28 | an iteration over a set has exactly as many steps as the set has elements |
| `Cloud.QueuePath` | src/enqueue_halt_ids/main.py:19 | the queue path is the resource name `projects/<project>/locations/<region>/queues/<queue>`: it starts with `projects/` and ends with `/queues/` and the queue name |
| `Cloud.World.HttpGet` | src/extract_departures/main.py:13 | one GET appends one fetch of that URL to the log and returns the body, whatever the server sent |
| `Cloud.World.Upload` | src/extract_departures/main.py:16-19 | one upload appends exactly one object write (bucket, key, content) and nothing else; `main.py:14-18` is the same function |
| `Cloud.World.CreateTask` | src/enqueue_halt_ids/main.py:31 | a successful call stores exactly that task in that queue; a failing one stores nothing |
| `ExtractDepartures.ExtractUrl` | src/extract_departures/main.py:22-23 | the URL is non-empty, starts with the pattern, ends with the stop id, and has a `/` right before the stop id |
| `ExtractDepartures.ExtractUrlJoinsOnce` | src/extract_departures/main.py:22-23 | the URL is the pattern minus one trailing `/`, then exactly one `/`, then the stop id |
| `ExtractDepartures.TrailingSlashIrrelevant` | src/extract_departures/main.py:22-23 | for a pattern `p` not ending in `/`, the patterns `p` and `p + "/"` give the same URL |
| `ExtractDepartures.FileName` | src/extract_departures/main.py:26-32 | the file name starts with the year's numeral and ends with `.json` |
| `ExtractDepartures.FileNameParts` | src/extract_departures/main.py:32 | the file name is year, `/`, a six-character `MM/DD/` part, the stop id, and a twelve-character `-hhmmss.json` part |
| `ExtractDepartures.DatePartInjective` | src/extract_departures/main.py:27-28 | the `MM/DD/` part determines month and day |
| `ExtractDepartures.ClockPartInjective` | src/extract_departures/main.py:29-31 | the `-hhmmss.json` part determines hour, minute and second |
| `ExtractDepartures.FileNameInjective` | src/extract_departures/main.py:26-32 | for valid times, equal file names mean the same stop id and the same time to the second; distinct (second, stop) pairs never share a name |
| `ExtractDepartures.FileNameIgnoresMicrosecond` | src/extract_departures/main.py:26-32 | the name is deterministic and has second resolution: times in the same clock second (same date, hour, minute and second, any microsecond) give the same name |
| `ExtractDepartures.GetContent` | src/extract_departures/main.py:11-13 | an empty URL yields `None` and no request; any other URL is fetched exactly once |
| `ExtractDepartures.ExtractionEffects` | src/extract_departures/main.py:43-46 | what a handler call that goes ahead does: a fetch of `ExtractUrl(pattern, halt_id)`, then an upload to the bucket at `FileName(now, halt_id)` whose content is exactly the fetched response |
| `ExtractDepartures.HandleRequest` | src/extract_departures/main.py:35-47 | a missing `bucket_name` (checked first) or `halt_id` raises before any effect. Otherwise it answers `'True'`. When either field is empty nothing happens. When both are non-empty, exactly one fetch of `ExtractUrl(pattern, halt_id)` is followed by exactly one upload of that response to `bucket_name` at `FileName(now, halt_id)` |
| `EnqueueHaltIds.SelectHaltIds` | src/enqueue_halt_ids/main.py:39 | the result holds exactly the `VGNKennung` of the rows whose `Betriebszweig` is `U-Bahn` (as a set, so repeats collapse). It fails exactly when a row lacks `Betriebszweig`, or an underground row lacks `VGNKennung`, and the failure is one of those two `KeyError`s |
| `EnqueueHaltIds.SelectHaltIdsFirstError` | src/enqueue_halt_ids/main.py:39 | a failing selection raises the `KeyError` of the first row that raises: every earlier row has the columns looked up, and that row lacks `Betriebszweig` (`KeyError('Betriebszweig')`) or is an underground row without `VGNKennung` (`KeyError('VGNKennung')`) |
| `EnqueueHaltIds.Parent` | src/enqueue_halt_ids/main.py:19 | the one parent queue path is computed from the configuration alone, so it is the same for every task, and it is a `projects/...` resource name |
| `EnqueueHaltIds.MakeTask` | src/enqueue_halt_ids/main.py:21-30 | the task for a stop is a POST to `EXTRACT_DEPARTURES_URL` under `SERVICE_ACCOUNT_EMAIL`, and its body has `bucket_name = BUCKET_NAME` and `halt_id =` that stop |
| `EnqueueHaltIds.TaskLog` | src/enqueue_halt_ids/main.py:20-31 | the queue effects of the loop: exactly one created task per stop id |
| `EnqueueHaltIds.TaskLogAt` | src/enqueue_halt_ids/main.py:19-31 | one task per stop, in order. Each is a POST to `EXTRACT_DEPARTURES_URL` with the configured service account, in the one queue path. Its body is `bucket_name = BUCKET_NAME` and `halt_id =` the stop at that position |
| `EnqueueHaltIds.TaskLogOfSet` | src/enqueue_halt_ids/main.py:39-40 | for the selected set there are exactly as many tasks as distinct ids, their `halt_id`s are pairwise distinct, and every id gets one |
| `EnqueueHaltIds.Enqueue` | src/enqueue_halt_ids/main.py:17-31 | if every `create_task` succeeds, the queue receives exactly the tasks of all ids in iteration order. If one fails, the tasks created are exactly those of a proper prefix of the ids, and none of the rest |
| `EnqueueHaltIds.HandleRequest` | src/enqueue_halt_ids/main.py:34-41 | a catalogue error raises before any task. Otherwise it enqueues in an order that enumerates the selected set, and answers `'True'` when every task was created. A creation failure leaves a prefix of the tasks |
| `BatchScript.GetDepartures` | main.py:8-11 | an empty stop id yields nothing and issues no request; any other fetches `https://start.vag.de/dm/api/v1/abfahrten/vgn/` followed by the id |
| `BatchScript.DeparturesUrl` | main.py:10 | the request URL is `https://start.vag.de/dm/api/v1/abfahrten/vgn/` followed by exactly the stop id |
| `BatchScript.VgnIds` | main.py:24 | the result holds exactly the non-empty `VGNKennung` values (as a set). It fails exactly when a row lacks the column, with `KeyError('VGNKennung')` |
| `BatchScript.BatchKey` | main.py:29 | the stop id sits at a position that depends only on the run's time, between the run prefix and suffix, and the key's length is their total |
| `BatchScript.BatchKeyParts` | main.py:26-29 | every key of one run is the same run prefix (year/month/day/hour/), then the stop id, then the same suffix (/microsecond.json) |
| `BatchScript.BatchKeyInjectiveInRun` | main.py:29 | within one run, distinct stop ids give distinct keys |
| `BatchScript.BatchKeyDecodes` | main.py:29 | across runs, equal keys mean the same stop id, year, month, day, hour and microsecond, even when a stop id contains `/` |
| `BatchScript.BatchKeyIgnoresMinuteAndSecond` | main.py:26-29 | minute and second are not part of the key, so runs that agree on year, month, day, hour and microsecond collide |
| `BatchScript.BatchLog` | main.py:28-32 | the effects of the upload loop: two per stop id, a fetch and an upload |
| `BatchScript.BatchLogAt` | main.py:28-32 | iteration `i` of the loop is one fetch of stop `i` and then one upload of exactly that response to `vgn-departures` under stop `i`'s key |
| `BatchScript.BatchUploadsOfSet` | main.py:24-32 | over an enumeration of the id set, entry `2i` of the log is the fetch of stop `i` and entry `2i + 1` the upload of exactly that response to `vgn-departures` under stop `i`'s key; every id of the set has such an upload, the log has two entries per distinct id, and no two uploads share a key |
| `BatchScript.BatchLogEntries` | main.py:28-32 | all iterations at once: for every `i`, entries `2i` and `2i + 1` are the fetch and the upload of stop `i` |
| `BatchScript.BatchKeysDistinct` | main.py:24-29 | the distinct ids of one run get pairwise distinct keys |
| `BatchScript.Run` | main.py:21-34 | a catalogue error raises before any effect. Otherwise the clock is read once and the loop covers an enumeration of the id set (index 1 to `len(vgn_ids)`). The log grows by exactly `BatchLog` of that order and the bodies fetched |

## Left out

- HTTP transport is not modelled (`requests.get`). A fetch is an effect whose body is arbitrary. Transport errors of fetches and uploads, and a missing bucket in `get_bucket`, are not modelled: the model lets these calls succeed. Of the service calls, only `create_task` may fail.
- Cloud.World.CreateTask: a failed call is taken to store nothing. A client-side error after the queue has committed the task is not modelled. In that case the stored tasks would be those of `haltIds[..k+1]`, not the proper prefix `haltIds[..k]` that `EnqueueHaltIds.Enqueue` states.
- The JSON and bytes encoding of a task body (`json.dumps(...).encode()`) is not modelled. The body is the record `TaskBody(bucket_name, halt_id)`.
- The Cloud Tasks client is not part of this model. `Cloud.QueuePath` writes out the documented `projects/…/locations/…/queues/…` resource name. The properties only use the fact that every task gets the same parent.
- Queue delivery, retries and redelivery are left out, because they belong to the queue service.
- Request parsing is left out (`functions_framework`, `request.get_json(force=True)`). JSON values that are not strings, and bodies that are not objects, are not modelled. The body is a `map<string, string>`.
- Reading the CSV files is left out: opening them, a missing file, and `csv.DictReader` filling short rows with `None`. The rows are a parameter.
- Reading `os.environ` and a missing variable at import time are left out. The values are parameters.
- The clock is left out. `datetime.now()` is a `DateTime` parameter. `DateTime.Valid` checks field ranges, not the number of days in each month.
- `print` is left out, including the batch script's progress message. The counter `index` it prints is kept as the loop variable.
- `app/test_main.py` is left out. It tests a web application that is not part of this model.
