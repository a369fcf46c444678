/** The outside world the handlers talk to, reduced to a log of the effects they
    cause: HTTP fetches, object uploads to blob storage and task creations in a
    task queue. The clock is a parameter of type `DateTime`. */
module Cloud {
  import opened Outcomes

  /** A reading of Python's `datetime.now()`. */
  datatype DateTime = DateTime(
    year: nat, month: nat, day: nat,
    hour: nat, minute: nat, second: nat, microsecond: nat)
  {
    /** The ranges Python's `datetime` guarantees for its fields. */
    predicate Valid() {
      1 <= year <= 9999 && 1 <= month <= 12 && 1 <= day <= 31 &&
      hour < 24 && minute < 60 && second < 60 && microsecond < 1000000
    }
  }

  datatype HttpMethod = POST

  /** The JSON object `{"bucket_name": ..., "halt_id": ...}` a task carries. */
  datatype TaskBody = TaskBody(bucketName: string, haltId: string)

  /** An HTTP-target task: method, target URL, body and OIDC service account. */
  datatype Task = Task(
    httpMethod: HttpMethod, url: string, body: TaskBody, serviceAccountEmail: string)

  datatype Effect =
    | Fetched(url: string, response: string)                        // one HTTP GET and its body
    | Uploaded(bucket: string, key: string, content: Option<string>) // one object written
    | TaskCreated(parent: string, task: Task)                        // one task stored in a queue

  /** A catalogue row: column name to cell text. */
  type Row = map<string, string>

  /** The resource name of a Cloud Tasks queue. */
  function QueuePath(project: string, location: string, queue: string): (path: string)
    ensures |path| >= 9 && path[..9] == "projects/"
    ensures |path| >= |queue| + 8 && path[|path| - |queue| - 8..] == "/queues/" + queue
  {
    "projects/" + project + "/locations/" + location + "/queues/" + queue
  }

  /** The services, seen through what has been done to them so far. */
  class World {
    var log: seq<Effect>

    constructor ()
      ensures log == []
    {
      log := [];
    }

    /** `requests.get(url).text`: the body is whatever the server answers. */
    method HttpGet(url: string) returns (text: string)
      modifies this
      ensures log == old(log) + [Fetched(url, text)]
    {
      text := *;
      log := log + [Fetched(url, text)];
    }

    /** `upload_to_cloud_storage`: `bucket.blob(key).upload_from_string(content)`. */
    method Upload(bucket: string, key: string, content: Option<string>)
      modifies this
      ensures log == old(log) + [Uploaded(bucket, key, content)]
    {
      log := log + [Uploaded(bucket, key, content)];
    }

    /** `client.create_task(...)`: either the queue stores the task, or the call
        raises and nothing is stored. */
    method CreateTask(parent: string, task: Task) returns (ok: bool)
      modifies this
      ensures ok ==> log == old(log) + [TaskCreated(parent, task)]
      ensures !ok ==> log == old(log)
    {
      ok := *;
      if ok {
        log := log + [TaskCreated(parent, task)];
      }
    }
  }
}
