/** The per-stop extraction handler: build the departure URL of one stop, fetch it
    and store the answer under a key derived from the current time. */
module ExtractDepartures {
  import opened Outcomes
  import opened Text
  import opened Cloud

  predicate EndsWithSlash(s: string) {
    |s| > 0 && s[|s| - 1] == '/'
  }

  /** `generate_extract_url`: joins the configured URL pattern and the stop id,
      adding a `/` only when the pattern does not already end with one. */
  function ExtractUrl(pattern: string, haltId: string): (url: string)
    ensures |url| > 0
    ensures |pattern| <= |url| && url[..|pattern|] == pattern
    ensures |haltId| < |url| && url[|url| - |haltId|..] == haltId
    ensures url[|url| - |haltId| - 1] == '/'
  {
    if EndsWithSlash(pattern) then pattern + haltId else pattern + "/" + haltId
  }

  /** The pattern with one trailing `/` taken off, if it has one. */
  function BaseOf(pattern: string): string {
    if EndsWithSlash(pattern) then pattern[..|pattern| - 1] else pattern
  }

  /** The URL is the base, exactly one joining `/`, then the stop id. */
  lemma ExtractUrlJoinsOnce(pattern: string, haltId: string)
    ensures ExtractUrl(pattern, haltId) == BaseOf(pattern) + "/" + haltId
  {
    if EndsWithSlash(pattern) {
      assert pattern == BaseOf(pattern) + "/";
    }
  }

  /** A pattern that does not end in `/` gives the same URL with and without an
      added trailing `/`. */
  lemma TrailingSlashIrrelevant(pattern: string, haltId: string)
    requires !EndsWithSlash(pattern)
    ensures ExtractUrl(pattern + "/", haltId) == ExtractUrl(pattern, haltId)
  {
    ExtractUrlJoinsOnce(pattern + "/", haltId);
    assert BaseOf(pattern + "/") == pattern;
  }

  /** `generate_file_name`: `{year}/{MM}/{DD}/{halt_id}-{hhmmss}.json`, every field
      but the year padded to two characters by `Pad2`. */
  function FileName(now: DateTime, haltId: string): (name: string)
    ensures |NatToString(now.year)| < |name| && name[..|NatToString(now.year)|] == NatToString(now.year)
    ensures |name| >= 5 && name[|name| - 5..] == ".json"
  {
    NatToString(now.year) + "/" + Pad2(now.month) + "/" + Pad2(now.day) + "/" +
    haltId + "-" + Pad2(now.hour) + Pad2(now.minute) + Pad2(now.second) + ".json"
  }

  /** The instant `now` at the resolution of the file name. */
  function ToSecond(now: DateTime): DateTime {
    now.(microsecond := 0)
  }

  /** Readings in the same clock second (same date, hour, minute and second) give
      the same file name: a second call for the same stop then overwrites the first
      object. */
  lemma FileNameIgnoresMicrosecond(t1: DateTime, t2: DateTime, haltId: string)
    requires ToSecond(t1) == ToSecond(t2)
    ensures FileName(t1, haltId) == FileName(t2, haltId)
  {
  }

  /** The month and day of a file name, each followed by its `/`. */
  function DatePart(now: DateTime): string {
    Pad2(now.month) + "/" + Pad2(now.day) + "/"
  }

  /** The clock part of a file name and its extension, after the stop id. */
  function ClockPart(now: DateTime): string {
    "-" + Pad2(now.hour) + Pad2(now.minute) + Pad2(now.second) + ".json"
  }

  /** A file name splits into the year, `/`, a six-character date part, the stop id
      and a twelve-character clock part. */
  lemma FileNameParts(now: DateTime, haltId: string)
    ensures FileName(now, haltId) == NatToString(now.year) + "/" + (DatePart(now) + (haltId + ClockPart(now)))
    ensures |DatePart(now)| == 6 && |ClockPart(now)| == 12
  {
    var year, date, clock := NatToString(now.year), DatePart(now), ClockPart(now);
    var m, d := Pad2(now.month), Pad2(now.day);
    var h, mi, se := Pad2(now.hour), Pad2(now.minute), Pad2(now.second);
    var upToStop := year + "/" + m + "/" + d + "/" + haltId;
    assert upToStop == year + "/" + date + haltId;
    assert FileName(now, haltId) == upToStop + "-" + h + mi + se + ".json";
    assert upToStop + "-" + h + mi + se + ".json" == upToStop + clock;
    assert year + "/" + date + haltId + clock == year + "/" + (date + (haltId + clock));
  }

  /** The date part determines month and day. */
  lemma DatePartInjective(t1: DateTime, t2: DateTime)
    requires t1.month <= 99 && t1.day <= 99 && t2.month <= 99 && t2.day <= 99
    requires DatePart(t1) == DatePart(t2)
    ensures t1.month == t2.month && t1.day == t2.day
  {
    Pad2Digits(t1.month); Pad2Digits(t1.day); Pad2Digits(t2.month); Pad2Digits(t2.day);
    var m1, d1, m2, d2 := Pad2(t1.month), Pad2(t1.day), Pad2(t2.month), Pad2(t2.day);
    assert DatePart(t1) == m1 + ("/" + d1 + "/");
    assert DatePart(t2) == m2 + ("/" + d2 + "/");
    CancelHeads(m1, "/" + d1 + "/", m2, "/" + d2 + "/");
    CancelTails("/" + d1, "/", "/" + d2, "/");
    CancelHeads("/", d1, "/", d2);
    Pad2Injective(t1.month, t2.month);
    Pad2Injective(t1.day, t2.day);
  }

  /** The clock part determines hour, minute and second. */
  lemma ClockPartInjective(t1: DateTime, t2: DateTime)
    requires t1.hour <= 99 && t1.minute <= 99 && t1.second <= 99
    requires t2.hour <= 99 && t2.minute <= 99 && t2.second <= 99
    requires ClockPart(t1) == ClockPart(t2)
    ensures t1.hour == t2.hour && t1.minute == t2.minute && t1.second == t2.second
  {
    Pad2Digits(t1.hour); Pad2Digits(t1.minute); Pad2Digits(t1.second);
    Pad2Digits(t2.hour); Pad2Digits(t2.minute); Pad2Digits(t2.second);
    var h1, m1, s1 := Pad2(t1.hour), Pad2(t1.minute), Pad2(t1.second);
    var h2, m2, s2 := Pad2(t2.hour), Pad2(t2.minute), Pad2(t2.second);
    assert ClockPart(t1) == "-" + (h1 + m1 + s1) + ".json";
    assert ClockPart(t2) == "-" + (h2 + m2 + s2) + ".json";
    CancelTails("-" + (h1 + m1 + s1), ".json", "-" + (h2 + m2 + s2), ".json");
    CancelHeads("-", h1 + m1 + s1, "-", h2 + m2 + s2);
    CancelTails(h1 + m1, s1, h2 + m2, s2);
    CancelTails(h1, m1, h2, m2);
    Pad2Injective(t1.hour, t2.hour);
    Pad2Injective(t1.minute, t2.minute);
    Pad2Injective(t1.second, t2.second);
  }

  /** Distinct (second-resolution time, stop id) pairs give distinct file names. */
  lemma FileNameInjective(t1: DateTime, h1: string, t2: DateTime, h2: string)
    requires t1.Valid() && t2.Valid()
    requires FileName(t1, h1) == FileName(t2, h2)
    ensures ToSecond(t1) == ToSecond(t2) && h1 == h2
  {
    var y1, y2 := NatToString(t1.year), NatToString(t2.year);
    var rest1, rest2 := DatePart(t1) + (h1 + ClockPart(t1)), DatePart(t2) + (h2 + ClockPart(t2));
    FileNameParts(t1, h1);
    FileNameParts(t2, h2);
    // the year ends at the first '/'
    NoSeparatorInNumeral(y1, '/');
    NoSeparatorInNumeral(y2, '/');
    SplitAtSeparator(y1, rest1, y2, rest2, '/');
    NatToStringInjective(t1.year, t2.year);
    // the date and clock parts have fixed width, so the stop id lies between them
    CancelHeads(DatePart(t1), h1 + ClockPart(t1), DatePart(t2), h2 + ClockPart(t2));
    CancelTails(h1, ClockPart(t1), h2, ClockPart(t2));
    DatePartInjective(t1, t2);
    ClockPartInjective(t1, t2);
  }

  /** `get_content`: an empty URL yields `None` and no request. */
  method GetContent(world: World, url: string) returns (content: Option<string>)
    modifies world
    ensures url == "" ==> content == None && world.log == old(world.log)
    ensures url != "" ==> content.Some? && world.log == old(world.log) + [Fetched(url, content.value)]
  {
    if url == "" {
      content := None;
    } else {
      var text := world.HttpGet(url);
      content := Some(text);
    }
  }

  /** What one extraction does when it goes ahead: one fetch of the stop's URL, then
      one upload of exactly that response to the bucket under the file name. */
  function ExtractionEffects(pattern: string, bucket: string, haltId: string, now: DateTime,
                             response: string): (effects: seq<Effect>)
    ensures |effects| == 2 && effects[0].Fetched? && effects[1].Uploaded?
    ensures effects[0].url == ExtractUrl(pattern, haltId)
    ensures effects[1].bucket == bucket && effects[1].key == FileName(now, haltId)
    ensures effects[1].content == Some(effects[0].response)
  {
    [Fetched(ExtractUrl(pattern, haltId), response),
     Uploaded(bucket, FileName(now, haltId), Some(response))]
  }

  /** Both request fields are present and non-empty. */
  predicate GoesAhead(request: map<string, string>) {
    "bucket_name" in request && "halt_id" in request &&
    request["halt_id"] != "" && request["bucket_name"] != ""
  }

  /** The HTTP handler `main`: reads `bucket_name` and `halt_id` from the JSON body
      (a missing field raises before anything happens), and when both are non-empty
      fetches the stop's departures and stores them; it answers `'True'` either way. */
  method HandleRequest(world: World, pattern: string, request: map<string, string>, now: DateTime)
    returns (r: Result<string>)
    modifies world
    ensures "bucket_name" !in request ==>
      r == Err(KeyError("bucket_name")) && world.log == old(world.log)
    ensures "bucket_name" in request && "halt_id" !in request ==>
      r == Err(KeyError("halt_id")) && world.log == old(world.log)
    ensures "bucket_name" in request && "halt_id" in request ==> r == Ok("True")
    ensures "bucket_name" in request && "halt_id" in request && !GoesAhead(request) ==>
      world.log == old(world.log)
    ensures GoesAhead(request) ==>
      exists response :: world.log == old(world.log) +
        ExtractionEffects(pattern, request["bucket_name"], request["halt_id"], now, response)
  {
    if "bucket_name" !in request {
      return Err(KeyError("bucket_name"));
    }
    var bucketName := request["bucket_name"];
    if "halt_id" !in request {
      return Err(KeyError("halt_id"));
    }
    var haltId := request["halt_id"];
    if haltId != "" && bucketName != "" {
      var extractUrl := ExtractUrl(pattern, haltId);
      var fileName := FileName(now, haltId);
      var departures := GetContent(world, extractUrl);
      world.Upload(bucketName, fileName, departures);
      assert world.log == old(world.log) +
        ExtractionEffects(pattern, bucketName, haltId, now, departures.value);
    }
    return Ok("True");
  }
}
