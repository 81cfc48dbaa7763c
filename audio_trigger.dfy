/**
 * The function triggered by object-store events for audio uploads: it
 * recognises three event shapes, keeps the audio files among the objects
 * named, posts each one's URL to the audio-processing service and reports
 * one result per file.
 */
module AudioTrigger {
  import opened Wrappers
  import opened Text
  import opened JsonValue
  import Urls

  const AudioExtensions := [".wav", ".mp3", ".flac", ".aac", ".ogg", ".m4a"]

  /** `any(s.endswith(ext) for ext in exts)`. */
  function AnyEndsWith(s: string, exts: seq<string>): (b: bool)
    ensures b <==> exists i :: 0 <= i < |exts| && EndsWith(s, exts[i])
    decreases |exts|
  {
    if |exts| == 0 then false
    else EndsWith(s, exts[0]) || (assert forall i :: 0 < i < |exts| ==> exts[i] == exts[1..][i - 1]; AnyEndsWith(s, exts[1..]))
  }

  /** `is_audio_file`: the lower-cased key ends with one of the audio extensions. */
  predicate IsAudioFile(key: string) {
    AnyEndsWith(Lower(key), AudioExtensions)
  }

  lemma LowerIdempotent(s: string)
    ensures Lower(Lower(s)) == Lower(s)
  {
  }

  lemma LowerAppend(a: string, b: string)
    ensures Lower(a + b) == Lower(a) + Lower(b)
  {
  }

  /** The test is case-insensitive: a key and its lower-case form are alike. */
  lemma AudioFileCaseInsensitive(key: string)
    ensures IsAudioFile(Lower(key)) == IsAudioFile(key)
  {
    LowerIdempotent(key);
  }

  /** Any name whose extension is an audio extension in any letter case is an audio file. */
  lemma AudioExtensionIsAudio(name: string, ext: string)
    requires Lower(ext) in AudioExtensions
    ensures IsAudioFile(name + ext)
  {
    LowerAppend(name, ext);
    var s := Lower(name + ext);
    var i :| 0 <= i < |AudioExtensions| && AudioExtensions[i] == Lower(ext);
    assert s[|s| - |Lower(ext)|..] == Lower(ext);
    assert EndsWith(s, AudioExtensions[i]);
  }

  /** The trigger's event: raw bytes, or an already decoded value. */
  datatype TriggerEvent = RawBytes(bytes: seq<byte>) | Decoded(value: Json)

  /** What a POST to the audio service ends in: a reply (whose body may not be JSON), a timeout, or a request error. */
  datatype EcsReply = Replied(status: int, body: Result<Json>) | TimedOut | Failed(message: string)

  /** The audio service: the reply to a POST of a file URL. */
  type Ecs = string -> EcsReply

  /** A returned dictionary: status code and the value whose `json.dumps` is the body. */
  datatype Response = Response(statusCode: int, body: Json)

  function Obj2(k1: string, v1: Json, k2: string, v2: Json): Json {
    JObj(map[k1 := v1, k2 := v2])
  }

  function Obj3(k1: string, v1: Json, k2: string, v2: Json, k3: string, v3: Json): Json {
    JObj(map[k1 := v1, k2 := v2, k3 := v3])
  }

  /** An exception that escapes the dispatch: 500, "Internal server error". */
  function Unexpected(reason: string): Response {
    Response(500, Obj2("error", JStr("Internal server error"), "message", JStr("Unexpected error: " + reason)))
  }

  /** `unquote` of a JSON value: it must be a string. */
  function Unquote(codecs: Codecs, v: Json): Result<string> {
    if v.JStr? then Ok(codecs.unquote(v.s)) else Err("TypeError: a bytes-like object is required")
  }

  /** `entry['oss']['bucket']['name']` and `unquote(entry['oss']['object']['key'])`. */
  function Location(codecs: Codecs, entry: Json): Result<(Json, string)> {
    var oss := Index(entry, "oss");
    if oss.Err? then Err(oss.msg) else
    var bucket := Index(oss.value, "bucket");
    if bucket.Err? then Err(bucket.msg) else
    var name := Index(bucket.value, "name");
    if name.Err? then Err(name.msg) else
    var obj := Index(oss.value, "object");
    if obj.Err? then Err(obj.msg) else
    var key := Index(obj.value, "key");
    if key.Err? then Err(key.msg) else
    var unquoted := Unquote(codecs, key.value);
    if unquoted.Err? then Err(unquoted.msg) else
    Ok((name.value, unquoted.value))
  }

  /** What one entry of a batch leads to: nothing, a POST of this key's URL, or an exception. */
  datatype Item = Skip | Post(key: string, url: string) | Fail(reason: string)

  /** One entry of `events`, or one of `Records` already known to hold `oss`. */
  function EventItem(codecs: Codecs, entry: Json): (item: Item)
    ensures item.Post? ==> IsAudioFile(item.key)
  {
    match Location(codecs, entry)
    case Err(e) => Fail(e)
    case Ok((bucket, key)) =>
      if !IsAudioFile(key) then Skip else Post(key, Urls.FileUrl(Render(codecs, bucket), key))
  }

  /** One entry of `Records`: entries without `oss` are passed over. */
  function RecordItem(codecs: Codecs, record: Json): (item: Item)
    ensures item.Post? ==> IsAudioFile(item.key)
  {
    match PyIn("oss", record)
    case None => Fail("TypeError: the record is not a container")
    case Some(false) => Skip
    case Some(true) => EventItem(codecs, record)
  }

  function ItemOf(codecs: Codecs, entry: Json, records: bool): (item: Item)
    ensures item.Post? ==> IsAudioFile(item.key)
  {
    if records then RecordItem(codecs, entry) else EventItem(codecs, entry)
  }

  /** The result entry for one posted file. */
  function ResultEntry(key: string, reply: EcsReply): (entry: Json)
    ensures entry.JObj? && "file" in entry.fields && entry.fields["file"] == JStr(key)
    ensures "status" in entry.fields
    ensures entry.fields["status"] == JStr("success") <==> reply.Replied? && reply.status == 200 && reply.body.Ok?
  {
    var file := JStr(key);
    match reply
    case Replied(status, body) =>
      if status == 200 then
        match body
        case Ok(result) => Obj3("file", file, "status", JStr("success"), "result", result)
        // `response.json()` raises requests' JSONDecodeError, a RequestException.
        case Err(e) => Obj3("file", file, "status", JStr("error"), "error", JStr("Request error: " + e))
      else Obj3("file", file, "status", JStr("error"), "error", JStr("ECS service error: " + IntToString(status)))
    case TimedOut => Obj3("file", file, "status", JStr("error"), "error", JStr("ECS service timeout"))
    case Failed(m) => Obj3("file", file, "status", JStr("error"), "error", JStr("Request error: " + m))
  }

  /** The result list, the URLs posted, and the exception that ended the loop, if one did. */
  datatype Batch = Batch(results: seq<Json>, posted: seq<string>, failure: Option<string>)

  /** The batch loop over `entries`: an exception ends it, each posted file adds one result. */
  function RunBatch(codecs: Codecs, ecs: Ecs, entries: seq<Json>, records: bool): Batch
    decreases |entries|
  {
    if |entries| == 0 then Batch([], [], None)
    else
      var b := RunBatch(codecs, ecs, entries[..|entries| - 1], records);
      if b.failure.Some? then b
      else match ItemOf(codecs, entries[|entries| - 1], records)
        case Skip => b
        case Fail(reason) => b.(failure := Some(reason))
        case Post(key, url) => Batch(b.results + [ResultEntry(key, ecs(url))], b.posted + [url], None)
  }

  /** The files a batch posts, in entry order, when no entry raises. */
  function Posts(codecs: Codecs, entries: seq<Json>, records: bool): (ps: seq<Item>)
    ensures forall k :: 0 <= k < |ps| ==> ps[k].Post? && IsAudioFile(ps[k].key)
    decreases |entries|
  {
    if |entries| == 0 then []
    else
      var ps := Posts(codecs, entries[..|entries| - 1], records);
      var item := ItemOf(codecs, entries[|entries| - 1], records);
      if item.Post? then ps + [item] else ps
  }

  /**
   * One result per posted audio file, in entry order: its `file` is the key,
   * its status is "success" exactly when the service answered 200 with JSON,
   * and only audio files are posted.
   */
  lemma {:induction false} BatchResults(codecs: Codecs, ecs: Ecs, entries: seq<Json>, records: bool)
    requires RunBatch(codecs, ecs, entries, records).failure.None?
    ensures var b := RunBatch(codecs, ecs, entries, records);
      var ps := Posts(codecs, entries, records);
      && |b.results| == |ps| && |b.posted| == |ps|
      && forall k :: 0 <= k < |ps| ==> b.posted[k] == ps[k].url && b.results[k] == ResultEntry(ps[k].key, ecs(ps[k].url))
    decreases |entries|
  {
    if |entries| > 0 {
      var init := entries[..|entries| - 1];
      var b := RunBatch(codecs, ecs, init, records);
      assert b.failure.None?;
      BatchResults(codecs, ecs, init, records);
    }
  }

  /** `for entry in entries`: the loop with its early exit on an exception. */
  method BatchLoop(codecs: Codecs, ecs: Ecs, entries: seq<Json>, records: bool) returns (b: Batch)
    ensures b == RunBatch(codecs, ecs, entries, records)
  {
    var results: seq<Json> := [];
    var posted: seq<string> := [];
    var i := 0;
    while i < |entries|
      invariant 0 <= i <= |entries|
      invariant RunBatch(codecs, ecs, entries[..i], records) == Batch(results, posted, None)
    {
      assert entries[..i + 1][..i] == entries[..i];
      var item := ItemOf(codecs, entries[i], records);
      if item.Fail? {
        b := Batch(results, posted, Some(item.reason));
        assert RunBatch(codecs, ecs, entries[..i + 1], records) == b;
        RunBatchStops(codecs, ecs, entries, records, i + 1);
        return;
      }
      if item.Post? {
        var reply := ecs(item.url);
        results := results + [ResultEntry(item.key, reply)];
        posted := posted + [item.url];
      }
      i := i + 1;
    }
    assert entries[..i] == entries;
    b := Batch(results, posted, None);
  }

  /** Once an entry has raised, later entries change nothing. */
  lemma {:induction false} RunBatchStops(codecs: Codecs, ecs: Ecs, entries: seq<Json>, records: bool, n: nat)
    requires n <= |entries|
    requires RunBatch(codecs, ecs, entries[..n], records).failure.Some?
    ensures RunBatch(codecs, ecs, entries, records) == RunBatch(codecs, ecs, entries[..n], records)
    decreases |entries| - n
  {
    if n < |entries| {
      assert entries[..n + 1][..n] == entries[..n];
      RunBatchStops(codecs, ecs, entries, records, n + 1);
    } else {
      assert entries[..n] == entries;
    }
  }

  /** The answer to a batch: 200 with the results, or 500 when an entry raised. */
  function BatchResponse(b: Batch): Response {
    match b.failure
    case Some(reason) => Unexpected(reason)
    case None => Response(200, Obj2("message", JStr("Audio processing completed"), "results", JArr(b.results)))
  }

  /** The answer to the single-file test form, given the service's reply. */
  function TestResponse(reply: EcsReply): Response {
    match reply
    case Replied(status, body) =>
      if status == 200 then
        match body
        case Ok(result) => Response(200, Obj2("message", JStr("Audio processed successfully"), "result", result))
        case Err(e) => Response(500, Obj2("error", JStr("Request error"), "message", JStr("Failed to connect to ECS service: " + e)))
      else Response(status, Obj2("error", JStr("ECS service error: " + IntToString(status)),
                                 "details", JStr("Check function logs for more information")))
    case TimedOut => Response(408, Obj2("error", JStr("ECS service timeout"), "message", JStr("Request to ECS service timed out")))
    case Failed(m) => Response(500, Obj2("error", JStr("Request error"), "message", JStr("Failed to connect to ECS service: " + m)))
  }

  /** The event shapes, in the order `handler` tries them. */
  datatype Shape = Events(entries: seq<Json>) | TestForm(bucket: Json, key: string) | Records(entries: seq<Json>)
                 | Unsupported | Broken(reason: string)

  const NotContainer := "TypeError: the event is not a container"
  const StringIndex := "TypeError: string indices must be integers"

  /**
   * What the batch loop over `v` visits. A dictionary yields its keys, which
   * are strings: indexing one by 'oss' raises, and a record key raises only
   * when it contains "oss" (the `in` test is then a substring test), so the
   * outcome does not depend on the keys' order.
   */
  function BatchEntries(v: Json, records: bool): Result<seq<Json>> {
    if v.JObj? && v.fields != map[] then
      if !records || exists k :: k in v.fields && Contains(k, "oss") then Err(StringIndex) else Ok([])
    else match Iterate(v)
      case None => Err("TypeError: the value is not iterable")
      case Some(es) => Ok(es)
  }

  /** `event[field]` iterated as a batch. */
  function BatchShape(event: Json, field: string, records: bool): Shape {
    match Index(event, field)
    case Err(e) => Broken(e)
    case Ok(v) =>
      match BatchEntries(v, records)
      case Err(e) => Broken(e)
      case Ok(es) => if records then Records(es) else Events(es)
  }

  /** The test form: `event['bucket_name']`, `event['object_key']`, and `object_key.lower()`. */
  function TestShape(event: Json): Shape {
    match Index(event, "bucket_name")
    case Err(e) => Broken(e)
    case Ok(b) =>
      match Index(event, "object_key")
      case Err(e) => Broken(e)
      case Ok(k) => if k.JStr? then TestForm(b, k.s) else Broken("AttributeError: object_key has no attribute 'lower'")
  }

  /** The `if`/`elif` chain of `handler`, with `and` short-circuiting. */
  function ShapeOf(event: Json): Shape {
    var hasEvents := PyIn("events", event);
    if hasEvents.None? then Broken(NotContainer)
    else if hasEvents.value then BatchShape(event, "events", false)
    else if PyIn("bucket_name", event) == Some(true) && PyIn("object_key", event) == Some(true) then TestShape(event)
    else if PyIn("Records", event) == Some(true) then BatchShape(event, "Records", true)
    else Unsupported
  }

  /** The decoded event, or the 400 answer to bytes that are not UTF-8 JSON. */
  function DecodeEvent(codecs: Codecs, event: TriggerEvent): Result<Json> {
    match event
    case Decoded(v) => Ok(v)
    case RawBytes(bytes) =>
      match codecs.decodeUtf8(bytes)
      case Err(e) => Err(e)
      case Ok(text) => match codecs.loads(text) case Err(e) => Err(e) case Ok(v) => Ok(v)
  }

  function InvalidEvent(reason: string): Response {
    Response(400, Obj2("error", JStr("Invalid event format"), "message", JStr("Failed to decode bytes event: " + reason)))
  }

  const UnsupportedResponse := Response(400, Obj2("error", JStr("Unsupported event format"),
    "message", JStr("Event must contain either events, Records, or bucket_name/object_key fields")))

  /** `handler`, as a function of the event and the service's replies; also the URLs posted. */
  function Dispatch(codecs: Codecs, ecs: Ecs, event: TriggerEvent): (Response, seq<string>) {
    match DecodeEvent(codecs, event)
    case Err(e) => (InvalidEvent(e), [])
    case Ok(v) =>
      match ShapeOf(v)
      case Broken(reason) => (Unexpected(reason), [])
      case Unsupported => (UnsupportedResponse, [])
      case Events(es) => var b := RunBatch(codecs, ecs, es, false); (BatchResponse(b), b.posted)
      case Records(es) => var b := RunBatch(codecs, ecs, es, true); (BatchResponse(b), b.posted)
      case TestForm(bucket, key) =>
        if !IsAudioFile(key) then (Response(400, JObj(map["error" := JStr("Not an audio file")])), [])
        else var url := Urls.FileUrl(Render(codecs, bucket), key); (TestResponse(ecs(url)), [url])
  }

  /** `handler`: decode, dispatch on the event's shape, and run the batch loop for the two batch forms. */
  method Handle(codecs: Codecs, ecs: Ecs, event: TriggerEvent) returns (response: Response, posted: seq<string>)
    ensures (response, posted) == Dispatch(codecs, ecs, event)
  {
    var decoded := DecodeEvent(codecs, event);
    if decoded.Err? {
      return InvalidEvent(decoded.msg), [];
    }
    var shape := ShapeOf(decoded.value);
    match shape {
      case Broken(reason) =>
        return Unexpected(reason), [];
      case Unsupported =>
        return UnsupportedResponse, [];
      case Events(es) =>
        var b := BatchLoop(codecs, ecs, es, false);
        return BatchResponse(b), b.posted;
      case Records(es) =>
        var b := BatchLoop(codecs, ecs, es, true);
        return BatchResponse(b), b.posted;
      case TestForm(bucket, key) =>
        if !IsAudioFile(key) {
          return Response(400, JObj(map["error" := JStr("Not an audio file")])), [];
        }
        var url := Urls.FileUrl(Render(codecs, bucket), key);
        return TestResponse(ecs(url)), [url];
    }
  }

  /** Bytes that are not UTF-8, or not JSON, are answered 400 and nothing is posted. */
  lemma UndecodableBytes(codecs: Codecs, ecs: Ecs, bytes: seq<byte>)
    requires codecs.decodeUtf8(bytes).Err? || codecs.loads(codecs.decodeUtf8(bytes).value).Err?
    ensures Dispatch(codecs, ecs, RawBytes(bytes)).0.statusCode == 400
    ensures Dispatch(codecs, ecs, RawBytes(bytes)).1 == []
  {
  }

  /** `events` is tried first: an event holding it is a batch, whatever else it holds. */
  lemma EventsFirst(event: map<string, Json>, es: seq<Json>)
    requires "events" in event && event["events"] == JArr(es)
    ensures ShapeOf(JObj(event)) == Events(es)
  {
  }

  /** Without `events`, the test form is tried before `Records`: an event holding both is a test event. */
  lemma TestFormBeforeRecords(event: map<string, Json>, bucket: Json, key: string, rs: seq<Json>)
    requires "events" !in event
    requires "Records" in event && event["Records"] == JArr(rs)
    requires "bucket_name" in event && event["bucket_name"] == bucket
    requires "object_key" in event && event["object_key"] == JStr(key)
    ensures ShapeOf(JObj(event)) == TestForm(bucket, key)
  {
  }

  /** An event with none of the three shapes' fields is answered 400. */
  lemma UnsupportedShape(codecs: Codecs, ecs: Ecs, event: map<string, Json>)
    requires "events" !in event && "Records" !in event && !("bucket_name" in event && "object_key" in event)
    ensures Dispatch(codecs, ecs, Decoded(JObj(event))) == (UnsupportedResponse, [])
  {
  }

  /**
   * A batch in which no entry raises is answered 200, with one result per
   * audio file posted, in entry order.
   */
  lemma BatchAnswered(codecs: Codecs, ecs: Ecs, event: Json, es: seq<Json>, records: bool)
    requires ShapeOf(event) == (if records then Records(es) else Events(es))
    requires RunBatch(codecs, ecs, es, records).failure.None?
    ensures var (response, posted) := Dispatch(codecs, ecs, Decoded(event));
      var ps := Posts(codecs, es, records);
      && response.statusCode == 200
      && response.body.JObj? && "results" in response.body.fields
      && response.body.fields["results"].JArr? && |response.body.fields["results"].items| == |ps|
      && |posted| == |ps|
      && forall k :: 0 <= k < |ps| ==>
           (IsAudioFile(ps[k].key) && posted[k] == ps[k].url
            && response.body.fields["results"].items[k] == ResultEntry(ps[k].key, ecs(ps[k].url)))
  {
    BatchResults(codecs, ecs, es, records);
  }

  /** In the batch forms the key is URL-decoded before it is tested and posted. */
  lemma BatchKeyUnquoted(codecs: Codecs, entry: Json, bucket: Json, rawKey: string)
    requires entry == JObj(map["oss" := JObj(map["bucket" := JObj(map["name" := bucket]),
                                                 "object" := JObj(map["key" := JStr(rawKey)])])])
    requires IsAudioFile(codecs.unquote(rawKey))
    ensures EventItem(codecs, entry) == Post(codecs.unquote(rawKey), Urls.FileUrl(Render(codecs, bucket), codecs.unquote(rawKey)))
  {
  }

  /**
   * The test form posts the key as given, without URL-decoding; a non-audio
   * key is answered 400, a timeout 408, and any other status than 200 is
   * passed on as the answer's status.
   */
  lemma TestFormAnswers(codecs: Codecs, ecs: Ecs, event: Json, bucket: Json, key: string)
    requires ShapeOf(event) == TestForm(bucket, key)
    ensures var (response, posted) := Dispatch(codecs, ecs, Decoded(event));
      var url := Urls.FileUrl(Render(codecs, bucket), key);
      && (!IsAudioFile(key) ==> response.statusCode == 400 && posted == [])
      && (IsAudioFile(key) ==>
            (posted == [url]
             && (ecs(url) == TimedOut ==> response.statusCode == 408)
             && (ecs(url).Replied? && ecs(url).status != 200 ==> response.statusCode == ecs(url).status)
             && (ecs(url).Replied? && ecs(url).status == 200 && ecs(url).body.Ok? ==> response.statusCode == 200)))
  {
  }
}
