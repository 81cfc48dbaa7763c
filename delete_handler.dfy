/**
 * The delete gateway function: it checks the request for both object URLs,
 * strips the bucket prefix from them, deletes the media record and then
 * both objects.
 */
module DeleteHandler {
  import opened Wrappers
  import opened Text
  import opened JsonValue
  import opened TableStore
  import opened MediaRecords
  import opened ObjectStore
  import opened HttpTrigger
  import MultiTagQuery

  const BucketPrefix := "oss://fit5225-a3/"

  /** The URL with the bucket prefix removed once, when it has it. */
  function StripPrefix(url: string): (key: string)
    ensures StartsWith(url, BucketPrefix) ==> url == BucketPrefix + key
    ensures !StartsWith(url, BucketPrefix) ==> key == url
  {
    if StartsWith(url, BucketPrefix) then url[|BucketPrefix|..] else url
  }

  /** The prefix is removed only once: a key that itself starts with it keeps it. */
  lemma StripPrefixOnce(key: string)
    ensures StripPrefix(BucketPrefix + key) == key
  {
    assert StartsWith(BucketPrefix + key, BucketPrefix) by {
      assert (BucketPrefix + key)[..|BucketPrefix|] == BucketPrefix;
    }
  }

  /** A JSON value as a table-store column value; containers have none. */
  function FromJson(j: Json): (v: Option<Value>)
    ensures v.Some? ==> MultiTagQuery.ToJson(v.value) == j
  {
    match j
    case JNull => Some(VNone)
    case JBool(b) => Some(VBool(b))
    case JInt(i) => Some(VInt(i))
    case JStr(s) => Some(VStr(s))
    case _ => None
  }

  /** `str(KeyError(name))`. */
  function KeyErrorText(name: string): string {
    "'" + name + "'"
  }

  function ErrorResponse(code: int, text: string): HttpOutcome {
    Http(code, Message("error", text))
  }

  /** What the handler does once the request is checked: answer, or delete this record and these objects. */
  datatype Plan =
    | Respond(outcome: HttpOutcome)
    | Remove(tableName: string, fileId: Value, timestamp: Value, ossKey: string, thumbnailKey: string)

  /** The arguments of `delete_media_record`, read from the request in order. */
  function PlanRemoval(fields: map<string, Json>, ossKey: string, thumbnailKey: string): Plan {
    if "table_name" !in fields then Respond(ErrorResponse(500, KeyErrorText("table_name")))
    else if "file_id" !in fields then Respond(ErrorResponse(500, KeyErrorText("file_id")))
    else if "timestamp" !in fields then Respond(ErrorResponse(500, KeyErrorText("timestamp")))
    else if !fields["table_name"].JStr? then
      Respond(ErrorResponse(500, DeleteFailure(ClientError("table_name must be a string"))))
    else match (FromJson(fields["file_id"]), FromJson(fields["timestamp"]))
      case (Some(fileId), Some(timestamp)) =>
        Remove(fields["table_name"].s, fileId, timestamp, ossKey, thumbnailKey)
      case _ => Respond(ErrorResponse(500, DeleteFailure(ClientError("unsupported primary key value type"))))
  }

  /**
   * The checks of `handler` before anything is deleted: the shared front,
   * the object-store configuration, `oss_url` and then `thumbnail_url`, each
   * answered 404 when missing and stripped of the bucket prefix.
   */
  function PlanDelete(event: string, codecs: Codecs, env: Env): Plan {
    match ReadRequest(event, codecs)
    case Stop(outcome) => Respond(outcome)
    case Parsed(body) =>
      if GetOssConfig(env).Err? then Respond(Crash("ValueError: " + GetOssConfig(env).msg))
      else match PyIn("oss_url", body)
        case None => Respond(Crash("TypeError: the body is not a container"))
        case Some(false) => Respond(ErrorResponse(404, "oss_url not found"))
        case Some(true) =>
          if !body.JObj? then Respond(Crash("TypeError: the body cannot be indexed by 'oss_url'"))
          else if !body.fields["oss_url"].JStr? then Respond(Crash("AttributeError: oss_url has no attribute 'startswith'"))
          else
            var ossKey := StripPrefix(body.fields["oss_url"].s);
            var fields := body.fields["oss_url" := JStr(ossKey)];
            if "thumbnail_url" !in fields then Respond(ErrorResponse(404, "thumbnail_url not found"))
            else if !fields["thumbnail_url"].JStr? then
              Respond(Crash("AttributeError: thumbnail_url has no attribute 'startswith'"))
            else
              var thumbnailKey := StripPrefix(fields["thumbnail_url"].s);
              PlanRemoval(fields["thumbnail_url" := JStr(thumbnailKey)], ossKey, thumbnailKey)
  }

  /**
   * `handler`: on a removal plan the record is deleted first; only when that
   * succeeds are the two objects deleted and 200 returned. Every other
   * outcome leaves the table and the bucket as they were.
   */
  method HandleDelete(event: string, codecs: Codecs, env: Env, store: Store, bucket: Bucket)
    returns (response: HttpOutcome)
    modifies store, bucket
    ensures var plan := PlanDelete(event, codecs, env);
      && (plan.Respond? ==> (response == plan.outcome
            && store.tables == old(store.tables) && bucket.objects == old(bucket.objects)))
      && (plan.Remove? ==>
            var err := CheckRequest(old(store.tables), plan.tableName, RecordKey(plan.fileId, plan.timestamp), ExpectExist);
            && (err.Some? ==> (response == ErrorResponse(500, DeleteFailure(err.value))
                  && store.tables == old(store.tables) && bucket.objects == old(bucket.objects)))
            && (err.None? ==> (response == Http(200, Message("message", "delete success"))
                  && store.tables == Delete(old(store.tables), plan.tableName, RecordKey(plan.fileId, plan.timestamp))
                  && bucket.objects == old(bucket.objects) - {plan.ossKey} - {plan.thumbnailKey})))
  {
    var plan := PlanDelete(event, codecs, env);
    if plan.Respond? {
      return plan.outcome;
    }
    var deleted := DeleteMediaRecord(store, plan.tableName, plan.fileId, plan.timestamp);
    if deleted.Err? {
      return ErrorResponse(500, deleted.msg);
    }
    bucket.DeleteObject(plan.ossKey);
    bucket.DeleteObject(plan.thumbnailKey);
    return Http(200, Message("message", "delete success"));
  }

  /** A request without `oss_url` is answered 404 whatever else it holds, and nothing is deleted. */
  lemma MissingOssUrl(event: string, codecs: Codecs, env: Env, fields: map<string, Json>)
    requires ReadRequest(event, codecs) == Parsed(JObj(fields)) && GetOssConfig(env).Ok?
    requires "oss_url" !in fields
    ensures PlanDelete(event, codecs, env) == Respond(ErrorResponse(404, "oss_url not found"))
  {
  }

  /** A request with `oss_url` but without `thumbnail_url` is answered 404, and nothing is deleted. */
  lemma MissingThumbnailUrl(event: string, codecs: Codecs, env: Env, fields: map<string, Json>, url: string)
    requires ReadRequest(event, codecs) == Parsed(JObj(fields)) && GetOssConfig(env).Ok?
    requires "oss_url" in fields && fields["oss_url"] == JStr(url) && "thumbnail_url" !in fields
    ensures PlanDelete(event, codecs, env) == Respond(ErrorResponse(404, "thumbnail_url not found"))
  {
  }

  /**
   * A complete request plans the deletion of the record it names and of the
   * two objects whose keys are the URLs without the bucket prefix.
   */
  lemma CompleteRequest(event: string, codecs: Codecs, env: Env, fields: map<string, Json>,
                        ossKey: string, thumbnailKey: string, tableName: string, fileId: string, timestamp: int)
    requires ReadRequest(event, codecs) == Parsed(JObj(fields)) && GetOssConfig(env).Ok?
    requires "oss_url" in fields && fields["oss_url"] == JStr(BucketPrefix + ossKey)
    requires "thumbnail_url" in fields && fields["thumbnail_url"] == JStr(BucketPrefix + thumbnailKey)
    requires "table_name" in fields && fields["table_name"] == JStr(tableName)
    requires "file_id" in fields && fields["file_id"] == JStr(fileId)
    requires "timestamp" in fields && fields["timestamp"] == JInt(timestamp)
    ensures PlanDelete(event, codecs, env) == Remove(tableName, VStr(fileId), VInt(timestamp), ossKey, thumbnailKey)
  {
    StripPrefixOnce(ossKey);
    StripPrefixOnce(thumbnailKey);
  }

  /** A request missing one of the record's key fields is answered 500 naming the first one missing. */
  lemma MissingRecordField(fields: map<string, Json>, ossKey: string, thumbnailKey: string)
    requires !("table_name" in fields && "file_id" in fields && "timestamp" in fields)
    ensures var name := if "table_name" !in fields then "table_name" else if "file_id" !in fields then "file_id" else "timestamp";
      PlanRemoval(fields, ossKey, thumbnailKey) == Respond(ErrorResponse(500, KeyErrorText(name)))
  {
  }
}
