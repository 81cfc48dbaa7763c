/**
 * The upload gateway function: it checks that the request names a file and
 * carries its content in base64, and stores the decoded bytes under
 * `raw/<file_name>`.
 */
module UploadHandler {
  import opened Wrappers
  import opened JsonValue
  import opened Base64
  import opened ObjectStore
  import opened HttpTrigger

  const RequiredFields := ["file_name", "file_content_base64"]

  /**
   * The first required field the body lacks, checked in order with `in`:
   * Some(Some(field)) when one is missing, Some(None) when all are there,
   * None when `in` raises.
   */
  function FirstMissing(body: Json, fields: seq<string>): Option<Option<string>>
    decreases |fields|
  {
    if |fields| == 0 then Some(None)
    else match PyIn(fields[0], body)
      case None => None
      case Some(false) => Some(Some(fields[0]))
      case Some(true) => FirstMissing(body, fields[1..])
  }

  /** The 400 answer naming a missing field. */
  function NotFound(field: string): HttpOutcome {
    Http(400, Message("error", field + " not found"))
  }

  /** The key the object is stored under. */
  function ObjectKey(codecs: Codecs, fileName: Json): string {
    "raw/" + Render(codecs, fileName)
  }

  function UploadedUrl(key: string): string {
    "oss://fit5225-a3/" + key
  }

  /** What the handler does once the request is checked: answer, or put these bytes under this key. */
  datatype Plan = Respond(outcome: HttpOutcome) | Store(key: string, data: seq<byte>)

  /** The rest of `handler` once the required fields are known to be there. */
  function PlanStore(codecs: Codecs, env: Env, body: Json): Plan {
    if GetOssConfig(env).Err? then Respond(Crash("ValueError: " + GetOssConfig(env).msg))
    else match Field(body, "file_name")
      case None => Respond(Crash("TypeError: the body cannot be indexed by 'file_name'"))
      case Some(fileName) =>
        var key := ObjectKey(codecs, fileName);
        match Field(body, "file_content_base64")
        case None => Respond(Http(500, Message("error", "'file_content_base64'")))
        case Some(content) =>
          if !content.JStr? then
            Respond(Http(500, Message("error", "argument should be a bytes-like object or ASCII string")))
          else match DecodeLenient(content.s)
            case Err(e) => Respond(Http(500, Message("error", e)))
            case Ok(data) => Store(key, data)
  }

  /** The checks of `handler`: the shared front, then the required fields in order. */
  function PlanUpload(event: string, codecs: Codecs, env: Env): Plan {
    match ReadRequest(event, codecs)
    case Stop(outcome) => Respond(outcome)
    case Parsed(body) =>
      match FirstMissing(body, RequiredFields)
      case None => Respond(Crash("TypeError: the body is not a container"))
      case Some(Some(field)) => Respond(NotFound(field))
      case Some(None) => PlanStore(codecs, env, body)
  }

  /**
   * `handler`: the loop over the required fields, then the upload. Nothing
   * is written unless the request is complete and its content decodes; a
   * successful upload answers with the object's `oss://` URL.
   */
  method HandleUpload(event: string, codecs: Codecs, env: Env, bucket: Bucket) returns (response: HttpOutcome)
    modifies bucket
    ensures var plan := PlanUpload(event, codecs, env);
      && (plan.Respond? ==> response == plan.outcome && bucket.objects == old(bucket.objects))
      && (plan.Store? ==> (bucket.objects == old(bucket.objects)[plan.key := plan.data]
            && response == Http(200, JObj(map["message" := JStr("upload success"),
                                              "oss_url" := JStr(UploadedUrl(plan.key))]))))
  {
    var front := ReadRequest(event, codecs);
    if front.Stop? {
      return front.outcome;
    }
    var body := front.body;
    var i := 0;
    while i < |RequiredFields|
      invariant 0 <= i <= |RequiredFields|
      invariant FirstMissing(body, RequiredFields) == FirstMissing(body, RequiredFields[i..])
    {
      var field := RequiredFields[i];
      var present := PyIn(field, body);
      if present.None? {
        return Crash("TypeError: the body is not a container");
      }
      if !present.value {
        return NotFound(field);
      }
      assert RequiredFields[i..][1..] == RequiredFields[i + 1..];
      i := i + 1;
    }
    var plan := PlanStore(codecs, env, body);
    if plan.Respond? {
      return plan.outcome;
    }
    bucket.PutObject(plan.key, plan.data);
    return Http(200, JObj(map["message" := JStr("upload success"), "oss_url" := JStr(UploadedUrl(plan.key))]));
  }

  /** `file_name` is checked before `file_content_base64`: a body lacking both is answered about `file_name`. */
  lemma FileNameCheckedFirst(event: string, codecs: Codecs, env: Env, fields: map<string, Json>)
    requires ReadRequest(event, codecs) == Parsed(JObj(fields)) && "file_name" !in fields
    ensures PlanUpload(event, codecs, env) == Respond(NotFound("file_name"))
  {
    assert RequiredFields[0] == "file_name";
  }

  /**
   * A complete request whose content is the base64 encoding of some bytes
   * stores exactly those bytes under `raw/` + the file name, so two uploads
   * of the same name target the same key.
   */
  lemma CompleteUpload(event: string, codecs: Codecs, env: Env, fields: map<string, Json>, name: string, data: seq<byte>)
    requires ReadRequest(event, codecs) == Parsed(JObj(fields)) && GetOssConfig(env).Ok?
    requires "file_name" in fields && fields["file_name"] == JStr(name)
    requires "file_content_base64" in fields && fields["file_content_base64"] == JStr(Encode(data))
    ensures PlanUpload(event, codecs, env) == Store("raw/" + name, data)
  {
    CompleteFields(event, codecs, env, fields);
    DecodeLenientEncode(data);
  }

  /** Content that does not decode is answered 500 with the decoder's message, and nothing is stored. */
  lemma UndecodableContent(event: string, codecs: Codecs, env: Env, fields: map<string, Json>, content: string)
    requires ReadRequest(event, codecs) == Parsed(JObj(fields)) && GetOssConfig(env).Ok?
    requires "file_name" in fields
    requires "file_content_base64" in fields && fields["file_content_base64"] == JStr(content)
    requires DecodeLenient(content).Err?
    ensures PlanUpload(event, codecs, env) == Respond(Http(500, Message("error", DecodeLenient(content).msg)))
  {
    CompleteFields(event, codecs, env, fields);
    assert Field(JObj(fields), "file_content_base64") == Some(JStr(content));
  }

  /** With both required fields present the handler goes on to the upload. */
  lemma CompleteFields(event: string, codecs: Codecs, env: Env, fields: map<string, Json>)
    requires ReadRequest(event, codecs) == Parsed(JObj(fields))
    requires "file_name" in fields && "file_content_base64" in fields
    ensures PlanUpload(event, codecs, env) == PlanStore(codecs, env, JObj(fields))
  {
    assert RequiredFields[1..][1..] == [];
    assert FirstMissing(JObj(fields), RequiredFields) == Some(None);
  }
}
