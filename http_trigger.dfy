/**
 * What the three HTTP-triggered gateway functions (query, delete, upload)
 * share: the outcome of a call, and the way each reads its request body out
 * of the trigger's event.
 */
module HttpTrigger {
  import opened Wrappers
  import opened JsonValue
  import opened Base64

  /**
   * What a handler call ends in: a plain string returned to the caller, an
   * exception that escapes the handler, or an HTTP response whose body is
   * `json.dumps(body)` (the constant headers are not modelled).
   */
  datatype HttpOutcome = Text(message: string) | Crash(reason: string) | Http(statusCode: int, body: Json)

  const NotJsonPrefix := "The request did not come from an HTTP Trigger because the event is not a json string, event: "
  const NoBodyPrefix := "The request did not come from an HTTP Trigger because the event does not include the 'body' field, event: "

  /** The request body, or the outcome that ends the call before it is read. */
  datatype Front = Parsed(body: Json) | Stop(outcome: HttpOutcome)

  /** `event_json['isBase64Encoded']` is present and truthy. */
  predicate Base64Flag(fields: map<string, Json>) {
    "isBase64Encoded" in fields && Truthy(fields["isBase64Encoded"])
  }

  /** `json.loads` of the body text, which must be a string. */
  function ParseBody(codecs: Codecs, text: Json): Front {
    if !text.JStr? then Stop(Crash("TypeError: the JSON object must be str, bytes or bytearray"))
    else match codecs.loads(text.s)
      case Err(e) => Stop(Crash("JSONDecodeError: " + e))
      case Ok(j) => Parsed(j)
  }

  /**
   * The shared front of the gateway handlers: parse the event; it must hold
   * `body`; when `isBase64Encoded` is set, the body is base64-decoded and read
   * as UTF-8 before it is parsed as JSON. Only the two checks on the event
   * return a string; every other failure is an exception.
   */
  function ReadRequest(event: string, codecs: Codecs): (f: Front)
    ensures codecs.loads(event).Err? ==> f == Stop(Text(NotJsonPrefix + event))
    ensures codecs.loads(event).Ok? && codecs.loads(event).value.JObj? && "body" !in codecs.loads(event).value.fields
            ==> f == Stop(Text(NoBodyPrefix + event))
    ensures f.Stop? ==> !f.outcome.Http?
  {
    match codecs.loads(event)
    case Err(_) => Stop(Text(NotJsonPrefix + event))
    case Ok(eventJson) =>
      match PyIn("body", eventJson)
      case None => Stop(Crash("TypeError: the event is not a container"))
      case Some(false) => Stop(Text(NoBodyPrefix + event))
      case Some(true) =>
        match Field(eventJson, "body")
        case None => Stop(Crash("TypeError: the event cannot be indexed by 'body'"))
        case Some(body) =>
          if !Base64Flag(eventJson.fields) then ParseBody(codecs, body)
          else if !body.JStr? then Stop(Crash("TypeError: argument should be a bytes-like object or ASCII string"))
          else match DecodeLenient(body.s)
            case Err(e) => Stop(Crash("binascii.Error: " + e))
            case Ok(bytes) =>
              match codecs.decodeUtf8(bytes)
              case Err(e) => Stop(Crash("UnicodeDecodeError: " + e))
              case Ok(text) => ParseBody(codecs, JStr(text))
  }

  /** A body sent as plain JSON text is parsed as it is. */
  lemma PlainBody(event: string, codecs: Codecs, fields: map<string, Json>, text: string, body: Json)
    requires codecs.loads(event) == Ok(JObj(fields))
    requires "body" in fields && fields["body"] == JStr(text) && !Base64Flag(fields)
    requires codecs.loads(text) == Ok(body)
    ensures ReadRequest(event, codecs) == Parsed(body)
  {
  }

  /**
   * A body flagged `isBase64Encoded` is decoded before it is parsed: the
   * base64 encoding of the UTF-8 bytes of a JSON text reads as that JSON.
   */
  lemma Base64Body(event: string, codecs: Codecs, fields: map<string, Json>, bytes: seq<byte>, text: string, body: Json)
    requires codecs.loads(event) == Ok(JObj(fields))
    requires "body" in fields && fields["body"] == JStr(Encode(bytes)) && Base64Flag(fields)
    requires codecs.decodeUtf8(bytes) == Ok(text) && codecs.loads(text) == Ok(body)
    ensures ReadRequest(event, codecs) == Parsed(body)
  {
    DecodeLenientEncode(bytes);
  }
}
