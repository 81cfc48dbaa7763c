/**
 * The function triggered by image uploads: it checks the uploaded object's
 * extension, downloads it, has the detector service tag it, stores the
 * thumbnail the detector returns, writes the media record, and removes its
 * local copies.
 */
module ImageHandler {
  import opened Wrappers
  import opened Text
  import opened JsonValue
  import Base64
  import ObjectStore
  import opened TableStore
  import MediaRecords
  import Detector

  const AllowedExtensions := [".jpg", ".jpeg", ".png"]

  /** How the handler's message writes the allowed extensions: `str` of the list. */
  const AllowedText := "['.jpg', '.jpeg', '.png']"

  const EventFormatError := "OSS event format error: 'events[0].oss.object' not found"

  /** The handler's answer: `code`, `msg` and `data`. */
  datatype ImageResponse = ImageResponse(code: int, msg: string, data: Json)

  /** Any exception: code 500, the message prefixed, no data. */
  function Failure(reason: string): ImageResponse {
    ImageResponse(500, "Processing failed: " + reason, JObj(map[]))
  }

  // ---------------------------------------------------------------- the event

  /** A step of `event_data["events"][0]["oss"]["object"]`: a value, a KeyError, or another exception. */
  datatype Lookup = Found(value: Json) | KeyMissing | Raised(reason: string)

  /** `v[key]` for a string key. */
  function Key(l: Lookup, key: string): Lookup {
    match l
    case Found(v) =>
      if v.JObj? then (if key in v.fields then Found(v.fields[key]) else KeyMissing)
      else if v.JArr? then Raised("list indices must be integers or slices, not str")
      else if v.JStr? then Raised("string indices must be integers")
      else Raised("the value is not subscriptable")
    case _ => l
  }

  /** `v[0]`: JSON objects only have string keys, so on one it is a KeyError. */
  function First(l: Lookup): Lookup {
    match l
    case Found(v) =>
      if v.JArr? then (if |v.items| > 0 then Found(v.items[0]) else Raised("list index out of range"))
      else if v.JObj? then KeyMissing
      else if v.JStr? then (if |v.s| > 0 then Found(JStr([v.s[0]])) else Raised("string index out of range"))
      else Raised("the value is not subscriptable")
    case _ => l
  }

  /** `oss_object`, with `oss_object['key']` and `oss_object['size']` read for the log: a KeyError in any of them is reported as a format error. */
  function OssObject(eventData: Json): Result<Json> {
    var obj := Key(Key(First(Key(Found(eventData), "events")), "oss"), "object");
    var logged := Key(obj, "size");
    match (obj, Key(obj, "key"), logged)
    case (KeyMissing, _, _) => Err(EventFormatError)
    case (Raised(r), _, _) => Err(r)
    case (Found(_), KeyMissing, _) => Err(EventFormatError)
    case (Found(_), Raised(r), _) => Err(r)
    case (Found(_), Found(_), KeyMissing) => Err(EventFormatError)
    case (Found(_), Found(_), Raised(r)) => Err(r)
    case (Found(o), Found(_), Found(_)) => Ok(o)
  }

  /** What the first checks lead to: the object key to process, or the answer. */
  datatype Front = Proceed(fileKey: string) | Finish(response: ImageResponse)

  /** `os.path.splitext(file_key)[-1].lower()`. */
  function Extension(fileKey: string): string {
    Lower(Ext(fileKey))
  }

  function Unsupported(ext: string): ImageResponse {
    ImageResponse(400, "Unsupported file type: " + ext + ", Allowed: " + AllowedText, JObj(map[]))
  }

  /** Parse the event, find the object, and check its extension. */
  function ReadEvent(codecs: Codecs, event: string): (f: Front)
    ensures f.Proceed? ==> Extension(f.fileKey) in AllowedExtensions
  {
    match codecs.loads(event)
    case Err(e) => Finish(Failure(e))
    case Ok(eventData) =>
      match OssObject(eventData)
      case Err(e) => Finish(Failure(e))
      case Ok(obj) =>
        var key := obj.fields["key"];
        if !key.JStr? then Finish(Failure("expected str, bytes or os.PathLike object"))
        else if Extension(key.s) !in AllowedExtensions then Finish(Unsupported(Extension(key.s)))
        else Proceed(key.s)
  }

  // ---------------------------------------------------------------- names

  /** `f"img_{uuid.uuid4().hex[:10]}"`. */
  function FileId(uuidHex: string): string {
    "img_" + uuidHex[..if |uuidHex| < 10 then |uuidHex| else 10]
  }

  predicate IsHexDigit(c: char) {
    '0' <= c <= '9' || 'a' <= c <= 'f'
  }

  /** With a `uuid4().hex`, 32 lower-case hex digits, the id is "img_" and ten hex digits. */
  lemma FileIdForm(uuidHex: string)
    requires |uuidHex| == 32 && forall k :: 0 <= k < 32 ==> IsHexDigit(uuidHex[k])
    ensures |FileId(uuidHex)| == 14 && StartsWith(FileId(uuidHex), "img_")
    ensures forall k :: 4 <= k < 14 ==> IsHexDigit(FileId(uuidHex)[k])
  {
    assert forall k :: 4 <= k < 14 ==> FileId(uuidHex)[k] == uuidHex[k - 4];
  }

  /** The thumbnail's key: "thumbnails/", the stem of the file's name, "_thumb.jpg". */
  function ThumbnailKey(fileKey: string): string {
    "thumbnails/" + Stem(Basename(fileKey)) + "_thumb.jpg"
  }

  /** An object's address as the record stores it. */
  function OssUrl(bucket: string, key: string): string {
    "oss://" + bucket + "/" + key
  }

  function LocalPath(fileKey: string): string {
    "/tmp/" + Basename(fileKey)
  }

  function ThumbnailPath(fileId: string): string {
    "/tmp/thumbnail_" + fileId + ".jpg"
  }

  /** An image `dir/name.ext` gets the thumbnail `thumbnails/name_thumb.jpg`. */
  lemma ThumbnailKeyOfFile(dir: string, name: string, ext: string)
    requires '/' !in name && '/' !in ext && '.' !in ext
    requires exists k :: 0 <= k < |name| && name[k] != '.'
    ensures ThumbnailKey(dir + "/" + name + "." + ext) == "thumbnails/" + name + "_thumb.jpg"
  {
    assert '/' !in name + "." + ext;
    assert dir + "/" + name + "." + ext == dir + "/" + (name + "." + ext);
    BasenameOfPath(dir, name + "." + ext);
    SplitExtOfName(name, ext);
  }

  /** The stored address names the bucket and the key, which can be read back from it. */
  lemma OssUrlParts(bucket: string, key: string)
    requires '/' !in bucket
    ensures StartsWith(OssUrl(bucket, key), "oss://")
    ensures var u := OssUrl(bucket, key); Find(u[6..], '/') == |bucket| && u[6..][..|bucket|] == bucket && u[6..][|bucket| + 1..] == key
  {
    var rest := OssUrl(bucket, key)[6..];
    assert rest == bucket + "/" + key;
    assert rest[|bucket|] == '/';
    assert forall j :: 0 <= j < |bucket| ==> rest[j] == bucket[j];
  }

  // ---------------------------------------------------------------- the detector

  /** What a POST to the detector ends in: a reply, whose body may not be JSON, or a request error. */
  datatype FlaskReply = FlaskReplied(status: int, body: Result<Json>) | FlaskUnreachable(reason: string)

  /** The detector service: its reply to a posted image. */
  type Flask = seq<byte> -> FlaskReply

  /** The text `binascii.Error` carries; the model does not tell its variants apart. */
  const DecodeErrorText := "Incorrect padding"

  function FirstChars(s: string): string {
    s[..if |s| < 50 then |s| else 50]
  }

  /** `data["msg"]` rendered into "Flask call failed: ...". */
  function FlaskFailed(codecs: Codecs, data: Json): Result<(Json, seq<byte>)> {
    match Index(data, "msg")
    case Err(e) => Err(e)
    case Ok(m) => Err("Flask call failed: " + Render(codecs, m))
  }

  /**
   * `call_flask_detect`: post the image, insist on status 200 and code 200,
   * take the tags and the thumbnail, clean and pad the thumbnail text and
   * decode it strictly.
   */
  function CallFlaskDetect(codecs: Codecs, env: ObjectStore.Env, flask: Flask, image: seq<byte>): Result<(Json, seq<byte>)> {
    if !ObjectStore.HasSetting(env, "FLASK_DETECT_URL") then Err("Flask URL not configured")
    else match flask(image)
      case FlaskUnreachable(r) => Err(r)
      case FlaskReplied(status, body) =>
        match body
        case Err(e) => Err(e)
        case Ok(data) =>
          if status != 200 then FlaskFailed(codecs, data)
          else match Index(data, "code")
            case Err(e) => Err(e)
            case Ok(code) =>
              if code != JInt(200) then FlaskFailed(codecs, data)
              else match Index(data, "data")
                case Err(e) => Err(e)
                case Ok(payload) =>
                  match (Index(payload, "tags"), Index(payload, "thumbnail_image"))
                  case (Err(e), _) => Err(e)
                  case (Ok(_), Err(e)) => Err(e)
                  case (Ok(tags), Ok(thumb)) =>
                    if !thumb.JStr? then Err("expected string or bytes-like object")
                    else
                      var cleaned := Base64.CleanAndPad(thumb.s);
                      match Base64.Decode(cleaned)
                      case None => Err("Thumbnail base64 decode failed: " + DecodeErrorText + ", First 50 chars: " + FirstChars(cleaned))
                      case Some(bytes) => Ok((tags, bytes))
  }

  /** The detector as the handler meets it: the route's answer, sent as JSON with its code as status. */
  function DetectorService(vision: Detector.Vision): Flask {
    (image: seq<byte>) =>
      var r := Detector.DetectBird(vision, map["image" := image]);
      FlaskReplied(r.code, Ok(JObj(map["code" := JInt(r.code), "msg" := JStr(r.msg), "data" := r.data])))
  }

  /**
   * When the detector succeeds, the handler gets its tags and exactly the
   * JPEG bytes of its thumbnail: the base64 text survives the clean-up and
   * decodes back to them.
   */
  lemma DetectorThumbnailArrives(codecs: Codecs, env: ObjectStore.Env, vision: Detector.Vision, image: seq<byte>)
    requires ObjectStore.HasSetting(env, "FLASK_DETECT_URL")
    requires Detector.DetectBird(vision, map["image" := image]).code == 200
    ensures var d := Detector.DetectBird(vision, map["image" := image]).data;
      && d.JObj? && "tags" in d.fields && "thumbnail_image" in d.fields
      && exists thumb :: (d.fields["thumbnail_image"] == JStr(Base64.Encode(thumb))
           && CallFlaskDetect(codecs, env, DetectorService(vision), image) == Ok((d.fields["tags"], thumb)))
  {
    var r := Detector.DetectBird(vision, map["image" := image]);
    var files := map["image" := image];
    var img := vision.decode(image).value.value;
    var found := vision.model(img).value;
    var kept := Detector.Kept(found.boxes);
    var drawn := if found.hasClassIds then vision.annotate(img, kept) else img;
    var thumb := vision.encodeJpeg(vision.thumbnail(drawn).value).value;
    assert r.data.fields["thumbnail_image"] == JStr(Base64.Encode(thumb));
    Base64.EncodeSurvivesCleanAndPad(thumb);
    Base64.DecodeEncode(thumb);
  }

  /** A thumbnail text one character longer than a multiple of four, once cleaned, is a decode failure. */
  lemma BadThumbnailFails(codecs: Codecs, env: ObjectStore.Env, flask: Flask, image: seq<byte>, tags: Json, text: string)
    requires ObjectStore.HasSetting(env, "FLASK_DETECT_URL")
    requires flask(image) == FlaskReplied(200, Ok(JObj(map["code" := JInt(200),
      "data" := JObj(map["tags" := tags, "thumbnail_image" := JStr(text)])])))
    requires |Base64.Clean(text)| % 4 == 1
    ensures CallFlaskDetect(codecs, env, flask, image).Err?
  {
    Base64.OneOverFourFails(text);
  }

  /** A status other than 200 is a failure whatever the body says. */
  lemma FlaskStatusChecked(codecs: Codecs, env: ObjectStore.Env, flask: Flask, image: seq<byte>)
    requires ObjectStore.HasSetting(env, "FLASK_DETECT_URL")
    requires flask(image).FlaskReplied? && flask(image).status != 200
    ensures CallFlaskDetect(codecs, env, flask, image).Err?
  {
  }

  // ---------------------------------------------------------------- the handler

  /** The function's local disk: `/tmp`. */
  class LocalDisk {
    var files: map<string, seq<byte>>

    constructor (initial: map<string, seq<byte>>)
      ensures files == initial
    {
      files := initial;
    }

    method Write(path: string, data: seq<byte>)
      modifies this
      ensures files == old(files)[path := data]
    {
      files := files[path := data];
    }

    /** `if os.path.exists(path): os.remove(path)`. */
    method RemoveIfExists(path: string)
      modifies this
      ensures files == old(files) - {path}
    {
      if path in files {
        files := files - {path};
      }
    }
  }

  /** The objects, the tables and the local files. */
  datatype World = World(objects: map<string, seq<byte>>, tables: Tables, files: map<string, seq<byte>>)

  /** The record the handler writes. */
  function RecordColumns(codecs: Codecs, bucket: string, fileKey: string, tags: Json, thumbnailUrl: string): seq<(string, Value)> {
    MediaRecords.MediaColumns(VStr(OssUrl(bucket, fileKey)), VStr("image"), VStr(codecs.dumps(tags)), VStr("user3"),
                              VNone, VNone, VStr(thumbnailUrl))
  }

  /** The 200 answer. */
  function Completed(fileId: string, rawUrl: string, thumbnailUrl: string, tags: Json): ImageResponse {
    ImageResponse(200, "Image processing completed", JObj(map[
      "file_id" := JStr(fileId), "raw_oss_url" := JStr(rawUrl), "thumbnail_oss_url" := JStr(thumbnailUrl),
      "tags" := tags, "table_write_result" := JBool(true)]))
  }

  /**
   * `handler`, as a function of the world before it: the answer and the
   * world after it. `seconds` is the clock `int(time.time())` reads and
   * `now` the table store's write time.
   */
  function Process(codecs: Codecs, env: ObjectStore.Env, event: string, uuidHex: string, seconds: real, now: int,
                   flask: Flask, w: World): (ImageResponse, World)
  {
    match ReadEvent(codecs, event)
    case Finish(response) => (response, w)
    case Proceed(fileKey) =>
      match ObjectStore.GetOssConfig(env)
      case Err(e) => (Failure(e), w)
      case Ok(config) =>
        var fileId := FileId(uuidHex);
        var local := LocalPath(fileKey);
        if fileKey !in w.objects then
          (Failure("OSS download failed: " + ObjectStore.NoSuchKey + ", File path: " + fileKey), w)
        else
          var image := w.objects[fileKey];
          DetectAndStore(codecs, env, uuidHex, seconds, now, flask, fileKey, config.bucketName, image,
                         w.(files := w.files[local := image]))
  }

  /**
   * The rest of `handler` once the image is on the local disk: the detector,
   * the thumbnail file and object, the record and the clean-up.
   */
  function DetectAndStore(codecs: Codecs, env: ObjectStore.Env, uuidHex: string, seconds: real, now: int,
                          flask: Flask, fileKey: string, bucketName: string, image: seq<byte>, w1: World): (ImageResponse, World)
  {
    var fileId := FileId(uuidHex);
    match CallFlaskDetect(codecs, env, flask, image)
    case Err(e) => (Failure(e), w1)
    case Ok((tags, thumb)) =>
      var thumbKey := ThumbnailKey(fileKey);
      var thumbPath := ThumbnailPath(fileId);
      var thumbUrl := OssUrl(bucketName, thumbKey);
      var w2 := World(w1.objects[thumbKey := thumb], w1.tables, w1.files[thumbPath := thumb]);
      if !ObjectStore.HasSetting(env, "TABLE_STORE_TABLE_NAME") then (Failure("TABLE_STORE_TABLE_NAME not set"), w2)
      else
        var tableName := env["TABLE_STORE_TABLE_NAME"];
        var pk := MediaRecords.RecordKey(VStr(fileId), VInt(Truncate(seconds)));
        match CheckRequest(w2.tables, tableName, pk, Ignore)
        case Some(err) =>
          (Failure("Table Store write failed: " + MediaRecords.CreateFailure(err) + ", Table: " + tableName), w2)
        case None =>
          var tables := Put(w2.tables, tableName, pk, RecordColumns(codecs, bucketName, fileKey, tags, thumbUrl), now);
          (Completed(fileId, OssUrl(bucketName, fileKey), thumbUrl, tags),
           World(w2.objects, tables, w2.files - {LocalPath(fileKey)} - {thumbPath}))
  }

  /** `handler`: the checks, the download, the detector, the uploads, the record and the clean-up, in order. */
  method HandleImage(codecs: Codecs, env: ObjectStore.Env, event: string, uuidHex: string, seconds: real, now: int,
                     flask: Flask, bucket: ObjectStore.Bucket, store: Store, disk: LocalDisk)
    returns (response: ImageResponse)
    modifies bucket, store, disk
    ensures (response, World(bucket.objects, store.tables, disk.files))
      == Process(codecs, env, event, uuidHex, seconds, now, flask,
                 World(old(bucket.objects), old(store.tables), old(disk.files)))
  {
    var front := ReadEvent(codecs, event);
    if front.Finish? {
      return front.response;
    }
    var fileKey := front.fileKey;
    var config := ObjectStore.GetOssConfig(env);
    if config.Err? {
      return Failure(config.msg);
    }
    var fileId := FileId(uuidHex);
    var local := LocalPath(fileKey);
    var image := bucket.GetObject(fileKey);
    if image.Err? {
      return Failure("OSS download failed: " + image.msg + ", File path: " + fileKey);
    }
    disk.Write(local, image.value);
    response := DetectAndStoreSteps(codecs, env, uuidHex, seconds, now, flask, fileKey, config.value.bucketName,
                                    image.value, bucket, store, disk);
  }

  /** The steps after the download, in the order `handler` performs them. */
  method DetectAndStoreSteps(codecs: Codecs, env: ObjectStore.Env, uuidHex: string, seconds: real, now: int,
                             flask: Flask, fileKey: string, bucketName: string, image: seq<byte>,
                             bucket: ObjectStore.Bucket, store: Store, disk: LocalDisk)
    returns (response: ImageResponse)
    modifies bucket, store, disk
    ensures (response, World(bucket.objects, store.tables, disk.files))
      == DetectAndStore(codecs, env, uuidHex, seconds, now, flask, fileKey, bucketName, image,
                        World(old(bucket.objects), old(store.tables), old(disk.files)))
  {
    var fileId := FileId(uuidHex);
    var detected := CallFlaskDetect(codecs, env, flask, image);
    if detected.Err? {
      return Failure(detected.msg);
    }
    var (tags, thumb) := detected.value;
    var thumbKey := ThumbnailKey(fileKey);
    var thumbPath := ThumbnailPath(fileId);
    disk.Write(thumbPath, thumb);
    bucket.PutObject(thumbKey, thumb);
    var thumbUrl := OssUrl(bucketName, thumbKey);
    if !ObjectStore.HasSetting(env, "TABLE_STORE_TABLE_NAME") {
      return Failure("TABLE_STORE_TABLE_NAME not set");
    }
    var tableName := env["TABLE_STORE_TABLE_NAME"];
    var rawUrl := OssUrl(bucketName, fileKey);
    var written := MediaRecords.CreateMediaRecord(store, tableName, VStr(fileId), VInt(Truncate(seconds)),
      VStr(rawUrl), VStr("image"), VStr(codecs.dumps(tags)), VStr("user3"), VNone, VNone, VStr(thumbUrl), now);
    if written.Err? {
      return Failure("Table Store write failed: " + written.msg + ", Table: " + tableName);
    }
    disk.RemoveIfExists(LocalPath(fileKey));
    disk.RemoveIfExists(thumbPath);
    response := Completed(fileId, rawUrl, thumbUrl, tags);
  }

  /** An unsupported extension is answered 400 before anything is downloaded or stored. */
  lemma UnsupportedTouchesNothing(codecs: Codecs, env: ObjectStore.Env, event: string, uuidHex: string, seconds: real,
                                  now: int, flask: Flask, w: World, fileKey: string)
    requires codecs.loads(event).Ok? && OssObject(codecs.loads(event).value) .Ok?
    requires OssObject(codecs.loads(event).value).value.fields["key"] == JStr(fileKey)
    requires Extension(fileKey) !in AllowedExtensions
    ensures Process(codecs, env, event, uuidHex, seconds, now, flask, w) == (Unsupported(Extension(fileKey)), w)
  {
  }

  /** The extension of a plain file name is the lower-cased part after its dot. */
  lemma ExtensionOfName(name: string, e: string)
    requires '/' !in name && '.' !in name && |name| > 0
    requires '/' !in e && '.' !in e
    ensures Extension(name + "." + e) == Lower("." + e)
  {
    assert name[0] != '.';
    SplitExtOfName(name, e);
  }

  /** Upper-case extensions are accepted: the check lower-cases the extension. */
  lemma UpperCaseExtensionAccepted(name: string)
    requires '/' !in name && '.' !in name && |name| > 0
    ensures Extension(name + ".JPG") == ".jpg" && Extension(name + ".PNG") == ".png"
  {
    assert name + ".JPG" == name + "." + "JPG";
    assert name + ".PNG" == name + "." + "PNG";
    ExtensionOfName(name, "JPG");
    ExtensionOfName(name, "PNG");
    LowerJpg();
    LowerPng();
  }

  lemma LowerJpg()
    ensures Lower(".JPG") == ".jpg"
  {
    assert LowerChar('J') == 'j' && LowerChar('P') == 'p' && LowerChar('G') == 'g';
  }

  lemma LowerPng()
    ensures Lower(".PNG") == ".png"
  {
    assert LowerChar('P') == 'p' && LowerChar('N') == 'n' && LowerChar('G') == 'g';
  }

  /**
   * Every failure after the download answers 500 with no data and leaves
   * the local copy of the image behind; a failure after the detector
   * answered leaves the thumbnail's local copy too.
   */
  lemma FailureKeepsLocalCopy(codecs: Codecs, env: ObjectStore.Env, event: string, uuidHex: string, seconds: real,
                              now: int, flask: Flask, w: World, fileKey: string)
    requires ReadEvent(codecs, event) == Proceed(fileKey)
    requires ObjectStore.GetOssConfig(env).Ok? && fileKey in w.objects
    requires Process(codecs, env, event, uuidHex, seconds, now, flask, w).0.code != 200
    ensures var (response, after) := Process(codecs, env, event, uuidHex, seconds, now, flask, w);
      && response.code == 500 && response.data == JObj(map[])
      && LocalPath(fileKey) in after.files
      && (CallFlaskDetect(codecs, env, flask, w.objects[fileKey]).Ok? ==> ThumbnailPath(FileId(uuidHex)) in after.files)
  {
    var detected := CallFlaskDetect(codecs, env, flask, w.objects[fileKey]);
    var result := Process(codecs, env, event, uuidHex, seconds, now, flask, w);
    if detected.Ok? {
      var pk := MediaRecords.RecordKey(VStr(FileId(uuidHex)), VInt(Truncate(seconds)));
      if ObjectStore.HasSetting(env, "TABLE_STORE_TABLE_NAME") {
        var tables := w.tables;
        assert CheckRequest(tables, env["TABLE_STORE_TABLE_NAME"], pk, Ignore).Some?;
      }
    }
  }

  /**
   * On success the thumbnail is stored under its key, the record under
   * `(file_id, int(time))` with the raw and thumbnail addresses, both local
   * copies are gone, and the answer carries the file id, both addresses and the tags.
   */
  lemma SuccessEffects(codecs: Codecs, env: ObjectStore.Env, event: string, uuidHex: string, seconds: real,
                       now: int, flask: Flask, w: World, fileKey: string)
    requires ReadEvent(codecs, event) == Proceed(fileKey)
    requires Process(codecs, env, event, uuidHex, seconds, now, flask, w).0.code == 200
    ensures ObjectStore.GetOssConfig(env).Ok? && fileKey in w.objects
    ensures CallFlaskDetect(codecs, env, flask, w.objects[fileKey]).Ok?
    ensures ObjectStore.HasSetting(env, "TABLE_STORE_TABLE_NAME")
    ensures var bucketName := ObjectStore.GetOssConfig(env).value.bucketName;
      var (tags, thumb) := CallFlaskDetect(codecs, env, flask, w.objects[fileKey]).value;
      var tableName := env["TABLE_STORE_TABLE_NAME"];
      var thumbUrl := OssUrl(bucketName, ThumbnailKey(fileKey));
      var pk := MediaRecords.RecordKey(VStr(FileId(uuidHex)), VInt(Truncate(seconds)));
      var (response, after) := Process(codecs, env, event, uuidHex, seconds, now, flask, w);
      && after.objects == w.objects[ThumbnailKey(fileKey) := thumb]
      && CheckRequest(w.tables, tableName, pk, Ignore).None?
      && after.tables == Put(w.tables, tableName, pk, RecordColumns(codecs, bucketName, fileKey, tags, thumbUrl), now)
      && after.files == w.files - {LocalPath(fileKey), ThumbnailPath(FileId(uuidHex))}
      && response == Completed(FileId(uuidHex), OssUrl(bucketName, fileKey), thumbUrl, tags)
  {
    var thumbPath := ThumbnailPath(FileId(uuidHex));
    var local := LocalPath(fileKey);
    Downloaded(codecs, env, event, uuidHex, seconds, now, flask, w, fileKey);
    var image := w.objects[fileKey];
    var w1 := w.(files := w.files[local := image]);
    var bucketName := ObjectStore.GetOssConfig(env).value.bucketName;
    StoredEffects(codecs, env, uuidHex, seconds, now, flask, fileKey, bucketName, image, w1);
    var thumb := CallFlaskDetect(codecs, env, flask, image).value.1;
    CleanedUp(w.files, local, image, thumbPath, thumb);
  }

  /** Writing the two temporary files and removing them leaves the disk as before, less those two names. */
  lemma CleanedUp(files: map<string, seq<byte>>, local: string, image: seq<byte>, thumbPath: string, thumb: seq<byte>)
    ensures files[local := image][thumbPath := thumb] - {local} - {thumbPath} == files - {local, thumbPath}
  {
  }

  /** A stored image was downloaded first: `handler` reaches the detector with the object's bytes on disk. */
  lemma Downloaded(codecs: Codecs, env: ObjectStore.Env, event: string, uuidHex: string, seconds: real,
                   now: int, flask: Flask, w: World, fileKey: string)
    requires ReadEvent(codecs, event) == Proceed(fileKey)
    requires Process(codecs, env, event, uuidHex, seconds, now, flask, w).0.code == 200
    ensures ObjectStore.GetOssConfig(env).Ok? && fileKey in w.objects
    ensures Process(codecs, env, event, uuidHex, seconds, now, flask, w)
      == DetectAndStore(codecs, env, uuidHex, seconds, now, flask, fileKey, ObjectStore.GetOssConfig(env).value.bucketName,
                        w.objects[fileKey], w.(files := w.files[LocalPath(fileKey) := w.objects[fileKey]]))
  {
  }

  /** What a stored image leaves behind, stated on the steps after the download. */
  lemma StoredEffects(codecs: Codecs, env: ObjectStore.Env, uuidHex: string, seconds: real, now: int,
                      flask: Flask, fileKey: string, bucketName: string, image: seq<byte>, w1: World)
    requires DetectAndStore(codecs, env, uuidHex, seconds, now, flask, fileKey, bucketName, image, w1).0.code == 200
    ensures CallFlaskDetect(codecs, env, flask, image).Ok?
    ensures ObjectStore.HasSetting(env, "TABLE_STORE_TABLE_NAME")
    ensures var (tags, thumb) := CallFlaskDetect(codecs, env, flask, image).value;
      var tableName := env["TABLE_STORE_TABLE_NAME"];
      var thumbUrl := OssUrl(bucketName, ThumbnailKey(fileKey));
      var pk := MediaRecords.RecordKey(VStr(FileId(uuidHex)), VInt(Truncate(seconds)));
      var (response, after) := DetectAndStore(codecs, env, uuidHex, seconds, now, flask, fileKey, bucketName, image, w1);
      && after.objects == w1.objects[ThumbnailKey(fileKey) := thumb]
      && CheckRequest(w1.tables, tableName, pk, Ignore).None?
      && after.tables == Put(w1.tables, tableName, pk, RecordColumns(codecs, bucketName, fileKey, tags, thumbUrl), now)
      && after.files == w1.files[ThumbnailPath(FileId(uuidHex)) := thumb] - {LocalPath(fileKey)} - {ThumbnailPath(FileId(uuidHex))}
      && response == Completed(FileId(uuidHex), OssUrl(bucketName, fileKey), thumbUrl, tags)
  {
  }

  /** The written record reads back with the raw and thumbnail addresses and the serialised tags. */
  lemma RecordReadsBack(codecs: Codecs, tables: Tables, tableName: string, uuidHex: string, seconds: real, now: int,
                        bucket: string, fileKey: string, tags: Json)
    requires Truncate(seconds) != 0
    requires CheckRequest(tables, tableName, MediaRecords.RecordKey(VStr(FileId(uuidHex)), VInt(Truncate(seconds))), Ignore).None?
    ensures var pk := MediaRecords.RecordKey(VStr(FileId(uuidHex)), VInt(Truncate(seconds)));
      var thumbUrl := OssUrl(bucket, ThumbnailKey(fileKey));
      var after := Put(tables, tableName, pk, RecordColumns(codecs, bucket, fileKey, tags, thumbUrl), now);
      MediaRecords.RecordByFileId(after, tableName, VStr(FileId(uuidHex)), VInt(Truncate(seconds)))
        == Ok(Some(MediaRecords.MediaFields(VStr(FileId(uuidHex)), VInt(Truncate(seconds)), VStr(OssUrl(bucket, fileKey)),
             VStr("image"), VStr(codecs.dumps(tags)), VStr("user3"), VNone, VNone, VStr(thumbUrl))))
  {
    var bucketUrl := OssUrl(bucket, ThumbnailKey(fileKey));
    MediaRecords.CreateThenGet(tables, tableName, VStr(FileId(uuidHex)), VInt(Truncate(seconds)), VStr(OssUrl(bucket, fileKey)),
      VStr("image"), VStr(codecs.dumps(tags)), VStr("user3"), VNone, VNone, VStr(bucketUrl), now);
  }

  /** A missing table name fails after the thumbnail is stored: the thumbnail stays, no record is written. */
  lemma MissingTableNameLeavesThumbnail(codecs: Codecs, env: ObjectStore.Env, event: string, uuidHex: string, seconds: real,
                                        now: int, flask: Flask, w: World, fileKey: string)
    requires ReadEvent(codecs, event) == Proceed(fileKey)
    requires ObjectStore.GetOssConfig(env).Ok? && fileKey in w.objects
    requires CallFlaskDetect(codecs, env, flask, w.objects[fileKey]).Ok?
    requires !ObjectStore.HasSetting(env, "TABLE_STORE_TABLE_NAME")
    ensures var (response, after) := Process(codecs, env, event, uuidHex, seconds, now, flask, w);
      && response == Failure("TABLE_STORE_TABLE_NAME not set")
      && ThumbnailKey(fileKey) in after.objects && after.tables == w.tables
  {
  }
}
