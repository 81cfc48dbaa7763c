/**
 * The object store (OSS) the handlers read and write, and the configuration
 * check `get_oss_bucket` performs before it connects to it.
 */
module ObjectStore {
  import opened Wrappers

  /** The process environment `os.getenv` reads. */
  type Env = map<string, string>

  /** `os.getenv(name)`, where the empty string is falsy. */
  predicate HasSetting(env: Env, name: string) {
    name in env && env[name] != ""
  }

  /** What `get_oss_bucket` connects with. */
  datatype OssConfig = OssConfig(accessKeyId: string, accessKeySecret: string, endpoint: string, bucketName: string)

  /**
   * `get_oss_bucket`: all four settings must be present and non-empty,
   * otherwise it raises ValueError("OSS config incomplete").
   */
  function GetOssConfig(env: Env): (r: Result<OssConfig>)
    ensures r.Ok? <==> (HasSetting(env, "ALIYUN_ACCESS_KEY_ID") && HasSetting(env, "ALIYUN_ACCESS_KEY_SECRET")
                        && HasSetting(env, "OSS_ENDPOINT") && HasSetting(env, "OSS_BUCKET_NAME"))
    ensures r.Ok? ==> r.value == OssConfig(env["ALIYUN_ACCESS_KEY_ID"], env["ALIYUN_ACCESS_KEY_SECRET"],
                                           env["OSS_ENDPOINT"], env["OSS_BUCKET_NAME"])
    ensures r.Err? ==> r.msg == "OSS config incomplete"
  {
    if HasSetting(env, "ALIYUN_ACCESS_KEY_ID") && HasSetting(env, "ALIYUN_ACCESS_KEY_SECRET")
       && HasSetting(env, "OSS_ENDPOINT") && HasSetting(env, "OSS_BUCKET_NAME")
    then Ok(OssConfig(env["ALIYUN_ACCESS_KEY_ID"], env["ALIYUN_ACCESS_KEY_SECRET"],
                      env["OSS_ENDPOINT"], env["OSS_BUCKET_NAME"]))
    else Err("OSS config incomplete")
  }

  /** The error a read of a missing object raises. */
  const NoSuchKey := "NoSuchKey"

  /** One bucket: objects by key. */
  class Bucket {
    var objects: map<string, seq<byte>>

    constructor (initial: map<string, seq<byte>>)
      ensures objects == initial
    {
      objects := initial;
    }

    /** `get_object`: the stored bytes, or NoSuchKey. */
    method GetObject(key: string) returns (r: Result<seq<byte>>)
      ensures key in objects ==> r == Ok(objects[key])
      ensures key !in objects ==> r == Err(NoSuchKey)
    {
      if key in objects {
        r := Ok(objects[key]);
      } else {
        r := Err(NoSuchKey);
      }
    }

    /** `put_object`: the object under `key` is replaced; no other object changes. */
    method PutObject(key: string, data: seq<byte>)
      modifies this
      ensures objects == old(objects)[key := data]
    {
      objects := objects[key := data];
    }

    /** `delete_object`: succeeds whether or not the object exists; no other object changes. */
    method DeleteObject(key: string)
      modifies this
      ensures objects == old(objects) - {key}
    {
      objects := objects - {key};
    }
  }
}
