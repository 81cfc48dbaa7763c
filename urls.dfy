/**
 * The path component of `urllib.parse.urlparse` (CPython 3.11), which the audio
 * processor uses to recover an object key from the URL the trigger builds.
 */
module Urls {
  import opened Wrappers
  import opened Text

  predicate IsAsciiLetter(c: char) {
    ('a' <= c <= 'z') || ('A' <= c <= 'Z')
  }

  /** `urllib.parse.scheme_chars`. */
  predicate IsSchemeChar(c: char) {
    IsAsciiLetter(c) || ('0' <= c <= '9') || c == '+' || c == '-' || c == '.'
  }

  /** Leading C0 control characters and spaces are stripped before parsing. */
  function StripLeadingControl(s: string): (r: string)
    ensures |r| <= |s| && r == s[|s| - |r|..]
    ensures |r| > 0 ==> r[0] as int > 32
    decreases |s|
  {
    if |s| > 0 && s[0] as int <= 32 then StripLeadingControl(s[1..]) else s
  }

  predicate IsUnsafeByte(c: char) {
    c == '\t' || c == '\r' || c == '\n'
  }

  /** Tabs, carriage returns and line feeds are removed wherever they occur. */
  function RemoveUnsafe(s: string): (r: string)
    ensures forall i :: 0 <= i < |r| ==> !IsUnsafeByte(r[i])
    decreases |s|
  {
    if |s| == 0 then ""
    else if IsUnsafeByte(s[0]) then RemoveUnsafe(s[1..])
    else [s[0]] + RemoveUnsafe(s[1..])
  }

  lemma {:induction false} RemoveUnsafeNone(s: string)
    requires forall i :: 0 <= i < |s| ==> !IsUnsafeByte(s[i])
    ensures RemoveUnsafe(s) == s
    decreases |s|
  {
    if |s| > 0 {
      RemoveUnsafeNone(s[1..]);
    }
  }

  /** The first index at or after `start` holding '/', '?' or '#', or `|s|`. */
  function NetlocEnd(s: string, start: nat): (i: nat)
    requires start <= |s|
    ensures start <= i <= |s|
    ensures forall j :: start <= j < i ==> s[j] != '/' && s[j] != '?' && s[j] != '#'
    ensures i < |s| ==> s[i] == '/' || s[i] == '?' || s[i] == '#'
    decreases |s| - start
  {
    if start == |s| || s[start] == '/' || s[start] == '?' || s[start] == '#' then start
    else NetlocEnd(s, start + 1)
  }

  /** The first index at or after `start` holding `c`, or -1: `s.find(c, start)`. */
  function FindFrom(s: string, c: char, start: nat): (i: int)
    ensures i == -1 || (start <= i < |s| && s[i] == c)
    ensures forall j :: start <= j < |s| && (i == -1 || j < i) ==> s[j] != c
    decreases |s| - start
  {
    if start >= |s| then -1
    else if s[start] == c then start
    else FindFrom(s, c, start + 1)
  }

  datatype SplitUrl = SplitUrl(scheme: string, netloc: string, path: string, query: string, fragment: string)

  /** A scheme is split off when a ':' follows a letter and every character before it is a scheme character. */
  function SplitScheme(url: string): (r: (string, string))
  {
    var i := Find(url, ':');
    if i > 0 && IsAsciiLetter(url[0]) && forall j :: 0 <= j < i ==> IsSchemeChar(url[j]) then
      (Lower(url[..i]), url[i + 1..])
    else ("", url)
  }

  /** What follows the network location: the path, then '?' and the query, then '#' and the fragment. */
  function SplitRest(url: string): (r: (string, string, string)) {
    var h := Find(url, '#');
    var (url3, fragment) := if h >= 0 then (url[..h], url[h + 1..]) else (url, "");
    var q := Find(url3, '?');
    if q >= 0 then (url3[..q], url3[q + 1..], fragment) else (url3, "", fragment)
  }

  /** `urlsplit`: scheme, then a network location after "//", then the fragment, then the query. */
  function UrlSplit(raw: string): Result<SplitUrl> {
    var url0 := RemoveUnsafe(StripLeadingControl(raw));
    var (scheme, url1) := SplitScheme(url0);
    var (netloc, url2) :=
      if |url1| >= 2 && url1[..2] == "//" then
        var d := NetlocEnd(url1, 2);
        (url1[2..d], url1[d..])
      else ("", url1);
    if ('[' in netloc) != (']' in netloc) then Err("Invalid IPv6 URL")
    else
      var (path, query, fragment) := SplitRest(url2);
      Ok(SplitUrl(scheme, netloc, path, query, fragment))
  }

  /** `urllib.parse.uses_params`: the schemes whose paths may carry ";params". */
  predicate UsesParams(scheme: string) {
    scheme in ["", "ftp", "hdl", "prospero", "http", "imap", "https", "shttp", "rtsp", "rtsps",
               "rtspu", "sip", "sips", "mms", "sftp", "tel"]
  }

  /** `_splitparams`: the parameters start at the first ';' of the last path segment. */
  function SplitParams(path: string): (r: (string, string)) {
    var i := if '/' in path then FindFrom(path, ';', RFind(path, '/') as nat) else Find(path, ';');
    if i < 0 then (path, "") else (path[..i], path[i + 1..])
  }

  /** The `path` attribute of `urlparse(url)`. */
  function UrlParsePath(url: string): Result<string> {
    match UrlSplit(url)
    case Err(e) => Err(e)
    case Ok(u) => Ok(if UsesParams(u.scheme) && ';' in u.path then SplitParams(u.path).0 else u.path)
  }

  /** `urlparse(url).path.lstrip('/')`: the object key the audio processor downloads. */
  function ObjectKeyOfUrl(url: string): (r: Result<string>)
    ensures r.Ok? ==> |r.value| == 0 || r.value[0] != '/'
  {
    match UrlParsePath(url)
    case Err(e) => Err(e)
    case Ok(p) => Ok(LStrip(p, '/'))
  }

  /** The host that every file URL of the audio trigger names. */
  const OssHost: string := ".oss-cn-hongkong.aliyuncs.com"

  /** The URL the audio trigger sends to the processing service for an object. */
  function FileUrl(bucket: string, key: string): string {
    "https://" + bucket + OssHost + "/" + key
  }

  /** Bucket names are lower-case letters, digits and '-'. */
  predicate IsBucketName(b: string) {
    |b| > 0 && forall i :: 0 <= i < |b| ==> ('a' <= b[i] <= 'z') || ('0' <= b[i] <= '9') || b[i] == '-'
  }

  /** The characters that make `urlparse` cut a path short or change it. */
  predicate IsPathBreaker(c: char) {
    c == '#' || c == '?' || c == ';' || IsUnsafeByte(c)
  }

  lemma FileUrlIsClean(bucket: string, key: string)
    requires IsBucketName(bucket)
    requires forall i :: 0 <= i < |key| ==> !IsUnsafeByte(key[i])
    ensures RemoveUnsafe(StripLeadingControl(FileUrl(bucket, key))) == FileUrl(bucket, key)
  {
    var url := FileUrl(bucket, key);
    var host := bucket + OssHost;
    forall i | 0 <= i < |url| ensures !IsUnsafeByte(url[i]) {
      if i >= 8 + |host| + 1 {
        assert url[i] == key[i - 8 - |host| - 1];
      } else if 8 <= i < 8 + |bucket| {
        assert url[i] == bucket[i - 8];
      } else if 8 + |bucket| <= i < 8 + |host| {
        assert url[i] == OssHost[i - 8 - |bucket|];
      }
    }
    RemoveUnsafeNone(url);
    assert url[0] == 'h';
  }

  lemma SchemeOfFileUrl(bucket: string, key: string)
    ensures SplitScheme(FileUrl(bucket, key)) == ("https", "//" + bucket + OssHost + "/" + key)
  {
    var url := FileUrl(bucket, key);
    assert url == "https:" + ("//" + bucket + OssHost + "/" + key);
    assert url[..6] == "https:";
    assert url[5] == ':' && forall j :: 0 <= j < 5 ==> url[j] != ':' && IsSchemeChar(url[j]);
    assert Find(url, ':') == 5;
    assert url[..5] == "https" && Lower("https") == "https";
  }

  predicate IsHostChar(c: char) {
    ('a' <= c <= 'z') || ('0' <= c <= '9') || c == '-' || c == '.'
  }

  lemma HostChars(bucket: string)
    requires IsBucketName(bucket)
    ensures forall j :: 0 <= j < |bucket + OssHost| ==> IsHostChar((bucket + OssHost)[j])
  {
    var host := bucket + OssHost;
    forall j | 0 <= j < |host| ensures IsHostChar(host[j]) {
      if j < |bucket| {
        assert host[j] == bucket[j];
      } else {
        assert host[j] == OssHost[j - |bucket|];
      }
    }
  }

  lemma NoBrackets(host: string)
    requires forall j :: 0 <= j < |host| ==> IsHostChar(host[j])
    ensures '[' !in host && ']' !in host
  {
  }

  lemma NetlocOfFileUrl(bucket: string, key: string)
    requires IsBucketName(bucket)
    ensures var rest := "//" + bucket + OssHost + "/" + key;
      var d := 2 + |bucket + OssHost|;
      NetlocEnd(rest, 2) == d && rest[2..d] == bucket + OssHost && rest[d..] == "/" + key
  {
    var host := bucket + OssHost;
    HostChars(bucket);
    var rest := "//" + host + "/" + key;
    var d := 2 + |host|;
    assert rest[d] == '/';
    forall j | 2 <= j < d ensures rest[j] != '/' && rest[j] != '?' && rest[j] != '#' {
      assert rest[j] == host[j - 2];
    }
    assert NetlocEnd(rest, 2) == d;
    assert rest[2..d] == host;
    assert rest[d..] == "/" + key;
    assert rest == "//" + bucket + OssHost + "/" + key;
  }

  /** The trigger's URLs split into the scheme "https", the bucket's host, and "/" followed by the key. */
  lemma UrlSplitOfFileUrl(bucket: string, key: string)
    requires IsBucketName(bucket)
    requires forall i :: 0 <= i < |key| ==> !IsUnsafeByte(key[i])
    ensures var r := SplitRest("/" + key);
      UrlSplit(FileUrl(bucket, key)) == Ok(SplitUrl("https", bucket + OssHost, r.0, r.1, r.2))
  {
    FileUrlIsClean(bucket, key);
    SchemeOfFileUrl(bucket, key);
    NetlocOfFileUrl(bucket, key);
    HostChars(bucket);
    NoBrackets(bucket + OssHost);
    var rest := "//" + bucket + OssHost + "/" + key;
    assert |rest| >= 2 && rest[..2] == "//";
  }

  /**
   * The audio processor recovers the object key from the trigger's URL exactly,
   * provided the key has no '#', '?', ';', tab or line break and does not start with '/'.
   */
  lemma ObjectKeyOfFileUrl(bucket: string, key: string)
    requires IsBucketName(bucket)
    requires forall i :: 0 <= i < |key| ==> !IsPathBreaker(key[i])
    requires |key| == 0 || key[0] != '/'
    ensures ObjectKeyOfUrl(FileUrl(bucket, key)) == Ok(key)
  {
    UrlSplitOfFileUrl(bucket, key);
    var path := "/" + key;
    forall j | 0 <= j < |path| ensures path[j] != '#' && path[j] != '?' && path[j] != ';' {
      if j > 0 {
        assert path[j] == key[j - 1];
      }
    }
    assert Find(path, '#') == -1;
    assert Find(path, '?') == -1;
    assert ';' !in path;
    assert SplitRest(path) == (path, "", "");
    assert UrlParsePath(FileUrl(bucket, key)) == Ok(path);
    assert path[1..] == key;
  }

  /**
   * A '#' in an object key cuts the recovered key short: for `k1 + "#" + k2`
   * the processor asks for the object `k1`.
   */
  lemma ObjectKeyCutAtHash(bucket: string, k1: string, k2: string)
    requires IsBucketName(bucket)
    requires forall i :: 0 <= i < |k1| ==> !IsPathBreaker(k1[i])
    requires forall i :: 0 <= i < |k2| ==> !IsUnsafeByte(k2[i])
    requires |k1| == 0 || k1[0] != '/'
    ensures ObjectKeyOfUrl(FileUrl(bucket, k1 + "#" + k2)) == Ok(k1)
  {
    var key := k1 + "#" + k2;
    forall i | 0 <= i < |key| ensures !IsUnsafeByte(key[i]) {
      if i < |k1| {
        assert key[i] == k1[i];
      } else if i > |k1| {
        assert key[i] == k2[i - |k1| - 1];
      }
    }
    UrlSplitOfFileUrl(bucket, key);
    var path := "/" + key;
    var h := 1 + |k1|;
    assert path[h] == '#';
    forall j | 0 <= j < h ensures path[j] != '#' && path[j] != '?' && path[j] != ';' {
      if j > 0 {
        assert path[j] == k1[j - 1];
      }
    }
    assert Find(path, '#') == h;
    var p1 := path[..h];
    assert p1 == "/" + k1;
    assert Find(p1, '?') == -1;
    assert ';' !in p1;
    assert SplitRest(path).0 == p1;
    assert UrlParsePath(FileUrl(bucket, key)) == Ok(p1);
    assert p1[1..] == k1;
  }
}
