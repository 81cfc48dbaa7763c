/**
 * The audio-processing service's own logic: its configuration, the object key
 * it takes from a file URL, the spectrogram thumbnail's key, reading the
 * bird detections out of the analyser's CSV report, counting them per
 * species, and the `file_id` and timestamp of the record it saves.
 */
module AudioProcessing {
  import opened Wrappers
  import opened Text
  import opened Tally
  import ObjectStore

  /** `os.getenv(first) or os.getenv(second)`: the first setting unless it is missing or empty. */
  function SettingOr(env: ObjectStore.Env, first: string, second: string): (r: Option<string>)
    ensures ObjectStore.HasSetting(env, first) ==> r == Some(env[first])
    ensures !ObjectStore.HasSetting(env, first) ==> (r.Some? <==> second in env)
    ensures !ObjectStore.HasSetting(env, first) && second in env ==> r == Some(env[second])
  {
    if ObjectStore.HasSetting(env, first) then Some(env[first])
    else if second in env then Some(env[second]) else None
  }

  /** `os.getenv(name, default)`. */
  function SettingWithDefault(env: ObjectStore.Env, name: string, default: string): string {
    if name in env then env[name] else default
  }

  const SpectrogramSuffix := "_spectrogram.png"

  /** The processor's settings, read once from the environment; the clients it builds are not modelled. */
  class AudioProcessor {
    const accessKeyId: Option<string>
    const accessKeySecret: Option<string>
    const bucketName: Option<string>
    const endpoint: Option<string>
    const audioPrefix: string
    const thumbnailPrefix: string
    const tablestoreEndpoint: Option<string>
    const tablestoreInstance: Option<string>
    const tableName: Option<string>

    /** `__init__`: each setting from its variables, the two prefixes with their defaults. */
    constructor (env: ObjectStore.Env)
      ensures accessKeyId == SettingOr(env, "OSS_ACCESS_KEY_ID", "ALIYUN_ACCESS_KEY_ID")
      ensures accessKeySecret == SettingOr(env, "OSS_ACCESS_KEY_SECRET", "ALIYUN_ACCESS_KEY_SECRET")
      ensures bucketName == (if "OSS_BUCKET_NAME" in env then Some(env["OSS_BUCKET_NAME"]) else None)
      ensures endpoint == (if "OSS_ENDPOINT" in env then Some(env["OSS_ENDPOINT"]) else None)
      ensures audioPrefix == SettingWithDefault(env, "OSS_AUDIO_PREFIX", "raw/")
      ensures thumbnailPrefix == SettingWithDefault(env, "OSS_THUMBNAIL_PREFIX", "results/")
      ensures "OSS_AUDIO_PREFIX" !in env ==> audioPrefix == "raw/"
      ensures "OSS_THUMBNAIL_PREFIX" !in env ==> thumbnailPrefix == "results/"
      ensures tablestoreEndpoint == SettingOr(env, "OTS_ENDPOINT", "TABLE_STORE_ENDPOINT")
      ensures tablestoreInstance == SettingOr(env, "OTS_INSTANCE_NAME", "TABLE_STORE_INSTANCE")
      ensures tableName == SettingOr(env, "OTS_TABLE_NAME", "TABLE_NAME")
    {
      accessKeyId := SettingOr(env, "OSS_ACCESS_KEY_ID", "ALIYUN_ACCESS_KEY_ID");
      accessKeySecret := SettingOr(env, "OSS_ACCESS_KEY_SECRET", "ALIYUN_ACCESS_KEY_SECRET");
      bucketName := if "OSS_BUCKET_NAME" in env then Some(env["OSS_BUCKET_NAME"]) else None;
      endpoint := if "OSS_ENDPOINT" in env then Some(env["OSS_ENDPOINT"]) else None;
      audioPrefix := SettingWithDefault(env, "OSS_AUDIO_PREFIX", "raw/");
      thumbnailPrefix := SettingWithDefault(env, "OSS_THUMBNAIL_PREFIX", "results/");
      tablestoreEndpoint := SettingOr(env, "OTS_ENDPOINT", "TABLE_STORE_ENDPOINT");
      tablestoreInstance := SettingOr(env, "OTS_INSTANCE_NAME", "TABLE_STORE_INSTANCE");
      tableName := SettingOr(env, "OTS_TABLE_NAME", "TABLE_NAME");
    }

    /** The key `upload_thumbnail` stores the spectrogram under: the prefix, the file's stem, the suffix. */
    function ThumbnailKey(objectKey: string): (key: string)
      ensures |key| == |thumbnailPrefix| + |Stem(Basename(objectKey))| + |SpectrogramSuffix|
      ensures StartsWith(key, thumbnailPrefix) && EndsWith(key, SpectrogramSuffix)
      ensures key[|thumbnailPrefix|..|key| - |SpectrogramSuffix|] == Stem(Basename(objectKey))
    {
      var key := thumbnailPrefix + Stem(Basename(objectKey)) + SpectrogramSuffix;
      assert key[|thumbnailPrefix|..|key| - |SpectrogramSuffix|] == Stem(Basename(objectKey));
      key
    }

    /** `upload_thumbnail`: the spectrogram is written under its key; no other object changes. */
    method UploadThumbnail(bucket: ObjectStore.Bucket, thumbnail: seq<byte>, objectKey: string) returns (key: string)
      modifies bucket
      ensures key == ThumbnailKey(objectKey)
      ensures bucket.objects == old(bucket.objects)[key := thumbnail]
    {
      key := thumbnailPrefix + Stem(Basename(objectKey)) + SpectrogramSuffix;
      bucket.PutObject(key, thumbnail);
    }

    /**
     * A file `dir/name.ext` gets the thumbnail `prefix + name + "_spectrogram.png"`,
     * whatever the directory and the extension.
     */
    lemma ThumbnailOfFile(dir: string, name: string, ext: string)
      requires '/' !in name && '/' !in ext && '.' !in ext
      requires exists k :: 0 <= k < |name| && name[k] != '.'
      ensures ThumbnailKey(dir + "/" + name + "." + ext) == thumbnailPrefix + name + SpectrogramSuffix
    {
      assert '/' !in name + "." + ext;
      assert dir + "/" + name + "." + ext == dir + "/" + (name + "." + ext);
      BasenameOfPath(dir, name + "." + ext);
      SplitExtOfName(name, ext);
    }
  }

  // ---------------------------------------------------------------- detections

  /** A value in a detection dictionary: a float or a string. */
  datatype Cell = Num(r: real) | Text(s: string)

  /** One detection dictionary as `format_bird_tags` receives it. */
  type Detection = map<string, Cell>

  /** The dictionary `analyze_bird_audio` builds for one CSV line. */
  function DetectionOf(start: real, end: real, species: string, commonName: string, confidence: real): (d: Detection)
    ensures "species" in d && d["species"] == Text(species)
  {
    map["start_time" := Num(start), "end_time" := Num(end), "species" := Text(species),
        "common_name" := Text(commonName), "confidence" := Num(confidence)]
  }

  /**
   * One line of the CSV report: stripped, split on ',', at least five fields,
   * and fields 0, 1 and 4 must parse as floats; otherwise the line yields nothing.
   */
  function ParseLine(parseFloat: string -> Option<real>, line: string): (d: Option<Detection>)
    ensures var parts := Split(Strip(line), ',');
      d.Some? <==> (|parts| >= 5 && parseFloat(parts[0]).Some? && parseFloat(parts[1]).Some? && parseFloat(parts[4]).Some?)
    ensures var parts := Split(Strip(line), ',');
      d.Some? ==> d.value == DetectionOf(parseFloat(parts[0]).value, parseFloat(parts[1]).value, parts[2], parts[3],
                                         parseFloat(parts[4]).value)
  {
    var parts := Split(Strip(line), ',');
    if |parts| < 5 then None
    else match (parseFloat(parts[0]), parseFloat(parts[1]), parseFloat(parts[4]))
      case (Some(start), Some(end), Some(confidence)) => Some(DetectionOf(start, end, parts[2], parts[3], confidence))
      case _ => None
  }

  /** The detections of the lines `ls`, in order, the lines that yield nothing left out. */
  function Keep(parseFloat: string -> Option<real>, ls: seq<string>): (ds: seq<Detection>)
    ensures |ds| <= |ls|
    ensures forall k :: 0 <= k < |ds| ==> "species" in ds[k] && ds[k]["species"].Text?
    decreases |ls|
  {
    if |ls| == 0 then []
    else
      var init := Keep(parseFloat, ls[..|ls| - 1]);
      match ParseLine(parseFloat, ls[|ls| - 1])
      case None => init
      case Some(d) => init + [d]
  }

  /** The detections of a CSV report: every line after the header. */
  function Detections(parseFloat: string -> Option<real>, lines: seq<string>): seq<Detection> {
    if |lines| == 0 then [] else Keep(parseFloat, lines[1..])
  }

  lemma {:induction false} KeepAppend(parseFloat: string -> Option<real>, a: seq<string>, b: seq<string>)
    ensures Keep(parseFloat, a + b) == Keep(parseFloat, a) + Keep(parseFloat, b)
    decreases |b|
  {
    if |b| == 0 {
      assert a + b == a;
    } else {
      var bi := b[..|b| - 1];
      assert (a + b)[..|a + b| - 1] == a + bi;
      assert (a + b)[|a + b| - 1] == b[|b| - 1];
      KeepAppend(parseFloat, a, bi);
    }
  }

  /** A line that yields no detection can be taken out of the report without changing the result: it is skipped. */
  lemma UnparsedLineSkipped(parseFloat: string -> Option<real>, lines: seq<string>, k: nat)
    requires 1 <= k < |lines| && ParseLine(parseFloat, lines[k]).None?
    ensures Detections(parseFloat, lines[..k] + lines[k + 1..]) == Detections(parseFloat, lines)
  {
    var rest := lines[1..];
    var before := lines[1..k];
    var after := lines[k + 1..];
    assert rest == before + [lines[k]] + after;
    assert (lines[..k] + lines[k + 1..])[1..] == before + after;
    KeepAppend(parseFloat, before + [lines[k]], after);
    KeepAppend(parseFloat, before, [lines[k]]);
    KeepAppend(parseFloat, before, after);
    assert [lines[k]][..0] == [];
  }

  /** The first line is the header: whatever it holds, the detections are the same. */
  lemma HeaderIgnored(parseFloat: string -> Option<real>, header: string, other: string, rest: seq<string>)
    ensures Detections(parseFloat, [header] + rest) == Detections(parseFloat, [other] + rest)
  {
    assert ([header] + rest)[1..] == rest;
    assert ([other] + rest)[1..] == rest;
  }

  /** `lines[1:]` and the inner loop: each line after the header parsed in turn. */
  method ReadDetections(parseFloat: string -> Option<real>, lines: seq<string>) returns (detections: seq<Detection>)
    ensures detections == Detections(parseFloat, lines)
  {
    detections := [];
    if |lines| == 0 {
      return;
    }
    var rest := lines[1..];
    var i := 0;
    while i < |rest|
      invariant 0 <= i <= |rest|
      invariant detections == Keep(parseFloat, rest[..i])
    {
      assert rest[..i + 1][..i] == rest[..i];
      var parts := Split(Strip(rest[i]), ',');
      if |parts| >= 5 {
        var start := parseFloat(parts[0]);
        var end := parseFloat(parts[1]);
        var confidence := parseFloat(parts[4]);
        if start.Some? && end.Some? && confidence.Some? {
          detections := detections + [DetectionOf(start.value, end.value, parts[2], parts[3], confidence.value)];
        }
      }
      i := i + 1;
    }
    assert rest[..i] == rest;
  }

  /** A file of the analyser's output directory: its name and its lines. */
  datatype ReportFile = ReportFile(name: string, lines: seq<string>)

  /** The file names the loop reads: CSV reports of BirdNET that are not the parameter dump. */
  predicate IsReport(name: string) {
    EndsWith(name, ".csv") && Contains(name, "BirdNET") && !Contains(name, "analysis_params")
  }

  /** The first report among the listed files, if any. */
  function FirstReport(files: seq<ReportFile>): (r: Option<nat>)
    ensures r.Some? ==> r.value < |files| && IsReport(files[r.value].name)
    ensures r.Some? ==> forall k :: 0 <= k < r.value ==> !IsReport(files[k].name)
    ensures r.None? ==> forall k :: 0 <= k < |files| ==> !IsReport(files[k].name)
    decreases |files|
  {
    if |files| == 0 then None
    else if IsReport(files[0].name) then Some(0)
    else match FirstReport(files[1..])
      case None => None
      case Some(k) => Some(k + 1)
  }

  /** What the analyser run gives: the listing of its output directory, or the exception it raised. */
  datatype AnalyserRun = Listed(files: seq<ReportFile>) | Raised(reason: string)

  /**
   * `analyze_bird_audio`: no detections when the analyser is not installed or
   * raises; otherwise the detections of the first report file listed.
   */
  function Analysis(parseFloat: string -> Option<real>, installed: bool, run: AnalyserRun): seq<Detection> {
    if !installed then []
    else match run
      case Raised(_) => []
      case Listed(files) =>
        match FirstReport(files)
        case None => []
        case Some(k) => Detections(parseFloat, files[k].lines)
  }

  /** The loop over the listing, with its `break` after the first report. */
  method AnalyzeBirdAudio(parseFloat: string -> Option<real>, installed: bool, run: AnalyserRun) returns (detections: seq<Detection>)
    ensures detections == Analysis(parseFloat, installed, run)
  {
    detections := [];
    if !installed || run.Raised? {
      return;
    }
    var files := run.files;
    var i := 0;
    while i < |files|
      invariant 0 <= i <= |files|
      invariant forall k :: 0 <= k < i ==> !IsReport(files[k].name)
    {
      if IsReport(files[i].name) {
        detections := ReadDetections(parseFloat, files[i].lines);
        FirstReportIs(files, i);
        return;
      }
      i := i + 1;
    }
  }

  lemma {:induction false} FirstReportIs(files: seq<ReportFile>, i: nat)
    requires i < |files| && IsReport(files[i].name)
    requires forall k :: 0 <= k < i ==> !IsReport(files[k].name)
    ensures FirstReport(files) == Some(i)
    decreases i
  {
    if i > 0 {
      FirstReportIs(files[1..], i - 1);
    }
  }

  /** Only the first report is read: the files listed after it do not matter. */
  lemma OnlyFirstReportRead(parseFloat: string -> Option<real>, files: seq<ReportFile>, later: seq<ReportFile>, k: nat)
    requires FirstReport(files) == Some(k)
    ensures Analysis(parseFloat, true, Listed(files + later)) == Analysis(parseFloat, true, Listed(files))
  {
    var all := files + later;
    assert all[k] == files[k];
    forall j | 0 <= j < k ensures !IsReport(all[j].name) {
      assert all[j] == files[j];
    }
    FirstReportIs(all, k);
  }

  // ---------------------------------------------------------------- tags

  /** One entry of `format_bird_tags`' result. */
  datatype Tag = Tag(species: Cell, count: nat)

  predicate AllHaveSpecies(ds: seq<Detection>) {
    forall k :: 0 <= k < |ds| ==> "species" in ds[k]
  }

  /** `detection['species']` of each detection. */
  function SpeciesOf(ds: seq<Detection>): (sp: seq<Cell>)
    requires AllHaveSpecies(ds)
    ensures |sp| == |ds|
  {
    seq(|ds|, k requires 0 <= k < |ds| && "species" in ds[k] => ds[k]["species"])
  }

  /** The tags for the distinct species `ds` among `sp`. */
  function TagsFor(ds: seq<Cell>, sp: seq<Cell>): (tags: seq<Tag>)
    ensures |tags| == |ds|
    ensures forall k :: 0 <= k < |ds| ==> tags[k] == Tag(ds[k], Count(sp, ds[k]))
  {
    seq(|ds|, k requires 0 <= k < |ds| => Tag(ds[k], Count(sp, ds[k])))
  }

  /**
   * What `format_bird_tags` returns: each species with its count, in order of
   * first occurrence; [] when a detection has no species (the KeyError is caught).
   */
  function BirdTags(detections: seq<Detection>): seq<Tag> {
    if !AllHaveSpecies(detections) then []
    else var sp := SpeciesOf(detections); TagsFor(Distinct(sp), sp)
  }

  lemma SpeciesOfSnoc(ds: seq<Detection>, i: nat)
    requires i < |ds| && AllHaveSpecies(ds[..i]) && "species" in ds[i]
    ensures AllHaveSpecies(ds[..i + 1])
    ensures SpeciesOf(ds[..i + 1]) == SpeciesOf(ds[..i]) + [ds[i]["species"]]
  {
    assert forall k :: 0 <= k < i ==> ds[..i + 1][k] == ds[..i][k];
  }

  /** One step of the counting loop: the dictionary and its key order after one more species. */
  lemma CountStep(before: seq<Cell>, species: Cell)
    ensures (species in Counts(before)) == (species in Distinct(before))
    ensures Counts(before + [species]) ==
      Counts(before)[species := (if species in Counts(before) then Counts(before)[species] else 0) + 1]
    ensures Distinct(before + [species]) == if species in Distinct(before) then Distinct(before) else Distinct(before) + [species]
  {
    CountsSpec(before);
    DistinctSpec(before);
    assert (before + [species])[..|before|] == before;
  }

  /** The first loop of `format_bird_tags`: the counting dictionary, or failure at a detection without a species. */
  method CountSpecies(detections: seq<Detection>) returns (ok: bool, speciesCount: map<Cell, nat>, order: seq<Cell>)
    ensures ok <==> AllHaveSpecies(detections)
    ensures ok ==> speciesCount == Counts(SpeciesOf(detections)) && order == Distinct(SpeciesOf(detections))
  {
    speciesCount := map[];
    order := [];
    var i := 0;
    while i < |detections|
      invariant 0 <= i <= |detections|
      invariant AllHaveSpecies(detections[..i])
      invariant speciesCount == Counts(SpeciesOf(detections[..i]))
      invariant order == Distinct(SpeciesOf(detections[..i]))
    {
      if "species" !in detections[i] {
        return false, speciesCount, order;
      }
      var species := detections[i]["species"];
      SpeciesOfSnoc(detections, i);
      CountStep(SpeciesOf(detections[..i]), species);
      if species in speciesCount {
        speciesCount := speciesCount[species := speciesCount[species] + 1];
      } else {
        speciesCount := speciesCount[species := 1];
        order := order + [species];
      }
      i := i + 1;
    }
    assert detections[..i] == detections;
    ok := true;
  }

  /** The second loop: the dictionary's items, in insertion order, as tags. */
  method TagItems(speciesCount: map<Cell, nat>, order: seq<Cell>, ghost sp: seq<Cell>) returns (tags: seq<Tag>)
    requires speciesCount == Counts(sp) && order == Distinct(sp)
    ensures tags == TagsFor(order, sp)
  {
    CountsSpec(sp);
    DistinctSpec(sp);
    tags := [];
    var k := 0;
    while k < |order|
      invariant 0 <= k <= |order|
      invariant tags == TagsFor(order[..k], sp)
    {
      assert order[k] in sp;
      tags := tags + [Tag(order[k], speciesCount[order[k]])];
      k := k + 1;
      assert order[..k] == order[..k - 1] + [order[k - 1]];
    }
    assert order[..k] == order;
  }

  /** `format_bird_tags`: count the species, then list the dictionary's items; [] if a species is missing. */
  method FormatBirdTags(detections: seq<Detection>) returns (tags: seq<Tag>)
    ensures tags == BirdTags(detections)
  {
    var ok, speciesCount, order := CountSpecies(detections);
    if !ok {
      return [];
    }
    tags := TagItems(speciesCount, order, SpeciesOf(detections));
  }

  /** Each species that occurs has exactly one tag, and no other species has one. */
  lemma TagsOncePerSpecies(detections: seq<Detection>)
    requires AllHaveSpecies(detections)
    ensures var tags := BirdTags(detections);
      && (forall i, j :: 0 <= i < j < |tags| ==> tags[i].species != tags[j].species)
      && (forall k :: 0 <= k < |detections| ==> exists i :: 0 <= i < |tags| && tags[i].species == detections[k]["species"])
      && (forall i :: 0 <= i < |tags| ==> exists k :: 0 <= k < |detections| && detections[k]["species"] == tags[i].species)
  {
    var sp := SpeciesOf(detections);
    var ds := Distinct(sp);
    DistinctSpec(sp);
    forall k | 0 <= k < |detections|
      ensures exists i :: 0 <= i < |ds| && ds[i] == detections[k]["species"]
    {
      assert sp[k] in ds;
    }
    forall i | 0 <= i < |ds|
      ensures exists k :: 0 <= k < |detections| && detections[k]["species"] == ds[i]
    {
      DistinctMember(sp, i);
    }
  }

  /** Each tag's count is the number of detections of its species. */
  lemma TagCountsExact(detections: seq<Detection>, i: nat)
    requires AllHaveSpecies(detections) && i < |BirdTags(detections)|
    ensures BirdTags(detections)[i].count == Count(SpeciesOf(detections), BirdTags(detections)[i].species)
    ensures BirdTags(detections)[i].count >= 1
  {
    var sp := SpeciesOf(detections);
    DistinctSpec(sp);
    CountsSpec(sp);
    var s := Distinct(sp)[i];
    assert s in Counts(sp);
    CountPositive(sp, s);
  }

  function SumTags(tags: seq<Tag>): nat
    decreases |tags|
  {
    if |tags| == 0 then 0 else SumTags(tags[..|tags| - 1]) + tags[|tags| - 1].count
  }

  lemma {:induction false} SumTagsFor(ds: seq<Cell>, sp: seq<Cell>)
    ensures SumTags(TagsFor(ds, sp)) == SumCounts(ds, sp)
    decreases |ds|
  {
    if |ds| > 0 {
      var init := ds[..|ds| - 1];
      SumTagsFor(init, sp);
      assert TagsFor(ds, sp)[..|ds| - 1] == TagsFor(init, sp);
    }
  }

  /** The counts add up to the number of detections. */
  lemma TagCountsAddUp(detections: seq<Detection>)
    requires AllHaveSpecies(detections)
    ensures SumTags(BirdTags(detections)) == |detections|
  {
    var sp := SpeciesOf(detections);
    SumTagsFor(Distinct(sp), sp);
    CountsAddUp(sp);
  }

  /** Tags come in order of each species' first detection. */
  lemma TagsInFirstOccurrenceOrder(detections: seq<Detection>, i: nat, j: nat)
    requires AllHaveSpecies(detections) && i < j < |BirdTags(detections)|
    ensures exists p, q :: (0 <= p < q < |detections|
      && detections[p]["species"] == BirdTags(detections)[i].species
      && detections[q]["species"] == BirdTags(detections)[j].species
      && forall r :: 0 <= r < q ==> detections[r]["species"] != BirdTags(detections)[j].species)
  {
    var sp := SpeciesOf(detections);
    DistinctFirstOccurrence(sp, i, j);
    var p, q :| 0 <= p < q < |sp| && sp[p] == Distinct(sp)[i] && sp[q] == Distinct(sp)[j] && Distinct(sp)[j] !in sp[..q];
    forall r | 0 <= r < q ensures detections[r]["species"] != Distinct(sp)[j] {
      assert sp[r] == sp[..q][r];
    }
  }

  /** A detection without a species empties the whole result. */
  lemma MissingSpeciesEmpties(detections: seq<Detection>, k: nat)
    requires k < |detections| && "species" !in detections[k]
    ensures BirdTags(detections) == []
  {
  }

  /** The analyser's detections always carry a species, so their tags account for every one of them. */
  lemma AnalysisTagsAddUp(parseFloat: string -> Option<real>, installed: bool, run: AnalyserRun)
    ensures SumTags(BirdTags(Analysis(parseFloat, installed, run))) == |Analysis(parseFloat, installed, run)|
  {
    TagCountsAddUp(Analysis(parseFloat, installed, run));
  }

  // ---------------------------------------------------------------- record identity

  /**
   * `save_metadata`'s key: `file_id` is "audio_", the stem of the file name,
   * "_" and the clock in whole seconds; the timestamp is the clock in whole
   * milliseconds. The clock is read twice, once for each.
   */
  function FileId(fileName: string, seconds: real): string {
    "audio_" + Stem(fileName) + "_" + IntToString(Truncate(seconds))
  }

  function Timestamp(seconds: real): int {
    Truncate(seconds * 1000.0)
  }

  /** The seconds can be read back from the `file_id`: they follow its last '_'. */
  lemma FileIdSeconds(fileName: string, seconds: real)
    ensures var id := FileId(fileName, seconds);
      var cut := RFind(id, '_');
      cut >= 0 && ParseInt(id[cut + 1..]) == Some(Truncate(seconds))
  {
    var digits := IntToString(Truncate(seconds));
    var head := "audio_" + Stem(fileName);
    var id := FileId(fileName, seconds);
    assert id == head + "_" + digits;
    assert '_' !in digits by {
      var t := Truncate(seconds);
      var n: nat := if t < 0 then -t else t;
      var ds := NatToString(n);
      assert forall j :: 0 <= j < |ds| ==> IsDigit(ds[j]);
      assert digits == if t < 0 then "-" + ds else ds;
    }
    var cut := RFind(id, '_');
    assert id[|head|] == '_';
    assert cut == |head| by {
      forall j | |head| < j < |id| ensures id[j] != '_' {
        assert id[j] == digits[j - |head| - 1];
      }
    }
    assert id[cut + 1..] == digits;
    ParseIntToString(Truncate(seconds));
  }

  lemma FloorScale(x: real)
    requires x >= 0.0
    ensures (x * 1000.0).Floor / 1000 == x.Floor
  {
    var s := x.Floor;
    assert s as real <= x < s as real + 1.0;
    var m := (x * 1000.0).Floor;
    assert (s * 1000) as real <= x * 1000.0;
    assert x * 1000.0 < (s * 1000 + 1000) as real;
    assert s * 1000 <= m < s * 1000 + 1000;
  }

  /** For one clock reading after 1970, the timestamp is the `file_id`'s seconds scaled to milliseconds. */
  lemma TimestampMatchesSeconds(seconds: real)
    requires seconds >= 0.0
    ensures Timestamp(seconds) / 1000 == Truncate(seconds)
    ensures Timestamp(seconds) >= 0
  {
    FloorScale(seconds);
  }

  /**
   * The two readings `save_metadata` makes, `s1` for the `file_id` and a
   * later `s2` for the timestamp: the timestamp's seconds are never earlier
   * than the `file_id`'s, never later than the second reading's, and agree
   * with the `file_id` when both readings fall in the same second.
   */
  lemma TwoReads(s1: real, s2: real)
    requires 0.0 <= s1 <= s2
    ensures Truncate(s1) <= Timestamp(s2) / 1000 <= Truncate(s2)
    ensures Truncate(s1) == Truncate(s2) ==> Timestamp(s2) / 1000 == Truncate(s1)
  {
    FloorScale(s2);
    assert s1.Floor <= s2.Floor;
  }

  /** Readings on either side of a second boundary give a `file_id` one second behind the timestamp. */
  lemma TwoReadsMayDiffer()
    ensures Truncate(9.9995) == 9 && Timestamp(10.0) / 1000 == 10
  {
    FloorScale(10.0);
  }
}
