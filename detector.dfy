/**
 * The bird detector service's `/detect-bird` route: it decodes the posted
 * image, runs the detection model, keeps the detections above the confidence
 * threshold, draws them, and answers with the species counts, the annotated
 * image and a thumbnail, both as base64 JPEG.
 */
module Detector {
  import opened Wrappers
  import opened Text
  import opened Tally
  import opened JsonValue
  import Base64

  /** Detections must be strictly more confident than this to be kept. */
  const Confidence: real := 0.5

  /** A decoded image; its pixels are only handed on to the vision functions. */
  datatype Image = Image(width: nat, height: nat, pixels: seq<byte>)

  /** One detection: the model's class id and its confidence. */
  datatype Box = Box(classId: int, confidence: real)

  /** The model's detections; `hasClassIds` is false when no class ids come with them. */
  datatype Found = Found(boxes: seq<Box>, hasClassIds: bool)

  /**
   * The image libraries and the model, as given functions: `cv2.imdecode`
   * (which can raise, or give no image), the model, the two annotators,
   * the thumbnail resize (which raises when a side scales to 0 pixels),
   * `cv2.imencode(".jpg")`, and the model's class names.
   */
  datatype Vision = Vision(
    decode: seq<byte> -> Result<Option<Image>>,
    model: Image -> Result<Found>,
    annotate: (Image, seq<Box>) -> Image,
    thumbnail: Image -> Result<Image>,
    encodeJpeg: Image -> Option<seq<byte>>,
    names: map<int, string>)

  /** A reply of the route: `code` is both the HTTP status and the body's code. */
  datatype DetectResponse = DetectResponse(code: int, msg: string, data: Json)

  function Refuse(msg: string): DetectResponse {
    DetectResponse(400, msg, JObj(map[]))
  }

  function DetectFailed(reason: string): DetectResponse {
    DetectResponse(500, "Detect failed: " + reason, JObj(map[]))
  }

  /** `detections[detections.confidence > CONFIDENCE]`: the boxes above the threshold, in order. */
  function Kept(boxes: seq<Box>): (kept: seq<Box>)
    ensures |kept| <= |boxes|
    ensures forall k :: 0 <= k < |kept| ==> kept[k].confidence > Confidence
    ensures forall x :: x in kept <==> x in boxes && x.confidence > Confidence
    decreases |boxes|
  {
    if |boxes| == 0 then []
    else
      var init := Kept(boxes[..|boxes| - 1]);
      var last := boxes[|boxes| - 1];
      assert boxes == boxes[..|boxes| - 1] + [last];
      if last.confidence > Confidence then init + [last] else init
  }

  /** A box above the threshold is kept after the ones before it: the filter keeps the order. */
  lemma KeptHigh(boxes: seq<Box>, high: Box)
    requires high.confidence > Confidence
    ensures Kept(boxes + [high]) == Kept(boxes) + [high]
  {
    assert (boxes + [high])[..|boxes|] == boxes;
  }

  /** Each box above the threshold is kept as many times as it occurs; no other box is kept. */
  lemma {:induction false} KeptMultiplicity(boxes: seq<Box>)
    ensures forall x :: multiset(Kept(boxes))[x] == if x.confidence > Confidence then multiset(boxes)[x] else 0
    decreases |boxes|
  {
    if |boxes| > 0 {
      var init := boxes[..|boxes| - 1];
      var last := boxes[|boxes| - 1];
      assert boxes == init + [last];
      assert multiset(boxes) == multiset(init) + multiset{last};
      KeptMultiplicity(init);
      if last.confidence > Confidence {
        KeptHigh(init, last);
        assert multiset(Kept(boxes)) == multiset(Kept(init)) + multiset{last};
      } else {
        LowConfidenceIgnored(init, last);
      }
    }
  }

  /** The indices of the boxes above the threshold whose class is named `n`. */
  function AboveNamed(boxes: seq<Box>, names: map<int, string>, n: string): set<int> {
    set k | 0 <= k < |boxes| && boxes[k].confidence > Confidence && boxes[k].classId in names
                              && names[boxes[k].classId] == n
  }

  lemma CountSnoc<T>(xs: seq<T>, y: T, x: T)
    ensures Count(xs + [y], x) == Count(xs, x) + (if y == x then 1 else 0)
  {
    assert (xs + [y])[..|xs|] == xs;
  }

  lemma SpeciesNamesSnoc(kept: seq<Box>, b: Box, names: map<int, string>)
    requires forall k :: 0 <= k < |kept| ==> kept[k].classId in names
    requires b.classId in names
    ensures SpeciesNames(kept + [b], names) == SpeciesNames(kept, names) + [names[b.classId]]
  {
  }

  lemma AboveNamedSnoc(init: seq<Box>, last: Box, names: map<int, string>, n: string)
    ensures |AboveNamed(init + [last], names, n)|
      == |AboveNamed(init, names, n)|
         + (if last.confidence > Confidence && last.classId in names && names[last.classId] == n then 1 else 0)
  {
    var boxes := init + [last];
    var below := AboveNamed(init, names, n);
    assert forall k :: 0 <= k < |init| ==> boxes[k] == init[k];
    if last.confidence > Confidence && last.classId in names && names[last.classId] == n {
      assert AboveNamed(boxes, names, n) == below + {|init|};
      assert |init| !in below;
    } else {
      assert AboveNamed(boxes, names, n) == below;
    }
  }

  /** The number of kept boxes named `n` is the number of boxes above the threshold with that name. */
  lemma {:induction false} KeptNamedCount(boxes: seq<Box>, names: map<int, string>, n: string)
    requires forall k :: 0 <= k < |Kept(boxes)| ==> Kept(boxes)[k].classId in names
    ensures Count(SpeciesNames(Kept(boxes), names), n) == |AboveNamed(boxes, names, n)|
    decreases |boxes|
  {
    if |boxes| == 0 {
      assert AboveNamed(boxes, names, n) == {};
    } else {
      var init := boxes[..|boxes| - 1];
      var last := boxes[|boxes| - 1];
      assert boxes == init + [last];
      var ki := Kept(init);
      AboveNamedSnoc(init, last, names, n);
      if last.confidence > Confidence {
        KeptHigh(init, last);
        assert forall k :: 0 <= k < |ki| ==> ki[k] == Kept(boxes)[k];
        assert last == Kept(boxes)[|ki|];
        KeptNamedCount(init, names, n);
        SpeciesNamesSnoc(ki, last, names);
        CountSnoc(SpeciesNames(ki, names), names[last.classId], n);
      } else {
        LowConfidenceIgnored(init, last);
        KeptNamedCount(init, names, n);
      }
    }
  }

  /** Each tag's count is the number of detections above the threshold with that name. */
  lemma TagCountsAbove(boxes: seq<Box>, names: map<int, string>)
    requires forall k :: 0 <= k < |Kept(boxes)| ==> Kept(boxes)[k].classId in names
    ensures var tags := TagCounts(Kept(boxes), names);
      forall n :: n in tags ==> tags[n] == |AboveNamed(boxes, names, n)|
  {
    var ns := SpeciesNames(Kept(boxes), names);
    CountsSpec(ns);
    forall n | n in TagCounts(Kept(boxes), names) ensures TagCounts(Kept(boxes), names)[n] == |AboveNamed(boxes, names, n)| {
      KeptNamedCount(boxes, names, n);
    }
  }

  /** The first kept box whose class id has no name: the KeyError the label list raises. */
  function UnnamedClass(boxes: seq<Box>, names: map<int, string>): (r: Option<int>)
    ensures r.None? <==> forall k :: 0 <= k < |boxes| ==> boxes[k].classId in names
    ensures r.Some? ==> r.value !in names && exists k :: 0 <= k < |boxes| && boxes[k].classId == r.value
    decreases |boxes|
  {
    if |boxes| == 0 then None
    else if boxes[0].classId !in names then Some(boxes[0].classId)
    else
      var r := UnnamedClass(boxes[1..], names);
      assert forall k :: 1 <= k < |boxes| ==> boxes[k] == boxes[1..][k - 1];
      if r.Some? then var k :| 0 <= k < |boxes[1..]| && boxes[1..][k].classId == r.value; assert boxes[k + 1].classId == r.value; r
      else r
  }

  /** `class_dict[cls_id]` of each kept box. */
  function SpeciesNames(boxes: seq<Box>, names: map<int, string>): (ns: seq<string>)
    requires forall k :: 0 <= k < |boxes| ==> boxes[k].classId in names
    ensures |ns| == |boxes|
  {
    seq(|boxes|, k requires 0 <= k < |boxes| && boxes[k].classId in names => names[boxes[k].classId])
  }

  /** The `tag_count` dictionary: each name mapped to the number of kept boxes with that name. */
  function TagCounts(boxes: seq<Box>, names: map<int, string>): map<string, nat>
    requires forall k :: 0 <= k < |boxes| ==> boxes[k].classId in names
  {
    Counts(SpeciesNames(boxes, names))
  }

  function TagsJson(tags: map<string, nat>): (j: Json)
    ensures j.JObj? && j.fields.Keys == tags.Keys
    ensures forall n :: n in tags ==> j.fields[n] == JInt(tags[n])
  {
    JObj(map n | n in tags :: JInt(tags[n]))
  }

  /** What the route answers, given the posted files. */
  function DetectBird(vision: Vision, files: map<string, seq<byte>>): DetectResponse {
    if "image" !in files then Refuse("No image file")
    else match vision.decode(files["image"])
      case Err(e) => DetectFailed(e)
      case Ok(None) => Refuse("Image decode failed")
      case Ok(Some(img)) =>
        match vision.model(img)
        case Err(e) => DetectFailed(e)
        case Ok(found) =>
          var kept := Kept(found.boxes);
          if found.hasClassIds && UnnamedClass(kept, vision.names).Some? then
            DetectFailed(IntToString(UnnamedClass(kept, vision.names).value))
          else
            var drawn := if found.hasClassIds then vision.annotate(img, kept) else img;
            match vision.thumbnail(drawn)
            case Err(e) => DetectFailed(e)
            case Ok(small) =>
            match (vision.encodeJpeg(drawn), vision.encodeJpeg(small))
            case (None, _) => DetectFailed("Image encode failed")
            case (_, None) => DetectFailed("Image encode failed")
            case (Some(annotated), Some(thumb)) =>
              var tags := if found.hasClassIds then TagCounts(kept, vision.names) else map[];
              DetectResponse(200, "Detect success", JObj(map[
                "tags" := TagsJson(tags),
                "annotated_image" := JStr(Base64.Encode(annotated)),
                "thumbnail_image" := JStr(Base64.Encode(thumb))]))
  }

  /** The `tag_count` loop. */
  method CountTags(boxes: seq<Box>, names: map<int, string>) returns (tagCount: map<string, nat>)
    requires forall k :: 0 <= k < |boxes| ==> boxes[k].classId in names
    ensures tagCount == TagCounts(boxes, names)
  {
    tagCount := map[];
    var i := 0;
    while i < |boxes|
      invariant 0 <= i <= |boxes|
      invariant tagCount == Counts(SpeciesNames(boxes[..i], names))
    {
      var species := names[boxes[i].classId];
      assert SpeciesNames(boxes[..i + 1], names) == SpeciesNames(boxes[..i], names) + [species];
      assert (SpeciesNames(boxes[..i], names) + [species])[..i] == SpeciesNames(boxes[..i], names);
      tagCount := tagCount[species := (if species in tagCount then tagCount[species] else 0) + 1];
      i := i + 1;
    }
    assert boxes[..i] == boxes;
  }

  /** `detect_bird`, step by step, with its counting loop. */
  method DetectBirdRoute(vision: Vision, files: map<string, seq<byte>>) returns (response: DetectResponse)
    ensures response == DetectBird(vision, files)
  {
    if "image" !in files {
      return Refuse("No image file");
    }
    var decoded := vision.decode(files["image"]);
    if decoded.Err? {
      return DetectFailed(decoded.msg);
    }
    if decoded.value.None? {
      return Refuse("Image decode failed");
    }
    var img := decoded.value.value;
    var result := vision.model(img);
    if result.Err? {
      return DetectFailed(result.msg);
    }
    var found := result.value;
    var kept := Kept(found.boxes);
    var drawn := img;
    if found.hasClassIds {
      var missing := UnnamedClass(kept, vision.names);
      if missing.Some? {
        return DetectFailed(IntToString(missing.value));
      }
      drawn := vision.annotate(img, kept);
    }
    var small := vision.thumbnail(drawn);
    if small.Err? {
      return DetectFailed(small.msg);
    }
    var annotated := vision.encodeJpeg(drawn);
    if annotated.None? {
      return DetectFailed("Image encode failed");
    }
    var thumb := vision.encodeJpeg(small.value);
    if thumb.None? {
      return DetectFailed("Image encode failed");
    }
    var tagCount: map<string, nat> := map[];
    if found.hasClassIds {
      tagCount := CountTags(kept, vision.names);
    }
    response := DetectResponse(200, "Detect success", JObj(map[
      "tags" := TagsJson(tagCount),
      "annotated_image" := JStr(Base64.Encode(annotated.value)),
      "thumbnail_image" := JStr(Base64.Encode(thumb.value))]));
  }

  /** Without an `image` file, or with bytes that decode to no image, the answer is 400 with no data. */
  lemma RefusedRequests(vision: Vision, files: map<string, seq<byte>>)
    requires "image" !in files || vision.decode(files["image"]) == Ok(None)
    ensures DetectBird(vision, files).code == 400 && DetectBird(vision, files).data == JObj(map[])
  {
  }

  /**
   * The tags count the kept detections: their names are the names of the
   * detections above the threshold, each with its number of such detections,
   * and the counts add up to the number of kept detections.
   */
  lemma TagCountsSpec(boxes: seq<Box>, names: map<int, string>)
    requires forall k :: 0 <= k < |Kept(boxes)| ==> Kept(boxes)[k].classId in names
    ensures var kept := Kept(boxes);
      var ns := SpeciesNames(kept, names);
      var tags := TagCounts(kept, names);
      && (forall n :: n in tags <==> exists b :: b in boxes && b.confidence > Confidence && b.classId in names && names[b.classId] == n)
      && (forall n :: n in tags ==> tags[n] == Count(ns, n) == |AboveNamed(boxes, names, n)|)
      && (forall n :: n in Distinct(ns) <==> n in tags)
      && NoDuplicates(Distinct(ns))
      && SumCounts(Distinct(ns), ns) == |kept|
  {
    var kept := Kept(boxes);
    var ns := SpeciesNames(kept, names);
    CountsSpec(ns);
    DistinctSpec(ns);
    CountsAddUp(ns);
    TagCountsAbove(boxes, names);
    NamesAbove(boxes, names);
  }

  /** The kept names are exactly the names of the detections above the threshold. */
  lemma NamesAbove(boxes: seq<Box>, names: map<int, string>)
    requires forall k :: 0 <= k < |Kept(boxes)| ==> Kept(boxes)[k].classId in names
    ensures forall n :: n in SpeciesNames(Kept(boxes), names) <==>
      exists b :: b in boxes && b.confidence > Confidence && b.classId in names && names[b.classId] == n
  {
    var kept := Kept(boxes);
    var ns := SpeciesNames(kept, names);
    forall n ensures n in ns <==> exists b :: b in boxes && b.confidence > Confidence && b.classId in names && names[b.classId] == n {
      if n in ns {
        var k :| 0 <= k < |ns| && ns[k] == n;
        assert kept[k] in kept;
      }
      if exists b :: b in boxes && b.confidence > Confidence && b.classId in names && names[b.classId] == n {
        var b :| b in boxes && b.confidence > Confidence && b.classId in names && names[b.classId] == n;
        assert b in kept;
        var k :| 0 <= k < |kept| && kept[k] == b;
        assert ns[k] == n;
      }
    }
  }

  /** Detections at or below the threshold never count, whatever their class. */
  lemma LowConfidenceIgnored(boxes: seq<Box>, low: Box)
    requires low.confidence <= Confidence
    ensures Kept(boxes + [low]) == Kept(boxes)
  {
    assert (boxes + [low])[..|boxes|] == boxes;
  }

  /** With no class ids the answer, when it succeeds, carries no tags. */
  lemma NoClassIdsNoTags(vision: Vision, files: map<string, seq<byte>>)
    requires "image" in files && vision.decode(files["image"]).Ok? && vision.decode(files["image"]).value.Some?
    requires var img := vision.decode(files["image"]).value.value;
      vision.model(img).Ok? && !vision.model(img).value.hasClassIds
    requires DetectBird(vision, files).code == 200
    ensures DetectBird(vision, files).data.fields["tags"] == JObj(map[])
  {
  }

  /** A thumbnail resize that raises fails the request with 500 and the resize's message, before any encoding. */
  lemma ThumbnailFailureFails(vision: Vision, files: map<string, seq<byte>>, img: Image, found: Found, e: string)
    requires "image" in files && vision.decode(files["image"]) == Ok(Some(img))
    requires vision.model(img) == Ok(found)
    requires !found.hasClassIds
    requires vision.thumbnail(img) == Err(e)
    ensures DetectBird(vision, files) == DetectFailed(e)
  {
  }

  /** A class id the model knows no name for fails the request with that id as the message. */
  lemma UnknownClassFails(vision: Vision, files: map<string, seq<byte>>, found: Found, b: Box)
    requires "image" in files && vision.decode(files["image"]).Ok? && vision.decode(files["image"]).value.Some?
    requires vision.model(vision.decode(files["image"]).value.value) == Ok(found)
    requires found.hasClassIds && b in found.boxes && b.confidence > Confidence && b.classId !in vision.names
    ensures DetectBird(vision, files).code == 500
  {
    var kept := Kept(found.boxes);
    assert b in kept;
    var k :| 0 <= k < |kept| && kept[k] == b;
    assert UnnamedClass(kept, vision.names).Some?;
  }
}
