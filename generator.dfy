/** The Blender add-on's HBJsonGenerator: a fixed template document, and
    generate_json, which fills the template's counts and frame_data from a
    list of engine placements. The float arithmetic (max, * 500, /) is left
    uninterpreted: it is passed in as FloatOps. */
module Generator {
  import opened Bytes
  import opened Document
  import opened Format
  import opened Encoding

  // ---------------------------------------------------------------------
  // The template

  const ATTRIB_NAMES: seq<Value> := [
    Str("id"), Str("InitialSpriteSizeX"), Str("InitialSpriteSizeY"), Str("Alpha"),
    Str("Color"), Str("class"), Str("pscale"), Str("CameraOffset"), Str("Age"),
    Str("age"), Str("P"), Str("DynamicMaterialParameterW"), Str("Life"),
    Str("DynamicMaterialParameterX"), Str("Cd"), Str("DynamicMaterialParameterY"),
    Str("DynamicMaterialParameterZ"), Str("MaterialOption")]

  const ATTRIB_SIZES: seq<Value> := [
    Int(1), Int(1), Int(1), Int(1), Int(3), Int(1), Int(1), Int(1), Int(1),
    Int(1), Int(3), Int(1), Int(1), Int(1), Int(3), Int(1), Int(1), Int(1)]

  /** 24 tags for 18 attributes: only the first 18 are ever looked up. */
  const ATTRIB_TYPES: seq<Value> := [
    Int(108), Int(102), Int(102), Int(102), Int(102), Int(102), Int(102), Int(108),
    Int(102), Int(102), Int(102), Int(102), Int(102), Int(102), Int(102), Int(102),
    Int(102), Int(102), Int(102), Int(102), Int(102), Int(102), Int(102), Int(108)]

  /** The float32 patterns of the literals 1.0 and 0.0. */
  const ONE: Word32 := 0x3F80_0000
  const ZERO: Word32 := 0

  /** CameraOffset's value, 2 to the 30th. */
  const CAMERA_OFFSET: int := 1073741824

  /** The header, with its two counts and its three attribute lists. */
  function HeaderWith(samples: int, points: int, names: seq<Value>, sizes: seq<Value>, types: seq<Value>): seq<Entry>
  {
    [Entry("version", Str("1.0")),
     Entry("num_samples", Int(samples)),
     Entry("num_frames", Int(1)),
     Entry("num_points", Int(points)),
     Entry(NUM_ATTRIB, Int(18)),
     Entry("attrib_name", List(names)),
     Entry("attrib_size", List(sizes)),
     Entry("attrib_data_type", List(types)),
     Entry("data_type", Str("linear"))]
  }

  /** The template's header, with its two counts. */
  function Header(samples: int, points: int): seq<Entry>
  {
    HeaderWith(samples, points, ATTRIB_NAMES, ATTRIB_SIZES, ATTRIB_TYPES)
  }

  /** The one frame's entries, with `n` points and the given frame_data. */
  function FrameEntries(n: int, points: seq<Value>): seq<Entry>
  {
    [Entry("number", Int(62)), Entry("time", Int(0)), Entry("num_points", Int(n)),
     Entry(FRAME_DATA, List(points))]
  }

  /** A document shaped like the template, by its header entries and its
      frame's entries. */
  function Shaped(header: seq<Entry>, frame: seq<Entry>): Value
  {
    Obj([Entry("header", Obj(header)),
         Entry("cache_data", Obj([Entry("frames", List([Obj(frame)]))]))])
  }

  /** The whole document for `n` placements whose points are `points`. */
  function Output(n: int, points: seq<Value>): Value
  {
    Shaped(Header(n, n), FrameEntries(n, points))
  }

  /** HBJsonGenerator.__init__'s template: no points yet. */
  function Template(): Value
  {
    Output(0, [])
  }

  // ---------------------------------------------------------------------
  // Dict and list access, as generate_json uses them

  /** `v[key]` on a dict; the template always has the keys asked for. */
  function Field(v: Value, key: string): Value
  {
    if v.Obj? then
      match Get(v.entries, key)
      case Some(x) => x
      case None => Null
    else Null
  }

  /** `v[key] = x` on a dict. */
  function With(v: Value, key: string, x: Value): Value
  {
    if v.Obj? then Obj(Put(v.entries, key, x)) else v
  }

  /** `v[0]` on a non-empty list. */
  function First(v: Value): Value
  {
    if v.List? && |v.items| > 0 then v.items[0] else Null
  }

  /** `v[0] = x` on a non-empty list. */
  function WithFirst(v: Value, x: Value): Value
  {
    if v.List? && |v.items| > 0 then List([x] + v.items[1..]) else v
  }

  /** output["header"][key] = x */
  function WithHeader(output: Value, key: string, x: Value): Value
  {
    With(output, "header", With(Field(output, "header"), key, x))
  }

  /** output["cache_data"]["frames"][0][key] = x */
  function WithFrame(output: Value, key: string, x: Value): Value
  {
    var cacheData := Field(output, "cache_data");
    var frames := Field(cacheData, "frames");
    With(output, "cache_data", With(cacheData, "frames", WithFirst(frames, With(First(frames), key, x))))
  }

  lemma WithHeaderAt(header: seq<Entry>, frame: seq<Entry>, i: nat, x: Value)
    requires i < |header| && forall j :: 0 <= j < i ==> header[j].key != header[i].key
    ensures WithHeader(Shaped(header, frame), header[i].key, x)
         == Shaped(header[i := Entry(header[i].key, x)], frame)
  {
    var top := Shaped(header, frame).entries;
    GetAt(top, 0);
    PutAt(header, i, x);
    PutAt(top, 0, Obj(header[i := Entry(header[i].key, x)]));
  }

  lemma WithFrameAt(header: seq<Entry>, frame: seq<Entry>, i: nat, x: Value)
    requires i < |frame| && forall j :: 0 <= j < i ==> frame[j].key != frame[i].key
    ensures WithFrame(Shaped(header, frame), frame[i].key, x)
         == Shaped(header, frame[i := Entry(frame[i].key, x)])
  {
    var doc := Shaped(header, frame);
    var top := doc.entries;
    var cacheData := [Entry("frames", List([Obj(frame)]))];
    var frame' := frame[i := Entry(frame[i].key, x)];
    assert top[1].key != top[0].key;
    GetAt(top, 1);
    assert Field(doc, "cache_data") == Obj(cacheData);
    GetAt(cacheData, 0);
    assert Field(Obj(cacheData), "frames") == List([Obj(frame)]);
    PutAt(frame, i, x);
    assert With(First(List([Obj(frame)])), frame[i].key, x) == Obj(frame');
    assert WithFirst(List([Obj(frame)]), Obj(frame')) == List([Obj(frame')]);
    PutAt(cacheData, 0, List([Obj(frame')]));
    assert With(Obj(cacheData), "frames", List([Obj(frame')])) == Obj([Entry("frames", List([Obj(frame')]))]);
    PutAt(top, 1, Obj([Entry("frames", List([Obj(frame')]))]));
  }

  lemma SetSamples(samples: int, points: int, names: seq<Value>, sizes: seq<Value>, types: seq<Value>,
                   frame: seq<Entry>, n: int)
    ensures WithHeader(Shaped(HeaderWith(samples, points, names, sizes, types), frame), "num_samples", Int(n))
         == Shaped(HeaderWith(n, points, names, sizes, types), frame)
  {
    var h := HeaderWith(samples, points, names, sizes, types);
    WithHeaderAt(h, frame, 1, Int(n));
    assert h[1 := Entry("num_samples", Int(n))] == HeaderWith(n, points, names, sizes, types);
  }

  lemma SetHeaderPoints(samples: int, points: int, names: seq<Value>, sizes: seq<Value>, types: seq<Value>,
                        frame: seq<Entry>, n: int)
    ensures WithHeader(Shaped(HeaderWith(samples, points, names, sizes, types), frame), "num_points", Int(n))
         == Shaped(HeaderWith(samples, n, names, sizes, types), frame)
  {
    var h := HeaderWith(samples, points, names, sizes, types);
    WithHeaderAt(h, frame, 3, Int(n));
    assert h[3 := Entry("num_points", Int(n))] == HeaderWith(samples, n, names, sizes, types);
  }

  lemma SetFramePoints(header: seq<Entry>, m: int, points: seq<Value>, n: int)
    ensures WithFrame(Shaped(header, FrameEntries(m, points)), "num_points", Int(n))
         == Shaped(header, FrameEntries(n, points))
  {
    var f := FrameEntries(m, points);
    WithFrameAt(header, f, 2, Int(n));
    assert f[2 := Entry("num_points", Int(n))] == FrameEntries(n, points);
  }

  lemma SetFrameData(header: seq<Entry>, n: int, points: seq<Value>, points': seq<Value>)
    ensures WithFrame(Shaped(header, FrameEntries(n, points)), FRAME_DATA, List(points'))
         == Shaped(header, FrameEntries(n, points'))
  {
    var f := FrameEntries(n, points);
    WithFrameAt(header, f, 3, List(points'));
    assert f[3 := Entry(FRAME_DATA, List(points'))] == FrameEntries(n, points');
  }

  /** The four assignments generate_json makes to its copy of the template
      give the document Output describes. */
  lemma TemplateFilled(n: int, points: seq<Value>)
    ensures WithFrame(WithFrame(WithHeader(WithHeader(Template(), "num_samples", Int(n)), "num_points", Int(n)),
                                "num_points", Int(n)), FRAME_DATA, List(points))
         == Output(n, points)
  {
    SetSamples(0, 0, ATTRIB_NAMES, ATTRIB_SIZES, ATTRIB_TYPES, FrameEntries(0, []), n);
    SetHeaderPoints(n, 0, ATTRIB_NAMES, ATTRIB_SIZES, ATTRIB_TYPES, FrameEntries(0, []), n);
    SetFramePoints(Header(n, n), 0, [], n);
    SetFrameData(Header(n, n), n, [], points);
  }

  // ---------------------------------------------------------------------
  // The placements and the points made from them

  /** One placement the add-on exports: its location and its dimensions. */
  datatype Placement = Placement(location: seq<Value>, dimensions: seq<Word32>)

  /** The float operations generate_json applies: `max` over a non-empty
      list, `x * 500`, and `x / y`, which raises (None) when y is zero. */
  datatype FloatOps = FloatOps(
    max: seq<Word32> -> Word32,
    times500: Word32 -> Word32,
    divide: (Word32, Word32) -> Option<Word32>)

  /** The 18 attributes of point i, in the order of ATTRIB_NAMES. */
  function PointData(i: nat, location: seq<Value>, spriteSize: Word32, pscale: Word32): (r: Value)
    ensures r.List? && |r.items| == |ATTRIB_NAMES|
  {
    List([
      List([Int(i)]),                                  // id
      List([Float(spriteSize)]),                       // InitialSpriteSizeX
      List([Float(spriteSize)]),                       // InitialSpriteSizeY
      List([Float(ONE)]),                              // Alpha
      List([Float(ONE), Float(ONE), Float(ONE)]),      // Color
      List([Float(ZERO)]),                             // class
      List([Float(pscale)]),                           // pscale
      List([Int(CAMERA_OFFSET)]),                      // CameraOffset
      List([Float(ZERO)]),                             // Age
      List([Float(ZERO)]),                             // age
      List(location),                                  // P
      List([Float(ONE)]),                              // DynamicMaterialParameterW
      List([Float(ONE)]),                              // Life
      List([Float(ONE)]),                              // DynamicMaterialParameterX
      List([Float(ONE), Float(ONE), Float(ONE)]),      // Cd
      List([Float(ONE)]),                              // DynamicMaterialParameterY
      List([Float(ONE)]),                              // DynamicMaterialParameterZ
      List([Float(ZERO)])])                            // MaterialOption
  }

  /** Every placement has a dimension to take the max of. */
  predicate Measurable(input: seq<Placement>)
  {
    forall i :: 0 <= i < |input| ==> |input[i].dimensions| > 0
  }

  /** `[max(point["dimensions"]) for point in input_data]` */
  function Maxima(input: seq<Placement>, ops: FloatOps): (r: seq<Word32>)
    requires Measurable(input)
    ensures |r| == |input| && forall i :: 0 <= i < |input| ==> r[i] == ops.max(input[i].dimensions)
  {
    if |input| == 0 then []
    else Maxima(input[..|input| - 1], ops) + [ops.max(input[|input| - 1].dimensions)]
  }

  /** Point i of frame_data, or None when its pscale divides by zero. */
  function PointAt(i: nat, p: Placement, ops: FloatOps, inputsMax: Word32): (r: Option<Value>)
    requires |p.dimensions| > 0
    ensures r.Some? <==> ops.divide(ops.max(p.dimensions), inputsMax).Some?
  {
    var maxDimension := ops.max(p.dimensions);
    match ops.divide(maxDimension, inputsMax)
    case None => None
    case Some(pscale) => Some(PointData(i, p.location, ops.times500(maxDimension), pscale))
  }

  /** generate_json's loop over the placements: point i is made from
      placement i, and the loop fails when any point's division does. */
  function FrameData(input: seq<Placement>, ops: FloatOps, inputsMax: Word32): (r: Option<seq<Value>>)
    requires Measurable(input)
    ensures r.Some? <==> forall i :: 0 <= i < |input| ==> PointAt(i, input[i], ops, inputsMax).Some?
    ensures r.Some? ==> |r.value| == |input|
    ensures r.Some? ==> forall i :: 0 <= i < |input| ==> PointAt(i, input[i], ops, inputsMax) == Some(r.value[i])
  {
    if |input| == 0 then Some([])
    else
      var init := input[..|input| - 1];
      assert forall i :: 0 <= i < |init| ==> init[i] == input[i];
      match FrameData(init, ops, inputsMax)
      case None => None
      case Some(points) =>
        match PointAt(|input| - 1, input[|input| - 1], ops, inputsMax)
        case None => None
        case Some(point) => Some(points + [point])
  }

  /** What generate_json returns, or None when it raises: max() of an
      empty list, or a division by a zero maximum. */
  function Generated(input: seq<Placement>, ops: FloatOps): (r: Option<Value>)
    ensures r.Some? <==>
              |input| > 0 && Measurable(input) &&
              forall i :: 0 <= i < |input| ==> PointAt(i, input[i], ops, ops.max(Maxima(input, ops))).Some?
  {
    if |input| == 0 || !Measurable(input) then None
    else
      match FrameData(input, ops, ops.max(Maxima(input, ops)))
      case None => None
      case Some(points) => Some(Output(|input|, points))
  }

  /** output["header"] */
  function HeaderOf(output: Value): Value
  {
    Field(output, "header")
  }

  /** output["cache_data"]["frames"][0] */
  function FrameOf(output: Value): Value
  {
    First(Field(Field(output, "cache_data"), "frames"))
  }

  /** The three counts are the number of placements, and frame_data holds
      one point per placement, point i made from placement i. */
  lemma GeneratedCounts(input: seq<Placement>, ops: FloatOps)
    requires Generated(input, ops).Some?
    ensures var d := Generated(input, ops).value;
      Field(HeaderOf(d), "num_samples") == Int(|input|) &&
      Field(HeaderOf(d), "num_points") == Int(|input|) &&
      Field(FrameOf(d), "num_points") == Int(|input|) &&
      Field(FrameOf(d), FRAME_DATA).List? &&
      |Field(FrameOf(d), FRAME_DATA).items| == |input| &&
      forall i :: 0 <= i < |input| ==>
        PointAt(i, input[i], ops, ops.max(Maxima(input, ops))) == Some(Field(FrameOf(d), FRAME_DATA).items[i])
  {
    var points := FrameData(input, ops, ops.max(Maxima(input, ops))).value;
    OutputFields(|input|, points);
  }

  /** The generated document, and the template (n = 0, no points): its
      counts, its frame_data, and a header that declares 18 attributes with
      18 names and 18 sizes but 24 type tags, of which only the first 18
      are ever read. */
  lemma OutputFields(n: int, points: seq<Value>)
    ensures Field(HeaderOf(Output(n, points)), "num_samples") == Int(n)
    ensures Field(HeaderOf(Output(n, points)), "num_points") == Int(n)
    ensures Field(FrameOf(Output(n, points)), "num_points") == Int(n)
    ensures Field(FrameOf(Output(n, points)), FRAME_DATA) == List(points)
    ensures Field(HeaderOf(Output(n, points)), NUM_ATTRIB) == Int(18)
    ensures Field(HeaderOf(Output(n, points)), "attrib_name") == List(ATTRIB_NAMES) && |ATTRIB_NAMES| == 18
    ensures Field(HeaderOf(Output(n, points)), "attrib_size") == List(ATTRIB_SIZES) && |ATTRIB_SIZES| == 18
    ensures Field(HeaderOf(Output(n, points)), "attrib_data_type") == List(ATTRIB_TYPES) && |ATTRIB_TYPES| == 24
  {
    ShapedParts(Header(n, n), FrameEntries(n, points));
    HeaderFields(n, n, ATTRIB_NAMES, ATTRIB_SIZES, ATTRIB_TYPES);
    FrameFields(n, points);
  }

  lemma ShapedParts(header: seq<Entry>, frame: seq<Entry>)
    ensures HeaderOf(Shaped(header, frame)) == Obj(header)
    ensures FrameOf(Shaped(header, frame)) == Obj(frame)
  {
    var top := Shaped(header, frame).entries;
    GetAt(top, 0);
    assert top[1].key != top[0].key;
    GetAt(top, 1);
    GetAt([Entry("frames", List([Obj(frame)]))], 0);
  }

  lemma HeaderFields(samples: int, points: int, names: seq<Value>, sizes: seq<Value>, types: seq<Value>)
    ensures var h := Obj(HeaderWith(samples, points, names, sizes, types));
      Field(h, "num_samples") == Int(samples) && Field(h, "num_points") == Int(points) &&
      Field(h, NUM_ATTRIB) == Int(18) && Field(h, "attrib_name") == List(names) &&
      Field(h, "attrib_size") == List(sizes) && Field(h, "attrib_data_type") == List(types)
  {
    var h := HeaderWith(samples, points, names, sizes, types);
    HeaderField(h, 1);
    HeaderField(h, 3);
    HeaderField(h, 4);
    HeaderField(h, 5);
    HeaderField(h, 6);
    HeaderField(h, 7);
  }

  lemma HeaderField(h: seq<Entry>, i: nat)
    requires |h| == 9 && 0 < i < 8
    requires h[0].key == "version" && h[1].key == "num_samples" && h[2].key == "num_frames"
    requires h[3].key == "num_points" && h[4].key == NUM_ATTRIB && h[5].key == "attrib_name"
    requires h[6].key == "attrib_size" && h[7].key == "attrib_data_type"
    ensures Field(Obj(h), h[i].key) == h[i].val
  {
    GetAt(h, i);
  }

  lemma FrameFields(n: int, points: seq<Value>)
    ensures Field(Obj(FrameEntries(n, points)), "num_points") == Int(n)
    ensures Field(Obj(FrameEntries(n, points)), FRAME_DATA) == List(points)
  {
    var f := FrameEntries(n, points);
    GetAt(f, 2);
    GetAt(f, 3);
  }

  /** Point i's 18 attributes line up with the template: each has
      attrib_size components (P too, when the location has three), id is
      [i] and CameraOffset is [2^30], and these two, tagged 'l' in
      attrib_data_type, are the only integer attributes; every other
      attribute but P is all floats, tagged 'f'. */
  lemma PointShape(i: nat, location: seq<Value>, spriteSize: Word32, pscale: Word32)
    ensures var pt := PointData(i, location, spriteSize, pscale).items;
      pt[0] == List([Int(i)]) && pt[7] == List([Int(CAMERA_OFFSET)]) && pt[10] == List(location) &&
      (forall k :: 0 <= k < |pt| ==> pt[k].List?) &&
      (forall k :: 0 <= k < |pt| && (k != 10 || |location| == 3) ==> ATTRIB_SIZES[k] == Int(|pt[k].items|)) &&
      (forall k :: 0 <= k < |pt| ==> (ATTRIB_TYPES[k] == Int(INT32 as int) <==> k == 0 || k == 7)) &&
      (forall k :: 0 <= k < |pt| && k != 0 && k != 7 ==> ATTRIB_TYPES[k] == Int(FLOAT32 as int)) &&
      (forall k, c :: 0 <= k < |pt| && k != 0 && k != 7 && k != 10 && 0 <= c < |pt[k].items| ==> pt[k].items[c].Float?)
  {
    var pt := PointData(i, location, spriteSize, pscale).items;
    forall k | 0 <= k < |pt|
      ensures pt[k].List? && ((k != 10 || |location| == 3) ==> ATTRIB_SIZES[k] == Int(|pt[k].items|))
      ensures ATTRIB_TYPES[k] == Int(if k == 0 || k == 7 then INT32 as int else FLOAT32 as int)
      ensures k != 0 && k != 7 && k != 10 ==> forall c :: 0 <= c < |pt[k].items| ==> pt[k].items[c].Float?
    {
      TemplateColumns(k);
      PointColumns(i, location, spriteSize, pscale, k);
    }
  }

  /** The tag and the size the template declares at position k. */
  lemma TemplateColumns(k: nat)
    requires k < 18
    ensures ATTRIB_TYPES[k] == Int(if k == 0 || k == 7 then INT32 as int else FLOAT32 as int)
    ensures ATTRIB_SIZES[k] == Int(if k == 4 || k == 10 || k == 14 then 3 else 1)
  {
  }

  /** Attribute k of a point: its components' kind and number. */
  lemma PointColumns(i: nat, location: seq<Value>, spriteSize: Word32, pscale: Word32, k: nat)
    requires k < 18
    ensures var a := PointData(i, location, spriteSize, pscale).items[k];
      a.List? &&
      (k == 10 ==> a.items == location) &&
      (k != 10 ==> |a.items| == if k == 4 || k == 14 then 3 else 1) &&
      (k == 0 ==> a.items == [Int(i)]) && (k == 7 ==> a.items == [Int(CAMERA_OFFSET)]) &&
      (k != 0 && k != 7 && k != 10 ==> forall c :: 0 <= c < |a.items| ==> a.items[c].Float?)
  {
  }

  class HBJsonGenerator {
    /** The template, set up once by __init__. */
    const template: Value := Template()

    constructor()
      ensures template == Template()
    {
    }

    /** generate_json. The template is a constant: a call cannot change it. */
    method GenerateJson(input: seq<Placement>, ops: FloatOps) returns (r: Option<Value>)
      ensures r == Generated(input, ops)
    {
      var output := template;
      output := WithHeader(output, "num_samples", Int(|input|));
      output := WithHeader(output, "num_points", Int(|input|));
      output := WithFrame(output, "num_points", Int(|input|));

      var maxima := MaximaOf(input, ops);
      if maxima.None? || |maxima.value| == 0 {
        return None;
      }
      var inputsMax := ops.max(maxima.value);
      var frameData := FrameDataOf(input, ops, inputsMax);
      if frameData.None? {
        return None;
      }
      output := WithFrame(output, FRAME_DATA, List(frameData.value));
      TemplateFilled(|input|, frameData.value);
      return Some(output);
    }
  }

  /** `[max(point["dimensions"]) for point in input_data]`, or None when
      some placement has no dimensions. */
  method MaximaOf(input: seq<Placement>, ops: FloatOps) returns (r: Option<seq<Word32>>)
    ensures r.Some? <==> Measurable(input)
    ensures r.Some? ==> r.value == Maxima(input, ops)
  {
    var maxima: seq<Word32> := [];
    for i := 0 to |input|
      invariant Measurable(input[..i]) && maxima == Maxima(input[..i], ops)
    {
      if |input[i].dimensions| == 0 {
        return None;
      }
      PrefixStep(input, i);
      maxima := maxima + [ops.max(input[i].dimensions)];
    }
    PrefixWhole(input);
    return Some(maxima);
  }

  /** generate_json's loop building frame_data. */
  method FrameDataOf(input: seq<Placement>, ops: FloatOps, inputsMax: Word32) returns (r: Option<seq<Value>>)
    requires Measurable(input)
    ensures r == FrameData(input, ops, inputsMax)
  {
    var frameData: seq<Value> := [];
    for i := 0 to |input|
      invariant FrameData(input[..i], ops, inputsMax) == Some(frameData)
    {
      var location := input[i].location;
      var dimensions := input[i].dimensions;
      var maxDimension := ops.max(dimensions);
      var spriteSize := ops.times500(maxDimension);
      var pscale := ops.divide(maxDimension, inputsMax);
      PrefixStep(input, i);
      FrameDataPrefix(input, ops, inputsMax, i + 1);
      if pscale.None? {
        return None;
      }
      frameData := frameData + [PointData(i, location, spriteSize, pscale.value)];
    }
    PrefixWhole(input);
    return Some(frameData);
  }

  /** A failure in the first k placements fails the whole loop. */
  lemma {:induction false} FrameDataPrefix(input: seq<Placement>, ops: FloatOps, inputsMax: Word32, k: nat)
    requires Measurable(input) && k <= |input|
    ensures FrameData(input[..k], ops, inputsMax).None? ==> FrameData(input, ops, inputsMax).None?
    decreases |input| - k
  {
    if k < |input| {
      FrameDataPrefix(input, ops, inputsMax, k + 1);
      assert input[..k + 1][..k] == input[..k];
    } else {
      assert input[..k] == input;
    }
  }
}
