/** Facts about the byte layout on each side taken alone: how wide the
    writer makes each integer, how long a frame_data block is, what the
    reader makes of attribute tags and brackets, and what it does with
    bytes the writer did not mean as markers. */
module Layout {
  import opened Bytes
  import opened Document
  import opened Format
  import opened Encoding
  import opened Decoding
  import opened RoundTrip

  // ---------------------------------------------------------------------
  // The writer

  /** An integer value (a bool included) is written as 4 little-endian
      bytes under the uint32 keys, 2 under num_attrib and not at all under
      any other key. */
  lemma IntegerWidth(key: string, v: Value)
    requires ValueEncodableAt(key, v) && IsIntLike(v)
    ensures var bs := EncodeValueAt(key, v);
      |bs| == (if IsUInt32Key(key) then 4 else if IsUInt16Key(key) then 2 else 0) &&
      (|bs| > 0 ==> UnpackUnsigned(bs) == IntOf(v))
  {
    if IsUInt32Key(key) {
      UnpackPackUInt32(IntOf(v));
    } else if IsUInt16Key(key) {
      UnpackPackUInt16(IntOf(v));
    }
  }

  /** num_attrib = 20 takes two bytes, num_points = 70000 four, and an
      integer under a key of no fixed width none. */
  lemma WidthExamples()
    ensures EncodeValueAt(NUM_ATTRIB, Int(20)) == [20, 0]
    ensures EncodeValueAt("num_points", Int(70000)) == [0x70, 0x11, 0x01, 0x00]
    ensures EncodeValueAt("count", Int(70000)) == []
  {
    assert IsUInt32Key("num_points");
    assert !IsUInt32Key(NUM_ATTRIB) && !IsUInt32Key("count") && !IsUInt16Key("count");
  }

  /** An attribute whose components the writer packs: all integers or all
      floats. A mixed attribute is written as nothing. */
  predicate Uniform(a: Value)
  {
    a.List? && (AllIntLike(a.items) || AllFloat(a.items))
  }

  /** The components of the uniform attributes among `attrs`. */
  function Components(attrs: seq<Value>): nat
  {
    if |attrs| == 0 then 0
    else (if Uniform(attrs[0]) then |attrs[0].items| else 0) + Components(attrs[1..])
  }

  /** The components of the uniform attributes of all list points. */
  function PointComponents(points: seq<Value>): nat
  {
    if |points| == 0 then 0
    else (if points[0].List? then Components(points[0].items) else 0) + PointComponents(points[1..])
  }

  /** write_frames_data writes two brackets around the block, two around
      each point and four bytes per component of each uniform attribute. */
  lemma FramesLength(points: seq<Value>)
    requires FramesEncodable(points)
    ensures |EncodeFrames(points)| == 2 + 2 * |points| + 4 * PointComponents(points)
  {
    PointsLength(points);
  }

  lemma {:induction false} PointsLength(points: seq<Value>)
    requires FramesEncodable(points)
    ensures |EncodePoints(points)| == 2 * |points| + 4 * PointComponents(points)
  {
    if |points| > 0 {
      PointsLength(points[1..]);
      if points[0].List? {
        AttributesLength(points[0].items);
      }
    }
  }

  lemma {:induction false} AttributesLength(attrs: seq<Value>)
    requires AttributesEncodable(attrs)
    ensures |EncodeAttributes(attrs)| == 4 * Components(attrs)
  {
    if |attrs| > 0 {
      AttributesLength(attrs[1..]);
    }
  }

  // ---------------------------------------------------------------------
  // The reader

  /** read_attribute: tag 'l' gives int32 components, tag 'f' float32
      components, four bytes each; any other tag gives no components and
      reads nothing. */
  lemma AttributeTags(input: seq<byte>, s: Schema, i: nat)
    requires ReadAttribute(input, s, i).Ok?
    ensures Index(s.attribType, i).Some?
    ensures var r := ReadAttribute(input, s, i); var tag := Index(s.attribType, i).value;
      |input| == |r.rest| + 4 * |r.val.items| &&
      (IsTag(tag, INT32) ==> forall c :: 0 <= c < |r.val.items| ==> r.val.items[c].Int?) &&
      (IsTag(tag, FLOAT32) ==> forall c :: 0 <= c < |r.val.items| ==> r.val.items[c].Float?) &&
      (!IsTag(tag, INT32) && !IsTag(tag, FLOAT32) ==> r.val.items == [] && r.rest == input)
  {
    var tag := Index(s.attribType, i).value;
    if IsTag(tag, INT32) || IsTag(tag, FLOAT32) {
      var count := RangeCount(Index(s.attribSize, i).value).value;
      WordsTyped(input, count, IsTag(tag, INT32));
    }
  }

  lemma {:induction false} WordsTyped(input: seq<byte>, count: nat, signed: bool)
    requires ReadWords(input, count, signed).Ok?
    ensures forall c :: 0 <= c < count ==>
      if signed then ReadWords(input, count, signed).val[c].Int? else ReadWords(input, count, signed).val[c].Float?
    decreases count
  {
    if count > 0 {
      var p := ReadNextBytes(input, 4).rest;
      WordsTyped(p, count - 1, signed);
    }
  }

  /** read_frames_data yields as many frames as the most recent num_points
      says, and each frame is either False (a missing bracket) or as many
      attributes as the most recent num_attrib says. */
  lemma FramesDataShape(input: seq<byte>, s: Schema)
    requires ReadFramesData(input, s).Parsed? && ReadFramesData(input, s).value.List?
    ensures IsIntLike(s.numPoints)
    ensures var frames := ReadFramesData(input, s).value.items;
      |frames| == RangeCount(s.numPoints).value &&
      forall k :: 0 <= k < |frames| ==>
        frames[k] == Bool(false) ||
        (IsIntLike(s.numAttrib) && frames[k].List? && |frames[k].items| == RangeCount(s.numAttrib).value)
  {
    var p := ReadMarker(input).rest;
    FramesShape(p, s, RangeCount(s.numPoints).value);
  }

  lemma {:induction false} FramesShape(input: seq<byte>, s: Schema, count: nat)
    requires ReadFrames(input, s, count).Ok?
    ensures forall k :: 0 <= k < count ==>
      var f := ReadFrames(input, s, count).val[k];
      f == Bool(false) || (IsIntLike(s.numAttrib) && f.List? && |f.items| == RangeCount(s.numAttrib).value)
    decreases count
  {
    if count > 0 {
      var p := ReadFrame(input, s).rest;
      FramesShape(p, s, count - 1);
    }
  }

  /** A frame_data block that does not open with '[' reads as False. */
  lemma FramesDataUnopened(b: byte, rest: seq<byte>, s: Schema)
    requires b != ARRAY_START
    ensures ReadFramesData([b] + rest, s) == Parsed(Bool(false), rest, s)
  {
    assert ([b] + rest)[1..] == rest;
  }

  /** frame_data read before the header: num_points is still the 0 that
      __init__ set, so no frame is read and the first frame's '[' stands
      where the closing ']' is expected. The block reads as False, not as
      an error. */
  lemma FramesDataBeforeHeader(b: byte, rest: seq<byte>)
    requires b != ARRAY_END
    ensures ReadFramesData([ARRAY_START, b] + rest, InitialSchema) == Parsed(Bool(false), rest, InitialSchema)
  {
    assert ([ARRAY_START, b] + rest)[1..] == [b] + rest;
    assert ([b] + rest)[1..] == rest;
  }

  /** In key position read_object skips any byte other than 'B' and '}'. */
  lemma StrayByteSkipped(b: byte, rest: seq<byte>, s: Schema, acc: seq<Entry>)
    requires b != OBJECT_END && b != UINT8
    ensures ReadObjectFrom([b] + rest, s, acc) == ReadObjectFrom(rest, s, acc)
  {
    assert ([b] + rest)[1..] == rest;
  }

  /** load gives False for an empty file and for one that does not open
      with '{'; it raises EOFError on a file cut short. */
  lemma LoadRejects(reader: seq<byte>)
    ensures |reader| == 0 ==> Decode(reader) == Parsed(Bool(false), [], InitialSchema)
    ensures |reader| > 0 && reader[0] != OBJECT_START ==>
              Decode(reader) == Parsed(Bool(false), reader[1..], InitialSchema)
    ensures Decode([OBJECT_START]) == Failed(EndOfFile)
  {
    assert Suffix([OBJECT_START], 0)[1..] == [];
    if |reader| > 0 {
      assert Suffix(reader, 0) == reader;
    }
  }

  // ---------------------------------------------------------------------
  // Documents the reader does not give back

  /** A key read by marker dispatch: ASCII, short, and neither a sized key
      nor frame_data. */
  predicate PlainKey(key: string)
  {
    ShortAscii(key) && !IsUInt32Key(key) && !IsUInt16Key(key) && key != FRAME_DATA
  }

  /** A raw list byte equal to ']' ends the list early; the bytes after it
      are skipped as stray key bytes. { key: [93, 1] } reads back as
      { key: [] }. */
  lemma MarkerByteMisread(key: string)
    requires PlainKey(key)
    ensures var d := Obj([Entry(key, List([Int(93), Int(1)]))]);
      EntriesEncodable(d.entries) &&
      var r := Decode(EncodeDocument(d));
      r.Parsed? && r.value == Obj([Entry(key, List([]))]) && r.rest == []
  {
    var tail: seq<byte> := [1, ARRAY_END, OBJECT_END];
    var v := [ARRAY_START] + ([ARRAY_END] + tail);
    MarkerByteBytes(key);
    DecodeOpened([UINT8] + (StringBytes(key) + v));
    GenericValue(key, ARRAY_START, [ARRAY_END] + tail, InitialSchema);
    ListClosed(tail, InitialSchema);
    KeyStep(key, v, InitialSchema, [], List([]), tail, InitialSchema);
    StrayBytesClosed(UpdateNumValues(InitialSchema, key, List([])), [Entry(key, List([]))]);
  }

  /** The rest of { key: [93, 1] } after the list read as empty. */
  lemma StrayBytesClosed(s: Schema, acc: seq<Entry>)
    ensures ReadObjectFrom([1, ARRAY_END, OBJECT_END], s, acc) == Parsed(Obj(acc), [], s)
  {
    assert [1, ARRAY_END, OBJECT_END] == [1] + ([ARRAY_END] + [OBJECT_END]);
    StrayByteSkipped(1, [ARRAY_END] + [OBJECT_END], s, acc);
    StrayByteSkipped(ARRAY_END, [OBJECT_END], s, acc);
    ObjectClosed(s, acc);
  }

  lemma MarkerByteBytes(key: string)
    requires PlainKey(key)
    ensures var d := Obj([Entry(key, List([Int(93), Int(1)]))]);
      EntriesEncodable(d.entries) &&
      EncodeDocument(d) ==
        [OBJECT_START] + ([UINT8] + (StringBytes(key) + ([ARRAY_START] + ([ARRAY_END] + [1, ARRAY_END, OBJECT_END]))))
  {
    var e := Entry(key, List([Int(93), Int(1)]));
    var xs := e.val.items;
    assert xs[1..][1..] == [];
    assert ItemsEncodable(xs);
    assert EncodeItems(xs) == [93, 1];
    assert EntryEncodable(e);
    assert [e][1..] == [];
    assert EncodeEntries([e]) == EncodeEntry(e);
    assert EncodeEntry(e) == [UINT8] + StringBytes(key) + [ARRAY_START, 93, 1, ARRAY_END];
  }

  /** An integer under a key of no fixed width writes no value bytes, so
      the reader takes what follows as the value. { k1: n, k2: t } reads k1
      as the string k2, then the key t with the marker '}' as its value,
      and raises EOFError looking for the next key. */
  lemma UnsizedIntegerMisread(k1: string, n: int, k2: string, t: string)
    requires PlainKey(k1) && PlainKey(k2) && PlainKey(t)
    ensures var d := Obj([Entry(k1, Int(n)), Entry(k2, Str(t))]);
      EntriesEncodable(d.entries) && Decode(EncodeDocument(d)) == Failed(EndOfFile)
  {
    var r3: seq<byte> := [OBJECT_END];
    var r2 := [UINT8] + (StringBytes(t) + r3);
    var r1 := [UINT8] + (StringBytes(k2) + r2);
    UnsizedIntegerBytes(k1, n, k2, t);
    DecodeOpened([UINT8] + (StringBytes(k1) + r1));
    // the key k1, and the string k2 as its value
    GenericValue(k1, UINT8, StringBytes(k2) + r2, InitialSchema);
    LoadString(k2, r2);
    KeyStep(k1, r1, InitialSchema, [], Str(k2), r2, InitialSchema);
    LastKeyUnfinished(t, UpdateNumValues(InitialSchema, k1, Str(k2)), Put([], k1, Str(k2)));
  }

  /** A key t whose value is read from the closing '}' leaves nothing to
      read the next key from. */
  lemma LastKeyUnfinished(t: string, s: Schema, acc: seq<Entry>)
    requires PlainKey(t)
    ensures ReadObjectFrom([UINT8] + (StringBytes(t) + [OBJECT_END]), s, acc) == Failed(EndOfFile)
  {
    assert [OBJECT_END] == [OBJECT_END] + [];
    GenericValue(t, OBJECT_END, [], s);
    KeyStep(t, [OBJECT_END], s, acc, Int(OBJECT_END), [], s);
  }

  lemma UnsizedIntegerBytes(k1: string, n: int, k2: string, t: string)
    requires PlainKey(k1) && PlainKey(k2) && PlainKey(t)
    ensures var d := Obj([Entry(k1, Int(n)), Entry(k2, Str(t))]);
      EntriesEncodable(d.entries) &&
      EncodeDocument(d) ==
        [OBJECT_START] + ([UINT8] + (StringBytes(k1) +
          ([UINT8] + (StringBytes(k2) + ([UINT8] + (StringBytes(t) + [OBJECT_END]))))))
  {
    var e1, e2 := Entry(k1, Int(n)), Entry(k2, Str(t));
    var a, b, c := [UINT8] + StringBytes(k1), [UINT8] + StringBytes(k2), [UINT8] + StringBytes(t);
    assert EntryEncodable(e1) && EntryEncodable(e2);
    assert EncodeEntry(e1) == a + [] == a;
    assert EncodeEntry(e2) == b + c;
    assert [e1, e2][1..] == [e2] && [e2][1..] == [];
    assert EncodeEntries([e2]) == b + c + [] == b + c;
    assert EncodeEntries([e1, e2]) == a + (b + c);
    ConcatAssoc([OBJECT_START], a + (b + c), [OBJECT_END]);
    ConcatAssoc(a, b + c, [OBJECT_END]);
    ConcatAssoc(b, c, [OBJECT_END]);
    ConcatAssoc([UINT8], StringBytes(t), [OBJECT_END]);
    ConcatAssoc([UINT8], StringBytes(k2), c + [OBJECT_END]);
    ConcatAssoc([UINT8], StringBytes(k1), b + (c + [OBJECT_END]));
  }

  // Single reading steps the examples are made of

  lemma DecodeOpened(body: seq<byte>)
    ensures Decode([OBJECT_START] + body) == ReadObjectFrom(body, InitialSchema, [])
  {
    assert Suffix([OBJECT_START] + body, 0) == [OBJECT_START] + body;
    MarkerThen(OBJECT_START, body);
  }

  /** Under a key of no fixed width other than frame_data the value is
      read by marker dispatch. */
  lemma GenericValue(key: string, m: byte, body: seq<byte>, s: Schema)
    requires PlainKey(key)
    ensures ReadValue([m] + body, s, key) == ParseMarker(body, s, m)
  {
    MarkerThen(m, body);
  }

  lemma ListClosed(rest: seq<byte>, s: Schema)
    ensures ParseMarker([ARRAY_END] + rest, s, ARRAY_START) == Parsed(List([]), rest, s)
  {
    MarkerThen(ARRAY_END, rest);
  }

  lemma ObjectClosed(s: Schema, acc: seq<Entry>)
    ensures ReadObjectFrom([OBJECT_END], s, acc) == Parsed(Obj(acc), [], s)
  {
    MarkerThen(OBJECT_END, []);
    assert [OBJECT_END] + [] == [OBJECT_END];
  }

  /** One pass of read_object's loop over 'B', a key and its value. */
  lemma KeyStep(key: string, v: seq<byte>, s: Schema, acc: seq<Entry>, val: Value, next: seq<byte>, s': Schema)
    requires ShortAscii(key) && v != [] && ReadValue(v, s, key) == Parsed(val, next, s')
    ensures ReadObjectFrom([UINT8] + (StringBytes(key) + v), s, acc)
         == ReadObjectFrom(next, UpdateNumValues(s', key, val), Put(acc, key, val))
  {
    MarkerThen(UINT8, StringBytes(key) + v);
    LoadString(key, v);
    ReadObjectStep([UINT8] + (StringBytes(key) + v), s, acc, StringBytes(key) + v, key, v, val, next, s');
  }
}
