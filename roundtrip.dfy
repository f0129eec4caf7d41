/** Loading what the saver wrote gives the document back for every document
    meeting the conditions below. They are sufficient, not necessary: some
    documents outside them (an attribute type tag other than 'l' or 'f',
    say) also come back unchanged.
    - every key and string is ASCII and shorter than 256 characters;
    - an integer appears only under a sized key, and nothing else does;
    - a raw list byte is none of 'B', '[', ']' or '{', which the loader
      would take for a marker;
    - no dict repeats a key;
    - `frame_data` is shaped exactly as the header fields read before it
      (`num_points`, `num_attrib`, `attrib_size`, `attrib_data_type`)
      describe, with integer components under tag 'l' and float components
      under tag 'f'.
    Since the loader's schema state is global, the headers "read before"
    are threaded through the document in writing order by the After...
    functions. */
module RoundTrip {
  import opened Bytes
  import opened Document
  import opened Format
  import opened Encoding
  import opened Decoding

  // ---------------------------------------------------------------------
  // The schema state the loader holds after each part of a document

  function AfterEntries(s: Schema, es: seq<Entry>): Schema
    decreases es, 1
  {
    if |es| == 0 then s else AfterEntries(AfterEntry(s, es[0]), es[1..])
  }

  /** read_object's loop body: the value's own headers, then update_num_values. */
  function AfterEntry(s: Schema, e: Entry): Schema
    decreases e, 0
  {
    UpdateNumValues(AfterValue(s, e.key, e.val), e.key, e.val)
  }

  function AfterValue(s: Schema, key: string, v: Value): Schema
    decreases v, 2
  {
    if IsUInt32Key(key) || IsUInt16Key(key) || key == FRAME_DATA then s
    else if v.Obj? then AfterEntries(s, v.entries)
    else if v.List? then AfterItems(s, v.items)
    else s
  }

  function AfterItems(s: Schema, xs: seq<Value>): Schema
    decreases xs, 1
  {
    if |xs| == 0 then s else AfterItems(AfterItem(s, xs[0]), xs[1..])
  }

  function AfterItem(s: Schema, x: Value): Schema
    decreases x, 0
  {
    if x.Obj? then AfterEntries(s, x.entries)
    else if x.List? then AfterItems(s, x.items)
    else s
  }

  // ---------------------------------------------------------------------
  // Documents that survive a save and a load

  predicate ReloadableEntries(s: Schema, es: seq<Entry>)
    decreases es, 1
  {
    |es| == 0 || (ReloadableEntry(s, es[0]) && ReloadableEntries(AfterEntry(s, es[0]), es[1..]))
  }

  predicate ReloadableEntry(s: Schema, e: Entry)
    decreases e, 0
  {
    ShortAscii(e.key) && ReloadableValueAt(s, e.key, e.val)
  }

  predicate ReloadableValueAt(s: Schema, key: string, v: Value)
    decreases v, 2
  {
    if IsUInt32Key(key) then v.Int? && 0 <= v.i < UINT32_LIMIT
    else if IsUInt16Key(key) then v.Int? && 0 <= v.i < UINT16_LIMIT
    else if key == FRAME_DATA then v.List? && ReloadableFrames(s, v.items)
    else match v
      case Str(t) => ShortAscii(t)
      case Obj(es) => DistinctKeys(es) && ReloadableEntries(s, es)
      case List(xs) => ReloadableItems(s, xs)
      case _ => false
  }

  predicate ReloadableItems(s: Schema, xs: seq<Value>)
    decreases xs, 1
  {
    |xs| == 0 || (ReloadableItem(s, xs[0]) && ReloadableItems(AfterItem(s, xs[0]), xs[1..]))
  }

  /** A raw byte must not be one of the markers parse_marker or read_list act on. */
  predicate IsMarkerByte(n: int)
  {
    n == UINT8 || n == ARRAY_START || n == ARRAY_END || n == OBJECT_START
  }

  predicate ReloadableItem(s: Schema, x: Value)
    decreases x, 0
  {
    match x
    case Str(t) => ShortAscii(t)
    case Obj(es) => DistinctKeys(es) && ReloadableEntries(s, es)
    case List(xs) => ReloadableItems(s, xs)
    case Int(n) => 0 <= n < 256 && !IsMarkerByte(n)
    case _ => false
  }

  /** Each point is a list of num_attrib attributes; num_attrib is read
      only when there is a point to read. */
  predicate ReloadableFrames(s: Schema, points: seq<Value>)
  {
    s.numPoints == Int(|points|) && ReloadablePoints(s, points)
  }

  predicate ReloadablePoints(s: Schema, points: seq<Value>)
  {
    |points| == 0 || (ReloadablePoint(s, points[0]) && ReloadablePoints(s, points[1..]))
  }

  predicate ReloadablePoint(s: Schema, p: Value)
  {
    p.List? && s.numAttrib == Int(|p.items|) && ReloadableAttributes(s, 0, p.items)
  }

  /** `attrs` are a point's attributes from index `i` on. */
  predicate ReloadableAttributes(s: Schema, i: nat, attrs: seq<Value>)
    decreases attrs
  {
    |attrs| == 0 || (ReloadableAttribute(s, i, attrs[0]) && ReloadableAttributes(s, i + 1, attrs[1..]))
  }

  /** The i-th attribute matches the i-th size and tag of the schema. */
  predicate ReloadableAttribute(s: Schema, i: nat, a: Value)
  {
    s.attribType.List? && i < |s.attribType.items| &&
    s.attribSize.List? && i < |s.attribSize.items| &&
    a.List? &&
    var tag, size := s.attribType.items[i], s.attribSize.items[i];
    if IsTag(tag, INT32) then
      IsIntLike(size) && |a.items| == Count(size) && AllInt32s(a.items)
    else if IsTag(tag, FLOAT32) then
      IsIntLike(size) && |a.items| == Count(size) && AllFloat(a.items)
    else |a.items| == 0
  }

  function Count(size: Value): nat
    requires IsIntLike(size)
  {
    if IntOf(size) < 0 then 0 else IntOf(size)
  }

  predicate AllInt32s(xs: seq<Value>)
  {
    |xs| == 0 || (xs[0].Int? && INT32_MIN <= xs[0].i < INT32_LIMIT && AllInt32s(xs[1..]))
  }

  /** A document the loader gives back unchanged. */
  predicate Reloadable(d: Value)
  {
    d.Obj? && DistinctKeys(d.entries) && ReloadableEntries(InitialSchema, d.entries)
  }

  // ---------------------------------------------------------------------
  // A reloadable document is one the saver accepts

  lemma {:induction false} EntriesWritable(s: Schema, es: seq<Entry>)
    requires ReloadableEntries(s, es)
    ensures EntriesEncodable(es)
    decreases es, 1
  {
    if |es| > 0 {
      ValueWritable(s, es[0].key, es[0].val);
      EntriesWritable(AfterEntry(s, es[0]), es[1..]);
    }
  }

  lemma {:induction false} ValueWritable(s: Schema, key: string, v: Value)
    requires ReloadableValueAt(s, key, v)
    ensures ValueEncodableAt(key, v)
    decreases v, 2
  {
    if IsUInt32Key(key) || IsUInt16Key(key) {
    } else if key == FRAME_DATA {
      FramesWritable(s, v.items);
    } else if v.Obj? {
      EntriesWritable(s, v.entries);
    } else if v.List? {
      ItemsWritable(s, v.items);
    }
  }

  lemma {:induction false} ItemsWritable(s: Schema, xs: seq<Value>)
    requires ReloadableItems(s, xs)
    ensures ItemsEncodable(xs)
    decreases xs, 1
  {
    if |xs| > 0 {
      ItemWritable(s, xs[0]);
      ItemsWritable(AfterItem(s, xs[0]), xs[1..]);
    }
  }

  lemma {:induction false} ItemWritable(s: Schema, x: Value)
    requires ReloadableItem(s, x)
    ensures ItemEncodable(x)
    decreases x, 0
  {
    match x
    case Obj(es) => EntriesWritable(s, es);
    case List(ys) => ItemsWritable(s, ys);
    case _ =>
  }

  lemma {:induction false} FramesWritable(s: Schema, points: seq<Value>)
    requires ReloadablePoints(s, points)
    ensures FramesEncodable(points)
    decreases points
  {
    if |points| > 0 {
      AttributesWritable(s, 0, points[0].items);
      FramesWritable(s, points[1..]);
    }
  }

  lemma {:induction false} AttributesWritable(s: Schema, i: nat, attrs: seq<Value>)
    requires ReloadableAttributes(s, i, attrs)
    ensures AttributesEncodable(attrs)
    decreases attrs
  {
    if |attrs| > 0 {
      AttributeWritable(s, i, attrs[0]);
      AttributesWritable(s, i + 1, attrs[1..]);
    }
  }

  lemma AttributeWritable(s: Schema, i: nat, a: Value)
    requires ReloadableAttribute(s, i, a)
    ensures AttributeEncodable(a)
  {
    var xs := a.items;
    var tag := s.attribType.items[i];
    if IsTag(tag, INT32) {
      Int32sInRange(xs);
    } else if IsTag(tag, FLOAT32) && |xs| > 0 {
      assert !IsIntLike(xs[0]);
    }
  }

  /** Decoded int32 components are integers that pack with 'i'. */
  lemma {:induction false} Int32sInRange(xs: seq<Value>)
    requires AllInt32s(xs)
    ensures AllIntLike(xs) && AllInInt32Range(xs)
  {
    if |xs| > 0 {
      Int32sInRange(xs[1..]);
    }
  }

  // ---------------------------------------------------------------------
  // Reading back, piece by piece. Each lemma reads an encoding followed by
  // arbitrary further bytes `rest`, and finds `rest` left over.

  /** read_marker on a byte followed by more. */
  lemma MarkerThen(m: byte, body: seq<byte>)
    ensures ReadMarker([m] + body) == Ok(m, body)
  {
    assert ([m] + body)[..1] == [m];
  }

  lemma LoadString(t: string, rest: seq<byte>)
    requires ShortAscii(t) && rest != []
    ensures ReadString(StringBytes(t) + rest) == Ok(t, rest)
  {
    var bs := AsciiBytes(t);
    assert StringBytes(t) + rest == [|t| as byte] + (bs + rest);
    MarkerThen(|t| as byte, bs + rest);
    assert (bs + rest)[..|t|] == bs;
    AsciiRoundTrip(t);
  }

  lemma LoadUnsigned(bs: seq<byte>, width: nat, rest: seq<byte>)
    requires |bs| == width > 0
    ensures ReadUnsigned(bs + rest, width) == Ok(UnpackUnsigned(bs), rest)
  {
    assert (bs + rest)[..width] == bs;
  }

  /** Keys after the first of a dict never equal it, so Put appends. */
  lemma PutFresh(acc: seq<Entry>, e: Entry, rest: seq<Entry>)
    requires DistinctKeys(acc + [e] + rest)
    ensures Put(acc, e.key, e.val) == acc + [e]
  {
    forall i | 0 <= i < |acc| ensures acc[i].key != e.key {
      assert (acc + [e] + rest)[i] == acc[i];
      assert (acc + [e] + rest)[|acc|] == e;
    }
  }

  lemma {:induction false} LoadEntries(s: Schema, acc: seq<Entry>, es: seq<Entry>, rest: seq<byte>)
    requires ReloadableEntries(s, es) && EntriesEncodable(es) && DistinctKeys(acc + es)
    ensures ReadObjectFrom(EncodeEntries(es) + [OBJECT_END] + rest, s, acc)
         == Parsed(Obj(acc + es), rest, AfterEntries(s, es))
    decreases es, 1
  {
    if |es| == 0 {
      MarkerThen(OBJECT_END, rest);
      assert acc + es == acc;
    } else {
      var e := es[0];
      var tail := EncodeEntries(es[1..]) + [OBJECT_END] + rest;
      ConcatAssoc4(EncodeEntry(e), EncodeEntries(es[1..]), [OBJECT_END], rest);
      LoadEntry(s, acc, e, tail);
      HeadTail(acc, es);
      PutFresh(acc, e, es[1..]);
      LoadEntries(AfterEntry(s, e), acc + [e], es[1..], rest);
    }
  }

  /** One pass of read_object's loop over an entry the saver wrote. */
  lemma LoadEntry(s: Schema, acc: seq<Entry>, e: Entry, tail: seq<byte>)
    requires ReloadableEntry(s, e) && EntryEncodable(e) && tail != []
    ensures ReadObjectFrom(EncodeEntry(e) + tail, s, acc)
         == ReadObjectFrom(tail, AfterEntry(s, e), Put(acc, e.key, e.val))
    decreases e, 3
  {
    var sb, ev := StringBytes(e.key), EncodeValueAt(e.key, e.val);
    assert EncodeEntry(e) + tail == [UINT8] + (sb + (ev + tail));
    MarkerThen(UINT8, sb + (ev + tail));
    assert ev + tail != [];
    LoadString(e.key, ev + tail);
    LoadValue(s, e.key, e.val, tail);
    ReadObjectStep(EncodeEntry(e) + tail, s, acc, sb + (ev + tail), e.key, ev + tail, e.val, tail, AfterValue(s, e.key, e.val));
  }

  /** One pass of read_object's loop over a key and its value. */
  lemma ReadObjectStep(input: seq<byte>, s: Schema, acc: seq<Entry>, p: seq<byte>,
                       key: string, q: seq<byte>, v: Value, next: seq<byte>, s': Schema)
    requires ReadMarker(input) == Ok(UINT8, p)
    requires ReadString(p) == Ok(key, q)
    requires ReadValue(q, s, key) == Parsed(v, next, s')
    ensures ReadObjectFrom(input, s, acc) == ReadObjectFrom(next, UpdateNumValues(s', key, v), Put(acc, key, v))
  {
  }

  lemma {:induction false} LoadValue(s: Schema, key: string, v: Value, rest: seq<byte>)
    requires ReloadableValueAt(s, key, v) && ValueEncodableAt(key, v) && rest != []
    ensures ReadValue(EncodeValueAt(key, v) + rest, s, key) == Parsed(v, rest, AfterValue(s, key, v))
    decreases v, 2
  {
    if IsUInt32Key(key) {
      LoadUnsigned(PackUInt32(v.i), 4, rest);
      UnpackPackUInt32(v.i);
    } else if IsUInt16Key(key) {
      LoadUnsigned(PackUInt16(v.i), 2, rest);
      UnpackPackUInt16(v.i);
    } else if key == FRAME_DATA {
      LoadFrames(s, v.items, rest);
    } else {
      // Under any other key a string, an object or a list is written as a
      // list item would be, and read back by marker dispatch.
      assert ReloadableItem(s, v) && EncodeValueAt(key, v) == EncodeItem(v)
          && AfterValue(s, key, v) == AfterItem(s, v);
      LoadItem(s, v, rest);
    }
  }

  lemma {:induction false} LoadItems(s: Schema, acc: seq<Value>, xs: seq<Value>, rest: seq<byte>)
    requires ReloadableItems(s, xs) && ItemsEncodable(xs)
    ensures ReadListFrom(EncodeItems(xs) + [ARRAY_END] + rest, s, acc)
         == Parsed(List(acc + xs), rest, AfterItems(s, xs))
    decreases xs, 1
  {
    if |xs| == 0 {
      MarkerThen(ARRAY_END, rest);
      assert acc + xs == acc;
    } else {
      var x := xs[0];
      var tail := EncodeItems(xs[1..]) + [ARRAY_END] + rest;
      ConcatAssoc4(EncodeItem(x), EncodeItems(xs[1..]), [ARRAY_END], rest);
      LoadItem(s, x, tail);
      HeadTail(acc, xs);
      LoadItems(AfterItem(s, x), acc + [x], xs[1..], rest);
    }
  }

  /** An item's first byte is its marker (or the raw byte itself), and
      parse_marker reads the rest. */
  lemma {:induction false} LoadItem(s: Schema, x: Value, rest: seq<byte>)
    requires ReloadableItem(s, x) && ItemEncodable(x) && rest != []
    ensures |EncodeItem(x)| > 0 && EncodeItem(x)[0] != ARRAY_END
    ensures ReadMarker(EncodeItem(x) + rest) == Ok(EncodeItem(x)[0], EncodeItem(x)[1..] + rest)
    ensures ParseMarker(EncodeItem(x)[1..] + rest, s, EncodeItem(x)[0]) == Parsed(x, rest, AfterItem(s, x))
    decreases x, 0
  {
    match x
    case Int(n) =>
      Opened(n, [], rest);
    case Str(t) =>
      Opened(UINT8, StringBytes(t), rest);
      LoadString(t, rest);
    case Obj(es) =>
      ConcatAssoc([OBJECT_START], EncodeEntries(es), [OBJECT_END]);
      Opened(OBJECT_START, EncodeEntries(es) + [OBJECT_END], rest);
      assert [] + es == es;
      LoadEntries(s, [], es, rest);
    case List(ys) =>
      ConcatAssoc([ARRAY_START], EncodeItems(ys), [ARRAY_END]);
      Opened(ARRAY_START, EncodeItems(ys) + [ARRAY_END], rest);
      assert [] + ys == ys;
      LoadItems(s, [], ys, rest);
  }

  /** read_marker on bytes that open with marker m. */
  lemma Opened(m: byte, body: seq<byte>, rest: seq<byte>)
    ensures ([m] + body)[0] == m && ([m] + body)[1..] == body
    ensures ReadMarker(([m] + body) + rest) == Ok(m, body + rest)
  {
    ConcatAssoc([m], body, rest);
    MarkerThen(m, body + rest);
  }

  // ---------------------------------------------------------------------
  // Reading back frame_data

  lemma LoadFrames(s: Schema, points: seq<Value>, rest: seq<byte>)
    requires ReloadableFrames(s, points) && FramesEncodable(points)
    ensures ReadFramesData(EncodeFrames(points) + rest, s) == Parsed(List(points), rest, s)
  {
    var body := EncodePoints(points);
    assert EncodeFrames(points) + rest == [ARRAY_START] + (body + ([ARRAY_END] + rest));
    MarkerThen(ARRAY_START, body + ([ARRAY_END] + rest));
    LoadPoints(s, points, [ARRAY_END] + rest);
    MarkerThen(ARRAY_END, rest);
  }

  lemma {:induction false} LoadPoints(s: Schema, points: seq<Value>, rest: seq<byte>)
    requires ReloadablePoints(s, points) && FramesEncodable(points)
    ensures ReadFrames(EncodePoints(points) + rest, s, |points|) == Ok(points, rest)
    decreases points
  {
    if |points| > 0 {
      var p := points[0];
      var tail := EncodePoints(points[1..]) + rest;
      assert PointEncodable(p) && FramesEncodable(points[1..]);
      ConcatAssoc(EncodePoint(p), EncodePoints(points[1..]), rest);
      LoadPoint(s, p, tail);
      LoadPoints(s, points[1..], rest);
      HeadTail([], points);
    }
  }

  lemma LoadPoint(s: Schema, p: Value, rest: seq<byte>)
    requires ReloadablePoint(s, p) && PointEncodable(p)
    ensures ReadFrame(EncodePoint(p) + rest, s) == Ok(p, rest)
  {
    var attrs := p.items;
    var body := EncodeAttributes(attrs);
    assert EncodePoint(p) + rest == [ARRAY_START] + (body + ([ARRAY_END] + rest));
    MarkerThen(ARRAY_START, body + ([ARRAY_END] + rest));
    LoadAttributes(s, 0, |attrs|, attrs, [ARRAY_END] + rest);
    MarkerThen(ARRAY_END, rest);
  }

  lemma {:induction false} LoadAttributes(s: Schema, i: nat, count: nat, attrs: seq<Value>, rest: seq<byte>)
    requires count == i + |attrs|
    requires ReloadableAttributes(s, i, attrs) && AttributesEncodable(attrs)
    ensures ReadAttributes(EncodeAttributes(attrs) + rest, s, i, count) == Ok(attrs, rest)
    decreases attrs
  {
    if |attrs| > 0 {
      var a := attrs[0];
      assert AttributeEncodable(a) && AttributesEncodable(attrs[1..]);
      ConcatAssoc(EncodeAttribute(a), EncodeAttributes(attrs[1..]), rest);
      LoadAttribute(s, i, a, EncodeAttributes(attrs[1..]) + rest);
      LoadAttributes(s, i + 1, count, attrs[1..], rest);
      HeadTail([], attrs);
    }
  }

  lemma LoadAttribute(s: Schema, i: nat, a: Value, rest: seq<byte>)
    requires ReloadableAttribute(s, i, a) && AttributeEncodable(a)
    ensures ReadAttribute(EncodeAttribute(a) + rest, s, i) == Ok(a, rest)
  {
    var tag := s.attribType.items[i];
    var xs := a.items;
    if IsTag(tag, INT32) {
      Int32sInRange(xs);
      LoadInt32s(xs, rest);
    } else if IsTag(tag, FLOAT32) {
      if |xs| == 0 {
        assert EncodeAttribute(a) == [];
      } else {
        assert !IsIntLike(xs[0]);
        assert EncodeAttribute(a) == EncodeFloat32s(xs);
      }
      LoadFloat32s(xs, rest);
    } else {
      assert [] + rest == rest;
    }
  }

  lemma {:induction false} LoadInt32s(xs: seq<Value>, rest: seq<byte>)
    requires AllInt32s(xs) && AllInInt32Range(xs)
    ensures ReadWords(EncodeInt32s(xs) + rest, |xs|, true) == Ok(xs, rest)
    decreases xs
  {
    if |xs| == 0 {
      assert [] + rest == rest;
    } else {
      var w, tail := PackInt32(xs[0].i), EncodeInt32s(xs[1..]) + rest;
      ConcatAssoc(w, EncodeInt32s(xs[1..]), rest);
      assert (w + tail)[..4] == w && (w + tail)[4..] == tail;
      UnpackPackInt32(xs[0].i);
      LoadInt32s(xs[1..], rest);
      HeadTail([], xs);
    }
  }

  lemma {:induction false} LoadFloat32s(xs: seq<Value>, rest: seq<byte>)
    requires AllFloat(xs)
    ensures ReadWords(EncodeFloat32s(xs) + rest, |xs|, false) == Ok(xs, rest)
    decreases xs
  {
    if |xs| == 0 {
      assert [] + rest == rest;
    } else {
      var w, tail := PackFloat32(xs[0].bits), EncodeFloat32s(xs[1..]) + rest;
      ConcatAssoc(w, EncodeFloat32s(xs[1..]), rest);
      assert (w + tail)[..4] == w && (w + tail)[4..] == tail;
      UnpackPackFloat32(xs[0].bits);
      LoadFloat32s(xs[1..], rest);
      HeadTail([], xs);
    }
  }

  // ---------------------------------------------------------------------
  // The round trip

  /** A fresh loader reading the saver's bytes, followed by any trailing
      bytes, returns the document and stops right after its closing '}'. */
  lemma DecodeEncode(d: Value, trailing: seq<byte>)
    requires Reloadable(d)
    ensures EntriesEncodable(d.entries)
    ensures Decode(EncodeDocument(d) + trailing)
         == Parsed(d, trailing, AfterEntries(InitialSchema, d.entries))
  {
    EntriesWritable(InitialSchema, d.entries);
    var reader := EncodeDocument(d) + trailing;
    var body := EncodeEntries(d.entries) + [OBJECT_END] + trailing;
    assert reader == [OBJECT_START] + body;
    assert Suffix(reader, 0) == reader;
    MarkerThen(OBJECT_START, body);
    assert [] + d.entries == d.entries;
    LoadEntries(InitialSchema, [], d.entries, trailing);
  }
}
