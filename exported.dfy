/** The add-on's export path end to end: the document generate_json builds
    is one that the transcoder's loader reads back unchanged from the bytes
    the writer produces, provided every location has three float components
    and there are fewer than 2^31 placements (the id attribute is packed
    with 'i'). */
module Exported {
  import opened Bytes
  import opened Document
  import opened Format
  import opened Encoding
  import opened Decoding
  import opened RoundTrip
  import opened Generator

  // ---------------------------------------------------------------------
  // Header lists

  /** A list item that is written and read back as itself and changes no
      schema field: a short ASCII string, or a byte that is not a marker. */
  predicate FlatItem(x: Value)
  {
    match x
    case Str(t) => ShortAscii(t)
    case Int(n) => 0 <= n < 256 && !IsMarkerByte(n)
    case _ => false
  }

  lemma {:induction false} FlatItems(s: Schema, xs: seq<Value>)
    requires forall i :: 0 <= i < |xs| ==> FlatItem(xs[i])
    ensures ReloadableItems(s, xs) && AfterItems(s, xs) == s
  {
    if |xs| > 0 {
      FlatItems(s, xs[1..]);
    }
  }

  lemma NamesFlat()
    ensures forall i :: 0 <= i < |ATTRIB_NAMES| ==> FlatItem(ATTRIB_NAMES[i])
  {
    NamesFlatFrom0();
    NamesFlatFrom2();
    NamesFlatFrom4();
    NamesFlatFrom6();
    NamesFlatFrom8();
    NamesFlatFrom10();
    NamesFlatFrom12();
    NamesFlatFrom14();
    NamesFlatFrom16();
  }

  // The names are checked two at a time: one lemma over all eighteen
  // literals is much slower for the solver than these small ones.
  lemma NamesFlatFrom0()
    ensures FlatItem(ATTRIB_NAMES[0]) && FlatItem(ATTRIB_NAMES[1])
  {
  }

  lemma NamesFlatFrom2()
    ensures FlatItem(ATTRIB_NAMES[2]) && FlatItem(ATTRIB_NAMES[3])
  {
  }

  lemma NamesFlatFrom4()
    ensures FlatItem(ATTRIB_NAMES[4]) && FlatItem(ATTRIB_NAMES[5])
  {
  }

  lemma NamesFlatFrom6()
    ensures FlatItem(ATTRIB_NAMES[6]) && FlatItem(ATTRIB_NAMES[7])
  {
  }

  lemma NamesFlatFrom8()
    ensures FlatItem(ATTRIB_NAMES[8]) && FlatItem(ATTRIB_NAMES[9])
  {
  }

  lemma NamesFlatFrom10()
    ensures FlatItem(ATTRIB_NAMES[10]) && FlatItem(ATTRIB_NAMES[11])
  {
  }

  lemma NamesFlatFrom12()
    ensures FlatItem(ATTRIB_NAMES[12]) && FlatItem(ATTRIB_NAMES[13])
  {
  }

  lemma NamesFlatFrom14()
    ensures FlatItem(ATTRIB_NAMES[14]) && FlatItem(ATTRIB_NAMES[15])
  {
  }

  lemma NamesFlatFrom16()
    ensures FlatItem(ATTRIB_NAMES[16]) && FlatItem(ATTRIB_NAMES[17])
  {
  }

  lemma SizesFlat()
    ensures forall i :: 0 <= i < |ATTRIB_SIZES| ==> FlatItem(ATTRIB_SIZES[i])
  {
  }

  lemma TypesFlat()
    ensures forall i :: 0 <= i < |ATTRIB_TYPES| ==> FlatItem(ATTRIB_TYPES[i])
  {
  }

  // ---------------------------------------------------------------------
  // Header entries

  /** An entry holding a count, a string or a flat list: it is read back as
      itself, and only update_num_values changes the schema. */
  predicate FlatEntry(e: Entry)
  {
    ShortAscii(e.key) && e.key != FRAME_DATA &&
    if IsUInt32Key(e.key) then e.val.Int? && 0 <= e.val.i < UINT32_LIMIT
    else if IsUInt16Key(e.key) then e.val.Int? && 0 <= e.val.i < UINT16_LIMIT
    else match e.val
      case Str(t) => ShortAscii(t)
      case List(xs) => forall i :: 0 <= i < |xs| ==> FlatItem(xs[i])
      case _ => false
  }

  lemma EntriesFrom(s: Schema, es: seq<Entry>, k: nat)
    requires k < |es|
    requires ReloadableEntry(s, es[k]) && ReloadableEntries(AfterEntry(s, es[k]), es[k + 1..])
    ensures ReloadableEntries(s, es[k..])
    ensures AfterEntries(s, es[k..]) == AfterEntries(AfterEntry(s, es[k]), es[k + 1..])
  {
    assert es[k..][1..] == es[k + 1..];
  }

  /** update_num_values applied to each entry in turn. */
  function Updates(s: Schema, es: seq<Entry>): Schema
    decreases |es|
  {
    if |es| == 0 then s else Updates(UpdateNumValues(s, es[0].key, es[0].val), es[1..])
  }

  lemma {:induction false} FlatEntries(s: Schema, es: seq<Entry>)
    requires forall i :: 0 <= i < |es| ==> FlatEntry(es[i])
    ensures ReloadableEntries(s, es) && AfterEntries(s, es) == Updates(s, es)
    decreases |es|
  {
    if |es| > 0 {
      var e := es[0];
      if e.val.List? && !IsUInt32Key(e.key) && !IsUInt16Key(e.key) {
        FlatItems(s, e.val.items);
      }
      assert AfterEntry(s, e) == UpdateNumValues(s, e.key, e.val);
      FlatEntries(UpdateNumValues(s, e.key, e.val), es[1..]);
    }
  }

  /** The schema after the template's header has been read. */
  function HeaderSchema(s: Schema, samples: int, points: int, names: seq<Value>, sizes: seq<Value>, types: seq<Value>): Schema
  {
    s.(numSamples := Int(samples), numFrames := Int(1), numPoints := Int(points), numAttrib := Int(18),
       attribName := List(names), attribSize := List(sizes), attribType := List(types))
  }

  lemma HeaderFlat(samples: int, points: int, names: seq<Value>, sizes: seq<Value>, types: seq<Value>)
    requires 0 <= samples < UINT32_LIMIT && 0 <= points < UINT32_LIMIT
    requires forall i :: 0 <= i < |names| ==> FlatItem(names[i])
    requires forall i :: 0 <= i < |sizes| ==> FlatItem(sizes[i])
    requires forall i :: 0 <= i < |types| ==> FlatItem(types[i])
    ensures var h := HeaderWith(samples, points, names, sizes, types);
      forall i :: 0 <= i < |h| ==> FlatEntry(h[i])
  {
  }

  lemma HeaderUpdates(s: Schema, samples: int, points: int, names: seq<Value>, sizes: seq<Value>, types: seq<Value>)
    ensures Updates(s, HeaderWith(samples, points, names, sizes, types))
         == HeaderSchema(s, samples, points, names, sizes, types)
  {
    var h := HeaderWith(samples, points, names, sizes, types);
    var s2 := s.(numSamples := Int(samples));
    var s3 := s2.(numFrames := Int(1));
    var s4 := s3.(numPoints := Int(points));
    var s5 := s4.(numAttrib := Int(18));
    var s6 := s5.(attribName := List(names));
    var s7 := s6.(attribSize := List(sizes));
    var s8 := s7.(attribType := List(types));
    assert h[9..] == [];
    UpdatesFrom(s8, h, 8);
    UpdatesFrom(s7, h, 7);
    UpdatesFrom(s6, h, 6);
    UpdatesFrom(s5, h, 5);
    UpdatesFrom(s4, h, 4);
    UpdatesFrom(s3, h, 3);
    UpdatesFrom(s2, h, 2);
    UpdatesFrom(s, h, 1);
    UpdatesFrom(s, h, 0);
    assert h[0..] == h;
  }

  lemma UpdatesFrom(s: Schema, es: seq<Entry>, k: nat)
    requires k < |es|
    ensures Updates(s, es[k..]) == Updates(UpdateNumValues(s, es[k].key, es[k].val), es[k + 1..])
  {
    assert es[k..][1..] == es[k + 1..];
  }

  lemma HeaderDistinct(samples: int, points: int, names: seq<Value>, sizes: seq<Value>, types: seq<Value>)
    ensures DistinctKeys(HeaderWith(samples, points, names, sizes, types))
  {
  }

  // ---------------------------------------------------------------------
  // The frame and its points

  /** The schema the generated header leaves, for n placements. */
  function GeneratedSchema(n: int): Schema
  {
    HeaderSchema(InitialSchema, n, n, ATTRIB_NAMES, ATTRIB_SIZES, ATTRIB_TYPES)
  }

  /** A point generate_json can make: an id that 'i' can pack, and a
      location of three floats. */
  predicate Packable(i: nat, location: seq<Value>)
  {
    i < INT32_LIMIT && |location| == 3 && forall k :: 0 <= k < 3 ==> location[k].Float?
  }

  lemma {:induction false} AttributesFrom(s: Schema, j: nat, attrs: seq<Value>)
    requires forall k :: 0 <= k < |attrs| ==> ReloadableAttribute(s, j + k, attrs[k])
    ensures ReloadableAttributes(s, j, attrs)
    decreases |attrs|
  {
    if |attrs| > 0 {
      AttributesFrom(s, j + 1, attrs[1..]);
    }
  }

  /** Each of the 18 attributes has the size and the type tag the
      generated header declares for its position. */
  lemma PointReloadable(n: int, i: nat, location: seq<Value>, spriteSize: Word32, pscale: Word32)
    requires Packable(i, location)
    ensures ReloadablePoint(GeneratedSchema(n), PointData(i, location, spriteSize, pscale))
  {
    var s := GeneratedSchema(n);
    var pt := PointData(i, location, spriteSize, pscale).items;
    forall k | 0 <= k < |pt|
      ensures ReloadableAttribute(s, k, pt[k])
    {
      AttributeReloadable(n, i, location, spriteSize, pscale, k);
    }
    AttributesFrom(s, 0, pt);
  }

  lemma AttributeReloadable(n: int, i: nat, location: seq<Value>, spriteSize: Word32, pscale: Word32, k: nat)
    requires Packable(i, location) && k < 18
    ensures ReloadableAttribute(GeneratedSchema(n), k, PointData(i, location, spriteSize, pscale).items[k])
  {
    var s := GeneratedSchema(n);
    var a := PointData(i, location, spriteSize, pscale).items[k];
    TemplateColumns(k);
    PointColumns(i, location, spriteSize, pscale, k);
    if k == 10 {
      assert a.items == location;
    }
    if k == 0 || k == 7 {
      IntAttribute(s, k, a);
    } else {
      FloatAttribute(s, k, a);
    }
  }

  lemma {:induction false} AllFloatOf(xs: seq<Value>)
    requires forall c :: 0 <= c < |xs| ==> xs[c].Float?
    ensures AllFloat(xs)
    decreases |xs|
  {
    if |xs| > 0 {
      AllFloatOf(xs[1..]);
    }
  }

  lemma FloatAttribute(s: Schema, k: nat, a: Value)
    requires s.attribType.List? && k < |s.attribType.items| && s.attribType.items[k] == Int(FLOAT32 as int)
    requires a.List? && s.attribSize.List? && k < |s.attribSize.items| && s.attribSize.items[k] == Int(|a.items|)
    requires forall c :: 0 <= c < |a.items| ==> a.items[c].Float?
    ensures ReloadableAttribute(s, k, a)
  {
    AllFloatOf(a.items);
  }

  lemma IntAttribute(s: Schema, k: nat, a: Value)
    requires s.attribType.List? && k < |s.attribType.items| && s.attribType.items[k] == Int(INT32 as int)
    requires a.List? && s.attribSize.List? && k < |s.attribSize.items| && s.attribSize.items[k] == Int(1)
    requires |a.items| == 1 && a.items[0].Int? && 0 <= a.items[0].i < INT32_LIMIT
    ensures ReloadableAttribute(s, k, a)
  {
    assert a.items[1..] == [];
  }

  lemma {:induction false} PointsReloadable(s: Schema, points: seq<Value>)
    requires forall i :: 0 <= i < |points| ==> ReloadablePoint(s, points[i])
    ensures ReloadablePoints(s, points)
    decreases |points|
  {
    if |points| > 0 {
      PointsReloadable(s, points[1..]);
    }
  }

  lemma FrameReloadable(s: Schema, n: int, points: seq<Value>)
    requires 0 <= n < UINT32_LIMIT && |points| == n
    requires ReloadablePoints(s.(numPoints := Int(n)), points)
    ensures var f := FrameEntries(n, points);
      DistinctKeys(f) && ReloadableEntries(s, f) && AfterEntries(s, f) == s.(numPoints := Int(n))
  {
    var f := FrameEntries(n, points);
    FrameCountAndData(s, n, points);
    EntriesFrom(s, f, 1);
    EntriesFrom(s, f, 0);
    assert f[0..] == f;
  }

  /** The frame's num_points, then its frame_data, read with that count. */
  lemma FrameCountAndData(s: Schema, n: int, points: seq<Value>)
    requires 0 <= n < UINT32_LIMIT && |points| == n
    requires ReloadablePoints(s.(numPoints := Int(n)), points)
    ensures var f := FrameEntries(n, points);
      ReloadableEntries(s, f[2..]) && AfterEntries(s, f[2..]) == s.(numPoints := Int(n))
  {
    var f := FrameEntries(n, points);
    var s' := s.(numPoints := Int(n));
    assert f[4..] == [];
    EntriesFrom(s', f, 3);
    EntriesFrom(s, f, 2);
  }

  // ---------------------------------------------------------------------
  // The whole document

  /** cache_data holds one frame, which leaves the schema as the header did. */
  lemma CacheReloadable(n: int, points: seq<Value>)
    requires 0 <= n < UINT32_LIMIT && |points| == n
    requires ReloadablePoints(GeneratedSchema(n), points)
    ensures var c := Obj([Entry("frames", List([Obj(FrameEntries(n, points))]))]);
      ReloadableValueAt(GeneratedSchema(n), "cache_data", c) &&
      AfterValue(GeneratedSchema(n), "cache_data", c) == GeneratedSchema(n)
  {
    var s := GeneratedSchema(n);
    assert s.(numPoints := Int(n)) == s;
    FrameReloadable(s, n, points);
    OneFrame(s, FrameEntries(n, points));
  }

  lemma OneFrame(s: Schema, frame: seq<Entry>)
    requires DistinctKeys(frame) && ReloadableEntries(s, frame) && AfterEntries(s, frame) == s
    ensures var c := Obj([Entry("frames", List([Obj(frame)]))]);
      ReloadableValueAt(s, "cache_data", c) && AfterValue(s, "cache_data", c) == s
  {
    var frames := [Obj(frame)];
    assert frames[1..] == [];
    assert ReloadableItem(s, frames[0]) && AfterItem(s, frames[0]) == s;
    assert AfterItems(s, frames) == AfterItems(AfterItem(s, frames[0]), frames[1..]);
    assert ReloadableItems(s, frames);
    var c := [Entry("frames", List(frames))];
    assert c[1..] == [];
    assert !IsUInt32Key("frames") && !IsUInt16Key("frames");
    assert AfterValue(s, "frames", List(frames)) == AfterItems(s, frames);
    assert UpdateNumValues(s, "frames", List(frames)) == s;
    assert AfterEntry(s, c[0]) == UpdateNumValues(AfterValue(s, "frames", List(frames)), "frames", List(frames));
    assert ReloadableEntry(s, c[0]) && AfterEntry(s, c[0]) == s;
    assert AfterEntries(s, c) == AfterEntries(AfterEntry(s, c[0]), c[1..]);
    assert ReloadableEntries(s, c);
  }

  /** A document shaped like the template reloads when its header and its
      cache_data do, in that order. */
  lemma ShapedReloadable(header: seq<Entry>, frame: seq<Entry>, s: Schema)
    requires ReloadableValueAt(InitialSchema, "header", Obj(header))
    requires AfterValue(InitialSchema, "header", Obj(header)) == s
    requires ReloadableValueAt(s, "cache_data", Obj([Entry("frames", List([Obj(frame)]))]))
    ensures Reloadable(Shaped(header, frame))
  {
    var top := Shaped(header, frame).entries;
    assert top[2..] == [];
    EntriesFrom(s, top, 1);
    EntriesFrom(InitialSchema, top, 0);
    assert top[0..] == top;
  }

  /** The header, read from the initial state, leaves the generated schema. */
  lemma HeaderEntryReloadable(n: int)
    requires 0 <= n < UINT32_LIMIT
    ensures ReloadableValueAt(InitialSchema, "header", Obj(Header(n, n)))
    ensures AfterValue(InitialSchema, "header", Obj(Header(n, n))) == GeneratedSchema(n)
  {
    NamesFlat();
    SizesFlat();
    TypesFlat();
    HeaderFlat(n, n, ATTRIB_NAMES, ATTRIB_SIZES, ATTRIB_TYPES);
    FlatEntries(InitialSchema, Header(n, n));
    HeaderUpdates(InitialSchema, n, n, ATTRIB_NAMES, ATTRIB_SIZES, ATTRIB_TYPES);
    HeaderDistinct(n, n, ATTRIB_NAMES, ATTRIB_SIZES, ATTRIB_TYPES);
  }

  lemma OutputReloadable(n: int, points: seq<Value>)
    requires 0 <= n < UINT32_LIMIT && |points| == n
    requires ReloadablePoints(GeneratedSchema(n), points)
    ensures Reloadable(Output(n, points))
  {
    HeaderEntryReloadable(n);
    CacheReloadable(n, points);
    ShapedReloadable(Header(n, n), FrameEntries(n, points), GeneratedSchema(n));
  }

  /** generate_json's document, when it does not raise, passes through the
      writer and the loader unchanged: every location has three float
      components, and there are fewer than 2^31 placements. */
  lemma GeneratedReloadable(input: seq<Placement>, ops: FloatOps)
    requires Generated(input, ops).Some? && |input| < INT32_LIMIT
    requires forall i :: 0 <= i < |input| ==> Packable(i, input[i].location)
    ensures Reloadable(Generated(input, ops).value)
  {
    var n := |input|;
    var points := FrameData(input, ops, ops.max(Maxima(input, ops))).value;
    forall i | 0 <= i < n
      ensures ReloadablePoint(GeneratedSchema(n), points[i])
    {
      var maxDimension := ops.max(input[i].dimensions);
      var pscale := ops.divide(maxDimension, ops.max(Maxima(input, ops))).value;
      assert points[i] == PointData(i, input[i].location, ops.times500(maxDimension), pscale);
      PointReloadable(n, i, input[i].location, ops.times500(maxDimension), pscale);
    }
    PointsReloadable(GeneratedSchema(n), points);
    OutputReloadable(n, points);
  }

  /** Loading the bytes the writer produces for generate_json's document
      gives that document back, with nothing left unread. */
  lemma GeneratedRoundTrip(input: seq<Placement>, ops: FloatOps)
    requires Generated(input, ops).Some? && |input| < INT32_LIMIT
    requires forall i :: 0 <= i < |input| ==> Packable(i, input[i].location)
    ensures var d := Generated(input, ops).value;
      EntriesEncodable(d.entries) &&
      Decode(EncodeDocument(d)).Parsed? && Decode(EncodeDocument(d)).value == d &&
      Decode(EncodeDocument(d)).rest == []
  {
    var d := Generated(input, ops).value;
    GeneratedReloadable(input, ops);
    DecodeEncode(d, []);
    assert EncodeDocument(d) + [] == EncodeDocument(d);
  }
}
