/** The bytes the point-cache writer produces, as functions of the document.
    Both writers (the transcoder's saver and the add-on's export operator)
    are proved to append exactly these bytes. The `...Encodable` predicates
    say when the writer does not raise: `struct.pack` rejects an integer out
    of range and `bytearray.append` rejects anything but an integer in
    0..255 (a float, None, or a string longer than 255 characters). */
module Encoding {
  import opened Bytes
  import opened Document
  import opened Format

  /** isinstance(v, int): a Python bool is an int. */
  predicate IsIntLike(v: Value)
  {
    v.Int? || v.Bool?
  }

  function IntOf(v: Value): int
    requires IsIntLike(v)
  {
    if v.Bool? then (if v.b then 1 else 0) else v.i
  }

  /** Values whose str() the last branch of write_object writes. */
  predicate HasText(v: Value)
  {
    v.Str? || v.Null?
  }

  function Text(v: Value): string
    requires HasText(v)
  {
    if v.Str? then v.s else "None"
  }

  predicate AllIntLike(xs: seq<Value>)
  {
    |xs| == 0 || (IsIntLike(xs[0]) && AllIntLike(xs[1..]))
  }

  predicate AllFloat(xs: seq<Value>)
  {
    |xs| == 0 || (xs[0].Float? && AllFloat(xs[1..]))
  }

  predicate InInt32Range(v: Value)
  {
    IsIntLike(v) && INT32_MIN <= IntOf(v) < INT32_LIMIT
  }

  predicate AllInInt32Range(xs: seq<Value>)
  {
    |xs| == 0 || (InInt32Range(xs[0]) && AllInInt32Range(xs[1..]))
  }

  // ---------------------------------------------------------------------
  // When the writer does not raise

  predicate EntriesEncodable(es: seq<Entry>)
    decreases es, 1
  {
    |es| == 0 || (EntryEncodable(es[0]) && EntriesEncodable(es[1..]))
  }

  predicate EntryEncodable(e: Entry)
    decreases e, 0
  {
    ShortAscii(e.key) && ValueEncodableAt(e.key, e.val)
  }

  /** write_object's per-value branches: int, list, dict, anything else. */
  predicate ValueEncodableAt(key: string, v: Value)
    decreases v
  {
    match v
    case Int(_) =>
      (IsUInt32Key(key) ==> 0 <= v.i < UINT32_LIMIT) && (IsUInt16Key(key) ==> 0 <= v.i < UINT16_LIMIT)
    case Bool(_) => true
    case List(xs) => if key == FRAME_DATA then FramesEncodable(xs) else ItemsEncodable(xs)
    case Obj(es) => EntriesEncodable(es)
    case Str(s) => ShortAscii(s)
    case Null => true
    case Float(_) => false
  }

  predicate ItemsEncodable(xs: seq<Value>)
    decreases xs, 1
  {
    |xs| == 0 || (ItemEncodable(xs[0]) && ItemsEncodable(xs[1..]))
  }

  /** write_list's per-item branches: str, dict, list, and a raw byte. */
  predicate ItemEncodable(v: Value)
    decreases v, 0
  {
    match v
    case Str(s) => ShortAscii(s)
    case Obj(es) => EntriesEncodable(es)
    case List(xs) => ItemsEncodable(xs)
    case Int(n) => 0 <= n < 256
    case Bool(_) => true
    case Null => false
    case Float(_) => false
  }

  predicate FramesEncodable(points: seq<Value>)
  {
    |points| == 0 || (PointEncodable(points[0]) && FramesEncodable(points[1..]))
  }

  /** A point is iterated for its attributes. Iterating a string or a dict
      yields strings, and a string attribute writes nothing (see
      AttributeEncodable), so only a list point has attributes that matter;
      iterating anything else raises TypeError. */
  predicate PointEncodable(p: Value)
  {
    match p
    case List(attrs) => AttributesEncodable(attrs)
    case Str(_) => true
    case Obj(_) => true
    case _ => false
  }

  predicate AttributesEncodable(attrs: seq<Value>)
  {
    |attrs| == 0 || (AttributeEncodable(attrs[0]) && AttributesEncodable(attrs[1..]))
  }

  /** An all-integer attribute is packed with 'i', so each component must
      fit. A string or dict attribute yields strings: not all ints (unless
      empty), never floats, so nothing is written for it. */
  predicate AttributeEncodable(a: Value)
  {
    match a
    case List(xs) => AllIntLike(xs) ==> AllInInt32Range(xs)
    case Str(_) => true
    case Obj(_) => true
    case _ => false
  }

  // ---------------------------------------------------------------------
  // The bytes written

  /** save(): the document between '{' and '}'. */
  function EncodeDocument(data: Value): (r: seq<byte>)
    requires data.Obj? && EntriesEncodable(data.entries)
  {
    [OBJECT_START] + EncodeEntries(data.entries) + [OBJECT_END]
  }

  /** write_object */
  function EncodeEntries(es: seq<Entry>): (r: seq<byte>)
    requires EntriesEncodable(es)
    decreases es, 1
  {
    if |es| == 0 then [] else EncodeEntry(es[0]) + EncodeEntries(es[1..])
  }

  /** One pass of write_object's loop: 'B', the key, then the value. */
  function EncodeEntry(e: Entry): (r: seq<byte>)
    requires EntryEncodable(e)
    decreases e, 0
  {
    [UINT8] + StringBytes(e.key) + EncodeValueAt(e.key, e.val)
  }

  /** The value part of one write_object entry; its width depends on the key. */
  function EncodeValueAt(key: string, v: Value): (r: seq<byte>)
    requires ValueEncodableAt(key, v)
    decreases v, 2
  {
    if IsIntLike(v) then
      if IsUInt32Key(key) then PackUInt32(IntOf(v))
      else if IsUInt16Key(key) then PackUInt16(IntOf(v))
      else []
    else if v.List? then
      if key == FRAME_DATA then EncodeFrames(v.items) else EncodeList(v.items)
    else if v.Obj? then [OBJECT_START] + EncodeEntries(v.entries) + [OBJECT_END]
    else [UINT8] + StringBytes(Text(v))
  }

  /** write_list */
  function EncodeList(xs: seq<Value>): (r: seq<byte>)
    requires ItemsEncodable(xs)
    decreases xs, 2
  {
    [ARRAY_START] + EncodeItems(xs) + [ARRAY_END]
  }

  function EncodeItems(xs: seq<Value>): (r: seq<byte>)
    requires ItemsEncodable(xs)
    decreases xs, 1
  {
    if |xs| == 0 then [] else EncodeItem(xs[0]) + EncodeItems(xs[1..])
  }

  /** One pass of write_list's loop. */
  function EncodeItem(v: Value): (r: seq<byte>)
    requires ItemEncodable(v)
    decreases v, 0
  {
    match v
    case Str(s) => [UINT8] + StringBytes(s)
    case Obj(es) => [OBJECT_START] + EncodeEntries(es) + [OBJECT_END]
    case List(xs) => EncodeList(xs)
    case Int(n) => [n]
    case Bool(_) => [IntOf(v)]
  }

  /** write_frames_data: raw words only, between one bracket pair per point
      and one around the block. */
  function EncodeFrames(points: seq<Value>): (r: seq<byte>)
    requires FramesEncodable(points)
  {
    [ARRAY_START] + EncodePoints(points) + [ARRAY_END]
  }

  function EncodePoints(points: seq<Value>): (r: seq<byte>)
    requires FramesEncodable(points)
  {
    if |points| == 0 then [] else EncodePoint(points[0]) + EncodePoints(points[1..])
  }

  function EncodePoint(p: Value): (r: seq<byte>)
    requires PointEncodable(p)
  {
    [ARRAY_START] + (if p.List? then EncodeAttributes(p.items) else []) + [ARRAY_END]
  }

  function EncodeAttributes(attrs: seq<Value>): (r: seq<byte>)
    requires AttributesEncodable(attrs)
  {
    if |attrs| == 0 then [] else EncodeAttribute(attrs[0]) + EncodeAttributes(attrs[1..])
  }

  /** All-integer components as int32, all-float components as float32,
      and nothing at all for a mix (or for a string or dict attribute). */
  function EncodeAttribute(a: Value): (r: seq<byte>)
    requires AttributeEncodable(a)
  {
    if !a.List? then []
    else if AllIntLike(a.items) then EncodeInt32s(a.items)
    else if AllFloat(a.items) then EncodeFloat32s(a.items)
    else []
  }

  function EncodeInt32s(xs: seq<Value>): (r: seq<byte>)
    requires AllInInt32Range(xs)
    ensures |r| == 4 * |xs|
  {
    if |xs| == 0 then [] else PackInt32(IntOf(xs[0])) + EncodeInt32s(xs[1..])
  }

  function EncodeFloat32s(xs: seq<Value>): (r: seq<byte>)
    requires AllFloat(xs)
    ensures |r| == 4 * |xs|
  {
    if |xs| == 0 then [] else PackFloat32(xs[0].bits) + EncodeFloat32s(xs[1..])
  }

  // ---------------------------------------------------------------------
  // Writing a sequence one element at a time

  lemma {:induction false} EntryEncodableAt(es: seq<Entry>, i: nat)
    requires EntriesEncodable(es) && i < |es|
    ensures EntryEncodable(es[i])
  {
    if i > 0 {
      EntryEncodableAt(es[1..], i - 1);
    }
  }

  lemma {:induction false} ItemEncodableAt(xs: seq<Value>, i: nat)
    requires ItemsEncodable(xs) && i < |xs|
    ensures ItemEncodable(xs[i])
  {
    if i > 0 {
      ItemEncodableAt(xs[1..], i - 1);
    }
  }

  lemma {:induction false} PointEncodableAt(points: seq<Value>, i: nat)
    requires FramesEncodable(points) && i < |points|
    ensures PointEncodable(points[i])
  {
    if i > 0 {
      PointEncodableAt(points[1..], i - 1);
    }
  }

  lemma {:induction false} AttributeEncodableAt(attrs: seq<Value>, i: nat)
    requires AttributesEncodable(attrs) && i < |attrs|
    ensures AttributeEncodable(attrs[i])
  {
    if i > 0 {
      AttributeEncodableAt(attrs[1..], i - 1);
    }
  }

  lemma {:induction false} InInt32RangeAt(xs: seq<Value>, i: nat)
    requires AllInInt32Range(xs) && i < |xs|
    ensures InInt32Range(xs[i])
  {
    if i > 0 {
      InInt32RangeAt(xs[1..], i - 1);
    }
  }

  lemma {:induction false} FloatAt(xs: seq<Value>, i: nat)
    requires AllFloat(xs) && i < |xs|
    ensures xs[i].Float?
  {
    if i > 0 {
      FloatAt(xs[1..], i - 1);
    }
  }

  lemma {:induction false} EncodeEntriesSnoc(es: seq<Entry>, e: Entry)
    requires EntriesEncodable(es) && EntryEncodable(e)
    ensures EntriesEncodable(es + [e])
    ensures EncodeEntries(es + [e]) == EncodeEntries(es) + EncodeEntry(e)
  {
    if |es| > 0 {
      assert (es + [e])[1..] == es[1..] + [e];
      EncodeEntriesSnoc(es[1..], e);
    }
  }

  lemma {:induction false} EncodeItemsSnoc(xs: seq<Value>, x: Value)
    requires ItemsEncodable(xs) && ItemEncodable(x)
    ensures ItemsEncodable(xs + [x])
    ensures EncodeItems(xs + [x]) == EncodeItems(xs) + EncodeItem(x)
  {
    if |xs| > 0 {
      assert (xs + [x])[1..] == xs[1..] + [x];
      EncodeItemsSnoc(xs[1..], x);
    }
  }

  lemma {:induction false} EncodePointsSnoc(ps: seq<Value>, p: Value)
    requires FramesEncodable(ps) && PointEncodable(p)
    ensures FramesEncodable(ps + [p])
    ensures EncodePoints(ps + [p]) == EncodePoints(ps) + EncodePoint(p)
  {
    if |ps| > 0 {
      assert (ps + [p])[1..] == ps[1..] + [p];
      EncodePointsSnoc(ps[1..], p);
    }
  }

  lemma {:induction false} EncodeAttributesSnoc(attrs: seq<Value>, a: Value)
    requires AttributesEncodable(attrs) && AttributeEncodable(a)
    ensures AttributesEncodable(attrs + [a])
    ensures EncodeAttributes(attrs + [a]) == EncodeAttributes(attrs) + EncodeAttribute(a)
  {
    if |attrs| > 0 {
      assert (attrs + [a])[1..] == attrs[1..] + [a];
      EncodeAttributesSnoc(attrs[1..], a);
    }
  }

  lemma {:induction false} EncodeInt32sSnoc(xs: seq<Value>, x: Value)
    requires AllInInt32Range(xs) && InInt32Range(x)
    ensures AllInInt32Range(xs + [x])
    ensures EncodeInt32s(xs + [x]) == EncodeInt32s(xs) + PackInt32(IntOf(x))
  {
    if |xs| > 0 {
      assert (xs + [x])[1..] == xs[1..] + [x];
      EncodeInt32sSnoc(xs[1..], x);
    }
  }

  lemma {:induction false} EncodeFloat32sSnoc(xs: seq<Value>, x: Value)
    requires AllFloat(xs) && x.Float?
    ensures AllFloat(xs + [x])
    ensures EncodeFloat32s(xs + [x]) == EncodeFloat32s(xs) + PackFloat32(x.bits)
  {
    if |xs| > 0 {
      assert (xs + [x])[1..] == xs[1..] + [x];
      EncodeFloat32sSnoc(xs[1..], x);
    }
  }
}
