/** The transcoder's writer, HoudiniPointCacheSaverBJSON: every write_*
    method appends to the saver's own bytearray, and each is proved to
    append exactly the bytes the Encoding module gives. */
module Saver {
  import opened Bytes
  import opened Document
  import opened Format
  import opened Encoding

  class PointCacheSaver {
    const data: Value
    const buffer: ByteArray

    constructor (data: Value)
      ensures this.data == data && fresh(buffer) && buffer.data == []
    {
      this.data := data;
      buffer := new ByteArray();
    }

    /** save(), without the final file write: '{', the object, '}'. */
    method Save()
      requires data.Obj? && EntriesEncodable(data.entries)
      modifies buffer
      ensures buffer.data == old(buffer.data) + EncodeDocument(data)
    {
      WriteMarker(OBJECT_START);
      WriteObject(data.entries);
      WriteMarker(OBJECT_END);
      ConcatAssoc4(old(buffer.data), [OBJECT_START], EncodeEntries(data.entries), [OBJECT_END]);
    }

    method WriteMarker(marker: byte)
      modifies buffer
      ensures buffer.data == old(buffer.data) + [marker]
    {
      buffer.Append(marker);
    }

    method WriteUInt8String(s: string)
      requires ShortAscii(s)
      modifies buffer
      ensures buffer.data == old(buffer.data) + StringBytes(s)
    {
      buffer.Append(|s|);
      buffer.Extend(AsciiBytes(s));
    }

    method WriteUInt32(n: int)
      requires 0 <= n < UINT32_LIMIT
      modifies buffer
      ensures buffer.data == old(buffer.data) + PackUInt32(n)
    {
      buffer.Extend(PackUInt32(n));
    }

    method WriteUInt16(n: int)
      requires 0 <= n < UINT16_LIMIT
      modifies buffer
      ensures buffer.data == old(buffer.data) + PackUInt16(n)
    {
      buffer.Extend(PackUInt16(n));
    }

    method WriteList(xs: seq<Value>)
      requires ItemsEncodable(xs)
      modifies buffer
      decreases xs, 1
      ensures buffer.data == old(buffer.data) + EncodeList(xs)
    {
      WriteMarker(ARRAY_START);
      ghost var start := buffer.data;
      for i := 0 to |xs|
        invariant ItemsEncodable(xs[..i])
        invariant buffer.data == start + EncodeItems(xs[..i])
      {
        ItemEncodableAt(xs, i);
        EncodeItemsSnoc(xs[..i], xs[i]);
        PrefixStep(xs, i);
        ConcatAssoc(start, EncodeItems(xs[..i]), EncodeItem(xs[i]));
        WriteItem(xs[i]);
      }
      PrefixWhole(xs);
      WriteMarker(ARRAY_END);
      ConcatAssoc4(old(buffer.data), [ARRAY_START], EncodeItems(xs), [ARRAY_END]);
    }

    /** The body of write_list's loop, for one item. */
    method WriteItem(item: Value)
      requires ItemEncodable(item)
      modifies buffer
      decreases item, 0
      ensures buffer.data == old(buffer.data) + EncodeItem(item)
    {
      ghost var before := buffer.data;
      if item.Str? {
        WriteMarker(UINT8);
        WriteUInt8String(item.s);
        ConcatAssoc(before, [UINT8], StringBytes(item.s));
      } else if item.Obj? {
        WriteMarker(OBJECT_START);
        WriteObject(item.entries);
        WriteMarker(OBJECT_END);
        ConcatAssoc4(before, [OBJECT_START], EncodeEntries(item.entries), [OBJECT_END]);
      } else if item.List? {
        WriteList(item.items);
      } else {
        WriteMarker(IntOf(item));
      }
    }

    method WriteObject(es: seq<Entry>)
      requires EntriesEncodable(es)
      modifies buffer
      decreases es, 2
      ensures buffer.data == old(buffer.data) + EncodeEntries(es)
    {
      for i := 0 to |es|
        invariant EntriesEncodable(es[..i])
        invariant buffer.data == old(buffer.data) + EncodeEntries(es[..i])
      {
        EntryEncodableAt(es, i);
        EncodeEntriesSnoc(es[..i], es[i]);
        PrefixStep(es, i);
        ConcatAssoc(old(buffer.data), EncodeEntries(es[..i]), EncodeEntry(es[i]));
        WriteEntry(es[i]);
      }
      PrefixWhole(es);
    }

    /** One pass of write_object's loop: 'B', the key, then the value. */
    method WriteEntry(e: Entry)
      requires EntryEncodable(e)
      modifies buffer
      decreases e, 1
      ensures buffer.data == old(buffer.data) + EncodeEntry(e)
    {
      var key, value := e.key, e.val;
      ghost var sb, ev := StringBytes(key), EncodeValueAt(key, value);
      WriteMarker(UINT8);
      WriteUInt8String(key);
      WriteValue(key, value);
      ConcatAssoc4(old(buffer.data), [UINT8], sb, ev);
    }

    /** The value half of write_object's loop body: the width of an integer
        is chosen by the key's name. */
    method WriteValue(key: string, value: Value)
      requires ValueEncodableAt(key, value)
      modifies buffer
      decreases value, 2
      ensures buffer.data == old(buffer.data) + EncodeValueAt(key, value)
    {
      if IsIntLike(value) {
        if IsUInt32Key(key) {
          WriteUInt32(IntOf(value));
        } else if IsUInt16Key(key) {
          WriteUInt16(IntOf(value));
        }
      } else if value.List? {
        if key == FRAME_DATA {
          WriteFramesData(value.items);
        } else {
          WriteList(value.items);
        }
      } else if value.Obj? {
        ghost var before := buffer.data;
        WriteMarker(OBJECT_START);
        WriteObject(value.entries);
        WriteMarker(OBJECT_END);
        ConcatAssoc4(before, [OBJECT_START], EncodeEntries(value.entries), [OBJECT_END]);
      } else {
        ghost var before := buffer.data;
        WriteMarker(UINT8);
        WriteUInt8String(Text(value));
        ConcatAssoc(before, [UINT8], StringBytes(Text(value)));
      }
    }

    method WriteFramesData(points: seq<Value>)
      requires FramesEncodable(points)
      modifies buffer
      ensures buffer.data == old(buffer.data) + EncodeFrames(points)
    {
      WriteMarker(ARRAY_START);
      ghost var start := buffer.data;
      for i := 0 to |points|
        invariant FramesEncodable(points[..i])
        invariant buffer.data == start + EncodePoints(points[..i])
      {
        PointEncodableAt(points, i);
        EncodePointsSnoc(points[..i], points[i]);
        PrefixStep(points, i);
        ConcatAssoc(start, EncodePoints(points[..i]), EncodePoint(points[i]));
        WritePoint(points[i]);
      }
      PrefixWhole(points);
      WriteMarker(ARRAY_END);
      ConcatAssoc4(old(buffer.data), [ARRAY_START], EncodePoints(points), [ARRAY_END]);
    }

    /** One pass of write_frames_data's outer loop: the point's attributes
        between a bracket pair. Only a list point has attributes that write
        anything. */
    method WritePoint(point: Value)
      requires PointEncodable(point)
      modifies buffer
      ensures buffer.data == old(buffer.data) + EncodePoint(point)
    {
      WriteMarker(ARRAY_START);
      ghost var start := buffer.data;
      var attrs := if point.List? then point.items else [];
      for j := 0 to |attrs|
        invariant AttributesEncodable(attrs[..j])
        invariant buffer.data == start + EncodeAttributes(attrs[..j])
      {
        AttributeEncodableAt(attrs, j);
        EncodeAttributesSnoc(attrs[..j], attrs[j]);
        PrefixStep(attrs, j);
        ConcatAssoc(start, EncodeAttributes(attrs[..j]), EncodeAttribute(attrs[j]));
        WriteAttribute(attrs[j]);
      }
      PrefixWhole(attrs);
      WriteMarker(ARRAY_END);
      ConcatAssoc4(old(buffer.data), [ARRAY_START], EncodeAttributes(attrs), [ARRAY_END]);
    }

    /** The body of write_frames_data's innermost loops, for one attribute:
        'i' words when every component is an integer, 'f' words when every
        component is a float, nothing otherwise. */
    method WriteAttribute(attribute: Value)
      requires AttributeEncodable(attribute)
      modifies buffer
      ensures buffer.data == old(buffer.data) + EncodeAttribute(attribute)
    {
      var items := if attribute.List? then attribute.items else [];
      if !attribute.List? {
      } else if AllIntLike(items) {
        WriteInt32s(items);
      } else if AllFloat(items) {
        WriteFloat32s(items);
      }
    }

    /** `struct.pack('i', item)` for each component of an all-integer attribute. */
    method WriteInt32s(items: seq<Value>)
      requires AllInInt32Range(items)
      modifies buffer
      ensures buffer.data == old(buffer.data) + EncodeInt32s(items)
    {
      for k := 0 to |items|
        invariant AllInInt32Range(items[..k])
        invariant buffer.data == old(buffer.data) + EncodeInt32s(items[..k])
      {
        InInt32RangeAt(items, k);
        EncodeInt32sSnoc(items[..k], items[k]);
        PrefixStep(items, k);
        buffer.Extend(PackInt32(IntOf(items[k])));
      }
      PrefixWhole(items);
    }

    /** `struct.pack('f', item)` for each component of an all-float attribute. */
    method WriteFloat32s(items: seq<Value>)
      requires AllFloat(items)
      modifies buffer
      ensures buffer.data == old(buffer.data) + EncodeFloat32s(items)
    {
      for k := 0 to |items|
        invariant AllFloat(items[..k])
        invariant buffer.data == old(buffer.data) + EncodeFloat32s(items[..k])
      {
        FloatAt(items, k);
        EncodeFloat32sSnoc(items[..k], items[k]);
        PrefixStep(items, k);
        buffer.Extend(PackFloat32(items[k].bits));
      }
      PrefixWhole(items);
    }
  }
}
