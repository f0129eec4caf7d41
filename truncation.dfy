/** A file cut short is never read as a document. Every read in the loader
    looks only at the bytes in front of it, so a read that succeeds still
    succeeds, with the same value, when more bytes follow; only
    read_uint8_string can succeed on a cut (Python slices what is there),
    and then nothing is left for the read after it. Hence a save() output
    cut anywhere after its first byte makes load() raise, since whatever it
    read from the cut bytes would also be what it reads from the whole. */
module Truncation {
  import opened Bytes
  import opened Document
  import opened Format
  import opened Encoding
  import opened Decoding
  import opened RoundTrip

  /** `r2` is the read `r` with `t` appended to the bytes it leaves. */
  predicate StepExtends<T(==)>(r: Step<T>, r2: Step<T>, t: seq<byte>)
  {
    r.Ok? ==> r2 == Ok(r.val, r.rest + t)
  }

  predicate ParseExtends(r: Parse, r2: Parse, t: seq<byte>)
  {
    r.Parsed? ==> r2 == Parsed(r.value, r.rest + t, r.schema)
  }

  // ---------------------------------------------------------------------
  // Byte-level reads

  lemma NextBytesExtends(input: seq<byte>, n: nat, t: seq<byte>)
    requires n <= |input|
    ensures StepExtends(ReadNextBytes(input, n), ReadNextBytes(input + t, n), t)
  {
    if |input| > 0 {
      assert (input + t)[..n] == input[..n];
      assert (input + t)[n..] == input[n..] + t;
    }
  }

  lemma MarkerExtends(input: seq<byte>, t: seq<byte>)
    ensures StepExtends(ReadMarker(input), ReadMarker(input + t), t)
  {
    if |input| > 0 {
      NextBytesExtends(input, 1, t);
    }
  }

  /** A string read that leaves bytes over was not cut short. */
  lemma StringExtends(input: seq<byte>, t: seq<byte>)
    requires ReadString(input).Ok? && ReadString(input).rest != []
    ensures ReadString(input + t) == Ok(ReadString(input).val, ReadString(input).rest + t)
  {
    MarkerExtends(input, t);
    var m := ReadMarker(input);
    NextBytesExtends(m.rest, m.val, t);
  }

  lemma UnsignedExtends(input: seq<byte>, width: nat, t: seq<byte>)
    ensures StepExtends(ReadUnsigned(input, width), ReadUnsigned(input + t, width), t)
  {
    if width <= |input| {
      NextBytesExtends(input, width, t);
    }
  }

  // ---------------------------------------------------------------------
  // frame_data

  lemma {:induction false} WordsExtends(input: seq<byte>, count: nat, signed: bool, t: seq<byte>)
    ensures StepExtends(ReadWords(input, count, signed), ReadWords(input + t, count, signed), t)
    decreases count
  {
    if count > 0 && 4 <= |input| {
      NextBytesExtends(input, 4, t);
      WordsExtends(input[4..], count - 1, signed, t);
    }
  }

  lemma AttributeExtends(input: seq<byte>, schema: Schema, i: nat, t: seq<byte>)
    ensures StepExtends(ReadAttribute(input, schema, i), ReadAttribute(input + t, schema, i), t)
  {
    var tag := Index(schema.attribType, i);
    var size := Index(schema.attribSize, i);
    if tag.Some? && size.Some? && RangeCount(size.value).Some? {
      WordsExtends(input, RangeCount(size.value).value, IsTag(tag.value, INT32), t);
    }
  }

  lemma {:induction false} AttributesExtends(input: seq<byte>, schema: Schema, i: nat, count: nat, t: seq<byte>)
    requires i <= count
    ensures StepExtends(ReadAttributes(input, schema, i, count), ReadAttributes(input + t, schema, i, count), t)
    decreases count - i
  {
    if i < count {
      AttributeExtends(input, schema, i, t);
      var a := ReadAttribute(input, schema, i);
      if a.Ok? {
        AttributesExtends(a.rest, schema, i + 1, count, t);
      }
    }
  }

  lemma FrameExtends(input: seq<byte>, schema: Schema, t: seq<byte>)
    ensures StepExtends(ReadFrame(input, schema), ReadFrame(input + t, schema), t)
  {
    MarkerExtends(input, t);
    var m := ReadMarker(input);
    if m.Ok? && m.val == ARRAY_START && RangeCount(schema.numAttrib).Some? {
      var count := RangeCount(schema.numAttrib).value;
      AttributesExtends(m.rest, schema, 0, count, t);
      var attrs := ReadAttributes(m.rest, schema, 0, count);
      if attrs.Ok? {
        MarkerExtends(attrs.rest, t);
      }
    }
  }

  lemma {:induction false} FramesExtends(input: seq<byte>, schema: Schema, count: nat, t: seq<byte>)
    ensures StepExtends(ReadFrames(input, schema, count), ReadFrames(input + t, schema, count), t)
    decreases count
  {
    if count > 0 {
      FrameExtends(input, schema, t);
      var f := ReadFrame(input, schema);
      if f.Ok? {
        FramesExtends(f.rest, schema, count - 1, t);
      }
    }
  }

  lemma FramesDataExtends(input: seq<byte>, schema: Schema, t: seq<byte>)
    ensures ParseExtends(ReadFramesData(input, schema), ReadFramesData(input + t, schema), t)
  {
    MarkerExtends(input, t);
    var m := ReadMarker(input);
    if m.Ok? && m.val == ARRAY_START && RangeCount(schema.numPoints).Some? {
      var count := RangeCount(schema.numPoints).value;
      FramesExtends(m.rest, schema, count, t);
      var frames := ReadFrames(m.rest, schema, count);
      if frames.Ok? {
        MarkerExtends(frames.rest, t);
      }
    }
  }

  // ---------------------------------------------------------------------
  // Marker dispatch

  lemma {:induction false} ObjectExtends(input: seq<byte>, schema: Schema, acc: seq<Entry>, t: seq<byte>)
    requires ReadObjectFrom(input, schema, acc).Parsed?
    ensures ParseExtends(ReadObjectFrom(input, schema, acc), ReadObjectFrom(input + t, schema, acc), t)
    decreases |input|, 0
  {
    MarkerExtends(input, t);
    var m := ReadMarker(input);
    if m.val == OBJECT_END {
    } else if m.val != UINT8 {
      ObjectExtends(m.rest, schema, acc, t);
    } else {
      var k := ReadString(m.rest);
      var v := ReadValue(k.rest, schema, k.val);
      // The value read after the key, and the loop after the value, each
      // consume a byte, so neither the key nor the value was cut short.
      StringExtends(m.rest, t);
      ValueExtends(k.rest, schema, k.val, t);
      ObjectExtends(v.rest, UpdateNumValues(v.schema, k.val, v.value), Put(acc, k.val, v.value), t);
    }
  }

  /** A value read that leaves bytes over was not cut short. */
  lemma {:induction false} ValueExtends(input: seq<byte>, schema: Schema, key: string, t: seq<byte>)
    requires ReadValue(input, schema, key).Parsed?
    ensures ReadValue(input, schema, key).rest == [] ||
            ReadValue(input + t, schema, key) == Parsed(ReadValue(input, schema, key).value,
              ReadValue(input, schema, key).rest + t, ReadValue(input, schema, key).schema)
    decreases |input|, 2
  {
    if IsUInt32Key(key) {
      UnsignedExtends(input, 4, t);
    } else if IsUInt16Key(key) {
      UnsignedExtends(input, 2, t);
    } else if key == FRAME_DATA {
      FramesDataExtends(input, schema, t);
    } else {
      MarkerExtends(input, t);
      var m := ReadMarker(input);
      MarkerDispatchExtends(m.rest, schema, m.val, t);
    }
  }

  /** A parse_marker read that leaves bytes over was not cut short. */
  lemma {:induction false} MarkerDispatchExtends(input: seq<byte>, schema: Schema, marker: byte, t: seq<byte>)
    requires ParseMarker(input, schema, marker).Parsed?
    ensures ParseMarker(input, schema, marker).rest == [] ||
            ParseMarker(input + t, schema, marker) == Parsed(ParseMarker(input, schema, marker).value,
              ParseMarker(input, schema, marker).rest + t, ParseMarker(input, schema, marker).schema)
    decreases |input|, 1
  {
    if marker == UINT8 {
      if ReadString(input).rest != [] {
        StringExtends(input, t);
      }
    } else if marker == OBJECT_START {
      ObjectExtends(input, schema, [], t);
    } else if marker == ARRAY_START {
      ListExtends(input, schema, [], t);
    }
  }

  lemma {:induction false} ListExtends(input: seq<byte>, schema: Schema, acc: seq<Value>, t: seq<byte>)
    requires ReadListFrom(input, schema, acc).Parsed?
    ensures ParseExtends(ReadListFrom(input, schema, acc), ReadListFrom(input + t, schema, acc), t)
    decreases |input|, 0
  {
    MarkerExtends(input, t);
    var m := ReadMarker(input);
    if m.val != ARRAY_END {
      var v := ParseMarker(m.rest, schema, m.val);
      // The loop after the item consumes a byte, so the item was not cut.
      MarkerDispatchExtends(m.rest, schema, m.val, t);
      ListExtends(v.rest, v.schema, acc + [v.value], t);
    }
  }

  // ---------------------------------------------------------------------
  // load

  /** load() of a non-empty file that gives a value gives the same value
      when more bytes follow, and leaves them unread. */
  lemma DecodeExtends(reader: seq<byte>, t: seq<byte>)
    ensures |reader| > 0 ==> ParseExtends(Decode(reader), Decode(reader + t), t)
  {
    if |reader| > 0 {
      assert Suffix(reader, 0) == reader;
      assert Suffix(reader + t, 0) == reader + t;
      MarkerExtends(reader, t);
      var m := ReadMarker(reader);
      if m.val == OBJECT_START && ReadObjectFrom(m.rest, InitialSchema, []).Parsed? {
        ObjectExtends(m.rest, InitialSchema, [], t);
      }
    }
  }

  /** A non-empty file that load() reads to its very end reads as nothing
      once cut short: whatever the cut gave would leave the cut-off bytes
      unread in the whole file. */
  lemma CutFails(head: seq<byte>, tail: seq<byte>)
    requires |head| > 0 && |tail| > 0
    requires Decode(head + tail).Parsed? && Decode(head + tail).rest == []
    ensures Decode(head).Failed?
  {
    DecodeExtends(head, tail);
  }

  /** save()'s bytes cut after k of them, 0 < k, make load() raise: the cut
      never reads as a document, a wrong one included. (Cut to nothing, the
      file is empty and load() gives False; see Layout.LoadRejects.) */
  lemma TruncatedFails(d: Value, k: nat)
    requires Reloadable(d)
    ensures EntriesEncodable(d.entries)
    ensures 0 < k < |EncodeDocument(d)| ==> Decode(EncodeDocument(d)[..k]).Failed?
  {
    DecodeEncode(d, []);
    var bs := EncodeDocument(d);
    assert bs + [] == bs;
    if 0 < k < |bs| {
      assert bs[..k] + bs[k..] == bs;
      CutFails(bs[..k], bs[k..]);
    }
  }
}
