/** HoudiniPointCacheLoaderBJSON: the file's bytes, a forward cursor into
    them, and the header fields read so far. Every read method is proved to
    do what the matching function of module Decoding says, on the bytes
    from the cursor on. */
module Loader {
  import opened Bytes
  import opened Document
  import opened Format
  import opened Encoding
  import opened Decoding

  /** How a read method ends: with a value, or by raising. */
  datatype Outcome<T> = Done(value: T) | Raised(err: Error)

  /** A read of a run of values, once `prefix` has already been read. */
  function Prepend<T>(prefix: seq<T>, p: Step<seq<T>>): (r: Step<seq<T>>)
    ensures p.Ok? <==> r.Ok?
    ensures r.Ok? ==> |prefix| <= |r.val| && r.val[..|prefix|] == prefix && r.val[|prefix|..] == p.val && r.rest == p.rest
  {
    match p
    case Ok(v, rest) => Ok(prefix + v, rest)
    case Err(e) => Err(e)
  }

  /** Reading one more value `x` moves it from the run still to read to the prefix. */
  lemma PrependStep<T>(prefix: seq<T>, x: T, rest: Step<seq<T>>)
    ensures Prepend(prefix + [x], rest) == Prepend(prefix, Prepend([x], rest))
  {
    if rest.Ok? {
      ConcatAssoc(prefix, [x], rest.val);
    }
  }

  class PointCacheLoader {
    var reader: seq<byte>
    var position: nat
    var numSamples: Value
    var numFrames: Value
    var numPoints: Value
    var numAttrib: Value
    var attribName: Value
    var attribSize: Value
    var attribType: Value

    /** The bytes not yet read. */
    function Rest(): seq<byte>
      reads this
    {
      Suffix(reader, position)
    }

    /** The header fields, as one schema. */
    function State(): Schema
      reads this
    {
      Schema(numSamples, numFrames, numPoints, numAttrib, attribName, attribSize, attribType)
    }

    /** The loader stands where the read `p` ends: with its value, its bytes
        left over and its schema; or it raised p's error. */
    predicate Follows(r: Outcome<Value>, p: Parse)
      reads this
    {
      match p
      case Parsed(v, rest, s) => r == Done(v) && Rest() == rest && State() == s
      case Failed(e) => r == Raised(e)
    }

    /** The same for a low-level read, which leaves the schema alone. */
    predicate FollowsStep<T(==)>(r: Outcome<T>, p: Step<T>)
      reads this
    {
      match p
      case Ok(v, rest) => r == Done(v) && Rest() == rest
      case Err(e) => r == Raised(e)
    }

    /** __init__: no file yet, the cursor at 0, zero counts and empty lists. */
    constructor()
      ensures reader == [] && position == 0 && State() == InitialSchema
    {
      reader := [];
      position := 0;
      numSamples, numFrames, numPoints, numAttrib := Int(0), Int(0), Int(0), Int(0);
      attribName, attribSize, attribType := List([]), List([]), List([]);
    }

    /** load(), with the file's contents given. The cursor is not reset. */
    method Load(contents: seq<byte>) returns (r: Outcome<Value>)
      modifies this
      ensures reader == contents
      ensures Follows(r, Decoding.Load(contents, old(position), old(State())))
    {
      reader := contents;
      if |reader| == 0 {
        return Done(Bool(false));
      }
      var marker := ReadMarker();
      if marker.Raised? {
        return Raised(marker.err);
      }
      if marker.value != OBJECT_START {
        return Done(Bool(false));
      }
      r := ReadObject();
    }

    /** read_next_bytes: raises when the cursor is at or past the end;
        otherwise returns up to n bytes and moves the cursor by exactly n. */
    method ReadNextBytes(n: nat) returns (r: Outcome<seq<byte>>)
      modifies this`position
      ensures old(position) >= |reader| ==> r == Raised(EndOfFile) && position == old(position)
      ensures old(position) < |reader| ==>
                position == old(position) + n &&
                r == Done(reader[old(position)..if old(position) + n <= |reader| then old(position) + n else |reader|])
      ensures FollowsStep(r, Decoding.ReadNextBytes(old(Rest()), n))
    {
      if position >= |reader| {
        return Raised(EndOfFile);
      }
      ghost var input := Rest();
      var end := if position + n <= |reader| then position + n else |reader|;
      var bytes := reader[position..end];
      position := position + n;
      if n <= |input| {
        assert bytes == input[..n] && Rest() == input[n..];
      } else {
        assert bytes == input && Rest() == [];
      }
      return Done(bytes);
    }

    /** read_marker, which is read_next_byte. */
    method ReadMarker() returns (r: Outcome<byte>)
      modifies this`position
      ensures FollowsStep(r, Decoding.ReadMarker(old(Rest())))
    {
      var bytes := ReadNextBytes(1);
      if bytes.Raised? {
        return Raised(bytes.err);
      }
      return Done(bytes.value[0]);
    }

    method ReadUInt8String() returns (r: Outcome<string>)
      modifies this`position
      ensures FollowsStep(r, ReadString(old(Rest())))
    {
      var length := ReadMarker();
      if length.Raised? {
        return Raised(length.err);
      }
      var bytes := ReadNextBytes(length.value);
      if bytes.Raised? {
        return Raised(bytes.err);
      }
      if !AllAscii(bytes.value) {
        return Raised(NotAscii);
      }
      return Done(AsciiChars(bytes.value));
    }

    method ReadUInt32() returns (r: Outcome<nat>)
      modifies this`position
      ensures FollowsStep(r, ReadUnsigned(old(Rest()), 4))
    {
      var bytes := ReadNextBytes(4);
      if bytes.Raised? {
        return Raised(bytes.err);
      }
      if |bytes.value| != 4 {
        return Raised(ShortRead);
      }
      return Done(UnpackUnsigned(bytes.value));
    }

    method ReadUInt16() returns (r: Outcome<nat>)
      modifies this`position
      ensures FollowsStep(r, ReadUnsigned(old(Rest()), 2))
    {
      var bytes := ReadNextBytes(2);
      if bytes.Raised? {
        return Raised(bytes.err);
      }
      if |bytes.value| != 2 {
        return Raised(ShortRead);
      }
      return Done(UnpackUnsigned(bytes.value));
    }

    method ReadList() returns (r: Outcome<Value>)
      modifies this
      ensures reader == old(reader)
      ensures Follows(r, ReadListFrom(old(Rest()), old(State()), []))
      decreases |Rest()|, 0
    {
      var list: seq<Value> := [];
      while true
        invariant reader == old(reader) && |Rest()| <= |old(Rest())|
        invariant ReadListFrom(Rest(), State(), list) == ReadListFrom(old(Rest()), old(State()), [])
        decreases |Rest()|
      {
        var marker := ReadMarker();
        if marker.Raised? {
          return Raised(marker.err);
        }
        if marker.value == ARRAY_END {
          return Done(List(list));
        }
        var item := ParseMarker(marker.value);
        if item.Raised? {
          return Raised(item.err);
        }
        list := list + [item.value];
      }
    }

    method ReadObject() returns (r: Outcome<Value>)
      modifies this
      ensures reader == old(reader)
      ensures Follows(r, ReadObjectFrom(old(Rest()), old(State()), []))
      decreases |Rest()|, 0
    {
      var obj: seq<Entry> := [];
      while true
        invariant reader == old(reader) && |Rest()| <= |old(Rest())|
        invariant ReadObjectFrom(Rest(), State(), obj) == ReadObjectFrom(old(Rest()), old(State()), [])
        decreases |Rest()|
      {
        var marker := ReadMarker();
        if marker.Raised? {
          return Raised(marker.err);
        }
        if marker.value == OBJECT_END {
          return Done(Obj(obj));
        }
        if marker.value == UINT8 {
          var key := ReadUInt8String();
          if key.Raised? {
            return Raised(key.err);
          }
          var value := ReadValue(key.value);
          if value.Raised? {
            return Raised(value.err);
          }
          obj := Put(obj, key.value, value.value);
          UpdateNumValues(key.value, value.value);
        }
      }
    }

    method ReadValue(key: string) returns (r: Outcome<Value>)
      modifies this
      ensures reader == old(reader)
      ensures Follows(r, Decoding.ReadValue(old(Rest()), old(State()), key))
      decreases |Rest()|, 2
    {
      if IsUInt32Key(key) {
        var n := ReadUInt32();
        return if n.Raised? then Raised(n.err) else Done(Int(n.value));
      }
      if IsUInt16Key(key) {
        var n := ReadUInt16();
        return if n.Raised? then Raised(n.err) else Done(Int(n.value));
      }
      if key == FRAME_DATA {
        r := ReadFramesData();
        return;
      }
      var marker := ReadMarker();
      if marker.Raised? {
        return Raised(marker.err);
      }
      r := ParseMarker(marker.value);
    }

    method ParseMarker(marker: byte) returns (r: Outcome<Value>)
      modifies this
      ensures reader == old(reader)
      ensures Follows(r, Decoding.ParseMarker(old(Rest()), old(State()), marker))
      decreases |Rest()|, 1
    {
      if marker == UINT8 {
        var s := ReadUInt8String();
        return if s.Raised? then Raised(s.err) else Done(Str(s.value));
      }
      if marker == OBJECT_START {
        r := ReadObject();
        return;
      }
      if marker == ARRAY_START {
        r := ReadList();
        return;
      }
      return Done(Int(marker));
    }

    method UpdateNumValues(key: string, value: Value)
      modifies this
      ensures reader == old(reader) && position == old(position)
      ensures State() == Decoding.UpdateNumValues(old(State()), key, value)
    {
      if key == "num_samples" {
        numSamples := value;
      } else if key == "num_frames" {
        numFrames := value;
      } else if key == "num_points" {
        numPoints := value;
      } else if key == NUM_ATTRIB {
        numAttrib := value;
      } else if key == "attrib_name" {
        attribName := value;
      } else if key == "attrib_size" {
        attribSize := value;
      } else if key == "attrib_data_type" {
        attribType := value;
      }
    }

    method ReadFramesData() returns (r: Outcome<Value>)
      modifies this`position
      ensures Follows(r, Decoding.ReadFramesData(old(Rest()), old(State())))
    {
      var open := ReadMarker();
      if open.Raised? {
        return Raised(open.err);
      }
      if open.value != ARRAY_START {
        return Done(Bool(false));
      }
      var count := RangeCount(numPoints);
      if count.None? {
        return Raised(BadSchema);
      }
      var frames := ReadFrames(count.value);
      if frames.Raised? {
        return Raised(frames.err);
      }
      var close := ReadMarker();
      if close.Raised? {
        return Raised(close.err);
      }
      if close.value != ARRAY_END {
        return Done(Bool(false));
      }
      return Done(List(frames.value));
    }

    /** read_frames_data's comprehension: `count` frames. */
    method ReadFrames(count: nat) returns (r: Outcome<seq<Value>>)
      modifies this`position
      ensures FollowsStep(r, Decoding.ReadFrames(old(Rest()), State(), count))
    {
      var frames: seq<Value> := [];
      for k := 0 to count
        invariant Prepend(frames, Decoding.ReadFrames(Rest(), State(), count - k))
               == Decoding.ReadFrames(old(Rest()), State(), count)
      {
        var frame := ReadFrame();
        if frame.Raised? {
          return Raised(frame.err);
        }
        PrependStep(frames, frame.value, Decoding.ReadFrames(Rest(), State(), count - k - 1));
        frames := frames + [frame.value];
      }
      assert frames + [] == frames;
      return Done(frames);
    }

    method ReadFrame() returns (r: Outcome<Value>)
      modifies this`position
      ensures FollowsStep(r, Decoding.ReadFrame(old(Rest()), State()))
    {
      var open := ReadMarker();
      if open.Raised? {
        return Raised(open.err);
      }
      if open.value != ARRAY_START {
        return Done(Bool(false));
      }
      var count := RangeCount(numAttrib);
      if count.None? {
        return Raised(BadSchema);
      }
      var attributes := ReadAttributes(count.value);
      if attributes.Raised? {
        return Raised(attributes.err);
      }
      var close := ReadMarker();
      if close.Raised? {
        return Raised(close.err);
      }
      if close.value != ARRAY_END {
        return Done(Bool(false));
      }
      return Done(List(attributes.value));
    }

    /** read_frame's comprehension: attributes 0 to count - 1. */
    method ReadAttributes(count: nat) returns (r: Outcome<seq<Value>>)
      modifies this`position
      ensures FollowsStep(r, Decoding.ReadAttributes(old(Rest()), State(), 0, count))
    {
      var attributes: seq<Value> := [];
      for i := 0 to count
        invariant Prepend(attributes, Decoding.ReadAttributes(Rest(), State(), i, count))
               == Decoding.ReadAttributes(old(Rest()), State(), 0, count)
      {
        var attribute := ReadAttribute(i);
        if attribute.Raised? {
          return Raised(attribute.err);
        }
        PrependStep(attributes, attribute.value, Decoding.ReadAttributes(Rest(), State(), i + 1, count));
        attributes := attributes + [attribute.value];
      }
      assert attributes + [] == attributes;
      return Done(attributes);
    }

    method ReadAttribute(i: nat) returns (r: Outcome<Value>)
      modifies this`position
      ensures FollowsStep(r, Decoding.ReadAttribute(old(Rest()), State(), i))
    {
      var attributeType := Index(attribType, i);
      if attributeType.None? {
        return Raised(BadSchema);
      }
      var attributeSize := Index(attribSize, i);
      if attributeSize.None? {
        return Raised(BadSchema);
      }
      var attributeValue: seq<Value> := [];
      if IsTag(attributeType.value, INT32) {
        var count := RangeCount(attributeSize.value);
        if count.None? {
          return Raised(BadSchema);
        }
        var words := ReadWords(count.value, true);
        if words.Raised? {
          return Raised(words.err);
        }
        attributeValue := words.value;
      } else if IsTag(attributeType.value, FLOAT32) {
        var count := RangeCount(attributeSize.value);
        if count.None? {
          return Raised(BadSchema);
        }
        var words := ReadWords(count.value, false);
        if words.Raised? {
          return Raised(words.err);
        }
        attributeValue := words.value;
      }
      return Done(List(attributeValue));
    }

    /** One of read_attribute's comprehensions: `count` 4-byte words,
        unpacked with 'i' when `signed` and with 'f' otherwise. */
    method ReadWords(count: nat, signed: bool) returns (r: Outcome<seq<Value>>)
      modifies this`position
      ensures FollowsStep(r, Decoding.ReadWords(old(Rest()), count, signed))
    {
      var words: seq<Value> := [];
      for k := 0 to count
        invariant Prepend(words, Decoding.ReadWords(Rest(), count - k, signed)) == Decoding.ReadWords(old(Rest()), count, signed)
      {
        var bytes := ReadNextBytes(4);
        if bytes.Raised? {
          return Raised(bytes.err);
        }
        if |bytes.value| != 4 {
          return Raised(ShortRead);
        }
        var word := if signed then Int(UnpackInt32(bytes.value)) else Float(UnpackFloat32(bytes.value));
        PrependStep(words, word, Decoding.ReadWords(Rest(), count - k - 1, signed));
        words := words + [word];
      }
      assert words + [] == words;
      return Done(words);
    }
  }
}
