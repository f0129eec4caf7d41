/** What HoudiniPointCacheLoaderBJSON reads, as functions of the bytes from
    the cursor on (`input`) and the running schema state. Every read either
    yields a value together with the bytes left after it, or raises. The
    loader class (module Loader) keeps the whole file and a cursor, and is
    proved to follow these functions step by step. */
module Decoding {
  import opened Bytes
  import opened Document
  import opened Format
  import opened Encoding

  /** The exceptions the loader lets escape: EOFError from read_next_bytes,
      struct.error from a short unpack, UnicodeDecodeError from a key or
      string that is not ASCII, and the TypeError / IndexError / KeyError
      that range() and indexing raise when the schema fields have the wrong
      shape. */
  datatype Error = EndOfFile | ShortRead | NotAscii | BadSchema

  /** The header fields update_num_values copies as they are read. Python
      stores whatever was decoded, so each field holds a Value. */
  datatype Schema = Schema(
    numSamples: Value,
    numFrames: Value,
    numPoints: Value,
    numAttrib: Value,
    attribName: Value,
    attribSize: Value,
    attribType: Value)

  /** The state __init__ leaves: four zero counts and three empty lists. */
  const InitialSchema: Schema :=
    Schema(Int(0), Int(0), Int(0), Int(0), List([]), List([]), List([]))

  /** A low-level read: the value and the bytes left after it, or an error. */
  datatype Step<T> = Ok(val: T, rest: seq<byte>) | Err(err: Error)

  /** A read of a document value: the value, the bytes left after it and the
      schema after it, or an error. */
  datatype Parse = Parsed(value: Value, rest: seq<byte>, schema: Schema) | Failed(err: Error)

  /** The bytes from cursor `pos` on; none once the cursor is at or past the end. */
  function Suffix(reader: seq<byte>, pos: nat): (r: seq<byte>)
    ensures |r| == if pos < |reader| then |reader| - pos else 0
  {
    if pos < |reader| then reader[pos..] else []
  }

  /** read_next_bytes: raises only when nothing is left; otherwise splits off
      up to n bytes (fewer only at the end of the file). */
  function ReadNextBytes(input: seq<byte>, n: nat): (r: Step<seq<byte>>)
    ensures r.Ok? <==> |input| > 0
    ensures r.Err? ==> r.err == EndOfFile
    ensures r.Ok? ==> r.val + r.rest == input
    ensures r.Ok? ==> |r.val| == (if n <= |input| then n else |input|)
  {
    if |input| == 0 then Err(EndOfFile)
    else if n <= |input| then Ok(input[..n], input[n..])
    else Ok(input, [])
  }

  /** read_marker / read_next_byte */
  function ReadMarker(input: seq<byte>): (r: Step<byte>)
    ensures r.Ok? <==> |input| > 0
    ensures r.Ok? ==> [r.val] + r.rest == input
  {
    match ReadNextBytes(input, 1)
    case Err(e) => Err(e)
    case Ok(bs, rest) => Ok(bs[0], rest)
  }

  /** read_uint8_string: a length byte, then that many bytes decoded. */
  function ReadString(input: seq<byte>): (r: Step<string>)
    ensures r.Ok? ==> |input| > 0 && |r.val| <= input[0] && IsAscii(r.val)
    ensures r.Ok? ==> input == [input[0]] + AsciiBytes(r.val) + r.rest
  {
    match ReadMarker(input)
    case Err(e) => Err(e)
    case Ok(length, p) =>
      match ReadNextBytes(p, length)
      case Err(e) => Err(e)
      case Ok(bs, rest) =>
        if AllAscii(bs) then
          AsciiCharsBytes(bs);
          Ok(AsciiChars(bs), rest)
        else Err(NotAscii)
  }

  /** read_uint32 and read_uint16: struct.unpack needs exactly `width` bytes. */
  function ReadUnsigned(input: seq<byte>, width: nat): (r: Step<nat>)
    ensures r.Ok? ==> r.val < Pow256(width) && input == LittleEndian(r.val, width) + r.rest
    ensures 0 < |input| < width ==> r == Err(ShortRead)
  {
    match ReadNextBytes(input, width)
    case Err(e) => Err(e)
    case Ok(bs, rest) =>
      if |bs| == width then
        LittleEndianInverse(bs);
        Ok(UnpackUnsigned(bs), rest)
      else Err(ShortRead)
  }

  /** update_num_values: header keys overwrite their schema field; every
      other key leaves the schema alone. */
  function UpdateNumValues(schema: Schema, key: string, v: Value): Schema
  {
    if key == "num_samples" then schema.(numSamples := v)
    else if key == "num_frames" then schema.(numFrames := v)
    else if key == "num_points" then schema.(numPoints := v)
    else if key == NUM_ATTRIB then schema.(numAttrib := v)
    else if key == "attrib_name" then schema.(attribName := v)
    else if key == "attrib_size" then schema.(attribSize := v)
    else if key == "attrib_data_type" then schema.(attribType := v)
    else schema
  }

  // ---------------------------------------------------------------------
  // Marker dispatch: read_object, read_value, parse_marker, read_list

  /** read_object's loop, with the entries read so far in `acc`: stops at
      '}', reads a key and its value after 'B', skips any other byte. */
  function ReadObjectFrom(input: seq<byte>, schema: Schema, acc: seq<Entry>): (r: Parse)
    ensures r.Parsed? ==> |r.rest| < |input| && r.value.Obj?
    decreases |input|, 0
  {
    match ReadMarker(input)
    case Err(e) => Failed(e)
    case Ok(marker, p) =>
      if marker == OBJECT_END then Parsed(Obj(acc), p, schema)
      else if marker != UINT8 then ReadObjectFrom(p, schema, acc)
      else
        match ReadString(p)
        case Err(e) => Failed(e)
        case Ok(key, q) =>
          match ReadValue(q, schema, key)
          case Failed(e) => Failed(e)
          case Parsed(v, next, s) =>
            ReadObjectFrom(next, UpdateNumValues(s, key, v), Put(acc, key, v))
  }

  /** read_value: the key's name picks the reading. */
  function ReadValue(input: seq<byte>, schema: Schema, key: string): (r: Parse)
    ensures r.Parsed? ==> |r.rest| < |input|
    decreases |input|, 2
  {
    if IsUInt32Key(key) then
      match ReadUnsigned(input, 4)
      case Err(e) => Failed(e)
      case Ok(n, rest) => Parsed(Int(n), rest, schema)
    else if IsUInt16Key(key) then
      match ReadUnsigned(input, 2)
      case Err(e) => Failed(e)
      case Ok(n, rest) => Parsed(Int(n), rest, schema)
    else if key == FRAME_DATA then
      ReadFramesData(input, schema)
    else
      match ReadMarker(input)
      case Err(e) => Failed(e)
      case Ok(marker, p) => ParseMarker(p, schema, marker)
  }

  /** parse_marker: a string, an object, a list, or the marker byte itself. */
  function ParseMarker(input: seq<byte>, schema: Schema, marker: byte): (r: Parse)
    ensures r.Parsed? ==> |r.rest| <= |input|
    ensures marker !in {UINT8, OBJECT_START, ARRAY_START} ==> r == Parsed(Int(marker), input, schema)
    decreases |input|, 1
  {
    if marker == UINT8 then
      match ReadString(input)
      case Err(e) => Failed(e)
      case Ok(s, rest) => Parsed(Str(s), rest, schema)
    else if marker == OBJECT_START then ReadObjectFrom(input, schema, [])
    else if marker == ARRAY_START then ReadListFrom(input, schema, [])
    else Parsed(Int(marker), input, schema)
  }

  /** read_list's loop, with the items read so far in `acc`. */
  function ReadListFrom(input: seq<byte>, schema: Schema, acc: seq<Value>): (r: Parse)
    ensures r.Parsed? ==> |r.rest| < |input| && r.value.List?
    decreases |input|, 0
  {
    match ReadMarker(input)
    case Err(e) => Failed(e)
    case Ok(marker, p) =>
      if marker == ARRAY_END then Parsed(List(acc), p, schema)
      else
        match ParseMarker(p, schema, marker)
        case Failed(e) => Failed(e)
        case Parsed(v, next, s) => ReadListFrom(next, s, acc + [v])
  }

  // ---------------------------------------------------------------------
  // frame_data: read_frames_data, read_frame, read_attribute

  /** The number of passes `range(v)` makes; anything but an int raises. */
  function RangeCount(v: Value): (r: Option<nat>)
    ensures r.Some? <==> IsIntLike(v)
    ensures r.Some? ==> r.value == (if IntOf(v) < 0 then 0 else IntOf(v))
  {
    if IsIntLike(v) then Some(if IntOf(v) < 0 then 0 else IntOf(v)) else None
  }

  /** `v[i]` for i >= 0: an item of a list, a one-character string of a
      string; a dict (whose keys are strings) or a scalar raises. */
  function Index(v: Value, i: nat): (r: Option<Value>)
    ensures v.List? && i < |v.items| ==> r == Some(v.items[i])
    ensures r.Some? ==> (v.List? && i < |v.items|) || (v.Str? && i < |v.s|)
  {
    if v.List? && i < |v.items| then Some(v.items[i])
    else if v.Str? && i < |v.s| then Some(Str([v.s[i]]))
    else None
  }

  /** `x == marker` for a decoded schema entry; a bool compares as 0 or 1. */
  predicate IsTag(v: Value, marker: byte)
  {
    IsIntLike(v) && IntOf(v) == marker
  }

  /** read_frames_data: '[', num_points frames, ']'. A missing bracket
      gives False, not an exception. */
  function ReadFramesData(input: seq<byte>, schema: Schema): (r: Parse)
    ensures r.Parsed? ==> |r.rest| < |input| && r.schema == schema
  {
    match ReadMarker(input)
    case Err(e) => Failed(e)
    case Ok(marker, p) =>
      if marker != ARRAY_START then Parsed(Bool(false), p, schema)
      else
        match RangeCount(schema.numPoints)
        case None => Failed(BadSchema)
        case Some(count) =>
          match ReadFrames(p, schema, count)
          case Err(e) => Failed(e)
          case Ok(frames, q) =>
            match ReadMarker(q)
            case Err(e) => Failed(e)
            case Ok(close, rest) =>
              if close != ARRAY_END then Parsed(Bool(false), rest, schema)
              else Parsed(List(frames), rest, schema)
  }

  /** `[self.read_frame() for _ in range(count)]` */
  function ReadFrames(input: seq<byte>, schema: Schema, count: nat): (r: Step<seq<Value>>)
    ensures r.Ok? ==> |r.val| == count && |r.rest| <= |input|
    decreases count
  {
    if count == 0 then Ok([], input)
    else
      match ReadFrame(input, schema)
      case Err(e) => Err(e)
      case Ok(frame, p) =>
        match ReadFrames(p, schema, count - 1)
        case Err(e) => Err(e)
        case Ok(frames, rest) => Ok([frame] + frames, rest)
  }

  /** read_frame: '[', num_attrib attributes, ']'. */
  function ReadFrame(input: seq<byte>, schema: Schema): (r: Step<Value>)
    ensures r.Ok? ==> |r.rest| < |input|
  {
    match ReadMarker(input)
    case Err(e) => Err(e)
    case Ok(marker, p) =>
      if marker != ARRAY_START then Ok(Bool(false), p)
      else
        match RangeCount(schema.numAttrib)
        case None => Err(BadSchema)
        case Some(count) =>
          match ReadAttributes(p, schema, 0, count)
          case Err(e) => Err(e)
          case Ok(attrs, q) =>
            match ReadMarker(q)
            case Err(e) => Err(e)
            case Ok(close, rest) =>
              if close != ARRAY_END then Ok(Bool(false), rest) else Ok(List(attrs), rest)
  }

  /** `[self.read_attribute(i) for i in range(count)]`, from index i on. */
  function ReadAttributes(input: seq<byte>, schema: Schema, i: nat, count: nat): (r: Step<seq<Value>>)
    requires i <= count
    ensures r.Ok? ==> |r.val| == count - i && |r.rest| <= |input|
    decreases count - i
  {
    if i == count then Ok([], input)
    else
      match ReadAttribute(input, schema, i)
      case Err(e) => Err(e)
      case Ok(a, p) =>
        match ReadAttributes(p, schema, i + 1, count)
        case Err(e) => Err(e)
        case Ok(attrs, rest) => Ok([a] + attrs, rest)
  }

  /** read_attribute: the i-th tag and size pick int32 words, float32 words,
      or nothing at all. */
  function ReadAttribute(input: seq<byte>, schema: Schema, i: nat): (r: Step<Value>)
    ensures r.Ok? ==> |r.rest| <= |input| && r.val.List?
  {
    match Index(schema.attribType, i)
    case None => Err(BadSchema)
    case Some(tag) =>
      match Index(schema.attribSize, i)
      case None => Err(BadSchema)
      case Some(size) =>
        if IsTag(tag, INT32) || IsTag(tag, FLOAT32) then
          match RangeCount(size)
          case None => Err(BadSchema)
          case Some(count) =>
            match ReadWords(input, count, IsTag(tag, INT32))
            case Err(e) => Err(e)
            case Ok(words, rest) => Ok(List(words), rest)
        else Ok(List([]), input)
  }

  /** `count` 4-byte words, unpacked with 'i' when `signed`, with 'f' otherwise. */
  function ReadWords(input: seq<byte>, count: nat, signed: bool): (r: Step<seq<Value>>)
    ensures r.Ok? ==> |r.val| == count && 4 * count <= |input| && r.rest == input[4 * count..]
    decreases count
  {
    if count == 0 then Ok([], input)
    else
      match ReadNextBytes(input, 4)
      case Err(e) => Err(e)
      case Ok(bs, p) =>
        if |bs| != 4 then Err(ShortRead)
        else
          var w := if signed then Int(UnpackInt32(bs)) else Float(UnpackFloat32(bs));
          match ReadWords(p, count - 1, signed)
          case Err(e) => Err(e)
          case Ok(ws, rest) => Ok([w] + ws, rest)
  }

  // ---------------------------------------------------------------------
  // load

  /** load() on file contents `reader` with the cursor at `pos` and schema
      state `schema`: False for an empty file or a first byte other than
      '{', otherwise the object read up to its '}'. */
  function Load(reader: seq<byte>, pos: nat, schema: Schema): (r: Parse)
    ensures |reader| == 0 ==> r == Parsed(Bool(false), [], schema)
    ensures r.Parsed? && r.value != Bool(false) ==> pos + 1 < |reader| && reader[pos] == OBJECT_START
  {
    if |reader| == 0 then Parsed(Bool(false), [], schema)
    else
      match ReadMarker(Suffix(reader, pos))
      case Err(e) => Failed(e)
      case Ok(marker, p) =>
        if marker != OBJECT_START then Parsed(Bool(false), p, schema)
        else ReadObjectFrom(p, schema, [])
  }

  /** A fresh loader's load(). */
  function Decode(reader: seq<byte>): (r: Parse)
  {
    Load(reader, 0, InitialSchema)
  }
}
