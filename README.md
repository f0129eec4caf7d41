# HBJSON point cache: a verified model of the codec

HBJSON is a byte-oriented container for point caches: a JSON-like tree
written as marker bytes (`{` `}` `[` `]`, and `B` before every key and
every string), fixed-width little-endian integers whose width is chosen by
the key's name, and one un-self-describing block, `frame_data`, of raw
int32/float32 words whose shape the reader learns from header fields read
earlier in the same stream.

This project models, in Dafny:

- the transcoder's writer `HoudiniPointCacheSaverBJSON`. It is a class
  whose `write_*` methods append to a byte buffer, each proved to append
  exactly the bytes given by the functions of module `Encoding`;
- the transcoder's reader `HoudiniPointCacheLoaderBJSON`. It is a class
  holding the file contents, a cursor and the schema fields it copies from
  the header. Each of its methods is proved to follow the functions of
  module `Decoding`, which read from the bytes after the cursor and give
  back the value, the bytes left and the new schema state;
- the round trip: loading what the writer wrote gives the document back
  for every document meeting the conditions of module `RoundTrip` (they
  are sufficient, not necessary: some documents outside them also come
  back unchanged), and concrete documents that do not come back (module
  `Layout`);
- truncation: the writer's bytes cut anywhere after the first byte make
  the reader raise, never read as a document (module `Truncation`);
- `convert_file`: its `os.path.splitext`, its output-path rule and its
  three branches (module `Convert`);
- the Blender add-on's `HBJsonGenerator` (module `Generator`). Its template
  is a constant. `generate_json` is a method proved to return what a
  specification function gives, with the float arithmetic as parameters.
  Module `Exported` proves that every generated document (with 3-component
  float locations) survives the writer and the reader unchanged;
- the add-on's `SaveHBJSONOperator` (module `Addon`). Its copied `write_*`
  methods are proved against the same `Encoding` functions, and its
  `buffer` is one `ByteArray` object shared by every operator, as the
  class attribute is.

Values are `Value = Null | Bool | Int | Float(bits) | Str | List | Obj`.
`Obj` holds its entries in insertion order, as a Python dict does. A float
is its 32-bit pattern. The reader's exceptions are an `Error` value:
`EndOfFile`, `ShortRead` (struct.error), `NotAscii` (a string the model
does not decode) and `BadSchema` (range() or indexing on a schema field of
the wrong shape). Its `return False` paths give the value `Bool(false)`.

Where the code and the written description of the format differ, the
model follows the code:
- An unknown attribute tag reads as no components and consumes nothing
  (`Layout.AttributeTags`). It does not raise.
- A missing bracket around `frame_data` or a frame gives `False`
  (`Layout.FramesDataUnopened`). It is not an error.
- A `frame_data` block that comes before `num_points` is not an error.
  `num_points` still holds the 0 that `__init__` set, so no frame is read,
  the first frame's '[' stands where ']' is expected, and the block reads
  as `False` (`Layout.FramesDataBeforeHeader`). `read_object` then skips
  the frame's bytes as stray key bytes.
- A mixed attribute is written as nothing (`Layout.FramesLength`), and an
  integer under a key of no fixed width writes no value bytes
  (`Layout.IntegerWidth`). Neither is rejected.
- A string's length byte counts characters.
- The add-on's buffer is shared across exports (see Findings).

## Model

| member | source | states |
|---|---|---|
| Bytes.FromLittleEndianInverse | Transcoder/HBJSON_Trasncoder.py:57-61 | reading back the `width` little-endian bytes of n gives n |
| Bytes.LittleEndianInverse | Transcoder/HBJSON_Trasncoder.py:57-61 | every byte string is the little-endian form of the number it reads as |
| Bytes.UnpackPackUInt32 | Transcoder/HBJSON_Trasncoder.py:211-212 | unpack('I') of pack('I', n) is n for every n in 0..2^32-1 |
| Bytes.UnpackPackUInt16 | Transcoder/HBJSON_Trasncoder.py:214-215 | unpack('H') of pack('H', n) is n for every n in 0..65535 |
| Bytes.UnpackPackInt32 | Transcoder/HBJSON_Trasncoder.py:263-264 | unpack('i') of pack('i', n) is n for every n in the int32 range, negatives included |
| Bytes.PackUnpackInt32 | Transcoder/HBJSON_Trasncoder.py:152 | packing what unpack('i') read gives the same four bytes |
| Bytes.UnpackPackFloat32 | Transcoder/HBJSON_Trasncoder.py:266-267 | a float32 bit pattern survives pack('f') and unpack('f') |
| Bytes.ByteArray.Append | Transcoder/HBJSON_Trasncoder.py:204-205 | bytearray.append adds one byte at the end and changes nothing before it |
| Bytes.ByteArray.Extend | Transcoder/HBJSON_Trasncoder.py:209 | bytearray.extend adds the bytes at the end and changes nothing before them |
| Format.AsciiRoundTrip | Transcoder/HBJSON_Trasncoder.py:53-55 | decoding the bytes an ASCII string encodes to gives the string back |
| Format.AsciiCharsBytes | Transcoder/HBJSON_Trasncoder.py:55 | encoding a decoded ASCII string gives the bytes back |
| Format.StringBytes | Transcoder/HBJSON_Trasncoder.py:207-209 | a string is written as its length in one byte followed by one byte per character |
| Document.Put | Transcoder/HBJSON_Trasncoder.py:80 | `obj[key] = v` appends a new key at the end and keeps the size for an existing one |
| Document.PutKeys | Transcoder/HBJSON_Trasncoder.py:80 | after `obj[key] = v` the keys are unchanged if key was present, else key is appended |
| Document.PutUpdates | Transcoder/HBJSON_Trasncoder.py:80 | `obj[key] = v` on an existing key replaces that value in place, leaves every other entry alone and keeps keys distinct |
| Document.PutInPlace | Transcoder/HBJSON_Trasncoder.py:80 | as PutUpdates, entry by entry, for a key already present |
| Document.Get | Transcoder/HBJSON_Trasncoder.py:81 | `obj[key]` is defined exactly when key is present, and is that key's value |
| Document.GetAt | Transcoder/HBJSON_Trasncoder.py:81 | the value looked up for the first occurrence of a key is that entry's value |
| Document.PutAt | Transcoder/HBJSON_Trasncoder.py:80 | assigning to the first occurrence of a key replaces exactly that entry |
| Decoding.ReadNextBytes | Transcoder/HBJSON_Trasncoder.py:158-166 | raises EOFError exactly when no byte is left; otherwise splits off min(n, bytes left) bytes and keeps the rest in order |
| Decoding.ReadMarker | Transcoder/HBJSON_Trasncoder.py:168-169 | reads one byte exactly when one is left |
| Decoding.ReadString | Transcoder/HBJSON_Trasncoder.py:53-55 | a read string is a length byte, then at most that many ASCII bytes, then the rest |
| Decoding.ReadUnsigned | Transcoder/HBJSON_Trasncoder.py:57-61 | a read uint32/uint16 is the number whose little-endian bytes were consumed; fewer bytes than the width raise struct.error |
| Decoding.ParseMarker | Transcoder/HBJSON_Trasncoder.py:95-102 | any marker other than 'B', '{' and '[' is returned as its own value and consumes nothing |
| Decoding.RangeCount | Transcoder/HBJSON_Trasncoder.py:125 | range(v) is defined exactly for an int (a bool included) and makes max(v, 0) passes |
| Decoding.Index | Transcoder/HBJSON_Trasncoder.py:147-148 | `v[i]` on a list is its i-th item; it is defined only on a list or a string long enough |
| Decoding.ReadFrames | Transcoder/HBJSON_Trasncoder.py:125 | a successful read of count frames yields exactly count frames |
| Decoding.ReadAttributes | Transcoder/HBJSON_Trasncoder.py:138 | a successful read of the attributes i..count-1 yields count - i attributes |
| Decoding.ReadWords | Transcoder/HBJSON_Trasncoder.py:152-154 | count words consume exactly 4 * count bytes |
| Decoding.Load | Transcoder/HBJSON_Trasncoder.py:36-48 | an empty file gives False; anything but False was read from a file opening with '{' |
| Encoding.EncodeInt32s | Transcoder/HBJSON_Trasncoder.py:263-264 | an all-integer attribute takes four bytes per component |
| Encoding.EncodeFloat32s | Transcoder/HBJSON_Trasncoder.py:266-267 | an all-float attribute takes four bytes per component |
| Encoding.EncodeEntriesSnoc | Transcoder/HBJSON_Trasncoder.py:235-255 | one more pass of write_object's loop appends exactly that entry's bytes |
| Encoding.EncodeItemsSnoc | Transcoder/HBJSON_Trasncoder.py:219-230 | one more pass of write_list's loop appends exactly that item's bytes |
| Encoding.EncodePointsSnoc | Transcoder/HBJSON_Trasncoder.py:259-268 | one more point of write_frames_data appends exactly that point's bytes |
| Encoding.EncodeAttributesSnoc | Transcoder/HBJSON_Trasncoder.py:261-267 | one more attribute appends exactly that attribute's bytes |
| Encoding.EncodeInt32sSnoc | Transcoder/HBJSON_Trasncoder.py:263-264 | one more integer component appends its pack('i') |
| Encoding.EncodeFloat32sSnoc | Transcoder/HBJSON_Trasncoder.py:266-267 | one more float component appends its pack('f') |
| RoundTrip.DecodeEncode | Transcoder/HBJSON_Trasncoder.py:36-269 | load() of what save() wrote gives the document back and leaves any trailing bytes unread, for every document meeting the conditions in RoundTrip's header |
| RoundTrip.EntriesWritable | Transcoder/HBJSON_Trasncoder.py:234-255 | every entry list meeting the round-trip conditions (Reloadable) is one the writer writes without raising |
| RoundTrip.ValueWritable | Transcoder/HBJSON_Trasncoder.py:239-255 | a value meeting the round-trip conditions under its key is one the writer writes without raising |
| RoundTrip.ItemsWritable | Transcoder/HBJSON_Trasncoder.py:217-232 | generic list items meeting the round-trip conditions are ones write_list writes without raising |
| RoundTrip.FramesWritable | Transcoder/HBJSON_Trasncoder.py:257-269 | a frame_data block meeting the round-trip conditions is one write_frames_data writes without raising |
| RoundTrip.AttributeWritable | Transcoder/HBJSON_Trasncoder.py:261-267 | an attribute meeting the round-trip conditions is one the pack calls write without raising |
| RoundTrip.LoadString | Transcoder/HBJSON_Trasncoder.py:53-55 | read_uint8_string reads back what write_uint8_string wrote |
| RoundTrip.LoadUnsigned | Transcoder/HBJSON_Trasncoder.py:57-61 | read_uint32/read_uint16 read back the number of the bytes written |
| RoundTrip.PutFresh | Transcoder/HBJSON_Trasncoder.py:80 | assigning a key not yet present appends its entry |
| Truncation.StringExtends | Transcoder/HBJSON_Trasncoder.py:53-55 | a read_uint8_string that leaves bytes over reads the same string when more bytes follow |
| Truncation.DecodeExtends | Transcoder/HBJSON_Trasncoder.py:36-169 | a load() that gives a value on a non-empty file gives the same value when more bytes follow, leaving them unread |
| Truncation.CutFails | Transcoder/HBJSON_Trasncoder.py:36-169 | a file load() reads to its very end raises once cut short |
| Truncation.TruncatedFails | Transcoder/HBJSON_Trasncoder.py:36-169 | save()'s bytes cut after k of them, 0 < k < length, make load() raise; a cut file never reads as a document |
| RoundTrip.ReadObjectStep | Transcoder/HBJSON_Trasncoder.py:74-81 | one pass of read_object's loop: 'B', the key, its value, the schema update and the assignment |
| RoundTrip.LoadEntries | Transcoder/HBJSON_Trasncoder.py:72-82 | read_object reads back every entry write_object wrote, up to '}' |
| RoundTrip.LoadEntry | Transcoder/HBJSON_Trasncoder.py:74-81 | one written entry is read back as one pass of read_object's loop |
| RoundTrip.LoadValue | Transcoder/HBJSON_Trasncoder.py:84-93 | read_value reads back the value written under the same key, with the width chosen by the key |
| RoundTrip.LoadItems | Transcoder/HBJSON_Trasncoder.py:63-70 | read_list reads back every item write_list wrote, up to ']' |
| RoundTrip.LoadItem | Transcoder/HBJSON_Trasncoder.py:95-102 | a written item never starts with ']' and parse_marker reads it back |
| RoundTrip.LoadFrames | Transcoder/HBJSON_Trasncoder.py:120-131 | read_frames_data reads back the block write_frames_data wrote |
| RoundTrip.LoadPoints | Transcoder/HBJSON_Trasncoder.py:125 | num_points frames are read back as written |
| RoundTrip.LoadPoint | Transcoder/HBJSON_Trasncoder.py:133-144 | read_frame reads back one written point |
| RoundTrip.LoadAttributes | Transcoder/HBJSON_Trasncoder.py:138 | num_attrib attributes are read back as written |
| RoundTrip.LoadAttribute | Transcoder/HBJSON_Trasncoder.py:146-156 | read_attribute reads back one written attribute, choosing int32 or float32 by the tag |
| RoundTrip.LoadInt32s | Transcoder/HBJSON_Trasncoder.py:152 | int32 components are read back as written |
| RoundTrip.LoadFloat32s | Transcoder/HBJSON_Trasncoder.py:154 | float32 components are read back as written |
| Saver.PointCacheSaver.constructor | Transcoder/HBJSON_Trasncoder.py:172-175 | a new saver holds the document and a fresh, empty buffer |
| Saver.PointCacheSaver.Save | Transcoder/HBJSON_Trasncoder.py:196-199 | save() appends '{', the document's entries and '}' |
| Saver.PointCacheSaver.WriteMarker | Transcoder/HBJSON_Trasncoder.py:204-205 | appends the one marker byte |
| Saver.PointCacheSaver.WriteUInt8String | Transcoder/HBJSON_Trasncoder.py:207-209 | appends the length byte and the string's bytes |
| Saver.PointCacheSaver.WriteUInt32 | Transcoder/HBJSON_Trasncoder.py:211-212 | appends pack('I', n) |
| Saver.PointCacheSaver.WriteUInt16 | Transcoder/HBJSON_Trasncoder.py:214-215 | appends pack('H', n) |
| Saver.PointCacheSaver.WriteList | Transcoder/HBJSON_Trasncoder.py:217-232 | appends '[', each item, and ']'; earlier bytes are unchanged |
| Saver.PointCacheSaver.WriteItem | Transcoder/HBJSON_Trasncoder.py:219-230 | appends one item by its type: string, dict, list, or raw byte |
| Saver.PointCacheSaver.WriteObject | Transcoder/HBJSON_Trasncoder.py:234-255 | appends every entry in order |
| Saver.PointCacheSaver.WriteEntry | Transcoder/HBJSON_Trasncoder.py:236-255 | appends 'B', the key and the value |
| Saver.PointCacheSaver.WriteValue | Transcoder/HBJSON_Trasncoder.py:239-255 | appends the value as the key's name and the value's type decide |
| Saver.PointCacheSaver.WriteFramesData | Transcoder/HBJSON_Trasncoder.py:257-269 | appends '[', each point, and ']' |
| Saver.PointCacheSaver.WritePoint | Transcoder/HBJSON_Trasncoder.py:260-268 | appends '[', the point's attributes, and ']' |
| Saver.PointCacheSaver.WriteAttribute | Transcoder/HBJSON_Trasncoder.py:261-267 | appends int32s, float32s, or nothing for a mixed attribute |
| Saver.PointCacheSaver.WriteInt32s | Transcoder/HBJSON_Trasncoder.py:263-264 | appends pack('i') of each component |
| Saver.PointCacheSaver.WriteFloat32s | Transcoder/HBJSON_Trasncoder.py:266-267 | appends pack('f') of each component |
| Loader.PointCacheLoader.constructor | Transcoder/HBJSON_Trasncoder.py:7-34 | a new loader has no contents, its cursor at 0 and the initial schema (zero counts, empty lists) |
| Loader.PointCacheLoader.Load | Transcoder/HBJSON_Trasncoder.py:36-48 | load() returns, raises and leaves the cursor and schema as Decoding.Load says |
| Loader.PointCacheLoader.ReadNextBytes | Transcoder/HBJSON_Trasncoder.py:158-166 | raises EOFError only when the cursor is at or past the end; otherwise returns reader[position:position+n] and advances the cursor by exactly n |
| Loader.PointCacheLoader.ReadMarker | Transcoder/HBJSON_Trasncoder.py:50-51 | follows Decoding.ReadMarker from the cursor |
| Loader.PointCacheLoader.ReadUInt8String | Transcoder/HBJSON_Trasncoder.py:53-55 | follows Decoding.ReadString from the cursor |
| Loader.PointCacheLoader.ReadUInt32 | Transcoder/HBJSON_Trasncoder.py:57-58 | follows the four-byte Decoding.ReadUnsigned |
| Loader.PointCacheLoader.ReadUInt16 | Transcoder/HBJSON_Trasncoder.py:60-61 | follows the two-byte Decoding.ReadUnsigned |
| Loader.PointCacheLoader.ReadList | Transcoder/HBJSON_Trasncoder.py:63-70 | the while-True loop follows Decoding.ReadListFrom |
| Loader.PointCacheLoader.ReadObject | Transcoder/HBJSON_Trasncoder.py:72-82 | the while-True loop follows Decoding.ReadObjectFrom, schema updates included |
| Loader.PointCacheLoader.ReadValue | Transcoder/HBJSON_Trasncoder.py:84-93 | follows Decoding.ReadValue |
| Loader.PointCacheLoader.ParseMarker | Transcoder/HBJSON_Trasncoder.py:95-102 | follows Decoding.ParseMarker |
| Loader.PointCacheLoader.UpdateNumValues | Transcoder/HBJSON_Trasncoder.py:104-118 | the schema fields become Decoding.UpdateNumValues of the old ones; the cursor is unchanged |
| Loader.PointCacheLoader.ReadFramesData | Transcoder/HBJSON_Trasncoder.py:120-131 | follows Decoding.ReadFramesData |
| Loader.PointCacheLoader.ReadFrames | Transcoder/HBJSON_Trasncoder.py:125 | the comprehension follows Decoding.ReadFrames |
| Loader.PointCacheLoader.ReadFrame | Transcoder/HBJSON_Trasncoder.py:133-144 | follows Decoding.ReadFrame |
| Loader.PointCacheLoader.ReadAttributes | Transcoder/HBJSON_Trasncoder.py:138 | the comprehension follows Decoding.ReadAttributes |
| Loader.PointCacheLoader.ReadAttribute | Transcoder/HBJSON_Trasncoder.py:146-156 | follows Decoding.ReadAttribute |
| Loader.PointCacheLoader.ReadWords | Transcoder/HBJSON_Trasncoder.py:152-154 | the comprehensions follow Decoding.ReadWords |
| Layout.IntegerWidth | Transcoder/HBJSON_Trasncoder.py:239-243 | an integer is written as 4 little-endian bytes under num_samples/num_frames/num_points/number/time, 2 under num_attrib, and 0 under any other key |
| Layout.WidthExamples | Transcoder/HBJSON_Trasncoder.py:239-243 | num_attrib = 20 is [20, 0], num_points = 70000 is [0x70, 0x11, 0x01, 0x00], and an integer under "count" writes nothing |
| Layout.FramesLength | Transcoder/HBJSON_Trasncoder.py:257-269 | a frame_data block is 2 + 2 * points + 4 * (components of uniform attributes) bytes long; a mixed attribute adds nothing |
| Layout.AttributeTags | Transcoder/HBJSON_Trasncoder.py:146-156 | tag 'l' gives int32 components, tag 'f' float32 components, 4 bytes each; any other tag gives none and reads nothing |
| Layout.FramesDataShape | Transcoder/HBJSON_Trasncoder.py:120-144 | frame_data has as many frames as the latest num_points, each False or as many attributes as the latest num_attrib |
| Layout.FramesDataUnopened | Transcoder/HBJSON_Trasncoder.py:121-123 | a block not opening with '[' reads as False |
| Layout.FramesDataBeforeHeader | Transcoder/HBJSON_Trasncoder.py:121-129 | under the schema __init__ leaves (num_points 0), a block whose first frame opens with '[' reads as False, with no error |
| Layout.StrayByteSkipped | Transcoder/HBJSON_Trasncoder.py:74-78 | in key position any byte other than 'B' and '}' is skipped |
| Layout.LoadRejects | Transcoder/HBJSON_Trasncoder.py:36-48 | an empty file and a first byte other than '{' give False; the file "{" raises EOFError |
| Layout.MarkerByteMisread | Transcoder/HBJSON_Trasncoder.py:63-70 | a raw list byte equal to ']' ends the list early: { k: [93, 1] } reads back as { k: [] } |
| Layout.UnsizedIntegerMisread | Transcoder/HBJSON_Trasncoder.py:239-243 | { k1: n, k2: t } with no sized key reads k1 as the string k2, then fails with EOFError |
| Convert.RFind | Transcoder/HBJSON_Trasncoder.py:272 | the last index of a character, or -1 when it is absent |
| Convert.SplitExt | Transcoder/HBJSON_Trasncoder.py:272 | splitext's two parts concatenate to the path, and the extension is empty or a dot followed by no '.' or '/' after a last component that is not all dots |
| Convert.SplitExtOf | Transcoder/HBJSON_Trasncoder.py:272 | base + ext splits into (base, ext) exactly when base's last component has a character other than '.' |
| Convert.OutputPathSwaps | Transcoder/HBJSON_Trasncoder.py:273-282 | foo.json becomes foo.hbjson and back: the output path converts in the other direction to the input path |
| Convert.ConversionExamples | Transcoder/HBJSON_Trasncoder.py:272-282 | foo.json is saved as foo.hbjson and foo.hbjson loaded into foo.json |
| Convert.UnsupportedExamples | Transcoder/HBJSON_Trasncoder.py:285-287 | notes.txt, cache, dir/.json and archive.json.bak are not converted |
| Convert.ConvertFile | Transcoder/HBJSON_Trasncoder.py:271-289 | a .json input is saved to the swapped path with exactly the encoded document's bytes, an .hbjson input is loaded as Decode says, anything else converts nothing |
| Generator.HBJsonGenerator.constructor | BlenderAddon/HBJSON_BlenderAddon.py:20-106 | the generator holds the template document |
| Generator.HBJsonGenerator.GenerateJson | BlenderAddon/HBJSON_BlenderAddon.py:108-148 | generate_json returns Generated(input), raising exactly when Generated is None |
| Generator.Generated | BlenderAddon/HBJSON_BlenderAddon.py:108-148 | generate_json succeeds exactly when there is a placement, every placement has dimensions and every pscale division succeeds (the `FloatOps` parameter's divide gives a value) |
| Generator.Maxima | BlenderAddon/HBJSON_BlenderAddon.py:114 | one maximum per placement, in order |
| Generator.MaximaOf | BlenderAddon/HBJSON_BlenderAddon.py:114 | the comprehension succeeds exactly when every placement has dimensions, and gives Maxima |
| Generator.PointAt | BlenderAddon/HBJSON_BlenderAddon.py:117-143 | point i exists exactly when its pscale division succeeds |
| Generator.FrameData | BlenderAddon/HBJSON_BlenderAddon.py:116-145 | the loop succeeds exactly when every point does, and then point i is made from placement i |
| Generator.FrameDataOf | BlenderAddon/HBJSON_BlenderAddon.py:116-145 | the enumerate loop computes FrameData |
| Generator.PointData | BlenderAddon/HBJSON_BlenderAddon.py:124-143 | every point has 18 attributes, one per attribute name |
| Generator.TemplateFilled | BlenderAddon/HBJSON_BlenderAddon.py:109-147 | the four assignments to the template give the output with counts n and the frame_data |
| Generator.GeneratedCounts | BlenderAddon/HBJSON_BlenderAddon.py:110-147 | header num_samples, header num_points and frames[0].num_points are all len(input), and frame_data has len(input) points, point i made from placement i |
| Generator.OutputFields | BlenderAddon/HBJSON_BlenderAddon.py:21-106 | the output keeps num_attrib = 18, 18 names, 18 sizes and 24 type tags |
| Generator.PointShape | BlenderAddon/HBJSON_BlenderAddon.py:124-143 | id is [i] and CameraOffset [1073741824], the only integer attributes, matching tag 108 at positions 0 and 7; every size matches attrib_size when the location has 3 components |
| Generator.TemplateColumns | BlenderAddon/HBJSON_BlenderAddon.py:48-93 | the k-th tag is 108 for k = 0 and 7 and 102 otherwise; the k-th size is 3 for Color, P and Cd and 1 otherwise |
| Generator.PointColumns | BlenderAddon/HBJSON_BlenderAddon.py:124-143 | the k-th attribute of a point, its size and the type of its components |
| Exported.NamesFlat | BlenderAddon/HBJSON_BlenderAddon.py:28-47 | every attribute name is a short ASCII string the writer and reader agree on |
| Exported.FlatEntries | BlenderAddon/HBJSON_BlenderAddon.py:22-95 | a header of flat entries reloads and leaves the schema its keys set |
| Exported.PointReloadable | BlenderAddon/HBJSON_BlenderAddon.py:124-143 | a generated point reloads under the template's header |
| Exported.GeneratedReloadable | BlenderAddon/HBJSON_BlenderAddon.py:108-148 | every generated document with 3-float locations and under 2^31 placements meets the round-trip conditions |
| Exported.GeneratedRoundTrip | BlenderAddon/HBJSON_BlenderAddon.py:108-148 | such a document is written and read back unchanged, with nothing left over |
| Addon.SaveHBJSONOperator.constructor | BlenderAddon/HBJSON_BlenderAddon.py:162 | every operator uses the one shared buffer |
| Addon.SaveHBJSONOperator.Execute | BlenderAddon/HBJSON_BlenderAddon.py:249-255 | execute appends '{', the document and '}' after whatever the buffer held, and writes all of it |
| Addon.SaveHBJSONOperator.ExecuteFresh | BlenderAddon/HBJSON_BlenderAddon.py:249-255 | the corrected execute writes exactly the encoded document |
| Addon.SaveHBJSONOperator.WriteMarker | BlenderAddon/HBJSON_BlenderAddon.py:182-183 | appends the same byte as the transcoder's write_marker |
| Addon.SaveHBJSONOperator.WriteUInt8String | BlenderAddon/HBJSON_BlenderAddon.py:185-187 | appends the same bytes as the transcoder's write_uint8_string |
| Addon.SaveHBJSONOperator.WriteUInt32 | BlenderAddon/HBJSON_BlenderAddon.py:189-190 | appends pack('I', n) |
| Addon.SaveHBJSONOperator.WriteUInt16 | BlenderAddon/HBJSON_BlenderAddon.py:192-193 | appends pack('H', n) |
| Addon.SaveHBJSONOperator.WriteList | BlenderAddon/HBJSON_BlenderAddon.py:195-210 | appends the same bytes as the transcoder's write_list |
| Addon.SaveHBJSONOperator.WriteItem | BlenderAddon/HBJSON_BlenderAddon.py:197-208 | one pass of write_list's loop, as in the transcoder |
| Addon.SaveHBJSONOperator.WriteObject | BlenderAddon/HBJSON_BlenderAddon.py:212-233 | appends the same bytes as the transcoder's write_object |
| Addon.SaveHBJSONOperator.WriteEntry | BlenderAddon/HBJSON_BlenderAddon.py:214-233 | one pass of write_object's loop, as in the transcoder |
| Addon.SaveHBJSONOperator.WriteValue | BlenderAddon/HBJSON_BlenderAddon.py:217-233 | the value part of that pass, as in the transcoder |
| Addon.SaveHBJSONOperator.WriteFramesData | BlenderAddon/HBJSON_BlenderAddon.py:235-247 | appends the same bytes as the transcoder's write_frames_data |
| Addon.SaveHBJSONOperator.WritePoint | BlenderAddon/HBJSON_BlenderAddon.py:238-246 | one point of frame_data, as in the transcoder |
| Addon.SaveHBJSONOperator.WriteAttribute | BlenderAddon/HBJSON_BlenderAddon.py:239-245 | one attribute: int32s, float32s, or nothing |
| Addon.SaveHBJSONOperator.WriteInt32s | BlenderAddon/HBJSON_BlenderAddon.py:241-242 | appends pack('i') of each component |
| Addon.SaveHBJSONOperator.WriteFloat32s | BlenderAddon/HBJSON_BlenderAddon.py:244-245 | appends pack('f') of each component |
| Addon.ExportTwice | BlenderAddon/HBJSON_BlenderAddon.py:162 | after exporting d1 and then d2, the second file holds both documents and loads as d1, not d2 |
| Addon.BothLoadAsFirst | BlenderAddon/HBJSON_BlenderAddon.py:249-255 | a file holding d1's bytes and then d2's loads as d1 and leaves d2's bytes unread |
| Addon.ExportTwiceFresh | BlenderAddon/HBJSON_BlenderAddon.py:249-255 | with the corrected execute, the second file holds only d2 and loads as d2 |

## Left out

- File and console I/O (`open`, `read`, `write`, `print`, `self.report`) is left out. `Loader.PointCacheLoader.Load` takes the file's contents as a parameter. The writers' result is their buffer.
- `json.load`, `json.loads` and `json.dump` are left out. A document arrives as a `Value`, and `Convert.ConvertFile` returns what `load()` gave instead of dumping it.
- All Blender API code is left out: `invoke`, the property groups, `ExportEnginesOperator`, `register` and `unregister`. These are calls into Blender. `execute` takes the parsed document as a parameter.
- The float32 conversion done by `struct.pack('f')` and `struct.unpack('f')` is left out. A float is its 32-bit pattern, and JSON's double-to-float32 rounding is outside the model.
- Generator.GenerateJson: the float arithmetic (`max`, `* 500`, `/`) is a parameter (`FloatOps`), so the model states structure and counts but no float values.
- Decoding.ReadString: a string byte of 128 or more raises `NotAscii`, whereas Python's UTF-8 decode accepts valid multi-byte sequences. The writer writes the character count as the length byte, which is correct only for ASCII, so the model is ASCII-only.
- `str(value)` under a key of no fixed width is modelled only for strings and `None`. A float there (`str(float)`) is excluded by the writer's precondition, because float-to-text is not modelled.
- The writers' exceptions are preconditions of the write methods (`Encoding`'s `...Encodable` predicates), not behaviours: struct.error for an integer out of range, ValueError or TypeError from `bytearray.append`, the AttributeError from `obj.items()` on a document that is not a dict, and the TypeError from iterating a frame_data point or attribute that is not a list.
- The ValueError that `read_next_bytes` raises before `load()` has read a file is left out. Every read in the source comes after `load()` sets the contents.
- The unused marker constants (char, int8, bool, int16, int64, uint64, float64, string) are left out. They have no behaviour.
- `os.path.splitext` is the POSIX one. Windows separators (`\`) are not modelled.
- `copy.deepcopy` is not modelled as a step: the template is an immutable constant, so no call can change it.
- Loader.PointCacheLoader.Load: the Python loader keeps its schema fields after a load. A second `load()` on the same object starts from them, and the model states this as `old(State())`, but no lemma is given for loading twice.

## Findings

| source | as written | input that shows it | evidently intended | confidence | as-written member | corrected member |
|---|---|---|---|---|---|---|
| BlenderAddon/HBJSON_BlenderAddon.py:162 | `buffer = bytearray()` is a class attribute. `execute` only appends to it and writes all of it, so each export also contains every earlier export of the session. | Export document d1, then a different document d2, in one Blender session. The second file is d1's bytes followed by d2's, and loading it gives d1. | Each exported file holds only the document being exported. | not executed | Addon.ExportTwice | Addon.ExportTwiceFresh |
