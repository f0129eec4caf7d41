/** The wire-format table both directions share: the marker bytes that are
    ever written or tested, the key names whose values have a fixed width,
    and how a string becomes bytes. */
module Format {
  import opened Bytes

  const UINT8: byte := 66          // 'B': precedes every key and every string
  const OBJECT_START: byte := 123  // '{'
  const OBJECT_END: byte := 125    // '}'
  const ARRAY_START: byte := 91    // '['
  const ARRAY_END: byte := 93      // ']'
  const INT32: byte := 108         // 'l': attribute type tag for int32 components
  const FLOAT32: byte := 102       // 'f': attribute type tag for float32 components

  const FRAME_DATA: string := "frame_data"
  const NUM_ATTRIB: string := "num_attrib"

  /** Keys whose integer value is written as four bytes. */
  predicate IsUInt32Key(key: string)
  {
    key in ["num_samples", "num_frames", "num_points", "number", "time"]
  }

  /** Keys whose integer value is written as two bytes. */
  predicate IsUInt16Key(key: string)
  {
    key == NUM_ATTRIB
  }

  predicate IsAscii(s: string)
  {
    forall i :: 0 <= i < |s| ==> s[i] as int < 128
  }

  /** A string the one-byte length prefix can describe. */
  predicate ShortAscii(s: string)
  {
    IsAscii(s) && |s| < 256
  }

  /** str.encode('utf-8') on an ASCII string. */
  function AsciiBytes(s: string): (bs: seq<byte>)
    requires IsAscii(s)
    ensures |bs| == |s| && forall i :: 0 <= i < |s| ==> bs[i] == s[i] as int
  {
    if |s| == 0 then [] else [s[0] as int as byte] + AsciiBytes(s[1..])
  }

  predicate AllAscii(bs: seq<byte>)
  {
    forall i :: 0 <= i < |bs| ==> bs[i] < 128
  }

  /** bytes.decode('utf-8') on ASCII bytes. */
  function AsciiChars(bs: seq<byte>): (s: string)
    requires AllAscii(bs)
    ensures IsAscii(s) && |s| == |bs| && forall i :: 0 <= i < |bs| ==> s[i] as int == bs[i]
  {
    if |bs| == 0 then [] else [bs[0] as char] + AsciiChars(bs[1..])
  }

  /** Decoding the encoding of an ASCII string gives the string back. */
  lemma AsciiRoundTrip(s: string)
    requires IsAscii(s)
    ensures AllAscii(AsciiBytes(s)) && AsciiChars(AsciiBytes(s)) == s
  {
    var bs := AsciiBytes(s);
    var t := AsciiChars(bs);
    assert forall i :: 0 <= i < |s| ==> t[i] == s[i] by {
      forall i | 0 <= i < |s| ensures t[i] == s[i] {
        assert t[i] as int == s[i] as int;
      }
    }
  }

  /** Encoding decoded ASCII bytes gives the bytes back. */
  lemma AsciiCharsBytes(bs: seq<byte>)
    requires AllAscii(bs)
    ensures AsciiBytes(AsciiChars(bs)) == bs
  {
    var t := AsciiBytes(AsciiChars(bs));
    assert forall i :: 0 <= i < |bs| ==> t[i] == bs[i];
  }

  /** The length byte and the bytes that write_uint8_string appends. */
  function StringBytes(s: string): (r: seq<byte>)
    requires ShortAscii(s)
    ensures |r| == |s| + 1 && r[0] == |s|
  {
    [|s|] + AsciiBytes(s)
  }
}
