/** Bytes, fixed-width little-endian words and the growable byte buffer
    (Python's `bytearray`) that both writers append to. The widths are
    those of `struct` with standard sizes in little-endian order:
    'I' (uint32), 'H' (uint16), 'i' (int32) and 'f' (float32). */
module Bytes {

  type byte = b: int | 0 <= b < 256

  /** A 32-bit pattern: an unsigned 32-bit value, or the bits of a float32. */
  type Word32 = w: int | 0 <= w < 0x1_0000_0000

  const UINT32_LIMIT: int := 0x1_0000_0000
  const UINT16_LIMIT: int := 0x1_0000
  const INT32_MIN: int := -0x8000_0000
  const INT32_LIMIT: int := 0x8000_0000

  function Pow256(k: nat): (r: nat)
    ensures r >= 1
  {
    if k == 0 then 1 else 256 * Pow256(k - 1)
  }

  /** The `width` little-endian bytes of `n`. */
  function LittleEndian(n: nat, width: nat): (r: seq<byte>)
    requires n < Pow256(width)
    ensures |r| == width
  {
    if width == 0 then [] else [n % 256] + LittleEndian(n / 256, width - 1)
  }

  /** The unsigned number whose little-endian bytes are `bs`. */
  function FromLittleEndian(bs: seq<byte>): (n: nat)
    ensures n < Pow256(|bs|)
  {
    if |bs| == 0 then 0 else bs[0] + 256 * FromLittleEndian(bs[1..])
  }

  /** Reading back what was written gives the number again ... */
  lemma {:induction false} FromLittleEndianInverse(n: nat, width: nat)
    requires n < Pow256(width)
    ensures FromLittleEndian(LittleEndian(n, width)) == n
  {
    if width > 0 {
      FromLittleEndianInverse(n / 256, width - 1);
      assert LittleEndian(n, width)[1..] == LittleEndian(n / 256, width - 1);
    }
  }

  /** ... and writing what was read gives the bytes again. */
  lemma {:induction false} LittleEndianInverse(bs: seq<byte>)
    ensures LittleEndian(FromLittleEndian(bs), |bs|) == bs
  {
    if |bs| > 0 {
      LittleEndianInverse(bs[1..]);
      var n := FromLittleEndian(bs);
      assert n % 256 == bs[0] && n / 256 == FromLittleEndian(bs[1..]);
    }
  }

  lemma Pow256Widths()
    ensures Pow256(2) == UINT16_LIMIT && Pow256(4) == UINT32_LIMIT
  {
    assert Pow256(1) == 256;
    assert Pow256(2) == 65536;
    assert Pow256(3) == 16777216;
  }

  /** struct.pack('I', n) */
  function PackUInt32(n: int): (r: seq<byte>)
    requires 0 <= n < UINT32_LIMIT
    ensures |r| == 4
  {
    Pow256Widths();
    LittleEndian(n, 4)
  }

  /** struct.pack('H', n) */
  function PackUInt16(n: int): (r: seq<byte>)
    requires 0 <= n < UINT16_LIMIT
    ensures |r| == 2
  {
    Pow256Widths();
    LittleEndian(n, 2)
  }

  /** struct.pack('i', n): the two's-complement pattern of n. */
  function PackInt32(n: int): (r: seq<byte>)
    requires INT32_MIN <= n < INT32_LIMIT
    ensures |r| == 4
  {
    Pow256Widths();
    LittleEndian(if n < 0 then n + UINT32_LIMIT else n, 4)
  }

  /** struct.pack('f', x) for the float whose 32-bit pattern is `bits`. */
  function PackFloat32(bits: Word32): (r: seq<byte>)
    ensures |r| == 4
  {
    Pow256Widths();
    LittleEndian(bits, 4)
  }

  /** struct.unpack('I', bs) and struct.unpack('H', bs). */
  function UnpackUnsigned(bs: seq<byte>): (n: nat)
    ensures n < Pow256(|bs|)
  {
    FromLittleEndian(bs)
  }

  /** struct.unpack('i', bs): sign-extends the 32-bit pattern. */
  function UnpackInt32(bs: seq<byte>): (n: int)
    requires |bs| == 4
    ensures INT32_MIN <= n < INT32_LIMIT
  {
    Pow256Widths();
    var u := FromLittleEndian(bs);
    if u >= INT32_LIMIT then u - UINT32_LIMIT else u
  }

  /** struct.unpack('f', bs), keeping the value as its 32-bit pattern. */
  function UnpackFloat32(bs: seq<byte>): (bits: Word32)
    requires |bs| == 4
  {
    Pow256Widths();
    FromLittleEndian(bs)
  }

  lemma UnpackPackUInt32(n: int)
    requires 0 <= n < UINT32_LIMIT
    ensures UnpackUnsigned(PackUInt32(n)) == n
  {
    Pow256Widths();
    FromLittleEndianInverse(n, 4);
  }

  lemma UnpackPackUInt16(n: int)
    requires 0 <= n < UINT16_LIMIT
    ensures UnpackUnsigned(PackUInt16(n)) == n
  {
    Pow256Widths();
    FromLittleEndianInverse(n, 2);
  }

  /** A signed 32-bit integer survives pack('i') then unpack('i'). */
  lemma UnpackPackInt32(n: int)
    requires INT32_MIN <= n < INT32_LIMIT
    ensures UnpackInt32(PackInt32(n)) == n
  {
    Pow256Widths();
    FromLittleEndianInverse(if n < 0 then n + UINT32_LIMIT else n, 4);
  }

  /** Every 4-byte group is the int32 encoding of what it decodes to. */
  lemma PackUnpackInt32(bs: seq<byte>)
    requires |bs| == 4
    ensures PackInt32(UnpackInt32(bs)) == bs
  {
    Pow256Widths();
    LittleEndianInverse(bs);
  }

  lemma UnpackPackFloat32(bits: Word32)
    ensures UnpackFloat32(PackFloat32(bits)) == bits
  {
    Pow256Widths();
    FromLittleEndianInverse(bits, 4);
  }

  lemma ConcatAssoc<T>(a: seq<T>, b: seq<T>, c: seq<T>)
    ensures (a + b) + c == a + (b + c)
  {
  }

  /** Appending an opening marker, a body and a closing marker one after the
      other appends the bracketed body. */
  lemma ConcatAssoc4<T>(a: seq<T>, b: seq<T>, c: seq<T>, d: seq<T>)
    ensures a + b + c + d == a + (b + c + d)
  {
    ConcatAssoc(a, b, c);
    ConcatAssoc(a, b + c, d);
  }

  /** A non-empty sequence is its head followed by its tail, also after a prefix. */
  lemma HeadTail<T>(acc: seq<T>, xs: seq<T>)
    requires |xs| > 0
    ensures [xs[0]] + xs[1..] == xs
    ensures acc + xs == (acc + [xs[0]]) + xs[1..]
  {
  }

  /** The prefixes a loop over xs walks through. */
  lemma PrefixStep<T>(xs: seq<T>, i: nat)
    requires i < |xs|
    ensures xs[..i + 1] == xs[..i] + [xs[i]]
  {
  }

  lemma PrefixWhole<T>(xs: seq<T>)
    ensures xs[..|xs|] == xs
  {
  }

  /** Python's `bytearray`: a mutable byte sequence, appended to and cleared. */
  class ByteArray {
    var data: seq<byte>

    constructor ()
      ensures data == []
    {
      data := [];
    }

    /** bytearray.append */
    method Append(b: byte)
      modifies this
      ensures data == old(data) + [b]
    {
      data := data + [b];
    }

    /** bytearray.extend */
    method Extend(bs: seq<byte>)
      modifies this
      ensures data == old(data) + bs
    {
      data := data + bs;
    }

    /** bytearray.clear */
    method Clear()
      modifies this
      ensures data == []
    {
      data := [];
    }
  }
}
