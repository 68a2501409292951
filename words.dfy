/** Word packing for the word-at-a-time demultiplexers of e1-new.cpp, and the
  * little-endian (x86) memory image that a type-punned word load or store uses:
  * `*(uint32_t*) &p[i]` reads or writes bytes p[i], p[i+1], ... lowest first. */
module Words {
  import opened Tdm

  /** byte0 .. byte3: bits 8K .. 8K+7 of a 32-bit word (the `(byte)` cast truncates). */
  function Byte0(x: bv32): byte { (x & 0xFF) as byte }
  function Byte1(x: bv32): byte { ((x >> 8) & 0xFF) as byte }
  function Byte2(x: bv32): byte { ((x >> 16) & 0xFF) as byte }
  function Byte3(x: bv32): byte { ((x >> 24) & 0xFF) as byte }

  /** The four bytes a 32-bit store writes, lowest address first. */
  function Bytes32(x: bv32): seq<byte> {
    [Byte0(x), Byte1(x), Byte2(x), Byte3(x)]
  }

  /** make_32: b0 in the low byte up to b3 in the high byte; byteK undoes it. */
  function Make32(b0: byte, b1: byte, b2: byte, b3: byte): (w: bv32)
    ensures Byte0(w) == b0 && Byte1(w) == b1 && Byte2(w) == b2 && Byte3(w) == b3
    ensures Bytes32(w) == [b0, b1, b2, b3]
  {
    (b0 as bv32) | ((b1 as bv32) << 8) | ((b2 as bv32) << 16) | ((b3 as bv32) << 24)
  }

  /** A word is determined by its four bytes: make_32 of byte0 .. byte3 gives it back. */
  lemma Make32OfBytes(x: bv32)
    ensures Make32(Byte0(x), Byte1(x), Byte2(x), Byte3(x)) == x
  {
  }

  /** The low and high halves of a 64-bit word. */
  function Low32(x: bv64): bv32 { (x & 0xFFFF_FFFF) as bv32 }
  function High32(x: bv64): bv32 { ((x >> 32) & 0xFFFF_FFFF) as bv32 }

  /** Two words with the same memory image are equal. */
  lemma Bytes32Injective(x: bv32, y: bv32)
    requires Bytes32(x) == Bytes32(y)
    ensures x == y
  {
    assert Byte0(x) == Byte0(y) && Byte1(x) == Byte1(y) && Byte2(x) == Byte2(y) && Byte3(x) == Byte3(y) by {
      assert Bytes32(x)[0] == Bytes32(y)[0] && Bytes32(x)[1] == Bytes32(y)[1];
      assert Bytes32(x)[2] == Bytes32(y)[2] && Bytes32(x)[3] == Bytes32(y)[3];
    }
    Make32OfBytes(x);
    Make32OfBytes(y);
  }

  /** Placing two 32-bit words side by side and splitting them again gives them back. */
  lemma Halves(lo: bv32, hi: bv32)
    ensures Low32((lo as bv64) | ((hi as bv64) << 32)) == lo
    ensures High32((lo as bv64) | ((hi as bv64) << 32)) == hi
  {
  }

  /** Four bytes shifted into the high half form make_32 of them, shifted. */
  lemma WidenHigh(b4: byte, b5: byte, b6: byte, b7: byte)
    ensures ((b4 as bv64) << 32) | ((b5 as bv64) << 40) | ((b6 as bv64) << 48) | ((b7 as bv64) << 56)
         == (Make32(b4, b5, b6, b7) as bv64) << 32
  {
  }

  /** The halves of make_64's result are the low word and make_32 of the high bytes. */
  lemma Make64Halves(lo: bv32, b4: byte, b5: byte, b6: byte, b7: byte)
    ensures var w := (lo as bv64) | ((b4 as bv64) << 32) | ((b5 as bv64) << 40) | ((b6 as bv64) << 48) | ((b7 as bv64) << 56);
      Low32(w) == lo && High32(w) == Make32(b4, b5, b6, b7)
  {
    WidenHigh(b4, b5, b6, b7);
    Halves(lo, Make32(b4, b5, b6, b7));
  }

  /** The eight bytes a 64-bit store writes, lowest address first: the low half, then the high half. */
  function Bytes64(x: bv64): seq<byte> {
    Bytes32(Low32(x)) + Bytes32(High32(x))
  }

  /** make_64: make_32 of the first four bytes in the low half, b4 .. b7 in the high half. */
  function Make64(b0: byte, b1: byte, b2: byte, b3: byte, b4: byte, b5: byte, b6: byte, b7: byte): (w: bv64)
    ensures Low32(w) == Make32(b0, b1, b2, b3)
    ensures High32(w) == Make32(b4, b5, b6, b7)
    ensures Bytes64(w) == [b0, b1, b2, b3, b4, b5, b6, b7]
  {
    var lo := Make32(b0, b1, b2, b3);
    var w := (lo as bv64) | ((b4 as bv64) << 32) | ((b5 as bv64) << 40) | ((b6 as bv64) << 48) | ((b7 as bv64) << 56);
    Make64Halves(lo, b4, b5, b6, b7);
    w
  }

  /** `* (uint32_t*) &src[pos]`: the word whose memory image is src[pos .. pos + 4]. */
  function LoadWord32(src: seq<byte>, pos: nat): (w: bv32)
    requires pos + 4 <= |src|
    ensures Bytes32(w) == src[pos..pos + 4]
  {
    Make32(src[pos], src[pos + 1], src[pos + 2], src[pos + 3])
  }

  /** A store of a value whose memory image is `image` at d[pos]: those bytes change and no other. */
  method Store(d: array<byte>, pos: nat, image: seq<byte>)
    requires pos + |image| <= d.Length
    modifies d
    ensures d[pos..pos + |image|] == image
    ensures d[..pos] == old(d[..pos]) && d[pos + |image|..] == old(d[pos + |image|..])
  {
    for i := 0 to |image|
      invariant forall k :: 0 <= k < d.Length ==> d[k] == if pos <= k < pos + i then image[k - pos] else old(d[k])
    {
      d[pos + i] := image[i];
    }
  }
}
