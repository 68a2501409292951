/** The 128-bit SSE register operations the demultiplexers use, on a register seen as
  * its 16-byte memory image (byte 0 is the lowest address; 32-bit lane k is bytes
  * 4k .. 4k + 3). The float/integer casts around the shuffles reinterpret bits and
  * are identities here. */
module Sse {
  import opened Tdm
  import opened Words

  /** An `__m128i`. */
  type Reg = r: seq<byte> | |r| == 16 witness [0, 0, 0, 0, 0, 0, 0, 0, 0, 0, 0, 0, 0, 0, 0, 0]

  /** combine_2_4bits: n0 in the low nibble and n1 in the high nibble of an 8-bit immediate. */
  function Combine2_4bits(n0: int, n1: int): (imm: int)
    requires 0 <= n0 < 16 && 0 <= n1 < 16
    ensures 0 <= imm < 256
    ensures imm % 16 == n0 && imm / 16 == n1
  {
    n0 + n1 * 16
  }

  /** combine_4_2bits: n0 in bits 0-1 up to n3 in bits 6-7 of an 8-bit immediate. */
  function Combine4_2bits(n0: int, n1: int, n2: int, n3: int): (imm: int)
    requires 0 <= n0 < 4 && 0 <= n1 < 4 && 0 <= n2 < 4 && 0 <= n3 < 4
    ensures 0 <= imm < 256
    ensures imm % 4 == n0 && imm / 4 % 4 == n1 && imm / 16 % 4 == n2 && imm / 64 == n3
  {
    var imm := n0 + n1 * 4 + n2 * 16 + n3 * 64;
    DivMod(n0, n1 + 4 * n2 + 16 * n3, 4);
    DivMod(n1, n2 + 4 * n3, 4);
    DivMod(n0 + 4 * n1, n2 + 4 * n3, 16);
    DivMod(n2, n3, 4);
    DivMod(n0 + 4 * n1 + 16 * n2, n3, 64);
    imm
  }

  /** Splitting a + k * q into its digit a and the rest q, for the field widths of the
    * shuffle immediates. */
  lemma DivMod(a: int, q: int, k: int)
    requires k == 4 || k == 16 || k == 64
    requires 0 <= a < k
    ensures (a + k * q) % k == a && (a + k * q) / k == q
  {
    if k == 4 {
      DivMod4(a, q);
    } else if k == 16 {
      DivMod16(a, q);
    } else {
      DivMod64(a, q);
    }
  }

  lemma DivMod4(a: int, q: int)
    requires 0 <= a < 4
    ensures (a + 4 * q) % 4 == a && (a + 4 * q) / 4 == q
  {
  }

  lemma DivMod16(a: int, q: int)
    requires 0 <= a < 16
    ensures (a + 16 * q) % 16 == a && (a + 16 * q) / 16 == q
  {
  }

  lemma DivMod64(a: int, q: int)
    requires 0 <= a < 64
    ensures (a + 64 * q) % 64 == a && (a + 64 * q) / 64 == q
  {
  }

  /** The 32-bit lane k of a register. */
  function Lane(x: Reg, k: int): seq<byte>
    requires 0 <= k < 4
  {
    x[4 * k..4 * k + 4]
  }

  /** _mm_shuffle_ps (SHUFPS): lanes 0 and 1 from x, lanes 2 and 3 from y, chosen by
    * the four 2-bit fields of the immediate. */
  function ShufflePs(x: Reg, y: Reg, imm: int): Reg
    requires 0 <= imm < 256
  {
    Lane(x, imm % 4) + Lane(x, imm / 4 % 4) + Lane(y, imm / 16 % 4) + Lane(y, imm / 64)
  }

  /** _128i_shuffle(x, y, n0, n1, n2, n3): the register x[n0] x[n1] y[n2] y[n3], lane by lane. */
  function Shuffle128i(x: Reg, y: Reg, n0: int, n1: int, n2: int, n3: int): (r: Reg)
    requires 0 <= n0 < 4 && 0 <= n1 < 4 && 0 <= n2 < 4 && 0 <= n3 < 4
    ensures Lane(r, 0) == Lane(x, n0) && Lane(r, 1) == Lane(x, n1)
    ensures Lane(r, 2) == Lane(y, n2) && Lane(r, 3) == Lane(y, n3)
  {
    var r := ShufflePs(x, y, Combine4_2bits(n0, n1, n2, n3));
    assert Lane(r, 0) == Lane(x, n0) && Lane(r, 1) == Lane(x, n1);
    r
  }

  /** _mm_shuffle_epi8 (PSHUFB): byte i of the result is byte (mask[i] & 15) of m, or zero
    * when bit 7 of mask[i] is set. */
  function ShuffleEpi8(m: Reg, mask: Reg): Reg {
    seq(16, i requires 0 <= i < 16 => if mask[i] & 0x80 != 0 then 0 else m[(mask[i] & 0x0F) as int])
  }

  /** The `_mm_setr_epi8` constant of transpose_4x4. */
  const TransposeMask: Reg := [0, 4, 8, 12, 1, 5, 9, 13, 2, 6, 10, 14, 3, 7, 11, 15]

  /** The byte moves that the transpose_4x4 mask makes, one by one. */
  lemma TransposeMaskMoves(m: Reg)
    ensures var t := ShuffleEpi8(m, TransposeMask);
      && t[0] == m[0] && t[1] == m[4] && t[2] == m[8] && t[3] == m[12]
      && t[4] == m[1] && t[5] == m[5] && t[6] == m[9] && t[7] == m[13]
      && t[8] == m[2] && t[9] == m[6] && t[10] == m[10] && t[11] == m[14]
      && t[12] == m[3] && t[13] == m[7] && t[14] == m[11] && t[15] == m[15]
  {
  }

  /** transpose_4x4: m holds a 4x4 byte matrix in rows (lane r is row r); one PSHUFB
    * with TransposeMask transposes it. */
  function Transpose4x4(m: Reg): Reg {
    ShuffleEpi8(m, TransposeMask)
  }

  /** transpose_4x4 transposes: byte r of lane c of the result is byte c of lane r of m. */
  lemma Transpose4x4Lanes(m: Reg)
    ensures forall c, r :: 0 <= c < 4 && 0 <= r < 4 ==> Lane(Transpose4x4(m), c)[r] == Lane(m, r)[c]
  {
    var t := Transpose4x4(m);
    TransposeMaskMoves(m);
    forall c, r | 0 <= c < 4 && 0 <= r < 4
      ensures Lane(t, c)[r] == Lane(m, r)[c]
    {
      assert Lane(t, c)[r] == t[4 * c + r] && Lane(m, r)[c] == m[4 * r + c];
      if c == 0 {
        if r == 0 {} else if r == 1 {} else if r == 2 {} else {}
      } else if c == 1 {
        if r == 0 {} else if r == 1 {} else if r == 2 {} else {}
      } else if c == 2 {
        if r == 0 {} else if r == 1 {} else if r == 2 {} else {}
      } else {
        if r == 0 {} else if r == 1 {} else if r == 2 {} else {}
      }
    }
  }

  /** Transposing twice gives the matrix back. */
  lemma Transpose4x4Involution(m: Reg)
    ensures Transpose4x4(Transpose4x4(m)) == m
  {
    var t := Transpose4x4(m);
    var tt := Transpose4x4(t);
    Transpose4x4Lanes(m);
    Transpose4x4Lanes(t);
    forall r | 0 <= r < 4
      ensures Lane(tt, r) == Lane(m, r)
    {
      forall c | 0 <= c < 4
        ensures Lane(tt, r)[c] == Lane(m, r)[c]
      {
        assert Lane(tt, r)[c] == Lane(t, c)[r];
      }
    }
    RegOfLanes(tt, m);
  }

  /** The diagonal stays where it is. */
  lemma Transpose4x4Diagonal(m: Reg, k: int)
    requires 0 <= k < 4
    ensures Transpose4x4(m)[5 * k] == m[5 * k]
  {
    Transpose4x4Lanes(m);
    assert Transpose4x4(m)[5 * k] == Lane(Transpose4x4(m), k)[k] && m[5 * k] == Lane(m, k)[k];
  }

  /** _mm_setr_epi32(w0, w1, w2, w3): w0 in lane 0 up to w3 in lane 3. The ensures is the
    * intrinsic's definition, lane by lane; ExtractSetr is the property proved about it. */
  function SetrEpi32(w0: bv32, w1: bv32, w2: bv32, w3: bv32): (m: Reg)
    ensures Lane(m, 0) == Bytes32(w0) && Lane(m, 1) == Bytes32(w1)
    ensures Lane(m, 2) == Bytes32(w2) && Lane(m, 3) == Bytes32(w3)
  {
    var m := Bytes32(w0) + Bytes32(w1) + Bytes32(w2) + Bytes32(w3);
    assert m[4..8] == Bytes32(w1) && m[8..12] == Bytes32(w2) && m[12..16] == Bytes32(w3);
    m
  }

  /** _mm_extract_epi32(m, k), as the unsigned word it is stored as. */
  function ExtractEpi32(m: Reg, k: int): (w: bv32)
    requires 0 <= k < 4
    ensures Bytes32(w) == Lane(m, k)
  {
    Make32(m[4 * k], m[4 * k + 1], m[4 * k + 2], m[4 * k + 3])
  }

  /** Extracting lane k of a register built by _mm_setr_epi32 gives back its k-th word. */
  lemma ExtractSetr(w0: bv32, w1: bv32, w2: bv32, w3: bv32)
    ensures ExtractEpi32(SetrEpi32(w0, w1, w2, w3), 0) == w0
    ensures ExtractEpi32(SetrEpi32(w0, w1, w2, w3), 1) == w1
    ensures ExtractEpi32(SetrEpi32(w0, w1, w2, w3), 2) == w2
    ensures ExtractEpi32(SetrEpi32(w0, w1, w2, w3), 3) == w3
  {
    var m := SetrEpi32(w0, w1, w2, w3);
    Make32OfBytes(w0);
    Make32OfBytes(w1);
    Make32OfBytes(w2);
    Make32OfBytes(w3);
  }

  /** Lane c of the transpose is column c: byte c of each lane, in lane order. */
  lemma TransposeLane(m: Reg, c: int)
    requires 0 <= c < 4
    ensures Lane(Transpose4x4(m), c) == [Lane(m, 0)[c], Lane(m, 1)[c], Lane(m, 2)[c], Lane(m, 3)[c]]
  {
    var t := Transpose4x4(m);
    Transpose4x4Lanes(m);
    assert Lane(t, c)[0] == Lane(m, 0)[c];
    assert Lane(t, c)[1] == Lane(m, 1)[c];
    assert Lane(t, c)[2] == Lane(m, 2)[c];
    assert Lane(t, c)[3] == Lane(m, 3)[c];
  }

  /** transpose_4x4 of four words set into a register: lane c holds byte c of each word. */
  lemma TransposeWordsLane(w0: bv32, w1: bv32, w2: bv32, w3: bv32, c: int)
    requires 0 <= c < 4
    ensures Lane(Transpose4x4(SetrEpi32(w0, w1, w2, w3)), c) == [Bytes32(w0)[c], Bytes32(w1)[c], Bytes32(w2)[c], Bytes32(w3)[c]]
  {
    TransposeLane(SetrEpi32(w0, w1, w2, w3), c);
  }

  /** transpose_4x4 on four words regroups their bytes: lane 0 is make_32 of the four
    * byte0s, lane 1 of the four byte1s, and so on — the word-at-a-time Read4_Write4 result.
    * It stands alone: the demultiplexers go through E1New.TransposeTile, which states the
    * same lanes in terms of channel bytes; this lemma relates the two classes' stored words. */
  lemma TransposeWords(w0: bv32, w1: bv32, w2: bv32, w3: bv32)
    ensures ExtractEpi32(Transpose4x4(SetrEpi32(w0, w1, w2, w3)), 0) == Make32(Byte0(w0), Byte0(w1), Byte0(w2), Byte0(w3))
    ensures ExtractEpi32(Transpose4x4(SetrEpi32(w0, w1, w2, w3)), 1) == Make32(Byte1(w0), Byte1(w1), Byte1(w2), Byte1(w3))
    ensures ExtractEpi32(Transpose4x4(SetrEpi32(w0, w1, w2, w3)), 2) == Make32(Byte2(w0), Byte2(w1), Byte2(w2), Byte2(w3))
    ensures ExtractEpi32(Transpose4x4(SetrEpi32(w0, w1, w2, w3)), 3) == Make32(Byte3(w0), Byte3(w1), Byte3(w2), Byte3(w3))
  {
    var t := Transpose4x4(SetrEpi32(w0, w1, w2, w3));
    TransposeWordsLane(w0, w1, w2, w3, 0);
    Bytes32Injective(ExtractEpi32(t, 0), Make32(Byte0(w0), Byte0(w1), Byte0(w2), Byte0(w3)));
    TransposeWordsLane(w0, w1, w2, w3, 1);
    Bytes32Injective(ExtractEpi32(t, 1), Make32(Byte1(w0), Byte1(w1), Byte1(w2), Byte1(w3)));
    TransposeWordsLane(w0, w1, w2, w3, 2);
    Bytes32Injective(ExtractEpi32(t, 2), Make32(Byte2(w0), Byte2(w1), Byte2(w2), Byte2(w3)));
    TransposeWordsLane(w0, w1, w2, w3, 3);
    Bytes32Injective(ExtractEpi32(t, 3), Make32(Byte3(w0), Byte3(w1), Byte3(w2), Byte3(w3)));
  }

  /** _mm_setr_epi64(w0, w1) of two `__m64` values, given as their 8-byte memory images.
    * The ensures is the intrinsic's definition, lane by lane. */
  function SetrEpi64(w0: seq<byte>, w1: seq<byte>): (m: Reg)
    requires |w0| == 8 && |w1| == 8
    ensures Lane(m, 0) == w0[..4] && Lane(m, 1) == w0[4..]
    ensures Lane(m, 2) == w1[..4] && Lane(m, 3) == w1[4..]
  {
    w0 + w1
  }

  /** transpose_4x4_dwords(a0, a1, a2, a3): the 4x4 matrix of 32-bit lanes, a[j] being
    * row j, is transposed, so lane j of result i is lane i of a[j]. */
  function TransposeDwords(a: seq<Reg>): (b: seq<Reg>)
    requires |a| == 4
    ensures |b| == 4
  {
    var t0 := Shuffle128i(a[0], a[1], 0, 1, 0, 1);
    var t1 := Shuffle128i(a[0], a[1], 2, 3, 2, 3);
    var t2 := Shuffle128i(a[2], a[3], 0, 1, 0, 1);
    var t3 := Shuffle128i(a[2], a[3], 2, 3, 2, 3);
    [ Shuffle128i(t0, t2, 0, 2, 0, 2), Shuffle128i(t0, t2, 1, 3, 1, 3),
      Shuffle128i(t1, t3, 0, 2, 0, 2), Shuffle128i(t1, t3, 1, 3, 1, 3) ]
  }

  /** transpose_4x4_dwords transposes: lane j of result i is lane i of a[j]. */
  lemma TransposeDwordsLanes(a: seq<Reg>)
    requires |a| == 4
    ensures var b := TransposeDwords(a); forall i, j :: 0 <= i < 4 && 0 <= j < 4 ==> Lane(b[i], j) == Lane(a[j], i)
  {
  }

  /** Column j of the byte matrix whose rows are the registers `rows`. */
  function Column(rows: seq<Reg>, j: int): seq<byte>
    requires 0 <= j < 16
  {
    seq(|rows|, g requires 0 <= g < |rows| => rows[g][j])
  }

  /** A register is determined by its four lanes. */
  lemma RegOfLanes(r: Reg, s: seq<byte>)
    requires |s| == 16
    requires Lane(r, 0) == s[0..4] && Lane(r, 1) == s[4..8] && Lane(r, 2) == s[8..12] && Lane(r, 3) == s[12..16]
    ensures r == s
  {
    forall i | 0 <= i < 16
      ensures r[i] == s[i]
    {
      if i < 4 {
        assert r[i] == Lane(r, 0)[i];
      } else if i < 8 {
        assert r[i] == Lane(r, 1)[i - 4];
      } else if i < 12 {
        assert r[i] == Lane(r, 2)[i - 8];
      } else {
        assert r[i] == Lane(r, 3)[i - 12];
      }
    }
  }

  /** The two steps of the 16x16 transposition on one 4x4 block of lanes: after
    * transpose_4x4_dwords, transpose_4x4 of result k holds, in its lane c, column
    * 4k + c of the four input rows. */
  lemma DwordsThenBytes(a: seq<Reg>, k: int, c: int)
    requires |a| == 4 && 0 <= k < 4 && 0 <= c < 4
    ensures Lane(Transpose4x4(TransposeDwords(a)[k]), c) == Column(a, 4 * k + c)
  {
    var t := TransposeDwords(a)[k];
    var tt := Transpose4x4(t);
    TransposeDwordsLanes(a);
    Transpose4x4Lanes(t);
    forall g | 0 <= g < 4
      ensures Lane(tt, c)[g] == a[g][4 * k + c]
    {
      assert Lane(tt, c)[g] == Lane(t, g)[c];
      assert Lane(t, g) == Lane(a[g], k);
    }
  }
}
