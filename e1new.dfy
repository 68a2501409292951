/** The word-at-a-time and SSE demultiplexers of e1-new.cpp. Each reads the whole
  * stream (src_length == NUM_TIMESLOTS * DST_SIZE) and fills all buffers; the loop
  * bodies that the source writes as macros (MOVE16, LOAD16, LOAD32, MOVE128, MOVE256)
  * are methods here, with what they move as their contract. */
module E1New {
  import opened Tdm
  import opened Words
  import opened Sse

  // ----- word at a time -----

  /** Bytes read at one channel from four consecutive stream rows are a run of that channel. */
  lemma Gathered4(src: seq<byte>, n: nat, p: nat, b0: byte, b1: byte, b2: byte, b3: byte)
    requires |src| == SRC_SIZE && n < NUM_TIMESLOTS && p + 4 <= DST_SIZE
    requires b0 == src[(p + 0) * NUM_TIMESLOTS + n] && b1 == src[(p + 1) * NUM_TIMESLOTS + n]
    requires b2 == src[(p + 2) * NUM_TIMESLOTS + n] && b3 == src[(p + 3) * NUM_TIMESLOTS + n]
    ensures [b0, b1, b2, b3] == Demultiplex(src)[n][p..p + 4]
  {
  }

  /** The same for eight rows. */
  lemma Gathered8(src: seq<byte>, n: nat, p: nat, b0: byte, b1: byte, b2: byte, b3: byte,
                  b4: byte, b5: byte, b6: byte, b7: byte)
    requires |src| == SRC_SIZE && n < NUM_TIMESLOTS && p + 8 <= DST_SIZE
    requires b0 == src[(p + 0) * NUM_TIMESLOTS + n] && b1 == src[(p + 1) * NUM_TIMESLOTS + n]
    requires b2 == src[(p + 2) * NUM_TIMESLOTS + n] && b3 == src[(p + 3) * NUM_TIMESLOTS + n]
    requires b4 == src[(p + 4) * NUM_TIMESLOTS + n] && b5 == src[(p + 5) * NUM_TIMESLOTS + n]
    requires b6 == src[(p + 6) * NUM_TIMESLOTS + n] && b7 == src[(p + 7) * NUM_TIMESLOTS + n]
    ensures [b0, b1, b2, b3, b4, b5, b6, b7] == Demultiplex(src)[n][p..p + 8]
  {
  }

  /** Write4: four bytes of one channel gathered with make_32 and stored as one word. */
  method Write4(src: seq<byte>, dst: seq<array<byte>>)
    requires |src| == SRC_SIZE && ValidDst(dst)
    modifies dst
    ensures Contents(dst) == Demultiplex(src)
  {
    assert DST_SIZE % 4 == 0;
    for dst_num := 0 to NUM_TIMESLOTS
      invariant Moved(src, dst, 0, dst_num, 0, DST_SIZE)
    {
      var d := dst[dst_num];
      var dst_pos := 0;
      while dst_pos < DST_SIZE
        invariant dst_pos <= DST_SIZE && dst_pos % 4 == 0
        invariant Moved(src, dst, 0, dst_num, 0, DST_SIZE)
        invariant d[..dst_pos] == Demultiplex(src)[dst_num][..dst_pos]
      {
        assert dst_pos + 4 <= DST_SIZE;
        var b0 := src[(dst_pos + 0) * NUM_TIMESLOTS + dst_num];
        var b1 := src[(dst_pos + 1) * NUM_TIMESLOTS + dst_num];
        var b2 := src[(dst_pos + 2) * NUM_TIMESLOTS + dst_num];
        var b3 := src[(dst_pos + 3) * NUM_TIMESLOTS + dst_num];
        Gathered4(src, dst_num, dst_pos, b0, b1, b2, b3);
        Store(d, dst_pos, Bytes32(Make32(b0, b1, b2, b3)));
        assert d[..dst_pos + 4] == d[..dst_pos] + d[dst_pos..dst_pos + 4];
        dst_pos := dst_pos + 4;
      }
      ChannelMoved(src, dst, dst_num);
    }
    ContentsDemultiplexed(dst, src);
  }

  /** Write8: the same with eight bytes, make_64 and a 64-bit store. */
  method Write8(src: seq<byte>, dst: seq<array<byte>>)
    requires |src| == SRC_SIZE && ValidDst(dst)
    modifies dst
    ensures Contents(dst) == Demultiplex(src)
  {
    assert DST_SIZE % 8 == 0;
    for dst_num := 0 to NUM_TIMESLOTS
      invariant Moved(src, dst, 0, dst_num, 0, DST_SIZE)
    {
      var d := dst[dst_num];
      var dst_pos := 0;
      while dst_pos < DST_SIZE
        invariant dst_pos <= DST_SIZE && dst_pos % 8 == 0
        invariant Moved(src, dst, 0, dst_num, 0, DST_SIZE)
        invariant d[..dst_pos] == Demultiplex(src)[dst_num][..dst_pos]
      {
        assert dst_pos + 8 <= DST_SIZE;
        var b0 := src[(dst_pos + 0) * NUM_TIMESLOTS + dst_num];
        var b1 := src[(dst_pos + 1) * NUM_TIMESLOTS + dst_num];
        var b2 := src[(dst_pos + 2) * NUM_TIMESLOTS + dst_num];
        var b3 := src[(dst_pos + 3) * NUM_TIMESLOTS + dst_num];
        var b4 := src[(dst_pos + 4) * NUM_TIMESLOTS + dst_num];
        var b5 := src[(dst_pos + 5) * NUM_TIMESLOTS + dst_num];
        var b6 := src[(dst_pos + 6) * NUM_TIMESLOTS + dst_num];
        var b7 := src[(dst_pos + 7) * NUM_TIMESLOTS + dst_num];
        Gathered8(src, dst_num, dst_pos, b0, b1, b2, b3, b4, b5, b6, b7);
        Store(d, dst_pos, Bytes64(Make64(b0, b1, b2, b3, b4, b5, b6, b7)));
        assert d[..dst_pos + 8] == d[..dst_pos] + d[dst_pos..dst_pos + 8];
        dst_pos := dst_pos + 8;
      }
      ChannelMoved(src, dst, dst_num);
    }
    ContentsDemultiplexed(dst, src);
  }

  /** Byte c of four consecutive stream rows p .. p + 3, each read from channel n on, are
    * four bytes of channel n + c. */
  lemma GatherColumn(src: seq<byte>, n: nat, p: nat, c: nat, r0: seq<byte>, r1: seq<byte>, r2: seq<byte>, r3: seq<byte>)
    requires |src| == SRC_SIZE && n + 4 <= NUM_TIMESLOTS && p + 4 <= DST_SIZE && c < 4
    requires r0 == src[(p + 0) * NUM_TIMESLOTS + n..(p + 0) * NUM_TIMESLOTS + n + 4]
    requires r1 == src[(p + 1) * NUM_TIMESLOTS + n..(p + 1) * NUM_TIMESLOTS + n + 4]
    requires r2 == src[(p + 2) * NUM_TIMESLOTS + n..(p + 2) * NUM_TIMESLOTS + n + 4]
    requires r3 == src[(p + 3) * NUM_TIMESLOTS + n..(p + 3) * NUM_TIMESLOTS + n + 4]
    ensures [r0[c], r1[c], r2[c], r3[c]] == Demultiplex(src)[n + c][p..p + 4]
  {
  }

  /** The same for all four columns of the 4 x 4 tile. */
  lemma GatherTile(src: seq<byte>, n: nat, p: nat, r0: seq<byte>, r1: seq<byte>, r2: seq<byte>, r3: seq<byte>)
    requires |src| == SRC_SIZE && n + 4 <= NUM_TIMESLOTS && p + 4 <= DST_SIZE
    requires r0 == src[(p + 0) * NUM_TIMESLOTS + n..(p + 0) * NUM_TIMESLOTS + n + 4]
    requires r1 == src[(p + 1) * NUM_TIMESLOTS + n..(p + 1) * NUM_TIMESLOTS + n + 4]
    requires r2 == src[(p + 2) * NUM_TIMESLOTS + n..(p + 2) * NUM_TIMESLOTS + n + 4]
    requires r3 == src[(p + 3) * NUM_TIMESLOTS + n..(p + 3) * NUM_TIMESLOTS + n + 4]
    ensures [r0[0], r1[0], r2[0], r3[0]] == Demultiplex(src)[n + 0][p..p + 4]
    ensures [r0[1], r1[1], r2[1], r3[1]] == Demultiplex(src)[n + 1][p..p + 4]
    ensures [r0[2], r1[2], r2[2], r3[2]] == Demultiplex(src)[n + 2][p..p + 4]
    ensures [r0[3], r1[3], r2[3], r3[3]] == Demultiplex(src)[n + 3][p..p + 4]
  {
    GatherColumn(src, n, p, 0, r0, r1, r2, r3);
    GatherColumn(src, n, p, 1, r0, r1, r2, r3);
    GatherColumn(src, n, p, 2, r0, r1, r2, r3);
    GatherColumn(src, n, p, 3, r0, r1, r2, r3);
  }

  /** byteK of four words that are stream rows p .. p + 3 (channels n .. n + 3) are four
    * bytes of channel n + K. */
  lemma GatherBytes(src: seq<byte>, n: nat, p: nat, w0: bv32, w1: bv32, w2: bv32, w3: bv32)
    requires |src| == SRC_SIZE && n + 4 <= NUM_TIMESLOTS && p + 4 <= DST_SIZE
    requires Bytes32(w0) == src[(p + 0) * NUM_TIMESLOTS + n..(p + 0) * NUM_TIMESLOTS + n + 4]
    requires Bytes32(w1) == src[(p + 1) * NUM_TIMESLOTS + n..(p + 1) * NUM_TIMESLOTS + n + 4]
    requires Bytes32(w2) == src[(p + 2) * NUM_TIMESLOTS + n..(p + 2) * NUM_TIMESLOTS + n + 4]
    requires Bytes32(w3) == src[(p + 3) * NUM_TIMESLOTS + n..(p + 3) * NUM_TIMESLOTS + n + 4]
    ensures [Byte0(w0), Byte0(w1), Byte0(w2), Byte0(w3)] == Demultiplex(src)[n + 0][p..p + 4]
    ensures [Byte1(w0), Byte1(w1), Byte1(w2), Byte1(w3)] == Demultiplex(src)[n + 1][p..p + 4]
    ensures [Byte2(w0), Byte2(w1), Byte2(w2), Byte2(w3)] == Demultiplex(src)[n + 2][p..p + 4]
    ensures [Byte3(w0), Byte3(w1), Byte3(w2), Byte3(w3)] == Demultiplex(src)[n + 3][p..p + 4]
  {
    GatherTile(src, n, p, Bytes32(w0), Bytes32(w1), Bytes32(w2), Bytes32(w3));
  }

  /** Four channels that hold their own bytes at positions [p0, p1) are moved there. */
  lemma RunsMoved4(src: seq<byte>, dst: seq<array<byte>>, n0: nat, p0: nat, p1: nat)
    requires ValidDst(dst) && |src| == SRC_SIZE && n0 + 4 <= NUM_TIMESLOTS && p0 <= p1 <= DST_SIZE
    requires dst[n0 + 0][p0..p1] == Demultiplex(src)[n0 + 0][p0..p1]
    requires dst[n0 + 1][p0..p1] == Demultiplex(src)[n0 + 1][p0..p1]
    requires dst[n0 + 2][p0..p1] == Demultiplex(src)[n0 + 2][p0..p1]
    requires dst[n0 + 3][p0..p1] == Demultiplex(src)[n0 + 3][p0..p1]
    ensures Moved(src, dst, n0, n0 + 4, p0, p1)
  {
    forall n, p | n0 <= n < n0 + 4 && p0 <= p < p1
      ensures dst[n][p] == src[p * NUM_TIMESLOTS + n]
    {
      assert dst[n][p] == dst[n][p0..p1][p - p0];
    }
  }

  /** Four channels that kept their bytes outside positions [p0, p1) kept every one of them. */
  lemma KeptOutside4(dst: seq<array<byte>>, before: Channels, n0: nat, p0: nat, p1: nat)
    requires ValidDst(dst) && Rectangular(before, DST_SIZE) && n0 + 4 <= NUM_TIMESLOTS && p0 <= p1 <= DST_SIZE
    requires dst[n0 + 0][..p0] == before[n0 + 0][..p0] && dst[n0 + 0][p1..] == before[n0 + 0][p1..]
    requires dst[n0 + 1][..p0] == before[n0 + 1][..p0] && dst[n0 + 1][p1..] == before[n0 + 1][p1..]
    requires dst[n0 + 2][..p0] == before[n0 + 2][..p0] && dst[n0 + 2][p1..] == before[n0 + 2][p1..]
    requires dst[n0 + 3][..p0] == before[n0 + 3][..p0] && dst[n0 + 3][p1..] == before[n0 + 3][p1..]
    ensures forall n, p :: n0 <= n < n0 + 4 && 0 <= p < DST_SIZE && !(p0 <= p < p1) ==> dst[n][p] == before[n][p]
  {
    forall n, p | n0 <= n < n0 + 4 && 0 <= p < DST_SIZE && !(p0 <= p < p1)
      ensures dst[n][p] == before[n][p]
    {
      if p < p0 {
        assert dst[n][p] == dst[n][..p0][p];
      } else {
        assert dst[n][p] == dst[n][p1..][p - p1];
      }
    }
  }

  /** A channel that holds its own bytes at positions [p0, p1) has them moved. */
  lemma RunMoved(src: seq<byte>, dst: seq<array<byte>>, n: nat, p0: nat, p1: nat)
    requires ValidDst(dst) && |src| == SRC_SIZE && n < NUM_TIMESLOTS && p0 <= p1 <= DST_SIZE
    requires dst[n][p0..p1] == Demultiplex(src)[n][p0..p1]
    ensures Moved(src, dst, n, n + 1, p0, p1)
  {
    forall p | p0 <= p < p1
      ensures dst[n][p] == src[p * NUM_TIMESLOTS + n]
    {
      assert dst[n][p] == dst[n][p0..p1][p - p0];
    }
  }

  /** A buffer whose bytes outside [p0, p1) are those of `before` kept every one of them. */
  lemma KeptOutside(d: array<byte>, before: seq<byte>, p0: nat, p1: nat)
    requires p0 <= p1 <= d.Length == |before|
    requires d[..p0] == before[..p0] && d[p1..] == before[p1..]
    ensures forall p :: 0 <= p < d.Length && !(p0 <= p < p1) ==> d[p] == before[p]
  {
    forall p | 0 <= p < d.Length && !(p0 <= p < p1)
      ensures d[p] == before[p]
    {
      if p < p0 {
        assert d[p] == d[..p0][p];
      } else {
        assert d[p] == d[p1..][p - p1];
      }
    }
  }

  /** Stores of runs of `w` bytes, run i of which holds channel n0 + i from position p0
    * on, each into its own channel at p0 (the STOREREG stores of MOVE256, the word
    * stores of MOVE16; a counted loop here). Every other byte of those channels is kept. */
  method StoreRuns(src: seq<byte>, dst: seq<array<byte>>, n0: nat, p0: nat, w: nat, runs: seq<seq<byte>>)
    requires |src| == SRC_SIZE && ValidDst(dst)
    requires n0 + |runs| <= NUM_TIMESLOTS && p0 + w <= DST_SIZE
    requires forall i :: 0 <= i < |runs| ==> runs[i] == Demultiplex(src)[n0 + i][p0..p0 + w]
    modifies set n | n0 <= n < n0 + |runs| :: dst[n]
    ensures Moved(src, dst, n0, n0 + |runs|, p0, p0 + w)
    ensures forall n, p :: n0 <= n < n0 + |runs| && 0 <= p < DST_SIZE && !(p0 <= p < p0 + w) ==>
      dst[n][p] == old(dst[n][p])
  {
    for i := 0 to |runs|
      invariant Moved(src, dst, n0, n0 + i, p0, p0 + w)
      invariant forall n, p :: n0 <= n < n0 + |runs| && 0 <= p < DST_SIZE && !(n < n0 + i && p0 <= p < p0 + w) ==>
        dst[n][p] == old(dst[n][p])
    {
      var d := dst[n0 + i];
      ghost var before := d[..];
      Store(d, p0, runs[i]);
      RunMoved(src, dst, n0 + i, p0, p0 + w);
      KeptOutside(d, before, p0, p0 + w);
    }
  }

  /** MOVE16(dst_pos), also the inner loop body of Read4_Write4: four words, one per
    * stream position, each holding channels dst_num .. dst_num + 3; byteK of the four
    * words, gathered by make_32, is the next four bytes of channel dst_num + K. */
  method Move16(src: seq<byte>, dst: seq<array<byte>>, dst_num: nat, dst_pos: nat)
    requires |src| == SRC_SIZE && ValidDst(dst)
    requires dst_num + 4 <= NUM_TIMESLOTS && dst_pos + 4 <= DST_SIZE
    modifies set n | dst_num <= n < dst_num + 4 :: dst[n]
    ensures Moved(src, dst, dst_num, dst_num + 4, dst_pos, dst_pos + 4)
    ensures forall n, p :: dst_num <= n < dst_num + 4 && 0 <= p < DST_SIZE && !(dst_pos <= p < dst_pos + 4) ==>
      dst[n][p] == old(dst[n][p])
  {
    var w0 := LoadWord32(src, (dst_pos + 0) * NUM_TIMESLOTS + dst_num);
    var w1 := LoadWord32(src, (dst_pos + 1) * NUM_TIMESLOTS + dst_num);
    var w2 := LoadWord32(src, (dst_pos + 2) * NUM_TIMESLOTS + dst_num);
    var w3 := LoadWord32(src, (dst_pos + 3) * NUM_TIMESLOTS + dst_num);
    GatherBytes(src, dst_num, dst_pos, w0, w1, w2, w3);
    var r0 := Bytes32(Make32(Byte0(w0), Byte0(w1), Byte0(w2), Byte0(w3)));
    var r1 := Bytes32(Make32(Byte1(w0), Byte1(w1), Byte1(w2), Byte1(w3)));
    var r2 := Bytes32(Make32(Byte2(w0), Byte2(w1), Byte2(w2), Byte2(w3)));
    var r3 := Bytes32(Make32(Byte3(w0), Byte3(w1), Byte3(w2), Byte3(w3)));
    StoreRuns(src, dst, dst_num, dst_pos, 4, [r0, r1, r2, r3]);
  }

  /** Read4_Write4: blocks of four channels by four positions, one Move16 each. */
  method Read4Write4(src: seq<byte>, dst: seq<array<byte>>)
    requires |src| == SRC_SIZE && ValidDst(dst)
    modifies dst
    ensures Contents(dst) == Demultiplex(src)
  {
    assert DST_SIZE % 4 == 0 && NUM_TIMESLOTS % 4 == 0;
    var dst_num := 0;
    while dst_num < NUM_TIMESLOTS
      invariant dst_num <= NUM_TIMESLOTS && dst_num % 4 == 0
      invariant Moved(src, dst, 0, dst_num, 0, DST_SIZE)
    {
      var dst_pos := 0;
      while dst_pos < DST_SIZE
        invariant dst_pos <= DST_SIZE && dst_pos % 4 == 0
        invariant Moved(src, dst, 0, dst_num, 0, DST_SIZE)
        invariant Moved(src, dst, dst_num, dst_num + 4, 0, dst_pos)
      {
        Move16(src, dst, dst_num, dst_pos);
        dst_pos := dst_pos + 4;
      }
      dst_num := dst_num + 4;
    }
    ContentsDemultiplexed(dst, src);
  }

  /** Read4_Write4_Unroll: the same blocks, the sixteen MOVE16 steps of a group of four
    * channels being spelled out in the source (a counted loop here). */
  method Read4Write4Unroll(src: seq<byte>, dst: seq<array<byte>>)
    requires |src| == SRC_SIZE && ValidDst(dst)
    modifies dst
    ensures Contents(dst) == Demultiplex(src)
  {
    assert DST_SIZE == 64 && NUM_TIMESLOTS % 4 == 0;
    var dst_num := 0;
    while dst_num < NUM_TIMESLOTS
      invariant dst_num <= NUM_TIMESLOTS && dst_num % 4 == 0
      invariant Moved(src, dst, 0, dst_num, 0, DST_SIZE)
    {
      for k := 0 to 16
        invariant Moved(src, dst, 0, dst_num, 0, DST_SIZE)
        invariant Moved(src, dst, dst_num, dst_num + 4, 0, 4 * k)
      {
        Move16(src, dst, dst_num, 4 * k);
      }
      dst_num := dst_num + 4;
    }
    ContentsDemultiplexed(dst, src);
  }

  // ----- SSE -----

  /** A register whose lane c holds four bytes of channel n + c from position p on:
    * the row-major tile of the stream at rows p .. p + 3, columns n .. n + 3, transposed. */
  ghost predicate HoldsTile(src: seq<byte>, m: Reg, n: nat, p: nat)
    requires |src| == SRC_SIZE && n + 4 <= NUM_TIMESLOTS && p + 4 <= DST_SIZE
  {
    forall c :: 0 <= c < 4 ==> Lane(m, c) == Demultiplex(src)[n + c][p..p + 4]
  }

  /** transpose_4x4 turns a register whose lane r is stream row p + r (channels n .. n + 3)
    * into one that holds the tile: lane c is channel n + c. */
  lemma TransposeTile(src: seq<byte>, m: Reg, n: nat, p: nat)
    requires |src| == SRC_SIZE && n + 4 <= NUM_TIMESLOTS && p + 4 <= DST_SIZE
    requires Lane(m, 0) == src[(p + 0) * NUM_TIMESLOTS + n..(p + 0) * NUM_TIMESLOTS + n + 4]
    requires Lane(m, 1) == src[(p + 1) * NUM_TIMESLOTS + n..(p + 1) * NUM_TIMESLOTS + n + 4]
    requires Lane(m, 2) == src[(p + 2) * NUM_TIMESLOTS + n..(p + 2) * NUM_TIMESLOTS + n + 4]
    requires Lane(m, 3) == src[(p + 3) * NUM_TIMESLOTS + n..(p + 3) * NUM_TIMESLOTS + n + 4]
    ensures HoldsTile(src, Transpose4x4(m), n, p)
  {
    GatherTile(src, n, p, Lane(m, 0), Lane(m, 1), Lane(m, 2), Lane(m, 3));
    var t, d := Transpose4x4(m), Demultiplex(src);
    assert Lane(t, 0) == d[n + 0][p..p + 4] by { TransposeLane(m, 0); }
    assert Lane(t, 1) == d[n + 1][p..p + 4] by { TransposeLane(m, 1); }
    assert Lane(t, 2) == d[n + 2][p..p + 4] by { TransposeLane(m, 2); }
    assert Lane(t, 3) == d[n + 3][p..p + 4] by { TransposeLane(m, 3); }
    forall c | 0 <= c < 4
      ensures Lane(t, c) == d[n + c][p..p + 4]
    {
      if c == 0 {} else if c == 1 {} else if c == 2 {} else {}
    }
  }

  /** Four tiles at positions p, p + 4, p + 8, p + 12, put through transpose_4x4_dwords,
    * give sixteen consecutive bytes of each of the four channels. */
  lemma TilesToRuns(src: seq<byte>, a: seq<Reg>, n: nat, p: nat)
    requires |src| == SRC_SIZE && n + 4 <= NUM_TIMESLOTS && p + 16 <= DST_SIZE && |a| == 4
    requires HoldsTile(src, a[0], n, p) && HoldsTile(src, a[1], n, p + 4)
    requires HoldsTile(src, a[2], n, p + 8) && HoldsTile(src, a[3], n, p + 12)
    ensures var b, d := TransposeDwords(a), Demultiplex(src); forall c :: 0 <= c < 4 ==> b[c] == d[n + c][p..p + 16]
  {
    var b, d := TransposeDwords(a), Demultiplex(src);
    TransposeDwordsLanes(a);
    forall c | 0 <= c < 4
      ensures b[c] == d[n + c][p..p + 16]
    {
      var run := d[n + c][p..p + 16];
      assert Lane(b[c], 0) == Lane(a[0], c) == d[n + c][p..p + 4] == run[0..4];
      assert Lane(b[c], 1) == Lane(a[1], c) == d[n + c][p + 4..p + 8] == run[4..8];
      assert Lane(b[c], 2) == Lane(a[2], c) == d[n + c][p + 8..p + 12] == run[8..12];
      assert Lane(b[c], 3) == Lane(a[3], c) == d[n + c][p + 12..p + 16] == run[12..16];
      RegOfLanes(b[c], run);
    }
  }

  /** The inner loop body of Read4_Write4_SSE: the four words loaded as in MOVE16, put in
    * a register, transposed, and each lane extracted and stored as a word. */
  method Read4Write4SseStep(src: seq<byte>, dst: seq<array<byte>>, dst_num: nat, dst_pos: nat)
    requires |src| == SRC_SIZE && ValidDst(dst)
    requires dst_num + 4 <= NUM_TIMESLOTS && dst_pos + 4 <= DST_SIZE
    modifies set n | dst_num <= n < dst_num + 4 :: dst[n]
    ensures Moved(src, dst, dst_num, dst_num + 4, dst_pos, dst_pos + 4)
    ensures forall n, p :: dst_num <= n < dst_num + 4 && 0 <= p < DST_SIZE && !(dst_pos <= p < dst_pos + 4) ==>
      dst[n][p] == old(dst[n][p])
  {
    ghost var before := Contents(dst);
    var d0, d1, d2, d3 := dst[dst_num + 0], dst[dst_num + 1], dst[dst_num + 2], dst[dst_num + 3];
    var m := Load16(src, dst_num, dst_pos);
    Store(d0, dst_pos, Bytes32(ExtractEpi32(m, 0)));
    Store(d1, dst_pos, Bytes32(ExtractEpi32(m, 1)));
    Store(d2, dst_pos, Bytes32(ExtractEpi32(m, 2)));
    Store(d3, dst_pos, Bytes32(ExtractEpi32(m, 3)));
    RunsMoved4(src, dst, dst_num, dst_pos, dst_pos + 4);
    KeptOutside4(dst, before, dst_num, dst_pos, dst_pos + 4);
  }

  /** Read4_Write4_SSE: blocks of four channels by four positions, transposed in a register. */
  method Read4Write4Sse(src: seq<byte>, dst: seq<array<byte>>)
    requires |src| == SRC_SIZE && ValidDst(dst)
    modifies dst
    ensures Contents(dst) == Demultiplex(src)
  {
    assert DST_SIZE % 4 == 0 && NUM_TIMESLOTS % 4 == 0;
    var dst_num := 0;
    while dst_num < NUM_TIMESLOTS
      invariant dst_num <= NUM_TIMESLOTS && dst_num % 4 == 0
      invariant Moved(src, dst, 0, dst_num, 0, DST_SIZE)
    {
      var dst_pos := 0;
      while dst_pos < DST_SIZE
        invariant dst_pos <= DST_SIZE && dst_pos % 4 == 0
        invariant Moved(src, dst, 0, dst_num, 0, DST_SIZE)
        invariant Moved(src, dst, dst_num, dst_num + 4, 0, dst_pos)
      {
        Read4Write4SseStep(src, dst, dst_num, dst_pos);
        dst_pos := dst_pos + 4;
      }
      dst_num := dst_num + 4;
    }
    ContentsDemultiplexed(dst, src);
  }

  /** LOAD16(m, dst_pos): four words (stream rows dst_pos .. dst_pos + 3, channels
    * dst_num .. dst_num + 3) set into a register and transposed, so that lane c holds
    * four bytes of channel dst_num + c. */
  method Load16(src: seq<byte>, dst_num: nat, dst_pos: nat) returns (m: Reg)
    requires |src| == SRC_SIZE && dst_num + 4 <= NUM_TIMESLOTS && dst_pos + 4 <= DST_SIZE
    ensures HoldsTile(src, m, dst_num, dst_pos)
  {
    var w0 := LoadWord32(src, (dst_pos + 0) * NUM_TIMESLOTS + dst_num);
    var w1 := LoadWord32(src, (dst_pos + 1) * NUM_TIMESLOTS + dst_num);
    var w2 := LoadWord32(src, (dst_pos + 2) * NUM_TIMESLOTS + dst_num);
    var w3 := LoadWord32(src, (dst_pos + 3) * NUM_TIMESLOTS + dst_num);
    m := SetrEpi32(w0, w1, w2, w3);
    TransposeTile(src, m, dst_num, dst_pos);
    m := Transpose4x4(m);
  }

  /** transpose_4x4_dwords on four tiles (positions dst_pos, dst_pos + 4, dst_pos + 8,
    * dst_pos + 12 of channels dst_num .. dst_num + 3) followed by one 16-byte store per
    * channel: the tail shared by Read4_Write16_SSE and MOVE128. */
  method StoreTiles(src: seq<byte>, dst: seq<array<byte>>, dst_num: nat, dst_pos: nat, a: seq<Reg>)
    requires |src| == SRC_SIZE && ValidDst(dst)
    requires dst_num + 4 <= NUM_TIMESLOTS && dst_pos + 16 <= DST_SIZE && |a| == 4
    requires HoldsTile(src, a[0], dst_num, dst_pos) && HoldsTile(src, a[1], dst_num, dst_pos + 4)
    requires HoldsTile(src, a[2], dst_num, dst_pos + 8) && HoldsTile(src, a[3], dst_num, dst_pos + 12)
    modifies dst[dst_num + 0], dst[dst_num + 1], dst[dst_num + 2], dst[dst_num + 3]
    ensures Moved(src, dst, dst_num, dst_num + 4, dst_pos, dst_pos + 16)
    ensures forall n, p :: dst_num <= n < dst_num + 4 && 0 <= p < DST_SIZE && !(dst_pos <= p < dst_pos + 16) ==>
      dst[n][p] == old(dst[n][p])
  {
    ghost var before := Contents(dst);
    TilesToRuns(src, a, dst_num, dst_pos);
    var t := TransposeDwords(a);
    Store(dst[dst_num + 0], dst_pos, t[0]);
    Store(dst[dst_num + 1], dst_pos, t[1]);
    Store(dst[dst_num + 2], dst_pos, t[2]);
    Store(dst[dst_num + 3], dst_pos, t[3]);
    RunsMoved4(src, dst, dst_num, dst_pos, dst_pos + 16);
    KeptOutside4(dst, before, dst_num, dst_pos, dst_pos + 16);
  }

  /** The inner loop body of Read4_Write16_SSE: four LOAD16 tiles, transpose_4x4_dwords,
    * and one 16-byte store per channel. */
  method Read4Write16SseStep(src: seq<byte>, dst: seq<array<byte>>, dst_num: nat, dst_pos: nat)
    requires |src| == SRC_SIZE && ValidDst(dst)
    requires dst_num + 4 <= NUM_TIMESLOTS && dst_pos + 16 <= DST_SIZE
    modifies dst[dst_num + 0], dst[dst_num + 1], dst[dst_num + 2], dst[dst_num + 3]
    ensures Moved(src, dst, dst_num, dst_num + 4, dst_pos, dst_pos + 16)
    ensures forall n, p :: dst_num <= n < dst_num + 4 && 0 <= p < DST_SIZE && !(dst_pos <= p < dst_pos + 16) ==>
      dst[n][p] == old(dst[n][p])
  {
    var m0 := Load16(src, dst_num, dst_pos);
    var m1 := Load16(src, dst_num, dst_pos + 4);
    var m2 := Load16(src, dst_num, dst_pos + 8);
    var m3 := Load16(src, dst_num, dst_pos + 12);
    StoreTiles(src, dst, dst_num, dst_pos, [m0, m1, m2, m3]);
  }

  /** Read4_Write16_SSE: blocks of four channels by sixteen positions. */
  method Read4Write16Sse(src: seq<byte>, dst: seq<array<byte>>)
    requires |src| == SRC_SIZE && ValidDst(dst)
    modifies dst
    ensures Contents(dst) == Demultiplex(src)
  {
    assert DST_SIZE % 16 == 0 && NUM_TIMESLOTS % 4 == 0;
    var dst_num := 0;
    while dst_num < NUM_TIMESLOTS
      invariant dst_num <= NUM_TIMESLOTS && dst_num % 4 == 0
      invariant Moved(src, dst, 0, dst_num, 0, DST_SIZE)
    {
      var dst_pos := 0;
      while dst_pos < DST_SIZE
        invariant dst_pos <= DST_SIZE && dst_pos % 16 == 0
        invariant Moved(src, dst, 0, dst_num, 0, DST_SIZE)
        invariant Moved(src, dst, dst_num, dst_num + 4, 0, dst_pos)
      {
        Read4Write16SseStep(src, dst, dst_num, dst_pos);
        dst_pos := dst_pos + 16;
      }
      dst_num := dst_num + 4;
    }
    ContentsDemultiplexed(dst, src);
  }

  // ----- eight channels at a time -----

  /** The halves of an 8-byte word read at pos are the 4-byte words read at pos and pos + 4. */
  lemma RowHalves(src: seq<byte>, pos: nat, w: seq<byte>)
    requires pos + 8 <= |src| && w == src[pos..pos + 8]
    ensures w[..4] == src[pos..pos + 4] && w[4..] == src[pos + 4..pos + 8]
  {
  }

  /** LOAD32(m0, m1, dst_pos): four 8-byte words (stream rows dst_pos .. dst_pos + 3,
    * channels dst_num .. dst_num + 7) set pairwise into two registers; _128i_shuffle
    * gathers their low halves into m0 and their high halves into m1, and both are
    * transposed, so m0 holds the tile of channels dst_num .. dst_num + 3 and m1 that of
    * channels dst_num + 4 .. dst_num + 7. */
  method Load32(src: seq<byte>, dst_num: nat, dst_pos: nat) returns (m0: Reg, m1: Reg)
    requires |src| == SRC_SIZE && dst_num + 8 <= NUM_TIMESLOTS && dst_pos + 4 <= DST_SIZE
    ensures HoldsTile(src, m0, dst_num, dst_pos) && HoldsTile(src, m1, dst_num + 4, dst_pos)
  {
    var w0 := src[(dst_pos + 0) * NUM_TIMESLOTS + dst_num..(dst_pos + 0) * NUM_TIMESLOTS + dst_num + 8];
    var w1 := src[(dst_pos + 1) * NUM_TIMESLOTS + dst_num..(dst_pos + 1) * NUM_TIMESLOTS + dst_num + 8];
    var w2 := src[(dst_pos + 2) * NUM_TIMESLOTS + dst_num..(dst_pos + 2) * NUM_TIMESLOTS + dst_num + 8];
    var w3 := src[(dst_pos + 3) * NUM_TIMESLOTS + dst_num..(dst_pos + 3) * NUM_TIMESLOTS + dst_num + 8];
    var x0 := SetrEpi64(w0, w1);
    var x1 := SetrEpi64(w2, w3);
    m0 := Shuffle128i(x0, x1, 0, 2, 0, 2);
    m1 := Shuffle128i(x0, x1, 1, 3, 1, 3);
    RowHalves(src, (dst_pos + 0) * NUM_TIMESLOTS + dst_num, w0);
    RowHalves(src, (dst_pos + 1) * NUM_TIMESLOTS + dst_num, w1);
    RowHalves(src, (dst_pos + 2) * NUM_TIMESLOTS + dst_num, w2);
    RowHalves(src, (dst_pos + 3) * NUM_TIMESLOTS + dst_num, w3);
    TransposeTile(src, m0, dst_num, dst_pos);
    TransposeTile(src, m1, dst_num + 4, dst_pos);
    m0 := Transpose4x4(m0);
    m1 := Transpose4x4(m1);
  }

  /** MOVE128(dst_pos), also the inner loop body of Read8_Write16_SSE: four LOAD32 pairs,
    * transpose_4x4_dwords on each set of four, and one 16-byte store per channel. */
  method Move128(src: seq<byte>, dst: seq<array<byte>>, dst_num: nat, dst_pos: nat)
    requires |src| == SRC_SIZE && ValidDst(dst)
    requires dst_num + 8 <= NUM_TIMESLOTS && dst_pos + 16 <= DST_SIZE
    modifies dst[dst_num + 0], dst[dst_num + 1], dst[dst_num + 2], dst[dst_num + 3]
    modifies dst[dst_num + 4], dst[dst_num + 5], dst[dst_num + 6], dst[dst_num + 7]
    ensures Moved(src, dst, dst_num, dst_num + 8, dst_pos, dst_pos + 16)
    ensures forall n, p :: dst_num <= n < dst_num + 8 && 0 <= p < DST_SIZE && !(dst_pos <= p < dst_pos + 16) ==>
      dst[n][p] == old(dst[n][p])
  {
    var a0, b0 := Load32(src, dst_num, dst_pos);
    var a1, b1 := Load32(src, dst_num, dst_pos + 4);
    var a2, b2 := Load32(src, dst_num, dst_pos + 8);
    var a3, b3 := Load32(src, dst_num, dst_pos + 12);
    StoreTiles(src, dst, dst_num, dst_pos, [a0, a1, a2, a3]);
    StoreTiles(src, dst, dst_num + 4, dst_pos, [b0, b1, b2, b3]);
  }

  /** Read8_Write16_SSE: blocks of eight channels by sixteen positions. */
  method Read8Write16Sse(src: seq<byte>, dst: seq<array<byte>>)
    requires |src| == SRC_SIZE && ValidDst(dst)
    modifies dst
    ensures Contents(dst) == Demultiplex(src)
  {
    assert DST_SIZE % 16 == 0 && NUM_TIMESLOTS % 8 == 0;
    var dst_num := 0;
    while dst_num < NUM_TIMESLOTS
      invariant dst_num <= NUM_TIMESLOTS && dst_num % 8 == 0
      invariant Moved(src, dst, 0, dst_num, 0, DST_SIZE)
    {
      var dst_pos := 0;
      while dst_pos < DST_SIZE
        invariant dst_pos <= DST_SIZE && dst_pos % 16 == 0
        invariant Moved(src, dst, 0, dst_num, 0, DST_SIZE)
        invariant Moved(src, dst, dst_num, dst_num + 8, 0, dst_pos)
      {
        Move128(src, dst, dst_num, dst_pos);
        dst_pos := dst_pos + 16;
      }
      dst_num := dst_num + 8;
    }
    ContentsDemultiplexed(dst, src);
  }

  /** Read8_Write16_SSE_Unroll: the same blocks, the four MOVE128 steps of a group of eight
    * channels being spelled out in the source (a counted loop here). */
  method Read8Write16SseUnroll(src: seq<byte>, dst: seq<array<byte>>)
    requires |src| == SRC_SIZE && ValidDst(dst)
    modifies dst
    ensures Contents(dst) == Demultiplex(src)
  {
    assert DST_SIZE == 64 && NUM_TIMESLOTS % 8 == 0;
    var dst_num := 0;
    while dst_num < NUM_TIMESLOTS
      invariant dst_num <= NUM_TIMESLOTS && dst_num % 8 == 0
      invariant Moved(src, dst, 0, dst_num, 0, DST_SIZE)
    {
      for k := 0 to 4
        invariant Moved(src, dst, 0, dst_num, 0, DST_SIZE)
        invariant Moved(src, dst, dst_num, dst_num + 8, 0, 16 * k)
      {
        Move128(src, dst, dst_num, 16 * k);
      }
      dst_num := dst_num + 8;
    }
    ContentsDemultiplexed(dst, src);
  }

  // ----- sixteen channels at a time -----

  /** The second and third rounds of transpose_16x16: LastRound for each output group. */
  function LastRounds(m0: seq<Reg>, m1: seq<Reg>, m2: seq<Reg>, m3: seq<Reg>): (y: seq<Reg>)
    requires |m0| == 4 && |m1| == 4 && |m2| == 4 && |m3| == 4
    ensures |y| == 16
  {
    LastRound(m0, m1, m2, m3, 0) + LastRound(m0, m1, m2, m3, 1) + LastRound(m0, m1, m2, m3, 2) + LastRound(m0, m1, m2, m3, 3)
  }

  /** For output group k: transpose_4x4 of result k of each first-round group, then
    * transpose_4x4_dwords across the groups. */
  function LastRound(m0: seq<Reg>, m1: seq<Reg>, m2: seq<Reg>, m3: seq<Reg>, k: int): (y: seq<Reg>)
    requires |m0| == 4 && |m1| == 4 && |m2| == 4 && |m3| == 4 && 0 <= k < 4
    ensures |y| == 4
  {
    TransposeDwords([Transpose4x4(m0[k]), Transpose4x4(m1[k]), Transpose4x4(m2[k]), Transpose4x4(m3[k])])
  }

  /** Rows lo .. lo + 3 of column j are column j of those four rows. */
  lemma ColumnOfRows(x: seq<Reg>, lo: int, j: int)
    requires 0 <= lo && lo + 4 <= |x| && 0 <= j < 16
    ensures Column(x[lo..lo + 4], j) == Column(x, j)[lo..lo + 4]
  {
    var a, b := Column(x[lo..lo + 4], j), Column(x, j)[lo..lo + 4];
    forall g | 0 <= g < 4
      ensures a[g] == b[g]
    {
      assert a[g] == x[lo + g][j];
    }
  }

  /** The first two rounds on rows lo .. lo + 3: lane c of transpose_4x4 of result k holds
    * the part of column 4k + c in those rows. */
  lemma FirstRoundLanes(x: seq<Reg>, lo: int)
    requires |x| == 16 && 0 <= lo <= 12
    ensures var m := TransposeDwords(x[lo..lo + 4]);
      forall k, c :: 0 <= k < 4 && 0 <= c < 4 ==> Lane(Transpose4x4(m[k]), c) == Column(x, 4 * k + c)[lo..lo + 4]
  {
    var m := TransposeDwords(x[lo..lo + 4]);
    forall k, c | 0 <= k < 4 && 0 <= c < 4
      ensures Lane(Transpose4x4(m[k]), c) == Column(x, 4 * k + c)[lo..lo + 4]
    {
      DwordsThenBytes(x[lo..lo + 4], k, c);
      ColumnOfRows(x, lo, 4 * k + c);
    }
  }

  /** The last round, for register c of output group k: when lane c of each transposed
    * block k holds the next four bytes of col, register c is col. */
  lemma LastRoundColumn(m0: seq<Reg>, m1: seq<Reg>, m2: seq<Reg>, m3: seq<Reg>, k: int, c: int, col: seq<byte>)
    requires |m0| == 4 && |m1| == 4 && |m2| == 4 && |m3| == 4 && 0 <= k < 4 && 0 <= c < 4 && |col| == 16
    requires Lane(Transpose4x4(m0[k]), c) == col[0..4] && Lane(Transpose4x4(m1[k]), c) == col[4..8]
    requires Lane(Transpose4x4(m2[k]), c) == col[8..12] && Lane(Transpose4x4(m3[k]), c) == col[12..16]
    ensures LastRound(m0, m1, m2, m3, k)[c] == col
  {
    var s := [Transpose4x4(m0[k]), Transpose4x4(m1[k]), Transpose4x4(m2[k]), Transpose4x4(m3[k])];
    var b := TransposeDwords(s)[c];
    TransposeDwordsLanes(s);
    assert Lane(b, 0) == Lane(s[0], c) && Lane(b, 1) == Lane(s[1], c);
    assert Lane(b, 2) == Lane(s[2], c) && Lane(b, 3) == Lane(s[3], c);
    RegOfLanes(b, col);
  }

  /** The last two rounds put the columns together: when the transposed first-round
    * blocks hold the parts of the columns, output register i is column i. */
  lemma LastRoundsColumns(x: seq<Reg>, m0: seq<Reg>, m1: seq<Reg>, m2: seq<Reg>, m3: seq<Reg>)
    requires |x| == 16 && |m0| == 4 && |m1| == 4 && |m2| == 4 && |m3| == 4
    requires forall k, c :: 0 <= k < 4 && 0 <= c < 4 ==> Lane(Transpose4x4(m0[k]), c) == Column(x, 4 * k + c)[0..4]
    requires forall k, c :: 0 <= k < 4 && 0 <= c < 4 ==> Lane(Transpose4x4(m1[k]), c) == Column(x, 4 * k + c)[4..8]
    requires forall k, c :: 0 <= k < 4 && 0 <= c < 4 ==> Lane(Transpose4x4(m2[k]), c) == Column(x, 4 * k + c)[8..12]
    requires forall k, c :: 0 <= k < 4 && 0 <= c < 4 ==> Lane(Transpose4x4(m3[k]), c) == Column(x, 4 * k + c)[12..16]
    ensures forall i :: 0 <= i < 16 ==> LastRounds(m0, m1, m2, m3)[i] == Column(x, i)
  {
    var y := LastRounds(m0, m1, m2, m3);
    forall i | 0 <= i < 16
      ensures y[i] == Column(x, i)
    {
      var k := if i < 4 then 0 else if i < 8 then 1 else if i < 12 then 2 else 3;
      LastRoundColumn(m0, m1, m2, m3, k, i - 4 * k, Column(x, i));
    }
  }

  /** transpose_16x16, and its macro form _transpose_16x16: sixteen registers, register g
    * being row g of a 16 x 16 byte matrix, are transposed in three rounds —
    * transpose_4x4_dwords on each group of four rows, then the LastRounds — so that
    * output register i is column i of the input: byte j of it is byte i of input j.
    * The source overwrites its sixteen by-reference registers; here they are returned. */
  method Transpose16x16(x: seq<Reg>) returns (y: seq<Reg>)
    requires |x| == 16
    ensures |y| == 16
    ensures forall i :: 0 <= i < 16 ==> y[i] == Column(x, i)
  {
    var m0, m1, m2, m3 := TransposeDwords(x[0..4]), TransposeDwords(x[4..8]), TransposeDwords(x[8..12]), TransposeDwords(x[12..16]);
    FirstRoundLanes(x, 0);
    FirstRoundLanes(x, 4);
    FirstRoundLanes(x, 8);
    FirstRoundLanes(x, 12);
    LastRoundsColumns(x, m0, m1, m2, m3);
    y := LastRounds(m0, m1, m2, m3);
  }

  /** Sixteen stream rows p .. p + 15, each read from channel n on: column i of them is
    * sixteen bytes of channel n + i. */
  lemma RowColumns(src: seq<byte>, w: seq<Reg>, n: nat, p: nat)
    requires |src| == SRC_SIZE && n + 16 <= NUM_TIMESLOTS && p + 16 <= DST_SIZE && |w| == 16
    requires forall g :: 0 <= g < 16 ==> w[g] == src[(p + g) * NUM_TIMESLOTS + n..(p + g) * NUM_TIMESLOTS + n + 16]
    ensures forall i :: 0 <= i < 16 ==> Column(w, i) == Demultiplex(src)[n + i][p..p + 16]
  {
    forall i | 0 <= i < 16
      ensures Column(w, i) == Demultiplex(src)[n + i][p..p + 16]
    {
      forall g | 0 <= g < 16
        ensures Column(w, i)[g] == src[(p + g) * NUM_TIMESLOTS + n + i]
      {
        assert w[g][i] == src[(p + g) * NUM_TIMESLOTS + n..(p + g) * NUM_TIMESLOTS + n + 16][i];
      }
    }
  }

  /** The sixteen LOADREG loads of MOVE256: register g is stream row dst_pos + g from
    * channel dst_num on, so column i of the sixteen registers is sixteen bytes of channel
    * dst_num + i (a comprehension here). */
  method Load256(src: seq<byte>, dst_num: nat, dst_pos: nat) returns (w: seq<Reg>)
    requires |src| == SRC_SIZE && dst_num + 16 <= NUM_TIMESLOTS && dst_pos + 16 <= DST_SIZE
    ensures |w| == 16
    ensures forall i :: 0 <= i < 16 ==> Column(w, i) == Demultiplex(src)[dst_num + i][dst_pos..dst_pos + 16]
  {
    w := seq(16, g requires 0 <= g < 16 =>
      src[(dst_pos + g) * NUM_TIMESLOTS + dst_num..(dst_pos + g) * NUM_TIMESLOTS + dst_num + 16]);
    RowColumns(src, w, dst_num, dst_pos);
  }

  /** MOVE256(dst_pos), also the inner loop body of Read16_Write16_SSE: sixteen 16-byte
    * loads (stream rows dst_pos .. dst_pos + 15, channels dst_num .. dst_num + 15),
    * transpose_16x16, and sixteen 16-byte stores, register i into channel dst_num + i
    */
  method Move256(src: seq<byte>, dst: seq<array<byte>>, dst_num: nat, dst_pos: nat)
    requires |src| == SRC_SIZE && ValidDst(dst)
    requires dst_num + 16 <= NUM_TIMESLOTS && dst_pos + 16 <= DST_SIZE
    modifies set n | dst_num <= n < dst_num + 16 :: dst[n]
    ensures Moved(src, dst, dst_num, dst_num + 16, dst_pos, dst_pos + 16)
    ensures forall n, p :: dst_num <= n < dst_num + 16 && 0 <= p < DST_SIZE && !(dst_pos <= p < dst_pos + 16) ==>
      dst[n][p] == old(dst[n][p])
  {
    var w := Load256(src, dst_num, dst_pos);
    var y := Transpose16x16(w);
    StoreRuns(src, dst, dst_num, dst_pos, 16, y);
  }

  /** Read16_Write16_SSE: blocks of sixteen channels by sixteen positions. */
  method Read16Write16Sse(src: seq<byte>, dst: seq<array<byte>>)
    requires |src| == SRC_SIZE && ValidDst(dst)
    modifies dst
    ensures Contents(dst) == Demultiplex(src)
  {
    assert DST_SIZE % 16 == 0 && NUM_TIMESLOTS % 16 == 0;
    var dst_num := 0;
    while dst_num < NUM_TIMESLOTS
      invariant dst_num <= NUM_TIMESLOTS && dst_num % 16 == 0
      invariant Moved(src, dst, 0, dst_num, 0, DST_SIZE)
    {
      var dst_pos := 0;
      while dst_pos < DST_SIZE
        invariant dst_pos <= DST_SIZE && dst_pos % 16 == 0
        invariant Moved(src, dst, 0, dst_num, 0, DST_SIZE)
        invariant Moved(src, dst, dst_num, dst_num + 16, 0, dst_pos)
      {
        Move256(src, dst, dst_num, dst_pos);
        dst_pos := dst_pos + 16;
      }
      dst_num := dst_num + 16;
    }
    ContentsDemultiplexed(dst, src);
  }

  /** Read16_Write16_SSE_Unroll: the same blocks, the four MOVE256 steps of a group of
    * sixteen channels being spelled out in the source (a counted loop here). */
  method Read16Write16SseUnroll(src: seq<byte>, dst: seq<array<byte>>)
    requires |src| == SRC_SIZE && ValidDst(dst)
    modifies dst
    ensures Contents(dst) == Demultiplex(src)
  {
    assert DST_SIZE == 64 && NUM_TIMESLOTS % 16 == 0;
    var dst_num := 0;
    while dst_num < NUM_TIMESLOTS
      invariant dst_num <= NUM_TIMESLOTS && dst_num % 16 == 0
      invariant Moved(src, dst, 0, dst_num, 0, DST_SIZE)
    {
      for k := 0 to 4
        invariant Moved(src, dst, 0, dst_num, 0, DST_SIZE)
        invariant Moved(src, dst, dst_num, dst_num + 16, 0, 16 * k)
      {
        Move256(src, dst, dst_num, 16 * k);
      }
      dst_num := dst_num + 16;
    }
    ContentsDemultiplexed(dst, src);
  }
}
