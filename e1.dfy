/** The scalar demultiplexers of e1.cpp: the two loop orders (source-major
  * Src_First_*, destination-major Dst_First_*) and the macro-unrolled Unrolled_*.
  * The DUP_* macros expand to p(0); ...; p(N-1) and are modelled as loops over 0..N-1. */
module E1 {
  import opened Tdm

  /** Src_First_1: read the source in order; each outer pass writes one byte to every channel. */
  method SrcFirst1(src: seq<byte>, dst: seq<array<byte>>)
    requires |src| % NUM_TIMESLOTS == 0 && |src| <= SRC_SIZE
    requires ValidDst(dst)
    modifies dst
    ensures Contents(dst) == Fill(old(Contents(dst)), src)
  {
    var src_pos, dst_pos := 0, 0;
    while src_pos < |src|
      invariant src_pos == dst_pos * NUM_TIMESLOTS <= |src|
      invariant forall n, p :: 0 <= n < NUM_TIMESLOTS && 0 <= p < DST_SIZE ==>
        dst[n][p] == if p < dst_pos then src[p * NUM_TIMESLOTS + n] else old(dst[n][p])
    {
      for dst_num := 0 to NUM_TIMESLOTS
        invariant src_pos == dst_pos * NUM_TIMESLOTS + dst_num
        invariant forall n, p :: 0 <= n < NUM_TIMESLOTS && 0 <= p < DST_SIZE ==>
          dst[n][p] == if p < dst_pos || (p == dst_pos && n < dst_num) then src[p * NUM_TIMESLOTS + n] else old(dst[n][p])
      {
        dst[dst_num][dst_pos] := src[src_pos];
        src_pos := src_pos + 1;
      }
      dst_pos := dst_pos + 1;
    }
    ContentsFilled(dst, old(Contents(dst)), src);
  }

  /** Src_First_2: row by row, dst[n][p] = src[p * NUM_TIMESLOTS + n]. */
  method SrcFirst2(src: seq<byte>, dst: seq<array<byte>>)
    requires |src| % NUM_TIMESLOTS == 0 && |src| <= SRC_SIZE
    requires ValidDst(dst)
    modifies dst
    ensures Contents(dst) == Fill(old(Contents(dst)), src)
  {
    for dst_pos := 0 to |src| / NUM_TIMESLOTS
      invariant forall n, p :: 0 <= n < NUM_TIMESLOTS && 0 <= p < DST_SIZE ==>
        dst[n][p] == if p < dst_pos then src[p * NUM_TIMESLOTS + n] else old(dst[n][p])
    {
      for dst_num := 0 to NUM_TIMESLOTS
        invariant forall n, p :: 0 <= n < NUM_TIMESLOTS && 0 <= p < DST_SIZE ==>
          dst[n][p] == if p < dst_pos || (p == dst_pos && n < dst_num) then src[p * NUM_TIMESLOTS + n] else old(dst[n][p])
      {
        dst[dst_num][dst_pos] := src[dst_pos * NUM_TIMESLOTS + dst_num];
      }
    }
    ContentsFilled(dst, old(Contents(dst)), src);
  }

  /** Src_First_3: dst[i % NUM_TIMESLOTS][i / NUM_TIMESLOTS] = src[i], the inverse index map. */
  method SrcFirst3(src: seq<byte>, dst: seq<array<byte>>)
    requires |src| % NUM_TIMESLOTS == 0 && |src| <= SRC_SIZE
    requires ValidDst(dst)
    modifies dst
    ensures Contents(dst) == Fill(old(Contents(dst)), src)
  {
    for i := 0 to |src|
      invariant forall n, p :: 0 <= n < NUM_TIMESLOTS && 0 <= p < DST_SIZE ==>
        dst[n][p] == if p * NUM_TIMESLOTS + n < i then src[p * NUM_TIMESLOTS + n] else old(dst[n][p])
    {
      StreamIndex(i % NUM_TIMESLOTS, i / NUM_TIMESLOTS);
      dst[i % NUM_TIMESLOTS][i / NUM_TIMESLOTS] := src[i];
    }
    forall n, p | 0 <= n < NUM_TIMESLOTS && 0 <= p < DST_SIZE
      ensures dst[n][p] == if p < |src| / NUM_TIMESLOTS then src[p * NUM_TIMESLOTS + n] else old(dst[n][p])
    {
      StreamIndex(n, p);
    }
    ContentsFilled(dst, old(Contents(dst)), src);
  }

  /** Dst_First_1: channel by channel, position by position. */
  method DstFirst1(src: seq<byte>, dst: seq<array<byte>>)
    requires |src| % NUM_TIMESLOTS == 0 && |src| <= SRC_SIZE
    requires ValidDst(dst)
    modifies dst
    ensures Contents(dst) == Fill(old(Contents(dst)), src)
  {
    for dst_num := 0 to NUM_TIMESLOTS
      invariant forall n, p :: 0 <= n < NUM_TIMESLOTS && 0 <= p < DST_SIZE ==>
        dst[n][p] == if n < dst_num && p < |src| / NUM_TIMESLOTS then src[p * NUM_TIMESLOTS + n] else old(dst[n][p])
    {
      for dst_pos := 0 to |src| / NUM_TIMESLOTS
        invariant forall n, p :: 0 <= n < NUM_TIMESLOTS && 0 <= p < DST_SIZE ==>
          dst[n][p] == if (n < dst_num && p < |src| / NUM_TIMESLOTS) || (n == dst_num && p < dst_pos)
                       then src[p * NUM_TIMESLOTS + n] else old(dst[n][p])
      {
        dst[dst_num][dst_pos] := src[dst_pos * NUM_TIMESLOTS + dst_num];
      }
    }
    ContentsFilled(dst, old(Contents(dst)), src);
  }

  /** Dst_First_2: like Dst_First_1, with a running source index that steps by NUM_TIMESLOTS. */
  method DstFirst2(src: seq<byte>, dst: seq<array<byte>>)
    requires |src| % NUM_TIMESLOTS == 0 && |src| <= SRC_SIZE
    requires ValidDst(dst)
    modifies dst
    ensures Contents(dst) == Fill(old(Contents(dst)), src)
  {
    var dst_size := |src| / NUM_TIMESLOTS;
    for dst_num := 0 to NUM_TIMESLOTS
      invariant forall n, p :: 0 <= n < NUM_TIMESLOTS && 0 <= p < DST_SIZE ==>
        dst[n][p] == if n < dst_num && p < dst_size then src[p * NUM_TIMESLOTS + n] else old(dst[n][p])
    {
      var d := dst[dst_num];
      var src_pos := dst_num;
      for dst_pos := 0 to dst_size
        invariant src_pos == dst_pos * NUM_TIMESLOTS + dst_num
        invariant forall n, p :: 0 <= n < NUM_TIMESLOTS && 0 <= p < DST_SIZE ==>
          dst[n][p] == if (n < dst_num && p < dst_size) || (n == dst_num && p < dst_pos)
                       then src[p * NUM_TIMESLOTS + n] else old(dst[n][p])
      {
        d[dst_pos] := src[src_pos];
        src_pos := src_pos + NUM_TIMESLOTS;
      }
    }
    ContentsFilled(dst, old(Contents(dst)), src);
  }

  /** Dst_First_3: the fixed shape, DST_SIZE positions per channel; the source asserts
    * src_length == SRC_SIZE, stricter than Reference. */
  method DstFirst3(src: seq<byte>, dst: seq<array<byte>>)
    requires |src| == SRC_SIZE
    requires ValidDst(dst)
    modifies dst
    ensures Contents(dst) == Demultiplex(src)
  {
    for dst_num := 0 to NUM_TIMESLOTS
      invariant Moved(src, dst, 0, dst_num, 0, DST_SIZE)
    {
      for dst_pos := 0 to DST_SIZE
        invariant Moved(src, dst, 0, dst_num, 0, DST_SIZE)
        invariant Moved(src, dst, dst_num, dst_num + 1, 0, dst_pos)
      {
        dst[dst_num][dst_pos] := src[dst_pos * NUM_TIMESLOTS + dst_num];
      }
    }
    ContentsDemultiplexed(dst, src);
  }

  /** MOVE_BYTES_64(j), the 64 expansions of MOVE_BYTE(i, j): d[i] = src[j + i * 32],
    * the literal stride 32 being NUM_TIMESLOTS. It is also the body of Unrolled_3's
    * demux_j and of Unrolled_4's demux_0(src, d, j). */
  method MoveBytes64(src: seq<byte>, d: array<byte>, j: nat)
    requires d.Length == DST_SIZE && j < NUM_TIMESLOTS && SRC_SIZE <= |src|
    modifies d
    ensures forall p :: 0 <= p < DST_SIZE ==> d[p] == src[p * NUM_TIMESLOTS + j]
  {
    for i := 0 to 64
      invariant forall p :: 0 <= p < i ==> d[p] == src[p * NUM_TIMESLOTS + j]
    {
      d[i] := src[j + i * 32];
    }
  }

  /** MOVE_TIMESLOT(j): fills all of dst[j] and no other buffer. */
  method MoveTimeslot(src: seq<byte>, dst: seq<array<byte>>, j: nat)
    requires ValidDst(dst) && j < NUM_TIMESLOTS && SRC_SIZE <= |src|
    modifies dst[j]
    ensures forall p :: 0 <= p < DST_SIZE ==> dst[j][p] == src[p * NUM_TIMESLOTS + j]
  {
    var d := dst[j];
    MoveBytes64(src, d, j);
  }

  /** Unrolled_1: one MOVE_TIMESLOT per channel. */
  method Unrolled1(src: seq<byte>, dst: seq<array<byte>>)
    requires |src| == SRC_SIZE
    requires ValidDst(dst)
    modifies dst
    ensures Contents(dst) == Demultiplex(src)
  {
    for j := 0 to NUM_TIMESLOTS
      invariant Moved(src, dst, 0, j, 0, DST_SIZE)
    {
      MoveTimeslot(src, dst, j);
    }
    ContentsDemultiplexed(dst, src);
  }

  /** Unrolled_1_2, Unrolled_1_4, Unrolled_1_8 and Unrolled_1_16: j steps by F and the body
    * is DUP_F(MOVE_TIMESLOT_J), channels j .. j + F - 1. F divides NUM_TIMESLOTS, so every
    * channel is visited once. */
  method Unrolled1By(src: seq<byte>, dst: seq<array<byte>>, F: nat)
    requires F in {2, 4, 8, 16}
    requires |src| == SRC_SIZE
    requires ValidDst(dst)
    modifies dst
    ensures Contents(dst) == Demultiplex(src)
  {
    var j := 0;
    ghost var k := 0;
    while j < NUM_TIMESLOTS
      invariant j == k * F <= NUM_TIMESLOTS
      invariant Moved(src, dst, 0, j, 0, DST_SIZE)
    {
      StepFits(k, F);
      for offset := 0 to F
        invariant Moved(src, dst, 0, j + offset, 0, DST_SIZE)
      {
        MoveTimeslot(src, dst, j + offset);
      }
      j, k := j + F, k + 1;
    }
    ContentsDemultiplexed(dst, src);
  }

  /** Unrolled_2_Full: DUP_32(MOVE_TIMESLOT), all channels in one straight line. */
  method Unrolled2Full(src: seq<byte>, dst: seq<array<byte>>)
    requires |src| == SRC_SIZE
    requires ValidDst(dst)
    modifies dst
    ensures Contents(dst) == Demultiplex(src)
  {
    for i := 0 to 32
      invariant Moved(src, dst, 0, i, 0, DST_SIZE)
    {
      MoveTimeslot(src, dst, i);
    }
    ContentsDemultiplexed(dst, src);
  }

  /** Unrolled_3: one specialised demux_i per channel. It asserts only that the length is a
    * whole number of rows, but every demux_i reads 64 rows, so it needs at least SRC_SIZE
    * bytes; it then ignores everything after them. */
  method Unrolled3(src: seq<byte>, dst: seq<array<byte>>)
    requires |src| % NUM_TIMESLOTS == 0 && SRC_SIZE <= |src|
    requires ValidDst(dst)
    modifies dst
    ensures Contents(dst) == Demultiplex(src[..SRC_SIZE])
  {
    for i := 0 to 32
      invariant Moved(src, dst, 0, i, 0, DST_SIZE)
    {
      MoveBytes64(src, dst[i], i);
    }
    ContentsDemultiplexed(dst, src[..SRC_SIZE]);
  }

  /** Unrolled_4: the shared demux_0(src, dst[i], i) for every channel i. */
  method Unrolled4(src: seq<byte>, dst: seq<array<byte>>)
    requires |src| == SRC_SIZE
    requires ValidDst(dst)
    modifies dst
    ensures Contents(dst) == Demultiplex(src)
  {
    for i := 0 to 32
      invariant Moved(src, dst, 0, i, 0, DST_SIZE)
    {
      MoveBytes64(src, dst[i], i);
    }
    ContentsDemultiplexed(dst, src);
  }
}
