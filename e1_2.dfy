/** The two demultiplexers kept in e1-2.cpp, the cut-down e1.cpp. Neither checks the
  * source length: Dst_First_1 writes as many whole rows as the source has, and
  * Dst_First_3 always reads DST_SIZE rows. */
module E1Simplified {
  import opened Tdm

  /** Dst_First_1 without the length assertion: any source whose whole rows fit in the
    * buffers is accepted; its trailing partial row is not read, and positions past its
    * rows keep their old bytes. */
  method DstFirst1(src: seq<byte>, dst: seq<array<byte>>)
    requires |src| / NUM_TIMESLOTS <= DST_SIZE
    requires ValidDst(dst)
    modifies dst
    ensures Contents(dst) == Fill(old(Contents(dst)), src)
  {
    for dst_num := 0 to NUM_TIMESLOTS
      invariant forall n, p :: 0 <= n < NUM_TIMESLOTS && 0 <= p < DST_SIZE ==>
        dst[n][p] == if n < dst_num && p < |src| / NUM_TIMESLOTS then src[p * NUM_TIMESLOTS + n] else old(dst[n][p])
    {
      for dst_pos := 0 to |src| / NUM_TIMESLOTS
        invariant forall n, p :: 0 <= n < NUM_TIMESLOTS && 0 <= p < DST_SIZE ==>
          dst[n][p] == if (n < dst_num && p < |src| / NUM_TIMESLOTS) || (n == dst_num && p < dst_pos)
                       then src[p * NUM_TIMESLOTS + n] else old(dst[n][p])
      {
        dst[dst_num][dst_pos] := src[dst_pos * NUM_TIMESLOTS + dst_num];
      }
    }
    ContentsFilled(dst, old(Contents(dst)), src);
  }

  /** Dst_First_3 without the length assertion: it reads the first SRC_SIZE source bytes
    * whatever the length says, so the source must have at least that many; any bytes
    * after them are not read. */
  method DstFirst3(src: seq<byte>, dst: seq<array<byte>>)
    requires SRC_SIZE <= |src|
    requires ValidDst(dst)
    modifies dst
    ensures Contents(dst) == Demultiplex(src[..SRC_SIZE])
  {
    for dst_num := 0 to NUM_TIMESLOTS
      invariant Moved(src, dst, 0, dst_num, 0, DST_SIZE)
    {
      for dst_pos := 0 to DST_SIZE
        invariant Moved(src, dst, 0, dst_num, 0, DST_SIZE)
        invariant Moved(src, dst, dst_num, dst_num + 1, 0, dst_pos)
      {
        dst[dst_num][dst_pos] := src[dst_pos * NUM_TIMESLOTS + dst_num];
      }
    }
    ContentsDemultiplexed(dst, src[..SRC_SIZE]);
  }

  /** On the one length the benchmark passes, SRC_SIZE, the two variants leave the same
    * contents, whatever the buffers held before. */
  lemma VariantsAgree(before: Channels, src: seq<byte>)
    requires |src| == SRC_SIZE && Rectangular(before, DST_SIZE)
    ensures Fill(before, src) == Demultiplex(src[..SRC_SIZE])
  {
    assert src[..SRC_SIZE] == src;
    FillWhole(before, src);
  }
}
