/** The canonical demultiplexer, against which every other one is judged: one pass
  * over the source with a (channel, position) cursor that wraps every NUM_TIMESLOTS
  * bytes. The classes named Reference in e1-new.cpp, e1.cpp and e1-template.cpp are
  * the same code (the last two count with 32-bit `unsigned`, which cannot wrap here
  * because every index stays below src_length). */
module Reference {
  import opened Tdm

  /** The destination cursor: channel `num`, position `pos`. */
  datatype Cursor = Cursor(num: nat, pos: nat)

  /** One step of the cursor: next channel, or channel 0 of the next position after the last
    * channel. Read as the stream index pos * NUM_TIMESLOTS + num, a step is one byte on. */
  function Advance(c: Cursor): (r: Cursor)
    requires c.num < NUM_TIMESLOTS
    ensures r.num < NUM_TIMESLOTS
    ensures r.pos * NUM_TIMESLOTS + r.num == c.pos * NUM_TIMESLOTS + c.num + 1
  {
    if c.num + 1 == NUM_TIMESLOTS then Cursor(0, c.pos + 1) else Cursor(c.num + 1, c.pos)
  }

  /** The cursor once `k` source bytes have been consumed. */
  function CursorAfter(k: nat): (c: Cursor)
    ensures c.num < NUM_TIMESLOTS
    ensures c.pos * NUM_TIMESLOTS + c.num == k
  {
    if k == 0 then Cursor(0, 0) else Advance(CursorAfter(k - 1))
  }

  /** The channel wraps to 0 and the position goes up by one exactly once every
    * NUM_TIMESLOTS bytes: after k bytes the cursor is (k % NUM_TIMESLOTS, k / NUM_TIMESLOTS). */
  lemma {:induction false} CursorAt(k: nat)
    ensures CursorAfter(k) == Cursor(k % NUM_TIMESLOTS, k / NUM_TIMESLOTS)
  {
    if k > 0 {
      CursorAt(k - 1);
    }
  }

  /** Reference::demux. The source asserts that the length is a whole number of rows;
    * the buffers hold DST_SIZE bytes, so it also needs at most DST_SIZE rows. */
  method Demux(src: seq<byte>, dst: seq<array<byte>>)
    requires |src| % NUM_TIMESLOTS == 0
    requires |src| <= SRC_SIZE
    requires ValidDst(dst)
    modifies dst
    ensures Contents(dst) == Fill(old(Contents(dst)), src)
    ensures forall i :: 0 <= i < |src| ==> dst[i % NUM_TIMESLOTS][i / NUM_TIMESLOTS] == src[i]
  {
    var dst_pos, dst_num := 0, 0;
    for src_pos := 0 to |src|
      invariant Cursor(dst_num, dst_pos) == CursorAfter(src_pos)
      invariant forall n, p :: 0 <= n < NUM_TIMESLOTS && 0 <= p < DST_SIZE ==>
        dst[n][p] == if p * NUM_TIMESLOTS + n < src_pos then src[p * NUM_TIMESLOTS + n] else old(dst[n][p])
    {
      dst[dst_num][dst_pos] := src[src_pos];
      dst_num := dst_num + 1;
      if dst_num == NUM_TIMESLOTS {
        dst_num := 0;
        dst_pos := dst_pos + 1;
      }
    }
    forall i | 0 <= i < |src|
      ensures dst[i % NUM_TIMESLOTS][i / NUM_TIMESLOTS] == src[i]
    {
      StreamIndex(i % NUM_TIMESLOTS, i / NUM_TIMESLOTS);
    }
    forall n, p | 0 <= n < NUM_TIMESLOTS && 0 <= p < DST_SIZE
      ensures dst[n][p] == if p < |src| / NUM_TIMESLOTS then src[p * NUM_TIMESLOTS + n] else old(dst[n][p])
    {
      StreamIndex(n, p);
    }
    ContentsFilled(dst, old(Contents(dst)), src);
  }
}
