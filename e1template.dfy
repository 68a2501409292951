/** The templated demultiplexers of e1-template.cpp. The recursive templates
  * move_bytes<N> and move_timeslots<N>, which the compiler unrolls, are recursive
  * methods on N here: instance N does instance N - 1 and then one more step, and
  * instance 0 does nothing. */
module E1Template {
  import opened Tdm

  /** move_bytes<N>(src, d, j): d[i] = src[j + i * 32] for i = 0 .. N - 1, lowest first;
    * nothing else in d changes. */
  method MoveBytes(src: seq<byte>, d: array<byte>, j: nat, N: nat)
    requires N <= d.Length
    requires N == 0 || j + (N - 1) * NUM_TIMESLOTS < |src|
    modifies d
    decreases N
    ensures forall i :: 0 <= i < N ==> d[i] == src[j + i * NUM_TIMESLOTS]
    ensures forall i :: N <= i < d.Length ==> d[i] == old(d[i])
  {
    if N > 0 {
      MoveBytes(src, d, j, N - 1);
      d[N - 1] := src[j + (N - 1) * 32];
    }
  }

  /** move_timeslot(src, dst, j): move_bytes<DST_SIZE> into dst[j], the whole of channel j. */
  method MoveTimeslot(src: seq<byte>, dst: seq<array<byte>>, j: nat)
    requires ValidDst(dst) && j < NUM_TIMESLOTS && |src| == SRC_SIZE
    modifies dst[j]
    ensures Moved(src, dst, j, j + 1, 0, DST_SIZE)
  {
    MoveBytes(src, dst[j], j, DST_SIZE);
  }

  /** Unrolled_1: move_timeslot for every channel. */
  method Unrolled1(src: seq<byte>, dst: seq<array<byte>>)
    requires |src| == SRC_SIZE && ValidDst(dst)
    modifies dst
    ensures Contents(dst) == Demultiplex(src)
  {
    for j := 0 to NUM_TIMESLOTS
      invariant Moved(src, dst, 0, j, 0, DST_SIZE)
    {
      MoveTimeslot(src, dst, j);
    }
    ContentsDemultiplexed(dst, src);
  }

  /** move_timeslots<N>(src, dst, j): move_timeslot for channels j .. j + N - 1; no other
    * buffer is touched. */
  method MoveTimeslots(src: seq<byte>, dst: seq<array<byte>>, j: nat, N: nat)
    requires ValidDst(dst) && j + N <= NUM_TIMESLOTS && |src| == SRC_SIZE
    modifies set n | j <= n < j + N :: dst[n]
    decreases N
    ensures Moved(src, dst, j, j + N, 0, DST_SIZE)
  {
    if N > 0 {
      MoveTimeslots(src, dst, j, N - 1);
      MoveTimeslot(src, dst, j + N - 1);
    }
  }

  /** Unrolled_1_F<F>: j steps by F over the channels, move_timeslots<F> at each step. The
    * instances are F = 2, 4, 8 and 16; F must divide NUM_TIMESLOTS, otherwise the last
    * step runs past dst[NUM_TIMESLOTS - 1]. */
  method Unrolled1F(src: seq<byte>, dst: seq<array<byte>>, F: nat)
    requires 0 < F && NUM_TIMESLOTS % F == 0
    requires |src| == SRC_SIZE && ValidDst(dst)
    modifies dst
    ensures Contents(dst) == Demultiplex(src)
  {
    var j := 0;
    ghost var k := 0;
    while j < NUM_TIMESLOTS
      invariant j == k * F <= NUM_TIMESLOTS
      invariant Moved(src, dst, 0, j, 0, DST_SIZE)
    {
      StepFits(k, F);
      MoveTimeslots(src, dst, j, F);
      j, k := j + F, k + 1;
    }
    ContentsDemultiplexed(dst, src);
  }

  /** Unrolled_2_Full: move_timeslots<NUM_TIMESLOTS> from channel 0. */
  method Unrolled2Full(src: seq<byte>, dst: seq<array<byte>>)
    requires |src| == SRC_SIZE && ValidDst(dst)
    modifies dst
    ensures Contents(dst) == Demultiplex(src)
  {
    MoveTimeslots(src, dst, 0, NUM_TIMESLOTS);
    ContentsDemultiplexed(dst, src);
  }
}
