/** The self-check of e1-new.cpp: run Reference and a candidate demultiplexer on the
  * same source into two separately allocated buffer sets and compare them channel by
  * channel. The source is a parameter (any SRC_SIZE bytes, where the benchmark uses
  * its generated buffer), and the process exit on a mismatch is a returned channel
  * index. */
module Check {
  import opened Tdm
  import Reference
  import E1New

  datatype Option<T> = None | Some(value: T)

  /** The demultiplexers of e1-new.cpp that the benchmark checks and times, AVX ones aside. */
  datatype Variant =
    | ReferenceDemux
    | Write4
    | Write8
    | Read4Write4
    | Read4Write4Unroll
    | Read4Write4Sse
    | Read4Write16Sse
    | Read8Write16Sse
    | Read8Write16SseUnroll
    | Read16Write16Sse
    | Read16Write16SseUnroll

  /** The virtual call demux.demux(src, SRC_SIZE, dst): every variant leaves the
    * demultiplexing of the source in the buffers. */
  method Run(v: Variant, src: seq<byte>, dst: seq<array<byte>>)
    requires |src| == SRC_SIZE && ValidDst(dst)
    modifies dst
    ensures Contents(dst) == Demultiplex(src)
  {
    match v {
      case ReferenceDemux =>
        Reference.Demux(src, dst);
        FillWhole(old(Contents(dst)), src);
      case Write4 => E1New.Write4(src, dst);
      case Write8 => E1New.Write8(src, dst);
      case Read4Write4 => E1New.Read4Write4(src, dst);
      case Read4Write4Unroll => E1New.Read4Write4Unroll(src, dst);
      case Read4Write4Sse => E1New.Read4Write4Sse(src, dst);
      case Read4Write16Sse => E1New.Read4Write16Sse(src, dst);
      case Read8Write16Sse => E1New.Read8Write16Sse(src, dst);
      case Read8Write16SseUnroll => E1New.Read8Write16SseUnroll(src, dst);
      case Read16Write16Sse => E1New.Read16Write16Sse(src, dst);
      case Read16Write16SseUnroll => E1New.Read16Write16SseUnroll(src, dst);
    }
  }

  /** allocate_dst: NUM_TIMESLOTS new zero-filled buffers of DST_SIZE bytes. */
  method AllocateDst() returns (dst: seq<array<byte>>)
    ensures ValidDst(dst)
    ensures forall n :: 0 <= n < |dst| ==> fresh(dst[n])
    ensures forall n, p :: 0 <= n < |dst| && 0 <= p < DST_SIZE ==> dst[n][p] == 0
  {
    dst := [];
    for i := 0 to NUM_TIMESLOTS
      invariant |dst| == i
      invariant forall n :: 0 <= n < i ==> fresh(dst[n]) && dst[n].Length == DST_SIZE
      invariant forall m, n :: 0 <= m < n < i ==> dst[m] != dst[n]
      invariant forall n, p :: 0 <= n < i && 0 <= p < DST_SIZE ==> dst[n][p] == 0
    {
      var buffer := new byte[DST_SIZE](_ => 0);
      dst := dst + [buffer];
    }
  }

  /** The comparison loop: memcmp of each pair of buffers, stopping at the first channel
    * whose bytes differ. None exactly when the two sets hold the same bytes. */
  method FirstMismatch(dst0: seq<array<byte>>, dst: seq<array<byte>>) returns (r: Option<nat>)
    requires ValidDst(dst0) && ValidDst(dst)
    ensures r.None? <==> Contents(dst0) == Contents(dst)
    ensures r.Some? ==> r.value < NUM_TIMESLOTS && dst0[r.value][..] != dst[r.value][..]
    ensures r.Some? ==> forall n :: 0 <= n < r.value ==> dst0[n][..] == dst[n][..]
  {
    for i := 0 to NUM_TIMESLOTS
      invariant forall n :: 0 <= n < i ==> dst0[n][..] == dst[n][..]
    {
      if dst0[i][..] != dst[i][..] {
        return Some(i);
      }
    }
    assert Contents(dst0) == Contents(dst) by {
      var c0, c := Contents(dst0), Contents(dst);
      forall n | 0 <= n < NUM_TIMESLOTS
        ensures c0[n] == c[n]
      {
      }
    }
    return None;
  }

  /** check(demux): every variant agrees with Reference on every source, so the check
    * never reports a mismatching channel. */
  method Check(v: Variant, src: seq<byte>) returns (r: Option<nat>)
    requires |src| == SRC_SIZE
    ensures r == None
  {
    var dst0 := AllocateDst();
    var dst := AllocateDst();
    ghost var zeroed := Contents(dst0);
    Reference.Demux(src, dst0);
    FillWhole(zeroed, src);
    ghost var expected := Contents(dst0);
    Run(v, src, dst);
    assert Contents(dst0) == expected;
    r := FirstMismatch(dst0, dst);
  }
}
