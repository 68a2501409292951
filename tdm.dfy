/** The shape of the time-division-multiplexed stream, the destination buffer set,
  * and the one function every demultiplexer computes.
  *
  * A source of NUM_TIMESLOTS * rows bytes is a row-major matrix with NUM_TIMESLOTS
  * columns (one per channel); demultiplexing stores column n into destination
  * buffer n, so that dst[n][p] == src[p * NUM_TIMESLOTS + n].
  */
module Tdm {

  /** `unsigned char` of the source. */
  type byte = bv8

  const NUM_TIMESLOTS: nat := 32
  const DST_SIZE: nat := 64
  const SRC_SIZE: nat := NUM_TIMESLOTS * DST_SIZE

  /** The contents of a destination buffer set, one byte sequence per channel. */
  type Channels = seq<seq<byte>>

  /** The `byte ** dst` every demux receives: NUM_TIMESLOTS separately allocated
    * buffers of DST_SIZE bytes each, so no two of them alias. */
  ghost predicate ValidDst(dst: seq<array<byte>>) {
    && |dst| == NUM_TIMESLOTS
    && (forall n :: 0 <= n < |dst| ==> dst[n].Length == DST_SIZE)
    && (forall m, n :: 0 <= m < n < |dst| ==> dst[m] != dst[n])
  }

  /** What the buffers currently hold. */
  ghost function Contents(dst: seq<array<byte>>): (c: Channels)
    reads dst
    ensures |c| == |dst|
    ensures forall n :: 0 <= n < |dst| ==> c[n] == dst[n][..]
  {
    seq(|dst|, n requires 0 <= n < |dst| reads dst => dst[n][..])
  }

  /** Demultiplexing: channel n, position p receives source byte p * NUM_TIMESLOTS + n. */
  function Demultiplex(src: seq<byte>): (ch: Channels)
    requires |src| % NUM_TIMESLOTS == 0
    ensures Rectangular(ch, |src| / NUM_TIMESLOTS)
  {
    seq(NUM_TIMESLOTS, n requires 0 <= n < NUM_TIMESLOTS =>
      seq(|src| / NUM_TIMESLOTS, p requires 0 <= p < |src| / NUM_TIMESLOTS => src[p * NUM_TIMESLOTS + n]))
  }

  /** NUM_TIMESLOTS channels of `rows` bytes each. */
  predicate Rectangular(ch: Channels, rows: nat) {
    |ch| == NUM_TIMESLOTS && forall n :: 0 <= n < |ch| ==> |ch[n]| == rows
  }

  /** Multiplexing, the inverse: byte i of the stream comes from channel i % NUM_TIMESLOTS,
    * position i / NUM_TIMESLOTS. */
  function Multiplex(ch: Channels, rows: nat): (s: seq<byte>)
    requires Rectangular(ch, rows)
  {
    seq(rows * NUM_TIMESLOTS, i requires 0 <= i < rows * NUM_TIMESLOTS => ch[i % NUM_TIMESLOTS][i / NUM_TIMESLOTS])
  }

  /** The destination contents after demultiplexing the whole rows of `src` into
    * `before`: positions below |src| / NUM_TIMESLOTS take the source bytes, the
    * positions above keep their old value, and the last |src| % NUM_TIMESLOTS
    * source bytes are not used. */
  function Fill(before: Channels, src: seq<byte>): (after: Channels)
    requires |before| == NUM_TIMESLOTS
    requires forall n :: 0 <= n < NUM_TIMESLOTS ==> |src| / NUM_TIMESLOTS <= |before[n]|
  {
    seq(NUM_TIMESLOTS, n requires 0 <= n < NUM_TIMESLOTS =>
      seq(|before[n]|, p requires 0 <= p < |before[n]| =>
        if p < |src| / NUM_TIMESLOTS then src[p * NUM_TIMESLOTS + n] else before[n][p]))
  }

  /** The two index maps of the source, (n, p) |-> p * NUM_TIMESLOTS + n and
    * i |-> (i % NUM_TIMESLOTS, i / NUM_TIMESLOTS), undo each other. */
  lemma StreamIndex(n: int, p: int)
    requires 0 <= n < NUM_TIMESLOTS && 0 <= p
    ensures (p * NUM_TIMESLOTS + n) % NUM_TIMESLOTS == n
    ensures (p * NUM_TIMESLOTS + n) / NUM_TIMESLOTS == p
  {
  }

  /** Demultiplexing loses nothing: multiplexing its channels gives the stream back. */
  lemma {:induction false} MultiplexDemultiplex(src: seq<byte>)
    requires |src| % NUM_TIMESLOTS == 0
    ensures Rectangular(Demultiplex(src), |src| / NUM_TIMESLOTS)
    ensures Multiplex(Demultiplex(src), |src| / NUM_TIMESLOTS) == src
  {
    var ch := Demultiplex(src);
    var s := Multiplex(ch, |src| / NUM_TIMESLOTS);
    forall i | 0 <= i < |src|
      ensures s[i] == src[i]
    {
      StreamIndex(i % NUM_TIMESLOTS, i / NUM_TIMESLOTS);
    }
  }

  /** And every rectangular set of channels is the demultiplexing of its multiplexing. */
  lemma {:induction false} DemultiplexMultiplex(ch: Channels, rows: nat)
    requires Rectangular(ch, rows)
    ensures Demultiplex(Multiplex(ch, rows)) == ch
  {
    var d := Demultiplex(Multiplex(ch, rows));
    forall n | 0 <= n < NUM_TIMESLOTS
      ensures d[n] == ch[n]
    {
      forall p | 0 <= p < rows
        ensures d[n][p] == ch[n][p]
      {
        StreamIndex(n, p);
      }
    }
  }

  /** The cursor form of the result: stream byte i lands in channel i % NUM_TIMESLOTS at
    * position i / NUM_TIMESLOTS, for every i in the whole rows. */
  lemma FillAtStreamIndex(before: Channels, src: seq<byte>, i: nat)
    requires |before| == NUM_TIMESLOTS
    requires forall n :: 0 <= n < NUM_TIMESLOTS ==> |src| / NUM_TIMESLOTS <= |before[n]|
    requires i < |src| / NUM_TIMESLOTS * NUM_TIMESLOTS
    ensures Fill(before, src)[i % NUM_TIMESLOTS][i / NUM_TIMESLOTS] == src[i]
  {
    StreamIndex(i % NUM_TIMESLOTS, i / NUM_TIMESLOTS);
  }

  /** When the buffers are exactly as long as the stream has rows, filling overwrites
    * everything: the result is the demultiplexing, whatever the buffers held. */
  lemma FillWhole(before: Channels, src: seq<byte>)
    requires |src| % NUM_TIMESLOTS == 0
    requires Rectangular(before, |src| / NUM_TIMESLOTS)
    ensures Fill(before, src) == Demultiplex(src)
  {
    var f, d := Fill(before, src), Demultiplex(src);
    forall n | 0 <= n < NUM_TIMESLOTS
      ensures f[n] == d[n]
    {
    }
  }

  /** Only whole rows are read: the trailing |src| % NUM_TIMESLOTS bytes do not matter. */
  lemma FillIgnoresTail(before: Channels, src: seq<byte>)
    requires |before| == NUM_TIMESLOTS
    requires forall n :: 0 <= n < NUM_TIMESLOTS ==> |src| / NUM_TIMESLOTS <= |before[n]|
    ensures Fill(before, src) == Fill(before, src[..|src| / NUM_TIMESLOTS * NUM_TIMESLOTS])
  {
    var whole := src[..|src| / NUM_TIMESLOTS * NUM_TIMESLOTS];
    assert |whole| / NUM_TIMESLOTS == |src| / NUM_TIMESLOTS;
    var f, g := Fill(before, src), Fill(before, whole);
    forall n | 0 <= n < NUM_TIMESLOTS
      ensures f[n] == g[n]
    {
    }
  }

  /** Multiples of F grow with the multiplier. */
  lemma {:induction false} MulMonotonic(a: nat, b: nat, F: nat)
    requires a <= b
    ensures a * F <= b * F
  {
    if a < b {
      MulMonotonic(a, b - 1, F);
      assert b * F == (b - 1) * F + F;
    }
  }

  /** When F divides NUM_TIMESLOTS, a multiple k * F below NUM_TIMESLOTS is at least F
    * below it: the step of F channels at k * F stays inside the buffer set. */
  lemma StepFits(k: nat, F: nat)
    requires 0 < F && NUM_TIMESLOTS % F == 0 && k * F < NUM_TIMESLOTS
    ensures (k + 1) * F <= NUM_TIMESLOTS
  {
    var b := NUM_TIMESLOTS / F;
    assert NUM_TIMESLOTS == b * F;
    if b <= k {
      MulMonotonic(b, k, F);
      assert false;
    }
    MulMonotonic(k + 1, b, F);
  }

  /** Channels [n0, n1) hold their source bytes at positions [p0, p1): the part of the
    * job a demultiplexer has finished. */
  ghost predicate Moved(src: seq<byte>, dst: seq<array<byte>>, n0: nat, n1: nat, p0: nat, p1: nat)
    requires ValidDst(dst)
    requires n0 <= n1 <= NUM_TIMESLOTS && p0 <= p1 <= DST_SIZE && p1 * NUM_TIMESLOTS <= |src|
    reads dst
  {
    forall n, p :: n0 <= n < n1 && p0 <= p < p1 ==> dst[n][p] == src[p * NUM_TIMESLOTS + n]
  }

  /** A buffer that holds its whole channel has all of it moved. */
  lemma ChannelMoved(src: seq<byte>, dst: seq<array<byte>>, n: nat)
    requires ValidDst(dst) && |src| == SRC_SIZE && n < NUM_TIMESLOTS
    requires dst[n][..] == Demultiplex(src)[n]
    ensures Moved(src, dst, n, n + 1, 0, DST_SIZE)
  {
    forall p | 0 <= p < DST_SIZE
      ensures dst[n][p] == src[p * NUM_TIMESLOTS + n]
    {
      assert dst[n][p] == dst[n][..][p];
    }
  }

  // Bridges from the element-wise facts that loops establish to the contents.

  /** Every byte of every buffer holds its source byte: the buffers hold the demultiplexing. */
  lemma ContentsDemultiplexed(dst: seq<array<byte>>, src: seq<byte>)
    requires ValidDst(dst) && |src| == SRC_SIZE
    requires forall n, p :: 0 <= n < NUM_TIMESLOTS && 0 <= p < DST_SIZE ==> dst[n][p] == src[p * NUM_TIMESLOTS + n]
    ensures Contents(dst) == Demultiplex(src)
  {
    var c, d := Contents(dst), Demultiplex(src);
    forall n | 0 <= n < NUM_TIMESLOTS
      ensures c[n] == d[n]
    {
    }
  }

  /** The whole rows of the buffers hold their source bytes and the rest kept `before`. */
  lemma ContentsFilled(dst: seq<array<byte>>, before: Channels, src: seq<byte>)
    requires ValidDst(dst) && Rectangular(before, DST_SIZE) && |src| / NUM_TIMESLOTS <= DST_SIZE
    requires forall n, p :: 0 <= n < NUM_TIMESLOTS && 0 <= p < DST_SIZE ==>
      dst[n][p] == if p < |src| / NUM_TIMESLOTS then src[p * NUM_TIMESLOTS + n] else before[n][p]
    ensures Contents(dst) == Fill(before, src)
  {
    var c, f := Contents(dst), Fill(before, src);
    forall n | 0 <= n < NUM_TIMESLOTS
      ensures c[n] == f[n]
    {
    }
  }
}
