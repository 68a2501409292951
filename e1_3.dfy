/** e1-3.cpp: six copies of the unchecked Dst_First_1, instances of a template whose
  * parameter N is not used. */
module E1Copies {
  import opened Tdm
  import E1Simplified

  /** Dst_First_1<N>: every instance runs the loops of the unchecked Dst_First_1, so its
    * result does not depend on N. */
  method DstFirst1(src: seq<byte>, dst: seq<array<byte>>, N: int)
    requires |src| / NUM_TIMESLOTS <= DST_SIZE
    requires ValidDst(dst)
    modifies dst
    ensures Contents(dst) == Fill(old(Contents(dst)), src)
  {
    E1Simplified.DstFirst1(src, dst);
  }
}
