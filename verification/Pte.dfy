/** The frame number in a page table entry: written by `pte_set_fpn` (src/mm.c), read by `PAGING_FPN` (include/mm.h). */
module Pte {

  /** `pte_set_fpn`: present, not swapped, the frame number in bits 0 to 12. */
  function SetFpn(pte: bv32, fpn: bv32): bv32 {
    (((pte | 0x8000_0000) & 0xBFFF_FFFF) & 0xFFFF_E000) | (fpn & 0x1FFF)
  }

  /** `PAGING_FPN`: the field between the bits for a page of 256 bytes and a RAM size of 1024, bits 8 and 9. */
  function PagingFpn(pte: bv32): bv32 {
    (pte & 0x300) >> 8
  }

  /** `PAGING_PAGE_PRESENT`. */
  predicate Present(pte: bv32) {
    pte & 0x8000_0000 != 0
  }

  /** Writing sets the present bit, clears the swapped bit, puts the 13 low bits of the number into the low bits of
      the entry and keeps all others. */
  lemma WhatIsWritten(pte: bv32, fpn: bv32)
    ensures Present(SetFpn(pte, fpn)) && SetFpn(pte, fpn) & 0x4000_0000 == 0
    ensures SetFpn(pte, fpn) & 0x1FFF == fpn & 0x1FFF
    ensures SetFpn(pte, fpn) & 0x3FFF_E000 == pte & 0x3FFF_E000
  {
  }

  /** The reader returns two bits of the number that was written, whatever the entry held before. */
  lemma WhatIsReadBack(pte: bv32, fpn: bv32)
    ensures Present(SetFpn(pte, fpn))
    ensures PagingFpn(SetFpn(pte, fpn)) == (fpn >> 8) & 3
  {
    var w := SetFpn(pte, fpn);
    assert w & 0x300 == fpn & 0x300;
    assert (fpn & 0x300) >> 8 == (fpn >> 8) & 3;
  }

  /** So a frame number survives the round trip through an entry if and only if it is zero. */
  lemma RoundTripIff(pte: bv32, fpn: bv32)
    ensures PagingFpn(SetFpn(pte, fpn)) == fpn <==> fpn == 0
  {
    WhatIsReadBack(pte, fpn);
    if (fpn >> 8) & 3 == fpn {
      assert fpn <= 3;
      assert fpn >> 8 == 0;
    }
  }
}
