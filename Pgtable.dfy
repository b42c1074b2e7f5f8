/** Page-table entry, PMD and swap-entry encoders of the RISC-V page-table header,
    for a 64-bit machine (XLEN = 64).  Entries are plain 64-bit words.

    The flag masks come from a bit-assignment header that is not part of this
    model.  The single-bit flags are therefore given by a `Layout`, an abstract
    record of their bit positions, constrained only by what the visible code relies
    on: each flag is one bit, the flags are pairwise distinct, the present flag
    is bit 0, as the swap-entry format comment states, and every flag sits below
    bit 32, since pte_write, pte_dirty, pte_young and pte_special return the
    masked entry as an int.  The multi-bit masks
    (_PAGE_CHG_MASK and the type field) are parameters of the functions that use
    them. */
module Pgtable {

  const PAGE_SHIFT: bv64 := 12
  /** PAGE_SIZE / sizeof(pgd_t) and PAGE_SIZE / sizeof(pte_t), with 8-byte entries. */
  const PTRS_PER_PGD: bv64 := 512
  const PTRS_PER_PTE: bv64 := 512

  /** Position of the physical page number in an entry: bit 10, where the RISC-V
      privileged architecture's page-table entry format places the PPN. */
  const PAGE_PFN_SHIFT: bv64 := 10

  const SWP_TYPE_SHIFT: bv64 := 2
  const SWP_TYPE_BITS: bv64 := 5
  const SWP_TYPE_MASK: bv64 := 31
  const SWP_OFFSET_SHIFT: bv64 := 7

  /** Bit positions of the single-bit flags and the PGD index shift. */
  datatype Layout = Layout(
    presentBit: nat, writeBit: nat, dirtyBit: nat, accessedBit: nat, specialBit: nat,
    pgdirShift: nat)
  {
    predicate Valid() {
      && presentBit == 0
      && writeBit < 32 && dirtyBit < 32 && accessedBit < 32 && specialBit < 32
      && writeBit != presentBit && dirtyBit != presentBit
      && accessedBit != presentBit && specialBit != presentBit
      && writeBit != dirtyBit && writeBit != accessedBit && writeBit != specialBit
      && dirtyBit != accessedBit && dirtyBit != specialBit && accessedBit != specialBit
      && pgdirShift < 64
    }

    function Present(): bv64 requires Valid() { 1 << presentBit }
    function Write(): bv64 requires Valid() { 1 << writeBit }
    function Dirty(): bv64 requires Valid() { 1 << dirtyBit }
    function Accessed(): bv64 requires Valid() { 1 << accessedBit }
    function Special(): bv64 requires Valid() { 1 << specialBit }
  }

  lemma BitIsNonzero(k: nat)
    requires k < 64
    ensures (1 as bv64) << k != 0
  {
  }

  /** Setting a nonzero mask makes it visible and leaves every other bit alone. */
  lemma SetMaskBits(m: bv64, x: bv64)
    requires m != 0
    ensures (x | m) & m != 0
    ensures (x | m) & !m == x & !m
  {
  }

  /** Clearing a mask hides it and leaves every other bit alone. */
  lemma ClearMaskBits(m: bv64, x: bv64)
    ensures (x & !m) & m == 0
    ensures (x & !m) & !m == x & !m
  {
  }

  lemma KeepMaskBits(m: bv64, x: bv64, y: bv64)
    ensures ((x & m) | y) & m == (x & m) | (y & m)
    ensures ((x & m) | y) & !m == y & !m
  {
  }

  // ---------------------------------------------------------------- PMD entries

  predicate PmdPresent(L: Layout, pmd: bv64)
    requires L.Valid()
  {
    pmd & L.Present() != 0
  }

  predicate PmdNone(pmd: bv64) {
    pmd == 0
  }

  predicate PmdBad(L: Layout, pmd: bv64)
    requires L.Valid()
  {
    !PmdPresent(L, pmd)
  }

  /** set_pmd: the slot's new content is the given entry, whatever it held. */
  function SetPmd(slot: bv64, pmd: bv64): bv64 {
    pmd
  }

  /** pmd_clear: stores the zero entry. */
  function PmdClear(slot: bv64): bv64 {
    SetPmd(slot, 0)
  }

  // ---------------------------------------------------------------- PTE queries

  predicate PtePresent(L: Layout, pte: bv64)
    requires L.Valid()
  {
    pte & L.Present() != 0
  }

  predicate PteNone(pte: bv64) {
    pte == 0
  }

  predicate PteWrite(L: Layout, pte: bv64)
    requires L.Valid()
  {
    pte & L.Write() != 0
  }

  predicate PteDirty(L: Layout, pte: bv64)
    requires L.Valid()
  {
    pte & L.Dirty() != 0
  }

  predicate PteYoung(L: Layout, pte: bv64)
    requires L.Valid()
  {
    pte & L.Accessed() != 0
  }

  predicate PteSpecial(L: Layout, pte: bv64)
    requires L.Valid()
  {
    pte & L.Special() != 0
  }

  /** pte_huge, with the type-field mask and its two page-table codes as parameters. */
  predicate PteHuge(L: Layout, typeMask: bv64, typeTable: bv64, typeTableG: bv64, pte: bv64)
    requires L.Valid()
  {
    PtePresent(L, pte)
    && !(pte & typeMask == typeTable || pte & typeMask == typeTableG)
  }

  // ---------------------------------------------------------------- PTE updates

  function PteWrprotect(L: Layout, pte: bv64): bv64
    requires L.Valid()
  {
    pte & !L.Write()
  }

  function PteMkwrite(L: Layout, pte: bv64): bv64
    requires L.Valid()
  {
    pte | L.Write()
  }

  function PteMkdirty(L: Layout, pte: bv64): bv64
    requires L.Valid()
  {
    pte | L.Dirty()
  }

  function PteMkclean(L: Layout, pte: bv64): bv64
    requires L.Valid()
  {
    pte & !L.Dirty()
  }

  /** As written, pte_mkyoung CLEARS the accessed bit. */
  function PteMkyoung(L: Layout, pte: bv64): bv64
    requires L.Valid()
  {
    pte & !L.Accessed()
  }

  /** As written, pte_mkold SETS the accessed bit. */
  function PteMkold(L: Layout, pte: bv64): bv64
    requires L.Valid()
  {
    pte | L.Accessed()
  }

  /** The evidently intended pte_mkyoung: it sets the accessed bit. */
  function PteMkyoungIntended(L: Layout, pte: bv64): bv64
    requires L.Valid()
  {
    pte | L.Accessed()
  }

  /** The evidently intended pte_mkold: it clears the accessed bit. */
  function PteMkoldIntended(L: Layout, pte: bv64): bv64
    requires L.Valid()
  {
    pte & !L.Accessed()
  }

  function PteMkspecial(L: Layout, pte: bv64): bv64
    requires L.Valid()
  {
    pte | L.Special()
  }

  /** pte_modify, with _PAGE_CHG_MASK as a parameter. */
  function PteModify(chgMask: bv64, pte: bv64, newprot: bv64): bv64 {
    (pte & chgMask) | newprot
  }

  /** pte_mkwrite makes an entry writable and touches no other bit. */
  lemma MkwriteSetsWrite(L: Layout, pte: bv64)
    requires L.Valid()
    ensures PteWrite(L, PteMkwrite(L, pte))
    ensures PteMkwrite(L, pte) & !L.Write() == pte & !L.Write()
  {
    BitIsNonzero(L.writeBit);
    SetMaskBits(L.Write(), pte);
  }

  /** pte_wrprotect makes an entry read-only and touches no other bit. */
  lemma WrprotectClearsWrite(L: Layout, pte: bv64)
    requires L.Valid()
    ensures !PteWrite(L, PteWrprotect(L, pte))
    ensures PteWrprotect(L, pte) & !L.Write() == pte & !L.Write()
  {
    ClearMaskBits(L.Write(), pte);
  }

  /** pte_mkdirty makes an entry dirty and touches no other bit. */
  lemma MkdirtySetsDirty(L: Layout, pte: bv64)
    requires L.Valid()
    ensures PteDirty(L, PteMkdirty(L, pte))
    ensures PteMkdirty(L, pte) & !L.Dirty() == pte & !L.Dirty()
  {
    BitIsNonzero(L.dirtyBit);
    SetMaskBits(L.Dirty(), pte);
  }

  /** pte_mkclean makes an entry clean and touches no other bit. */
  lemma MkcleanClearsDirty(L: Layout, pte: bv64)
    requires L.Valid()
    ensures !PteDirty(L, PteMkclean(L, pte))
    ensures PteMkclean(L, pte) & !L.Dirty() == pte & !L.Dirty()
  {
    ClearMaskBits(L.Dirty(), pte);
  }

  /** As written, pte_mkyoung yields an entry that is NOT young; only the accessed
      bit changes. */
  lemma MkyoungClearsAccessed(L: Layout, pte: bv64)
    requires L.Valid()
    ensures !PteYoung(L, PteMkyoung(L, pte))
    ensures PteMkyoung(L, pte) & !L.Accessed() == pte & !L.Accessed()
  {
    ClearMaskBits(L.Accessed(), pte);
  }

  /** As written, pte_mkold yields an entry that IS young; only the accessed bit
      changes. */
  lemma MkoldSetsAccessed(L: Layout, pte: bv64)
    requires L.Valid()
    ensures PteYoung(L, PteMkold(L, pte))
    ensures PteMkold(L, pte) & !L.Accessed() == pte & !L.Accessed()
  {
    BitIsNonzero(L.accessedBit);
    SetMaskBits(L.Accessed(), pte);
  }

  /** The intended pte_mkyoung makes an entry young, touches no other bit, and is
      what the as-written pte_mkold computes. */
  lemma MkyoungIntendedSetsAccessed(L: Layout, pte: bv64)
    requires L.Valid()
    ensures PteYoung(L, PteMkyoungIntended(L, pte))
    ensures PteMkyoungIntended(L, pte) & !L.Accessed() == pte & !L.Accessed()
    ensures PteMkyoungIntended(L, pte) == PteMkold(L, pte)
  {
    BitIsNonzero(L.accessedBit);
    SetMaskBits(L.Accessed(), pte);
  }

  /** The intended pte_mkold makes an entry old, touches no other bit, and is what
      the as-written pte_mkyoung computes. */
  lemma MkoldIntendedClearsAccessed(L: Layout, pte: bv64)
    requires L.Valid()
    ensures !PteYoung(L, PteMkoldIntended(L, pte))
    ensures PteMkoldIntended(L, pte) & !L.Accessed() == pte & !L.Accessed()
    ensures PteMkoldIntended(L, pte) == PteMkyoung(L, pte)
  {
    ClearMaskBits(L.Accessed(), pte);
  }

  lemma MkspecialSetsSpecial(L: Layout, pte: bv64)
    requires L.Valid()
    ensures PteSpecial(L, PteMkspecial(L, pte))
    ensures PteMkspecial(L, pte) & !L.Special() == pte & !L.Special()
  {
    BitIsNonzero(L.specialBit);
    SetMaskBits(L.Special(), pte);
  }

  /** pte_modify keeps the _PAGE_CHG_MASK bits of the old entry (or-ed with any the
      new protection carries there) and takes every other bit from the protection. */
  lemma ModifyKeepsChangeMask(chgMask: bv64, pte: bv64, newprot: bv64)
    ensures PteModify(chgMask, pte, newprot) & chgMask == (pte & chgMask) | (newprot & chgMask)
    ensures PteModify(chgMask, pte, newprot) & !chgMask == newprot & !chgMask
  {
    KeepMaskBits(chgMask, pte, newprot);
  }

  // ---------------------------------------------------------------- PFN fields

  function PtePfn(pte: bv64): bv64 {
    pte >> PAGE_PFN_SHIFT
  }

  function PfnPte(pfn: bv64, prot: bv64): bv64 {
    (pfn << PAGE_PFN_SHIFT) | prot
  }

  lemma PfnFieldBits(pfn: bv64, prot: bv64)
    requires prot < 0x400 && pfn < 0x40_0000_0000_0000
    ensures ((pfn << 10) | prot) >> 10 == pfn
    ensures ((pfn << 10) | prot) & 0x3FF == prot
  {
  }

  /** pfn_pte and pte_pfn are inverse when the PFN fits above bit 10 and the
      protection fits below it; the protection is recovered too. */
  lemma PfnRoundTrip(pfn: bv64, prot: bv64)
    requires prot < 0x400
    requires pfn < 0x40_0000_0000_0000
    ensures PtePfn(PfnPte(pfn, prot)) == pfn
    ensures PfnPte(pfn, prot) & 0x3FF == prot
  {
    PfnFieldBits(pfn, prot);
  }

  // ---------------------------------------------------------------- indices

  function PgdIndex(L: Layout, addr: bv64): bv64
    requires L.Valid()
  {
    (addr >> L.pgdirShift) & (PTRS_PER_PGD - 1)
  }

  function PteIndex(addr: bv64): bv64 {
    (addr >> PAGE_SHIFT) & (PTRS_PER_PTE - 1)
  }

  lemma IndexFieldBits(x: bv64)
    ensures x & 511 < 512
  {
  }

  /** Both table indices select an entry inside their table. */
  lemma IndicesInRange(L: Layout, addr: bv64)
    requires L.Valid()
    ensures PgdIndex(L, addr) < PTRS_PER_PGD
    ensures PteIndex(addr) < PTRS_PER_PTE
  {
    IndexFieldBits(addr >> L.pgdirShift);
    IndexFieldBits(addr >> PAGE_SHIFT);
  }

  // ---------------------------------------------------------------- entry stores

  function SetPte(slot: bv64, pteval: bv64): bv64 {
    pteval
  }

  function SetPteAt(slot: bv64, addr: bv64, pteval: bv64): bv64 {
    SetPte(slot, pteval)
  }

  function PteClear(slot: bv64, addr: bv64): bv64 {
    SetPteAt(slot, addr, 0)
  }

  /** The stores overwrite the slot; a cleared PMD is none and bad, a cleared PTE is
      none and not present. */
  lemma StoresReplaceEntry(L: Layout, slot: bv64, addr: bv64, v: bv64)
    requires L.Valid()
    ensures SetPmd(slot, v) == v && SetPte(slot, v) == v && SetPteAt(slot, addr, v) == v
    ensures PmdNone(PmdClear(slot)) && PmdBad(L, PmdClear(slot)) && !PmdPresent(L, PmdClear(slot))
    ensures PteNone(PteClear(slot, addr)) && !PtePresent(L, PteClear(slot, addr))
  {
  }

  // ---------------------------------------------------------------- swap entries

  function SwpEntry(swpType: bv64, offset: bv64): bv64 {
    (swpType << SWP_TYPE_SHIFT) | (offset << SWP_OFFSET_SHIFT)
  }

  function SwpType(x: bv64): bv64 {
    (x >> SWP_TYPE_SHIFT) & SWP_TYPE_MASK
  }

  function SwpOffset(x: bv64): bv64 {
    x >> SWP_OFFSET_SHIFT
  }

  /** __swp_entry_to_pte and __pte_to_swp_entry reinterpret the word unchanged. */
  function SwpEntryToPte(x: bv64): bv64 { x }
  function PteToSwpEntry(pte: bv64): bv64 { pte }

  lemma SwpFieldBits(t: bv64, o: bv64)
    ensures (((t << 2) | (o << 7)) & 1) == 0
    ensures (((t << 2) | (o << 7)) & 3) == 0
    ensures t < 32 ==> (((t << 2) | (o << 7)) >> 2) & 31 == t
    ensures t < 32 && o < 0x200_0000_0000_0000 ==> ((t << 2) | (o << 7)) >> 7 == o
  {
  }

  /** The type is recovered from any entry whose type fits in 5 bits. */
  lemma SwpTypeRoundTrip(swpType: bv64, offset: bv64)
    requires swpType <= SWP_TYPE_MASK
    ensures SwpType(PteToSwpEntry(SwpEntryToPte(SwpEntry(swpType, offset)))) == swpType
  {
    SwpFieldBits(swpType, offset);
  }

  /** The offset is recovered whenever it fits above bit 7 and the type fits in 5 bits. */
  lemma SwpOffsetRoundTrip(swpType: bv64, offset: bv64)
    requires swpType <= SWP_TYPE_MASK
    requires offset < 0x200_0000_0000_0000
    ensures SwpOffset(PteToSwpEntry(SwpEntryToPte(SwpEntry(swpType, offset)))) == offset
  {
    SwpFieldBits(swpType, offset);
  }

  /** Bits 0 and 1 of every swap entry are clear, so a swap PTE is never present. */
  lemma SwpEntryNotPresent(L: Layout, swpType: bv64, offset: bv64)
    requires L.Valid()
    ensures SwpEntry(swpType, offset) & 3 == 0
    ensures !PtePresent(L, SwpEntryToPte(SwpEntry(swpType, offset)))
  {
    SwpFieldBits(swpType, offset);
  }
}
