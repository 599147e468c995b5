/** Scalar facts about one 32-bit word: the bit view, the five stage masks
    and the masked merge that swaps k-bit blocks between two words. */
module Words {

  /** Bit `p` of `w`, counting from the least significant bit (p = 0). */
  predicate Bit(w: bv32, p: bv5) {
    w & (1 << p) != 0
  }

  /** Helper for `BitsDetermineWord`: the 32 positions spelled out, so the
      solver compares the words without a quantifier in scope. */
  lemma BitsDetermineWordExplicit(a: bv32, b: bv32)
    requires Bit(a, 0) == Bit(b, 0) && Bit(a, 1) == Bit(b, 1) && Bit(a, 2) == Bit(b, 2) && Bit(a, 3) == Bit(b, 3)
    requires Bit(a, 4) == Bit(b, 4) && Bit(a, 5) == Bit(b, 5) && Bit(a, 6) == Bit(b, 6) && Bit(a, 7) == Bit(b, 7)
    requires Bit(a, 8) == Bit(b, 8) && Bit(a, 9) == Bit(b, 9) && Bit(a, 10) == Bit(b, 10) && Bit(a, 11) == Bit(b, 11)
    requires Bit(a, 12) == Bit(b, 12) && Bit(a, 13) == Bit(b, 13) && Bit(a, 14) == Bit(b, 14) && Bit(a, 15) == Bit(b, 15)
    requires Bit(a, 16) == Bit(b, 16) && Bit(a, 17) == Bit(b, 17) && Bit(a, 18) == Bit(b, 18) && Bit(a, 19) == Bit(b, 19)
    requires Bit(a, 20) == Bit(b, 20) && Bit(a, 21) == Bit(b, 21) && Bit(a, 22) == Bit(b, 22) && Bit(a, 23) == Bit(b, 23)
    requires Bit(a, 24) == Bit(b, 24) && Bit(a, 25) == Bit(b, 25) && Bit(a, 26) == Bit(b, 26) && Bit(a, 27) == Bit(b, 27)
    requires Bit(a, 28) == Bit(b, 28) && Bit(a, 29) == Bit(b, 29) && Bit(a, 30) == Bit(b, 30) && Bit(a, 31) == Bit(b, 31)
    ensures a == b
  {
  }

  /** A word is determined by its 32 bits. */
  lemma BitsDetermineWord(a: bv32, b: bv32)
    requires forall p: bv5 :: Bit(a, p) == Bit(b, p)
    ensures a == b
  {
    BitsDetermineWordExplicit(a, b);
  }

  /** Bit p of an exclusive or is set exactly when the two words differ
      there. */
  lemma XorBit(a: bv32, b: bv32, p: bv5)
    ensures Bit(a ^ b, p) == (Bit(a, p) != Bit(b, p))
  {
  }

  /** The block sizes of the five stages. */
  predicate IsShift(k: bv5) {
    k == 16 || k == 8 || k == 4 || k == 2 || k == 1
  }

  /** The mask paired with shift `k` (`MASK_16` … `MASK_1`). */
  function Mask(k: bv5): bv32
    requires IsShift(k)
  {
    if k == 16 then 0xFFFF0000
    else if k == 8 then 0xFF00FF00
    else if k == 4 then 0xF0F0F0F0
    else if k == 2 then 0xCCCCCCCC
    else 0xAAAAAAAA
  }

  /** Each mask is alternating runs of k set and k clear bits, starting with
      a set run at the most significant bit: bit p is set exactly when bit k
      of p is set. */
  lemma MaskShape(k: bv5, p: bv5)
    requires IsShift(k)
    ensures Bit(Mask(k), p) <==> p & k != 0
    ensures Bit(Mask(k), 31) && !Bit(Mask(k), 0)
  {
  }

  /** Shifting by k turns the mask into its complement and back. */
  lemma MaskShift(k: bv5)
    requires IsShift(k)
    ensures Mask(k) >> k == !Mask(k)
    ensures !Mask(k) << k == Mask(k)
  {
  }

  /** One lane of a stage's new hi word: its own bits under `mask`, and the
      lo word's masked bits moved down by `k`. */
  function MergeHi(hi: bv32, lo: bv32, mask: bv32, k: bv5): bv32 {
    (hi & mask) | ((lo & mask) >> k)
  }

  /** One lane of a stage's new lo word: its own bits outside `mask`, and the
      hi word's unmasked bits moved up by `k`. */
  function MergeLo(hi: bv32, lo: bv32, mask: bv32, k: bv5): bv32 {
    (lo & !mask) | ((hi & !mask) << k)
  }

  /** One lane of the stage-16 hi word as the source writes it: `lo` is
      shifted without being masked first. */
  function MergeHi16(hi: bv32, lo: bv32): bv32 {
    (hi & 0xFFFF0000) | (lo >> 16)
  }

  /** One lane of the stage-16 lo word as the source writes it: `hi` is
      shifted without being masked first (0x0000FFFF is `!MASK_16`). */
  function MergeLo16(hi: bv32, lo: bv32): bv32 {
    (lo & 0x0000FFFF) | (hi << 16)
  }

  /** A logical right shift by 16 drops exactly the bits that clearing the
      low half first would clear. */
  lemma ShrDropsUnmasked(lo: bv32)
    ensures lo >> 16 == (lo & 0xFFFF0000) >> 16
  {
  }

  /** A left shift by 16 drops exactly the bits that clearing the high half
      first would clear. */
  lemma ShlDropsMasked(hi: bv32)
    ensures hi << 16 == (hi & 0x0000FFFF) << 16
  {
  }

  /** Leaving out the pre-mask of `lo` at stage 16 changes nothing. */
  lemma Stage16HiUnmasked(hi: bv32, lo: bv32)
    ensures MergeHi16(hi, lo) == MergeHi(hi, lo, 0xFFFF0000, 16)
  {
  }

  /** Leaving out the pre-mask of `hi` at stage 16 changes nothing. */
  lemma Stage16LoUnmasked(hi: bv32, lo: bv32)
    ensures MergeLo16(hi, lo) == MergeLo(hi, lo, 0xFFFF0000, 16)
  {
  }

  /** The hi word keeps its own bits under the mask and the lo word keeps its
      own bits outside it; every other bit of the pair comes from the partner. */
  lemma MergeKeepsOwnBits(hi: bv32, lo: bv32, k: bv5)
    requires IsShift(k)
    ensures MergeHi(hi, lo, Mask(k), k) & Mask(k) == hi & Mask(k)
    ensures MergeLo(hi, lo, Mask(k), k) & !Mask(k) == lo & !Mask(k)
    ensures MergeHi(hi, lo, Mask(k), k) & !Mask(k) == (lo & Mask(k)) >> k
    ensures MergeLo(hi, lo, Mask(k), k) & Mask(k) == (hi & !Mask(k)) << k
  {
  }

  /** Applying the same merge twice to a pair gives back the pair. */
  lemma MergeInvolutive(hi: bv32, lo: bv32, k: bv5)
    requires IsShift(k)
    ensures MergeHi(MergeHi(hi, lo, Mask(k), k), MergeLo(hi, lo, Mask(k), k), Mask(k), k) == hi
    ensures MergeLo(MergeHi(hi, lo, Mask(k), k), MergeLo(hi, lo, Mask(k), k), Mask(k), k) == lo
  {
  }
}
