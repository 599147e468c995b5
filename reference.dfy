/** What the transpose means, and the scalar algorithm it vectorises: the
    recursive block-swap transpose of Hacker's Delight, section 7-3. */
module Reference {
  import opened Words

  /** A 32×32 bit matrix (`[u32; 32]`): row i is word i. */
  type Matrix = m: seq<bv32> | |m| == 32 witness seq(32, _ => 0)

  /** Entry (r, c) of a matrix. Column c of a row is stored at bit 31 - c,
      so column 0 is the most significant bit. */
  predicate Entry(m: Matrix, r: bv5, c: bv5) {
    Bit(m[r], 31 - c)
  }

  /** `t` is the transpose of `m`. */
  ghost predicate IsTransposeOf(t: Matrix, m: Matrix) {
    forall r: bv5, c: bv5 :: Entry(t, r, c) == Entry(m, c, r)
  }

  /** Row r after one stage of the scalar algorithm at block size k: rows r
      and r ^ k form a pair, and the upper row of the pair (bit k of r
      clear) takes the hi merge, the lower one the lo merge. */
  function StageRow(s: Matrix, k: bv5, r: bv5): bv32
    requires IsShift(k)
  {
    if r & k == 0 then MergeHi(s[r], s[r ^ k], Mask(k), k)
    else MergeLo(s[r ^ k], s[r], Mask(k), k)
  }

  /** One stage of the scalar algorithm at block size k: each row whose bit
      k is clear swaps k-bit blocks with the row k below it. */
  function BlockSwap(s: Matrix, k: bv5): Matrix
    requires IsShift(k)
  {
    seq(32, i requires 0 <= i < 32 => StageRow(s, k, i as bv5))
  }

  /** Row r of a stage's result is `StageRow` at r. */
  lemma BlockSwapAt(s: Matrix, k: bv5, r: bv5)
    requires IsShift(k)
    ensures BlockSwap(s, k)[r] == StageRow(s, k, r)
  {
  }

  /** Where entry (r, c) comes from after a stage at block size k: when bit
      k of the row and bit k of the column differ, from the entry with bit k
      flipped in both; otherwise from the same place. */
  function Source(r: bv5, c: bv5, k: bv5): (bv5, bv5) {
    if (r & k == 0) != (c & k == 0) then (r ^ k, c ^ k) else (r, c)
  }

  /** Column by column, the hi merge keeps hi's entry in the columns c whose
      bit k is clear and takes lo's column c - k in the others (the right
      shift moves lo's columns k places towards column 31). */
  lemma MergeHiColumn(hi: bv32, lo: bv32, k: bv5, c: bv5)
    requires IsShift(k)
    ensures Bit(MergeHi(hi, lo, Mask(k), k), 31 - c) == if c & k == 0 then Bit(hi, 31 - c) else Bit(lo, 31 - (c ^ k))
  {
    if k == 16 {} else if k == 8 {} else if k == 4 {} else if k == 2 {} else {}
  }

  /** Column by column, the lo merge keeps lo's entry in the columns c whose
      bit k is set and takes hi's column c + k in the others (the left shift
      moves hi's columns k places towards column 0). */
  lemma MergeLoColumn(hi: bv32, lo: bv32, k: bv5, c: bv5)
    requires IsShift(k)
    ensures Bit(MergeLo(hi, lo, Mask(k), k), 31 - c) == if c & k != 0 then Bit(lo, 31 - c) else Bit(hi, 31 - (c ^ k))
  {
    if k == 16 {} else if k == 8 {} else if k == 4 {} else if k == 2 {} else {}
  }

  /** A stage of the scalar algorithm swaps entry (r, c) with entry
      (r ^ k, c ^ k) when bit k of the row and of the column differ, and
      leaves it in place otherwise. */
  lemma BlockSwapEntry(s: Matrix, k: bv5, r: bv5, c: bv5)
    requires IsShift(k)
    ensures (r & k == 0) != (c & k == 0) ==> Entry(BlockSwap(s, k), r, c) == Entry(s, r ^ k, c ^ k)
    ensures (r & k == 0) == (c & k == 0) ==> Entry(BlockSwap(s, k), r, c) == Entry(s, r, c)
  {
    BlockSwapAt(s, k, r);
    if r & k == 0 {
      MergeHiColumn(s[r], s[r ^ k], k, c);
    } else {
      MergeLoColumn(s[r ^ k], s[r], k, c);
    }
  }

  /** The same, stated through `Source`. */
  lemma BlockSwapSource(s: Matrix, k: bv5, r: bv5, c: bv5)
    requires IsShift(k)
    ensures Entry(BlockSwap(s, k), r, c) == Entry(s, Source(r, c, k).0, Source(r, c, k).1)
  {
    BlockSwapEntry(s, k, r, c);
    var (r', c') := Source(r, c, k);
    if (r & k == 0) != (c & k == 0) {
      assert r' == r ^ k && c' == c ^ k;
    } else {
      assert r' == r && c' == c;
    }
  }

  /** The five stages in the order they run. */
  function ScalarTranspose(m: Matrix): Matrix {
    BlockSwap(BlockSwap(BlockSwap(BlockSwap(BlockSwap(m, 16), 8), 4), 2), 1)
  }

  /** Tracing an entry back through the five stages lands on the mirrored
      entry: each stage settles one bit of the row and column indices. */
  lemma SourcesSwapIndices(r: bv5, c: bv5)
    ensures
      var (r2, c2) := Source(r, c, 1);
      var (r4, c4) := Source(r2, c2, 2);
      var (r8, c8) := Source(r4, c4, 4);
      var (r16, c16) := Source(r8, c8, 8);
      Source(r16, c16, 16) == (c, r)
  {
  }

  /** The scalar algorithm transposes. */
  lemma ScalarTransposeIsTranspose(m: Matrix)
    ensures IsTransposeOf(ScalarTranspose(m), m)
  {
    var s16 := BlockSwap(m, 16);
    var s8 := BlockSwap(s16, 8);
    var s4 := BlockSwap(s8, 4);
    var s2 := BlockSwap(s4, 2);
    forall r: bv5, c: bv5 ensures Entry(ScalarTranspose(m), r, c) == Entry(m, c, r) {
      var (r2, c2) := Source(r, c, 1);
      var (r4, c4) := Source(r2, c2, 2);
      var (r8, c8) := Source(r4, c4, 4);
      var (r16, c16) := Source(r8, c8, 8);
      BlockSwapSource(s2, 1, r, c);
      BlockSwapSource(s4, 2, r2, c2);
      BlockSwapSource(s8, 4, r4, c4);
      BlockSwapSource(s16, 8, r8, c8);
      BlockSwapSource(m, 16, r16, c16);
      SourcesSwapIndices(r, c);
    }
  }
}
