/** The vectorised transpose itself: the 32 rows are split into two
    sixteen-lane vectors, five mask/shift stages swap blocks between the
    words that share a lane (with swizzles in between that bring each row
    pair into one lane), and a final swizzle restores row order before the
    two vectors are written back. */
module Pipeline {
  import opened Words
  import opened Lanes
  import opened Reference

  // The stage constants, under their names in the source. Every shift
  // amount is below 32, so it is held as a `bv5`.
  const MASK_8: bv32 := 0xFF00FF00
  const MASK_4: bv32 := 0xF0F0F0F0
  const MASK_2: bv32 := 0xCCCCCCCC
  const MASK_1: bv32 := 0xAAAAAAAA
  const SHIFT_8: bv5 := 8
  const SHIFT_4: bv5 := 4
  const SHIFT_2: bv5 := 2
  const SHIFT_1: bv5 := 1

  const SWIZZLE_8_HI: Table := [0, 1, 2, 3, 4, 5, 6, 7, 16, 17, 18, 19, 20, 21, 22, 23]
  const SWIZZLE_8_LO: Table := [8, 9, 10, 11, 12, 13, 14, 15, 24, 25, 26, 27, 28, 29, 30, 31]
  const SWIZZLE_4_HI: Table := [0, 1, 2, 3, 16, 17, 18, 19, 8, 9, 10, 11, 24, 25, 26, 27]
  const SWIZZLE_4_LO: Table := [4, 5, 6, 7, 20, 21, 22, 23, 12, 13, 14, 15, 28, 29, 30, 31]
  const SWIZZLE_2_HI: Table := [0, 1, 16, 17, 4, 5, 20, 21, 8, 9, 24, 25, 12, 13, 28, 29]
  const SWIZZLE_2_LO: Table := [2, 3, 18, 19, 6, 7, 22, 23, 10, 11, 26, 27, 14, 15, 30, 31]
  const SWIZZLE_1_HI: Table := [0, 16, 2, 18, 4, 20, 6, 22, 8, 24, 10, 26, 12, 28, 14, 30]
  const SWIZZLE_1_LO: Table := [1, 17, 3, 19, 5, 21, 7, 23, 9, 25, 11, 27, 13, 29, 15, 31]
  const SWIZZLE_F_HI: Table := [0, 16, 1, 17, 2, 18, 3, 19, 4, 20, 5, 21, 6, 22, 7, 23]
  const SWIZZLE_F_LO: Table := [8, 24, 9, 25, 10, 26, 11, 27, 12, 28, 13, 29, 14, 30, 15, 31]

  /** The masks and shifts of the source are the five stage masks. */
  lemma StageConstants()
    ensures MASK_8 == Mask(SHIFT_8) && MASK_4 == Mask(SHIFT_4)
    ensures MASK_2 == Mask(SHIFT_2) && MASK_1 == Mask(SHIFT_1)
  {
  }

  /** One of the stages k = 8, 4, 2, 1: two swizzles bring each row pair
      into one lane of a hi prep and a lo prep vector, and the merge swaps
      their k-bit blocks. */
  function Stage(hi: Vec, lo: Vec, swHi: Table, swLo: Table, mask: bv32, k: bv5): (Vec, Vec) {
    var hiPrep := Swizzle(hi, lo, swHi);
    var loPrep := Swizzle(hi, lo, swLo);
    (HiMerge(hiPrep, loPrep, mask, k), LoMerge(hiPrep, loPrep, mask, k))
  }

  /** Lines 12-73: the five stages and the final swizzle, from the two
      halves of the matrix to `(final_hi, final_lo)`. */
  function TransposeLanes(hi: Vec, lo: Vec): (Vec, Vec) {
    var (hi16, lo16) := (HiMerge16(hi, lo), LoMerge16(hi, lo));
    var (hi8, lo8) := Stage(hi16, lo16, SWIZZLE_8_HI, SWIZZLE_8_LO, MASK_8, SHIFT_8);
    var (hi4, lo4) := Stage(hi8, lo8, SWIZZLE_4_HI, SWIZZLE_4_LO, MASK_4, SHIFT_4);
    var (hi2, lo2) := Stage(hi4, lo4, SWIZZLE_2_HI, SWIZZLE_2_LO, MASK_2, SHIFT_2);
    var (hi1, lo1) := Stage(hi2, lo2, SWIZZLE_1_HI, SWIZZLE_1_LO, MASK_1, SHIFT_1);
    (Swizzle(hi1, lo1, SWIZZLE_F_HI), Swizzle(hi1, lo1, SWIZZLE_F_LO))
  }

  /** The matrix the source leaves behind: `final_hi` in rows 0..15 and
      `final_lo` in rows 16..31. */
  function TransposeRows(m: Matrix): Matrix {
    var (finalHi, finalLo) := TransposeLanes(m[..16], m[16..]);
    finalHi + finalLo
  }

  /** Transposes `matrix` in place (lines 10-77): `final_hi` is written to
      rows 0..15 and `final_lo` to rows 16..31, and nothing else changes. */
  method Transpose(matrix: array<bv32>)
    requires matrix.Length == 32
    modifies matrix
    ensures matrix[..16] == TransposeLanes(old(matrix[..16]), old(matrix[16..])).0
    ensures matrix[16..] == TransposeLanes(old(matrix[..16]), old(matrix[16..])).1
    ensures matrix[..] == TransposeRows(old(matrix[..]))
    ensures IsTransposeOf(matrix[..], old(matrix[..]))
  {
    var m: Matrix := matrix[..];
    var (finalHi, finalLo) := TransposeLanes(m[..16], m[16..]);
    forall i | 0 <= i < 16 {
      matrix[i] := finalHi[i];
    }
    forall i | 16 <= i < 32 {
      matrix[i] := finalLo[i - 16];
    }
    assert matrix[..] == finalHi + finalLo;
    assert matrix[..16] == finalHi && matrix[16..] == finalLo;
    TransposeRowsIsTranspose(m);
  }

  // ---- Which row each lane holds ----

  /** The row of the scalar algorithm's matrix that lane j of `hi + lo`
      holds around the stage with block size k: hi lane m holds the m-th row
      whose bit k is clear (m with a zero bit inserted at k), and lo lane m
      the row k below it. */
  function RowAt(k: bv5, j: bv5): bv5
    requires IsShift(k)
  {
    var m := j & 15;
    var below := m & (k - 1);
    ((m ^ below) << 1) | below | (if j < 16 then 0 else k)
  }

  /** Hi lane m and lo lane m hold a pair of rows r and r ^ k, bit k of r
      clear. */
  lemma RowAtPairs(k: bv5, m: bv5)
    requires IsShift(k) && m < 16
    ensures RowAt(k, m) & k == 0 && RowAt(k, m | 16) == RowAt(k, m) ^ k
  {
  }

  /** Around stage 16 the lanes hold the rows in order. */
  lemma RowAtInOrder(j: bv5)
    ensures RowAt(16, j) == j
  {
  }

  /** After stage 1, hi lane m holds row 2m and lo lane m holds row 2m + 1. */
  lemma Stage1Interleaves(m: bv5)
    requires m < 16
    ensures RowAt(1, m) == 2 * m && RowAt(1, m | 16) == 2 * m + 1
  {
  }

  /** The 32 lanes of two vectors, hi first. */
  function Join(hi: Vec, lo: Vec): Matrix {
    hi + lo
  }

  /** Around the stage with block size k, every lane j of `hi + lo` holds
      row `RowAt(k, j)` of `s`. */
  ghost predicate Holds(hi: Vec, lo: Vec, s: Matrix, k: bv5)
    requires IsShift(k)
  {
    forall j: bv5 :: Join(hi, lo)[j] == s[RowAt(k, j)]
  }

  /** The lane of `a + b` that lane j of the swizzle pair `(swHi, swLo)` reads. */
  function Lane(swHi: Table, swLo: Table, j: bv5): bv5 {
    if j < 16 then swHi[j] else swLo[j & 15]
  }

  /** The tables `(swHi, swLo)` move the rows from where they are around
      stage `from` to where they belong around stage `to`. */
  ghost predicate Moves(swHi: Table, swLo: Table, from: bv5, to: bv5)
    requires IsShift(from) && IsShift(to)
  {
    forall j: bv5 :: RowAt(from, Lane(swHi, swLo, j)) == RowAt(to, j)
  }

  /** Lane j of a swizzled pair is lane `Lane(swHi, swLo, j)` of the input. */
  lemma SwizzleLane(hi: Vec, lo: Vec, swHi: Table, swLo: Table, j: bv5)
    ensures Join(Swizzle(hi, lo, swHi), Swizzle(hi, lo, swLo))[j] == Join(hi, lo)[Lane(swHi, swLo, j)]
  {
    var m := j & 15;
    LaneHalves(m);
    if j >= 16 {
      assert j == m | 16;
    }
  }

  /** A swizzle moves rows between lanes as its tables say. */
  lemma SwizzleHolds(hi: Vec, lo: Vec, s: Matrix, swHi: Table, swLo: Table, from: bv5, to: bv5)
    requires IsShift(from) && IsShift(to)
    requires Holds(hi, lo, s, from) && Moves(swHi, swLo, from, to)
    ensures Holds(Swizzle(hi, lo, swHi), Swizzle(hi, lo, swLo), s, to)
  {
    var hp, lp := Swizzle(hi, lo, swHi), Swizzle(hi, lo, swLo);
    forall j: bv5
      ensures Join(hp, lp)[j] == s[RowAt(to, j)]
    {
      var src := Lane(swHi, swLo, j);
      SwizzleLane(hi, lo, swHi, swLo, j);
      assert Join(hi, lo)[src] == s[RowAt(from, src)];
      assert RowAt(from, src) == RowAt(to, j);
    }
  }

  /** Lane m of the merged vectors holds the two rows of the pair that lane
      m held before, as the scalar stage leaves them. */
  lemma MergeLane(hp: Vec, lp: Vec, s: Matrix, k: bv5, m: bv5)
    requires IsShift(k) && Holds(hp, lp, s, k) && m < 16
    ensures HiMerge(hp, lp, Mask(k), k)[m] == StageRow(s, k, RowAt(k, m))
    ensures LoMerge(hp, lp, Mask(k), k)[m] == StageRow(s, k, RowAt(k, m | 16))
  {
    var r := RowAt(k, m);
    RowAtPairs(k, m);
    LaneHalves(m);
    assert hp[m] == s[r] by {
      assert Join(hp, lp)[m] == s[RowAt(k, m)];
    }
    assert lp[m] == s[r ^ k] by {
      assert Join(hp, lp)[m | 16] == s[RowAt(k, m | 16)];
    }
  }

  /** When the lanes hold the row pairs of stage k, the lanewise merge
      performs that stage of the scalar algorithm on the rows they hold. */
  lemma MergeHolds(hp: Vec, lp: Vec, s: Matrix, k: bv5)
    requires IsShift(k) && Holds(hp, lp, s, k)
    ensures Holds(HiMerge(hp, lp, Mask(k), k), LoMerge(hp, lp, Mask(k), k), BlockSwap(s, k), k)
  {
    var hi, lo := HiMerge(hp, lp, Mask(k), k), LoMerge(hp, lp, Mask(k), k);
    forall j: bv5
      ensures Join(hi, lo)[j] == BlockSwap(s, k)[RowAt(k, j)]
    {
      var m := j & 15;
      MergeLane(hp, lp, s, k, m);
      LaneHalves(m);
      if j >= 16 {
        assert j == m | 16;
      }
      BlockSwapAt(s, k, RowAt(k, j));
    }
  }

  /** Stage 16 needs no swizzle: lane m of `hi` and of `lo` already hold
      rows m and m + 16, and the merge as written (without the pre-mask)
      performs the scalar stage. */
  lemma Stage16Holds(hi: Vec, lo: Vec)
    ensures Holds(HiMerge16(hi, lo), LoMerge16(hi, lo), BlockSwap(Join(hi, lo), 16), 16)
  {
    var s := Join(hi, lo);
    var hi16, lo16 := HiMerge16(hi, lo), LoMerge16(hi, lo);
    forall j: bv5
      ensures Join(hi16, lo16)[j] == BlockSwap(s, 16)[RowAt(16, j)]
    {
      var m := j & 15;
      RowAtInOrder(j);
      LaneHalves(m);
      BlockSwapAt(s, 16, j);
      Stage16HiUnmasked(hi[m], lo[m]);
      Stage16LoUnmasked(hi[m], lo[m]);
    }
  }

  /** A whole stage k = 8, 4, 2, 1, entered with the rows placed as after
      the previous stage. */
  lemma StageHolds(hi: Vec, lo: Vec, s: Matrix, swHi: Table, swLo: Table, mask: bv32, from: bv5, k: bv5)
    requires IsShift(from) && IsShift(k) && mask == Mask(k)
    requires Holds(hi, lo, s, from) && Moves(swHi, swLo, from, k)
    ensures Holds(Stage(hi, lo, swHi, swLo, mask, k).0, Stage(hi, lo, swHi, swLo, mask, k).1, BlockSwap(s, k), k)
  {
    SwizzleHolds(hi, lo, s, swHi, swLo, from, k);
    MergeHolds(Swizzle(hi, lo, swHi), Swizzle(hi, lo, swLo), s, k);
  }

  /** The stage-8 tables bring rows r and r + 8 (bit 3 of r clear) into
      one lane, taking the rows in order. */
  lemma Swizzle8PairsRows()
    ensures Moves(SWIZZLE_8_HI, SWIZZLE_8_LO, 16, 8)
  {
  }

  /** The stage-4 tables bring rows r and r + 4 into one lane, taking the
      rows from where stage 8 left them. */
  lemma Swizzle4PairsRows()
    ensures Moves(SWIZZLE_4_HI, SWIZZLE_4_LO, 8, 4)
  {
  }

  /** The stage-2 tables bring rows r and r + 2 into one lane, taking the
      rows from where stage 4 left them. */
  lemma Swizzle2PairsRows()
    ensures Moves(SWIZZLE_2_HI, SWIZZLE_2_LO, 4, 2)
  {
  }

  /** The stage-1 tables bring rows r and r + 1 into one lane, taking the
      rows from where stage 2 left them. */
  lemma Swizzle1PairsRows()
    ensures Moves(SWIZZLE_1_HI, SWIZZLE_1_LO, 2, 1)
  {
  }

  /** The final swizzle tables put the rows back in ascending order:
      `final_hi` holds rows 0..15 and `final_lo` rows 16..31. */
  lemma FinalTablesRestoreOrder()
    ensures Moves(SWIZZLE_F_HI, SWIZZLE_F_LO, 1, 16)
  {
  }

  /** The tables `(swHi, swLo)` read 32 distinct lanes of `a + b`, so
      together they use every lane index 0..31 exactly once: no row is
      dropped or duplicated. */
  ghost predicate UsesEachLaneOnce(swHi: Table, swLo: Table) {
    forall a: bv5, b: bv5 :: Lane(swHi, swLo, a) == Lane(swHi, swLo, b) ==> a == b
  }

  /** Different lanes hold different rows. */
  lemma RowAtInjective(k: bv5, a: bv5, b: bv5)
    requires IsShift(k) && RowAt(k, a) == RowAt(k, b)
    ensures a == b
  {
  }

  /** Tables that move every row to its place drop and duplicate no row. */
  lemma MovesUsesEachLaneOnce(swHi: Table, swLo: Table, from: bv5, to: bv5)
    requires IsShift(from) && IsShift(to) && Moves(swHi, swLo, from, to)
    ensures UsesEachLaneOnce(swHi, swLo)
  {
    forall a: bv5, b: bv5 | Lane(swHi, swLo, a) == Lane(swHi, swLo, b)
      ensures a == b
    {
      assert RowAt(to, a) == RowAt(from, Lane(swHi, swLo, a));
      assert RowAt(to, b) == RowAt(from, Lane(swHi, swLo, b));
      RowAtInjective(to, a, b);
    }
  }

  /** Every swizzle table pair of the source is a permutation of the lanes. */
  lemma SwizzleTablesArePermutations()
    ensures UsesEachLaneOnce(SWIZZLE_8_HI, SWIZZLE_8_LO) && UsesEachLaneOnce(SWIZZLE_4_HI, SWIZZLE_4_LO)
    ensures UsesEachLaneOnce(SWIZZLE_2_HI, SWIZZLE_2_LO) && UsesEachLaneOnce(SWIZZLE_1_HI, SWIZZLE_1_LO)
    ensures UsesEachLaneOnce(SWIZZLE_F_HI, SWIZZLE_F_LO)
  {
    Swizzle8PairsRows();
    Swizzle4PairsRows();
    Swizzle2PairsRows();
    Swizzle1PairsRows();
    FinalTablesRestoreOrder();
    MovesUsesEachLaneOnce(SWIZZLE_8_HI, SWIZZLE_8_LO, 16, 8);
    MovesUsesEachLaneOnce(SWIZZLE_4_HI, SWIZZLE_4_LO, 8, 4);
    MovesUsesEachLaneOnce(SWIZZLE_2_HI, SWIZZLE_2_LO, 4, 2);
    MovesUsesEachLaneOnce(SWIZZLE_1_HI, SWIZZLE_1_LO, 2, 1);
    MovesUsesEachLaneOnce(SWIZZLE_F_HI, SWIZZLE_F_LO, 1, 16);
  }

  /** Lanes that hold the rows of `s` in order are `s`. */
  lemma InOrderIsEqual(hi: Vec, lo: Vec, s: Matrix)
    requires Holds(hi, lo, s, 16)
    ensures Join(hi, lo) == s
  {
    forall j | 0 <= j < 32 ensures Join(hi, lo)[j] == s[j] {
      RowAtInOrder(j as bv5);
    }
  }

  /** Stages 16 and 8 of the pipeline perform the first two scalar stages. */
  lemma FirstStagesHold(hi: Vec, lo: Vec)
    ensures
      var (hi8, lo8) := Stage(HiMerge16(hi, lo), LoMerge16(hi, lo), SWIZZLE_8_HI, SWIZZLE_8_LO, MASK_8, SHIFT_8);
      Holds(hi8, lo8, BlockSwap(BlockSwap(Join(hi, lo), 16), 8), 8)
  {
    StageConstants();
    Swizzle8PairsRows();
    Stage16Holds(hi, lo);
    StageHolds(HiMerge16(hi, lo), LoMerge16(hi, lo), BlockSwap(Join(hi, lo), 16),
               SWIZZLE_8_HI, SWIZZLE_8_LO, MASK_8, 16, 8);
  }

  /** Stages 4, 2 and 1 and the final swizzle, entered with the rows placed
      as after stage 8, leave the rows of the scalar result in order. */
  lemma LastStagesHold(hi8: Vec, lo8: Vec, s8: Matrix)
    requires Holds(hi8, lo8, s8, 8)
    ensures
      var (hi4, lo4) := Stage(hi8, lo8, SWIZZLE_4_HI, SWIZZLE_4_LO, MASK_4, SHIFT_4);
      var (hi2, lo2) := Stage(hi4, lo4, SWIZZLE_2_HI, SWIZZLE_2_LO, MASK_2, SHIFT_2);
      var (hi1, lo1) := Stage(hi2, lo2, SWIZZLE_1_HI, SWIZZLE_1_LO, MASK_1, SHIFT_1);
      Holds(Swizzle(hi1, lo1, SWIZZLE_F_HI), Swizzle(hi1, lo1, SWIZZLE_F_LO),
            BlockSwap(BlockSwap(BlockSwap(s8, 4), 2), 1), 16)
  {
    StageConstants();
    Swizzle4PairsRows();
    Swizzle2PairsRows();
    Swizzle1PairsRows();
    FinalTablesRestoreOrder();
    var (hi4, lo4) := Stage(hi8, lo8, SWIZZLE_4_HI, SWIZZLE_4_LO, MASK_4, SHIFT_4);
    StageHolds(hi8, lo8, s8, SWIZZLE_4_HI, SWIZZLE_4_LO, MASK_4, 8, 4);
    var (hi2, lo2) := Stage(hi4, lo4, SWIZZLE_2_HI, SWIZZLE_2_LO, MASK_2, SHIFT_2);
    StageHolds(hi4, lo4, BlockSwap(s8, 4), SWIZZLE_2_HI, SWIZZLE_2_LO, MASK_2, 4, 2);
    var (hi1, lo1) := Stage(hi2, lo2, SWIZZLE_1_HI, SWIZZLE_1_LO, MASK_1, SHIFT_1);
    StageHolds(hi2, lo2, BlockSwap(BlockSwap(s8, 4), 2), SWIZZLE_1_HI, SWIZZLE_1_LO, MASK_1, 2, 1);
    SwizzleHolds(hi1, lo1, BlockSwap(BlockSwap(BlockSwap(s8, 4), 2), 1), SWIZZLE_F_HI, SWIZZLE_F_LO, 1, 16);
  }

  /** The vectorised pipeline computes exactly the scalar algorithm. */
  lemma TransposeLanesIsScalar(hi: Vec, lo: Vec)
    ensures Join(TransposeLanes(hi, lo).0, TransposeLanes(hi, lo).1) == ScalarTranspose(Join(hi, lo))
  {
    var (hi8, lo8) := Stage(HiMerge16(hi, lo), LoMerge16(hi, lo), SWIZZLE_8_HI, SWIZZLE_8_LO, MASK_8, SHIFT_8);
    FirstStagesHold(hi, lo);
    LastStagesHold(hi8, lo8, BlockSwap(BlockSwap(Join(hi, lo), 16), 8));
    InOrderIsEqual(TransposeLanes(hi, lo).0, TransposeLanes(hi, lo).1, ScalarTranspose(Join(hi, lo)));
  }

  /** The source's pipeline transposes the matrix. */
  lemma TransposeRowsIsTranspose(m: Matrix)
    ensures IsTransposeOf(TransposeRows(m), m)
  {
    assert Join(m[..16], m[16..]) == m;
    TransposeLanesIsScalar(m[..16], m[16..]);
    ScalarTransposeIsTranspose(m);
  }
}
