# 32×32 bit-matrix transpose with portable SIMD

The system is a small Rust program (`src/main.rs`). Its one real function,
`transpose(matrix: &mut [u32; 32])`, transposes a 32×32 matrix of bits in
place: row i is the word `matrix[i]`. It loads the rows into two
sixteen-lane `u32x16` vectors: `hi` holds rows 0..15 and `lo` holds rows 16..31.
Then it runs the five stages of the recursive block-swap transpose
(Hacker's Delight, section 7-3), at block sizes 16, 8, 4, 2 and 1:

- Each stage is a masked merge with a shift. It swaps k-bit blocks between the two words of a row pair.
- Before each stage after the first, `simd_swizzle!` index tables move the rows so that each pair (r, r + k) shares a lane.
- A final swizzle puts the rows back in order.
- Both vectors are then written back.

The project models this as follows.

- `Words` is about one word:
  - the bit view;
  - the five stage masks;
  - the scalar hi/lo merges, including the stage-16 variant, which leaves out the pre-mask.
- `Lanes` covers the vectors:
  - the vector type and the index-table type;
  - the two-vector swizzle;
  - the merges applied lane by lane.
- `Reference` defines what a transpose is, plus the scalar block-swap algorithm. It proves that the scalar algorithm transposes.
- `Pipeline` covers the function itself:
  - the source's constants and tables;
  - `TransposeLanes`, which models lines 12-73 as a function of the two input vectors;
  - the in-place method `Transpose`, for the whole function including the write-back at lines 75-76.

  It also tracks which scalar row every lane holds around each stage. From that it proves that the vector pipeline computes exactly the scalar algorithm's matrix, and so transposes.
- `Properties` holds consequences of the main contract:
  - the bit-level statement;
  - uniqueness and involution, and calling the method twice;
  - linearity over exclusive or;
  - the matrices the transpose leaves unchanged;
  - worked examples.

## Bit order

In this code, column c of a row is bit 31 − c of its word: column 0 is the
most significant bit. All four masks of stages 8, 4, 2 and 1 and the
stage-16 mask `0xFFFF0000` keep the high-order block of each pair in the hi
row. That is only a transpose under this convention. Stated on bits, the
function's output satisfies: bit b of output row i equals bit 31 − i of
input row 31 − b (`Properties.TransposeBits`).

The other common convention reads bit j (counting from the least
significant bit) of row i as column j, so that a transpose would satisfy
`out[i].bit(j) == in[j].bit(i)`. That reading does not describe this code. Under it, the function mirrors the
matrix about the anti-diagonal. The model follows the code. Two examples
are proved:

- `Properties.SingleBitMoves`: bit 3 of row 5 ends up as bit 26 of row 28, and every other bit of the result, row 3 included, is clear.
- `Properties.LowBitsOfRowZeroMove`: row 0 holding the value 3 (bits 0 and 1) gives rows 30 and 31 equal to bit 31 alone, and every other row, rows 0 and 1 included, is 0.

Under the other reading the first example would move to row 3 and the
second to rows 0 and 1.

## Model

| member | source | states |
|---|---|---|
| Pipeline.Transpose | src/main.rs:10-77 | After the call, rows 0..15 hold the hi result of the pipeline and rows 16..31 the lo result, computed from the old rows. The array as a whole is the transpose of its old contents. |
| Pipeline.TransposeRowsIsTranspose | src/main.rs:12-76 | The matrix the pipeline leaves behind is the transpose of the input, for every input matrix. |
| Pipeline.TransposeLanesIsScalar | src/main.rs:12-73 | The two output vectors, hi first, equal the five-stage scalar block-swap transpose of the input rows. |
| Pipeline.FirstStagesHold | src/main.rs:12-31 | After the stage-16 merge, the stage-8 swizzles and the stage-8 merge, the lanes hold the scalar matrix after stages 16 and 8, in the layout stage 4 expects. |
| Pipeline.LastStagesHold | src/main.rs:33-73 | From that layout, stages 4, 2 and 1 and the final swizzle produce the scalar matrix after all five stages, with the rows in order. |
| Pipeline.Stage16Holds | src/main.rs:15-19 | The unswizzled stage-16 merge of the two halves holds the scalar matrix after the block swap at size 16. |
| Pipeline.StageHolds | src/main.rs:22-67 | One stage (two swizzles, then the hi and lo merges) turns lanes holding a scalar matrix into lanes holding that matrix after the block swap at size k, given that the tables move each row to its lane for stage k. |
| Pipeline.SwizzleHolds | src/main.rs:24-25 | Swizzling with tables that move the rows from the layout of one stage to that of another preserves which scalar rows the lanes hold. |
| Pipeline.SwizzleLane | src/main.rs:24-25 | Lane j of a swizzled pair is the input lane its table entry names, lane m of hi or lane m + 16 of the concatenation for lo. |
| Pipeline.MergeHolds | src/main.rs:30-31 | When hi lane m and lo lane m hold rows r and r + k of a scalar matrix, the lane-wise hi and lo merges hold those rows after the block swap at size k. |
| Pipeline.MergeLane | src/main.rs:30-31 | The same for one lane m. |
| Pipeline.Swizzle8PairsRows | src/main.rs:22-23 | The stage-8 tables move every row from its place after stage 16 to the lane where row r (bit 3 clear) and row r + 8 share a lane. |
| Pipeline.Swizzle4PairsRows | src/main.rs:34-35 | The same for the stage-4 tables, from the stage-8 layout to the stage-4 layout. |
| Pipeline.Swizzle2PairsRows | src/main.rs:46-47 | The same for the stage-2 tables. |
| Pipeline.Swizzle1PairsRows | src/main.rs:58-59 | The same for the stage-1 tables. |
| Pipeline.FinalTablesRestoreOrder | src/main.rs:70-73 | The final tables move every row from its stage-1 lane back to lane r, so the output rows are in order. |
| Pipeline.SwizzleTablesArePermutations | src/main.rs:22-71 | Each of the five pairs of index tables reads 32 distinct lanes of its two input vectors, so no row is lost or duplicated. |
| Pipeline.MovesUsesEachLaneOnce | src/main.rs:22-71 | A pair of tables that moves rows between two stage layouts reads each lane at most once. |
| Pipeline.RowAtPairs | src/main.rs:24-25 | Around stage k, hi lane m and lo lane m hold a row r with bit k clear and its partner r + k. |
| Pipeline.RowAtInOrder | src/main.rs:12-13 | Loading the halves puts row j in lane j. |
| Pipeline.Stage1Interleaves | src/main.rs:58-61 | Around stage 1, hi lane m holds row 2m and lo lane m holds row 2m + 1. |
| Pipeline.InOrderIsEqual | src/main.rs:72-76 | Lanes that hold the rows in order, hi then lo, are exactly the matrix, so writing them back stores it. |
| Pipeline.StageConstants | src/main.rs:27-64 | `MASK_8`, `MASK_4`, `MASK_2` and `MASK_1` are the stage masks for shifts 8, 4, 2 and 1. |
| Reference.ScalarTransposeIsTranspose | src/main.rs:10-77 | The five block-swap stages at sizes 16, 8, 4, 2, 1 transpose any matrix. |
| Reference.SourcesSwapIndices | src/main.rs:18-67 | Tracing entry (r, c) back through the five stages lands on entry (c, r). |
| Reference.BlockSwapEntry | src/main.rs:30-31 | A stage at size k swaps entry (r, c) with entry (r ^ k, c ^ k) when bit k of the row and of the column differ, and otherwise leaves it in place. |
| Reference.MergeHiColumn | src/main.rs:30 | Column c of the hi merge is the hi word's column c when bit k of c is clear, and the lo word's column c − k otherwise (the right shift moves lo's columns k places towards column 31). |
| Reference.MergeLoColumn | src/main.rs:31 | Column c of the lo merge is the lo word's column c when bit k of c is set, and the hi word's column c + k otherwise (the left shift moves hi's columns k places towards column 0). |
| Properties.TransposeBits | src/main.rs:10-77 | Bit b of output row i equals bit 31 − i of input row 31 − b. |
| Properties.TransposeUnique | src/main.rs:10-77 | Any matrix that is a transpose of m is the function's output, so its result is fully determined by the transpose contract. |
| Properties.TransposeInvolution | src/main.rs:10-77 | Transposing twice gives back the input. |
| Properties.TransposeTwice | src/main.rs:10-77 | Two in-place calls on the same array restore its contents. |
| Properties.FixedIffSymmetric | src/main.rs:10-77 | A matrix is left unchanged exactly when it is symmetric. |
| Properties.ConstantMatricesFixed | src/main.rs:10-77 | The all-zero and all-ones matrices are left unchanged. |
| Properties.IdentityFixed | src/main.rs:10-77 | The identity (row r has only column r set) is left unchanged. |
| Properties.AntiDiagonalFixed | src/main.rs:10-77 | The matrix whose row i has only bit i set (column 31 − i) is left unchanged. |
| Properties.SingleBitMoves | src/main.rs:10-77 | The whole result for a matrix whose only set bit is bit 3 of row 5: bit 26 of row 28 is set and every other bit is clear (so row 3 stays empty). |
| Properties.LowBitsOfRowZeroMove | src/main.rs:10-77 | The whole result for a matrix whose only non-zero row is row 0 equal to 3: rows 30 and 31 are bit 31 alone and every other row is 0. |
| Properties.XorLinear | src/main.rs:10-77 | Transposing the row-by-row exclusive or of two matrices gives the exclusive or of their transposes. |
| Properties.XorEntry | src/main.rs:10-77 | An entry of the exclusive or of two matrices is set exactly when the two matrices differ there. |
| Words.MaskShape | src/main.rs:15-64 | Bit p of the stage-k mask is set exactly when bit k of p is set, so the mask covers the high block of every 2k-bit group. |
| Words.MaskShift | src/main.rs:15-64 | Shifting the stage-k mask by k in either direction turns it into its complement and back. |
| Words.MergeKeepsOwnBits | src/main.rs:30-31 | The hi merge keeps the hi word's bits under the mask and fills the rest with the lo word's masked bits shifted down. The lo merge keeps the lo word's bits outside the mask and fills the rest with the hi word's unmasked bits shifted up. |
| Words.XorBit | src/main.rs:10-77 | A bit of an exclusive or of two words is set exactly when the words differ at that bit. |
| Words.MergeInvolutive | src/main.rs:30-31 | Merging a merged pair again at the same stage restores the pair. |
| Words.Stage16HiUnmasked | src/main.rs:18 | The stage-16 hi merge, which shifts `lo` without masking it, equals the general masked hi merge. |
| Words.Stage16LoUnmasked | src/main.rs:19 | The stage-16 lo merge, which shifts `hi` without masking it, equals the general masked lo merge. |
| Words.ShrDropsUnmasked | src/main.rs:18 | A logical right shift by 16 discards exactly the bits that the stage-16 mask would clear. |
| Words.ShlDropsMasked | src/main.rs:19 | A left shift by 16 discards exactly the bits that the complement of the stage-16 mask would clear. |

## Left out

- `main` (src/main.rs:5-7) has an empty body, so there is nothing to model.
- The `portable_simd` feature gate and the actual SIMD execution are not modelled. A `u32x16` is a sequence of 16 words, and lane-wise operations are modelled as the same scalar operation in every lane. Timing and instruction selection are out of scope.
- `from_slice` and `copy_to_slice` are modelled as taking and writing back the two 16-row halves of the array. Their panics on a length mismatch cannot happen here, because the slices are always exactly 16 long.
- Splat constants are modelled by their scalar value. Shift amounts are held as 5-bit values, since every shift is below 32, so Rust's shift-overflow check never applies.
- Swizzle tables are held as 5-bit indices. Every entry in the source is below 32, so the compile-time bounds check on `simd_swizzle!` always passes.
- Pipeline.SwizzleTablesArePermutations: states that each table pair reads 32 distinct lanes (injectivity). For 32 lanes drawn from 32 indices this means every index is read exactly once, but surjectivity is not stated as a separate clause.
