/** What the transpose promises to its callers, derived from the proof that
    the pipeline transposes: the bit-level contract, uniqueness, that it is
    its own inverse, the matrices it leaves unchanged, and an example that
    pins down the bit order. */
module Properties {
  import opened Words
  import opened Reference
  import opened Pipeline

  /** Bit b of output row i is bit 31 - i of input row 31 - b. */
  lemma TransposeBits(m: Matrix, i: bv5, b: bv5)
    ensures Bit(TransposeRows(m)[i], b) == Bit(m[31 - b], 31 - i)
  {
    TransposeRowsIsTranspose(m);
    assert Entry(TransposeRows(m), i, 31 - b) == Entry(m, 31 - b, i);
  }

  /** Two matrices with the same entries are equal. */
  lemma EntriesDetermineMatrix(a: Matrix, b: Matrix)
    requires forall r: bv5, c: bv5 :: Entry(a, r, c) == Entry(b, r, c)
    ensures a == b
  {
    forall r: bv5 ensures a[r] == b[r] {
      forall p: bv5 ensures Bit(a[r], p) == Bit(b[r], p) {
        assert Entry(a, r, 31 - p) == Entry(b, r, 31 - p);
      }
      BitsDetermineWord(a[r], b[r]);
    }
    forall i | 0 <= i < 32 ensures a[i] == b[i] {
      assert a[(i as bv5) as int] == b[(i as bv5) as int];
    }
  }

  /** The transpose is unique, so `TransposeRows` is the only function with
      the contract of `transpose`. */
  lemma TransposeUnique(t: Matrix, m: Matrix)
    requires IsTransposeOf(t, m)
    ensures t == TransposeRows(m)
  {
    TransposeRowsIsTranspose(m);
    EntriesDetermineMatrix(t, TransposeRows(m));
  }

  /** Transposing twice gives back the matrix. */
  lemma TransposeInvolution(m: Matrix)
    ensures TransposeRows(TransposeRows(m)) == m
  {
    var t := TransposeRows(m);
    TransposeRowsIsTranspose(m);
    TransposeRowsIsTranspose(t);
    EntriesDetermineMatrix(TransposeRows(t), m);
  }

  /** Entry (r, c) equals entry (c, r) everywhere. */
  ghost predicate Symmetric(m: Matrix) {
    forall r: bv5, c: bv5 :: Entry(m, r, c) == Entry(m, c, r)
  }

  /** The transpose leaves a matrix unchanged exactly when it is symmetric. */
  lemma FixedIffSymmetric(m: Matrix)
    ensures TransposeRows(m) == m <==> Symmetric(m)
  {
    TransposeRowsIsTranspose(m);
    if Symmetric(m) {
      TransposeUnique(m, m);
    }
  }

  /** The all-zero and all-ones matrices are left unchanged. */
  lemma ConstantMatricesFixed()
    ensures TransposeRows(seq(32, _ => 0)) == seq(32, _ => 0)
    ensures TransposeRows(seq(32, _ => 0xFFFF_FFFF)) == seq(32, _ => 0xFFFF_FFFF)
  {
    var zeros: Matrix := seq(32, _ => 0);
    var ones: Matrix := seq(32, _ => 0xFFFF_FFFF);
    assert Symmetric(zeros) && Symmetric(ones);
    FixedIffSymmetric(zeros);
    FixedIffSymmetric(ones);
  }

  /** The word with only bit r set. */
  function Unit(r: bv5): bv32 {
    1 << r
  }

  /** Bit p of `Unit(r)` is set exactly when p is r. */
  lemma SingleBit(r: bv5, p: bv5)
    ensures Bit(Unit(r), p) <==> p == r
  {
  }

  /** Row r of the identity matrix: its only entry is in column r. */
  function IdentityRow(r: bv5): bv32 {
    Unit(31 - r)
  }

  /** Row r of the identity has its bit in column r. */
  lemma DiagonalBit(r: bv5, c: bv5)
    ensures Bit(IdentityRow(r), 31 - c) <==> r == c
  {
    SingleBit(31 - r, 31 - c);
  }

  /** The matrix whose row i is `1 << i` (the anti-diagonal, with column 0
      at the most significant bit) is left unchanged. */
  lemma AntiDiagonalFixed()
    ensures TransposeRows(seq(32, i requires 0 <= i < 32 => Unit(i as bv5)))
         == seq(32, i requires 0 <= i < 32 => Unit(i as bv5))
  {
    var a: Matrix := seq(32, i requires 0 <= i < 32 => Unit(i as bv5));
    forall r: bv5, c: bv5 ensures Entry(a, r, c) == Entry(a, c, r) {
      SingleBit(r, 31 - c);
      SingleBit(c, 31 - r);
    }
    FixedIffSymmetric(a);
  }

  /** The identity matrix is left unchanged. */
  lemma IdentityFixed()
    ensures TransposeRows(seq(32, i requires 0 <= i < 32 => IdentityRow(i as bv5)))
         == seq(32, i requires 0 <= i < 32 => IdentityRow(i as bv5))
  {
    var d: Matrix := seq(32, i requires 0 <= i < 32 => IdentityRow(i as bv5));
    forall r: bv5, c: bv5 ensures Entry(d, r, c) == Entry(d, c, r) {
      DiagonalBit(r, c);
      DiagonalBit(c, r);
    }
    FixedIffSymmetric(d);
  }

  /** A single set bit at row 5, bit 3 (column 28) moves to row 28, bit 26
      (column 5), and every other bit of the result is clear; in particular
      row 3 stays empty, so bit j is not column j. */
  lemma SingleBitMoves()
    ensures
      var m: Matrix := seq(32, i requires 0 <= i < 32 => if i == 5 then Unit(3) else 0);
      TransposeRows(m) == seq(32, i requires 0 <= i < 32 => if i == 28 then Unit(26) else 0)
  {
    var m: Matrix := seq(32, i requires 0 <= i < 32 => if i == 5 then Unit(3) else 0);
    var t: Matrix := seq(32, i requires 0 <= i < 32 => if i == 28 then Unit(26) else 0);
    forall r: bv5, c: bv5 ensures Entry(t, r, c) == Entry(m, c, r) {
      SingleBit(26, 31 - c);
      SingleBit(3, 31 - r);
    }
    TransposeUnique(t, m);
  }

  /** Row 0 holding 3 (columns 30 and 31) becomes bit 31 (column 0) of
      rows 30 and 31, and every other bit of the result is clear. */
  lemma LowBitsOfRowZeroMove()
    ensures
      var m: Matrix := seq(32, i requires 0 <= i < 32 => if i == 0 then 3 else 0);
      TransposeRows(m) == seq(32, i requires 0 <= i < 32 => if i >= 30 then Unit(31) else 0)
  {
    var m: Matrix := seq(32, i requires 0 <= i < 32 => if i == 0 then 3 else 0);
    var t: Matrix := seq(32, i requires 0 <= i < 32 => if i >= 30 then Unit(31) else 0);
    forall r: bv5, c: bv5 ensures Entry(t, r, c) == Entry(m, c, r) {
      SingleBit(31, 31 - c);
    }
    TransposeUnique(t, m);
  }

  /** Row r of the exclusive or of two matrices. */
  function XorRow(a: Matrix, b: Matrix, r: bv5): bv32 {
    a[r] ^ b[r]
  }

  /** Row-by-row exclusive or of two matrices. */
  function XorRows(a: Matrix, b: Matrix): Matrix {
    seq(32, i requires 0 <= i < 32 => XorRow(a, b, i as bv5))
  }

  /** Entry (r, c) of the exclusive or is set exactly when the two matrices
      differ there. */
  lemma XorEntry(a: Matrix, b: Matrix, r: bv5, c: bv5)
    ensures Entry(XorRows(a, b), r, c) == (Entry(a, r, c) != Entry(b, r, c))
  {
    assert XorRows(a, b)[r] == XorRow(a, b, r);
    XorBit(a[r], b[r], 31 - c);
  }

  /** The transpose is linear over exclusive or: transposing the exclusive
      or of two matrices is the exclusive or of their transposes. */
  lemma XorLinear(a: Matrix, b: Matrix)
    ensures TransposeRows(XorRows(a, b)) == XorRows(TransposeRows(a), TransposeRows(b))
  {
    var ta := TransposeRows(a);
    var tb := TransposeRows(b);
    TransposeRowsIsTranspose(a);
    TransposeRowsIsTranspose(b);
    forall r: bv5, c: bv5 ensures Entry(XorRows(ta, tb), r, c) == Entry(XorRows(a, b), c, r) {
      XorEntry(ta, tb, r, c);
      XorEntry(a, b, c, r);
    }
    TransposeUnique(XorRows(ta, tb), XorRows(a, b));
  }

  /** Calling `Transpose` twice on the same array restores its contents. */
  method TransposeTwice(matrix: array<bv32>)
    requires matrix.Length == 32
    modifies matrix
    ensures matrix[..] == old(matrix[..])
  {
    Transpose(matrix);
    Transpose(matrix);
    TransposeInvolution(old(matrix[..]));
  }
}
