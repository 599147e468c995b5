/** The sixteen-lane vector of 32-bit words (`u32x16`), the two-vector
    swizzle, and the stage merges applied in every lane at once. A vector
    expression of the source whose other operands are splat constants is
    modelled as the same scalar expression applied lane by lane. */
module Lanes {
  import opened Words

  /** A `u32x16`: lane i is element i. */
  type Vec = v: seq<bv32> | |v| == 16 witness seq(16, _ => 0)

  /** A constant swizzle index table (`[usize; 16]`): each entry picks one of
      the 32 lanes of two concatenated vectors, so it fits in five bits. */
  type Table = t: seq<bv5> | |t| == 16 witness seq(16, _ => 0)

  /** The two-vector swizzle: lane i of the result is lane `t[i]` of the 32
      lanes `a` followed by `b`. */
  function Swizzle(a: Vec, b: Vec, t: Table): Vec {
    seq(16, i requires 0 <= i < 16 => (a + b)[t[i]])
  }

  /** The hi merge of a stage, applied in every lane with the same mask and
      shift. */
  function HiMerge(hp: Vec, lp: Vec, mask: bv32, k: bv5): Vec {
    seq(16, i requires 0 <= i < 16 => MergeHi(hp[i], lp[i], mask, k))
  }

  /** The lo merge of a stage, applied in every lane with the same mask and
      shift. */
  function LoMerge(hp: Vec, lp: Vec, mask: bv32, k: bv5): Vec {
    seq(16, i requires 0 <= i < 16 => MergeLo(hp[i], lp[i], mask, k))
  }

  /** The stage-16 hi merge, in every lane. */
  function HiMerge16(hi: Vec, lo: Vec): Vec {
    seq(16, i requires 0 <= i < 16 => MergeHi16(hi[i], lo[i]))
  }

  /** The stage-16 lo merge, in every lane. */
  function LoMerge16(hi: Vec, lo: Vec): Vec {
    seq(16, i requires 0 <= i < 16 => MergeLo16(hi[i], lo[i]))
  }

  /** Lane m of the hi vector is lane m of `a + b`, and lane m of the lo
      vector is lane m | 16. */
  lemma LaneHalves(m: bv5)
    requires m < 16
    ensures (m | 16) as int == m as int + 16 && (m | 16) & 15 == m
  {
  }
}
