/** Non-negative integers as bit strings: powers of two, bitwise OR, and the fixed-width
    field packing that `format_m_params` performs for the interconnect's M_BASE_ADDR and
    M_ADDR_WIDTH parameters. */
module Bits {

  function Pow2(n: nat): (r: nat)
    ensures r >= 1
  {
    if n == 0 then 1 else 2 * Pow2(n - 1)
  }

  lemma {:induction false} Pow2Add(a: nat, b: nat)
    ensures Pow2(a + b) == Pow2(a) * Pow2(b)
  {
    if a > 0 {
      Pow2Add(a - 1, b);
      assert Pow2(a + b) == 2 * Pow2(a - 1 + b);
    }
  }

  lemma {:induction false} Pow2Monotonic(a: nat, b: nat)
    requires a <= b
    ensures Pow2(a) <= Pow2(b)
  {
    if a < b {
      Pow2Monotonic(a, b - 1);
    }
  }

  /** Bit `i` of `x`. */
  function Bit(x: nat, i: nat): bool
  {
    if i == 0 then x % 2 == 1 else Bit(x / 2, i - 1)
  }

  /** Python's `a | b` on non-negative integers. */
  function BitOr(a: nat, b: nat): nat
    decreases a + b
  {
    if a == 0 then b
    else if b == 0 then a
    else 2 * BitOr(a / 2, b / 2) + (if a % 2 == 1 || b % 2 == 1 then 1 else 0)
  }

  /** The partner of BitOr: each bit of the result is the OR of the operands' bits. */
  lemma {:induction false} BitOrBits(a: nat, b: nat, i: nat)
    ensures Bit(BitOr(a, b), i) == (Bit(a, i) || Bit(b, i))
    decreases a + b
  {
    if a == 0 {
      ZeroHasNoBits(i);
    } else if b == 0 {
      ZeroHasNoBits(i);
    } else {
      var c := BitOr(a / 2, b / 2);
      var low := if a % 2 == 1 || b % 2 == 1 then 1 else 0;
      assert BitOr(a, b) == 2 * c + low;
      assert (2 * c + low) % 2 == low && (2 * c + low) / 2 == c;
      if i > 0 {
        BitOrBits(a / 2, b / 2, i - 1);
      }
    }
  }

  lemma {:induction false} ZeroHasNoBits(i: nat)
    ensures !Bit(0, i)
  {
    if i > 0 {
      ZeroHasNoBits(i - 1);
    }
  }

  /** Shifting left by `w` leaves the low `w` bits clear, so OR-ing a value below 2^w in is
      the same as adding it. */
  lemma {:induction false} OrIntoShiftIsAdd(a: nat, b: nat, w: nat)
    requires b < Pow2(w)
    ensures BitOr(a * Pow2(w), b) == a * Pow2(w) + b
  {
    var x := a * Pow2(w);
    if x == 0 || b == 0 {
    } else {
      assert w > 0;
      var y := a * Pow2(w - 1);
      assert x == 2 * y;
      assert x % 2 == 0 && x / 2 == y;
      OrIntoShiftIsAdd(a, b / 2, w - 1);
      assert BitOr(x, b) == 2 * BitOr(y, b / 2) + b % 2;
    }
  }

  /** A constant of a declared bit width, as migen's `Constant(value, width)`. */
  datatype Constant = Constant(value: nat, width: nat)

  /** The value `format_m_params(params, w)` accumulates: starting from 0, for each element
      from last to first, shift left by `w` and OR the element in. */
  function OrPack(params: seq<nat>, w: nat): nat
  {
    if |params| == 0 then 0 else BitOr(OrPack(params[1..], w) * Pow2(w), params[0])
  }

  /** Reference meaning of the packing: element i weighted by 2^(w*i), element 0 lowest. */
  function WeightedSum(params: seq<nat>, w: nat): nat
  {
    if |params| == 0 then 0 else params[0] + Pow2(w) * WeightedSum(params[1..], w)
  }

  /** Every element fits in a field of `w` bits. */
  predicate Fits(params: seq<nat>, w: nat)
  {
    forall i :: 0 <= i < |params| ==> params[i] < Pow2(w)
  }

  lemma DivisionStaysNatural(v: nat, m: nat)
    requires m > 0
    ensures v / m >= 0 && v % m >= 0
  {
  }

  /** Field `i` of width `w` of `v`: bits w*i .. w*i+w-1. */
  function Field(v: nat, i: nat, w: nat): nat
    decreases i
  {
    var m := Pow2(w);
    DivisionStaysNatural(v, m);
    if i == 0 then v % m else Field(v / m, i - 1, w)
  }

  lemma MulMonotonic(m: nat, a: int, b: int)
    requires a <= b
    ensures m * a <= m * b
  {
  }

  lemma MulDistributes(m: int, a: int, b: int)
    ensures m * (a + b) == m * a + m * b
  {
  }

  /** Division and remainder by `m` split `lo + m * hi` back into its two parts. */
  lemma DivModOfLowPlusHigh(lo: nat, hi: nat, m: nat)
    requires lo < m
    ensures (lo + m * hi) / m == hi && (lo + m * hi) % m == lo
  {
    var x := lo + m * hi;
    var q, r := x / m, x % m;
    assert x == m * q + r;
    if q > hi {
      MulMonotonic(m, 1, q - hi);
      MulDistributes(m, hi, q - hi);
    } else if q < hi {
      MulMonotonic(m, 1, hi - q);
      MulDistributes(m, q, hi - q);
    }
  }

  /** When the fields do not overlap, the shift-or packing equals the weighted sum. */
  lemma {:induction false} OrPackIsWeightedSum(params: seq<nat>, w: nat)
    requires Fits(params, w)
    ensures OrPack(params, w) == WeightedSum(params, w)
  {
    if |params| > 0 {
      assert Fits(params[1..], w) by {
        forall i | 0 <= i < |params[1..]| ensures params[1..][i] < Pow2(w) {
          assert params[1..][i] == params[i + 1];
        }
      }
      OrPackIsWeightedSum(params[1..], w);
      OrIntoShiftIsAdd(OrPack(params[1..], w), params[0], w);
    }
  }

  /** Round trip: field i of the packed value is element i. */
  lemma {:induction false} WeightedSumField(params: seq<nat>, w: nat, i: nat)
    requires Fits(params, w) && i < |params|
    ensures Field(WeightedSum(params, w), i, w) == params[i]
  {
    var rest := WeightedSum(params[1..], w);
    DivModOfLowPlusHigh(params[0], rest, Pow2(w));
    if i > 0 {
      assert Fits(params[1..], w) by {
        forall k | 0 <= k < |params[1..]| ensures params[1..][k] < Pow2(w) {
          assert params[1..][k] == params[k + 1];
        }
      }
      WeightedSumField(params[1..], w, i - 1);
    }
  }

  /** The packed value fits the declared width `|params| * w`. */
  lemma {:induction false} WeightedSumBound(params: seq<nat>, w: nat)
    requires Fits(params, w)
    ensures WeightedSum(params, w) < Pow2(|params| * w)
  {
    if |params| > 0 {
      var n := |params|;
      assert Fits(params[1..], w) by {
        forall k | 0 <= k < |params[1..]| ensures params[1..][k] < Pow2(w) {
          assert params[1..][k] == params[k + 1];
        }
      }
      WeightedSumBound(params[1..], w);
      SuccMul(n - 1, w);
      Pow2Add(w, (n - 1) * w);
      LowPlusHighBound(params[0], Pow2(w), WeightedSum(params[1..], w), Pow2((n - 1) * w));
    }
  }

  lemma SuccMul(m: nat, w: nat)
    ensures (m + 1) * w == w + m * w
  {
  }

  /** A low digit below `p` plus `p` times a high part below `h` stays below `p * h`. */
  lemma LowPlusHighBound(lo: nat, p: nat, hi: nat, h: nat)
    requires lo < p && hi < h
    ensures lo + p * hi < p * h
  {
    MulMonotonic(p, hi + 1, h);
    MulDistributes(p, hi, 1);
  }

  /** `format_m_params`: the shift-or loop over the reversed parameter list, returned as a
      constant of declared width `len(params) * width`. When every element fits its field,
      the value is the weighted sum, fits the declared width, and decodes field by field
      back to the parameters, element 0 in the low-order field. */
  method FormatParams(params: seq<nat>, width: nat) returns (c: Constant)
    ensures c.width == |params| * width
    ensures c.value == OrPack(params, width)
    ensures Fits(params, width) ==> c.value == WeightedSum(params, width) && c.value < Pow2(c.width)
    ensures Fits(params, width) ==> forall i :: 0 <= i < |params| ==> Field(c.value, i, width) == params[i]
  {
    var value := 0;
    var k := |params|;
    while k > 0
      invariant 0 <= k <= |params|
      invariant value == OrPack(params[k..], width)
    {
      k := k - 1;
      assert params[k..][1..] == params[k + 1..];
      value := BitOr(value * Pow2(width), params[k]);
    }
    assert params[0..] == params;
    c := Constant(value, |params| * width);
    if Fits(params, width) {
      OrPackIsWeightedSum(params, width);
      WeightedSumBound(params, width);
      forall i | 0 <= i < |params| ensures Field(c.value, i, width) == params[i] {
        WeightedSumField(params, width, i);
      }
    }
  }
}
