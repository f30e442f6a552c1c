/** The per-master address-region width `ceil(log2(size))` that the interconnect hands to the
    crossbar as M_ADDR_WIDTH, computed on integers. */
module Region {
  import opened AxiTypes
  import opened Bits

  /** The least k with 2^k >= n. */
  function CeilLog2(n: nat): (k: nat)
    requires n >= 1
    ensures n <= Pow2(k)
    ensures k > 0 ==> Pow2(k - 1) < n
  {
    if n == 1 then 0 else 1 + CeilLog2((n + 1) / 2)
  }

  /** The two bounds of CeilLog2 single out its value. */
  lemma CeilLog2Unique(n: nat, k: nat)
    requires n >= 1
    requires n <= Pow2(k)
    requires k > 0 ==> Pow2(k - 1) < n
    ensures CeilLog2(n) == k
  {
    var c := CeilLog2(n);
    if c < k {
      Pow2Monotonic(c, k - 1);
    } else if c > k {
      Pow2Monotonic(k, c - 1);
    }
  }

  /** Exactly `w` for a region of size 2^w. */
  lemma CeilLog2OfPowerOfTwo(w: nat)
    ensures CeilLog2(Pow2(w)) == w
  {
    if w > 0 {
      Pow2Monotonic(w - 1, w);
    }
    CeilLog2Unique(Pow2(w), w);
  }

  /** `[math.ceil(math.log2(axi_if.size)) for axi_if in self.m_axis.values()]`: widths in
      master order; evaluation stops at the first zero size, whose index the error names. */
  function RegionWidths(sizes: seq<nat>): (r: Result<seq<nat>, AxiError>)
    ensures r.Ok? <==> forall i :: 0 <= i < |sizes| ==> sizes[i] > 0
    ensures r.Ok? ==> |r.value| == |sizes|
    ensures r.Ok? ==> forall i :: 0 <= i < |sizes| ==>
      sizes[i] <= Pow2(r.value[i]) && (r.value[i] > 0 ==> Pow2(r.value[i] - 1) < sizes[i])
    ensures r.Err? ==>
      && r.error.InvalidRegion?
      && r.error.index < |sizes|
      && sizes[r.error.index] == 0
      && forall i :: 0 <= i < r.error.index ==> sizes[i] > 0
  {
    if |sizes| == 0 then Ok([])
    else if sizes[0] == 0 then Err(InvalidRegion(0))
    else match RegionWidths(sizes[1..])
      case Ok(ws) => Ok([CeilLog2(sizes[0])] + ws)
      case Err(e) => Err(InvalidRegion(e.index + 1))
  }

  /** Each region width is CeilLog2 of its size. */
  lemma RegionWidthsAreCeilLog2(sizes: seq<nat>, i: nat)
    requires RegionWidths(sizes).Ok? && i < |sizes|
    ensures sizes[i] >= 1 && RegionWidths(sizes).value[i] == CeilLog2(sizes[i])
  {
    var ws := RegionWidths(sizes).value;
    CeilLog2Unique(sizes[i], ws[i]);
  }

  /** The region widths of typical sizes: 4 KiB, 8 KiB and 256 MiB. */
  lemma CeilLog2Examples()
    ensures CeilLog2(0x1000) == 12
    ensures CeilLog2(0x2000) == 13
    ensures CeilLog2(0x1000_0000) == 28
  {
    assert Pow2(4) == 16;
    Pow2Add(4, 4);
    Pow2Add(8, 4);
    Pow2Add(12, 1);
    Pow2Add(12, 12);
    Pow2Add(24, 4);
    CeilLog2OfPowerOfTwo(12);
    CeilLog2OfPowerOfTwo(13);
    CeilLog2OfPowerOfTwo(28);
  }
}
