/** Two uses of the interconnect, end to end: a default name that collides with an explicit
    one, and a 2x2 crossbar over a 256 MiB RAM region and a 256 MiB peripheral region. */
module Scenarios {
  import opened AxiTypes
  import opened Bits
  import opened Region
  import opened Naming
  import opened Registry
  import opened Consistency
  import opened Interconnect

  /** A slave registered as "s_axi1" takes the name the next unnamed slave defaults to (the
      default counts slaves, not names), so the second registration is refused and leaves
      the registry as it was. */
  method DefaultNameCollision(a: AxiInterface, b: AxiInterface) returns (first: Outcome, second: Outcome)
    ensures first == Pass
    ensures second == Fail(DuplicateName("s_axi1"))
  {
    var ic := new AxiInterconnect();
    first := ic.AddSlave(Some("s_axi1"), Some(a));
    assert ic.Ports() == [a];
    assert Names(ic.sAxis) == ["s_axi1"];
    SecondDefaultSlaveName();
    second := ic.AddSlave(None, Some(b));
  }

  /** A wrapper whose first SoC master is missing aborts with `NotAnInterface`, whatever
      follows. */
  method MissingMasterAborts(masters: seq<Option<AxiInterface>>, slaves: seq<(SocRegion, Option<AxiInterface>)>)
    returns (r: Result<AxiInterconnect, AxiError>)
    requires |masters| > 0 && masters[0].None?
    ensures r.Err? && r.error == NotAnInterface
  {
    assert (MasterArguments(masters) + SlaveArguments(slaves))[0] == Err(NotAnInterface);
    r := InterconnectWrapper(masters, slaves);
  }

  /** When the SoC masters pass, a first SoC slave whose region has no origin aborts the
      wrapper with the missing-origin error, whatever follows. */
  method MissingOriginAborts(masters: seq<Option<AxiInterface>>, slaves: seq<(SocRegion, Option<AxiInterface>)>)
    returns (r: Result<AxiInterconnect, AxiError>)
    requires AllPresent(masters) && (|masters| == 0 || CheckParameters(Present(masters)).Ok?)
    requires |slaves| > 0 && slaves[0].1.Some? && slaves[0].0.origin.None?
    ensures r.Err? && r.error == MissingOrigin
  {
    var ms, ss := MasterArguments(masters), SlaveArguments(slaves);
    RegistrationPasses([], ms);
    assert [] + Values(ms) == Present(masters);
    RegistrationAppend([], ms, ss);
    r := InterconnectWrapper(masters, slaves);
  }

  /** A 32-bit interface in the "sys" clock domain. */
  predicate Sys32(a: AxiInterface)
  {
    a.clockDomain == "sys" && a.aw.addr == 32 && a.w.data == 32
  }

  lemma Pow2Facts()
    ensures Pow2(28) == 0x1000_0000 && Pow2(32) == 0x1_0000_0000
  {
    assert Pow2(4) == 16;
    Pow2Add(4, 4);
    Pow2Add(8, 4);
    Pow2Add(12, 12);
    Pow2Add(24, 4);
    Pow2Add(28, 4);
  }

  /** Four 32-bit "sys" interfaces pass the check. */
  lemma Sys32Consistent(ports: seq<AxiInterface>)
    requires |ports| == 4 && forall i :: 0 <= i < 4 ==> Sys32(ports[i])
    ensures CheckParameters(ports) == Ok(Parameters("sys", 32, 32, ports[0].aw.id))
  {
    assert Consistent(ports);
  }

  /** Two regions of size 2^w have region width w. */
  lemma TwoRegionWidths(size: nat, w: nat)
    requires size == Pow2(w)
    ensures RegionWidths([size, size]) == Ok([w, w])
  {
    var sizes: seq<nat> := [size, size];
    assert forall i :: 0 <= i < |sizes| ==> sizes[i] > 0;
    var ws := RegionWidths(sizes).value;
    CeilLog2OfPowerOfTwo(w);
    RegionWidthsAreCeilLog2(sizes, 0);
    RegionWidthsAreCeilLog2(sizes, 1);
    assert ws == [ws[0], ws[1]];
  }

  /** The origins and the region widths of the crossbar below fit their 32-bit fields. */
  lemma TwoRegionsFit(size: nat)
    requires size == 0x1000_0000
    ensures Fits([0, size], 32) && Fits([28, 28], 32)
  {
    Pow2Facts();
  }

  /** The wrapper over two bus masters and two bus slaves, all 32-bit in "sys": RAM at 0 and
      a peripheral window at 0x1000_0000, each 256 MiB. */
  method BuildTwoByTwo(cpu: AxiInterface, dma: AxiInterface, ram: AxiInterface, csr: AxiInterface)
    returns (ic: AxiInterconnect)
    requires Sys32(cpu) && Sys32(dma) && Sys32(ram) && Sys32(csr)
    ensures fresh(ic) && ic.Valid()
    ensures |ic.sAxis| == 2 && |ic.mAxis| == 2
    ensures ic.Ports() == [cpu, dma, ram, csr]
    ensures Origins(ic.mAxis) == [0, 0x1000_0000] && Sizes(ic.mAxis) == [0x1000_0000, 0x1000_0000]
  {
    var ports := [cpu, dma, ram, csr];
    var masters := [Some(cpu), Some(dma)];
    var regions := [(SocRegion(Some(0), Some(0x1000_0000)), Some(ram)), (SocRegion(Some(0x1000_0000), Some(0x1000_0000)), Some(csr))];
    Sys32Consistent(ports);
    assert Present(masters) + SlavePorts(regions) == ports;
    var w := InterconnectWrapper(masters, regions);
    ic := w.value;
    assert ic.Ports() == ports;
    assert Origins(ic.mAxis) == [0, 0x1000_0000];
    assert Sizes(ic.mAxis) == [0x1000_0000, 0x1000_0000];
  }

  /** Finalizing that interconnect yields a 2x2 crossbar whose base-address fields decode to
      the two origins and whose region-width fields are both 28. */
  method TwoByTwoCrossbar(cpu: AxiInterface, dma: AxiInterface, ram: AxiInterface, csr: AxiInterface)
    returns (r: Result<CrossbarConfig, AxiError>)
    requires Sys32(cpu) && Sys32(dma) && Sys32(ram) && Sys32(csr)
    ensures r.Ok?
    ensures r.value.sCount == 2 && r.value.mCount == 2
    ensures r.value.addrWidth == 32 && r.value.dataWidth == 32 && r.value.clockDomain == "sys"
    ensures r.value.mBaseAddr.width == 64 && r.value.mAddrWidth.width == 64
    ensures Field(r.value.mBaseAddr.value, 0, 32) == 0 && Field(r.value.mBaseAddr.value, 1, 32) == 0x1000_0000
    ensures Field(r.value.mAddrWidth.value, 0, 32) == 28 && Field(r.value.mAddrWidth.value, 1, 32) == 28
  {
    var ic := BuildTwoByTwo(cpu, dma, ram, csr);
    Sys32Consistent(ic.Ports());
    Pow2Facts();
    TwoRegionWidths(0x1000_0000, 28);
    TwoRegionsFit(0x1000_0000);
    r := ic.Finalize();
  }
}
