/** `AXIInterconnect` and `AXIInterconnectWrapper`: the registry of slave-side and master-side
    ports, the consistency check run after every registration, and the parameters and bus
    vectors that finalization hands to the Verilog `axi_interconnect` crossbar. */
module Interconnect {
  import opened AxiTypes
  import opened Bits
  import opened Region
  import opened Vectors
  import opened Naming
  import opened Registry
  import opened Consistency

  /** Everything the interconnect instance is configured with: the counts, the uniform widths,
      the packed per-master base addresses and region widths, the clock domain of `clk`/`rst`,
      and the concatenated signal vectors of the slave side and of the master side. */
  datatype CrossbarConfig = CrossbarConfig(
    sCount: nat,
    mCount: nat,
    dataWidth: nat,
    addrWidth: nat,
    idWidth: nat,
    mBaseAddr: Constant,
    mAddrWidth: Constant,
    clockDomain: string,
    sVectors: map<Signal, seq<Wire>>,
    mVectors: map<Signal, seq<Wire>>)

  /** A registration succeeds, as far as the check goes, when the check does. */
  function CheckOutcome(r: Result<Parameters, AxiError>): Outcome
  {
    match r
    case Ok(_) => Pass
    case Err(e) => Fail(e)
  }

  /** Field width of the packed M_ADDR_WIDTH parameter. */
  const RegionWidthField: nat := 32

  class AxiInterconnect {
    /** `s_axis` and `m_axis`, in insertion order. */
    var sAxis: seq<Entry>
    var mAxis: seq<Entry>
    /** The attributes the consistency check assigns. */
    var clockDomain: Option<string>
    var addressWidth: Option<nat>
    var dataWidth: Option<nat>
    var idWidth: Option<nat>

    /** Dict keys are unique within each group; masters carry a region, slaves do not. */
    ghost predicate Valid()
      reads this
    {
      UniqueNames(sAxis) && UniqueNames(mAxis) && NoRegions(sAxis) && HaveRegions(mAxis)
    }

    /** Every registered interface, slaves first and then masters. */
    function Ports(): seq<AxiInterface>
      reads this
    {
      Interfaces(sAxis) + Interfaces(mAxis)
    }

    function Attributes(): Recorded
      reads this
    {
      Recorded(clockDomain, addressWidth, dataWidth, idWidth)
    }

    /** The check over the registered ports passes, and the attributes hold its values. */
    predicate Checked()
      reads this
    {
      CheckParameters(Ports()).Ok? && Attributes() == Recording(CheckParameters(Ports()).value)
    }

    constructor ()
      ensures Valid() && sAxis == [] && mAxis == []
      ensures Attributes() == Recorded(None, None, None, None)
    {
      sAxis, mAxis := [], [];
      clockDomain, addressWidth, dataWidth, idWidth := None, None, None, None;
    }

    /** `get_if_name`: the name of the first port, slaves first, whose interface is `axi`. */
    method GetIfName(axi: AxiInterface) returns (name: Option<string>)
      ensures name == LookupName(sAxis + mAxis, axi.handle)
      ensures name.None? <==> forall i :: 0 <= i < |sAxis + mAxis| ==> (sAxis + mAxis)[i].1.axi.handle != axi.handle
    {
      var es := sAxis + mAxis;
      var i := 0;
      while i < |es|
        invariant 0 <= i <= |es|
        invariant forall j :: 0 <= j < i ==> es[j].1.axi.handle != axi.handle
      {
        if es[i].1.axi.handle == axi.handle {
          return Some(es[i].0);
        }
        i := i + 1;
      }
      return None;
    }

    /** `get_check_parameters`: compares clock domains, then address widths, then data widths
        against the first port, assigning each attribute before its comparison, and finally
        records the first port's ID width unchecked. */
    method GetCheckParameters() returns (r: Result<Parameters, AxiError>)
      modifies this`clockDomain, this`addressWidth, this`dataWidth, this`idWidth
      ensures r == CheckParameters(Ports())
      ensures Attributes() == RecordCheck(Ports(), old(Attributes()))
    {
      var axis := Interfaces(sAxis) + Interfaces(mAxis);
      if |axis| == 0 {
        return Err(EmptyRegistry);
      }
      clockDomain := Some(axis[0].clockDomain);
      var k := ScanForMismatch(axis, ClockDomain);
      if k.Some? {
        return Err(Mismatch(ClockDomain, k.value));
      }
      addressWidth := Some(axis[0].aw.addr);
      k := ScanForMismatch(axis, AddressWidth);
      if k.Some? {
        return Err(Mismatch(AddressWidth, k.value));
      }
      dataWidth := Some(axis[0].w.data);
      k := ScanForMismatch(axis, DataWidth);
      if k.Some? {
        return Err(Mismatch(DataWidth, k.value));
      }
      idWidth := Some(axis[0].aw.id);
      return Ok(Parameters(axis[0].clockDomain, axis[0].aw.addr, axis[0].w.data, axis[0].aw.id));
    }

    /** `add_slave`: the name defaults to "s_axi<slave count>" and must be new among the
        slaves; the port is appended, and the check then runs over the registry including it,
        so a port that fails the check stays registered. */
    method AddSlave(name: Option<string>, sAxi: Option<AxiInterface>) returns (r: Outcome)
      requires Valid()
      modifies this
      ensures Valid()
      ensures var n := ResolveName(name, SlavePrefix, |old(sAxis)|);
        if n in Names(old(sAxis)) then
          r == Fail(DuplicateName(n)) && unchanged(this)
        else if sAxi.None? then
          r == Fail(NotAnInterface) && unchanged(this)
        else
          && sAxis == old(sAxis) + [(n, Port(sAxi.value, None, None))]
          && mAxis == old(mAxis)
          && r == CheckOutcome(CheckParameters(Ports()))
          && Attributes() == RecordCheck(Ports(), old(Attributes()))
    {
      var n := ResolveName(name, SlavePrefix, |sAxis|);
      if n in Names(sAxis) {
        return Fail(DuplicateName(n));
      }
      if sAxi.None? {
        return Fail(NotAnInterface);
      }
      assert forall i :: 0 <= i < |sAxis| ==> sAxis[i].0 == Names(sAxis)[i];
      sAxis := sAxis + [(n, Port(sAxi.value, None, None))];
      var check := GetCheckParameters();
      r := CheckOutcome(check);
    }

    /** `add_master`: the name defaults to "m_axi<master count>" and must be new among the
        masters; the interface, the origin and the size must be given. Origin and size are
        stored as given; the check then runs as for `add_slave`. */
    method AddMaster(name: Option<string>, mAxi: Option<AxiInterface>, origin: Option<nat>, size: Option<nat>)
      returns (r: Outcome)
      requires Valid()
      modifies this
      ensures Valid()
      ensures var n := ResolveName(name, MasterPrefix, |old(mAxis)|);
        if n in Names(old(mAxis)) then
          r == Fail(DuplicateName(n)) && unchanged(this)
        else if mAxi.None? then
          r == Fail(NotAnInterface) && unchanged(this)
        else if origin.None? then
          r == Fail(MissingOrigin) && unchanged(this)
        else if size.None? then
          r == Fail(MissingSize) && unchanged(this)
        else
          && mAxis == old(mAxis) + [(n, Port(mAxi.value, origin, size))]
          && sAxis == old(sAxis)
          && r == CheckOutcome(CheckParameters(Ports()))
          && Attributes() == RecordCheck(Ports(), old(Attributes()))
    {
      var n := ResolveName(name, MasterPrefix, |mAxis|);
      if n in Names(mAxis) {
        return Fail(DuplicateName(n));
      }
      if mAxi.None? {
        return Fail(NotAnInterface);
      }
      if origin.None? {
        return Fail(MissingOrigin);
      }
      if size.None? {
        return Fail(MissingSize);
      }
      assert forall i :: 0 <= i < |mAxis| ==> mAxis[i].0 == Names(mAxis)[i];
      mAxis := mAxis + [(n, Port(mAxi.value, origin, size))];
      var check := GetCheckParameters();
      r := CheckOutcome(check);
    }

    /** `do_finalize`: re-runs the check, derives each master's region width (failing on a
        zero size), packs the origins into fields of the address width and the region widths
        into 32-bit fields, master 0 lowest, and concatenates every signal across the slaves
        and across the masters in registration order. */
    method Finalize() returns (r: Result<CrossbarConfig, AxiError>)
      requires Valid()
      modifies this`clockDomain, this`addressWidth, this`dataWidth, this`idWidth
      ensures Attributes() == RecordCheck(Ports(), old(Attributes()))
      ensures r.Ok? <==> CheckParameters(Ports()).Ok? && RegionWidths(Sizes(mAxis)).Ok?
      ensures CheckParameters(Ports()).Err? ==> r == Err(CheckParameters(Ports()).error)
      ensures CheckParameters(Ports()).Ok? && RegionWidths(Sizes(mAxis)).Err? ==>
        r == Err(RegionWidths(Sizes(mAxis)).error)
      ensures r.Ok? ==>
        var ps, widths, c := CheckParameters(Ports()).value, RegionWidths(Sizes(mAxis)).value, r.value;
        && c.sCount == |sAxis| && c.mCount == |mAxis|
        && c.clockDomain == ps.clockDomain
        && c.dataWidth == ps.dataWidth && c.addrWidth == ps.addressWidth && c.idWidth == ps.idWidth
        && c.mBaseAddr == Constant(OrPack(Origins(mAxis), ps.addressWidth), |mAxis| * ps.addressWidth)
        && c.mAddrWidth == Constant(OrPack(widths, RegionWidthField), |mAxis| * RegionWidthField)
        && c.sVectors == PortVectors(Interfaces(sAxis))
        && c.mVectors == PortVectors(Interfaces(mAxis))
      ensures r.Ok? && Fits(Origins(mAxis), r.value.addrWidth) ==>
        forall i :: 0 <= i < |mAxis| ==> Field(r.value.mBaseAddr.value, i, r.value.addrWidth) == Origins(mAxis)[i]
      ensures r.Ok? && Fits(RegionWidths(Sizes(mAxis)).value, RegionWidthField) ==>
        forall i :: 0 <= i < |mAxis| ==>
          Field(r.value.mAddrWidth.value, i, RegionWidthField) == RegionWidths(Sizes(mAxis)).value[i]
    {
      var check := GetCheckParameters();
      if check.Err? {
        return Err(check.error);
      }
      var ps := check.value;
      var origins := Origins(mAxis);
      var widths := RegionWidths(Sizes(mAxis));
      if widths.Err? {
        return Err(widths.error);
      }
      var baseAddr := FormatParams(origins, ps.addressWidth);
      var addrWidth := FormatParams(widths.value, RegionWidthField);
      r := Ok(CrossbarConfig(
        |sAxis|, |mAxis|, ps.dataWidth, ps.addressWidth, ps.idWidth,
        baseAddr, addrWidth, ps.clockDomain,
        PortVectors(Interfaces(sAxis)), PortVectors(Interfaces(mAxis))));
    }
  }

  /** Of a consistent registry, the write-address and write-data vectors of each side are
      exactly (port count) x (uniform width) wide. The other
      address and data signals (`ar.addr`, `r.data`) are not compared by the check. */
  lemma ConsistentVectorWidths(s: seq<Entry>, m: seq<Entry>)
    requires CheckParameters(Interfaces(s) + Interfaces(m)).Ok?
    ensures var ps := CheckParameters(Interfaces(s) + Interfaces(m)).value;
      && |PortVectors(Interfaces(s))[AwAddr]| == |s| * ps.addressWidth
      && |PortVectors(Interfaces(s))[WData]| == |s| * ps.dataWidth
      && |PortVectors(Interfaces(m))[AwAddr]| == |m| * ps.addressWidth
      && |PortVectors(Interfaces(m))[WData]| == |m| * ps.dataWidth
  {
    var ps := CheckParameters(Interfaces(s) + Interfaces(m)).value;
    CheckCoversEveryPort(s, m);
    UniformTotalWidth(Interfaces(s), AwAddr, ps.addressWidth);
    UniformTotalWidth(Interfaces(s), WData, ps.dataWidth);
    UniformTotalWidth(Interfaces(m), AwAddr, ps.addressWidth);
    UniformTotalWidth(Interfaces(m), WData, ps.dataWidth);
    BusVectorWidth(Interfaces(s), AwAddr);
    BusVectorWidth(Interfaces(s), WData);
    BusVectorWidth(Interfaces(m), AwAddr);
    BusVectorWidth(Interfaces(m), WData);
  }

  /** A SoC region as the wrapper receives it with each slave. Python lets either field be
      `None`, which `add_master` refuses. */
  datatype SocRegion = SocRegion(origin: Option<nat>, size: Option<nat>)

  predicate AllPresent(xs: seq<Option<AxiInterface>>)
  {
    forall i :: 0 <= i < |xs| ==> xs[i].Some?
  }

  function Present(xs: seq<Option<AxiInterface>>): seq<AxiInterface>
    requires AllPresent(xs)
  {
    seq(|xs|, i requires 0 <= i < |xs| => xs[i].value)
  }

  /** Every SoC slave is given, with an origin and a size. */
  predicate SlavesPresent(slaves: seq<(SocRegion, Option<AxiInterface>)>)
  {
    forall j :: 0 <= j < |slaves| ==> slaves[j].1.Some? && slaves[j].0.origin.Some? && slaves[j].0.size.Some?
  }

  function SlavePorts(slaves: seq<(SocRegion, Option<AxiInterface>)>): seq<AxiInterface>
    requires SlavesPresent(slaves)
  {
    seq(|slaves|, j requires 0 <= j < |slaves| => slaves[j].1.value)
  }

  /** The SoC's bus masters as slave-side entries: "s_axi0", "s_axi1", ... in list order. */
  function SocMasterEntries(masters: seq<Option<AxiInterface>>): seq<Entry>
    requires AllPresent(masters)
  {
    seq(|masters|, i requires 0 <= i < |masters| =>
      (DefaultName(SlavePrefix, i), Port(masters[i].value, None, None)))
  }

  /** The SoC's bus slaves as master-side entries: "m_axi0", "m_axi1", ... with their regions. */
  function SocSlaveEntries(slaves: seq<(SocRegion, Option<AxiInterface>)>): seq<Entry>
    requires SlavesPresent(slaves)
  {
    seq(|slaves|, j requires 0 <= j < |slaves| =>
      (DefaultName(MasterPrefix, j), Port(slaves[j].1.value, slaves[j].0.origin, slaves[j].0.size)))
  }

  /** A failing non-empty prefix makes the whole sequence fail. */
  lemma PrefixFails(axis: seq<AxiInterface>, k: nat)
    requires 0 < k <= |axis|
    ensures CheckParameters(axis[..k]).Err? ==> CheckParameters(axis).Err?
  {
    if CheckParameters(axis).Ok? {
      PrefixConsistent(axis, k);
    }
  }

  /** What one registration call of the wrapper is handed: the interface it inserts, or the
      error its argument checks raise before inserting anything. */
  type Argument = Result<AxiInterface, AxiError>

  /** `add_slave(s_axi=m)`: the interface must be given. */
  function SocMasterArgument(m: Option<AxiInterface>): Argument
  {
    match m
    case None => Err(NotAnInterface)
    case Some(a) => Ok(a)
  }

  /** `add_master(m_axi=s, origin=..., size=...)`: the interface, the origin and the size must
      be given, checked in that order. */
  function SocSlaveArgument(slave: (SocRegion, Option<AxiInterface>)): (r: Argument)
    ensures r.Ok? <==> slave.1.Some? && slave.0.origin.Some? && slave.0.size.Some?
  {
    if slave.1.None? then Err(NotAnInterface)
    else if slave.0.origin.None? then Err(MissingOrigin)
    else if slave.0.size.None? then Err(MissingSize)
    else Ok(slave.1.value)
  }

  predicate AllOk(xs: seq<Argument>)
  {
    forall i :: 0 <= i < |xs| ==> xs[i].Ok?
  }

  function Values(xs: seq<Argument>): seq<AxiInterface>
    requires AllOk(xs)
  {
    seq(|xs|, i requires 0 <= i < |xs| => xs[i].value)
  }

  function MasterArguments(masters: seq<Option<AxiInterface>>): (r: seq<Argument>)
    ensures |r| == |masters| && forall i :: 0 <= i < |masters| ==> r[i] == SocMasterArgument(masters[i])
    ensures AllOk(r) <==> AllPresent(masters)
    ensures AllPresent(masters) ==> Values(r) == Present(masters)
  {
    seq(|masters|, i requires 0 <= i < |masters| => SocMasterArgument(masters[i]))
  }

  function SlaveArguments(slaves: seq<(SocRegion, Option<AxiInterface>)>): (r: seq<Argument>)
    ensures |r| == |slaves| && forall j :: 0 <= j < |slaves| ==> r[j] == SocSlaveArgument(slaves[j])
    ensures AllOk(r) <==> SlavesPresent(slaves)
    ensures SlavesPresent(slaves) ==> Values(r) == SlavePorts(slaves)
  {
    seq(|slaves|, j requires 0 <= j < |slaves| => SocSlaveArgument(slaves[j]))
  }

  /** The outcome of registering `xs` one by one after the interfaces `before`: the first
      refused argument fails with its error, the first registration whose check fails with
      that check's error, and only a run with no failure passes. */
  function Registration(before: seq<AxiInterface>, xs: seq<Argument>): Outcome
    decreases |xs|
  {
    if |xs| == 0 then Pass
    else if xs[0].Err? then Fail(xs[0].error)
    else
      var c := CheckParameters(before + [xs[0].value]);
      if c.Err? then Fail(c.error) else Registration(before + [xs[0].value], xs[1..])
  }

  /** Registering one by one passes exactly when every argument is accepted and the check over
      all the interfaces, after `before`, passes. */
  lemma {:induction false} RegistrationPasses(before: seq<AxiInterface>, xs: seq<Argument>)
    requires |before| > 0 ==> CheckParameters(before).Ok?
    ensures Registration(before, xs).Pass? <==>
      AllOk(xs) && (|before| + |xs| == 0 || CheckParameters(before + Values(xs)).Ok?)
    decreases |xs|
  {
    if |xs| == 0 {
      assert before + Values(xs) == before;
    } else if xs[0].Ok? {
      var v := xs[0].value;
      var c := CheckParameters(before + [v]);
      assert AllOk(xs) <==> AllOk(xs[1..]) by {
        if AllOk(xs[1..]) {
          forall i | 0 <= i < |xs| ensures xs[i].Ok? {
            if i > 0 { assert xs[i] == xs[1..][i - 1]; }
          }
        }
      }
      if AllOk(xs) {
        assert before + Values(xs) == (before + [v]) + Values(xs[1..]);
        if c.Err? {
          PrefixFails(before + Values(xs), |before| + 1);
          assert (before + Values(xs))[..|before| + 1] == before + [v];
        }
      }
      if c.Ok? {
        RegistrationPasses(before + [v], xs[1..]);
      }
    }
  }

  /** Registering `xs + ys` is registering `xs` and, when that passes, `ys` after it. */
  lemma {:induction false} RegistrationAppend(before: seq<AxiInterface>, xs: seq<Argument>, ys: seq<Argument>)
    ensures Registration(before, xs).Fail? ==> Registration(before, xs + ys) == Registration(before, xs)
    ensures Registration(before, xs).Pass? ==>
      AllOk(xs) && Registration(before, xs + ys) == Registration(before + Values(xs), ys)
    decreases |xs|
  {
    if |xs| == 0 {
      assert xs + ys == ys;
      assert before + Values(xs) == before;
    } else {
      assert (xs + ys)[0] == xs[0];
      if xs[0].Ok? {
        var v := xs[0].value;
        assert (xs + ys)[1..] == xs[1..] + ys;
        if CheckParameters(before + [v]).Ok? {
          RegistrationAppend(before + [v], xs[1..], ys);
          if Registration(before, xs).Pass? {
            assert AllOk(xs) by {
              forall i | 0 <= i < |xs| ensures xs[i].Ok? {
                if i > 0 { assert xs[i] == xs[1..][i - 1]; }
              }
            }
            assert before + Values(xs) == (before + [v]) + Values(xs[1..]);
          }
        }
      }
    }
  }

  /** Entries named by their position are never given the next position's default name. */
  lemma NextDefaultNameIsFresh(es: seq<Entry>, prefix: string)
    requires forall i :: 0 <= i < |es| ==> es[i].0 == DefaultName(prefix, i)
    ensures ResolveName(None, prefix, |es|) !in Names(es)
  {
    forall i | 0 <= i < |es| ensures Names(es)[i] != DefaultName(prefix, |es|) {
      DefaultNamesDistinct(prefix, i, |es|);
    }
  }

  lemma SocMasterEntriesStep(masters: seq<Option<AxiInterface>>, k: nat)
    requires k < |masters| && AllPresent(masters[..k]) && masters[k].Some?
    ensures AllPresent(masters[..k + 1])
    ensures SocMasterEntries(masters[..k + 1])
      == SocMasterEntries(masters[..k]) + [(DefaultName(SlavePrefix, k), Port(masters[k].value, None, None))]
    ensures AllPresent(masters) ==> Interfaces(SocMasterEntries(masters[..k + 1])) == Present(masters)[..k + 1]
    ensures Present(masters[..k + 1]) == Present(masters[..k]) + [masters[k].value]
    ensures Interfaces(SocMasterEntries(masters[..k + 1])) == Present(masters[..k + 1])
  {
    assert AllPresent(masters[..k + 1]);
  }

  /** One step of the wrapper's first loop: the SoC master `masters[k]` is added as slave port
      "s_axi<k>". */
  method AddSocMaster(ic: AxiInterconnect, masters: seq<Option<AxiInterface>>, k: nat) returns (r: Outcome)
    requires k < |masters|
    requires ic.Valid() && ic.mAxis == []
    requires AllPresent(masters[..k]) && ic.sAxis == SocMasterEntries(masters[..k])
    requires k > 0 ==> ic.Checked()
    modifies ic
    ensures ic.Valid() && ic.mAxis == []
    ensures r.Pass? ==>
      && AllPresent(masters[..k + 1])
      && ic.sAxis == SocMasterEntries(masters[..k + 1])
      && ic.Checked()
    ensures r.Fail? ==> !(AllPresent(masters) && CheckParameters(Present(masters)).Ok?)
    ensures masters[k].None? ==> r == Fail(NotAnInterface)
    ensures masters[k].Some? ==> r == CheckOutcome(CheckParameters(Present(masters[..k]) + [masters[k].value]))
    ensures var xs := MasterArguments(masters);
      Registration(Interfaces(old(ic.sAxis)), xs[k..]) == if r.Fail? then r else Registration(Interfaces(ic.sAxis), xs[k + 1..])
  {
    NextDefaultNameIsFresh(ic.sAxis, SlavePrefix);
    var xs := MasterArguments(masters);
    assert xs[k..][0] == SocMasterArgument(masters[k]) && xs[k..][1..] == xs[k + 1..];
    ghost var before := Interfaces(ic.sAxis);
    r := ic.AddSlave(None, masters[k]);
    if masters[k].Some? {
      SocMasterEntriesStep(masters, k);
      assert ic.Ports() == Present(masters[..k + 1]) == before + [masters[k].value];
      if r.Fail? && AllPresent(masters) {
        PrefixFails(Present(masters), k + 1);
      }
    }
  }

  /** The wrapper's first loop: each SoC master is added as a slave port under its default
      name, stopping at the first failure. */
  method AddSocMasters(ic: AxiInterconnect, masters: seq<Option<AxiInterface>>) returns (r: Outcome)
    requires ic.Valid() && ic.sAxis == [] && ic.mAxis == []
    modifies ic
    ensures ic.Valid() && ic.mAxis == []
    ensures r.Pass? <==> AllPresent(masters) && (|masters| == 0 || CheckParameters(Present(masters)).Ok?)
    ensures r.Pass? ==> ic.sAxis == SocMasterEntries(masters)
    ensures r.Pass? && |masters| > 0 ==> ic.Checked()
    ensures r == Registration([], MasterArguments(masters))
  {
    RegistrationPasses([], MasterArguments(masters));
    if AllPresent(masters) {
      assert [] + Values(MasterArguments(masters)) == Present(masters);
    }
    r := RegisterSocMasters(ic, masters);
  }

  /** The loop of `AddSocMasters`, stated by the registration outcome alone. */
  method RegisterSocMasters(ic: AxiInterconnect, masters: seq<Option<AxiInterface>>) returns (r: Outcome)
    requires ic.Valid() && ic.sAxis == [] && ic.mAxis == []
    modifies ic
    ensures ic.Valid() && ic.mAxis == []
    ensures r.Pass? ==> AllPresent(masters) && ic.sAxis == SocMasterEntries(masters)
    ensures r.Pass? && |masters| > 0 ==> ic.Checked()
    ensures r == Registration([], MasterArguments(masters))
  {
    var k := 0;
    ghost var xs := MasterArguments(masters);
    assert xs[0..] == xs;
    while k < |masters|
      invariant 0 <= k <= |masters|
      invariant ic.Valid() && ic.mAxis == []
      invariant AllPresent(masters[..k])
      invariant ic.sAxis == SocMasterEntries(masters[..k])
      invariant k > 0 ==> ic.Checked()
      invariant Registration([], xs) == Registration(Interfaces(ic.sAxis), xs[k..])
    {
      var res := AddSocMaster(ic, masters, k);
      if res.Fail? {
        return res;
      }
      k := k + 1;
    }
    assert masters[..k] == masters;
    return Pass;
  }

  lemma SocSlaveEntriesStep(slaves: seq<(SocRegion, Option<AxiInterface>)>, j: nat)
    requires j < |slaves| && SlavesPresent(slaves[..j])
    requires slaves[j].1.Some? && slaves[j].0.origin.Some? && slaves[j].0.size.Some?
    ensures SlavesPresent(slaves[..j + 1])
    ensures SocSlaveEntries(slaves[..j + 1]) == SocSlaveEntries(slaves[..j])
      + [(DefaultName(MasterPrefix, j), Port(slaves[j].1.value, slaves[j].0.origin, slaves[j].0.size))]
    ensures SlavesPresent(slaves) ==> Interfaces(SocSlaveEntries(slaves[..j + 1])) == SlavePorts(slaves)[..j + 1]
    ensures SlavePorts(slaves[..j + 1]) == SlavePorts(slaves[..j]) + [slaves[j].1.value]
    ensures Interfaces(SocSlaveEntries(slaves[..j + 1])) == SlavePorts(slaves[..j + 1])
  {
    assert SlavesPresent(slaves[..j + 1]);
  }

  /** One step of the wrapper's second loop: the SoC slave `slaves[j]` is added as master port
      "m_axi<j>" with its region. */
  method AddSocSlave(ic: AxiInterconnect, slaves: seq<(SocRegion, Option<AxiInterface>)>, j: nat) returns (r: Outcome)
    requires j < |slaves|
    requires ic.Valid()
    requires SlavesPresent(slaves[..j]) && ic.mAxis == SocSlaveEntries(slaves[..j])
    requires |ic.sAxis| + j > 0 ==> ic.Checked()
    modifies ic
    ensures ic.Valid() && ic.sAxis == old(ic.sAxis)
    ensures r.Pass? ==>
      && SlavesPresent(slaves[..j + 1])
      && ic.mAxis == SocSlaveEntries(slaves[..j + 1])
      && ic.Checked()
    ensures r.Fail? ==>
      !(SlavesPresent(slaves) && CheckParameters(Interfaces(ic.sAxis) + SlavePorts(slaves)).Ok?)
    ensures SocSlaveArgument(slaves[j]).Err? ==> r == Fail(SocSlaveArgument(slaves[j]).error)
    ensures SocSlaveArgument(slaves[j]).Ok? ==>
      r == CheckOutcome(CheckParameters(Interfaces(ic.sAxis) + SlavePorts(slaves[..j]) + [SocSlaveArgument(slaves[j]).value]))
    ensures var xs, before := SlaveArguments(slaves), Interfaces(ic.sAxis) + SlavePorts(slaves[..j]);
      && (r.Fail? ==> Registration(before, xs[j..]) == r)
      && (r.Pass? ==>
            && SlavesPresent(slaves[..j + 1])
            && Registration(before, xs[j..]) == Registration(Interfaces(ic.sAxis) + SlavePorts(slaves[..j + 1]), xs[j + 1..]))
  {
    NextDefaultNameIsFresh(ic.mAxis, MasterPrefix);
    var region := slaves[j].0;
    var xs := SlaveArguments(slaves);
    assert xs[j..][0] == SocSlaveArgument(slaves[j]) && xs[j..][1..] == xs[j + 1..];
    r := ic.AddMaster(None, slaves[j].1, region.origin, region.size);
    if SocSlaveArgument(slaves[j]).Ok? {
      SocSlaveEntriesStep(slaves, j);
      assert ic.Ports() == Interfaces(ic.sAxis) + SlavePorts(slaves[..j]) + [slaves[j].1.value];
      assert Interfaces(ic.sAxis) + SlavePorts(slaves[..j + 1])
        == Interfaces(ic.sAxis) + SlavePorts(slaves[..j]) + [slaves[j].1.value];
      if r.Fail? && SlavesPresent(slaves) {
        var all := Interfaces(ic.sAxis) + SlavePorts(slaves);
        assert ic.Ports() == all[..|ic.sAxis| + j + 1];
        PrefixFails(all, |ic.sAxis| + j + 1);
      }
    }
  }

  /** The wrapper's second loop: each SoC slave is added as a master port under its default
      name with its region, stopping at the first failure. */
  method AddSocSlaves(ic: AxiInterconnect, slaves: seq<(SocRegion, Option<AxiInterface>)>) returns (r: Outcome)
    requires ic.Valid() && ic.mAxis == []
    requires |ic.sAxis| > 0 ==> ic.Checked()
    modifies ic
    ensures ic.Valid() && ic.sAxis == old(ic.sAxis)
    ensures r.Pass? <==>
      && SlavesPresent(slaves)
      && (|ic.sAxis| + |slaves| == 0 || CheckParameters(Interfaces(ic.sAxis) + SlavePorts(slaves)).Ok?)
    ensures r.Pass? ==> ic.mAxis == SocSlaveEntries(slaves)
    ensures r.Pass? && |ic.sAxis| + |slaves| > 0 ==> ic.Checked()
    ensures r == Registration(Interfaces(ic.sAxis), SlaveArguments(slaves))
  {
    assert ic.Ports() == Interfaces(ic.sAxis);
    RegistrationPasses(Interfaces(ic.sAxis), SlaveArguments(slaves));
    r := RegisterSocSlaves(ic, slaves);
  }

  /** The loop of `AddSocSlaves`, stated by the registration outcome alone. */
  method RegisterSocSlaves(ic: AxiInterconnect, slaves: seq<(SocRegion, Option<AxiInterface>)>) returns (r: Outcome)
    requires ic.Valid() && ic.mAxis == []
    requires |ic.sAxis| > 0 ==> ic.Checked()
    modifies ic
    ensures ic.Valid() && ic.sAxis == old(ic.sAxis)
    ensures r.Pass? ==> SlavesPresent(slaves) && ic.mAxis == SocSlaveEntries(slaves)
    ensures r.Pass? && |ic.sAxis| + |slaves| > 0 ==> ic.Checked()
    ensures r == Registration(Interfaces(ic.sAxis), SlaveArguments(slaves))
  {
    var j := 0;
    ghost var xs, before := SlaveArguments(slaves), Interfaces(ic.sAxis);
    assert before + SlavePorts(slaves[..0]) == before && xs[0..] == xs;
    while j < |slaves|
      invariant 0 <= j <= |slaves|
      invariant ic.Valid() && ic.sAxis == old(ic.sAxis)
      invariant SlavesPresent(slaves[..j])
      invariant ic.mAxis == SocSlaveEntries(slaves[..j])
      invariant |ic.sAxis| + j > 0 ==> ic.Checked()
      invariant Registration(before, xs) == Registration(before + SlavePorts(slaves[..j]), xs[j..])
    {
      var res := AddSocSlave(ic, slaves, j);
      if res.Fail? {
        return res;
      }
      j := j + 1;
    }
    assert slaves[..j] == slaves;
    return Pass;
  }

  /** `AXIInterconnectWrapper`: the SoC's bus masters become the interconnect's slave ports and
      the SoC's bus slaves its master ports, each in list order under default names; the first
      failing registration aborts construction with its error. It succeeds exactly when every
      interface and region is given and all interfaces, masters first, pass the check; the
      attributes are then those of that check. */
  method InterconnectWrapper(masters: seq<Option<AxiInterface>>, slaves: seq<(SocRegion, Option<AxiInterface>)>)
    returns (r: Result<AxiInterconnect, AxiError>)
    ensures r.Ok? <==>
      && AllPresent(masters)
      && SlavesPresent(slaves)
      && (|masters| + |slaves| == 0 || CheckParameters(Present(masters) + SlavePorts(slaves)).Ok?)
    ensures r.Ok? ==>
      && fresh(r.value)
      && r.value.Valid()
      && AllPresent(masters)
      && SlavesPresent(slaves)
      && r.value.sAxis == SocMasterEntries(masters)
      && r.value.mAxis == SocSlaveEntries(slaves)
      && (|masters| + |slaves| > 0 ==>
            && CheckParameters(Present(masters) + SlavePorts(slaves)).Ok?
            && r.value.Attributes() == Recording(CheckParameters(Present(masters) + SlavePorts(slaves)).value))
    ensures r.Ok? ==> Registration([], MasterArguments(masters) + SlaveArguments(slaves)) == Pass
    ensures r.Err? ==> Registration([], MasterArguments(masters) + SlaveArguments(slaves)) == Fail(r.error)
  {
    var ic := new AxiInterconnect();
    var res := AddSocMasters(ic, masters);
    RegistrationAppend([], MasterArguments(masters), SlaveArguments(slaves));
    if res.Fail? {
      if AllPresent(masters) && SlavesPresent(slaves) && |masters| > 0 {
        var all := Present(masters) + SlavePorts(slaves);
        assert all[..|masters|] == Present(masters);
        PrefixFails(all, |masters|);
      }
      return Err(res.error);
    }
    assert Interfaces(ic.sAxis) == Present(masters) == [] + Values(MasterArguments(masters));
    assert ic.Ports() == Interfaces(ic.sAxis);
    res := AddSocSlaves(ic, slaves);
    if res.Fail? {
      return Err(res.error);
    }
    assert ic.Ports() == Present(masters) + SlavePorts(slaves);
    r := Ok(ic);
  }
}
