/** `AXIAdapter`: joins one slave-side interface to one master-side interface, possibly of a
    different data width. Its checks compare the clock domain, the address width and the ID
    width of the two sides, in that order; the data widths are never compared. */
module Adapter {
  import opened AxiTypes
  import opened Vectors
  import opened Consistency

  /** The configuration of the Verilog `axi_adapter` instance. The port maps give, for every
      packed signal, the wires of that signal on the slave and on the master interface. */
  datatype AdapterConfig = AdapterConfig(
    clockDomain: string,
    addrWidth: nat,
    sDataWidth: nat,
    mDataWidth: nat,
    forwardId: bool,
    idWidth: nat,
    convertBurst: bool,
    convertNarrowBurst: bool,
    sPorts: map<Signal, seq<Wire>>,
    mPorts: map<Signal, seq<Wire>>)

  /** The keyword defaults of the constructor. */
  const DefaultConvertBurst: bool := true
  const DefaultConvertNarrowBurst: bool := false
  const DefaultForwardId: bool := true

  /** The constructor's checks and the parameters it derives; every value is taken from the
      slave side. `FORWARD_ID` is on only when asked for and the ID is at least one bit wide. */
  function AdapterParameters(s: AxiInterface, m: AxiInterface, convertBurst: bool, convertNarrowBurst: bool, forwardId: bool)
    : (r: Result<AdapterConfig, AxiError>)
    ensures r.Ok? <==> Agree(ClockDomain, s, m) && Agree(AddressWidth, s, m) && Agree(IdWidth, s, m)
    ensures !Agree(ClockDomain, s, m) ==> r == Err(PairMismatch(ClockDomain))
    ensures Agree(ClockDomain, s, m) && !Agree(AddressWidth, s, m) ==> r == Err(PairMismatch(AddressWidth))
    ensures Agree(ClockDomain, s, m) && Agree(AddressWidth, s, m) && !Agree(IdWidth, s, m) ==>
      r == Err(PairMismatch(IdWidth))
    ensures r.Ok? ==>
      && r.value.clockDomain == s.clockDomain == m.clockDomain
      && r.value.addrWidth == s.aw.addr == m.aw.addr
      && r.value.idWidth == s.aw.id == m.aw.id
      && r.value.sDataWidth == s.w.data
      && r.value.mDataWidth == m.w.data
      && (r.value.forwardId <==> forwardId && r.value.idWidth != 0)
      && r.value.convertBurst == convertBurst
      && r.value.convertNarrowBurst == convertNarrowBurst
  {
    if s.clockDomain != m.clockDomain then Err(PairMismatch(ClockDomain))
    else if s.aw.addr != m.aw.addr then Err(PairMismatch(AddressWidth))
    else if s.aw.id != m.aw.id then Err(PairMismatch(IdWidth))
    else
      Ok(AdapterConfig(
        s.clockDomain, s.aw.addr, s.w.data, m.w.data,
        forwardId && s.aw.id != 0, s.aw.id,
        convertBurst, convertNarrowBurst,
        PortVectors([s]), PortVectors([m])))
  }

  /** Called without the optional arguments, the adapter converts bursts, leaves narrow bursts
      alone and forwards the ID exactly when it is at least one bit wide. */
  lemma DefaultArguments(s: AxiInterface, m: AxiInterface)
    requires AdapterParameters(s, m, DefaultConvertBurst, DefaultConvertNarrowBurst, DefaultForwardId).Ok?
    ensures var c := AdapterParameters(s, m, DefaultConvertBurst, DefaultConvertNarrowBurst, DefaultForwardId).value;
      && c.convertBurst
      && !c.convertNarrowBurst
      && (c.forwardId <==> s.aw.id != 0)
  {
  }

  /** Each port of the instance is wired to the whole field of its own interface. */
  lemma AdapterPortsAreFields(s: AxiInterface, m: AxiInterface, convertBurst: bool, convertNarrowBurst: bool, forwardId: bool, sig: Signal)
    requires AdapterParameters(s, m, convertBurst, convertNarrowBurst, forwardId).Ok?
    requires sig in PackedSignals
    ensures var c := AdapterParameters(s, m, convertBurst, convertNarrowBurst, forwardId).value;
      && c.sPorts[sig] == SignalBits(s, sig)
      && c.mPorts[sig] == SignalBits(m, sig)
  {
    OnePortVector(s, sig);
    OnePortVector(m, sig);
  }

  /** The bus vector of a single interface is that interface's field. */
  lemma OnePortVector(a: AxiInterface, sig: Signal)
    ensures BusVector([a], sig) == SignalBits(a, sig)
  {
    assert PortFields([a], sig) == [SignalBits(a, sig)];
    assert Cat(PortFields([a], sig)) == SignalBits(a, sig) + Cat(PortFields([a], sig)[1..]);
  }

  /** The data width of either side never decides acceptance: an adapter is accepted for a
      pair exactly when it is accepted after the master's data width is changed to any `d`. */
  lemma DataWidthsNeverCompared(s: AxiInterface, m: AxiInterface, d: nat, convertBurst: bool, convertNarrowBurst: bool, forwardId: bool)
    ensures var m' := m.(w := m.w.(data := d));
      && AdapterParameters(s, m, convertBurst, convertNarrowBurst, forwardId).Ok?
         == AdapterParameters(s, m', convertBurst, convertNarrowBurst, forwardId).Ok?
      && (AdapterParameters(s, m', convertBurst, convertNarrowBurst, forwardId).Ok? ==>
            AdapterParameters(s, m', convertBurst, convertNarrowBurst, forwardId).value.mDataWidth == d)
  {
  }

  /** Swapping the two sides does not change acceptance; it swaps the data widths and keeps
      every other derived value. */
  lemma SwappedSides(s: AxiInterface, m: AxiInterface, convertBurst: bool, convertNarrowBurst: bool, forwardId: bool)
    ensures AdapterParameters(s, m, convertBurst, convertNarrowBurst, forwardId).Ok?
      == AdapterParameters(m, s, convertBurst, convertNarrowBurst, forwardId).Ok?
    ensures AdapterParameters(s, m, convertBurst, convertNarrowBurst, forwardId).Ok? ==>
      var c, c' := AdapterParameters(s, m, convertBurst, convertNarrowBurst, forwardId).value,
                   AdapterParameters(m, s, convertBurst, convertNarrowBurst, forwardId).value;
      && c'.sDataWidth == c.mDataWidth && c'.mDataWidth == c.sDataWidth
      && c'.addrWidth == c.addrWidth && c'.idWidth == c.idWidth && c'.clockDomain == c.clockDomain
      && c'.forwardId == c.forwardId
  {
  }

  /** The adapter's checks against the interconnect's over the same two interfaces: the
      adapter compares ID widths and not data widths, the interconnect the reverse. So a pair
      passes both exactly when it agrees on all four properties. */
  lemma AdapterVersusInterconnect(s: AxiInterface, m: AxiInterface, convertBurst: bool, convertNarrowBurst: bool, forwardId: bool)
    ensures AdapterParameters(s, m, convertBurst, convertNarrowBurst, forwardId).Ok? && CheckParameters([s, m]).Ok?
      <==> Agree(ClockDomain, s, m) && Agree(AddressWidth, s, m) && Agree(DataWidth, s, m) && Agree(IdWidth, s, m)
    ensures Agree(ClockDomain, s, m) && Agree(AddressWidth, s, m) && !Agree(DataWidth, s, m) && Agree(IdWidth, s, m) ==>
      AdapterParameters(s, m, convertBurst, convertNarrowBurst, forwardId).Ok? && CheckParameters([s, m]).Err?
    ensures Agree(ClockDomain, s, m) && Agree(AddressWidth, s, m) && Agree(DataWidth, s, m) && !Agree(IdWidth, s, m) ==>
      AdapterParameters(s, m, convertBurst, convertNarrowBurst, forwardId).Err? && CheckParameters([s, m]).Ok?
  {
    var axis := [s, m];
    if Agree(ClockDomain, s, m) && Agree(AddressWidth, s, m) && Agree(DataWidth, s, m) {
      assert Consistent(axis);
    }
    if !Agree(DataWidth, s, m) {
      assert !Agree(DataWidth, axis[0], axis[1]);
    }
  }

  /** A zero-width ID is never forwarded, whatever the caller asks. */
  lemma ZeroIdNeverForwarded(s: AxiInterface, m: AxiInterface, convertBurst: bool, convertNarrowBurst: bool, forwardId: bool)
    requires s.aw.id == 0
    requires AdapterParameters(s, m, convertBurst, convertNarrowBurst, forwardId).Ok?
    ensures !AdapterParameters(s, m, convertBurst, convertNarrowBurst, forwardId).value.forwardId
  {
  }
}
