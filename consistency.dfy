/** The interconnect's consistency check (`get_check_parameters`): every port must share the
    first port's clock domain, address width and data width; the ID width is read from the
    first port without being compared. */
module Consistency {
  import opened AxiTypes
  import opened Registry

  /** Whether two interfaces agree on a property. */
  predicate Agree(p: Property, a: AxiInterface, b: AxiInterface)
  {
    match p
    case ClockDomain => a.clockDomain == b.clockDomain
    case AddressWidth => a.aw.addr == b.aw.addr
    case DataWidth => a.w.data == b.w.data
    case IdWidth => a.aw.id == b.aw.id
  }

  /** Every port agrees with the first one on `p`. */
  predicate Uniform(axis: seq<AxiInterface>, p: Property)
  {
    forall i :: 0 <= i < |axis| ==> Agree(p, axis[0], axis[i])
  }

  /** Every port has the first port's clock domain, address width and data width. */
  predicate Consistent(axis: seq<AxiInterface>)
  {
    Uniform(axis, ClockDomain) && Uniform(axis, AddressWidth) && Uniform(axis, DataWidth)
  }

  /** The values the check records when it succeeds. */
  datatype Parameters = Parameters(clockDomain: string, addressWidth: nat, dataWidth: nat, idWidth: nat)

  /** The index of the first port at or after `from` that disagrees with port 0 on `p`. */
  function FirstMismatch(axis: seq<AxiInterface>, p: Property, from: nat): (r: Option<nat>)
    requires 0 < |axis| && from <= |axis|
    ensures r.None? <==> forall i :: from <= i < |axis| ==> Agree(p, axis[0], axis[i])
    ensures r.Some? ==> from <= r.value < |axis| && !Agree(p, axis[0], axis[r.value])
    ensures r.Some? ==> forall i :: from <= i < r.value ==> Agree(p, axis[0], axis[i])
    decreases |axis| - from
  {
    if from == |axis| then None
    else if !Agree(p, axis[0], axis[from]) then Some(from)
    else FirstMismatch(axis, p, from + 1)
  }

  /** The outcome of `get_check_parameters` on the ports `axis`, slaves first: the empty
      registry fails; otherwise the clock domains are compared first, then the address widths,
      then the data widths, and the first port that disagrees with port 0 on the first property
      that fails is reported. On success the first port's values are the parameters. */
  function CheckParameters(axis: seq<AxiInterface>): (r: Result<Parameters, AxiError>)
    ensures r.Ok? <==> |axis| > 0 && Consistent(axis)
    ensures r.Ok? ==> r.value == Parameters(axis[0].clockDomain, axis[0].aw.addr, axis[0].w.data, axis[0].aw.id)
    ensures r.Err? ==> r.error == EmptyRegistry || r.error.Mismatch?
    ensures r.Err? && r.error == EmptyRegistry <==> |axis| == 0
    ensures r.Err? && r.error.Mismatch? ==>
      && r.error.property != IdWidth
      && 0 < r.error.index < |axis|
      && !Agree(r.error.property, axis[0], axis[r.error.index])
      && (forall i :: 0 <= i < r.error.index ==> Agree(r.error.property, axis[0], axis[i]))
      && (r.error.property != ClockDomain ==> Uniform(axis, ClockDomain))
      && (r.error.property == DataWidth ==> Uniform(axis, AddressWidth))
  {
    if |axis| == 0 then Err(EmptyRegistry)
    else match (FirstMismatch(axis, ClockDomain, 1), FirstMismatch(axis, AddressWidth, 1), FirstMismatch(axis, DataWidth, 1))
      case (Some(i), _, _) => Err(Mismatch(ClockDomain, i))
      case (None, Some(i), _) => Err(Mismatch(AddressWidth, i))
      case (None, None, Some(i)) => Err(Mismatch(DataWidth, i))
      case (None, None, None) => Ok(Parameters(axis[0].clockDomain, axis[0].aw.addr, axis[0].w.data, axis[0].aw.id))
  }

  /** The check's `for i, axi in enumerate(axis)` loop for one property: skip port 0, stop at
      the first port that disagrees with it. */
  method ScanForMismatch(axis: seq<AxiInterface>, p: Property) returns (k: Option<nat>)
    requires |axis| > 0
    ensures k == FirstMismatch(axis, p, 1)
    ensures k.None? <==> Uniform(axis, p)
  {
    var i := 0;
    while i < |axis|
      invariant 0 <= i <= |axis|
      invariant forall j :: 0 <= j < i ==> Agree(p, axis[0], axis[j])
    {
      if i != 0 && !Agree(p, axis[0], axis[i]) {
        return Some(i);
      }
      i := i + 1;
    }
    return None;
  }

  /** The attributes `get_check_parameters` assigns, as they stand after a check. */
  datatype Recorded = Recorded(
    clockDomain: Option<string>, addressWidth: Option<nat>, dataWidth: Option<nat>, idWidth: Option<nat>)

  /** The attributes a passing check leaves behind: all four set to its parameters. */
  function Recording(ps: Parameters): Recorded
  {
    Recorded(Some(ps.clockDomain), Some(ps.addressWidth), Some(ps.dataWidth), Some(ps.idWidth))
  }

  /** What a check leaves in the attributes, starting from `prev`: each value is assigned
      before the loop that compares it, so a failing comparison leaves the values of the
      properties after it as they were. */
  function RecordCheck(axis: seq<AxiInterface>, prev: Recorded): (r: Recorded)
    ensures |axis| == 0 ==> r == prev
    ensures |axis| > 0 ==> r.clockDomain == Some(axis[0].clockDomain)
    ensures CheckParameters(axis).Ok? ==>
      var ps := CheckParameters(axis).value;
      r == Recording(ps)
    ensures CheckParameters(axis).Err? && CheckParameters(axis).error.Mismatch? ==>
      var a, failed := axis[0], CheckParameters(axis).error.property;
      r == match failed
        case ClockDomain => prev.(clockDomain := Some(a.clockDomain))
        case AddressWidth => prev.(clockDomain := Some(a.clockDomain), addressWidth := Some(a.aw.addr))
        case _ => prev.(clockDomain := Some(a.clockDomain), addressWidth := Some(a.aw.addr), dataWidth := Some(a.w.data))
  {
    if |axis| == 0 then prev
    else
      var r1 := prev.(clockDomain := Some(axis[0].clockDomain));
      if !Uniform(axis, ClockDomain) then r1
      else
        var r2 := r1.(addressWidth := Some(axis[0].aw.addr));
        if !Uniform(axis, AddressWidth) then r2
        else
          var r3 := r2.(dataWidth := Some(axis[0].w.data));
          if !Uniform(axis, DataWidth) then r3
          else r3.(idWidth := Some(axis[0].aw.id))
  }

  /** The check succeeds exactly when all ports agree pairwise on the three properties. */
  lemma ConsistentIffPairwise(axis: seq<AxiInterface>)
    ensures CheckParameters(axis).Ok? <==>
      |axis| > 0 && forall i, j :: 0 <= i < |axis| && 0 <= j < |axis| ==>
        Agree(ClockDomain, axis[i], axis[j]) && Agree(AddressWidth, axis[i], axis[j]) && Agree(DataWidth, axis[i], axis[j])
  {
  }

  /** Any two ports in different clock domains make the check fail on the clock domain,
      whatever their widths. */
  lemma ClockDomainReportedFirst(axis: seq<AxiInterface>, i: nat, j: nat)
    requires i < |axis| && j < |axis| && axis[i].clockDomain != axis[j].clockDomain
    ensures CheckParameters(axis).Err?
    ensures CheckParameters(axis).error.Mismatch? && CheckParameters(axis).error.property == ClockDomain
  {
    assert !Uniform(axis, ClockDomain) by {
      if axis[i].clockDomain == axis[0].clockDomain {
        assert !Agree(ClockDomain, axis[0], axis[j]);
      } else {
        assert !Agree(ClockDomain, axis[0], axis[i]);
      }
    }
  }

  /** Interfaces that differ at most in their ID widths, port 0 excepted. */
  predicate SameUpToLaterIds(axis: seq<AxiInterface>, other: seq<AxiInterface>)
  {
    && |axis| == |other|
    && (|axis| > 0 ==> axis[0] == other[0])
    && forall i :: 0 <= i < |axis| ==> axis[i].(aw := axis[i].aw.(id := other[i].aw.id)) == other[i]
  }

  /** The ID width is never compared: changing the ID width of any port but the first does not
      change the outcome of the check. */
  lemma {:induction false} IdWidthUnchecked(axis: seq<AxiInterface>, other: seq<AxiInterface>)
    requires SameUpToLaterIds(axis, other)
    ensures CheckParameters(axis) == CheckParameters(other)
  {
    if |axis| > 0 {
      forall p, from | p != IdWidth && 1 <= from <= |axis|
        ensures FirstMismatch(axis, p, from) == FirstMismatch(other, p, from)
      {
        FirstMismatchIgnoresIds(axis, other, p, from);
      }
    }
  }

  lemma {:induction false} FirstMismatchIgnoresIds(axis: seq<AxiInterface>, other: seq<AxiInterface>, p: Property, from: nat)
    requires SameUpToLaterIds(axis, other) && |axis| > 0 && from <= |axis| && p != IdWidth
    ensures FirstMismatch(axis, p, from) == FirstMismatch(other, p, from)
    decreases |axis| - from
  {
    if from < |axis| {
      assert Agree(p, axis[0], axis[from]) == Agree(p, other[0], other[from]) by {
        assert axis[from].(aw := axis[from].aw.(id := other[from].aw.id)) == other[from];
      }
      FirstMismatchIgnoresIds(axis, other, p, from + 1);
    }
  }

  /** A consistent registry stays consistent on every non-empty prefix, with the same
      parameters apart from the ID width, which is the first port's in both. */
  lemma PrefixConsistent(axis: seq<AxiInterface>, k: nat)
    requires CheckParameters(axis).Ok? && 0 < k <= |axis|
    ensures CheckParameters(axis[..k]) == CheckParameters(axis)
  {
    assert axis[..k][0] == axis[0];
  }

  /** With the check run over the slaves followed by the masters, success means every
      registered port, slave or master, has the recorded clock domain and widths. */
  lemma CheckCoversEveryPort(s: seq<Entry>, m: seq<Entry>)
    requires CheckParameters(Interfaces(s) + Interfaces(m)).Ok?
    ensures var ps := CheckParameters(Interfaces(s) + Interfaces(m)).value;
      && (forall i :: 0 <= i < |s| ==>
            s[i].1.axi.clockDomain == ps.clockDomain && s[i].1.axi.aw.addr == ps.addressWidth && s[i].1.axi.w.data == ps.dataWidth)
      && (forall j :: 0 <= j < |m| ==>
            m[j].1.axi.clockDomain == ps.clockDomain && m[j].1.axi.aw.addr == ps.addressWidth && m[j].1.axi.w.data == ps.dataWidth)
  {
    var axis := Interfaces(s) + Interfaces(m);
    forall i | 0 <= i < |s| ensures Agree(ClockDomain, axis[0], s[i].1.axi)
      && Agree(AddressWidth, axis[0], s[i].1.axi) && Agree(DataWidth, axis[0], s[i].1.axi)
    {
      assert axis[i] == s[i].1.axi;
    }
    forall j | 0 <= j < |m| ensures Agree(ClockDomain, axis[0], m[j].1.axi)
      && Agree(AddressWidth, axis[0], m[j].1.axi) && Agree(DataWidth, axis[0], m[j].1.axi)
    {
      assert axis[|s| + j] == m[j].1.axi;
    }
  }

  /** As written, the check walks `{**self.s_axis, **self.m_axis}`: a slave whose name a master
      also uses is replaced by that master and never compared. Here a slave in clock domain
      "sys" and a master in "other", both named "p": the check as written passes and records
      "other", the interface lookup does not find the slave, while the check over all
      registered ports reports the clock-domain mismatch. */
  lemma SharedNameHidesSlave(slave: AxiInterface, master: AxiInterface, origin: nat, size: nat)
    requires slave.handle != master.handle
    requires slave.clockDomain == "sys" && master.clockDomain == "other"
    ensures var s := [("p", Port(slave, None, None))];
            var m := [("p", Port(master, Some(origin), Some(size)))];
      && MergedEntries(s, m) == m
      && CheckParameters(Interfaces(MergedEntries(s, m))) == Ok(Parameters("other", master.aw.addr, master.w.data, master.aw.id))
      && LookupName(MergedEntries(s, m), slave.handle) == None
      && CheckParameters(Interfaces(s) + Interfaces(m)) == Err(Mismatch(ClockDomain, 1))
      && LookupName(s + m, slave.handle) == Some("p")
  {
    var s := [("p", Port(slave, None, None))];
    var m := [("p", Port(master, Some(origin), Some(size)))];
    assert Names(s) == ["p"];
    assert Override(s, m) == m;
    assert Without(m, Names(s)) == [];
    assert Interfaces(m) == [master];
    assert (Interfaces(s) + Interfaces(m))[1] == master;
  }
}
