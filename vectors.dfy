/** The bus-vector layout of `Cat(*[axi.<channel>.<field> for axi in ports])`: the field of
    every port, concatenated in registration order, port 0 in the low-order bits. A vector is
    a sequence of wires, least significant bit first. */
module Vectors {
  import opened AxiTypes

  /** migen's `Cat`: the first part occupies the lowest bits. */
  function Cat<T>(parts: seq<seq<T>>): seq<T>
  {
    if |parts| == 0 then [] else parts[0] + Cat(parts[1..])
  }

  /** Bit offset of part `i`: the sum of the widths of the parts before it. */
  function Offset<T>(parts: seq<seq<T>>, i: nat): nat
    requires i <= |parts|
  {
    if i == 0 then 0 else |parts[0]| + Offset(parts[1..], i - 1)
  }

  /** The concatenation is as wide as all parts together. */
  lemma {:induction false} CatLength<T>(parts: seq<seq<T>>)
    ensures |Cat(parts)| == Offset(parts, |parts|)
  {
    if |parts| > 0 {
      CatLength(parts[1..]);
    }
  }

  /** Consecutive parts are adjacent: part i+1 starts where part i ends. */
  lemma {:induction false} OffsetStep<T>(parts: seq<seq<T>>, i: nat)
    requires i < |parts|
    ensures Offset(parts, i + 1) == Offset(parts, i) + |parts[i]|
  {
    if i > 0 {
      OffsetStep(parts[1..], i - 1);
    }
  }

  /** Bit j of part i lands at bit Offset(i) + j of the concatenation. */
  lemma {:induction false} CatAt<T>(parts: seq<seq<T>>, i: nat, j: nat)
    requires i < |parts| && j < |parts[i]|
    ensures Offset(parts, i) + j < |Cat(parts)|
    ensures Cat(parts)[Offset(parts, i) + j] == parts[i][j]
  {
    CatLength(parts);
    OffsetStep(parts, i);
    if i == 0 {
    } else {
      CatAt(parts[1..], i - 1, j);
      assert Cat(parts) == parts[0] + Cat(parts[1..]);
    }
  }

  /** Unpacking: the slice of the concatenation at part i's offset is part i. */
  lemma CatSlice<T>(parts: seq<seq<T>>, i: nat)
    requires i < |parts|
    ensures Offset(parts, i) + |parts[i]| <= |Cat(parts)|
    ensures Cat(parts)[Offset(parts, i)..Offset(parts, i) + |parts[i]|] == parts[i]
  {
    CatLength(parts);
    OffsetStep(parts, i);
    OffsetBounded(parts, i + 1);
    forall j | 0 <= j < |parts[i]|
      ensures Cat(parts)[Offset(parts, i)..Offset(parts, i) + |parts[i]|][j] == parts[i][j]
    {
      CatAt(parts, i, j);
    }
  }

  lemma {:induction false} OffsetBounded<T>(parts: seq<seq<T>>, i: nat)
    requires i <= |parts|
    ensures Offset(parts, i) <= Offset(parts, |parts|)
  {
    if i > 0 {
      OffsetBounded(parts[1..], i - 1);
    }
  }

  /** The wires of signal `s` of every port, in port order. */
  function PortFields(ports: seq<AxiInterface>, s: Signal): seq<seq<Wire>>
  {
    seq(|ports|, i requires 0 <= i < |ports| => SignalBits(ports[i], s))
  }

  /** The bus vector of signal `s` across `ports`. */
  function BusVector(ports: seq<AxiInterface>, s: Signal): seq<Wire>
  {
    Cat(PortFields(ports, s))
  }

  /** Total width of signal `s` over `ports`. */
  function TotalWidth(ports: seq<AxiInterface>, s: Signal): nat
  {
    if |ports| == 0 then 0 else Width(ports[0], s) + TotalWidth(ports[1..], s)
  }

  /** Bit offset of port i's field in the bus vector: the widths of the ports before it. */
  function PortOffset(ports: seq<AxiInterface>, s: Signal, i: nat): nat
    requires i <= |ports|
  {
    TotalWidth(ports[..i], s)
  }

  lemma {:induction false} PortOffsetIsOffset(ports: seq<AxiInterface>, s: Signal, i: nat)
    requires i <= |ports|
    ensures Offset(PortFields(ports, s), i) == PortOffset(ports, s, i)
  {
    if i > 0 {
      assert PortFields(ports, s)[1..] == PortFields(ports[1..], s);
      PortOffsetIsOffset(ports[1..], s, i - 1);
      assert ports[..i][1..] == ports[1..][..i - 1];
    }
  }

  /** The bus vector of `s` is as wide as the sum of the ports' widths, and bit j of port i's
      field sits at PortOffset(i) + j. */
  lemma BusVectorLayout(ports: seq<AxiInterface>, s: Signal, i: nat, j: nat)
    requires i < |ports| && j < Width(ports[i], s)
    ensures |BusVector(ports, s)| == TotalWidth(ports, s)
    ensures PortOffset(ports, s, i) + j < |BusVector(ports, s)|
    ensures BusVector(ports, s)[PortOffset(ports, s, i) + j] == Wire(ports[i].handle, s, j)
  {
    BusVectorWidth(ports, s);
    PortOffsetIsOffset(ports, s, i);
    CatAt(PortFields(ports, s), i, j);
  }

  /** The bus vector of `s` has the width of the ports' fields together. */
  lemma BusVectorWidth(ports: seq<AxiInterface>, s: Signal)
    ensures |BusVector(ports, s)| == TotalWidth(ports, s)
  {
    CatLength(PortFields(ports, s));
    PortOffsetIsOffset(ports, s, |ports|);
    assert ports[..|ports|] == ports;
  }

  /** When every port's field has width `w`, the vector is `|ports| * w` wide. */
  lemma {:induction false} UniformTotalWidth(ports: seq<AxiInterface>, s: Signal, w: nat)
    requires forall k :: 0 <= k < |ports| ==> Width(ports[k], s) == w
    ensures TotalWidth(ports, s) == |ports| * w
  {
    if |ports| > 0 {
      UniformTotalWidth(ports[1..], s, w);
      var n := |ports[1..]|;
      assert (n + 1) * w == n * w + w;
    }
  }

  /** ... and port i's field occupies bits i*w .. i*w+w-1. */
  lemma UniformPortOffset(ports: seq<AxiInterface>, s: Signal, w: nat, i: nat)
    requires forall k :: 0 <= k < |ports| ==> Width(ports[k], s) == w
    requires i <= |ports|
    ensures PortOffset(ports, s, i) == i * w
  {
    UniformTotalWidth(ports[..i], s, w);
  }

  /** The vector of every packed signal across `ports`. */
  function PortVectors(ports: seq<AxiInterface>): map<Signal, seq<Wire>>
  {
    map s | s in PackedSignals :: BusVector(ports, s)
  }
}
