/** The registry's data: ports and the insertion-ordered `name -> port` dicts `s_axis` and
    `m_axis`, kept as sequences of (name, port) entries. */
module Registry {
  import opened AxiTypes

  /** `AXIInterconnectInterface`: an interface and, for a master, its address region. */
  datatype Port = Port(axi: AxiInterface, origin: Option<nat>, size: Option<nat>)

  /** One item of an insertion-ordered dict. */
  type Entry = (string, Port)

  /** The dict's keys, in insertion order. */
  function Names(es: seq<Entry>): seq<string>
  {
    seq(|es|, i requires 0 <= i < |es| => es[i].0)
  }

  /** No key occurs twice, as in a dict. */
  predicate UniqueNames(es: seq<Entry>)
  {
    forall i, j :: 0 <= i < j < |es| ==> es[i].0 != es[j].0
  }

  /** `[axi_if.axi for axi_if in d.values()]`. */
  function Interfaces(es: seq<Entry>): seq<AxiInterface>
  {
    seq(|es|, i requires 0 <= i < |es| => es[i].1.axi)
  }

  lemma InterfacesAppend(a: seq<Entry>, b: seq<Entry>)
    ensures Interfaces(a + b) == Interfaces(a) + Interfaces(b)
  {
  }

  /** Slave entries carry no region. */
  predicate NoRegions(es: seq<Entry>)
  {
    forall i :: 0 <= i < |es| ==> es[i].1.origin.None? && es[i].1.size.None?
  }

  /** Master entries carry an origin and a size. */
  predicate HaveRegions(es: seq<Entry>)
  {
    forall i :: 0 <= i < |es| ==> es[i].1.origin.Some? && es[i].1.size.Some?
  }

  /** `[axi_if.origin for axi_if in self.m_axis.values()]`. */
  function Origins(es: seq<Entry>): seq<nat>
    requires HaveRegions(es)
  {
    seq(|es|, i requires 0 <= i < |es| => es[i].1.origin.value)
  }

  /** The masters' sizes, in registration order. */
  function Sizes(es: seq<Entry>): seq<nat>
    requires HaveRegions(es)
  {
    seq(|es|, i requires 0 <= i < |es| => es[i].1.size.value)
  }

  /** The position of the first entry whose interface is the object with handle `h`. */
  function IndexOfHandle(es: seq<Entry>, h: nat): (r: Option<nat>)
    ensures r.None? <==> forall i :: 0 <= i < |es| ==> es[i].1.axi.handle != h
    ensures r.Some? ==> r.value < |es| && es[r.value].1.axi.handle == h
    ensures r.Some? ==> forall i :: 0 <= i < r.value ==> es[i].1.axi.handle != h
  {
    if |es| == 0 then None
    else if es[0].1.axi.handle == h then Some(0)
    else match IndexOfHandle(es[1..], h)
      case None => None
      case Some(i) => Some(i + 1)
  }

  /** The name under which the object with handle `h` is found first, if any. */
  function LookupName(es: seq<Entry>, h: nat): Option<string>
  {
    match IndexOfHandle(es, h)
    case None => None
    case Some(i) => Some(es[i].0)
  }

  /** `d.get(name)`: the value under the first entry named `name`. */
  function Get(es: seq<Entry>, name: string): (r: Option<Port>)
    ensures r.None? <==> name !in Names(es)
    ensures r.Some? ==> exists i :: 0 <= i < |es| && es[i].0 == name && r.value == es[i].1 &&
                                    (forall j :: 0 <= j < i ==> es[j].0 != name)
  {
    if |es| == 0 then None
    else
      assert Names(es) == [es[0].0] + Names(es[1..]);
      if es[0].0 == name then Some(es[0].1) else Get(es[1..], name)
  }

  /** The entries of `s` with the value replaced wherever `m` has the same key. */
  function Override(s: seq<Entry>, m: seq<Entry>): seq<Entry>
  {
    seq(|s|, i requires 0 <= i < |s| =>
      match Get(m, s[i].0)
      case Some(p) => (s[i].0, p)
      case None => s[i])
  }

  /** The entries of `m` whose key is not among `keys`, in order. */
  function Without(m: seq<Entry>, keys: seq<string>): seq<Entry>
  {
    if |m| == 0 then []
    else (if m[0].0 in keys then [] else [m[0]]) + Without(m[1..], keys)
  }

  /** Python's `{**s, **m}`: the keys of `s` in their order, each holding `m`'s value when `m`
      has the same key, followed by the keys of `m` that `s` lacks. */
  function MergedEntries(s: seq<Entry>, m: seq<Entry>): seq<Entry>
  {
    Override(s, m) + Without(m, Names(s))
  }

  lemma {:induction false} WithoutDisjoint(m: seq<Entry>, keys: seq<string>)
    requires forall j :: 0 <= j < |m| ==> m[j].0 !in keys
    ensures Without(m, keys) == m
  {
    if |m| > 0 {
      WithoutDisjoint(m[1..], keys);
    }
  }

  /** When no name is used by both groups, `{**s, **m}` lists the slaves and then the masters. */
  lemma MergedIsConcatWhenDisjoint(s: seq<Entry>, m: seq<Entry>)
    requires forall i, j :: 0 <= i < |s| && 0 <= j < |m| ==> s[i].0 != m[j].0
    ensures MergedEntries(s, m) == s + m
  {
    forall i | 0 <= i < |s| ensures Get(m, s[i].0).None? {
    }
    assert Override(s, m) == s;
    forall j | 0 <= j < |m| ensures m[j].0 !in Names(s) {
    }
    WithoutDisjoint(m, Names(s));
  }
}
