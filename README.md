# LiteX wrappers for the Verilog-AXI interconnect and adapter, in Dafny

This project models the Python side of two LiteX wrappers around Verilog AXI cores.

- `AXIInterconnect` is a registry of AXI ports. Slave-side ports are the bus masters of the
  SoC that drive the crossbar. Master-side ports are the bus slaves it drives, each with an
  address region (origin, size). Ports get default names `s_axi<n>` and `m_axi<n>`, and the
  registry re-checks after every registration that all ports share one clock domain, address
  width and data width. At finalization it derives the parameters of the Verilog
  `axi_interconnect` instance:
  - the slave and master counts and the uniform widths;
  - the ID width of the first port;
  - every master's region width `ceil(log2(size))`;
  - the base addresses and region widths packed into one wide constant each;
  - every AXI signal concatenated across the ports, port 0 in the low bits.
- `AXIInterconnectWrapper` registers the SoC's masters as slave ports and its slaves, with
  their regions, as master ports.
- `AXIAdapter` checks that its two interfaces share a clock domain, an address width and an
  ID width, and derives the parameters of the Verilog `axi_adapter` instance. Its two data
  widths may differ.

Modules, one concern each:

| file | module | what it holds |
|---|---|---|
| axi_types.dfy | AxiTypes | AXI interfaces as five channel records of signal widths, the 37 packed signals, wires, errors |
| bits.dfy | Bits | powers of two, bitwise OR on naturals, the shift-or packing of `format_m_params` and its decoding |
| region.dfy | Region | exact integer `ceil(log2(size))` and the per-master region widths |
| naming.dfy | Naming | decimal rendering of the port count and default port names |
| registry.dfy | Registry | ports, insertion-ordered name dicts as sequences of entries, Python's `{**s, **m}` merge |
| consistency.dfy | Consistency | the uniformity check, the attributes it assigns, and its properties |
| vectors.dfy | Vectors | migen `Cat` and the layout of the concatenated bus vectors |
| interconnect.dfy | Interconnect | the `AxiInterconnect` class (registration, check, finalization) and the wrapper |
| adapter.dfy | Adapter | the adapter's checks and derived parameters |
| scenarios.dfy | Scenarios | a default-name collision, and a 2x2 crossbar built end to end |

Representation choices:
- An interface is identified by a `handle` number, which stands for Python object identity (`is`).
- Each signal of an interface is given only by its width.
- A bus vector is a sequence of `Wire(handle, signal, bit)`, least significant bit first.
- Every `raise` becomes an `Err`/`Fail` value of `AxiError`.
- Integers are unbounded, as in Python.

How the model stands to the code:
- The source's check and its name lookup walk the merged dict `{**s_axis, **m_axis}`
  (axi_interconnect.py:39 and :89), in which a master hides a slave of the same name (see
  Findings). The class `Interconnect.AxiInterconnect` walks "slaves, then masters" instead:
  that is the corrected half of the Findings row. The merged walk as written is
  `Registry.MergedEntries`, and `Consistency.SharedNameHidesSlave` shows what it loses. The
  two walks coincide whenever no master shares a slave's name
  (`Registry.MergedIsConcatWhenDisjoint`).
- The ID width is taken from the first port of the class's walk: the first slave, or the
  first master when there is no slave. In the source, a master registered under the first
  slave's name would supply it instead.
- A master's size does not have to be a power of two. Only a zero size fails, because
  `math.log2(0)` raises.
- A port that fails the check stays registered, because the check runs after the insertion.
  Only a duplicate name or a missing argument leaves the registry unchanged.
- The check assigns each attribute (`clock_domain`, `address_width`, `data_width`,
  `id_width`) before the loop that compares it. A failed check therefore leaves the earlier
  attributes updated and the later ones as they were (`Consistency.RecordCheck`).

## Model

| member | source | states |
|---|---|---|
| Bits.BitOrBits | verilog_axi/axi/axi_interconnect.py:187 | the OR of two naturals has bit i set exactly when either operand has |
| Bits.OrIntoShiftIsAdd | verilog_axi/axi/axi_interconnect.py:186-187 | OR-ing a value narrower than w into a value shifted left by w is addition |
| Bits.OrPackIsWeightedSum | verilog_axi/axi/axi_interconnect.py:183-188 | when every parameter fits its field, the shift-or packing equals the sum of param[i] * 2^(i*width) |
| Bits.WeightedSumField | verilog_axi/axi/axi_interconnect.py:183-188 | round trip: field i of the packed value (div by 2^(i*width), mod 2^width) is param[i] |
| Bits.WeightedSumBound | verilog_axi/axi/axi_interconnect.py:188 | the packed value fits the declared width len(params) * width |
| Bits.FormatParams | verilog_axi/axi/axi_interconnect.py:183-188 | the loop over the reversed list yields a constant of width len * width whose value is the packing; when the parameters fit it decodes field by field back to them, element 0 lowest |
| Region.CeilLog2 | verilog_axi/axi/axi_interconnect.py:181 | the result k satisfies 2^(k-1) < n <= 2^k |
| Region.CeilLog2Unique | verilog_axi/axi/axi_interconnect.py:181 | those two bounds single out ceil(log2(n)) |
| Region.CeilLog2OfPowerOfTwo | verilog_axi/axi/axi_interconnect.py:181 | a region of size 2^w has width exactly w |
| Region.RegionWidths | verilog_axi/axi/axi_interconnect.py:181 | Ok exactly when every size is positive, one width per master in order, each the least k with size <= 2^k; otherwise the first zero size is reported |
| Region.RegionWidthsAreCeilLog2 | verilog_axi/axi/axi_interconnect.py:181 | each derived width is CeilLog2 of that master's size |
| Region.CeilLog2Examples | verilog_axi/axi/axi_interconnect.py:181 | 4 KiB, 8 KiB and 256 MiB regions have widths 12, 13 and 28 |
| Naming.Decimal | verilog_axi/axi/axi_interconnect.py:47 | the count is rendered as a non-empty string of decimal digits without a leading zero (only 0 itself starts with "0"), one digit exactly for counts below 10 |
| Naming.DecimalRoundTrip | verilog_axi/axi/axi_interconnect.py:47 | parsing the rendered count gives the count back |
| Naming.DefaultNamesDistinct | verilog_axi/axi/axi_interconnect.py:47 | default names for different counts differ |
| Naming.LeadingZeroIsNeverDefault | verilog_axi/axi/axi_interconnect.py:47-48 | an explicit name such as "s_axi01", with a leading zero after the prefix, never equals a default name |
| Naming.SecondDefaultSlaveName | verilog_axi/axi/axi_interconnect.py:47-49 | the default name of the second slave is "s_axi1", that of the first master "m_axi0" |
| Registry.IndexOfHandle | verilog_axi/axi/axi_interconnect.py:38-43 | the first entry whose interface is the given object, or none when no entry holds it |
| Registry.Get | verilog_axi/axi/axi_interconnect.py:89 | a lookup in the merged dict finds nothing exactly when the name is not a key, and otherwise yields the value of the first entry with that name |
| Registry.InterfacesAppend | verilog_axi/axi/axi_interconnect.py:178-179 | the interfaces of two concatenated dicts are the two interface lists concatenated |
| Registry.WithoutDisjoint | verilog_axi/axi/axi_interconnect.py:89 | dropping keys that do not occur leaves the entries unchanged |
| Registry.MergedIsConcatWhenDisjoint | verilog_axi/axi/axi_interconnect.py:89 | when no name is shared, `{**s_axis, **m_axis}` is the slaves followed by the masters |
| Consistency.FirstMismatch | verilog_axi/axi/axi_interconnect.py:94-107 | the first port from a position on that disagrees with port 0 on a property, or none when all agree |
| Consistency.CheckParameters | verilog_axi/axi/axi_interconnect.py:88-153 | Ok exactly when there is a port and all share port 0's clock domain, address width and data width; Ok carries port 0's values including its unchecked ID width; no port fails; a failure names the first property in the order clock, address, data that disagrees, and the first port that disagrees on it |
| Consistency.ScanForMismatch | verilog_axi/axi/axi_interconnect.py:94-107 | the comparison loop finds the first port after port 0 that disagrees, none exactly when the property is uniform |
| Consistency.RecordCheck | verilog_axi/axi/axi_interconnect.py:93-151 | a check sets the clock domain of port 0 first; on success all four attributes hold the checked values; on a mismatch only the attributes up to the failing property are updated |
| Consistency.ConsistentIffPairwise | verilog_axi/axi/axi_interconnect.py:88-147 | comparing against port 0 is the same as every pair of ports agreeing |
| Consistency.ClockDomainReportedFirst | verilog_axi/axi/axi_interconnect.py:92-107 | any two ports in different clock domains make the check fail on the clock domain, whatever their widths |
| Consistency.IdWidthUnchecked | verilog_axi/axi/axi_interconnect.py:149-151 | changing the ID width of any port but the first never changes the check's outcome |
| Consistency.FirstMismatchIgnoresIds | verilog_axi/axi/axi_interconnect.py:149-151 | no comparison loop looks at ID widths |
| Consistency.PrefixConsistent | verilog_axi/axi/axi_interconnect.py:60 | every non-empty prefix of a consistent registry passes with the same parameters, so earlier checks agree with later ones |
| Consistency.CheckCoversEveryPort | verilog_axi/axi/axi_interconnect.py:89-90 | walking slaves then masters, success means every registered port has the recorded clock domain, address width and data width |
| Consistency.SharedNameHidesSlave | verilog_axi/axi/axi_interconnect.py:39 | a slave and a master named alike: the merged walk passes on the master alone and cannot find the slave, while the walk over all ports fails on the clock domain |
| Vectors.CatLength | verilog_axi/axi/axi_interconnect.py:225 | a concatenation is as wide as its parts together |
| Vectors.CatAt | verilog_axi/axi/axi_interconnect.py:225 | bit j of part i sits at the offset of part i plus j |
| Vectors.CatSlice | verilog_axi/axi/axi_interconnect.py:225 | slicing the concatenation at part i's offset gives part i back |
| Vectors.BusVectorLayout | verilog_axi/axi/axi_interconnect.py:225-330 | each bus vector is the sum of the port widths wide, and bit j of port i's field is at port i's offset plus j |
| Vectors.BusVectorWidth | verilog_axi/axi/axi_interconnect.py:225-330 | each bus vector is as wide as the ports' fields together |
| Vectors.UniformTotalWidth | verilog_axi/axi/axi_interconnect.py:225-330 | with every field w wide, the vector is N * w wide |
| Vectors.UniformPortOffset | verilog_axi/axi/axi_interconnect.py:225-330 | with every field w wide, port i starts at bit i * w |
| Interconnect.AxiInterconnect.constructor | verilog_axi/axi/axi_interconnect.py:29-32 | both dicts start empty, no attribute is set |
| Interconnect.AxiInterconnect.GetIfName | verilog_axi/axi/axi_interconnect.py:38-43 | the name of the first port, slaves first, holding the object; none exactly when no port holds it |
| Interconnect.AxiInterconnect.GetCheckParameters | verilog_axi/axi/axi_interconnect.py:88-153 | returns the check over all ports and leaves the attributes as RecordCheck says |
| Interconnect.AxiInterconnect.AddSlave | verilog_axi/axi/axi_interconnect.py:45-60 | name defaults to "s_axi<slave count>"; a name already used by a slave or a missing interface fails and changes nothing; otherwise the slave is appended without region, masters unchanged, and the check over all ports decides the outcome and the attributes |
| Interconnect.AxiInterconnect.AddMaster | verilog_axi/axi/axi_interconnect.py:62-86 | as AddSlave with "m_axi<master count>", failing in order on duplicate name, missing interface, missing origin, missing size; the master is stored with its origin and size |
| Interconnect.AxiInterconnect.Finalize | verilog_axi/axi/axi_interconnect.py:158-330 | fails with the check's error, then with the first zero size; otherwise the counts, widths and clock domain are the checked ones, base addresses and region widths are packed with the address width and 32, decode back to the origins and widths when they fit, and each side's vectors concatenate its ports' signals |
| Interconnect.ConsistentVectorWidths | verilog_axi/axi/axi_interconnect.py:225-299 | for a consistent registry, each side's write-address and write-data vectors are count x uniform width wide |
| Interconnect.PrefixFails | verilog_axi/axi/axi_interconnect.py:60 | a failing earlier check means the full set of ports fails too |
| Interconnect.NextDefaultNameIsFresh | verilog_axi/axi/axi_interconnect.py:47-48 | when every port carries its positional default name, the next default name is new |
| Interconnect.SocMasterEntriesStep | verilog_axi/axi/axi_interconnect.py:344-345 | one more SoC master extends the slave entries by its default-named entry |
| Interconnect.SocSlaveEntriesStep | verilog_axi/axi/axi_interconnect.py:346-347 | one more SoC slave extends the master entries by its default-named entry with its region |
| Interconnect.RegistrationPasses | verilog_axi/axi/axi_interconnect.py:344-347 | registering one by one passes exactly when every argument is accepted (interface given; for a SoC slave also origin and size) and the check over all the interfaces passes |
| Interconnect.RegistrationAppend | verilog_axi/axi/axi_interconnect.py:344-347 | registering two lists in a row stops with the first list's error, or else continues with the second after the first's interfaces |
| Interconnect.RegisterSocSlaves | verilog_axi/axi/axi_interconnect.py:346-347 | the wrapper's second loop leaves the slave ports alone; its outcome, error included, is the registration outcome of the slave list; on success the masters are the default-named entries with their regions and the attributes are those of the passing check |
| Interconnect.RegisterSocMasters | verilog_axi/axi/axi_interconnect.py:344-345 | the wrapper's first loop: its outcome, error included, is the registration outcome of the master list; on success the slaves are the default-named entries and the attributes are those of the passing check |
| Interconnect.AddSocMaster | verilog_axi/axi/axi_interconnect.py:345 | one wrapper registration of a SoC master: a missing master fails with `NotAnInterface`, a given one yields the outcome of the check over the masters so far; it advances the registration outcome by one step, and a failure rules out a consistent, complete list |
| Interconnect.AddSocMasters | verilog_axi/axi/axi_interconnect.py:344-345 | its outcome, error included, is the registration outcome of the master list; it passes exactly when every SoC master is given and all of them pass the check; then the slaves are "s_axi0", "s_axi1", ... in order and the attributes are those of that check |
| Interconnect.AddSocSlave | verilog_axi/axi/axi_interconnect.py:347 | one wrapper registration of a SoC slave with its region: a missing interface, origin or size fails with `NotAnInterface`, `MissingOrigin` or `MissingSize`, in that order; otherwise the outcome is that of the check over all ports so far; it advances the registration outcome by one step, and a failure rules out a consistent, complete list |
| Interconnect.AddSocSlaves | verilog_axi/axi/axi_interconnect.py:346-347 | its outcome, error included, is the registration outcome of the slave list after the registered masters; it passes exactly when every SoC slave and region is given and all ports so far pass the check; then the masters are "m_axi0", ... with their regions and the attributes are those of that check |
| Interconnect.InterconnectWrapper | verilog_axi/axi/axi_interconnect.py:341-348 | succeeds exactly when every interface and region is given and all interfaces, SoC masters first, pass the check; a failure carries the error of the first failing registration, a missing origin or size included; the new interconnect then holds the SoC masters as default-named slaves, the SoC slaves as default-named masters with their regions, and the attributes of the passing check |
| Adapter.AdapterParameters | verilog_axi/axi/axi_adapter.py:30-104 | fails on clock domain, then address width, then ID width; otherwise clock, address width and ID width are those of both sides, each side keeps its own data width, FORWARD_ID is on exactly when asked and the ID is wider than 0, the burst flags pass through |
| Adapter.DefaultArguments | verilog_axi/axi/axi_adapter.py:20-23 | without the optional arguments, bursts are converted, narrow bursts are not, and FORWARD_ID is on exactly when the ID is at least one bit wide |
| Adapter.AdapterPortsAreFields | verilog_axi/axi/axi_adapter.py:114-221 | every instance port is wired to the whole field of its own interface |
| Adapter.OnePortVector | verilog_axi/axi/axi_adapter.py:114-221 | a single interface's bus vector is its own field |
| Adapter.DataWidthsNeverCompared | verilog_axi/axi/axi_adapter.py:56-60 | changing a data width never changes acceptance, and the new width is what the instance gets |
| Adapter.SwappedSides | verilog_axi/axi/axi_adapter.py:30-73 | swapping the two sides keeps acceptance, swaps the data widths and keeps everything else |
| Adapter.AdapterVersusInterconnect | verilog_axi/axi/axi_adapter.py:30-73 | a pair passes both the adapter's and the interconnect's checks exactly when it agrees on all four properties; a data-width-only difference passes only the adapter's, an ID-only difference only the interconnect's |
| Adapter.ZeroIdNeverForwarded | verilog_axi/axi/axi_adapter.py:88 | a zero-width ID is never forwarded |
| Scenarios.DefaultNameCollision | verilog_axi/axi/axi_interconnect.py:45-49 | after a slave named "s_axi1", an unnamed second slave defaults to "s_axi1" and is refused as a duplicate |
| Scenarios.MissingMasterAborts | verilog_axi/axi/axi_interconnect.py:344-345 | a wrapper whose first SoC master is missing aborts with the "not an interface" error, whatever follows |
| Scenarios.MissingOriginAborts | verilog_axi/axi/axi_interconnect.py:346-347 | when the SoC masters pass, a first SoC slave whose region has no origin aborts the wrapper with the missing-origin error |
| Scenarios.BuildTwoByTwo | verilog_axi/axi/axi_interconnect.py:341-348 | the wrapper over two masters and two 256 MiB regions yields two slaves and two masters with those origins and sizes |
| Scenarios.TwoByTwoCrossbar | verilog_axi/axi/axi_interconnect.py:158-213 | finalizing it gives a 2x2, 32-bit crossbar whose base-address fields decode to 0 and 0x1000_0000 and whose region widths are both 28 |

## Left out

- Logging: the info and error messages, `colorer` and the `show` flag. Each `raise` is modelled by the error value it stands for.
- `add_sources` and the platform: registering Verilog files is build I/O.
- The Verilog cores themselves. The model stops at the configuration handed to `Instance`.
- The fixed `Instance` parameters. These are the `*USER_ENABLE`/`*USER_WIDTH` constants and the region and user ports tied to 0 or left open.
- `clk`/`rst`: the clock domain they come from is recorded, but not the migen clock signals.
- Port directions (`i_`/`o_`) are not modelled.
- The wrapper's `register` and `timeout_cycles` arguments and the `platform` keyword. The source never uses the first two.
- `math.log2` is computed on floats. The model uses exact integer `ceil(log2)`. For sizes near or above 2^53, float rounding could give a different width.
- `assert isinstance(..., AXIInterface)` is modelled as an absent interface (`None`), which fails with `NotAnInterface`. Other Python types are not modelled.
- `ValueError`, `AssertionError` and `AXIError` are all modelled as `AxiError` variants, without the Python exception class.
- Origins and sizes, when given, are natural numbers. A negative origin or size, which Python would accept, is not modelled.
- `do_finalize` is called by migen's module lifecycle. Here it is the explicit method `Finalize`, and the `Instance` it adds is the returned `CrossbarConfig`.
- Interconnect.AxiInterconnect.GetIfName: walks the slaves and then the masters, not the merged dict. This is the corrected behaviour of the Findings row. The as-written lookup is `Registry.LookupName` over `Registry.MergedEntries`, exercised in `Consistency.SharedNameHidesSlave`.
- Interconnect.AxiInterconnect.GetCheckParameters: walks the slaves and then the masters, not the merged dict, as in the Findings row. The two walks coincide whenever no name is shared (`Registry.MergedIsConcatWhenDisjoint`).
- Interconnect.AxiInterconnect.AddSlave: its outcome and the attributes it records come from the check over slaves, then masters, not over the merged dict of axi_interconnect.py:60. They differ from the source only when a master shares a slave's name. The wrapper is unaffected, because its default names "s_axi<i>" and "m_axi<j>" never cross groups.
- Interconnect.AxiInterconnect.AddMaster: the same holds for the check at axi_interconnect.py:86. With a slave "p" in "sys", adding a master "p" in "other" fails here with a clock-domain mismatch, while the source passes.
- Interconnect.AxiInterconnect.Finalize: the same holds for the check at axi_interconnect.py:161, so its outcome and crossbar parameters follow the slaves-then-masters walk.
- The burst checks marked "FIXME" in both wrappers do not exist in the source and are not modelled.

## Findings

| source | as written | input that shows it | evidently intended | confidence | as-written member | corrected member |
|---|---|---|---|---|---|---|
| verilog_axi/axi/axi_interconnect.py:89 | `get_check_parameters` (and `get_if_name`, line 39) walk `{**self.s_axis, **self.m_axis}`. A master registered under a slave's name replaces that slave in the walk, so the slave is never compared and cannot be found by name | `add_slave(name="p", s_axi=a)` with `a` in "sys", then `add_master(name="p", m_axi=b, ...)` with `b` in "other": the check passes and records "other" | every registered port, slaves then masters, is checked, and the mismatch on the clock domain is reported | medium, not executed | Consistency.SharedNameHidesSlave | Consistency.CheckCoversEveryPort |
