/** Vocabulary shared by the interconnect and adapter wrappers: the error values they raise,
    the AXI interface descriptor (a clock domain plus the bit width of every channel field),
    the signals that the wrappers connect, and the individual wires of those signals. */
module AxiTypes {

  datatype Option<+T> = None | Some(value: T)

  datatype Result<+T, +E> = Ok(value: T) | Err(error: E)

  /** Properties compared between interfaces that are wired together. */
  datatype Property = ClockDomain | AddressWidth | DataWidth | IdWidth

  /** What a registration, a check or a finalization can fail with. */
  datatype AxiError =
    | DuplicateName(name: string)               // ValueError: the name is already in the group
    | NotAnInterface                            // failed `isinstance(..., AXIInterface)` assertion
    | MissingOrigin                             // failed `origin is not None` assertion
    | MissingSize                               // failed `size is not None` assertion
    | EmptyRegistry                             // IndexError on `axis[0]` with no port registered
    | Mismatch(property: Property, index: nat)  // AXIError: port `index` differs from port 0
    | PairMismatch(property: Property)          // AXIError: adapter's slave and master differ
    | InvalidRegion(index: nat)                 // ValueError: log2 of master `index`'s zero size

  /** Outcome of an operation that returns nothing on success. */
  datatype Outcome = Pass | Fail(error: AxiError)

  /** Field widths of the write-address and read-address channels. */
  datatype AddressChannel = AddressChannel(
    id: nat, addr: nat, len: nat, size: nat, burst: nat, lock: nat,
    cache: nat, prot: nat, qos: nat, valid: nat, ready: nat)

  /** Field widths of the write-data channel. */
  datatype WriteChannel = WriteChannel(data: nat, strb: nat, last: nat, valid: nat, ready: nat)

  /** Field widths of the write-response channel. */
  datatype ResponseChannel = ResponseChannel(id: nat, resp: nat, valid: nat, ready: nat)

  /** Field widths of the read-data channel. */
  datatype ReadChannel = ReadChannel(id: nat, data: nat, resp: nat, last: nat, valid: nat, ready: nat)

  /** A LiteX AXI interface. `handle` stands for the object's identity: two descriptors are
      the same object (Python's `is`) exactly when their handles are equal. */
  datatype AxiInterface = AxiInterface(
    handle: nat,
    clockDomain: string,
    aw: AddressChannel,
    w: WriteChannel,
    b: ResponseChannel,
    ar: AddressChannel,
    r: ReadChannel)

  /** The interface signals that the wrappers connect to the Verilog cores. The user and
      region sidebands are not among them: they are bound to 0 or left open. */
  datatype Signal =
    | AwId | AwAddr | AwLen | AwSize | AwBurst | AwLock | AwCache | AwProt | AwQos | AwValid | AwReady
    | WData | WStrb | WLast | WValid | WReady
    | BId | BResp | BValid | BReady
    | ArId | ArAddr | ArLen | ArSize | ArBurst | ArLock | ArCache | ArProt | ArQos | ArValid | ArReady
    | RId | RData | RResp | RLast | RValid | RReady

  /** `len(...)` of a signal of an interface. */
  function Width(a: AxiInterface, s: Signal): nat
  {
    match s
    case AwId => a.aw.id
    case AwAddr => a.aw.addr
    case AwLen => a.aw.len
    case AwSize => a.aw.size
    case AwBurst => a.aw.burst
    case AwLock => a.aw.lock
    case AwCache => a.aw.cache
    case AwProt => a.aw.prot
    case AwQos => a.aw.qos
    case AwValid => a.aw.valid
    case AwReady => a.aw.ready
    case WData => a.w.data
    case WStrb => a.w.strb
    case WLast => a.w.last
    case WValid => a.w.valid
    case WReady => a.w.ready
    case BId => a.b.id
    case BResp => a.b.resp
    case BValid => a.b.valid
    case BReady => a.b.ready
    case ArId => a.ar.id
    case ArAddr => a.ar.addr
    case ArLen => a.ar.len
    case ArSize => a.ar.size
    case ArBurst => a.ar.burst
    case ArLock => a.ar.lock
    case ArCache => a.ar.cache
    case ArProt => a.ar.prot
    case ArQos => a.ar.qos
    case ArValid => a.ar.valid
    case ArReady => a.ar.ready
    case RId => a.r.id
    case RData => a.r.data
    case RResp => a.r.resp
    case RLast => a.r.last
    case RValid => a.r.valid
    case RReady => a.r.ready
  }

  /** The signals concatenated across ports, in the order the interconnect instance lists them. */
  const PackedSignals: seq<Signal> := [
    AwId, AwAddr, AwLen, AwSize, AwBurst, AwLock, AwCache, AwProt, AwQos, AwValid, AwReady,
    WData, WStrb, WLast, WValid, WReady,
    BId, BResp, BValid, BReady,
    ArId, ArAddr, ArLen, ArSize, ArBurst, ArLock, ArCache, ArProt, ArQos, ArValid, ArReady,
    RId, RData, RResp, RLast, RValid, RReady]

  /** One bit of one signal of one interface: what a single wire of a `Cat` carries. */
  datatype Wire = Wire(handle: nat, signal: Signal, bit: nat)

  /** The wires of signal `s` of interface `a`, least significant bit first. */
  function SignalBits(a: AxiInterface, s: Signal): seq<Wire>
  {
    seq(Width(a, s), j requires 0 <= j => Wire(a.handle, s, j))
  }
}
