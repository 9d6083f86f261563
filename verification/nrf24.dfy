/** The nRF24L01+ register and command layer (nrf24l01.c): the register map,
    command-byte framing, CSN-bracketed frames, the per-register accessors,
    payload transmit/receive commands and the CE pulse. A chip-side command
    decoder and a mock register file serve as the reference the framing is
    checked against. */
module Nrf24 {
  import opened Bytes
  import opened Spi

  datatype Option<T> = None | Some(value: T)

  /** The registers the driver has accessors for. */
  datatype Register =
    | Config | EnAa | EnRxAddr | SetupAw | SetupRetr | RfCh | RfSetup | Status | ObserveTx | Cd
    | RxAddrP0 | RxAddrP1 | TxAddr
    | RxPwP0 | RxPwP1 | RxPwP2 | RxPwP3 | RxPwP4 | RxPwP5
    | FifoStatus | Dynpd | Feature

  /** The register-map address of `r`. */
  function Address(r: Register): byte
  {
    match r
    case Config => 0x00
    case EnAa => 0x01
    case EnRxAddr => 0x02
    case SetupAw => 0x03
    case SetupRetr => 0x04
    case RfCh => 0x05
    case RfSetup => 0x06
    case Status => 0x07
    case ObserveTx => 0x08
    case Cd => 0x09
    case RxAddrP0 => 0x0A
    case RxAddrP1 => 0x0B
    case TxAddr => 0x10
    case RxPwP0 => 0x11
    case RxPwP1 => 0x12
    case RxPwP2 => 0x13
    case RxPwP3 => 0x14
    case RxPwP4 => 0x15
    case RxPwP5 => 0x16
    case FifoStatus => 0x17
    case Dynpd => 0x1C
    case Feature => 0x1D
  }

  /** The register at a register-map address, if the driver knows one there. */
  function RegisterAt(addr: byte): Option<Register>
  {
    if addr == 0x00 then Some(Config) else if addr == 0x01 then Some(EnAa)
    else if addr == 0x02 then Some(EnRxAddr) else if addr == 0x03 then Some(SetupAw)
    else if addr == 0x04 then Some(SetupRetr) else if addr == 0x05 then Some(RfCh)
    else if addr == 0x06 then Some(RfSetup) else if addr == 0x07 then Some(Status)
    else if addr == 0x08 then Some(ObserveTx) else if addr == 0x09 then Some(Cd)
    else if addr == 0x0A then Some(RxAddrP0) else if addr == 0x0B then Some(RxAddrP1)
    else if addr == 0x10 then Some(TxAddr) else if addr == 0x11 then Some(RxPwP0)
    else if addr == 0x12 then Some(RxPwP1) else if addr == 0x13 then Some(RxPwP2)
    else if addr == 0x14 then Some(RxPwP3) else if addr == 0x15 then Some(RxPwP4)
    else if addr == 0x16 then Some(RxPwP5) else if addr == 0x17 then Some(FifoStatus)
    else if addr == 0x1C then Some(Dynpd) else if addr == 0x1D then Some(Feature)
    else None
  }

  /** Every register sits at a distinct 5-bit address. */
  lemma AddressMap(r: Register)
    ensures Address(r) < 0x20
    ensures RegisterAt(Address(r)) == Some(r)
  {
  }

  lemma AddressInjective(r1: Register, r2: Register)
    ensures Address(r1) == Address(r2) ==> r1 == r2
  {
    AddressMap(r1);
    AddressMap(r2);
  }

  /** Registers holding an address are 5 bytes wide; the others, 1. */
  function Width(r: Register): nat
  {
    if r == TxAddr || r == RxAddrP0 || r == RxAddrP1 then 5 else 1
  }

  // Instruction mnemonics.
  const R_REGISTER: byte := 0x00
  const W_REGISTER: byte := 0x20
  const REGISTER_MASK: byte := 0x1F
  const ACTIVATE: byte := 0x50
  const R_RX_PL_WID: byte := 0x60
  const R_RX_PAYLOAD: byte := 0x61
  const W_TX_PAYLOAD: byte := 0xA0
  const W_ACK_PAYLOAD: byte := 0xA8
  const FLUSH_TX: byte := 0xE1
  const FLUSH_RX: byte := 0xE2
  const REUSE_TX_PL: byte := 0xE3
  const RF24_NOP: byte := 0xFF

  /** The command byte that writes the register at `addr`: 001AAAAA. */
  function WriteCommand(addr: byte): byte
  {
    W_REGISTER | (REGISTER_MASK & addr)
  }

  /** The command byte that reads the register at `addr`: 000AAAAA. */
  function ReadCommand(addr: byte): byte
  {
    R_REGISTER | (REGISTER_MASK & addr)
  }

  /** A register command keeps the address modulo 32 in its low five bits and
      the opcode in its top three; a write lies in 0x20..0x3F, a read below 0x20. */
  lemma CommandFraming(addr: byte)
    ensures WriteCommand(addr) & 0xE0 == W_REGISTER && ReadCommand(addr) & 0xE0 == R_REGISTER
    ensures (WriteCommand(addr) & 0x1F) as int == addr as int % 32
    ensures (ReadCommand(addr) & 0x1F) as int == addr as int % 32
    ensures 0x20 <= WriteCommand(addr) < 0x40 && ReadCommand(addr) < 0x20
  {
  }

  /** How the chip reads a command byte. */
  datatype Instruction =
    | ReadRegister(addr: byte)
    | WriteRegister(addr: byte)
    | Activate
    | ReadPayloadWidth
    | ReadPayload
    | WriteTxPayload
    | WriteAckPayload(pipe: byte)
    | FlushTx
    | FlushRx
    | ReuseTxPayload
    | Nop
    | Undefined

  /** The chip's command table, over the driver's mnemonics. */
  function Decode(cmd: byte): Instruction
  {
    if cmd & 0xE0 == R_REGISTER then ReadRegister(cmd & REGISTER_MASK)
    else if cmd & 0xE0 == W_REGISTER then WriteRegister(cmd & REGISTER_MASK)
    else if cmd == ACTIVATE then Activate
    else if cmd == R_RX_PL_WID then ReadPayloadWidth
    else if cmd == R_RX_PAYLOAD then ReadPayload
    else if cmd == W_TX_PAYLOAD then WriteTxPayload
    else if cmd & 0xF8 == W_ACK_PAYLOAD then WriteAckPayload(cmd & 0x07)
    else if cmd == FLUSH_TX then FlushTx
    else if cmd == FLUSH_RX then FlushRx
    else if cmd == REUSE_TX_PL then ReuseTxPayload
    else if cmd == RF24_NOP then Nop
    else Undefined
  }

  /** The chip reads a framed register command back as the operation and the
      masked address it was built from. */
  lemma DecodeRegisterCommand(addr: byte)
    ensures Decode(WriteCommand(addr)) == WriteRegister(addr & REGISTER_MASK)
    ensures Decode(ReadCommand(addr)) == ReadRegister(addr & REGISTER_MASK)
    ensures addr < 0x20 ==> Decode(WriteCommand(addr)) == WriteRegister(addr)
    ensures addr < 0x20 ==> Decode(ReadCommand(addr)) == ReadRegister(addr)
  {
  }

  /** One CSN-bracketed command: a command byte, then `out` driven to the chip,
      then `inCount` bytes clocked back from it. */
  datatype Frame = Frame(cmd: byte, out: seq<byte>, inCount: nat)

  /** What the driver does to the radio: one framed command, or a CE level. */
  datatype BusEvent = Command(frame: Frame) | CeLevel(high: bool)

  /** The pins toggled by one frame: CSN low, the command byte, the data bytes
      out, the data bytes in, CSN high. */
  function FrameWave(f: Frame): seq<PinEvent>
  {
    [Drive(Csn, false)] + FrameBody(f) + [Drive(Csn, true)]
  }

  /** The byte transfers of a frame, between the CSN edges. */
  function FrameBody(f: Frame): seq<PinEvent>
  {
    OutByte(f.cmd) + OutBytes(f.out) + InBytes(f.inCount)
  }

  lemma {:induction false} OutBytesNoCsn(data: seq<byte>)
    ensures Levels(OutBytes(data), Csn) == []
    decreases |data|
  {
    if data != [] {
      var front := data[..|data| - 1];
      OutBytesNoCsn(front);
      LevelsAppend(OutBytes(front), OutByte(data[|data| - 1]), Csn);
      OutByteClock(data[|data| - 1]);
    }
  }

  lemma {:induction false} InBytesNoCsn(n: nat)
    ensures Levels(InBytes(n), Csn) == []
  {
    if n > 0 {
      InBytesNoCsn(n - 1);
      LevelsAppend(InBytes(n - 1), InByte(), Csn);
      InByteNoCsn();
    }
  }

  lemma InByteNoCsn()
    ensures Levels(InByte(), Csn) == []
  {
    InBitsNoCsn(BitsPerByte);
    LevelsAppend([Drive(Sck, false)], InBits(BitsPerByte), Csn);
  }

  lemma {:induction false} InBitsNoCsn(n: nat)
    ensures Levels(InBits(n), Csn) == []
  {
    if n > 0 {
      InBitsNoCsn(n - 1);
      LevelsAppend(InBits(n - 1), InBit(), Csn);
      InBitView(false);
    }
  }

  lemma FrameBodyCsn(f: Frame)
    ensures Levels(FrameBody(f), Csn) == []
  {
    var b, c, d := OutByte(f.cmd), OutBytes(f.out), InBytes(f.inCount);
    OutByteClock(f.cmd);
    OutBytesNoCsn(f.out);
    InBytesNoCsn(f.inCount);
    LevelsAppend(b, c, Csn);
    LevelsAppend(b + c, d, Csn);
  }

  /** CSN brackets every frame: it falls before the first bit and rises after
      the last, and changes nowhere else. */
  lemma FrameBracket(f: Frame)
    ensures FrameWave(f)[0] == Drive(Csn, false)
    ensures FrameWave(f)[|FrameWave(f)| - 1] == Drive(Csn, true)
    ensures Levels(FrameWave(f), Csn) == [false, true]
  {
    var a: seq<PinEvent> := [Drive(Csn, false)];
    var body := FrameBody(f);
    FrameBodyCsn(f);
    LevelsAppend(a, body, Csn);
    Snoc([], Drive(Csn, false), false, Csn);
    Snoc(a + body, Drive(Csn, true), false, Csn);
  }

  lemma FrameBodySampled(f: Frame, mosi: bool)
    requires f.inCount == 0
    ensures Sampled(FrameBody(f), mosi) == Serialise([f.cmd] + f.out)
  {
    var b := OutByte(f.cmd);
    var c := OutBytes(f.out);
    assert InBytes(0) == [];
    assert FrameBody(f) == b + c;
    SampledAppend(b, c, mosi);
    OutByteSampled(f.cmd, mosi);
    OutBytesSampled(f.out, MosiAfter(b, mosi));
    assert ([f.cmd] + f.out)[1..] == f.out;
  }

  /** A frame that only drives data reaches the chip, sampled on the rising
      clock edges, as exactly its command byte followed by its data bytes. */
  lemma FrameSampled(f: Frame, mosi: bool)
    requires f.inCount == 0
    ensures |Sampled(FrameWave(f), mosi)| % 8 == 0
    ensures Deserialise(Sampled(FrameWave(f), mosi)) == [f.cmd] + f.out
  {
    var a: seq<PinEvent> := [Drive(Csn, false)];
    var body := FrameBody(f);
    Snoc([], Drive(Csn, false), mosi, Csn);
    assert [] + a == a;
    assert Sampled(a, mosi) == [] && MosiAfter(a, mosi) == mosi;
    SampledAppend(a, body, mosi);
    FrameBodySampled(f, mosi);
    assert Sampled(a + body, mosi) == Serialise([f.cmd] + f.out);
    Snoc(a + body, Drive(Csn, true), mosi, Csn);
    assert Sampled(FrameWave(f), mosi) == Serialise([f.cmd] + f.out);
    DeserialiseSerialise([f.cmd] + f.out);
  }

  /** One frame at pin level, as write_register_value/bytes,
      read_register_bytes and the payload and flush commands perform it:
      the status is the byte shifted in during the command byte, the data
      are the bytes shifted in after it. */
  method Transfer(f: Frame, miso: seq<bool>) returns (status: byte, data: seq<byte>, wave: seq<PinEvent>)
    requires |f.out| < 256 && f.inCount < 256
    requires |miso| == 8 + 8 * f.inCount
    ensures wave == FrameWave(f)
    ensures status == FromBits(miso[..8])
    ensures |data| == f.inCount
    ensures data == Deserialise(miso[8..])
  {
    var w1, w2, w3;
    status, w1 := SpiOutCommand(f.cmd, miso[..8]);
    w2 := SendBytes(f.out);
    data, w3 := ReceiveBytes(f.inCount, miso[8..]);
    wave := [Drive(Csn, false)] + (w1 + w2 + w3) + [Drive(Csn, true)];
  }

  /** spi_out_data_bytes over a whole byte string. */
  method SendBytes(out: seq<byte>) returns (wave: seq<PinEvent>)
    requires |out| < 256
    ensures wave == OutBytes(out)
  {
    wave := SpiOutDataBytes(out, |out|);
    assert out[..|out|] == out;
  }

  function Zeros(n: nat): (z: seq<byte>)
    ensures |z| == n
  {
    if n == 0 then [] else Zeros(n - 1) + [0]
  }

  /** spi_in_data_bytes into a fresh buffer of exactly `n` bytes. */
  method ReceiveBytes(n: nat, miso: seq<bool>) returns (data: seq<byte>, wave: seq<PinEvent>)
    requires n < 256 && |miso| == 8 * n
    ensures |data| == n && data == Deserialise(miso)
    ensures wave == InBytes(n)
  {
    data, wave := SpiInDataBytes(Zeros(n), n, miso);
    assert data == data[..n];
  }

  // Register access.

  /** write_register_value. */
  function WriteRegisterValue(addr: byte, value: byte): Frame
  {
    Frame(WriteCommand(addr), [value], 0)
  }

  /** write_register_bytes: sends data[0..size). */
  function WriteRegisterBytes(addr: byte, data: seq<byte>, size: nat): Frame
    requires size < 256 && size <= |data|
  {
    Frame(WriteCommand(addr), data[..size], 0)
  }

  /** read_register_bytes: clocks `size` bytes back. */
  function ReadRegisterBytes(addr: byte, size: nat): Frame
    requires size < 256
  {
    Frame(ReadCommand(addr), [], size)
  }

  /** nrf24_set_*: 1-byte registers through write_register_value, address
      registers through write_register_bytes with 5 bytes; there is no setter
      for the carrier-detect register. */
  function SetRegister(r: Register, data: seq<byte>): (f: Frame)
    requires r != Cd && |data| == Width(r)
    ensures Decode(f.cmd) == WriteRegister(Address(r))
    ensures f.out == data && f.inCount == 0
  {
    AddressMap(r);
    DecodeRegisterCommand(Address(r));
    if Width(r) == 1 then WriteRegisterValue(Address(r), data[0])
    else WriteRegisterBytes(Address(r), data, 5)
  }

  /** nrf24_get_*: reads Width(r) bytes of register r. */
  function GetRegister(r: Register): (f: Frame)
    ensures Decode(f.cmd) == ReadRegister(Address(r))
    ensures f.out == [] && f.inCount == Width(r)
  {
    AddressMap(r);
    DecodeRegisterCommand(Address(r));
    ReadRegisterBytes(Address(r), Width(r))
  }

  /** The register-write event that sets `r` to `data`. */
  function Write(r: Register, data: seq<byte>): BusEvent
    requires r != Cd && |data| == Width(r)
  {
    Command(SetRegister(r, data))
  }

  /** The register-read event for `r`. */
  function Read(r: Register): BusEvent
  {
    Command(GetRegister(r))
  }

  /** Event `e` is a command the chip reads as a write to register `r`. */
  predicate WritesTo(e: BusEvent, r: Register)
  {
    e.Command? && Decode(e.frame.cmd) == WriteRegister(Address(r))
  }

  /** No event of `events` writes a register of `rs`. */
  predicate WritesNone(events: seq<BusEvent>, rs: set<Register>)
  {
    forall i, r :: 0 <= i < |events| && r in rs ==> !WritesTo(events[i], r)
  }

  /** A register write reaches exactly the register it names. */
  lemma WriteTargets(r: Register, data: seq<byte>, r2: Register)
    requires r != Cd && |data| == Width(r)
    ensures WritesTo(Write(r, data), r2) <==> r == r2
  {
    AddressInjective(r, r2);
  }

  lemma WritesNoneAppend(a: seq<BusEvent>, b: seq<BusEvent>, rs: set<Register>)
    requires WritesNone(a, rs) && WritesNone(b, rs)
    ensures WritesNone(a + b, rs)
  {
    forall i, r | 0 <= i < |a + b| && r in rs
      ensures !WritesTo((a + b)[i], r)
    {
      if i >= |a| {
        assert (a + b)[i] == b[i - |a|];
      }
    }
  }

  /** nrf24_flush_tx and nrf24_flush_rx: command bytes with no data. */
  function FlushTxFrame(): (f: Frame)
    ensures Decode(f.cmd) == FlushTx && f.out == [] && f.inCount == 0
  {
    Frame(FLUSH_TX, [], 0)
  }

  function FlushRxFrame(): (f: Frame)
    ensures Decode(f.cmd) == FlushRx && f.out == [] && f.inCount == 0
  {
    Frame(FLUSH_RX, [], 0)
  }

  /** nrf24_get_payload_size: one byte clocked back after R_RX_PL_WID. */
  function PayloadSizeFrame(): (f: Frame)
    ensures Decode(f.cmd) == ReadPayloadWidth && f.out == [] && f.inCount == 1
  {
    Frame(R_RX_PL_WID, [], 1)
  }

  /** nrf24_get_payload: `size` bytes clocked back after R_RX_PAYLOAD. */
  function PayloadFrame(size: nat): (f: Frame)
    requires size < 256
    ensures Decode(f.cmd) == ReadPayload && f.out == [] && f.inCount == size
  {
    Frame(R_RX_PAYLOAD, [], size)
  }

  // Transmission and the CE line.

  /** nrf24_mode_t: whether CE drops back after the transmit pulse. */
  datatype CeMode = StandbyIMinimiseCurrent | StandbyIIFastStart

  /** The CE level after `events`, given the level before them. */
  function CeAfter(events: seq<BusEvent>, ce: bool): bool
  {
    if events == [] then ce
    else
      var last := events[|events| - 1];
      if last.CeLevel? then last.high else CeAfter(events[..|events| - 1], ce)
  }

  /** The number of low-to-high CE transitions in `events`, from level `ce`. */
  function CeRises(events: seq<BusEvent>, ce: bool): nat
  {
    if events == [] then 0
    else
      var front := events[..|events| - 1];
      var last := events[|events| - 1];
      CeRises(front, ce) + (if last.CeLevel? && last.high && !CeAfter(front, ce) then 1 else 0)
  }

  /** The CE handling after a payload command: low first if it was high,
      then high, then low again in standby-I. */
  function CePulse(ce: bool, mode: CeMode): seq<BusEvent>
  {
    (if ce then [CeLevel(false)] else []) + [CeLevel(true)]
      + (if mode == StandbyIMinimiseCurrent then [CeLevel(false)] else [])
  }

  /** The pulse always gives exactly one rising edge of CE, whatever the level
      before, and leaves CE high only in standby-II. */
  lemma CePulseEdge(ce: bool, mode: CeMode)
    ensures CeRises(CePulse(ce, mode), ce) == 1
    ensures CeAfter(CePulse(ce, mode), ce) == (mode == StandbyIIFastStart)
    ensures ce ==> CePulse(ce, mode)[0] == CeLevel(false)
  {
    var p := CePulse(ce, mode);
    if ce && mode == StandbyIMinimiseCurrent {
      assert p == [CeLevel(false), CeLevel(true), CeLevel(false)];
      assert p[..2] == [CeLevel(false), CeLevel(true)];
      assert p[..2][..1] == [CeLevel(false)];
      assert p[..2][..1][..0] == [];
      assert !CeAfter(p[..2][..1], ce) && CeRises(p[..2][..1], ce) == 0;
      assert CeRises(p[..2], ce) == 1;
    } else if ce {
      assert p == [CeLevel(false), CeLevel(true)];
      assert p[..1] == [CeLevel(false)];
      assert p[..1][..0] == [];
    } else if mode == StandbyIMinimiseCurrent {
      assert p == [CeLevel(true), CeLevel(false)];
      assert p[..1] == [CeLevel(true)];
      assert p[..1][..0] == [];
      assert CeAfter(p[..1], ce);
      assert CeRises(p[..1], ce) == 1;
    } else {
      assert p == [CeLevel(true)];
      assert p[..0] == [];
    }
  }

  /** nrf24_transmit_data: W_TX_PAYLOAD with data[0..size), then the CE pulse. */
  function TransmitData(mode: CeMode, ce: bool, data: seq<byte>, size: nat): (events: seq<BusEvent>)
    requires size < 256 && size <= |data|
    ensures |events| > 0 && events[0].Command? && Decode(events[0].frame.cmd) == WriteTxPayload
    ensures events[0].frame.out == data[..size] && events[0].frame.inCount == 0
    ensures CeRises(events, ce) == 1 && CeAfter(events, ce) == (mode == StandbyIIFastStart)
    ensures 2 <= |events| <= 4 && forall i :: 1 <= i < |events| ==> events[i].CeLevel?
  {
    var events := [Command(Frame(W_TX_PAYLOAD, data[..size], 0))] + CePulse(ce, mode);
    CePulseShift([Command(Frame(W_TX_PAYLOAD, data[..size], 0))], CePulse(ce, mode), ce);
    CePulseEdge(ce, mode);
    events
  }

  /** nrf24_retransmit: the same W_TX_PAYLOAD command byte, with no data, and
      the same CE pulse. */
  function Retransmit(mode: CeMode, ce: bool): (events: seq<BusEvent>)
    ensures events == TransmitData(mode, ce, [], 0)
    ensures events[0].frame.out == [] && Decode(events[0].frame.cmd) != ReuseTxPayload
  {
    [Command(Frame(W_TX_PAYLOAD, [], 0))] + CePulse(ce, mode)
  }

  /** Frames before a CE sequence leave its level and edges unchanged. */
  lemma {:induction false} CePulseShift(frames: seq<BusEvent>, tail: seq<BusEvent>, ce: bool)
    requires forall i :: 0 <= i < |frames| ==> frames[i].Command?
    ensures CeAfter(frames + tail, ce) == CeAfter(tail, ce)
    ensures CeRises(frames + tail, ce) == CeRises(tail, ce)
    decreases |tail|
  {
    if tail == [] {
      assert frames + tail == frames;
      CommandsOnly(frames, ce);
    } else {
      assert (frames + tail)[..|frames + tail| - 1] == frames + tail[..|tail| - 1];
      CePulseShift(frames, tail[..|tail| - 1], ce);
    }
  }

  lemma {:induction false} CommandsOnly(frames: seq<BusEvent>, ce: bool)
    requires forall i :: 0 <= i < |frames| ==> frames[i].Command?
    ensures CeAfter(frames, ce) == ce && CeRises(frames, ce) == 0
  {
    if frames != [] {
      CommandsOnly(frames[..|frames| - 1], ce);
    }
  }

  // A mock register file: the last bytes written to each address.

  /** Register contents keyed by address (as a number). */
  type RegisterFile = map<nat, seq<byte>>

  /** The register file after the chip executes one event. */
  function Apply(regs: RegisterFile, e: BusEvent): RegisterFile
  {
    if e.CeLevel? then regs
    else match Decode(e.frame.cmd)
      case WriteRegister(a) => regs[a as nat := e.frame.out]
      case _ => regs
  }

  /** The register file after a whole event trace. */
  function Run(regs: RegisterFile, events: seq<BusEvent>): RegisterFile
    decreases |events|
  {
    if events == [] then regs else Run(Apply(regs, events[0]), events[1..])
  }

  lemma {:induction false} RunAppend(regs: RegisterFile, a: seq<BusEvent>, b: seq<BusEvent>)
    ensures Run(regs, a + b) == Run(Run(regs, a), b)
    decreases |a|
  {
    if a != [] {
      assert (a + b)[0] == a[0];
      assert (a + b)[1..] == a[1..] + b;
      RunAppend(Apply(regs, a[0]), a[1..], b);
    } else {
      assert a + b == b;
    }
  }

  /** The bytes a read frame returns from the register file. */
  function ReadBack(regs: RegisterFile, f: Frame): Option<seq<byte>>
  {
    match Decode(f.cmd)
    case ReadRegister(a) =>
      if a as nat in regs && f.inCount <= |regs[a as nat]| then Some(regs[a as nat][..f.inCount]) else None
    case _ => None
  }

  /** Writing a register through its setter and reading it through its getter
      returns the bytes written, in order; no other register changes. */
  lemma RegisterRoundTrip(regs: RegisterFile, r: Register, data: seq<byte>)
    requires r != Cd && |data| == Width(r)
    ensures ReadBack(Apply(regs, Write(r, data)), GetRegister(r)) == Some(data)
    ensures forall a :: a in regs && a != Address(r) as nat ==> a in Apply(regs, Write(r, data)) && Apply(regs, Write(r, data))[a] == regs[a]
  {
    var g := GetRegister(r);
    assert data[..g.inCount] == data;
  }
}
