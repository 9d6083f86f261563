/** The radio session of cgrf.c: the driver's own copy of the radio
    configuration, the setters that compare against that copy and push only
    the registers that changed, the register-value encoders, the power and
    mode machine with its CE handling, transmission with acknowledgment
    classification, and payload reception.

    Every operation is a pure function from a session (and the chip's
    responses, passed in) to the next session and the bus events it emits. */
module Cgrf {
  import opened Bytes
  import opened Nrf24

  // The public enumerations (cgrf.h) and the private ones (cgrf.c).

  datatype DataRate = Rate1Mbps | Rate2Mbps
  datatype OutputPower = PowerMinus18dBm | PowerMinus12dBm | PowerMinus6dBm | Power0dBm
  datatype CrcEncoding = CrcNone | Crc1Byte | Crc2Bytes
  datatype AutoAck = NoAcknowledgment | AutoAcknowledgment
  datatype PayloadLength = StaticLength | DynamicLength
  datatype Acknowledgment = Success | Failed | FailedRetryInProgress
  datatype Mode = Transmitter | Receiver
  datatype Power = On | Off

  /** A 5-byte pipe address. */
  type RadioAddress = a: seq<byte> | |a| == 5 witness [0, 0, 0, 0, 0]

  // Register bits.
  const CONFIG_ENABLE_CRC: byte := 0x08
  const CONFIG_CRC_1BYTE: byte := 0x00
  const CONFIG_CRC_2BYTES: byte := 0x04
  const CONFIG_PWR_UP: byte := 0x02
  const CONFIG_PWR_DOWN: byte := 0x00
  const CONFIG_PRIM_PRX: byte := 0x01
  const CONFIG_PRIM_PTX: byte := 0x00
  const STATUS_RX_DR: byte := 0x40
  const STATUS_TX_DS: byte := 0x20
  const STATUS_MAX_RT: byte := 0x10
  const RF_DR_1MBPS: byte := 0x00
  const RF_DR_2MBPS: byte := 0x08
  const RF_PWR_MINUS_18DBM: byte := 0x00
  const RF_PWR_MINUS_12DBM: byte := 0x02
  const RF_PWR_MINUS_6DBM: byte := 0x04
  const RF_PWR_0DBM: byte := 0x06
  const ENAA_ALL: byte := 0x3F
  const ERX_P0: byte := 0x01
  const ERX_P1: byte := 0x02
  const AW_5BYTES: byte := 0x03
  const ARD_WAIT_500US: byte := 0x10
  const DPL_P0: byte := 0x01
  const DPL_P1: byte := 0x02
  const FEATURE_EN_DPL: byte := 0x04
  const FEATURE_EN_ACK_PAY: byte := 0x02
  const FEATURE_EN_DYN_ACK: byte := 0x01

  /** The driver's copy of the radio configuration (the `m_*` statics), plus
      the level it last drove on CE. */
  datatype Session = Session(
    crc: CrcEncoding,
    power: Power,
    mode: Mode,
    channel: byte,
    dataRate: DataRate,
    outputPower: OutputPower,
    autoAck: AutoAck,
    length: PayloadLength,
    size: byte,
    txAddress: RadioAddress,
    pipe0Address: RadioAddress,
    pipe1Address: RadioAddress,
    ce: bool)

  const DefaultAddress: RadioAddress := [0x01, 0x02, 0x03, 0x04, 0x01]
  const DefaultPipe1Address: RadioAddress := [0x99, 0x98, 0x97, 0x96, 0x01]

  /** The statics' initial values; CE starts low (the port setup drives it low). */
  function Initial(): (s: Session)
    ensures s.power.Off? && s.mode.Transmitter? && !s.ce
    ensures s.channel <= 127 && s.txAddress == s.pipe0Address != s.pipe1Address
  {
    Session(Crc1Byte, Off, Transmitter, 100, Rate2Mbps, Power0dBm, NoAcknowledgment,
            DynamicLength, 0, DefaultAddress, DefaultAddress, DefaultPipe1Address, false)
  }

  /** A session after an operation, and the bus events the operation emitted. */
  datatype Step = Step(session: Session, events: seq<BusEvent>)

  // Register-value encoders (the private set_* functions).

  /** The data-rate bit of RF_SETUP. */
  function RateBits(rate: DataRate): (b: byte)
    ensures b & 0xF7 == 0 && (b != 0 <==> rate.Rate2Mbps?)
  {
    if rate.Rate1Mbps? then RF_DR_1MBPS else RF_DR_2MBPS
  }

  /** The two output-power bits of RF_SETUP. */
  function PowerBits(power: OutputPower): (b: byte)
    ensures b & 0xF9 == 0
  {
    match power
    case PowerMinus18dBm => RF_PWR_MINUS_18DBM
    case PowerMinus12dBm => RF_PWR_MINUS_12DBM
    case PowerMinus6dBm => RF_PWR_MINUS_6DBM
    case Power0dBm => RF_PWR_0DBM
  }

  /** set_rf_setup: the data-rate bit and the two output-power bits. */
  function RfSetupValue(rate: DataRate, power: OutputPower): (v: byte)
    ensures v & 0xF1 == 0
    ensures (v & RF_DR_2MBPS != 0) == (rate.Rate2Mbps?)
  {
    RateBits(rate) | PowerBits(power)
  }

  /** How the radio reads the RF_SETUP value back. */
  function RateOf(v: byte): DataRate
  {
    if v & RF_DR_2MBPS != 0 then Rate2Mbps else Rate1Mbps
  }

  function OutputPowerOf(v: byte): OutputPower
  {
    var p := v & 0x06;
    if p == RF_PWR_MINUS_18DBM then PowerMinus18dBm
    else if p == RF_PWR_MINUS_12DBM then PowerMinus12dBm
    else if p == RF_PWR_MINUS_6DBM then PowerMinus6dBm
    else Power0dBm
  }

  /** RF_SETUP loses nothing: the radio reads back the rate and power encoded. */
  lemma RfSetupRoundTrip(rate: DataRate, power: OutputPower)
    ensures RateOf(RfSetupValue(rate, power)) == rate
    ensures OutputPowerOf(RfSetupValue(rate, power)) == power
  {
  }

  /** set_auto_ack: auto acknowledgment on all six pipes, or on none. */
  function EnAaValue(ack: AutoAck): (v: byte)
    ensures ack.AutoAcknowledgment? ==> forall pipe :: 0 <= pipe < 6 ==> Bit(v, pipe)
    ensures ack.NoAcknowledgment? ==> forall pipe :: 0 <= pipe < 8 ==> !Bit(v, pipe)
    ensures v & 0xC0 == 0
  {
    if ack.AutoAcknowledgment? then ENAA_ALL else 0x00
  }

  /** set_dynamic_payload: dynamic payload length on pipes 0 and 1 only. */
  function DynpdValue(length: PayloadLength): (v: byte)
    ensures Bit(v, 0) == Bit(v, 1) == (length.DynamicLength?)
    ensures v & 0xFC == 0
  {
    if length.DynamicLength? then DPL_P0 | DPL_P1 else 0x00
  }

  /** set_features: EN_DPL with dynamic length, EN_ACK_PAY with auto
      acknowledgment, EN_DYN_ACK with both. */
  function FeatureValue(length: PayloadLength, ack: AutoAck): (v: byte)
    ensures Bit(v, 2) == (length.DynamicLength?)
    ensures Bit(v, 1) == (ack.AutoAcknowledgment?)
    ensures Bit(v, 0) == (length.DynamicLength? && ack.AutoAcknowledgment?)
    ensures v & 0xF8 == 0
  {
    var dpl: byte := if length.DynamicLength? then FEATURE_EN_DPL else 0x00;
    var ackPay: byte := if ack.AutoAcknowledgment? then FEATURE_EN_ACK_PAY else 0x00;
    var dynAck: byte := if length.DynamicLength? && ack.AutoAcknowledgment? then FEATURE_EN_DYN_ACK else 0x00;
    dpl | ackPay | dynAck
  }

  /** The CRC bits of CONFIG: enable, and the 2-byte width. */
  function CrcBits(crc: CrcEncoding): (b: byte)
    ensures b & 0xF3 == 0
    ensures (b & CONFIG_ENABLE_CRC != 0) == (!crc.CrcNone?)
    ensures (b & CONFIG_CRC_2BYTES != 0) == (crc.Crc2Bytes?)
  {
    if crc.Crc1Byte? then CONFIG_ENABLE_CRC | CONFIG_CRC_1BYTE
    else if crc.Crc2Bytes? then CONFIG_ENABLE_CRC | CONFIG_CRC_2BYTES
    else 0x00
  }

  /** The power-up bit of CONFIG. */
  function PowerUpBit(power: Power): (b: byte)
    ensures b & 0xFD == 0 && (b != 0 <==> power.On?)
  {
    if power.On? then CONFIG_PWR_UP else CONFIG_PWR_DOWN
  }

  /** The primary-receiver bit of CONFIG. */
  function ModeBit(mode: Mode): (b: byte)
    ensures b & 0xFE == 0 && (b != 0 <==> mode.Receiver?)
  {
    if mode.Transmitter? then CONFIG_PRIM_PTX else CONFIG_PRIM_PRX
  }

  /** set_config: CRC enable and width, power-up, primary receiver. */
  function ConfigValue(crc: CrcEncoding, power: Power, mode: Mode): (v: byte)
    ensures (v & CONFIG_ENABLE_CRC != 0) == (!crc.CrcNone?)
    ensures (v & CONFIG_CRC_2BYTES != 0) == (crc.Crc2Bytes?)
    ensures (v & CONFIG_PWR_UP != 0) == (power.On?)
    ensures (v & CONFIG_PRIM_PRX != 0) == (mode.Receiver?)
    ensures v & 0xF0 == 0
  {
    CrcBits(crc) | PowerUpBit(power) | ModeBit(mode)
  }

  /** How the radio reads a CONFIG value back. */
  function ConfigOf(v: byte): (CrcEncoding, Power, Mode)
  {
    var crc := if v & CONFIG_ENABLE_CRC == 0 then CrcNone
      else if v & CONFIG_CRC_2BYTES == 0 then Crc1Byte else Crc2Bytes;
    var power := if v & CONFIG_PWR_UP != 0 then On else Off;
    var mode := if v & CONFIG_PRIM_PRX != 0 then Receiver else Transmitter;
    (crc, power, mode)
  }

  /** CONFIG loses nothing: the radio reads back the encoding, power and mode,
      so two settings give the same CONFIG value only if they are equal. */
  lemma {:induction false} ConfigRoundTrip(crc: CrcEncoding, power: Power, mode: Mode)
    ensures ConfigOf(ConfigValue(crc, power, mode)) == (crc, power, mode)
  {
    var v := ConfigValue(crc, power, mode);
    assert (v & CONFIG_ENABLE_CRC != 0) == (!crc.CrcNone?);
    assert (v & CONFIG_CRC_2BYTES != 0) == (crc.Crc2Bytes?);
  }

  // The registers the session owns, and the value it prescribes for each.

  /** The registers whose contents the session decides; STATUS, OBSERVE_TX,
      CD and FIFO_STATUS belong to the chip. */
  predicate Owned(r: Register)
  {
    !(r.Status? || r.ObserveTx? || r.Cd? || r.FifoStatus?)
  }

  /** A register the session owns. */
  type OwnedRegister = r: Register | Owned(r) witness Config

  /** The value the session's private set_* functions write to `r`, and the
      constants the start sequences write to the registers the session has no
      field for. */
  function RegisterValue(s: Session, r: Register): (v: seq<byte>)
    requires Owned(r)
    ensures |v| == Width(r)
  {
    match r
    case Config => [ConfigValue(s.crc, s.power, s.mode)]
    case EnAa => [EnAaValue(s.autoAck)]
    case EnRxAddr => [ERX_P0 | ERX_P1]
    case SetupAw => [AW_5BYTES]
    case SetupRetr => [ARD_WAIT_500US | 0x0F]
    case RfCh => [s.channel]
    case RfSetup => [RfSetupValue(s.dataRate, s.outputPower)]
    case RxAddrP0 => s.pipe0Address
    case RxAddrP1 => s.pipe1Address
    case TxAddr => s.txAddress
    case RxPwP1 => [s.size]
    case RxPwP0 => [0x00]
    case RxPwP2 => [0x00]
    case RxPwP3 => [0x00]
    case RxPwP4 => [0x00]
    case RxPwP5 => [0x00]
    case Dynpd => [DynpdValue(s.length)]
    case Feature => [FeatureValue(s.length, s.autoAck)]
  }

  /** The register writes that push the session's values of `rs`, in order. */
  function Push(s: Session, rs: seq<OwnedRegister>): (events: seq<BusEvent>)
    ensures |events| == |rs|
    ensures forall i :: 0 <= i < |rs| ==> events[i] == Write(rs[i], RegisterValue(s, rs[i]))
  {
    if rs == [] then [] else [Write(rs[0], RegisterValue(s, rs[0]))] + Push(s, rs[1..])
  }

  /** set_config: writes CONFIG; in receiver mode CE then follows the power
      state, while transmitter mode leaves CE alone. */
  function PushConfig(s: Session): (r: Step)
    ensures r.session == s.(ce := r.session.ce)
    ensures 1 <= |r.events| <= 2 && r.events[0] == Write(Config, [ConfigValue(s.crc, s.power, s.mode)])
    ensures CeAfter(r.events, s.ce) == r.session.ce
    ensures s.mode.Receiver? ==> r.session.ce == (s.power.On?)
    ensures s.mode.Transmitter? ==> r.session.ce == s.ce && |r.events| == 1
    ensures forall i :: 1 <= i < |r.events| ==> r.events[i].CeLevel?
  {
    var write := Push(s, [Config]);
    if s.mode.Receiver? then
      var events := write + [CeLevel(s.power.On?)];
      assert events[..1] == write;
      Step(s.(ce := s.power.On?), events)
    else
      assert write[..0] == [];
      Step(s, write)
  }

  // The public setters.

  /** cgrf_set_channel: channels above 127 are ignored; a new channel is
      stored and written to RF_CH, an unchanged one writes nothing. */
  function SetChannel(s: Session, channel: byte): (r: Step)
    ensures r.session == s.(channel := r.session.channel)
    ensures r.session.channel == if channel <= 127 then channel else s.channel
    ensures |r.events| == if channel <= 127 && channel != s.channel then 1 else 0
    ensures |r.events| == 1 ==> r.events[0] == Write(RfCh, [channel])
  {
    if channel <= 127 && s.channel != channel then
      var s' := s.(channel := channel);
      Step(s', Push(s', [RfCh]))
    else
      Step(s, [])
  }

  /** cgrf_set_data_rate: a change is stored and RF_SETUP rewritten. */
  function SetDataRate(s: Session, rate: DataRate): (r: Step)
    ensures r.session == s.(dataRate := rate)
    ensures |r.events| == if rate != s.dataRate then 1 else 0
    ensures |r.events| == 1 ==> r.events[0] == Write(RfSetup, [RfSetupValue(rate, s.outputPower)])
  {
    if s.dataRate != rate then
      var s' := s.(dataRate := rate);
      Step(s', Push(s', [RfSetup]))
    else
      Step(s, [])
  }

  /** cgrf_set_output_power: a change is stored and RF_SETUP rewritten. */
  function SetOutputPower(s: Session, power: OutputPower): (r: Step)
    ensures r.session == s.(outputPower := power)
    ensures |r.events| == if power != s.outputPower then 1 else 0
    ensures |r.events| == 1 ==> r.events[0] == Write(RfSetup, [RfSetupValue(s.dataRate, power)])
  {
    if s.outputPower != power then
      var s' := s.(outputPower := power);
      Step(s', Push(s', [RfSetup]))
    else
      Step(s, [])
  }

  /** cgrf_set_crc_encoding: a change is always stored, but CONFIG is
      rewritten only while the radio is powered. */
  function SetCrcEncoding(s: Session, crc: CrcEncoding): (r: Step)
    ensures r.session.(ce := s.ce) == s.(crc := crc)
    ensures crc == s.crc || s.power.Off? ==> r.events == [] && r.session == s.(crc := crc)
    ensures crc != s.crc && s.power.On? ==>
      1 <= |r.events| <= 2 && r.events[0] == Write(Config, [ConfigValue(crc, On, s.mode)])
    ensures forall i :: 1 <= i < |r.events| ==> r.events[i].CeLevel?
    ensures r.session.ce == if crc != s.crc && s.power.On? && s.mode.Receiver? then true else s.ce
    ensures CeAfter(r.events, s.ce) == r.session.ce
  {
    if s.crc != crc then
      var s' := s.(crc := crc);
      if s.power.On? then PushConfig(s') else Step(s', [])
    else
      Step(s, [])
  }

  /** cgrf_set_acknowledgment: a change is stored and EN_AA then FEATURE
      rewritten. */
  function SetAcknowledgment(s: Session, ack: AutoAck): (r: Step)
    ensures r.session == s.(autoAck := ack)
    ensures ack == s.autoAck ==> r.events == []
    ensures ack != s.autoAck ==> r.events == [Write(EnAa, [EnAaValue(ack)]), Write(Feature, [FeatureValue(s.length, ack)])]
  {
    if s.autoAck != ack then
      var s' := s.(autoAck := ack);
      Step(s', Push(s', [EnAa, Feature]))
    else
      Step(s, [])
  }

  /** set_dynamic_payload then set_features, for payload length `length`. */
  function LengthWrites(length: PayloadLength, ack: AutoAck): (events: seq<BusEvent>)
    ensures |events| == 2
  {
    [Write(Dynpd, [DynpdValue(length)]), Write(Feature, [FeatureValue(length, ack)])]
  }

  /** set_payload1_size, for payload size `size`. */
  function SizeWrite(size: byte): (events: seq<BusEvent>)
    ensures |events| == 1
  {
    [Write(RxPwP1, [size])]
  }

  /** cgrf_set_length. From dynamic length only a switch to static length
      does anything, and it resets the size to 0 whatever `size` says; from
      static length the length and the size are each stored and pushed when
      they differ. */
  function SetLength(s: Session, length: PayloadLength, size: byte): (r: Step)
    ensures r.session == s.(length := length, size := r.session.size)
    ensures s.length.DynamicLength? ==> r.session.size == if length.StaticLength? then 0 else s.size
    ensures s.length.StaticLength? ==> r.session.size == size
    ensures s.length.DynamicLength? && length.DynamicLength? ==> r.events == []
    ensures s.length.DynamicLength? && length.StaticLength? ==> r.events == LengthWrites(length, s.autoAck) + SizeWrite(0)
    ensures s.length.StaticLength? ==>
      r.events == (if length != s.length then LengthWrites(length, s.autoAck) else [])
                  + (if size != s.size then SizeWrite(size) else [])
    ensures |r.events| <= 3
  {
    if s.length.DynamicLength? then
      if length.StaticLength? then
        Step(s.(length := length, size := 0), LengthWrites(length, s.autoAck) + SizeWrite(0))
      else
        Step(s, [])
    else
      var lengthWrites := if length != s.length then LengthWrites(length, s.autoAck) else [];
      var sizeWrites := if size != s.size then SizeWrite(size) else [];
      Step(s.(length := length, size := size), lengthWrites + sizeWrites)
  }

  lemma PushOne(s: Session, a: Register)
    requires Owned(a)
    ensures Push(s, [a]) == [Write(a, RegisterValue(s, a))]
  {
  }

  lemma PushTwo(s: Session, a: Register, b: Register)
    requires Owned(a) && Owned(b)
    ensures Push(s, [a, b]) == [Write(a, RegisterValue(s, a)), Write(b, RegisterValue(s, b))]
  {
    assert [a, b][1..] == [b];
  }

  lemma PushThree(s: Session, a: Register, b: Register, c: Register)
    requires Owned(a) && Owned(b) && Owned(c)
    ensures Push(s, [a, b, c]) == [Write(a, RegisterValue(s, a)), Write(b, RegisterValue(s, b)), Write(c, RegisterValue(s, c))]
  {
    assert [a, b, c][1..] == [b, c];
    PushTwo(s, b, c);
  }

  /** cgrf_set_tx_address. The copy runs from the stored address into the
      caller's buffer, so the stored transmit and pipe-0 addresses never
      change; when the caller's address differs, their unchanged values are
      pushed again. */
  function SetTxAddress(s: Session, address: RadioAddress): (r: (Step, RadioAddress))
    ensures r.0.session == s
    ensures r.1 == s.txAddress
    ensures address == s.txAddress ==> r.0.events == []
    ensures address != s.txAddress ==> r.0.events == [Write(TxAddr, s.txAddress), Write(RxAddrP0, s.pipe0Address)]
  {
    if address != s.txAddress then
      (Step(s, Push(s, [TxAddr, RxAddrP0])), s.txAddress)
    else
      (Step(s, []), address)
  }

  // Power and mode.

  /** The C values of the power enumeration: `on` is 0, `off` is 1. */
  function PowerCode(p: Power): int
  {
    match p
    case On => 0
    case Off => 1
  }

  /** C's logical negation on an integer. */
  function LogicalNot(x: int): int
  {
    if x == 0 then 1 else 0
  }

  /** The guard of cgrf_power_up, `!m_power == on`, as the C evaluates it. */
  predicate PowerUpGuard(s: Session)
  {
    LogicalNot(PowerCode(s.power)) == PowerCode(On)
  }

  /** Because `on` is 0, the guard holds exactly when the radio is off. */
  lemma PowerUpGuardMeansOff(s: Session)
    ensures PowerUpGuard(s) <==> s.power.Off?
  {
  }

  /** cgrf_power_up: from off, turns the power on and writes CONFIG,
      returning the status the chip shifted out during that write; when
      already on, writes nothing and returns 0. */
  function PowerUp(s: Session, chipStatus: byte): (r: (Step, byte))
    ensures r.0.session.power.On?
    ensures r.0.session.(ce := s.ce) == s.(power := On)
    ensures s.power.On? ==> r.0 == Step(s, []) && r.1 == 0
    ensures s.power.Off? ==> 1 <= |r.0.events| <= 2 && r.0.events[0] == Write(Config, [ConfigValue(s.crc, On, s.mode)]) && r.1 == chipStatus
    ensures forall i :: 1 <= i < |r.0.events| ==> r.0.events[i].CeLevel?
    ensures r.0.session.ce == if s.power.Off? && s.mode.Receiver? then true else s.ce
    ensures CeAfter(r.0.events, s.ce) == r.0.session.ce
  {
    if PowerUpGuard(s) then
      (PushConfig(s.(power := On)), chipStatus)
    else
      (Step(s, []), 0)
  }

  /** cgrf_power_down: from on, turns the power off and writes CONFIG,
      returning the chip's status; when already off, writes nothing and
      returns 0. */
  function PowerDown(s: Session, chipStatus: byte): (r: (Step, byte))
    ensures r.0.session.power.Off?
    ensures r.0.session.(ce := s.ce) == s.(power := Off)
    ensures s.power.Off? ==> r.0 == Step(s, []) && r.1 == 0
    ensures s.power.On? ==> 1 <= |r.0.events| <= 2 && r.0.events[0] == Write(Config, [ConfigValue(s.crc, Off, s.mode)]) && r.1 == chipStatus
    ensures forall i :: 1 <= i < |r.0.events| ==> r.0.events[i].CeLevel?
    ensures r.0.session.ce == if s.power.On? && s.mode.Receiver? then false else s.ce
    ensures CeAfter(r.0.events, s.ce) == r.0.session.ce
  {
    if s.power.On? then
      (PushConfig(s.(power := Off)), chipStatus)
    else
      (Step(s, []), 0)
  }

  /** The registers both start sequences write first, in order: the unused
      pipe widths, auto acknowledgment, pipes 0 and 1 enabled, 15 retransmits
      500 us apart, 5-byte addresses, the payload settings, the channel and
      RF_SETUP. */
  const StartRegisters: seq<OwnedRegister> :=
    [RxPwP0, RxPwP2, RxPwP3, RxPwP4, RxPwP5, EnAa, EnRxAddr, SetupRetr, SetupAw,
     Dynpd, Feature, RxPwP1, RfCh, RfSetup]

  /** Both FIFOs flushed and the three interrupt flags cleared by writing ones. */
  function FlushAndClear(): (events: seq<BusEvent>)
    ensures |events| == 3
    ensures forall i :: 0 <= i < |events| ==> events[i].Command?
    ensures Decode(events[0].frame.cmd) == FlushRx && Decode(events[1].frame.cmd) == FlushTx
    ensures events[2] == Write(Status, [STATUS_RX_DR | STATUS_TX_DS | STATUS_MAX_RT])
    ensures forall rs :: Status !in rs ==> WritesNone(events, rs)
  {
    var events := [Command(FlushRxFrame()), Command(FlushTxFrame()), Write(Status, [STATUS_RX_DR | STATUS_TX_DS | STATUS_MAX_RT])];
    assert forall r :: r != Status ==> !WritesTo(events[2], r) by {
      forall r | r != Status
        ensures !WritesTo(events[2], r)
      {
        WriteTargets(Status, [STATUS_RX_DR | STATUS_TX_DS | STATUS_MAX_RT], r);
      }
    }
    events
  }

  /** Pushing the registers `rs` writes no register outside them. */
  lemma PushWritesNone(s: Session, rs: seq<OwnedRegister>, ws: set<Register>)
    requires forall r :: r in ws ==> r !in rs
    ensures WritesNone(Push(s, rs), ws)
  {
    forall i, r | 0 <= i < |rs| && r in ws
      ensures !WritesTo(Push(s, rs)[i], r)
    {
      WriteTargets(rs[i], RegisterValue(s, rs[i]), r);
    }
  }

  /** set_config writes CONFIG and nothing else. */
  lemma PushConfigWritesOnlyConfig(s: Session, ws: set<Register>)
    requires Config !in ws
    ensures WritesNone(PushConfig(s).events, ws)
  {
    var events := PushConfig(s).events;
    forall i, r | 0 <= i < |events| && r in ws
      ensures !WritesTo(events[i], r)
    {
      if i == 0 {
        WriteTargets(Config, [ConfigValue(s.crc, s.power, s.mode)], r);
      }
    }
  }

  /** The start sequences' register values are the stored ones: resetting
      the pipe-1 address changes none of them. */
  lemma StartValuesIgnorePipe1(s: Session)
    ensures forall i :: 0 <= i < |StartRegisters| ==>
      RegisterValue(s.(pipe1Address := DefaultAddress), StartRegisters[i]) == RegisterValue(s, StartRegisters[i])
  {
  }

  /** The register writes, flushes and flag clearing both start sequences
      make before powering up, for the registers `rs` of session `s`. */
  function StartPrefix(s: Session, rs: seq<OwnedRegister>): (events: seq<BusEvent>)
    ensures |events| == |rs| + 3
  {
    Push(s, rs) + FlushAndClear()
  }

  /** The first `|rs|` events write the session's values of `rs`, in order. */
  predicate PushesFirst(s: Session, rs: seq<OwnedRegister>, events: seq<BusEvent>)
  {
    |rs| <= |events| && forall i :: 0 <= i < |rs| ==> events[i] == Write(rs[i], RegisterValue(s, rs[i]))
  }

  /** The pushes of `rs0 + tail` begin with those of `rs0`, followed by
      those of `tail`. */
  lemma PushAppend(s: Session, rs0: seq<OwnedRegister>, tail: seq<OwnedRegister>)
    ensures Push(s, rs0 + tail) == Push(s, rs0) + Push(s, tail)
  {
    var events := Push(s, rs0 + tail);
    forall i | 0 <= i < |rs0 + tail|
      ensures events[i] == (Push(s, rs0) + Push(s, tail))[i]
    {
      if i < |rs0| {
        assert (rs0 + tail)[i] == rs0[i];
      } else {
        assert (rs0 + tail)[i] == tail[i - |rs0|];
      }
    }
  }

  /** The four parts of a concatenation are its slices at the part lengths. */
  lemma ConcatParts<T>(a: seq<T>, b: seq<T>, c: seq<T>, d: seq<T>)
    ensures forall i :: 0 <= i < |a| ==> (a + b + c + d)[i] == a[i]
    ensures (a + b + c + d)[|a|..|a| + |b|] == b
    ensures (a + b + c + d)[|a| + |b|..|a| + |b| + |c|] == c
    ensures (a + b + c + d)[|a| + |b| + |c|..] == d
  {
    var e := a + b + c + d;
    assert e == a + (b + (c + d));
    assert e[|a|..] == b + (c + d);
    assert e[|a| + |b|..] == c + d;
  }

  /** A start sequence begins with the writes of the configuration
      registers `rs0`. */
  lemma StartHead(s: Session, rs0: seq<OwnedRegister>, tail: seq<OwnedRegister>, up: seq<BusEvent>)
    ensures PushesFirst(s, rs0, StartPrefix(s, rs0 + tail) + up)
  {
    PushAppend(s, rs0, tail);
    ConcatParts(Push(s, rs0), Push(s, tail), FlushAndClear(), up);
  }

  /** After the configuration registers `rs0`, a start sequence writes the
      address registers `tail`. */
  lemma StartAddresses(s: Session, rs0: seq<OwnedRegister>, tail: seq<OwnedRegister>, up: seq<BusEvent>)
    ensures (StartPrefix(s, rs0 + tail) + up)[|rs0|..|rs0| + |tail|] == Push(s, tail)
  {
    PushAppend(s, rs0, tail);
    ConcatParts(Push(s, rs0), Push(s, tail), FlushAndClear(), up);
  }

  /** After the registers, a start sequence flushes and clears the flags,
      then makes the power-up events `up`. */
  lemma StartTail(s: Session, rs: seq<OwnedRegister>, up: seq<BusEvent>)
    ensures (StartPrefix(s, rs) + up)[|rs|..|rs| + 3] == FlushAndClear()
    ensures (StartPrefix(s, rs) + up)[|rs| + 3..] == up
  {
    ConcatParts(Push(s, rs), [], FlushAndClear(), up);
    assert Push(s, rs) + [] == Push(s, rs);
  }

  /** A start sequence writes no register outside `rs` but STATUS and, when
      the power-up finds the radio off, CONFIG. */
  lemma StartWritesNone(s: Session, rs: seq<OwnedRegister>, mode: Mode, ws: set<Register>)
    requires forall r :: r in ws ==> r !in rs && r != Status
    requires Config in ws ==> s.power.On?
    ensures WritesNone(StartPrefix(s, rs) + PowerUp(s.(mode := mode), 0).0.events, ws)
  {
    var up := PowerUp(s.(mode := mode), 0).0;
    PushWritesNone(s, rs, ws);
    WritesNoneAppend(Push(s, rs), FlushAndClear(), ws);
    if s.power.Off? {
      PushConfigWritesOnlyConfig(s.(mode := mode, power := On), ws);
    } else {
      assert up.events == [];
    }
    WritesNoneAppend(StartPrefix(s, rs), up.events, ws);
  }

  /** The registers the transmitter start pushes before powering up. */
  const TransmitterRegisters: seq<OwnedRegister> := StartRegisters + [TxAddr, RxAddrP0, RxAddrP1]

  /** The registers the receiver start pushes before powering up. */
  const ReceiverRegisters: seq<OwnedRegister> := StartRegisters + [RxAddrP1]

  /** The bus trace of a transmitter start from session `s`: the start
      registers with the session's values, TX_ADDR, RX_ADDR_P0 and RX_ADDR_P1,
      both flushes and the flag clearing, and CONFIG with PWR_UP and PRIM_RX
      clear only if the radio was off. */
  predicate TransmitterTrace(s: Session, events: seq<BusEvent>)
  {
    && |events| == |StartRegisters| + 6 + (if s.power.Off? then 1 else 0)
    && PushesFirst(s, StartRegisters, events)
    && events[|StartRegisters|..|StartRegisters| + 3] == [Write(TxAddr, s.txAddress), Write(RxAddrP0, s.pipe0Address), Write(RxAddrP1, s.pipe1Address)]
    && events[|StartRegisters| + 3..|StartRegisters| + 6] == FlushAndClear()
    && (s.power.Off? ==> events[|StartRegisters| + 6] == Write(Config, [ConfigValue(s.crc, On, Transmitter)]))
    && (s.power.On? ==> WritesNone(events, {Config}))
  }

  /** The bus trace of a receiver start from session `s`: the start
      registers with the session's values, RX_ADDR_P1 reset to the default,
      both flushes and the flag clearing, then, only if the radio was off,
      CONFIG with PWR_UP and PRIM_RX set and CE raised. TX_ADDR and
      RX_ADDR_P0 are never written. */
  predicate ReceiverTrace(s: Session, events: seq<BusEvent>)
  {
    && |events| == |StartRegisters| + 4 + (if s.power.Off? then 2 else 0)
    && PushesFirst(s, StartRegisters, events)
    && events[|StartRegisters|] == Write(RxAddrP1, DefaultAddress)
    && events[|StartRegisters| + 1..|StartRegisters| + 4] == FlushAndClear()
    && (s.power.Off? ==> events[|StartRegisters| + 4..] == [Write(Config, [ConfigValue(s.crc, On, Receiver)]), CeLevel(true)])
    && WritesNone(events, {TxAddr, RxAddrP0} + if s.power.On? then {Config} else {})
  }

  /** The trace and session of cgrf_start_as_transmitter. */
  function TransmitterStart(s: Session): Step
  {
    var up := PowerUp(s.(mode := Transmitter), 0).0;
    Step(up.session, StartPrefix(s, TransmitterRegisters) + up.events)
  }

  /** The trace and session of cgrf_start_as_reciever. */
  function ReceiverStart(s: Session): Step
  {
    var s1 := s.(pipe1Address := DefaultAddress);
    var up := PowerUp(s1.(mode := Receiver), 0).0;
    Step(up.session, StartPrefix(s1, ReceiverRegisters) + up.events)
  }

  /** The power-up at the end of the transmitter start: CONFIG with PWR_UP
      set and PRIM_RX clear if the radio was off, nothing otherwise. */
  lemma TransmitterPowerUp(s: Session)
    ensures PowerUp(s.(mode := Transmitter), 0).0.events
      == if s.power.Off? then [Write(Config, [ConfigValue(s.crc, On, Transmitter)])] else []
  {
  }

  /** The power-up at the end of the receiver start: CONFIG with PWR_UP and
      PRIM_RX set, then CE raised, if the radio was off; nothing otherwise. */
  lemma ReceiverPowerUp(s: Session)
    ensures PowerUp(s.(pipe1Address := DefaultAddress, mode := Receiver), 0).0.events
      == if s.power.Off? then [Write(Config, [ConfigValue(s.crc, On, Receiver)]), CeLevel(true)] else []
  {
  }

  /** After the start registers, the transmitter start pushes the three
      addresses. */
  lemma TransmitterStartAddresses(s: Session)
    ensures TransmitterStart(s).events[|StartRegisters|..|StartRegisters| + 3]
      == [Write(TxAddr, s.txAddress), Write(RxAddrP0, s.pipe0Address), Write(RxAddrP1, s.pipe1Address)]
  {
    var up := PowerUp(s.(mode := Transmitter), 0).0;
    StartAddresses(s, StartRegisters, [TxAddr, RxAddrP0, RxAddrP1], up.events);
    PushThree(s, TxAddr, RxAddrP0, RxAddrP1);
  }

  /** The transmitter start ends with the flushes, the flag clearing and
      the power-up. */
  lemma TransmitterStartTail(s: Session)
    ensures TransmitterStart(s).events[|StartRegisters| + 3..|StartRegisters| + 6] == FlushAndClear()
    ensures TransmitterStart(s).events[|StartRegisters| + 6..] == PowerUp(s.(mode := Transmitter), 0).0.events
  {
    StartTail(s, TransmitterRegisters, PowerUp(s.(mode := Transmitter), 0).0.events);
  }

  /** The transmitter start begins with the start registers. */
  lemma TransmitterStartHead(s: Session)
    ensures PushesFirst(s, StartRegisters, TransmitterStart(s).events)
  {
    var up := PowerUp(s.(mode := Transmitter), 0).0;
    StartHead(s, StartRegisters, [TxAddr, RxAddrP0, RxAddrP1], up.events);
  }

  /** The transmitter start writes CONFIG only from power-off. */
  lemma TransmitterStartWrites(s: Session)
    ensures s.power.On? ==> WritesNone(TransmitterStart(s).events, {Config})
  {
    if s.power.On? {
      StartWritesNone(s, TransmitterRegisters, Transmitter, {Config});
    }
  }

  /** The parts of a transmitter start put together. */
  lemma TransmitterTraceOf(s: Session, events: seq<BusEvent>, up: seq<BusEvent>)
    requires |events| >= |StartRegisters| + 6
    requires PushesFirst(s, StartRegisters, events)
    requires events[|StartRegisters|..|StartRegisters| + 3]
      == [Write(TxAddr, s.txAddress), Write(RxAddrP0, s.pipe0Address), Write(RxAddrP1, s.pipe1Address)]
    requires events[|StartRegisters| + 3..|StartRegisters| + 6] == FlushAndClear()
    requires events[|StartRegisters| + 6..] == up
    requires up == if s.power.Off? then [Write(Config, [ConfigValue(s.crc, On, Transmitter)])] else []
    requires s.power.On? ==> WritesNone(events, {Config})
    ensures TransmitterTrace(s, events)
  {
    assert |events| == |StartRegisters| + 6 + |up|;
    assert s.power.Off? ==> events[|StartRegisters| + 6] == up[0];
  }

  /** The transmitter start makes exactly the transmitter trace. */
  lemma TransmitterStartTrace(s: Session)
    ensures TransmitterTrace(s, TransmitterStart(s).events)
  {
    TransmitterStartHead(s);
    TransmitterStartAddresses(s);
    TransmitterStartTail(s);
    TransmitterStartWrites(s);
    TransmitterPowerUp(s);
    TransmitterTraceOf(s, TransmitterStart(s).events, PowerUp(s.(mode := Transmitter), 0).0.events);
  }

  /** The transmitter start leaves CE where its trace drives it. */
  lemma TransmitterStartCe(s: Session)
    ensures CeAfter(TransmitterStart(s).events, s.ce) == TransmitterStart(s).session.ce
  {
    var up := PowerUp(s.(mode := Transmitter), 0).0;
    CePulseShift(StartPrefix(s, TransmitterRegisters), up.events, s.ce);
  }

  /** After the start registers, the receiver start pushes the default
      pipe-1 address. */
  lemma ReceiverStartAddress(s: Session)
    ensures ReceiverStart(s).events[|StartRegisters|] == Write(RxAddrP1, DefaultAddress)
  {
    var s1 := s.(pipe1Address := DefaultAddress);
    StartAddresses(s1, StartRegisters, [RxAddrP1], PowerUp(s1.(mode := Receiver), 0).0.events);
    PushOne(s1, RxAddrP1);
  }

  /** The receiver start ends with the flushes, the flag clearing and the
      power-up. */
  lemma ReceiverStartTail(s: Session)
    ensures ReceiverStart(s).events[|StartRegisters| + 1..|StartRegisters| + 4] == FlushAndClear()
    ensures ReceiverStart(s).events[|StartRegisters| + 4..]
      == PowerUp(s.(pipe1Address := DefaultAddress, mode := Receiver), 0).0.events
  {
    var s1 := s.(pipe1Address := DefaultAddress);
    StartTail(s1, ReceiverRegisters, PowerUp(s1.(mode := Receiver), 0).0.events);
  }

  /** The receiver start begins with the start registers, whose values the
      pipe-1 reset leaves alone. */
  lemma ReceiverStartHead(s: Session)
    ensures PushesFirst(s, StartRegisters, ReceiverStart(s).events)
  {
    var s1 := s.(pipe1Address := DefaultAddress);
    var up := PowerUp(s1.(mode := Receiver), 0).0;
    StartHead(s1, StartRegisters, [RxAddrP1], up.events);
    StartValuesIgnorePipe1(s);
  }

  /** The receiver start writes CONFIG only from power-off, and never
      TX_ADDR or RX_ADDR_P0. */
  lemma ReceiverStartWrites(s: Session)
    ensures WritesNone(ReceiverStart(s).events, {TxAddr, RxAddrP0} + if s.power.On? then {Config} else {})
  {
    StartWritesNone(s.(pipe1Address := DefaultAddress), ReceiverRegisters, Receiver,
                    {TxAddr, RxAddrP0} + if s.power.On? then {Config} else {});
  }

  /** The parts of a receiver start put together. */
  lemma ReceiverTraceOf(s: Session, events: seq<BusEvent>, up: seq<BusEvent>)
    requires |events| >= |StartRegisters| + 4
    requires PushesFirst(s, StartRegisters, events)
    requires events[|StartRegisters|] == Write(RxAddrP1, DefaultAddress)
    requires events[|StartRegisters| + 1..|StartRegisters| + 4] == FlushAndClear()
    requires events[|StartRegisters| + 4..] == up
    requires up == if s.power.Off? then [Write(Config, [ConfigValue(s.crc, On, Receiver)]), CeLevel(true)] else []
    requires WritesNone(events, {TxAddr, RxAddrP0} + if s.power.On? then {Config} else {})
    ensures ReceiverTrace(s, events)
  {
    assert |events| == |StartRegisters| + 4 + |up|;
  }

  /** The receiver start makes exactly the receiver trace. */
  lemma ReceiverStartTrace(s: Session)
    ensures ReceiverTrace(s, ReceiverStart(s).events)
  {
    ReceiverStartHead(s);
    ReceiverStartAddress(s);
    ReceiverStartTail(s);
    ReceiverStartWrites(s);
    ReceiverPowerUp(s);
    ReceiverTraceOf(s, ReceiverStart(s).events, PowerUp(s.(pipe1Address := DefaultAddress, mode := Receiver), 0).0.events);
  }

  /** The receiver start leaves CE where its trace drives it. */
  lemma ReceiverStartCe(s: Session)
    ensures CeAfter(ReceiverStart(s).events, s.ce) == ReceiverStart(s).session.ce
  {
    var s1 := s.(pipe1Address := DefaultAddress);
    var up := PowerUp(s1.(mode := Receiver), 0).0;
    CePulseShift(StartPrefix(s1, ReceiverRegisters), up.events, s.ce);
  }

  /** cgrf_start_as_transmitter: configures the radio, pushes all three
      addresses, flushes, clears the flags, selects transmitter mode and
      powers up; CONFIG is written only if the radio was off. */
  function StartAsTransmitter(s: Session): (r: Step)
    ensures r.session.mode.Transmitter? && r.session.power.On?
    ensures r.session.(ce := s.ce) == s.(mode := Transmitter, power := On)
    ensures TransmitterTrace(s, r.events)
    ensures CeAfter(r.events, s.ce) == r.session.ce
  {
    TransmitterStartTrace(s);
    TransmitterStartCe(s);
    TransmitterStart(s)
  }

  /** cgrf_start_as_reciever: configures the radio like the transmitter
      start, but resets the pipe-1 address to 01 02 03 04 01 and pushes only
      that address; then selects receiver mode and powers up. CONFIG, and
      with it CE, change only if the radio was off. */
  function StartAsReceiver(s: Session): (r: Step)
    ensures r.session.mode.Receiver? && r.session.power.On?
    ensures r.session.(ce := s.ce) == s.(mode := Receiver, power := On, pipe1Address := DefaultAddress)
    ensures ReceiverTrace(s, r.events)
    ensures CeAfter(r.events, s.ce) == r.session.ce
    ensures s.power.Off? ==> r.session.ce
  {
    ReceiverStartTrace(s);
    ReceiverStartCe(s);
    ReceiverStart(s)
  }

  // Transmission and reception.

  /** cgrf_check_acknowledgment's classification of the STATUS value: TX_DS
      wins over MAX_RT; with neither, the retry is still in progress. */
  function Classify(status: byte): (ack: Acknowledgment)
    ensures ack.Success? <==> status & STATUS_TX_DS != 0
    ensures ack.Failed? <==> status & STATUS_TX_DS == 0 && status & STATUS_MAX_RT != 0
    ensures ack.FailedRetryInProgress? <==> status & (STATUS_TX_DS | STATUS_MAX_RT) == 0
  {
    if status & STATUS_TX_DS != 0 then Success
    else if status & STATUS_MAX_RT != 0 then Failed
    else FailedRetryInProgress
  }

  /** cgrf_check_acknowledgment: one STATUS read, classified. */
  function CheckAcknowledgment(status: byte): (r: (Acknowledgment, seq<BusEvent>))
    ensures r.1 == [Read(Status)]
    ensures r.0 == Classify(status)
  {
    (Classify(status), [Read(Status)])
  }

  /** The STATUS write after every transmission: ones clear TX_DS and MAX_RT. */
  function ClearTransmitFlags(): BusEvent
  {
    Write(Status, [STATUS_TX_DS | STATUS_MAX_RT])
  }

  /** cgrf_transmit_data: the payload sent in standby-II (CE left high),
      the acknowledgment checked, then TX_DS and MAX_RT cleared.
      `status` is the STATUS value the chip returns to the check. */
  function TransmitData(s: Session, data: seq<byte>, size: nat, status: byte): (r: (Step, Acknowledgment))
    requires size < 256 && size <= |data|
    ensures r.0.session == s.(ce := true)
    ensures r.1 == Classify(status)
    ensures |r.0.events| >= 3 && r.0.events[0] == Command(Frame(W_TX_PAYLOAD, data[..size], 0))
    ensures r.0.events[|r.0.events| - 2..] == [Read(Status), ClearTransmitFlags()]
    ensures CeAfter(r.0.events, s.ce) && CeRises(r.0.events, s.ce) == 1
    ensures |r.0.events| == (if s.ce then 5 else 4)
    ensures forall i :: 1 <= i < |r.0.events| - 2 ==> r.0.events[i].CeLevel?
  {
    var tx := Nrf24.TransmitData(StandbyIIFastStart, s.ce, data, size);
    var check := CheckAcknowledgment(status);
    var events := tx + check.1 + [ClearTransmitFlags()];
    TailKeepsCe(tx, check.1 + [ClearTransmitFlags()], s.ce);
    assert events == tx + (check.1 + [ClearTransmitFlags()]);
    (Step(s.(ce := true), events), check.0)
  }

  /** cgrf_retransmit: as cgrf_transmit_data, with the W_TX_PAYLOAD command
      sent without data. */
  function Retransmit(s: Session, status: byte): (r: (Step, Acknowledgment))
    ensures r == TransmitData(s, [], 0, status)
    ensures r.0.events[0] == Command(Frame(W_TX_PAYLOAD, [], 0))
  {
    var tx := Nrf24.Retransmit(StandbyIIFastStart, s.ce);
    var check := CheckAcknowledgment(status);
    (Step(s.(ce := true), tx + check.1 + [ClearTransmitFlags()]), check.0)
  }

  /** Register and status commands after a CE sequence leave CE where it was. */
  lemma TailKeepsCe(head: seq<BusEvent>, tail: seq<BusEvent>, ce: bool)
    requires forall i :: 0 <= i < |tail| ==> tail[i].Command?
    ensures CeAfter(head + tail, ce) == CeAfter(head, ce)
    ensures CeRises(head + tail, ce) == CeRises(head, ce)
    decreases |tail|
  {
    if tail != [] {
      assert (head + tail)[..|head + tail| - 1] == head + tail[..|tail| - 1];
      TailKeepsCe(head, tail[..|tail| - 1], ce);
    } else {
      assert head + tail == head;
    }
  }

  function Min(a: nat, b: nat): nat
  {
    if a <= b then a else b
  }

  /** The number of bytes cgrf_get_payload copies: none for a zero width,
      otherwise the width cut to the caller's size. */
  function PayloadCount(width: byte, size: nat): (n: nat)
    ensures n <= width as nat && n <= size
    ensures width as nat <= size ==> n == width as nat
    ensures width != 0 && size < width as nat ==> n == size
  {
    if width == 0 then 0 else Min(width as nat, size)
  }

  /** cgrf_get_payload: reads the payload width, reads `PayloadCount` bytes
      of the FIFO into the buffer when the width is not 0, reads STATUS,
      clears RX_DR only if it was set, and returns the status read.
      `width`, `fifo` and `status` are the chip's answers. */
  function GetPayload(buf: seq<byte>, size: nat, width: byte, fifo: seq<byte>, status: byte): (r: (seq<byte>, seq<BusEvent>, byte))
    requires size < 256 && size <= |buf|
    requires PayloadCount(width, size) <= |fifo|
    ensures |r.0| == |buf|
    ensures forall i :: 0 <= i < |buf| ==> r.0[i] == if i < PayloadCount(width, size) then fifo[i] else buf[i]
    ensures r.2 == status
    ensures |r.1| >= 2 && r.1[0] == Command(PayloadSizeFrame())
    ensures width != 0 <==> r.1[1] == Command(PayloadFrame(PayloadCount(width, size)))
    ensures |r.1| == 2 + (if width != 0 then 1 else 0) + (if status & STATUS_RX_DR != 0 then 1 else 0)
    ensures r.1[if width != 0 then 2 else 1] == Read(Status)
    ensures status & STATUS_RX_DR != 0 <==> r.1[|r.1| - 1] == Write(Status, [STATUS_RX_DR])
  {
    var n := PayloadCount(width, size);
    var read := if width != 0 then [Command(PayloadFrame(n))] else [];
    var clear := if status & STATUS_RX_DR != 0 then [Write(Status, [STATUS_RX_DR])] else [];
    var events := [Command(PayloadSizeFrame())] + read + [Read(Status)] + clear;
    (fifo[..n] + buf[n..], events, status)
  }
}
