/** The invariant the radio session rests on: the driver never reads its
    configuration back, so its copy of the configuration must match what the
    chip holds. Here the chip is the register file of Nrf24 (the last bytes
    written to each address), and every session operation is shown to keep
    the copy and the chip in step, or, for the start sequences, to bring them
    into step. */
module CgrfSync {
  import opened Bytes
  import opened Nrf24
  import opened Cgrf

  /** The registers the session vouches for: every owned register, except
      CONFIG while the radio is off (the CRC setting is then changed without
      a write, and pushed at the next power-up). */
  predicate Tracked(s: Session, r: Register)
  {
    Owned(r) && (!r.Config? || s.power.On?)
  }

  /** Register `r` holds the session's value for it. */
  predicate Holds(regs: RegisterFile, s: Session, r: Register)
    requires Owned(r)
  {
    Address(r) as nat in regs && regs[Address(r) as nat] == RegisterValue(s, r)
  }

  /** The chip holds every value the session vouches for. */
  predicate Synced(regs: RegisterFile, s: Session)
  {
    forall r :: Tracked(s, r) ==> Holds(regs, s, r)
  }

  /** An event that writes no owned register: a CE change, a command other
      than a register write, or a write to a chip-owned or unmapped address. */
  predicate LeavesOwned(e: BusEvent)
  {
    e.CeLevel? ||
    match Decode(e.frame.cmd)
    case WriteRegister(a) => RegisterAt(a).None? || !Owned(RegisterAt(a).value)
    case _ => true
  }

  /** Writing a register puts exactly the bytes written at its address. */
  lemma ApplyWrite(regs: RegisterFile, r: Register, data: seq<byte>)
    requires r != Cd && |data| == Width(r)
    ensures Apply(regs, Write(r, data)) == regs[Address(r) as nat := data]
  {
  }

  /** Running a push is running its first write, then the rest. */
  lemma RunPushStep(regs: RegisterFile, s: Session, rs: seq<OwnedRegister>)
    requires rs != []
    ensures Run(regs, Push(s, rs)) == Run(regs[Address(rs[0]) as nat := RegisterValue(s, rs[0])], Push(s, rs[1..]))
  {
    var events := Push(s, rs);
    ApplyWrite(regs, rs[0], RegisterValue(s, rs[0]));
    assert events[1..] == Push(s, rs[1..]);
  }

  /** Pushing the session's values of `rs` disturbs no register that
      already held the session's value. */
  lemma {:induction false} RunPushKeeps(regs: RegisterFile, s: Session, rs: seq<OwnedRegister>, r: Register)
    requires Owned(r) && Holds(regs, s, r)
    ensures Holds(Run(regs, Push(s, rs)), s, r)
    decreases |rs|
  {
    if rs != [] {
      var next := regs[Address(rs[0]) as nat := RegisterValue(s, rs[0])];
      RunPushStep(regs, s, rs);
      AddressInjective(r, rs[0]);
      assert Holds(next, s, r);
      RunPushKeeps(next, s, rs[1..], r);
    }
  }

  /** Pushing the session's values of `rs` leaves each of them holding. */
  lemma {:induction false} RunPushHolds(regs: RegisterFile, s: Session, rs: seq<OwnedRegister>, r: Register)
    requires r in rs
    ensures Holds(Run(regs, Push(s, rs)), s, r)
    decreases |rs|
  {
    var next := regs[Address(rs[0]) as nat := RegisterValue(s, rs[0])];
    RunPushStep(regs, s, rs);
    if r == rs[0] {
      RunPushKeeps(next, s, rs[1..], r);
    } else {
      assert r in rs[1..];
      RunPushHolds(next, s, rs[1..], r);
    }
  }

  /** Pushing the session's values of `rs` leaves each of them holding, and
      disturbs no register that already held the session's value. */
  lemma RunPush(regs: RegisterFile, s: Session, rs: seq<OwnedRegister>)
    ensures forall r :: r in rs ==> Holds(Run(regs, Push(s, rs)), s, r)
    ensures forall r :: Owned(r) && Holds(regs, s, r) ==> Holds(Run(regs, Push(s, rs)), s, r)
  {
    forall r | r in rs
      ensures Holds(Run(regs, Push(s, rs)), s, r)
    {
      RunPushHolds(regs, s, rs, r);
    }
    forall r | Owned(r) && Holds(regs, s, r)
      ensures Holds(Run(regs, Push(s, rs)), s, r)
    {
      RunPushKeeps(regs, s, rs, r);
    }
  }

  /** Events that write no owned register keep every owned register. */
  lemma {:induction false} RunLeavesOwned(regs: RegisterFile, s: Session, events: seq<BusEvent>, r: Register)
    requires forall i :: 0 <= i < |events| ==> LeavesOwned(events[i])
    requires Owned(r) && Holds(regs, s, r)
    ensures Holds(Run(regs, events), s, r)
    decreases |events|
  {
    if events != [] {
      ApplyLeavesOwned(regs, s, events[0], r);
      RunLeavesOwned(Apply(regs, events[0]), s, events[1..], r);
    }
  }

  lemma ApplyLeavesOwned(regs: RegisterFile, s: Session, e: BusEvent, r: Register)
    requires LeavesOwned(e)
    requires Owned(r) && Holds(regs, s, r)
    ensures Holds(Apply(regs, e), s, r)
  {
    if e.Command? && Decode(e.frame.cmd).WriteRegister? {
      AddressMap(r);
    }
  }

  /** Synced is kept by events that write no owned register. */
  lemma SyncedLeavesOwned(regs: RegisterFile, s: Session, events: seq<BusEvent>)
    requires forall i :: 0 <= i < |events| ==> LeavesOwned(events[i])
    requires Synced(regs, s)
    ensures Synced(Run(regs, events), s)
  {
    forall r | Tracked(s, r)
      ensures Holds(Run(regs, events), s, r)
    {
      RunLeavesOwned(regs, s, events, r);
    }
  }

  /** Moving from session `s` to `s2` by pushing `rs` keeps the chip in step,
      provided every register `s2` vouches for outside `rs` was vouched for
      by `s` with the same value. */
  lemma PushSyncs(regs: RegisterFile, s: Session, s2: Session, rs: seq<OwnedRegister>)
    requires Synced(regs, s)
    requires forall r :: Tracked(s2, r) && r !in rs ==> Tracked(s, r) && RegisterValue(s2, r) == RegisterValue(s, r)
    ensures Synced(Run(regs, Push(s2, rs)), s2)
  {
    RunPush(regs, s2, rs);
    forall r | Tracked(s2, r)
      ensures Holds(Run(regs, Push(s2, rs)), s2, r)
    {
      if r !in rs {
        assert Holds(regs, s, r);
      }
    }
  }

  /** A CE change after a push writes nothing. */
  lemma RunCeLevel(regs: RegisterFile, events: seq<BusEvent>, high: bool)
    ensures Run(regs, events + [CeLevel(high)]) == Run(regs, events)
  {
    RunAppend(regs, events, [CeLevel(high)]);
    assert [CeLevel(high)][1..] == [];
  }

  /** set_config's CE handling does not touch the registers. */
  lemma RunPushConfig(regs: RegisterFile, s: Session)
    ensures Run(regs, PushConfig(s).events) == Run(regs, Push(s, [Config]))
  {
    if s.mode.Receiver? {
      RunCeLevel(regs, Push(s, [Config]), s.power.On?);
    }
  }

  // The setters keep the chip in step.

  lemma SetChannelSyncs(regs: RegisterFile, s: Session, channel: byte)
    requires Synced(regs, s)
    ensures Synced(Run(regs, SetChannel(s, channel).events), SetChannel(s, channel).session)
  {
    var r := SetChannel(s, channel);
    if r.events != [] {
      Outside(s, r.session, [RfCh]);
      PushSyncs(regs, s, r.session, [RfCh]);
    }
  }

  lemma SetDataRateSyncs(regs: RegisterFile, s: Session, rate: DataRate)
    requires Synced(regs, s)
    ensures Synced(Run(regs, SetDataRate(s, rate).events), SetDataRate(s, rate).session)
  {
    var r := SetDataRate(s, rate);
    if r.events != [] {
      Outside(s, r.session, [RfSetup]);
      PushSyncs(regs, s, r.session, [RfSetup]);
    }
  }

  lemma SetOutputPowerSyncs(regs: RegisterFile, s: Session, power: OutputPower)
    requires Synced(regs, s)
    ensures Synced(Run(regs, SetOutputPower(s, power).events), SetOutputPower(s, power).session)
  {
    var r := SetOutputPower(s, power);
    if r.events != [] {
      Outside(s, r.session, [RfSetup]);
      PushSyncs(regs, s, r.session, [RfSetup]);
    }
  }

  lemma SetCrcEncodingSyncs(regs: RegisterFile, s: Session, crc: CrcEncoding)
    requires Synced(regs, s)
    ensures Synced(Run(regs, SetCrcEncoding(s, crc).events), SetCrcEncoding(s, crc).session)
  {
    var r := SetCrcEncoding(s, crc);
    var s2 := s.(crc := crc);
    if crc != s.crc && s.power.On? {
      RunPushConfig(regs, s2);
      Outside(s, s2, [Config]);
      PushSyncs(regs, s, s2, [Config]);
      SyncedIgnoresCe(Run(regs, Push(s2, [Config])), s2, r.session.ce);
    } else {
      PushSyncs(regs, s, s2, []);
    }
  }

  lemma SetAcknowledgmentSyncs(regs: RegisterFile, s: Session, ack: AutoAck)
    requires Synced(regs, s)
    ensures Synced(Run(regs, SetAcknowledgment(s, ack).events), SetAcknowledgment(s, ack).session)
  {
    if ack != s.autoAck {
      AcknowledgmentPushSyncs(regs, s, ack);
      PushTwo(s.(autoAck := ack), EnAa, Feature);
    }
  }

  /** Pushing EN_AA and FEATURE for a new acknowledgment setting keeps the
      chip in step. */
  lemma AcknowledgmentPushSyncs(regs: RegisterFile, s: Session, ack: AutoAck)
    requires Synced(regs, s)
    ensures Synced(Run(regs, Push(s.(autoAck := ack), [EnAa, Feature])), s.(autoAck := ack))
  {
    Outside(s, s.(autoAck := ack), [EnAa, Feature]);
    PushSyncs(regs, s, s.(autoAck := ack), [EnAa, Feature]);
  }

  lemma SetLengthSyncs(regs: RegisterFile, s: Session, length: PayloadLength, size: byte)
    requires Synced(regs, s)
    ensures Synced(Run(regs, SetLength(s, length, size).events), SetLength(s, length, size).session)
  {
    if s.length.DynamicLength? {
      if length.StaticLength? {
        var s1 := s.(length := length);
        var e1 := Push(s1, [Dynpd, Feature]);
        var e2 := Push(s1.(size := 0), [RxPwP1]);
        LengthWritesPush(s, length);
        SizeWritePush(s1, 0);
        assert SetLength(s, length, size) == Step(s1.(size := 0), e1 + e2);
        LengthPushSyncs(regs, s, length);
        SizePushSyncs(Run(regs, e1), s1, 0);
        RunAppend(regs, e1, e2);
      }
    } else {
      StaticSetLengthSyncs(regs, s, length, size);
    }
  }

  /** From static length, the length push and the size push each keep the
      chip in step. */
  lemma StaticSetLengthSyncs(regs: RegisterFile, s: Session, length: PayloadLength, size: byte)
    requires Synced(regs, s) && s.length.StaticLength?
    ensures Synced(Run(regs, SetLength(s, length, size).events), SetLength(s, length, size).session)
  {
    var s1 := s.(length := length);
    var e1 := if length != s.length then Push(s1, [Dynpd, Feature]) else [];
    var s2 := s1.(size := size);
    var e2 := if size != s.size then Push(s2, [RxPwP1]) else [];
    LengthWritesPush(s, length);
    SizeWritePush(s1, size);
    assert SetLength(s, length, size) == Step(s2, e1 + e2);
    LengthPushSyncs(regs, s, length);
    if size != s.size {
      SizePushSyncs(Run(regs, e1), s1, size);
    }
    RunAppend(regs, e1, e2);
  }

  /** The length writes of cgrf_set_length push the new length's registers. */
  lemma LengthWritesPush(s: Session, length: PayloadLength)
    ensures LengthWrites(length, s.autoAck) == Push(s.(length := length), [Dynpd, Feature])
  {
    PushTwo(s.(length := length), Dynpd, Feature);
  }

  /** The size write of cgrf_set_length pushes the new size's register. */
  lemma SizeWritePush(s: Session, size: byte)
    ensures SizeWrite(size) == Push(s.(size := size), [RxPwP1])
  {
    PushOne(s.(size := size), RxPwP1);
  }

  lemma LengthPushSyncs(regs: RegisterFile, s: Session, length: PayloadLength)
    requires Synced(regs, s)
    ensures length != s.length ==> Synced(Run(regs, Push(s.(length := length), [Dynpd, Feature])), s.(length := length))
  {
    if length != s.length {
      Outside(s, s.(length := length), [Dynpd, Feature]);
      PushSyncs(regs, s, s.(length := length), [Dynpd, Feature]);
    }
  }

  /** Pushing a payload size keeps the chip in step with the new size. */
  lemma SizePushSyncs(regs: RegisterFile, s: Session, size: byte)
    requires Synced(regs, s)
    ensures Synced(Run(regs, Push(s.(size := size), [RxPwP1])), s.(size := size))
  {
    Outside(s, s.(size := size), [RxPwP1]);
    PushSyncs(regs, s, s.(size := size), [RxPwP1]);
  }

  /** The registers outside `rs` whose session values agree between `s` and
      `s2` (the premise of PushSyncs), checked register by register. */
  lemma Outside(s: Session, s2: Session, rs: seq<Register>)
    requires s2.power != s.power || s2.crc != s.crc || s2.mode != s.mode ==> Config in rs
    requires s2.autoAck != s.autoAck ==> EnAa in rs && Feature in rs
    requires s2.length != s.length ==> Dynpd in rs && Feature in rs
    requires s2.size != s.size ==> RxPwP1 in rs
    requires s2.channel != s.channel ==> RfCh in rs
    requires s2.dataRate != s.dataRate || s2.outputPower != s.outputPower ==> RfSetup in rs
    requires s2.txAddress != s.txAddress ==> TxAddr in rs
    requires s2.pipe0Address != s.pipe0Address ==> RxAddrP0 in rs
    requires s2.pipe1Address != s.pipe1Address ==> RxAddrP1 in rs
    ensures forall r :: Tracked(s2, r) && r !in rs ==> Tracked(s, r) && RegisterValue(s2, r) == RegisterValue(s, r)
  {
    forall r | Tracked(s2, r) && r !in rs
      ensures Tracked(s, r) && RegisterValue(s2, r) == RegisterValue(s, r)
    {
      match r
      case Config =>
      case EnAa =>
      case Feature =>
      case Dynpd =>
      case RxPwP1 =>
      case RfCh =>
      case RfSetup =>
      case TxAddr =>
      case RxAddrP0 =>
      case RxAddrP1 =>
      case _ =>
    }
  }

  /** cgrf_set_tx_address pushes the unchanged stored addresses: harmless. */
  lemma SetTxAddressSyncs(regs: RegisterFile, s: Session, address: RadioAddress)
    requires Synced(regs, s)
    ensures Synced(Run(regs, SetTxAddress(s, address).0.events), SetTxAddress(s, address).0.session)
  {
    if address != s.txAddress {
      Outside(s, s, [TxAddr, RxAddrP0]);
      PushSyncs(regs, s, s, [TxAddr, RxAddrP0]);
    }
  }

  lemma PowerUpSyncs(regs: RegisterFile, s: Session, chipStatus: byte)
    requires Synced(regs, s)
    ensures Synced(Run(regs, PowerUp(s, chipStatus).0.events), PowerUp(s, chipStatus).0.session)
  {
    var r := PowerUp(s, chipStatus).0;
    if s.power.Off? {
      var s2 := s.(power := On);
      RunPushConfig(regs, s2);
      Outside(s, s2, [Config]);
      PushSyncs(regs, s, s2, [Config]);
      assert r.session.(ce := s2.ce) == s2;
      SyncedIgnoresCe(Run(regs, Push(s2, [Config])), s2, r.session.ce);
    }
  }

  lemma PowerDownSyncs(regs: RegisterFile, s: Session, chipStatus: byte)
    requires Synced(regs, s)
    ensures Synced(Run(regs, PowerDown(s, chipStatus).0.events), PowerDown(s, chipStatus).0.session)
  {
    var r := PowerDown(s, chipStatus).0;
    if s.power.On? {
      var s2 := s.(power := Off);
      RunPushConfig(regs, s2);
      Outside(s, s2, [Config]);
      PushSyncs(regs, s, s2, [Config]);
      SyncedIgnoresCe(Run(regs, Push(s2, [Config])), s2, r.session.ce);
    }
  }

  /** The CE level is not part of what the chip's registers hold. */
  lemma SyncedIgnoresCe(regs: RegisterFile, s: Session, ce: bool)
    requires Synced(regs, s)
    ensures Synced(regs, s.(ce := ce))
  {
    forall r | Tracked(s.(ce := ce), r)
      ensures Holds(regs, s.(ce := ce), r)
    {
      assert Holds(regs, s, r);
    }
  }

  // Transmission, reception and acknowledgment touch only STATUS.

  /** A write to a chip-owned register writes no owned register. */
  lemma WriteLeavesOwned(r: Register, data: seq<byte>)
    requires r != Cd && |data| == Width(r) && !Owned(r)
    ensures LeavesOwned(Write(r, data))
  {
    AddressMap(r);
  }

  /** Register reads write nothing. */
  lemma ReadLeavesOwned(r: Register)
    ensures LeavesOwned(Read(r))
  {
  }

  lemma TransmitDataSyncs(regs: RegisterFile, s: Session, data: seq<byte>, size: nat, status: byte)
    requires size < 256 && size <= |data|
    requires Synced(regs, s)
    ensures Synced(Run(regs, Cgrf.TransmitData(s, data, size, status).0.events), Cgrf.TransmitData(s, data, size, status).0.session)
  {
    var tx := Nrf24.TransmitData(StandbyIIFastStart, s.ce, data, size);
    var events := tx + [Read(Status)] + [ClearTransmitFlags()];
    assert Cgrf.TransmitData(s, data, size, status).0.events == events;
    ReadLeavesOwned(Status);
    WriteLeavesOwned(Status, [STATUS_TX_DS | STATUS_MAX_RT]);
    assert Decode(W_TX_PAYLOAD) == WriteTxPayload;
    assert forall i :: 1 <= i < |tx| ==> tx[i].CeLevel?;
    assert forall i :: 0 <= i < |events| ==> LeavesOwned(events[i]);
    SyncedLeavesOwned(regs, s, events);
    SyncedIgnoresCe(Run(regs, events), s, true);
  }

  lemma RetransmitSyncs(regs: RegisterFile, s: Session, status: byte)
    requires Synced(regs, s)
    ensures Synced(Run(regs, Cgrf.Retransmit(s, status).0.events), Cgrf.Retransmit(s, status).0.session)
  {
    TransmitDataSyncs(regs, s, [], 0, status);
  }

  lemma CheckAcknowledgmentSyncs(regs: RegisterFile, s: Session, status: byte)
    requires Synced(regs, s)
    ensures Synced(Run(regs, CheckAcknowledgment(status).1), s)
  {
    ReadLeavesOwned(Status);
    SyncedLeavesOwned(regs, s, CheckAcknowledgment(status).1);
  }

  lemma GetPayloadSyncs(regs: RegisterFile, s: Session, buf: seq<byte>, size: nat, width: byte, fifo: seq<byte>, status: byte)
    requires size < 256 && size <= |buf|
    requires PayloadCount(width, size) <= |fifo|
    requires Synced(regs, s)
    ensures Synced(Run(regs, GetPayload(buf, size, width, fifo, status).1), s)
  {
    var events := GetPayload(buf, size, width, fifo, status).1;
    ReadLeavesOwned(Status);
    WriteLeavesOwned(Status, [STATUS_RX_DR]);
    assert Decode(R_RX_PL_WID) == ReadPayloadWidth && Decode(R_RX_PAYLOAD) == ReadPayload;
    assert forall i :: 0 <= i < |events| ==> LeavesOwned(events[i]);
    SyncedLeavesOwned(regs, s, events);
  }

  // The start sequences bring the chip into step.

  /** Every owned register but CONFIG is written by the transmitter start. */
  lemma TransmitterStartCovers(r: Register)
    requires Owned(r) && !r.Config?
    ensures r in StartRegisters + [TxAddr, RxAddrP0, RxAddrP1]
  {
  }

  /** The receiver start writes every owned register but CONFIG and the
      transmit and pipe-0 addresses. */
  lemma ReceiverStartCovers(r: Register)
    requires Owned(r) && !r.Config? && !r.TxAddr? && !r.RxAddrP0?
    ensures r in StartRegisters + [RxAddrP1]
  {
  }

  /** The mode shows only in CONFIG's value. */
  lemma ModeOnlyInConfig(s: Session, t: Session, r: Register)
    requires t == s.(mode := t.mode) && Owned(r)
    ensures !r.Config? || s.mode == t.mode ==> RegisterValue(t, r) == RegisterValue(s, r)
  {
  }

  /** The flushes and the flag clearing write no owned register. */
  lemma FlushAndClearLeavesOwned()
    ensures forall i :: 0 <= i < |FlushAndClear()| ==> LeavesOwned(FlushAndClear()[i])
  {
    WriteLeavesOwned(Status, [STATUS_RX_DR | STATUS_TX_DS | STATUS_MAX_RT]);
  }

  /** cgrf_start_as_transmitter leaves the chip in step with the session from
      any register contents, provided the radio was off or CONFIG already
      held the session's transmitter configuration. */
  lemma StartAsTransmitterSyncs(regs: RegisterFile, s: Session)
    requires s.power.Off? || (s.mode.Transmitter? && Holds(regs, s, Config))
    ensures Synced(Run(regs, StartAsTransmitter(s).events), StartAsTransmitter(s).session)
  {
    var all := StartRegisters + [TxAddr, RxAddrP0, RxAddrP1];
    var pre := Push(s, all) + FlushAndClear();
    var t := s.(mode := Transmitter);
    var up := PowerUp(t, 0).0;
    assert StartAsTransmitter(s).events == pre + up.events;
    RunAppend(regs, pre, up.events);
    RunAppend(regs, Push(s, all), FlushAndClear());
    var pushed := Run(regs, Push(s, all));
    var flushed := Run(pushed, FlushAndClear());
    RunPush(regs, s, all);
    FlushAndClearLeavesOwned();
    forall r | Tracked(t, r)
      ensures Holds(flushed, t, r)
    {
      if r.Config? {
        assert Holds(regs, s, r);
      } else {
        TransmitterStartCovers(r);
      }
      assert Holds(pushed, s, r);
      RunLeavesOwned(pushed, s, FlushAndClear(), r);
      ModeOnlyInConfig(s, t, r);
    }
    PowerUpSyncs(flushed, t, 0);
  }

  /** cgrf_start_as_reciever leaves the chip in step with the session only
      if the transmit and pipe-0 addresses already held the session's values
      (it does not push them), and the radio was off or CONFIG already held
      the session's receiver configuration. */
lemma StartAsReceiverSyncs(regs: RegisterFile, s: Session)
    requires Holds(regs, s, TxAddr) && Holds(regs, s, RxAddrP0)
    requires s.power.Off? || (s.mode.Receiver? && Holds(regs, s, Config))
    ensures Synced(Run(regs, StartAsReceiver(s).events), StartAsReceiver(s).session)
  {
    var s1 := s.(pipe1Address := DefaultAddress);
    var all := StartRegisters + [RxAddrP1];
    var pre := Push(s1, all) + FlushAndClear();
    var t := s1.(mode := Receiver);
    var up := PowerUp(t, 0).0;
    assert StartAsReceiver(s).events == pre + up.events;
    RunAppend(regs, pre, up.events);
    RunAppend(regs, Push(s1, all), FlushAndClear());
    ReceiverPrefixSyncs(regs, s);
    PowerUpSyncs(Run(Run(regs, Push(s1, all)), FlushAndClear()), t, 0);
  }

  /** Before its power-up, the receiver start has brought every register the
      receiver session vouches for into step. */
  lemma ReceiverPrefixSyncs(regs: RegisterFile, s: Session)
    requires Holds(regs, s, TxAddr) && Holds(regs, s, RxAddrP0)
    requires s.power.Off? || (s.mode.Receiver? && Holds(regs, s, Config))
    ensures Synced(Run(Run(regs, Push(s.(pipe1Address := DefaultAddress), StartRegisters + [RxAddrP1])), FlushAndClear()),
                   s.(pipe1Address := DefaultAddress, mode := Receiver))
  {
    var s1 := s.(pipe1Address := DefaultAddress);
    var all := StartRegisters + [RxAddrP1];
    var t := s1.(mode := Receiver);
    var pushed := Run(regs, Push(s1, all));
    var flushed := Run(pushed, FlushAndClear());
    assert Holds(regs, s1, TxAddr) && Holds(regs, s1, RxAddrP0);
    assert s.power.On? ==> Holds(regs, s1, Config);
    RunPush(regs, s1, all);
    FlushAndClearLeavesOwned();
    forall r | Tracked(t, r)
      ensures Holds(flushed, t, r)
    {
      if r.Config? || r.TxAddr? || r.RxAddrP0? {
        assert Holds(regs, s1, r);
      } else {
        ReceiverStartCovers(r);
      }
      assert Holds(pushed, s1, r);
      RunLeavesOwned(pushed, s1, FlushAndClear(), r);
      ModeOnlyInConfig(s1, t, r);
    }
  }


  /** Starting as a receiver while powered as a transmitter changes the
      session's mode but writes no CONFIG: the chip stays a primary
      transmitter while the session believes it receives. */
  lemma ReceiverStartWhilePoweredKeepsTransmitterConfig(regs: RegisterFile, s: Session)
    requires Synced(regs, s) && s.power.On? && s.mode.Transmitter?
    ensures Holds(Run(regs, StartAsReceiver(s).events), s, Config)
    ensures StartAsReceiver(s).session.mode.Receiver?
    ensures !Synced(Run(regs, StartAsReceiver(s).events), StartAsReceiver(s).session)
  {
    var s1 := s.(pipe1Address := DefaultAddress);
    var all := StartRegisters + [RxAddrP1];
    var pre := Push(s1, all) + FlushAndClear();
    assert StartAsReceiver(s).events == pre;
    RunAppend(regs, Push(s1, all), FlushAndClear());
    var pushed := Run(regs, Push(s1, all));
    assert Holds(regs, s, Config) && Holds(regs, s1, Config);
    RunPush(regs, s1, all);
    FlushAndClearLeavesOwned();
    RunLeavesOwned(pushed, s1, FlushAndClear(), Config);
    var after := StartAsReceiver(s);
    var want := ConfigValue(s.crc, On, Receiver);
    var have := ConfigValue(s.crc, On, Transmitter);
    assert want & CONFIG_PRIM_PRX != have & CONFIG_PRIM_PRX;
    assert !Holds(Run(regs, after.events), after.session, Config);
  }

  /** Starting as a transmitter while powered as a receiver changes the
      session's mode but writes no CONFIG: PRIM_RX stays set, so the chip
      keeps receiving while the session believes it transmits. */
  lemma TransmitterStartWhilePoweredKeepsReceiverConfig(regs: RegisterFile, s: Session)
    requires Synced(regs, s) && s.power.On? && s.mode.Receiver?
    ensures Holds(Run(regs, StartAsTransmitter(s).events), s, Config)
    ensures StartAsTransmitter(s).session.mode.Transmitter?
    ensures !Synced(Run(regs, StartAsTransmitter(s).events), StartAsTransmitter(s).session)
  {
    var all := StartRegisters + [TxAddr, RxAddrP0, RxAddrP1];
    var pre := Push(s, all) + FlushAndClear();
    assert StartAsTransmitter(s).events == pre;
    RunAppend(regs, Push(s, all), FlushAndClear());
    var pushed := Run(regs, Push(s, all));
    assert Holds(regs, s, Config);
    RunPush(regs, s, all);
    FlushAndClearLeavesOwned();
    RunLeavesOwned(pushed, s, FlushAndClear(), Config);
    var after := StartAsTransmitter(s);
    var want := ConfigValue(s.crc, On, Transmitter);
    var have := ConfigValue(s.crc, On, Receiver);
    assert want & CONFIG_PRIM_PRX != have & CONFIG_PRIM_PRX;
    assert !Holds(Run(regs, after.events), after.session, Config);
  }
}
