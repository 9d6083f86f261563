/** The bit-banged serial bus between the microcontroller and the nRF24L01+
    (nrf24l01.c): the pin activity of one byte shifted out or in, the C
    shift loops as methods, and the chip's view of the pins. */
module Spi {
  import opened Bytes

  /** The driver's output lines to the radio. */
  datatype Line = Csn | Ce | Sck | Mosi

  /** One write to an output pin. */
  datatype PinEvent = Drive(line: Line, high: bool)

  /** One bit driven out: MOSI set to the bit, then one clock pulse. */
  function OutBit(b: bool): seq<PinEvent>
  {
    [Drive(Mosi, b), Drive(Sck, true), Drive(Sck, false)]
  }

  /** One bit clocked in: a clock pulse, MOSI left alone. */
  function InBit(): seq<PinEvent>
  {
    [Drive(Sck, true), Drive(Sck, false)]
  }

  function OutBits(bits: seq<bool>): seq<PinEvent>
  {
    if bits == [] then [] else OutBits(bits[..|bits| - 1]) + OutBit(bits[|bits| - 1])
  }

  function InBits(n: nat): seq<PinEvent>
  {
    if n == 0 then [] else InBits(n - 1) + InBit()
  }

  /** The pins toggled while one byte is shifted out, most significant bit first. */
  function OutByte(b: byte): seq<PinEvent>
  {
    [Drive(Sck, false)] + OutBits(ToBits(b))
  }

  /** The clock pulses of one byte. */
  const BitsPerByte: nat := 8

  /** The pins toggled while one byte is shifted in. */
  function InByte(): seq<PinEvent>
  {
    [Drive(Sck, false)] + InBits(BitsPerByte)
  }

  function OutBytes(data: seq<byte>): seq<PinEvent>
  {
    if data == [] then [] else OutBytes(data[..|data| - 1]) + OutByte(data[|data| - 1])
  }

  function InBytes(n: nat): seq<PinEvent>
  {
    if n == 0 then [] else InBytes(n - 1) + InByte()
  }

  // The chip's view of a pin trace.

  /** The levels driven on `line`, in order. */
  function Levels(wave: seq<PinEvent>, line: Line): seq<bool>
  {
    if wave == [] then []
    else
      var last := wave[|wave| - 1];
      Levels(wave[..|wave| - 1], line) + (if last.line == line then [last.high] else [])
  }

  /** The MOSI level after `wave`, given the level before it. */
  function MosiAfter(wave: seq<PinEvent>, mosi: bool): bool
  {
    if wave == [] then mosi
    else
      var last := wave[|wave| - 1];
      if last.line == Mosi then last.high else MosiAfter(wave[..|wave| - 1], mosi)
  }

  /** The MOSI level the chip samples at each rising clock edge, given the MOSI level before the trace. */
  function Sampled(wave: seq<PinEvent>, mosi: bool): seq<bool>
  {
    if wave == [] then []
    else
      var front := wave[..|wave| - 1];
      Sampled(front, mosi) + (if wave[|wave| - 1] == Drive(Sck, true) then [MosiAfter(front, mosi)] else [])
  }

  /** The clock levels of `n` complete pulses: high, then low, `n` times. */
  function Pulses(n: nat): (levels: seq<bool>)
    ensures |levels| == 2 * n
  {
    if n == 0 then [] else Pulses(n - 1) + [true, false]
  }

  /** The three views of a trace extended by one event. */
  lemma Snoc(w: seq<PinEvent>, e: PinEvent, mosi: bool, line: Line)
    ensures Levels(w + [e], line) == Levels(w, line) + (if e.line == line then [e.high] else [])
    ensures MosiAfter(w + [e], mosi) == if e.line == Mosi then e.high else MosiAfter(w, mosi)
    ensures Sampled(w + [e], mosi) == Sampled(w, mosi) + (if e == Drive(Sck, true) then [MosiAfter(w, mosi)] else [])
  {
    assert (w + [e])[..|w + [e]| - 1] == w;
  }

  /** What the chip sees of one bit driven out. */
  lemma OutBitView(b: bool, mosi: bool)
    ensures Sampled(OutBit(b), mosi) == [b]
    ensures MosiAfter(OutBit(b), mosi) == b
    ensures Levels(OutBit(b), Sck) == [true, false]
    ensures Levels(OutBit(b), Csn) == []
  {
    var e1, e2, e3 := Drive(Mosi, b), Drive(Sck, true), Drive(Sck, false);
    assert OutBit(b) == [] + [e1] + [e2] + [e3];
    assert [e1] + [e2] == [e1, e2];
    Snoc([], e1, mosi, Sck);
    Snoc([e1], e2, mosi, Sck);
    Snoc([e1, e2], e3, mosi, Sck);
    Snoc([], e1, mosi, Csn);
    Snoc([e1], e2, mosi, Csn);
    Snoc([e1, e2], e3, mosi, Csn);
  }

  /** What the chip sees of one bit clocked in. */
  lemma InBitView(mosi: bool)
    ensures Sampled(InBit(), mosi) == [mosi]
    ensures MosiAfter(InBit(), mosi) == mosi
    ensures Levels(InBit(), Sck) == [true, false]
    ensures Levels(InBit(), Mosi) == []
    ensures Levels(InBit(), Csn) == []
  {
    var e1, e2 := Drive(Sck, true), Drive(Sck, false);
    assert InBit() == [] + [e1] + [e2];
    Snoc([], e1, mosi, Sck);
    Snoc([e1], e2, mosi, Sck);
    Snoc([], e1, mosi, Mosi);
    Snoc([e1], e2, mosi, Mosi);
    Snoc([], e1, mosi, Csn);
    Snoc([e1], e2, mosi, Csn);
  }

  lemma {:induction false} LevelsAppend(a: seq<PinEvent>, b: seq<PinEvent>, line: Line)
    ensures Levels(a + b, line) == Levels(a, line) + Levels(b, line)
    decreases |b|
  {
    if b != [] {
      assert (a + b)[..|a + b| - 1] == a + b[..|b| - 1];
      LevelsAppend(a, b[..|b| - 1], line);
    } else {
      assert a + b == a;
    }
  }

  lemma {:induction false} SampledAppend(a: seq<PinEvent>, b: seq<PinEvent>, mosi: bool)
    ensures MosiAfter(a + b, mosi) == MosiAfter(b, MosiAfter(a, mosi))
    ensures Sampled(a + b, mosi) == Sampled(a, mosi) + Sampled(b, MosiAfter(a, mosi))
    decreases |b|
  {
    if b != [] {
      assert (a + b)[..|a + b| - 1] == a + b[..|b| - 1];
      SampledAppend(a, b[..|b| - 1], mosi);
    } else {
      assert a + b == a;
    }
  }

  lemma OutBitsSnoc(front: seq<bool>, b: bool)
    ensures OutBits(front + [b]) == OutBits(front) + OutBit(b)
  {
    assert (front + [b])[..|front + [b]| - 1] == front;
  }

  lemma {:induction false} OutBitsSampled(bits: seq<bool>, mosi: bool)
    ensures Sampled(OutBits(bits), mosi) == bits
    ensures MosiAfter(OutBits(bits), mosi) == if bits == [] then mosi else bits[|bits| - 1]
    decreases |bits|
  {
    if bits != [] {
      var front := bits[..|bits| - 1];
      var b := bits[|bits| - 1];
      assert bits == front + [b];
      OutBitsSnoc(front, b);
      OutBitsSampled(front, mosi);
      SampledAppend(OutBits(front), OutBit(b), mosi);
      OutBitView(b, MosiAfter(OutBits(front), mosi));
    }
  }

  lemma {:induction false} OutBitsClock(bits: seq<bool>)
    ensures Levels(OutBits(bits), Sck) == Pulses(|bits|)
    ensures Levels(OutBits(bits), Csn) == []
    decreases |bits|
  {
    if bits != [] {
      var front := bits[..|bits| - 1];
      var b := bits[|bits| - 1];
      assert bits == front + [b];
      OutBitsSnoc(front, b);
      OutBitsClock(front);
      LevelsAppend(OutBits(front), OutBit(b), Sck);
      LevelsAppend(OutBits(front), OutBit(b), Csn);
      OutBitView(b, false);
    }
  }

  lemma {:induction false} InBitsClock(n: nat)
    ensures Levels(InBits(n), Sck) == Pulses(n)
  {
    if n > 0 {
      InBitsClock(n - 1);
      LevelsAppend(InBits(n - 1), InBit(), Sck);
      InBitView(false);
    }
  }

  lemma {:induction false} InBitsNoMosi(n: nat)
    ensures Levels(InBits(n), Mosi) == []
  {
    if n > 0 {
      InBitsNoMosi(n - 1);
      LevelsAppend(InBits(n - 1), InBit(), Mosi);
      InBitView(false);
    }
  }

  lemma {:induction false} InBitsKeepMosi(n: nat, mosi: bool)
    ensures MosiAfter(InBits(n), mosi) == mosi
  {
    if n > 0 {
      InBitsKeepMosi(n - 1, mosi);
      SampledAppend(InBits(n - 1), InBit(), mosi);
      InBitView(mosi);
    }
  }

  /** A byte shifted out is seen by the chip, sampling MOSI on each rising edge,
      as its eight bits most significant first; reassembled, it is the byte. */
  lemma OutByteSampled(b: byte, mosi: bool)
    ensures Sampled(OutByte(b), mosi) == ToBits(b)
    ensures FromBits(Sampled(OutByte(b), mosi)) == b
    ensures MosiAfter(OutByte(b), mosi) == Bit(b, 0)
  {
    OutBitsSampled(ToBits(b), mosi);
    SampledAppend([Drive(Sck, false)], OutBits(ToBits(b)), mosi);
    assert Sampled([Drive(Sck, false)], mosi) == [];
    FromToBits(b);
  }

  /** A byte transfer starts with the clock low, gives exactly eight
      high-then-low pulses and leaves the clock low; it never touches CSN. */
  lemma OutByteClock(b: byte)
    ensures Levels(OutByte(b), Sck) == [false] + Pulses(BitsPerByte)
    ensures Levels(OutByte(b), Csn) == []
  {
    OutBitsClock(ToBits(b));
    LevelsAppend([Drive(Sck, false)], OutBits(ToBits(b)), Sck);
    LevelsAppend([Drive(Sck, false)], OutBits(ToBits(b)), Csn);
  }

  /** A byte read gives eight clock pulses from a low clock back to low and
      leaves MOSI and CSN alone. */
  lemma InByteClock(mosi: bool)
    ensures Levels(InByte(), Sck) == [false] + Pulses(BitsPerByte)
    ensures Levels(InByte(), Mosi) == []
    ensures MosiAfter(InByte(), mosi) == mosi
  {
    InBitsClock(BitsPerByte);
    InBitsNoMosi(BitsPerByte);
    InBitsKeepMosi(BitsPerByte, mosi);
    LevelsAppend([Drive(Sck, false)], InBits(BitsPerByte), Sck);
    LevelsAppend([Drive(Sck, false)], InBits(BitsPerByte), Mosi);
    SampledAppend([Drive(Sck, false)], InBits(BitsPerByte), mosi);
  }

  /** Bytes shifted out one after another reach the chip as their serialisation. */
  lemma {:induction false} OutBytesSampled(data: seq<byte>, mosi: bool)
    ensures Sampled(OutBytes(data), mosi) == Serialise(data)
    decreases |data|
  {
    if data != [] {
      var front := data[..|data| - 1];
      var b := data[|data| - 1];
      OutBytesSampled(front, mosi);
      SampledAppend(OutBytes(front), OutByte(b), mosi);
      OutByteSampled(b, MosiAfter(OutBytes(front), mosi));
      assert data == front + [b];
      SerialiseSnoc(front, b);
    }
  }

  lemma SerialiseSnoc(front: seq<byte>, b: byte)
    ensures Serialise(front + [b]) == Serialise(front) + ToBits(b)
  {
    SerialiseAppend(front, [b]);
    assert Serialise([b]) == ToBits(b) + Serialise([]);
  }

  // The shift loops of the driver.

  /** Bits 7 down to `i` of `acc` hold the levels sampled so far, most
      significant first, and the bits below `i` are still clear. */
  predicate Assembled(acc: byte, miso: seq<bool>, i: nat)
    requires |miso| == 8 && i <= 8
  {
    (forall j :: i <= j < 8 ==> Bit(acc, j) == miso[7 - j]) &&
    (forall j :: 0 <= j < i ==> !Bit(acc, j))
  }

  /** Or-ing in the mask of bit `i` when the sampled level is high extends the
      assembled prefix by one bit. */
  lemma AssembleStep(acc: byte, miso: seq<bool>, i: nat)
    requires |miso| == 8 && i < 8 && Assembled(acc, miso, i + 1)
    ensures Assembled(if miso[7 - i] then acc | Mask(i) else acc, miso, i)
  {
    if miso[7 - i] {
      var next := acc | Mask(i);
      forall j | 0 <= j < 8
        ensures Bit(next, j) == (j == i || Bit(acc, j))
      {
        SetBit(acc, i, j);
      }
      assert forall j :: i <= j < 8 ==> Bit(next, j) == miso[7 - j];
      assert forall j :: 0 <= j < i ==> !Bit(next, j);
    }
  }

  /** Once all eight levels are in, the assembled byte is their value. */
  lemma AssembleDone(acc: byte, miso: seq<bool>)
    requires |miso| == 8 && Assembled(acc, miso, 0)
    ensures acc == FromBits(miso)
  {
    forall j | 0 <= j < 8
      ensures Bit(acc, j) == Bit(FromBits(miso), j)
    {
      FromBitsBit(miso, 7 - j);
    }
    BitsDetermineByte(acc, FromBits(miso));
  }

  /** Shifting out bit `i` extends the wave of the bits above it. */
  lemma OutByteStep(b: byte, i: nat)
    requires i < 8
    ensures OutBits(ToBits(b)[..8 - i]) == OutBits(ToBits(b)[..7 - i]) + OutBit(Bit(b, i))
  {
    ToBitsAt(b, 7 - i);
    assert ToBits(b)[..8 - i] == ToBits(b)[..7 - i] + [Bit(b, i)];
    OutBitsSnoc(ToBits(b)[..7 - i], Bit(b, i));
  }

  /** spi_out_command: shifts `cmd` out and assembles the status byte from the
      MISO levels sampled at the eight clocks. */
  method SpiOutCommand(cmd: byte, miso: seq<bool>) returns (status: byte, wave: seq<PinEvent>)
    requires |miso| == 8
    ensures wave == OutByte(cmd)
    ensures forall j :: 0 <= j < 8 ==> Bit(status, 7 - j) == miso[j]
    ensures status == FromBits(miso)
    ensures miso == ToBits(cmd) ==> status == cmd
  {
    status := 0;
    wave := [Drive(Sck, false)];
    var i: nat := 8;
    while i != 0
      invariant i <= 8
      invariant wave == [Drive(Sck, false)] + OutBits(ToBits(cmd)[..8 - i])
      invariant Assembled(status, miso, i)
    {
      i := i - 1;
      // MOSI carries bit i; MISO is sampled while the clock is high.
      OutByteStep(cmd, i);
      wave := wave + OutBit(Bit(cmd, i));
      AssembleStep(status, miso, i);
      if miso[7 - i] {
        status := status | Mask(i);
      }
    }
    assert ToBits(cmd)[..8] == ToBits(cmd);
    AssembleDone(status, miso);
    if miso == ToBits(cmd) {
      FromToBits(cmd);
    }
  }

  /** spi_out_data_value: shifts one data byte out; MISO is not sampled. */
  method SpiOutDataValue(data: byte) returns (wave: seq<PinEvent>)
    ensures wave == OutByte(data)
  {
    wave := [Drive(Sck, false)];
    var i: nat := 8;
    while i != 0
      invariant i <= 8
      invariant wave == [Drive(Sck, false)] + OutBits(ToBits(data)[..8 - i])
    {
      i := i - 1;
      OutByteStep(data, i);
      wave := wave + OutBit(Bit(data, i));
    }
    assert ToBits(data)[..8] == ToBits(data);
  }

  /** spi_in_data_value: clocks one byte in, assembling it from MISO. */
  method SpiInDataValue(miso: seq<bool>) returns (data: byte, wave: seq<PinEvent>)
    requires |miso| == 8
    ensures wave == InByte()
    ensures data == FromBits(miso)
  {
    data := 0;
    wave := [Drive(Sck, false)];
    var i: nat := 8;
    while i != 0
      invariant i <= 8
      invariant wave == [Drive(Sck, false)] + InBits(8 - i)
      invariant Assembled(data, miso, i)
    {
      i := i - 1;
      wave := wave + [Drive(Sck, true)];
      AssembleStep(data, miso, i);
      if miso[7 - i] {
        data := data | Mask(i);
      }
      wave := wave + [Drive(Sck, false)];
    }
    AssembleDone(data, miso);
  }

  /** spi_out_data_bytes: sends data[0..size) in index order. */
  method SpiOutDataBytes(data: seq<byte>, size: nat) returns (wave: seq<PinEvent>)
    requires size < 256 && size <= |data|
    ensures wave == OutBytes(data[..size])
  {
    wave := [];
    var i: nat := 0;
    while i != size
      invariant i <= size
      invariant wave == OutBytes(data[..i])
    {
      var w := SpiOutDataValue(data[i]);
      assert data[..i + 1][..i] == data[..i];
      wave := wave + w;
      i := i + 1;
    }
  }

  /** spi_in_data_bytes: reads `size` bytes into buf[0..size), in order, and
      leaves every other position of the buffer as it was. */
  method SpiInDataBytes(buf: seq<byte>, size: nat, miso: seq<bool>) returns (out: seq<byte>, wave: seq<PinEvent>)
    requires size < 256 && size <= |buf|
    requires |miso| == 8 * size
    ensures |out| == |buf|
    ensures out[..size] == Deserialise(miso)
    ensures out[size..] == buf[size..]
    ensures wave == InBytes(size)
  {
    var n := size;
    out := buf;
    wave := [];
    var i: nat := 0;
    while i != n
      invariant i <= n
      invariant |out| == |buf|
      invariant forall k :: 0 <= k < i ==> out[k] == Deserialise(miso)[k]
      invariant forall k :: i <= k < |buf| ==> out[k] == buf[k]
      invariant wave == InBytes(i)
    {
      assert 8 * i + 8 <= 8 * n;
      DeserialiseAt(miso, i);
      var b, w := SpiInDataValue(miso[8 * i .. 8 * i + 8]);
      out := out[i := b];
      wave := wave + w;
      i := i + 1;
    }
    assert out[..size] == Deserialise(miso);
    assert out[size..] == buf[size..];
  }
}
