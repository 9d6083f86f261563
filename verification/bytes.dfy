/** Bytes as 8-bit vectors, the bit order of the radio's serial bus, and the
    serialise/deserialise pair that turns byte strings into bit streams. */
module Bytes {

  /** An 8-bit unsigned value (C `uint8_t`); `+` on it wraps modulo 256. */
  type byte = bv8

  /** The byte `1 << i`, with only bit `i` set. */
  function Mask(i: nat): byte
    requires i < 8
  {
    if i == 0 then 0x01 else if i == 1 then 0x02 else if i == 2 then 0x04 else if i == 3 then 0x08
    else if i == 4 then 0x10 else if i == 5 then 0x20 else if i == 6 then 0x40 else 0x80
  }

  /** Bit `i` of `b`, bit 0 being the least significant. */
  predicate Bit(b: byte, i: nat)
    requires i < 8
  {
    b & Mask(i) != 0
  }

  /** Setting bit `i` of `s` sets that bit and leaves every other bit as it was. */
  lemma SetBit(s: byte, i: nat, j: nat)
    requires i < 8 && j < 8
    ensures Bit(s | Mask(i), j) == (j == i || Bit(s, j))
  {
  }

  /** The bits of `b` in the order the bus shifts them: most significant first. */
  function ToBits(b: byte): (bits: seq<bool>)
    ensures |bits| == 8
  {
    [Bit(b, 7), Bit(b, 6), Bit(b, 5), Bit(b, 4), Bit(b, 3), Bit(b, 2), Bit(b, 1), Bit(b, 0)]
  }

  /** Position j of the shifted bits carries bit 7 - j. */
  lemma ToBitsAt(b: byte, j: nat)
    requires j < 8
    ensures ToBits(b)[j] == Bit(b, 7 - j)
  {
  }

  /** The contribution of one sampled level to an assembled byte. */
  function Weight(high: bool, i: nat): byte
    requires i < 8
  {
    if high then Mask(i) else 0
  }

  /** The byte whose bits, most significant first, are `bits`. */
  function FromBits(bits: seq<bool>): byte
    requires |bits| == 8
  {
    Weight(bits[0], 7) | Weight(bits[1], 6) | Weight(bits[2], 5) | Weight(bits[3], 4) |
    Weight(bits[4], 3) | Weight(bits[5], 2) | Weight(bits[6], 1) | Weight(bits[7], 0)
  }

  /** Two bytes that agree on every bit are equal. */
  lemma BitsDetermineByte(a: byte, b: byte)
    requires forall i :: 0 <= i < 8 ==> Bit(a, i) == Bit(b, i)
    ensures a == b
  {
    assert Bit(a, 0) == Bit(b, 0) && Bit(a, 1) == Bit(b, 1);
    assert Bit(a, 2) == Bit(b, 2) && Bit(a, 3) == Bit(b, 3);
    assert Bit(a, 4) == Bit(b, 4) && Bit(a, 5) == Bit(b, 5);
    assert Bit(a, 6) == Bit(b, 6) && Bit(a, 7) == Bit(b, 7);
  }

  /** Each sampled level lands in its own bit of the assembled byte. */
  lemma FromBitsBits(bits: seq<bool>)
    requires |bits| == 8
    ensures Bit(FromBits(bits), 7) == bits[0] && Bit(FromBits(bits), 6) == bits[1]
    ensures Bit(FromBits(bits), 5) == bits[2] && Bit(FromBits(bits), 4) == bits[3]
    ensures Bit(FromBits(bits), 3) == bits[4] && Bit(FromBits(bits), 2) == bits[5]
    ensures Bit(FromBits(bits), 1) == bits[6] && Bit(FromBits(bits), 0) == bits[7]
  {
  }

  /** The level sampled on the (j+1)-th clock ends up in bit 7 - j. */
  lemma FromBitsBit(bits: seq<bool>, j: nat)
    requires |bits| == 8 && j < 8
    ensures Bit(FromBits(bits), 7 - j) == bits[j]
  {
    FromBitsBits(bits);
    if j == 0 { } else if j == 1 { } else if j == 2 { } else if j == 3 { }
    else if j == 4 { } else if j == 5 { } else if j == 6 { } else { }
  }

  /** Assembling the bits of a byte gives the byte back. */
  lemma FromToBits(b: byte)
    ensures FromBits(ToBits(b)) == b
  {
    var bits := ToBits(b);
    forall i | 0 <= i < 8
      ensures Bit(FromBits(bits), i) == Bit(b, i)
    {
      FromBitsBit(bits, 7 - i);
    }
    BitsDetermineByte(FromBits(bits), b);
  }

  /** Splitting an assembled byte gives the sampled levels back. */
  lemma ToFromBits(bits: seq<bool>)
    requires |bits| == 8
    ensures ToBits(FromBits(bits)) == bits
  {
    forall j | 0 <= j < 8
      ensures ToBits(FromBits(bits))[j] == bits[j]
    {
      FromBitsBit(bits, j);
    }
  }

  /** A byte string as the bit stream the bus carries: bytes in order, each most significant bit first. */
  function Serialise(data: seq<byte>): (bits: seq<bool>)
    ensures |bits| == 8 * |data|
  {
    if data == [] then [] else ToBits(data[0]) + Serialise(data[1..])
  }

  /** Regroups a bit stream into bytes, eight bits at a time. */
  function Deserialise(bits: seq<bool>): (data: seq<byte>)
    requires |bits| % 8 == 0
    ensures |data| == |bits| / 8
  {
    if bits == [] then [] else [FromBits(bits[..8])] + Deserialise(bits[8..])
  }

  lemma {:induction false} DeserialiseSerialise(data: seq<byte>)
    ensures Deserialise(Serialise(data)) == data
  {
    if data != [] {
      var bits := Serialise(data);
      assert bits[..8] == ToBits(data[0]);
      assert bits[8..] == Serialise(data[1..]);
      FromToBits(data[0]);
      DeserialiseSerialise(data[1..]);
    }
  }

  lemma {:induction false} SerialiseDeserialise(bits: seq<bool>)
    requires |bits| % 8 == 0
    ensures Serialise(Deserialise(bits)) == bits
  {
    if bits != [] {
      var data := Deserialise(bits);
      assert data[1..] == Deserialise(bits[8..]);
      ToFromBits(bits[..8]);
      SerialiseDeserialise(bits[8..]);
      assert bits == bits[..8] + bits[8..];
    }
  }

  /** Byte k of a deserialised stream is assembled from bits 8k up to 8k + 8. */
  lemma {:induction false} DeserialiseAt(bits: seq<bool>, k: nat)
    requires |bits| % 8 == 0 && k < |bits| / 8
    ensures Deserialise(bits)[k] == FromBits(bits[8 * k .. 8 * k + 8])
  {
    if k > 0 {
      DeserialiseAt(bits[8..], k - 1);
      assert 8 * (k - 1) + 8 == 8 * k;
      assert bits[8..][8 * (k - 1) .. 8 * (k - 1) + 8] == bits[8 * k .. 8 * k + 8];
    }
  }

  /** Serialising a concatenation serialises each part in turn. */
  lemma {:induction false} SerialiseAppend(a: seq<byte>, b: seq<byte>)
    ensures Serialise(a + b) == Serialise(a) + Serialise(b)
  {
    if a != [] {
      assert (a + b)[0] == a[0];
      assert (a + b)[1..] == a[1..] + b;
      SerialiseAppend(a[1..], b);
      calc {
        Serialise(a + b);
        ToBits(a[0]) + Serialise(a[1..] + b);
        ToBits(a[0]) + (Serialise(a[1..]) + Serialise(b));
        (ToBits(a[0]) + Serialise(a[1..])) + Serialise(b);
      }
    } else {
      assert a + b == b;
    }
  }
}
