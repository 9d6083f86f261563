/** display.c: the two display configurations and the number, hex, binary
    and string renderers, each a run of oled_write_character calls. Columns
    advance with 8-bit wrap-around, as the C `uint8_t` arguments do. */
module Display {
  import opened Bytes
  import opened Oled

  const ZERO: byte := 0x30
  const ONE: byte := 0x31

  /** Function set: 8-bit bus, two lines. */
  const FUNCTION_SET: byte := CMD_FUNC_CONTROL | CMD_FUNC_8BIT | CMD_FUNC_2LINES

  /** config_character_display, after the port setup. */
  function ConfigCharacterDisplay(): (events: seq<OledEvent>)
    ensures events == [Cmd(0x38), Cmd(0x02), Cmd(0x06), Cmd(0x01)]
  {
    [Cmd(FUNCTION_SET)] + CursorHome() + IncrementalCursor() + Clear()
  }

  /** config_graphical_display, after the port setup: the character
      configuration with the graphics mode command before the clear. */
  function ConfigGraphicalDisplay(): (events: seq<OledEvent>)
    ensures events == ConfigCharacterDisplay()[..3] + [Cmd(0x1F)] + ConfigCharacterDisplay()[3..]
  {
    [Cmd(FUNCTION_SET)] + CursorHome() + IncrementalCursor() + GraphicsMode() + Clear()
  }

  /** Both configurations leave an empty character memory with the address
      counter at its start; only the graphical one selects graphics mode. */
  lemma ConfigurationsAct(c: Controller)
    ensures Run(c, ConfigCharacterDisplay()).ddram == map[] && Run(c, ConfigCharacterDisplay()).addr == 0
    ensures Run(c, ConfigCharacterDisplay()).graphics == c.graphics
    ensures Run(c, ConfigGraphicalDisplay()).ddram == map[] && Run(c, ConfigGraphicalDisplay()).addr == 0
    ensures Run(c, ConfigGraphicalDisplay()).graphics
  {
  }

  // Decimal.

  predicate IsDecimalDigit(ch: byte)
  {
    ZERO <= ch <= ZERO + 9
  }

  /** The number three decimal digit characters spell. */
  function DecimalValue(h: byte, t: byte, u: byte): nat
    requires IsDecimalDigit(h) && IsDecimalDigit(t) && IsDecimalDigit(u)
  {
    100 * (h - ZERO) as nat + 10 * (t - ZERO) as nat + (u - ZERO) as nat
  }

  /** The characters display_number computes: hundreds, tens and units by
      division and subtraction in 8-bit arithmetic. */
  function DecimalString(n: byte): (chars: seq<byte>)
    ensures |chars| == 3
  {
    var d := Digits(n);
    [ZERO + d.0, ZERO + d.1, ZERO + d.2]
  }

  /** Hundreds, tens and units the way display_number finds them. */
  function Digits(n: byte): (byte, byte, byte)
  {
    var hundreds := n / 100;
    var rem := n - hundreds * 100;
    var tens := rem / 10;
    (hundreds, tens, rem - tens * 10)
  }

  /** The three characters are decimal digits, the first at most '2'. */
  lemma DecimalStringDigits(n: byte)
    ensures var s := DecimalString(n);
      IsDecimalDigit(s[0]) && IsDecimalDigit(s[1]) && IsDecimalDigit(s[2]) && s[0] <= ZERO + 2
  {
    DigitsBounded(n);
  }

  /** Read as a decimal number, the three characters give n back. */
  lemma DecimalStringValue(n: byte)
    ensures var s := DecimalString(n);
      IsDecimalDigit(s[0]) && IsDecimalDigit(s[1]) && IsDecimalDigit(s[2]) &&
      DecimalValue(s[0], s[1], s[2]) == n as nat
  {
    var d := Digits(n);
    DecimalStringDigits(n);
    DigitsSpell(n);
    DigitCharacters(d.0, d.1, d.2);
  }

  /** '0' plus a digit is a character standing for that digit. */
  lemma DigitCharacters(h: byte, t: byte, u: byte)
    requires h <= 9 && t <= 9 && u <= 9
    ensures IsDecimalDigit(ZERO + h) && IsDecimalDigit(ZERO + t) && IsDecimalDigit(ZERO + u)
    ensures DecimalValue(ZERO + h, ZERO + t, ZERO + u) == 100 * h as nat + 10 * t as nat + u as nat
  {
    assert (ZERO + h) - ZERO == h && (ZERO + t) - ZERO == t && (ZERO + u) - ZERO == u;
  }

  /** The 8-bit division and subtraction steps yield digits, the hundreds
      at most 2. */
  lemma DigitsBounded(n: byte)
    ensures var d := Digits(n);
      d.0 <= 2 && d.1 <= 9 && d.2 <= 9
  {
  }

  /** The digits weighted by 100, 10 and 1 add up to n. */
  lemma DigitsSpell(n: byte)
    ensures var d := Digits(n);
      100 * d.0 as nat + 10 * d.1 as nat + d.2 as nat == n as nat
  {
    DigitsBounded(n);
  }

  /** display_number: the three characters at x, x+1 and x+2 on row y. */
  function DisplayNumber(n: byte, x: byte, y: byte): (events: seq<OledEvent>)
    ensures WritesRun(events, DecimalString(n), x, y)
  {
    var s := DecimalString(n);
    ThreeWrites(s[0], s[1], s[2], x, y);
    assert [s[0], s[1], s[2]] == s;
    WriteCharacter(s[0], x, y) + WriteCharacter(s[1], x + 1, y) + WriteCharacter(s[2], x + 2, y)
  }

  /** Three oled_write_character calls at x, x+1, x+2 form a run. */
  lemma ThreeWrites(a: byte, b: byte, c: byte, x: byte, y: byte)
    ensures WritesRun(WriteCharacter(a, x, y) + WriteCharacter(b, x + 1, y) + WriteCharacter(c, x + 2, y), [a, b, c], x, y)
  {
    TwoWrites(a, b, x, y);
    WritesRunSingle(c, x + 2, y);
    assert ColumnAfter(x, 2) == ColumnAfter(x, 1) + 1 == x + 2;
    WritesRunConcat(WriteCharacter(a, x, y) + WriteCharacter(b, x + 1, y), [a, b], WriteCharacter(c, x + 2, y), [c], x, y);
    assert [a, b] + [c] == [a, b, c];
  }

  /** Two oled_write_character calls at x, x+1 form a run. */
  lemma TwoWrites(a: byte, b: byte, x: byte, y: byte)
    ensures WritesRun(WriteCharacter(a, x, y) + WriteCharacter(b, x + 1, y), [a, b], x, y)
  {
    WritesRunSingle(a, x, y);
    WritesRunSingle(b, x + 1, y);
    assert ColumnAfter(x, 1) == x + 1;
    WritesRunConcat(WriteCharacter(a, x, y), [a], WriteCharacter(b, x + 1, y), [b], x, y);
    assert [a] + [b] == [a, b];
  }

  // Hexadecimal.

  /** The character table of display_hex. */
  const HEX_DIGITS: seq<byte> := [0x30, 0x31, 0x32, 0x33, 0x34, 0x35, 0x36, 0x37, 0x38, 0x39, 0x41, 0x42, 0x43, 0x44, 0x45, 0x46]

  predicate IsHexDigit(ch: byte)
  {
    ZERO <= ch <= ZERO + 9 || 0x41 <= ch <= 0x46
  }

  /** The value a hex digit character stands for. */
  function HexValue(ch: byte): (v: nat)
    requires IsHexDigit(ch)
    ensures v < 16
  {
    if ch <= ZERO + 9 then (ch - ZERO) as nat else (ch - 0x41) as nat + 10
  }

  /** Every table entry is a hex digit character standing for its index. */
  lemma HexTableRoundTrip(v: nat)
    requires v < 16
    ensures IsHexDigit(HEX_DIGITS[v]) && HexValue(HEX_DIGITS[v]) == v
  {
  }

  /** The characters display_hex looks up: the digits of the high and the
      low nibble. */
  function HexString(n: byte): (chars: seq<byte>)
    ensures |chars| == 2
  {
    [HEX_DIGITS[(n >> 4) as nat], HEX_DIGITS[(n & 0x0F) as nat]]
  }

  /** Both characters are hex digits and they spell n. */
  lemma HexStringSpells(n: byte)
    ensures var s := HexString(n);
      IsHexDigit(s[0]) && IsHexDigit(s[1]) && 16 * HexValue(s[0]) + HexValue(s[1]) == n as nat
  {
    NibblesSpell(n);
    HexTableRoundTrip((n >> 4) as nat);
    HexTableRoundTrip((n & 0x0F) as nat);
  }

  lemma NibblesSpell(n: byte)
    ensures (n >> 4) as nat < 16 && (n & 0x0F) as nat < 16
    ensures 16 * (n >> 4) as nat + (n & 0x0F) as nat == n as nat
  {
  }

  /** display_hex: the high nibble's digit at x, the low nibble's at x+1. */
  function DisplayHex(n: byte, x: byte, y: byte): (events: seq<OledEvent>)
    ensures WritesRun(events, HexString(n), x, y)
  {
    var s := HexString(n);
    TwoWrites(s[0], s[1], x, y);
    assert [s[0], s[1]] == s;
    WriteCharacter(s[0], x, y) + WriteCharacter(s[1], x + 1, y)
  }

  // Binary.

  /** The j-th character of n in binary, most significant bit first. */
  function BinaryDigit(n: byte, j: nat): byte
    requires j < 8
  {
    if Bit(n, 7 - j) then ONE else ZERO
  }

  /** The eight characters display_binary writes. */
  function BinaryString(n: byte): (chars: seq<byte>)
    ensures |chars| == 8
  {
    seq(8, j requires 0 <= j < 8 => BinaryDigit(n, j))
  }

  /** display_binary: eight characters from x, the j-th '1' exactly when
      bit 7 - j of n is set and '0' otherwise. */
  method DisplayBinary(n: byte, x: byte, y: byte) returns (events: seq<OledEvent>)
    ensures WritesRun(events, BinaryString(n), x, y)
  {
    events := [];
    var xpos := x;
    var i: nat := 0;
    while i != 8
      invariant i <= 8 && xpos == ColumnAfter(x, i)
      invariant WritesRun(events, BinaryString(n)[..i], x, y)
    {
      var ch := if n & Mask(7 - i) != 0 then ONE else ZERO;
      WritesRunAppend(events, BinaryString(n)[..i], ch, x, y);
      assert BinaryString(n)[i] == ch;
      PrefixExtend(BinaryString(n), i);
      events := events + WriteCharacter(ch, xpos, y);
      xpos := xpos + 1;
      i := i + 1;
    }
    assert BinaryString(n)[..8] == BinaryString(n);
  }

  /** Reading the characters display_binary writes as bits gives n back. */
  lemma BinaryRoundTrip(n: byte)
    ensures FromBits(seq(8, j requires 0 <= j < 8 => BinaryDigit(n, j) == ONE)) == n
  {
    var bits := seq(8, j requires 0 <= j < 8 => BinaryDigit(n, j) == ONE);
    forall j | 0 <= j < 8
      ensures bits[j] == ToBits(n)[j]
    {
      ToBitsAt(n, j);
    }
    assert bits == ToBits(n);
    FromToBits(n);
  }

  // Strings.

  /** display_string: `size` characters of `text`, the i-th at column x+i. */
  method DisplayString(text: seq<byte>, size: byte, x: byte, y: byte) returns (events: seq<OledEvent>)
    requires |text| >= size as nat
    ensures WritesRun(events, text[..size], x, y)
  {
    events := [];
    var xpos := x;
    var count := size as nat;
    var i: nat := 0;
    while i != count
      invariant i <= count && xpos == ColumnAfter(x, i)
      invariant WritesRun(events, text[..i], x, y)
    {
      WritesRunAppend(events, text[..i], text[i], x, y);
      PrefixExtend(text, i);
      events := events + WriteCharacter(text[i], xpos, y);
      xpos := xpos + 1;
      i := i + 1;
    }
  }

  lemma PrefixExtend(s: seq<byte>, i: nat)
    requires i < |s|
    ensures s[..i] + [s[i]] == s[..i + 1]
  {
  }

  // What the controller shows.

  /** Characters written from column x onwards, ending by column 40, land at
      their own positions. */
  lemma RunShown(c: Controller, events: seq<OledEvent>, chars: seq<byte>, x: byte, y: byte, i: nat)
    requires !c.graphics && 1 <= y <= 2 && 1 <= x && x as nat + |chars| <= 41
    requires WritesRun(events, chars, x, y) && i < |chars|
    ensures Position(DdramAddress(ColumnAfter(x, i), y)) == (ColumnAfter(x, i), y)
    ensures DdramAddress(ColumnAfter(x, i), y) as nat in Run(c, events).ddram
    ensures Run(c, events).ddram[DdramAddress(ColumnAfter(x, i), y) as nat] == chars[i]
  {
    var columns := seq(|chars|, k requires 0 <= k < |chars| => ColumnAfter(x, k));
    forall k | 0 <= k < |chars|
      ensures 1 <= columns[k] <= 40 && columns[k] as nat == x as nat + k
      ensures WritesAt(events, k, chars[k], columns[k], y)
    {
      ColumnAfterFits(x, k);
      assert WritesFrom(events, k, chars[k], x, y);
    }
    forall p, q | 0 <= p < q < |columns|
      ensures columns[p] != columns[q]
    {
      assert columns[p] as nat == x as nat + p && columns[q] as nat == x as nat + q;
    }
    CharactersShown(c, events, columns, y, chars);
    assert columns[i] == ColumnAfter(x, i);
    DdramRoundTrip(columns[i], y);
  }

  /** display_string within the line shows text[i] at column x+i. */
  lemma StringShown(c: Controller, text: seq<byte>, size: byte, x: byte, y: byte, events: seq<OledEvent>, i: nat)
    requires !c.graphics && 1 <= y <= 2 && 1 <= x && x as nat + size as nat <= 41
    requires |text| >= size as nat && WritesRun(events, text[..size], x, y)
    requires i < size as nat
    ensures DdramAddress(ColumnAfter(x, i), y) as nat in Run(c, events).ddram
    ensures Run(c, events).ddram[DdramAddress(ColumnAfter(x, i), y) as nat] == text[i]
  {
    RunShown(c, events, text[..size], x, y, i);
  }

  /** display_binary within the line shows n's bits as '0'/'1' from x. */
  lemma BinaryShown(c: Controller, n: byte, x: byte, y: byte, events: seq<OledEvent>, j: nat)
    requires !c.graphics && 1 <= y <= 2 && 1 <= x <= 33
    requires WritesRun(events, BinaryString(n), x, y) && j < 8
    ensures DdramAddress(ColumnAfter(x, j), y) as nat in Run(c, events).ddram
    ensures (Run(c, events).ddram[DdramAddress(ColumnAfter(x, j), y) as nat] == ONE) == Bit(n, 7 - j)
  {
    RunShown(c, events, BinaryString(n), x, y, j);
  }

  /** display_number within the line shows the digits of n at x, x+1, x+2:
      read back, they spell n. */
  lemma NumberShown(c: Controller, n: byte, x: byte, y: byte, events: seq<OledEvent>)
    requires !c.graphics && 1 <= y <= 2 && 1 <= x <= 38
    requires WritesRun(events, DecimalString(n), x, y)
    ensures var m := Run(c, events).ddram;
      var a := [DdramAddress(x, y) as nat, DdramAddress(x + 1, y) as nat, DdramAddress(x + 2, y) as nat];
      a[0] in m && a[1] in m && a[2] in m &&
      IsDecimalDigit(m[a[0]]) && IsDecimalDigit(m[a[1]]) && IsDecimalDigit(m[a[2]]) &&
      DecimalValue(m[a[0]], m[a[1]], m[a[2]]) == n as nat
  {
    var s := DecimalString(n);
    assert ColumnAfter(x, 1) == x + 1;
    assert ColumnAfter(x, 2) == ColumnAfter(x, 1) + 1 == x + 2;
    RunShown(c, events, s, x, y, 0);
    RunShown(c, events, s, x, y, 1);
    RunShown(c, events, s, x, y, 2);
    DecimalStringValue(n);
  }

  /** display_hex within the line shows the two hex digits of n at x, x+1:
      read back, they spell n. */
  lemma HexShown(c: Controller, n: byte, x: byte, y: byte, events: seq<OledEvent>)
    requires !c.graphics && 1 <= y <= 2 && 1 <= x <= 39
    requires WritesRun(events, HexString(n), x, y)
    ensures var m := Run(c, events).ddram;
      var a := [DdramAddress(x, y) as nat, DdramAddress(x + 1, y) as nat];
      a[0] in m && a[1] in m && IsHexDigit(m[a[0]]) && IsHexDigit(m[a[1]]) &&
      16 * HexValue(m[a[0]]) + HexValue(m[a[1]]) == n as nat
  {
    var s := HexString(n);
    assert ColumnAfter(x, 1) == x + 1;
    RunShown(c, events, s, x, y, 0);
    RunShown(c, events, s, x, y, 1);
    HexStringSpells(n);
  }
}
