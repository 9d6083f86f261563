/** The OLED side of cgoled.c: the address arithmetic of the MC0010
    controller's character (DDRAM), user-glyph (CGRAM) and graphics (GXA, GYA)
    memories, the command and data bytes each operation emits, the pins one
    write cycle drives, and a small model of how the controller files those
    bytes away. The busy-flag poll before each write is not modelled: every
    write is taken to find the controller ready. */
module Oled {
  import opened Bytes

  // Panel geometry (cgoled.h).
  const PIXEL_COLUMNS: nat := 50
  const PIXEL_ROWS: nat := 16
  const BYTE_ROWS: nat := PIXEL_ROWS / 8

  // Command bits.
  const CMD_CLEAR_DISPLAY: byte := 0x01
  const CMD_CURSOR_HOME: byte := 0x02
  const CMD_ENTRY_CONTROL: byte := 0x04
  const CMD_ENTRY_INCREMENT: byte := 0x02
  const CMD_DISPLAY_CONTROL: byte := 0x08
  const CMD_DISPLAY_POWER: byte := 0x04
  const CMD_FUNC_CONTROL: byte := 0x20
  const CMD_FUNC_8BIT: byte := 0x10
  const CMD_FUNC_2LINES: byte := 0x08
  const CMD_CGRAM: byte := 0x40
  const CMD_DDRAM: byte := 0x80
  const CMD_MODE: byte := 0x10
  const CMD_MODE_GFX: byte := 0x08
  const CMD_MODE_POWER: byte := 0x04
  const CMD_MODE_GFX_FLAG: byte := 0x03

  // Address arithmetic.

  /** get_ddram_address_n1: line 2 starts at 0x40; columns 2..40 add their
      offset from column 1, and any other column is taken as column 1. */
  function DdramAddress(column: byte, row: byte): (addr: byte)
    ensures addr <= 0x67
  {
    var base: byte := if row == 2 then 0x40 else 0x00;
    if 1 < column <= 40 then base | (column - 1) else base
  }

  /** The display position of a DDRAM address, read off the address table
      for displays of at most 40 by 2 characters. */
  function Position(addr: byte): (byte, byte)
  {
    ((addr & 0x3F) + 1, if addr & 0x40 != 0 then 2 else 1)
  }

  /** Every position on the 40 by 2 grid has its own address, and the table
      leads back from it to the position. */
  lemma DdramRoundTrip(column: byte, row: byte)
    requires 1 <= column <= 40 && 1 <= row <= 2
    ensures Position(DdramAddress(column, row)) == (column, row)
  {
  }

  /** Out-of-range columns fall back to column 1, and any row but 2 to row 1. */
  lemma DdramClamps(column: byte, row: byte)
    ensures !(1 < column <= 40) ==> DdramAddress(column, row) == DdramAddress(1, row)
    ensures row != 2 ==> DdramAddress(column, row) == DdramAddress(column, 1)
  {
  }

  /** get_cgram_address: glyph number in bits 3..5 and glyph row in bits
      0..2; glyph and row numbers outside 2..8 contribute nothing. */
  function CgramAddress(glyph: byte, row: byte): (addr: byte)
    ensures addr < 0x40
  {
    var high: byte := if 1 < glyph <= 8 then (glyph - 1) << 3 else 0x00;
    if 1 < row <= 8 then high | (row - 1) else high
  }

  /** Glyph and row come back out of a CGRAM address. */
  lemma CgramRoundTrip(glyph: byte, row: byte)
    requires 1 <= glyph <= 8 && 1 <= row <= 8
    ensures (CgramAddress(glyph, row) >> 3) + 1 == glyph
    ensures (CgramAddress(glyph, row) & 0x07) + 1 == row
  {
  }

  /** Glyph and row numbers outside 1..8 fall back to glyph 1 and row 1. */
  lemma CgramClamps(glyph: byte, row: byte)
    ensures !(1 <= glyph <= 8) ==> CgramAddress(glyph, row) == CgramAddress(1, row)
    ensures !(1 <= row <= 8) ==> CgramAddress(glyph, row) == CgramAddress(glyph, 1)
  {
  }

  /** get_gxa_address: 0x80 with the pixel column's offset for columns
      2..50; other columns give column 1. */
  function GxaAddress(x: byte): (addr: byte)
    ensures 0x80 <= addr <= 0xB1
  {
    if 1 < x <= PIXEL_COLUMNS as byte then 0x80 | (x - 1) else 0x80
  }

  /** The pixel column comes back out of a graphics X command. */
  lemma GxaRoundTrip(x: byte)
    requires 1 <= x <= 50
    ensures (GxaAddress(x) & 0x7F) + 1 == x
  {
  }

  /** Pixel columns outside 1..50 fall back to column 1. */
  lemma GxaClamps(x: byte)
    ensures !(1 <= x <= 50) ==> GxaAddress(x) == GxaAddress(1)
  {
  }

  /** get_gya_address: byte row 2 sets the low bit; every other value is
      byte row 1. */
  function GyaAddress(cy: byte): (addr: byte)
    ensures addr & 0xFE == 0x40
    ensures (addr & 0x01 != 0) == (cy == 2)
  {
    if cy == 2 then 0x40 | 1 else 0x40
  }

  // The bytes the operations emit.

  /** One write to the controller: to its instruction register or its
      data register. */
  datatype OledEvent = Cmd(command: byte) | Data(data: byte)

  /** oled_write_character: the DDRAM address command, then the character. */
  function WriteCharacter(character: byte, column: byte, row: byte): (events: seq<OledEvent>)
    ensures |events| == 2
    ensures events[0] == Cmd(CMD_DDRAM | DdramAddress(column, row)) && events[1] == Data(character)
  {
    [Cmd(CMD_DDRAM | DdramAddress(column, row)), Data(character)]
  }

  /** oled_set_coordinates: the column address, then the byte-row address. */
  function SetCoordinates(x: byte, cy: byte): (events: seq<OledEvent>)
    ensures events == [Cmd(GxaAddress(x)), Cmd(GyaAddress(cy))]
    ensures events[0].command & 0x80 != 0 && events[1].command & 0xC0 == 0x40
  {
    [Cmd(GxaAddress(x)), Cmd(GyaAddress(cy))]
  }

  /** oled_write_pixels_at: the coordinates, then one column of 8 pixels. */
  function WritePixelsAt(x: byte, cy: byte, pixels: byte): (events: seq<OledEvent>)
    ensures |events| == 3 && events[..2] == SetCoordinates(x, cy) && events[2] == Data(pixels)
  {
    SetCoordinates(x, cy) + [Data(pixels)]
  }

  /** The single-command operations. */
  function Clear(): seq<OledEvent> { [Cmd(CMD_CLEAR_DISPLAY)] }
  function CursorHome(): seq<OledEvent> { [Cmd(CMD_CURSOR_HOME)] }
  function IncrementalCursor(): seq<OledEvent> { [Cmd(CMD_ENTRY_CONTROL | CMD_ENTRY_INCREMENT)] }
  function GraphicsMode(): seq<OledEvent> { [Cmd(CMD_MODE | CMD_MODE_GFX | CMD_MODE_POWER | CMD_MODE_GFX_FLAG)] }
  function PowerOn(): seq<OledEvent> { [Cmd(CMD_DISPLAY_CONTROL | CMD_DISPLAY_POWER)] }
  function PowerOff(): seq<OledEvent> { [Cmd(CMD_DISPLAY_CONTROL)] }

  /** oled_set_character: seven CGRAM address and pattern pairs, one per glyph
      row 1..7, each pattern with its top three bits forced to 1. */
  method SetCharacter(glyph: byte, patterns: seq<byte>) returns (events: seq<OledEvent>)
    requires |patterns| >= 7
    ensures |events| == 14
    ensures forall n :: 0 <= n < 7 ==>
      events[2 * n] == Cmd(CMD_CGRAM | CgramAddress(glyph, n as byte + 1)) &&
      events[2 * n + 1] == Data(patterns[n] | 0xE0)
  {
    events := [];
    var n: nat := 0;
    while n != 7
      invariant n <= 7 && |events| == 2 * n
      invariant forall k :: 0 <= k < n ==>
        events[2 * k] == Cmd(CMD_CGRAM | CgramAddress(glyph, k as byte + 1)) &&
        events[2 * k + 1] == Data(patterns[k] | 0xE0)
    {
      var addr := CgramAddress(glyph, n as byte + 1);
      var ptn := patterns[n] | (1 << 7) | (1 << 6) | (1 << 5);
      events := events + [Cmd(CMD_CGRAM | addr), Data(ptn)];
      n := n + 1;
    }
  }

  /** The length of one byte row of oled_blank's output: two coordinate
      commands and one data byte per pixel column. */
  const BLANK_ROW_LENGTH: nat := 2 + PIXEL_COLUMNS

  /** One byte row of oled_blank's output: the coordinates of column 1 of
      byte row `cy`, then a zero byte for each of the 50 pixel columns. */
  predicate BlankRowShape(events: seq<OledEvent>, cy: byte)
  {
    |events| == BLANK_ROW_LENGTH &&
    events[0] == Cmd(GxaAddress(1)) && events[1] == Cmd(GyaAddress(cy)) &&
    forall i :: 2 <= i < 2 + PIXEL_COLUMNS ==> events[i] == Data(0x00)
  }

  /** The shape of oled_blank's output: byte row 1, then byte row 2. */
  predicate BlankTrace(events: seq<OledEvent>)
  {
    |events| == BYTE_ROWS * BLANK_ROW_LENGTH &&
    forall row :: 0 <= row < BYTE_ROWS ==>
      BlankRowShape(events[row * BLANK_ROW_LENGTH..(row + 1) * BLANK_ROW_LENGTH], row as byte + 1)
  }

  /** oled_blank. */
  method Blank() returns (events: seq<OledEvent>)
    ensures BlankTrace(events)
  {
    events := [];
    var row: nat := 0;
    while row != BYTE_ROWS
      invariant row <= BYTE_ROWS && |events| == row * BLANK_ROW_LENGTH
      invariant forall r :: 0 <= r < row ==>
        BlankRowShape(events[r * BLANK_ROW_LENGTH..(r + 1) * BLANK_ROW_LENGTH], r as byte + 1)
    {
      var line := BlankRow(row as byte + 1);
      ghost var before := events;
      events := events + line;
      assert events[row * BLANK_ROW_LENGTH..(row + 1) * BLANK_ROW_LENGTH] == line;
      forall r | 0 <= r < row
        ensures events[r * BLANK_ROW_LENGTH..(r + 1) * BLANK_ROW_LENGTH] == before[r * BLANK_ROW_LENGTH..(r + 1) * BLANK_ROW_LENGTH]
      {
      }
      row := row + 1;
    }
  }

  /** One byte row of oled_blank. */
  method BlankRow(cy: byte) returns (events: seq<OledEvent>)
    ensures BlankRowShape(events, cy)
  {
    events := SetCoordinates(1, cy);
    var i: nat := 0;
    while i != PIXEL_COLUMNS
      invariant i <= PIXEL_COLUMNS && |events| == 2 + i
      invariant events[0] == Cmd(GxaAddress(1)) && events[1] == Cmd(GyaAddress(cy))
      invariant forall k :: 2 <= k < 2 + i ==> events[k] == Data(0x00)
    {
      events := events + [Data(0x00)];
      i := i + 1;
    }
  }

  // The pins of one write cycle.

  /** The controller's lines: data bus DB0..DB7, register select, read/write,
      enable. */
  datatype OledLine = DB(k: nat) | RS | RW | EN

  /** Driving one line to a level. */
  datatype PinWrite = Level(line: OledLine, high: bool)

  /** set_data_bus: DB7 down to DB0, each driven to its bit of `data`. */
  function SetDataBus(data: byte): (pins: seq<PinWrite>)
    ensures |pins| == 8
    ensures forall j :: 0 <= j < 8 ==> pins[j] == Level(DB(7 - j), Bit(data, 7 - j))
  {
    [Level(DB(7), data & (1 << 7) != 0), Level(DB(6), data & (1 << 6) != 0),
     Level(DB(5), data & (1 << 5) != 0), Level(DB(4), data & (1 << 4) != 0),
     Level(DB(3), data & (1 << 3) != 0), Level(DB(2), data & (1 << 2) != 0),
     Level(DB(1), data & (1 << 1) != 0), Level(DB(0), data & 1 != 0)]
  }

  /** The level a pin sequence leaves on a data line (low if never driven). */
  function LineLevel(pins: seq<PinWrite>, k: nat): bool
    decreases |pins|
  {
    if pins == [] then false
    else if pins[|pins| - 1].line == DB(k) then pins[|pins| - 1].high
    else LineLevel(pins[..|pins| - 1], k)
  }

  /** The byte the data bus carries after `pins`. */
  function BusValue(pins: seq<PinWrite>): byte
  {
    FromBits([LineLevel(pins, 7), LineLevel(pins, 6), LineLevel(pins, 5), LineLevel(pins, 4),
              LineLevel(pins, 3), LineLevel(pins, 2), LineLevel(pins, 1), LineLevel(pins, 0)])
  }

  /** The data bus carries exactly the byte set_data_bus was given. */
  lemma BusRoundTrip(data: byte)
    ensures BusValue(SetDataBus(data)) == data
  {
    var pins := SetDataBus(data);
    forall k | 0 <= k < 8
      ensures LineLevel(pins, k) == Bit(data, k)
    {
      LastDrive(pins, k);
    }
    assert [LineLevel(pins, 7), LineLevel(pins, 6), LineLevel(pins, 5), LineLevel(pins, 4),
            LineLevel(pins, 3), LineLevel(pins, 2), LineLevel(pins, 1), LineLevel(pins, 0)] == ToBits(data) by {
      forall j | 0 <= j < 8
        ensures ToBits(data)[j] == Bit(data, 7 - j)
      {
        ToBitsAt(data, j);
      }
    }
    FromToBits(data);
  }

  /** In set_data_bus's output, line DBk is driven once, at position 7 - k. */
  lemma {:induction false} LastDrive(pins: seq<PinWrite>, k: nat)
    requires |pins| == 8 && k < 8
    requires forall j :: 0 <= j < 8 ==> pins[j].line == DB(7 - j)
    ensures LineLevel(pins, k) == pins[7 - k].high
  {
    var n := 8;
    assert pins[..n] == pins;
    while n > 8 - k
      invariant 8 - k <= n <= 8
      invariant LineLevel(pins, k) == LineLevel(pins[..n], k)
    {
      assert pins[..n][..n - 1] == pins[..n - 1];
      n := n - 1;
    }
    assert pins[..n][n - 1] == pins[7 - k];
  }

  /** oled_write_cmd_busy / oled_write_data: the byte on the bus, register
      select low for a command or high for data, write selected, then the
      enable pulse the controller latches on. */
  function WriteCycle(e: OledEvent): (pins: seq<PinWrite>)
    ensures |pins| == 12
    ensures pins[8] == Level(RS, e.Data?) && pins[9] == Level(RW, false)
    ensures pins[10] == Level(EN, true) && pins[11] == Level(EN, false)
  {
    match e
    case Cmd(c) => SetDataBus(c) + [Level(RS, false), Level(RW, false), Level(EN, true), Level(EN, false)]
    case Data(d) => SetDataBus(d) + [Level(RS, true), Level(RW, false), Level(EN, true), Level(EN, false)]
  }

  /** What the controller takes from one cycle at the enable pulse's falling
      edge: the register select and the bus byte. */
  function Latched(pins: seq<PinWrite>): OledEvent
    requires |pins| == 12
  {
    var b := BusValue(pins[..8]);
    if pins[8].high then Data(b) else Cmd(b)
  }

  /** The controller latches exactly the command or data byte written. */
  lemma WriteCycleRoundTrip(e: OledEvent)
    ensures Latched(WriteCycle(e)) == e
  {
    var b := if e.Cmd? then e.command else e.data;
    assert WriteCycle(e)[..8] == SetDataBus(b);
    BusRoundTrip(b);
  }

  // How the controller files the bytes away.

  /** The controller state the emitters drive: display mode, which memory the
      address counter points into, the counter, the character and glyph
      memories, the graphics cursor and pixel columns, and display power.
      Entry mode is taken as incrementing, as both configurations set it. */
  datatype Controller = Controller(
    graphics: bool, toCgram: bool, addr: nat,
    ddram: map<nat, byte>, cgram: map<nat, byte>,
    gx: nat, gy: nat, pixels: map<(nat, nat), byte>,
    on: bool)

  /** One write, read the way the command-bit table of cgoled.h describes. */
  function Execute(c: Controller, e: OledEvent): Controller
  {
    match e
    case Cmd(b) =>
      if b & CMD_DDRAM != 0 then
        if c.graphics then c.(gx := (b & 0x7F) as nat) else c.(toCgram := false, addr := (b & 0x7F) as nat)
      else if b & CMD_CGRAM != 0 then
        if c.graphics then c.(gy := (b & 0x01) as nat) else c.(toCgram := true, addr := (b & 0x3F) as nat)
      else if b & 0xF3 == CMD_MODE | CMD_MODE_GFX_FLAG then c.(graphics := b & CMD_MODE_GFX != 0)
      else if b & 0xF8 == CMD_DISPLAY_CONTROL then c.(on := b & CMD_DISPLAY_POWER != 0)
      else if b & 0xFE == CMD_CURSOR_HOME then c.(toCgram := false, addr := 0)
      else if b == CMD_CLEAR_DISPLAY then c.(ddram := map[], toCgram := false, addr := 0)
      else c
    case Data(d) =>
      if c.graphics then c.(pixels := c.pixels[(c.gx, c.gy) := d], gx := c.gx + 1)
      else if c.toCgram then c.(cgram := c.cgram[c.addr := d], addr := c.addr + 1)
      else c.(ddram := c.ddram[c.addr := d], addr := c.addr + 1)
  }

  function Run(c: Controller, events: seq<OledEvent>): Controller
    decreases |events|
  {
    if events == [] then c else Run(Execute(c, events[0]), events[1..])
  }

  lemma {:induction false} RunAppend(c: Controller, a: seq<OledEvent>, b: seq<OledEvent>)
    ensures Run(c, a + b) == Run(Run(c, a), b)
    decreases |a|
  {
    if a == [] {
      assert a + b == b;
    } else {
      assert (a + b)[1..] == a[1..] + b;
      RunAppend(Execute(c, a[0]), a[1..], b);
    }
  }

  /** A memory after writing `values` at `addrs`, in order. */
  function Store(m: map<nat, byte>, addrs: seq<byte>, values: seq<byte>): map<nat, byte>
    requires |addrs| == |values|
    decreases |addrs|
  {
    if addrs == [] then m else Store(m[addrs[0] as nat := values[0]], addrs[1..], values[1..])
  }

  /** With distinct addresses, each address ends up holding its own value. */
  lemma {:induction false} StoreAt(m: map<nat, byte>, addrs: seq<byte>, values: seq<byte>, i: nat)
    requires |addrs| == |values| && i < |addrs|
    requires forall p, q :: 0 <= p < q < |addrs| ==> addrs[p] != addrs[q]
    ensures addrs[i] as nat in Store(m, addrs, values) && Store(m, addrs, values)[addrs[i] as nat] == values[i]
    decreases |addrs|
  {
    if i == 0 {
      StoreKeeps(m[addrs[0] as nat := values[0]], addrs[1..], values[1..], addrs[0] as nat);
    } else {
      StoreAt(m[addrs[0] as nat := values[0]], addrs[1..], values[1..], i - 1);
    }
  }

  /** Addresses not written keep their contents. */
  lemma {:induction false} StoreKeeps(m: map<nat, byte>, addrs: seq<byte>, values: seq<byte>, a: nat)
    requires |addrs| == |values|
    requires forall p :: 0 <= p < |addrs| ==> addrs[p] as nat != a
    ensures (a in m) == (a in Store(m, addrs, values))
    ensures a in m ==> Store(m, addrs, values)[a] == m[a]
    decreases |addrs|
  {
    if addrs != [] {
      StoreKeeps(m[addrs[0] as nat := values[0]], addrs[1..], values[1..], a);
    }
  }

  /** A trace of address-command and data pairs: command `prefix | addrs[i]`,
      then `values[i]`. */
  predicate Pairs(events: seq<OledEvent>, prefix: byte, addrs: seq<byte>, values: seq<byte>)
  {
    |addrs| == |values| && |events| == 2 * |addrs| &&
    forall i :: 0 <= i < |addrs| ==> events[2 * i] == Cmd(prefix | addrs[i]) && events[2 * i + 1] == Data(values[i])
  }

  lemma PairsTail(events: seq<OledEvent>, prefix: byte, addrs: seq<byte>, values: seq<byte>)
    requires Pairs(events, prefix, addrs, values) && addrs != []
    ensures Pairs(events[2..], prefix, addrs[1..], values[1..])
  {
    forall i | 0 <= i < |addrs| - 1
      ensures events[2..][2 * i] == Cmd(prefix | addrs[1..][i]) && events[2..][2 * i + 1] == Data(values[1..][i])
    {
      assert events[2 * (i + 1)] == Cmd(prefix | addrs[i + 1]);
      assert events[2 * (i + 1) + 1] == Data(values[i + 1]);
    }
  }

  /** Running a trace takes its first two writes, then the rest. */
  lemma RunTwo(c: Controller, events: seq<OledEvent>)
    requires |events| >= 2
    ensures Run(c, events) == Run(Execute(Execute(c, events[0]), events[1]), events[2..])
  {
    assert events[1..][1..] == events[2..];
  }

  /** A DDRAM address command and a data byte store the byte there. */
  lemma DdramStep(c: Controller, a: byte, v: byte)
    requires !c.graphics && a < 0x80
    ensures var c2 := Execute(Execute(c, Cmd(CMD_DDRAM | a)), Data(v));
      c2.ddram == c.ddram[a as nat := v] && !c2.graphics
  {
    assert (CMD_DDRAM | a) & CMD_DDRAM != 0 && (CMD_DDRAM | a) & 0x7F == a;
  }

  /** A CGRAM address command and a data byte store the byte there. */
  lemma CgramStep(c: Controller, a: byte, v: byte)
    requires !c.graphics && a < 0x40
    ensures var c2 := Execute(Execute(c, Cmd(CMD_CGRAM | a)), Data(v));
      c2.cgram == c.cgram[a as nat := v] && !c2.graphics
  {
    assert (CMD_CGRAM | a) & CMD_DDRAM == 0 && (CMD_CGRAM | a) & CMD_CGRAM != 0 && (CMD_CGRAM | a) & 0x3F == a;
  }

  /** In character mode, DDRAM address and character pairs store each
      character at its address. */
  lemma {:induction false} DdramPairs(c: Controller, events: seq<OledEvent>, addrs: seq<byte>, values: seq<byte>)
    requires !c.graphics && Pairs(events, CMD_DDRAM, addrs, values)
    requires forall i :: 0 <= i < |addrs| ==> addrs[i] < 0x80
    ensures !Run(c, events).graphics
    ensures Run(c, events).ddram == Store(c.ddram, addrs, values)
    decreases |addrs|
  {
    if addrs != [] {
      var c2 := Execute(Execute(c, events[0]), events[1]);
      DdramStep(c, addrs[0], values[0]);
      RunTwo(c, events);
      PairsTail(events, CMD_DDRAM, addrs, values);
      DdramPairs(c2, events[2..], addrs[1..], values[1..]);
    }
  }

  /** In character mode, CGRAM address and pattern pairs store each pattern
      at its address. */
  lemma {:induction false} CgramPairs(c: Controller, events: seq<OledEvent>, addrs: seq<byte>, values: seq<byte>)
    requires !c.graphics && Pairs(events, CMD_CGRAM, addrs, values)
    requires forall i :: 0 <= i < |addrs| ==> addrs[i] < 0x40
    ensures !Run(c, events).graphics
    ensures Run(c, events).cgram == Store(c.cgram, addrs, values)
    decreases |addrs|
  {
    if addrs != [] {
      var c2 := Execute(Execute(c, events[0]), events[1]);
      CgramStep(c, addrs[0], values[0]);
      RunTwo(c, events);
      PairsTail(events, CMD_CGRAM, addrs, values);
      CgramPairs(c2, events[2..], addrs[1..], values[1..]);
    }
  }

  /** oled_write_character puts the character at its position's address and
      changes no other character cell. */
  lemma WriteCharacterStores(c: Controller, character: byte, column: byte, row: byte)
    requires !c.graphics
    ensures Run(c, WriteCharacter(character, column, row)).ddram == c.ddram[DdramAddress(column, row) as nat := character]
  {
    var a := DdramAddress(column, row);
    DdramPairs(c, WriteCharacter(character, column, row), [a], [character]);
    assert Store(c.ddram, [a], [character]) == Store(c.ddram[a as nat := character], [], []);
  }

  /** Write number `i` of a trace is oled_write_character(ch, column, row). */
  predicate WritesAt(events: seq<OledEvent>, i: nat, ch: byte, column: byte, row: byte)
  {
    2 * i + 1 < |events| &&
    events[2 * i] == Cmd(CMD_DDRAM | DdramAddress(column, row)) && events[2 * i + 1] == Data(ch)
  }

  /** Column `x` advanced `i` times by a C `uint8_t` increment. */
  function ColumnAfter(x: byte, i: nat): byte
  {
    if i == 0 then x else ColumnAfter(x, i - 1) + 1
  }

  /** Within the 40-column line the increments do not wrap. */
  lemma {:induction false} ColumnAfterFits(x: byte, i: nat)
    requires x as nat + i <= 40
    ensures ColumnAfter(x, i) as nat == x as nat + i
  {
    if i != 0 {
      ColumnAfterFits(x, i - 1);
      var b := ColumnAfter(x, i - 1);
      assert b < 255;
      assert (b + 1) as nat == b as nat + 1;
    }
  }

  /** Write number `i` of a trace puts `ch` at column x+i of `row`. */
  predicate WritesFrom(events: seq<OledEvent>, i: nat, ch: byte, x: byte, row: byte)
  {
    WritesAt(events, i, ch, ColumnAfter(x, i), row)
  }

  /** A trace of oled_write_character calls putting `chars` on `row` from
      column `x`, one column further for each. */
  predicate WritesRun(events: seq<OledEvent>, chars: seq<byte>, x: byte, row: byte)
  {
    |events| == 2 * |chars| && forall k :: 0 <= k < |chars| ==> WritesFrom(events, k, chars[k], x, row)
  }

  /** One more oled_write_character at the next column extends the run. */
  lemma WritesRunAppend(events: seq<OledEvent>, chars: seq<byte>, ch: byte, x: byte, row: byte)
    requires WritesRun(events, chars, x, row)
    ensures WritesRun(events + WriteCharacter(ch, ColumnAfter(x, |chars|), row), chars + [ch], x, row)
  {
    var next := events + WriteCharacter(ch, ColumnAfter(x, |chars|), row);
    forall k | 0 <= k < |chars|
      ensures WritesFrom(next, k, (chars + [ch])[k], x, row)
    {
      assert next[2 * k] == events[2 * k] && next[2 * k + 1] == events[2 * k + 1];
    }
  }

  /** Advancing m columns and then k more is advancing m + k columns. */
  lemma {:induction false} ColumnAfterAdd(x: byte, m: nat, k: nat)
    ensures ColumnAfter(ColumnAfter(x, m), k) == ColumnAfter(x, m + k)
  {
    if k != 0 {
      ColumnAfterAdd(x, m, k - 1);
    }
  }

  /** A run from x followed by a run from where it ended is one run. */
  lemma WritesRunConcat(e1: seq<OledEvent>, c1: seq<byte>, e2: seq<OledEvent>, c2: seq<byte>, x: byte, row: byte)
    requires WritesRun(e1, c1, x, row) && WritesRun(e2, c2, ColumnAfter(x, |c1|), row)
    ensures WritesRun(e1 + e2, c1 + c2, x, row)
  {
    forall k | |c1| <= k < |c1| + |c2|
      ensures WritesFrom(e1 + e2, k, (c1 + c2)[k], x, row)
    {
      var j := k - |c1|;
      assert WritesFrom(e2, j, c2[j], ColumnAfter(x, |c1|), row);
      ColumnAfterAdd(x, |c1|, j);
      assert (e1 + e2)[2 * k] == e2[2 * j] && (e1 + e2)[2 * k + 1] == e2[2 * j + 1];
    }
    forall k | 0 <= k < |c1|
      ensures WritesFrom(e1 + e2, k, (c1 + c2)[k], x, row)
    {
      assert (e1 + e2)[2 * k] == e1[2 * k] && (e1 + e2)[2 * k + 1] == e1[2 * k + 1];
    }
  }

  /** A single oled_write_character is a run of one. */
  lemma WritesRunSingle(ch: byte, x: byte, row: byte)
    ensures WritesRun(WriteCharacter(ch, x, row), [ch], x, row)
  {
    assert WritesFrom(WriteCharacter(ch, x, row), 0, ch, x, row);
  }

  /** A run of oled_write_character calls at distinct positions on the
      40 by 2 grid leaves each character at its position. */
  lemma CharactersShown(c: Controller, events: seq<OledEvent>, columns: seq<byte>, row: byte, chars: seq<byte>)
    requires !c.graphics && 1 <= row <= 2
    requires |columns| == |chars| && |events| == 2 * |chars|
    requires forall i :: 0 <= i < |chars| ==> 1 <= columns[i] <= 40 && WritesAt(events, i, chars[i], columns[i], row)
    requires forall p, q :: 0 <= p < q < |columns| ==> columns[p] != columns[q]
    ensures forall i :: 0 <= i < |chars| ==>
      DdramAddress(columns[i], row) as nat in Run(c, events).ddram &&
      Run(c, events).ddram[DdramAddress(columns[i], row) as nat] == chars[i]
  {
    var addrs := seq(|columns|, i requires 0 <= i < |columns| => DdramAddress(columns[i], row));
    assert Pairs(events, CMD_DDRAM, addrs, chars);
    DdramPairs(c, events, addrs, chars);
    forall p, q | 0 <= p < q < |addrs|
      ensures addrs[p] != addrs[q]
    {
      DdramRoundTrip(columns[p], row);
      DdramRoundTrip(columns[q], row);
    }
    forall i | 0 <= i < |chars|
      ensures addrs[i] as nat in Run(c, events).ddram && Run(c, events).ddram[addrs[i] as nat] == chars[i]
    {
      StoreAt(c.ddram, addrs, chars, i);
    }
  }

  /** oled_set_character loads rows 1..7 of the glyph with the patterns, top
      three bits set; glyph numbers outside 1..8 load glyph 1. */
  lemma SetCharacterLoads(c: Controller, glyph: byte, patterns: seq<byte>, events: seq<OledEvent>, n: nat)
    requires !c.graphics && |patterns| >= 7 && n < 7
    requires |events| == 14
    requires forall k :: 0 <= k < 7 ==>
      events[2 * k] == Cmd(CMD_CGRAM | CgramAddress(glyph, k as byte + 1)) &&
      events[2 * k + 1] == Data(patterns[k] | 0xE0)
    ensures CgramAddress(glyph, n as byte + 1) as nat in Run(c, events).cgram
    ensures Run(c, events).cgram[CgramAddress(glyph, n as byte + 1) as nat] == patterns[n] | 0xE0
  {
    var addrs, values := GlyphRows(glyph), GlyphPatterns(patterns);
    SetCharacterPairs(glyph, patterns, events);
    CgramPairs(c, events, addrs, values);
    GlyphRowsDistinct(glyph);
    StoreAt(c.cgram, addrs, values, n);
  }

  /** The CGRAM addresses of rows 1..7 of a glyph. */
  function GlyphRows(glyph: byte): (addrs: seq<byte>)
    ensures |addrs| == 7
  {
    seq(7, k requires 0 <= k < 7 => CgramAddress(glyph, k as byte + 1))
  }

  /** The first seven patterns with their top three bits set. */
  function GlyphPatterns(patterns: seq<byte>): (values: seq<byte>)
    requires |patterns| >= 7
    ensures |values| == 7
  {
    seq(7, k requires 0 <= k < 7 => patterns[k] | 0xE0)
  }

  lemma SetCharacterPairs(glyph: byte, patterns: seq<byte>, events: seq<OledEvent>)
    requires |patterns| >= 7 && |events| == 14
    requires forall k :: 0 <= k < 7 ==>
      events[2 * k] == Cmd(CMD_CGRAM | CgramAddress(glyph, k as byte + 1)) &&
      events[2 * k + 1] == Data(patterns[k] | 0xE0)
    ensures Pairs(events, CMD_CGRAM, GlyphRows(glyph), GlyphPatterns(patterns))
    ensures forall i :: 0 <= i < 7 ==> GlyphRows(glyph)[i] < 0x40
  {
  }

  /** The seven rows of a glyph have distinct addresses. */
  lemma GlyphRowsDistinct(glyph: byte)
    ensures forall p, q :: 0 <= p < q < 7 ==> GlyphRows(glyph)[p] != GlyphRows(glyph)[q]
  {
    forall p, q | 0 <= p < q < 7
      ensures GlyphRows(glyph)[p] != GlyphRows(glyph)[q]
    {
      CgramRow(glyph, p as byte + 1);
      CgramRow(glyph, q as byte + 1);
    }
  }

  /** The low three bits of a CGRAM address are the glyph row less one. */
  lemma CgramRow(glyph: byte, row: byte)
    requires 1 <= row <= 8
    ensures CgramAddress(glyph, row) & 0x07 == row - 1
  {
    var high: byte := if 1 < glyph <= 8 then (glyph - 1) << 3 else 0x00;
    assert high & 0x07 == 0;
  }

  /** oled_write_pixels_at, in graphics mode, sets the 8 pixels of column x
      in byte row cy and nothing else. */
  lemma WritePixelsAtStores(c: Controller, x: byte, cy: byte, pixels: byte)
    requires c.graphics && 1 <= x <= 50 && 1 <= cy <= 2
    ensures Run(c, WritePixelsAt(x, cy, pixels)).pixels == c.pixels[((x - 1) as nat, (cy - 1) as nat) := pixels]
    ensures Run(c, WritePixelsAt(x, cy, pixels)).graphics
  {
    var events := WritePixelsAt(x, cy, pixels);
    var c1 := Execute(c, Cmd(GxaAddress(x)));
    GxaStep(c, x);
    var c2 := Execute(c1, Cmd(GyaAddress(cy)));
    GyaStep(c1, cy);
    RunTwo(c, events);
    assert events[2..] == [Data(pixels)] && [Data(pixels)][1..] == [];
    assert Run(c, events) == Execute(c2, Data(pixels));
  }

  /** In graphics mode the column address command moves the column cursor. */
  lemma GxaStep(c: Controller, x: byte)
    requires c.graphics && 1 <= x <= 50
    ensures Execute(c, Cmd(GxaAddress(x))) == c.(gx := (x - 1) as nat)
  {
    var gxa := GxaAddress(x);
    assert gxa & CMD_DDRAM != 0 && gxa & 0x7F == x - 1;
  }

  /** In graphics mode the byte-row address command moves the row cursor. */
  lemma GyaStep(c: Controller, cy: byte)
    requires c.graphics && 1 <= cy <= 2
    ensures Execute(c, Cmd(GyaAddress(cy))) == c.(gy := (cy - 1) as nat)
  {
    var gya := GyaAddress(cy);
    assert gya & CMD_DDRAM == 0 && gya & CMD_CGRAM != 0 && gya & 0x01 == cy - 1;
  }

  /** oled_blank, in graphics mode, turns every pixel column of both byte
      rows off. */
  lemma BlankClears(c: Controller, events: seq<OledEvent>, x: nat, row: nat)
    requires c.graphics && BlankTrace(events)
    requires x < PIXEL_COLUMNS && row < BYTE_ROWS
    ensures (x, row) in Run(c, events).pixels && Run(c, events).pixels[(x, row)] == 0x00
  {
    var first, second := events[..BLANK_ROW_LENGTH], events[BLANK_ROW_LENGTH..];
    assert BlankRowShape(events[0 * BLANK_ROW_LENGTH..(0 + 1) * BLANK_ROW_LENGTH], 0 as byte + 1);
    assert BlankRowShape(events[1 * BLANK_ROW_LENGTH..(1 + 1) * BLANK_ROW_LENGTH], 1 as byte + 1);
    assert first == events[0 * BLANK_ROW_LENGTH..(0 + 1) * BLANK_ROW_LENGTH];
    assert second == events[1 * BLANK_ROW_LENGTH..(1 + 1) * BLANK_ROW_LENGTH];
    assert events == first + second;
    RunAppend(c, first, second);
    var c1 := Run(c, first);
    BlankRowFills(c, first, 0);
    BlankRowFills(c1, second, 1);
    if row == 0 {
      BlankRowKeeps(c1, second, 1, (x, 0));
    }
  }

  /** One blank row leaves the controller in graphics mode with every column
      of its byte row off. */
  lemma BlankRowFills(c: Controller, events: seq<OledEvent>, row: nat)
    requires c.graphics && row < 2 && BlankRowShape(events, row as byte + 1)
    ensures Run(c, events).graphics
    ensures forall x :: 0 <= x < PIXEL_COLUMNS ==> (x, row) in Run(c, events).pixels && Run(c, events).pixels[(x, row)] == 0x00
  {
    var c2 := Execute(Execute(c, events[0]), events[1]);
    assert c2.gx == 0 && c2.gy == row && c2.graphics;
    assert events[1..][1..] == events[2..];
    ZerosFill(c2, events[2..], PIXEL_COLUMNS);
  }

  /** `n` zero data bytes in graphics mode clear columns gx .. gx+n-1 of the
      current byte row. */
  lemma {:induction false} ZerosFill(c: Controller, events: seq<OledEvent>, n: nat)
    requires c.graphics && |events| == n
    requires forall i :: 0 <= i < n ==> events[i] == Data(0x00)
    ensures Run(c, events).graphics
    ensures forall x :: c.gx <= x < c.gx + n ==> (x, c.gy) in Run(c, events).pixels && Run(c, events).pixels[(x, c.gy)] == 0x00
    decreases n
  {
    if n != 0 {
      var c1 := Execute(c, events[0]);
      ZerosFill(c1, events[1..], n - 1);
      ZeroKept(c1, events[1..], n - 1, c.gx);
    }
  }

  /** Zero data bytes written after column `x` keep column `x` of the row. */
  lemma {:induction false} ZeroKept(c: Controller, events: seq<OledEvent>, n: nat, x: nat)
    requires c.graphics && |events| == n && x < c.gx
    requires forall i :: 0 <= i < n ==> events[i] == Data(0x00)
    requires (x, c.gy) in c.pixels
    ensures (x, c.gy) in Run(c, events).pixels && Run(c, events).pixels[(x, c.gy)] == c.pixels[(x, c.gy)]
    decreases n
  {
    if n != 0 {
      ZeroKept(Execute(c, events[0]), events[1..], n - 1, x);
    }
  }

  /** The second byte row's pass leaves the first byte row alone. */
  lemma BlankRowKeeps(c: Controller, events: seq<OledEvent>, row: nat, cell: (nat, nat))
    requires c.graphics && row < 2 && BlankRowShape(events, row as byte + 1)
    requires cell.1 != row && cell in c.pixels
    ensures cell in Run(c, events).pixels && Run(c, events).pixels[cell] == c.pixels[cell]
  {
    var c2 := Execute(Execute(c, events[0]), events[1]);
    assert c2.gy == row && c2.graphics && c2.pixels == c.pixels;
    assert events[1..][1..] == events[2..];
    OtherRowKept(c2, events[2..], PIXEL_COLUMNS, cell);
  }

  lemma {:induction false} OtherRowKept(c: Controller, events: seq<OledEvent>, n: nat, cell: (nat, nat))
    requires c.graphics && |events| == n && cell.1 != c.gy && cell in c.pixels
    requires forall i :: 0 <= i < n ==> events[i] == Data(0x00)
    ensures cell in Run(c, events).pixels && Run(c, events).pixels[cell] == c.pixels[cell]
    decreases n
  {
    if n != 0 {
      OtherRowKept(Execute(c, events[0]), events[1..], n - 1, cell);
    }
  }

  /** The mode, power, home and clear commands do what their names say. */
  lemma CommandsAct(c: Controller)
    ensures Run(c, GraphicsMode()).graphics
    ensures Run(c, PowerOn()).on && !Run(c, PowerOff()).on
    ensures Run(c, Clear()).ddram == map[] && Run(c, Clear()).addr == 0
    ensures !c.graphics ==> Run(c, CursorHome()).addr == 0 && Run(c, CursorHome()).ddram == c.ddram
    ensures Run(c, IncrementalCursor()) == c
  {
  }
}
