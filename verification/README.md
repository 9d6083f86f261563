# cgwireless radio and display driver, modelled in Dafny

This project models the core of the cgwireless firmware. That firmware drives
an nRF24L01 2.4 GHz radio over a bit-banged SPI bus and an MC0010-style OLED
character/graphics display over an 8-bit parallel bus. The model is built in
layers.

- **Bytes** and **Spi** (`bytes.dfy`, `spi.dfy`) cover the bus. A byte is
  `bv8`, so C's `uint8_t` wrap-around comes for free. The SPI routines of
  `nrf24l01.c` are written as methods producing a trace of pin writes
  (MOSI, SCK, CSN). Bits read from MISO are an input.
- **Nrf24** (`nrf24.dfy`) covers the radio. It holds:
  - the register map;
  - the command bytes and a chip-side decoder of them;
  - the CSN-bracketed command frames of every register accessor;
  - payload commands and the CE pulse used by transmit/retransmit;
  - a mock register file that executes register writes.
- **Cgrf** (`cgrf.dfy`) covers the radio session of `cgrf.c`. The driver's
  `m_*` statics become a `Session` record. Every public operation returns
  the new session and the bus events it emits. The encoders of CONFIG,
  RF_SETUP, EN_AA, DYNPD and FEATURE each have a decoder partner.
- **CgrfSync** (`cgrf_sync.dfy`) proves the session's main invariant: the
  chip's registers hold the values the session believes it wrote. The
  invariant is kept by every operation, with two exceptions:
  - each start operation needs an extra premise;
  - a start operation called while the radio is already powered in the
    other mode breaks it, because neither start rewrites CONFIG from
    power-on. Both directions are stated as lemmas.
- **Oled** (`oled.dfy`) covers `cgoled.c`:
  - DDRAM, CGRAM and graphics address arithmetic, each with a round trip;
  - the command/data emitters and the parallel-bus pin sequence;
  - a small model of the display controller that executes the emitted
    commands.
- **Display** (`display.dfy`) covers `display.c`:
  - the two configuration sequences;
  - decimal, hexadecimal, binary and string rendering, each proved to put
    the right characters at the right DDRAM cells.

The radio's answers are parameters of the model: the STATUS byte shifted
out during a command, the payload width, the FIFO contents and the raw MISO
levels. So are the OLED controller's answers.

Some source behaviours look accidental. The model keeps them as the code
does them and states them as properties:

- `cgrf_power_up` tests `!m_power == on`. Because `on` is 0, this holds
  exactly when the radio is off.
- `cgrf_set_tx_address` copies the stored address into the caller's buffer.
  The stored address therefore never changes, and only the old addresses
  are rewritten.
- `cgrf_set_length` from dynamic to static length sets the payload size to
  0 and ignores the size argument.
- `nrf24_retransmit` sends a bare W_TX_PAYLOAD rather than REUSE_TX_PL.
- Both start operations rely on `cgrf_power_up`. When the radio is already
  on, CONFIG is not rewritten, so its PRIM_RX bit stays stale.

## Model

| member | source | states |
|---|---|---|
| Bytes.FromToBits | cgwireless/nrf24l01.c:628-655 | Shifting a byte out most significant bit first and reassembling the levels gives the same byte back. |
| Bytes.ToFromBits | cgwireless/nrf24l01.c:666-691 | Eight sampled levels assembled into a byte and shifted out again give the same levels in order. |
| Bytes.DeserialiseSerialise | cgwireless/nrf24l01.c:658-664 | A byte string sent one byte after another can be regrouped into the same bytes. |
| Spi.SpiOutCommand | cgwireless/nrf24l01.c:584-625 | The command byte is driven out MSB first, one clock pulse per bit. The status returned has bit 7-j equal to the MISO level sampled on clock j. |
| Spi.SpiOutDataValue | cgwireless/nrf24l01.c:628-655 | One data byte is driven out as the standard eight-bit wave; MISO is ignored. |
| Spi.SpiInDataValue | cgwireless/nrf24l01.c:666-691 | Eight clock pulses with MOSI untouched; the byte read holds the MISO levels, first level in bit 7. |
| Spi.SpiOutDataBytes | cgwireless/nrf24l01.c:658-664 | Exactly the first `size` bytes are sent, in index order. |
| Spi.SpiInDataBytes | cgwireless/nrf24l01.c:693-703 | The first `size` buffer bytes are replaced by the bytes read, in order; the rest of the buffer is unchanged. |
| Spi.OutByteSampled | cgwireless/nrf24l01.c:628-655 | A chip sampling MOSI on each rising clock edge sees exactly the bits of the byte, most significant first. |
| Spi.OutByteClock | cgwireless/nrf24l01.c:628-655 | A byte transfer gives exactly eight clock pulses from a low clock and never touches CSN. |
| Spi.InByteClock | cgwireless/nrf24l01.c:666-691 | A byte read gives eight clock pulses, leaves MOSI where it was and never drives it. |
| Spi.OutBytesSampled | cgwireless/nrf24l01.c:658-664 | Bytes sent in sequence reach the chip as their concatenated bit streams. |
| Nrf24.AddressMap | cgwireless/nrf24l01.c:46-71 | Every register the driver accesses has a 5-bit map address, and decoding that address names the same register. |
| Nrf24.AddressInjective | cgwireless/nrf24l01.c:46-71 | No two registers share a map address. |
| Nrf24.CommandFraming | cgwireless/nrf24l01.c:526-580 | Register commands are 001AAAAA for writes and 000AAAAA for reads. AAAAA is the register address modulo 32. |
| Nrf24.DecodeRegisterCommand | cgwireless/nrf24l01.c:74-85 | The chip reads a framed write or read command back as the same operation on the masked address. |
| Nrf24.FrameBracket | cgwireless/nrf24l01.c:526-580 | Every command frame drives CSN low before its first clock and high after its last, and nowhere in between. |
| Nrf24.FrameSampled | cgwireless/nrf24l01.c:545-561 | The chip samples the command byte followed by the data bytes, whole bytes only, in order. |
| Nrf24.Transfer | cgwireless/nrf24l01.c:564-580 | One frame returns the status shifted in during the command byte, and as many data bytes as the frame reads, assembled from MISO. |
| Nrf24.SetRegister | cgwireless/nrf24l01.c:149-398 | A setter is a write command for its register's address that carries exactly the given bytes and reads nothing back. |
| Nrf24.GetRegister | cgwireless/nrf24l01.c:149-404 | A getter is a read command for its register's address that reads back the register's width: 5 bytes for addresses, otherwise 1. |
| Nrf24.FlushTxFrame | cgwireless/nrf24l01.c:119-131 | The chip reads a bare FLUSH_TX command. |
| Nrf24.FlushRxFrame | cgwireless/nrf24l01.c:134-146 | The chip reads a bare FLUSH_RX command. |
| Nrf24.PayloadSizeFrame | cgwireless/nrf24l01.c:477-492 | The chip reads R_RX_PL_WID, with one byte clocked back. |
| Nrf24.PayloadFrame | cgwireless/nrf24l01.c:495-510 | The chip reads R_RX_PAYLOAD, with exactly `size` bytes clocked back. |
| Nrf24.CePulseEdge | cgwireless/nrf24l01.c:423-438 | Whatever CE was before, the transmit pulse raises it exactly once. It ends high only in standby-II mode. |
| Nrf24.TransmitData | cgwireless/nrf24l01.c:408-441 | The payload command carries `data[0..size)`. Every later event is a CE level, at most three of them, and CE gives exactly one rising edge. |
| Nrf24.Retransmit | cgwireless/nrf24l01.c:444-474 | Same as a transmit with no data; the chip reads W_TX_PAYLOAD, not REUSE_TX_PL. |
| Nrf24.RunAppend | cgwireless/nrf24l01.c:526-561 | Executing two event traces in turn equals executing their concatenation. |
| Nrf24.RegisterRoundTrip | cgwireless/nrf24l01.c:149-398 | Writing a register through its setter then reading it through its getter returns the bytes written. No other register changes. |
| Cgrf.Initial | cgwireless/cgrf.c:95-107 | The session starts powered off, as a transmitter, on a legal channel. The transmit and pipe-0 addresses agree and differ from pipe 1. |
| Cgrf.RfSetupRoundTrip | cgwireless/cgrf.c:525-550 | The RF_SETUP value the driver writes reads back as the same data rate and output power. |
| Cgrf.EnAaValue | cgwireless/cgrf.c:426-435 | Auto acknowledgment sets the bits of all six pipes; no acknowledgment clears every bit. |
| Cgrf.DynpdValue | cgwireless/cgrf.c:438-451 | Dynamic length is enabled on pipes 0 and 1 exactly when the session uses dynamic length. |
| Cgrf.FeatureValue | cgwireless/cgrf.c:453-474 | EN_DPL follows dynamic length and EN_ACK_PAY follows auto acknowledgment. EN_DYN_ACK needs both. |
| Cgrf.ConfigRoundTrip | cgwireless/cgrf.c:482-517 | The CONFIG value reads back as the same CRC encoding, power state and mode. |
| Cgrf.PushConfig | cgwireless/cgrf.c:482-517 | CONFIG is written first. In receiver mode CE is then driven to follow the power state; in transmitter mode CE is left alone. |
| Cgrf.SetChannel | cgwireless/cgrf.c:128-138 | Channels above 127 are ignored. A new legal channel is stored and written to RF_CH once; the same channel writes nothing. |
| Cgrf.SetDataRate | cgwireless/cgrf.c:141-148 | The rate is stored. RF_SETUP is rewritten, with the stored output power, only when the rate changes. |
| Cgrf.SetOutputPower | cgwireless/cgrf.c:151-158 | The power is stored. RF_SETUP is rewritten, with the stored data rate, only when the power changes. |
| Cgrf.SetCrcEncoding | cgwireless/cgrf.c:161-170 | The encoding is always stored. Only for a change while powered on is CONFIG rewritten with the new encoding, followed by nothing but CE levels. CE then ends high in receiver mode and is otherwise unchanged. |
| Cgrf.SetAcknowledgment | cgwireless/cgrf.c:173-181 | On a change, EN_AA then FEATURE are rewritten; otherwise nothing is emitted. |
| Cgrf.SetLength | cgwireless/cgrf.c:184-213 | From dynamic length, switching to static stores size 0, ignores the argument and writes DYNPD, FEATURE and RX_PW_P1 = 0; staying dynamic emits nothing. From static length, DYNPD and FEATURE are written only if the length mode changes, and RX_PW_P1 only if the size changes. |
| Cgrf.SetTxAddress | cgwireless/cgrf.c:216-224 | The stored addresses never change. The caller's buffer receives the stored address, and a differing argument rewrites TX_ADDR and RX_ADDR_P0 with the old values. |
| Cgrf.PowerUpGuardMeansOff | cgwireless/cgrf.c:332-341 | The guard `!m_power == on` holds exactly when the session is powered off. |
| Cgrf.PowerUp | cgwireless/cgrf.c:332-341 | The radio ends powered on. Only from off is CONFIG written with PWR_UP set, followed by nothing but CE levels, and the chip status returned; otherwise nothing is emitted and 0 is returned. A receiver ends with CE high; a transmitter's CE is unchanged. |
| Cgrf.PowerDown | cgwireless/cgrf.c:345-354 | The radio ends powered off. Only from on is CONFIG written with PWR_UP clear, followed by nothing but CE levels, and the chip status returned; otherwise nothing is emitted and 0 is returned. A receiver ends with CE low; a transmitter's CE is unchanged. |
| Cgrf.FlushAndClear | cgwireless/cgrf.c:266-270 | FLUSH_RX, FLUSH_TX, then a STATUS write of RX_DR, TX_DS and MAX_RT. No other register is written. |
| Cgrf.StartAsTransmitter | cgwireless/cgrf.c:227-274 | The session ends a powered transmitter with nothing else changed. The trace writes the start registers with the session's values in source order, then TX_ADDR, RX_ADDR_P0 and RX_ADDR_P1, then flushes and clears the flags. CONFIG (PWR_UP set, PRIM_RX clear) is written last, and only if the radio was off; otherwise it is never written. |
| Cgrf.TransmitterStartTrace | cgwireless/cgrf.c:227-274 | The transmitter start's events are exactly the transmitter trace described above. |
| Cgrf.ReceiverStartTrace | cgwireless/cgrf.c:277-328 | The receiver start's events are exactly the receiver trace described below. |
| Cgrf.StartAsReceiver | cgwireless/cgrf.c:277-328 | The session ends a powered receiver with pipe 1 at the default address. The trace writes the start registers with the session's values, then RX_ADDR_P1 = 01 02 03 04 01, then flushes and clears the flags. Only from off do a CONFIG write (PWR_UP and PRIM_RX set) and CE high follow. TX_ADDR and RX_ADDR_P0 are never written, nor is CONFIG when already powered. |
| Cgrf.Classify | cgwireless/cgrf.c:409-422 | TX_DS means success. MAX_RT without TX_DS means failure. Neither means a retry is in progress. |
| Cgrf.CheckAcknowledgment | cgwireless/cgrf.c:409-422 | Exactly one STATUS read, classified as above. |
| Cgrf.TransmitData | cgwireless/cgrf.c:357-368 | The payload goes out first. Only CE levels follow until the operation ends with a STATUS read and a write clearing TX_DS and MAX_RT; CE rises once and stays high. |
| Cgrf.Retransmit | cgwireless/cgrf.c:370-381 | Identical to a transmission of an empty payload. |
| Cgrf.PayloadCount | cgwireless/cgrf.c:383-395 | The number of bytes copied is the payload width when it fits the buffer, the buffer size when it does not, and never more than either. |
| Cgrf.GetPayload | cgwireless/cgrf.c:383-406 | The buffer's first `PayloadCount` bytes come from the FIFO and the rest are unchanged. The trace is R_RX_PL_WID, then R_RX_PAYLOAD only for a non-zero width, then the STATUS read, then a STATUS write only when RX_DR is set. The status is returned. |
| CgrfSync.SetChannelSyncs | cgwireless/cgrf.c:128-138 | A chip in step with the session stays in step after a channel change. |
| CgrfSync.SetDataRateSyncs | cgwireless/cgrf.c:141-148 | A chip in step with the session stays in step after a data-rate change. |
| CgrfSync.SetOutputPowerSyncs | cgwireless/cgrf.c:151-158 | A chip in step with the session stays in step after an output-power change. |
| CgrfSync.SetCrcEncodingSyncs | cgwireless/cgrf.c:161-170 | Stays in step after a CRC change, including the powered-off case where CONFIG is not written. |
| CgrfSync.SetAcknowledgmentSyncs | cgwireless/cgrf.c:173-181 | A chip in step with the session stays in step after an acknowledgment change. |
| CgrfSync.SetLengthSyncs | cgwireless/cgrf.c:184-213 | A chip in step with the session stays in step after a length or size change, from either length mode. |
| CgrfSync.SetTxAddressSyncs | cgwireless/cgrf.c:216-224 | Rewriting the unchanged stored addresses keeps the chip in step. |
| CgrfSync.PowerUpSyncs | cgwireless/cgrf.c:332-341 | A chip in step with the session stays in step after power-up. |
| CgrfSync.PowerDownSyncs | cgwireless/cgrf.c:345-354 | A chip in step with the session stays in step after power-down. |
| CgrfSync.TransmitDataSyncs | cgwireless/cgrf.c:357-368 | A transmission writes no session-owned register, so the chip stays in step. |
| CgrfSync.RetransmitSyncs | cgwireless/cgrf.c:370-381 | A retransmission writes no session-owned register, so the chip stays in step. |
| CgrfSync.CheckAcknowledgmentSyncs | cgwireless/cgrf.c:409-422 | Reading STATUS keeps the chip in step. |
| CgrfSync.GetPayloadSyncs | cgwireless/cgrf.c:383-406 | Reading the payload and clearing RX_DR keep the chip in step. |
| CgrfSync.StartAsTransmitterSyncs | cgwireless/cgrf.c:227-274 | From any chip state, starting as a transmitter brings the chip in step. This holds if the radio was off or CONFIG already held the transmitter value. |
| CgrfSync.StartAsReceiverSyncs | cgwireless/cgrf.c:277-328 | Starting as a receiver brings the chip in step. It needs the address registers already in step, and the radio off or CONFIG already holding the receiver value. |
| CgrfSync.ReceiverStartWhilePoweredKeepsTransmitterConfig | cgwireless/cgrf.c:277-341 | Starting as a receiver while powered as a transmitter leaves CONFIG at the transmitter value. The chip is then out of step with a session that believes it is a receiver. |
| CgrfSync.TransmitterStartWhilePoweredKeepsReceiverConfig | cgwireless/cgrf.c:227-274 | Starting as a transmitter while powered as a receiver leaves CONFIG at the receiver value, with PRIM_RX set. The chip is then out of step with a session that believes it is a transmitter. |
| Oled.DdramAddress | cgwireless/cgoled.c:335-350 | A DDRAM address always lies within the two 40-character lines, at most 0x67. |
| Oled.DdramRoundTrip | cgwireless/cgoled.c:335-350 | For columns 1..40 and rows 1..2 the address decodes back to the same column and row. |
| Oled.DdramClamps | cgwireless/cgoled.c:335-350 | A column outside 2..40 lands on column 1; any row but 2 lands on row 1. |
| Oled.CgramAddress | cgwireless/cgoled.c:352-367 | A CGRAM address always lies within the 64-byte glyph RAM. |
| Oled.CgramRoundTrip | cgwireless/cgoled.c:352-367 | For glyphs 1..8 and rows 1..8 the address splits back into the same glyph (high bits) and row (low bits). |
| Oled.CgramClamps | cgwireless/cgoled.c:352-367 | A glyph number outside 1..8 addresses glyph 1, and a row outside 1..8 addresses row 1. |
| Oled.GxaAddress | cgwireless/cgoled.c:369-380 | A graphics X command always has the X-address bit set and an address inside the 50-column range. |
| Oled.GxaRoundTrip | cgwireless/cgoled.c:369-380 | For columns 1..50 the command's address bits give the column back. |
| Oled.GxaClamps | cgwireless/cgoled.c:369-380 | A pixel column outside 1..50 addresses column 1. |
| Oled.GyaAddress | cgwireless/cgoled.c:382-393 | A graphics Y command always has the Y-address bit set, and it selects the second byte row exactly for row 2. |
| Oled.SetCoordinates | cgwireless/cgoled.c:244-251 | Exactly two commands: the graphics X address of `x`, then the graphics Y address of `cy`. |
| Oled.WriteCharacter | cgwireless/cgoled.c:164-170 | The DDRAM address command for (column, row), then the character as data. |
| Oled.WritePixelsAt | cgwireless/cgoled.c:255-259 | The coordinates, then the pixel byte as data. |
| Oled.SetCharacter | cgwireless/cgoled.c:177-191 | Seven address/data pairs. Pair n selects CGRAM row n+1 of the glyph and writes pattern n with the top three bits set. |
| Oled.Blank | cgwireless/cgoled.c:118-129 | For each of the two byte rows: the row's start coordinates, then 50 zero data bytes. |
| Oled.BlankRow | cgwireless/cgoled.c:122-127 | One byte row: coordinates at column 1 of that row, then 50 zero data bytes. |
| Oled.SetDataBus | cgwireless/cgoled.c:290-331 | Eight pin writes, DB7 down to DB0, each at the level of the matching data bit. |
| Oled.BusRoundTrip | cgwireless/cgoled.c:290-331 | Reading the data lines after the pin writes gives the byte back. |
| Oled.WriteCycle | cgwireless/cgoled.c:195-238 | After the data bus, RS selects data or command, RW is low, and EN is pulsed high then low. |
| Oled.WriteCycleRoundTrip | cgwireless/cgoled.c:195-238 | A controller latching on the EN pulse reads back exactly the command or data byte written. |
| Oled.WriteCharacterStores | cgwireless/cgoled.c:164-170 | In character mode, the character is stored at its DDRAM address and no other cell changes. |
| Oled.CharactersShown | cgwireless/cgoled.c:164-170 | Characters written to distinct columns 1..40 of a row are each found at their own DDRAM address. |
| Oled.SetCharacterLoads | cgwireless/cgoled.c:177-191 | In character mode, each of the glyph's seven CGRAM rows holds its pattern with the top three bits set. |
| Oled.WritePixelsAtStores | cgwireless/cgoled.c:255-259 | The pixel byte lands at the cell of the given column and byte row, and the controller is in graphics mode. |
| Oled.BlankClears | cgwireless/cgoled.c:118-129 | In graphics mode, afterwards every cell of the 50 x 2 byte grid holds 0. |
| Oled.CommandsAct | cgwireless/cgoled.c:112-160 | The commands take effect: graphics mode is entered, power goes on and off, clear empties DDRAM and resets the address, home resets the address, and the cursor increment changes nothing. |
| Display.ConfigCharacterDisplay | cgwireless/display.c:17-24 | Function set (8-bit, two lines), cursor home, incremental cursor, clear, in that order. |
| Display.ConfigGraphicalDisplay | cgwireless/display.c:32-40 | The graphical configuration is the character one with the graphics-mode command inserted before the final clear. |
| Display.ConfigurationsAct | cgwireless/display.c:17-40 | Both configurations leave DDRAM empty with the address at 0. The character one keeps the mode; the graphical one enters graphics mode. |
| Display.DecimalStringDigits | cgwireless/display.c:43-56 | The three characters are decimal digits. |
| Display.DecimalStringValue | cgwireless/display.c:43-56 | The three digits spell the number in decimal. |
| Display.DisplayNumber | cgwireless/display.c:43-56 | The digits are written at columns x, x+1, x+2 of row y, most significant first. |
| Display.HexTableRoundTrip | cgwireless/display.c:60 | Each table entry is a hex digit whose value is its index. |
| Display.HexStringSpells | cgwireless/display.c:58-66 | The two characters are hex digits spelling the number, high nibble first. |
| Display.DisplayHex | cgwireless/display.c:58-66 | The two hex digits are written at columns x and x+1 of row y. |
| Display.DisplayBinary | cgwireless/display.c:68-85 | The eight characters of the binary string are written at columns x to x+7. |
| Display.BinaryRoundTrip | cgwireless/display.c:68-85 | Reading the eight characters as bits, '1' for set, gives the number back. |
| Display.DisplayString | cgwireless/display.c:87-99 | The first `size` characters of the text are written at successive columns from x. |
| Display.RunShown | cgwireless/display.c:87-99 | With the run inside the 40-column line, each character is in DDRAM at the address that decodes to its column. |
| Display.StringShown | cgwireless/display.c:87-99 | After display_string in character mode, the i-th character of the text is at column x+i. |
| Display.BinaryShown | cgwireless/display.c:68-85 | After display_binary, the cell at column x+j shows '1' exactly when bit 7-j of the number is set. |
| Display.NumberShown | cgwireless/display.c:43-56 | After display_number, the three cells hold decimal digits whose value is the number. |
| Display.HexShown | cgwireless/display.c:58-66 | After display_hex, the two cells hold hex digits whose value is the number. |

## Left out

- `busy_wait` (cgoled.c:263-287) polls the controller's busy flag. The model treats every write as accepted at once.
- Oled.WriteCycle: the wait for the busy flag in `oled_write_cmd_busy` is not modelled.
- Delays and clock setup (`_delay_us`, `F_CPU`) are not modelled, because they do not change what is written.
- Port setup is not modelled: `nrf24_configure_ports`, `oled_config` and `cgrf_init` only set pin directions and initial levels.
- `main.c`, `led.c`, `button.c` and `debug.c` are application code outside the driver core.
- `cgrf_data_ready` is declared in `cgrf.h` with no body, so there is nothing to model.
- The radio's physical behaviour is not modelled. The status, payload width, FIFO contents and MISO levels are inputs, and the air link is outside the model.
- RX_ADDR_P2 to RX_ADDR_P5 are not modelled: the driver has no accessors for them.
- The controller model of the display is a simplification:
  - the entry mode is taken as "increment";
  - clear does not touch the graphics RAM;
  - the graphics X address does not wrap.
- Nrf24.GetRegister: `nrf24_get_cd` is included as a 1-byte read, but the mock register file does not model the carrier-detect value the chip produces.
