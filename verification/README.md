# HD44780 over I2C: driver model

A Dafny model of `hd44780_i2c.c`, a PIC driver for an HD44780 character LCD
behind a PCF8574-style I2C backpack. The backpack exposes four data lines
(the upper nibble of each I2C byte) and four control lines (the lower nibble:
backlight, enable, read/write, register select). The controller therefore
runs in 4-bit mode, and every 8-bit instruction or character goes out as two
nibbles. Each nibble is written with enable high and then with enable low.

The driver's global `LCDSTRUCT` record becomes an immutable `LcdState`. Each
driver operation becomes a pure function `LcdState -> Step`. A `Step` holds
the record afterwards and the bus trace, in order. A trace is a sequence of
`Wait` (the settle delay), `Start`, `Stop` and `Write(byte)`.

Modules, one per component of the driver:

- `Bus` has bytes (`bv8`), one-bit lines (`bv1`), bus events and nibble helpers.
- `Session` has the session record, its defaults `{0x00, 1, 0, 0, 1, 1}`, and
  `AgreeExcept`, which says "only these fields changed".
- `Transfer` is the encoder and transfer engine.
  - It has the control-nibble encoder, the four nibble writes and the framed
    transaction.
  - It also has a receiver-side decoder, `ParseTransfer`/`ParseTransfers`.
    It reads a trace back as (byte, RS, RW, backlight) tuples.
  - `Delivers(t, bytes, rs, rw, bl)` states what a trace conveys without
    referring to how the encoder builds it. The round-trip lemmas connect the
    two.
- `Commands` is the command façade. It covers clear, home, cursor
  positioning, the four shifts, display on/off, the line count, printing, and
  the backlight, cursor and blink flags.
- `Startup` has the raw 4-bit function set and `Init`. `Scenarios` has
  concrete traces from the power-up defaults.

Quirks of the code that the model keeps:

- `lcd_cursor` ORs the row bit 0x04 into 0x10 and then masks with `& 0x10`.
  So every row sends 0x10 (cursor shift left), then `col` transfers of 0x14.
  It never sends a Set-DDRAM-address instruction (0x80 for row 0, 0xC0 for
  row 1), although its comment describes one. `CursorIgnoresRow` states this.
- The enable-low writes carry a zero data nibble.
- The raw initialisation writes are 0x28, 0x2C, 0x28. That is one enable
  pulse, not a repeated pulse. The backlight bit is hard-wired on in them.
- Clear display and display on/off leave register select as it is. After a
  print they go to the data register (`CommandsAfterPrintGoToDataRegister`).
- The I2C primitives return nothing, so no bus error exists in the model.

## Model

| member | source | states |
|---|---|---|
| Transfer.EncodeControl | hd44780_i2c.c:43-54 | the control byte is below 0x10 and decodes to exactly the backlight, enable, read/write and register-select lines it was built from (bits 3, 2, 1, 0) |
| Transfer.EncodeDecodeControl | hd44780_i2c.c:43-54 | every value below 0x10 is re-encoded from its decoded lines unchanged: the encoding is a bijection on nibbles |
| Transfer.ControlNibble | hd44780_i2c.c:43-54 | the nibble carries the session's backlight, RW and RS with the given enable; the enabled value is the disabled value with bit 2 set, and the disabled value has bit 2 clear |
| Transfer.NibbleWrites | hd44780_i2c.c:258-270 | four writes. The high nibble goes first, then the low nibble, both on the upper data lines, and the two data nibbles reassemble to the instruction. Writes 1 and 3 carry the enabled control nibble. Writes 2 and 4 are exactly the disabled control nibble, with data nibble 0 |
| Session.Default | hd44780_i2c.c:41 | the record's initialiser {instruction 0x00, backlight 1, RW 0, RS 0, cursor 1, blink 1}; what a session starts from is pinned by Scenarios.InitFromDefault |
| Transfer.Frame | hd44780_i2c.c:254-273 | a transaction is the settle delay, start, the address byte 0x7E, the writes in order, stop and the settle delay; five events more than the writes. The raw initialisation (hd44780_i2c.c:217-230) uses the same frame |
| Transfer.SendInstruction | hd44780_i2c.c:252-274 | one transfer is nine events: Wait, Start, Write(0x7E), the four data writes of NibbleWrites in order, Stop, Wait |
| Transfer.SendInstructionEvents | hd44780_i2c.c:252-274 | the nine events of a transfer, with the four data writes in order |
| Transfer.BacklightOnEveryWrite | hd44780_i2c.c:258-270 | every data write of a transfer, the enable-low ones included, carries the session's backlight bit |
| Transfer.NibbleWritesDecode | hd44780_i2c.c:258-270 | the four data writes form two enable pulses under the same lines, and their data nibbles decode to the instruction, RS, RW and backlight |
| Transfer.SendInstructionParses | hd44780_i2c.c:252-274 | the decoder reads back from a transfer the instruction byte and the RS, RW and backlight lines it was sent with |
| Transfer.ParseTransferExact | hd44780_i2c.c:252-274 | a nine-event trace that decodes to a byte and lines is exactly the encoder's transfer of them (decode-then-encode) |
| Transfer.SendBytes | hd44780_i2c.c:145-147 | the one-transfer-per-byte loop of the shifts (also hd44780_i2c.c:158-160, 194-196, 206-208) and of print (hd44780_i2c.c:240-244): nine events per byte; what the run conveys is stated by Transfer.SendBytesDelivers |
| Transfer.SendBytesAppend | hd44780_i2c.c:252-274 | sending a concatenation of bytes is sending each part in turn |
| Transfer.SendBytesDelivers | hd44780_i2c.c:252-274 | a run of transfers decodes to exactly the bytes sent, in order, each with the session's RS, RW and backlight lines |
| Transfer.SendInstructionDelivers | hd44780_i2c.c:252-274 | a single transfer delivers exactly the session's instruction byte |
| Transfer.ParseRunAppend | hd44780_i2c.c:252-274 | reading a concatenation of nine-event runs gives the two readings concatenated |
| Transfer.ParseTransfersAppend | hd44780_i2c.c:252-274 | decoding a concatenation of transfer runs gives the two decodings concatenated |
| Transfer.DeliversAppend | hd44780_i2c.c:252-274 | two runs delivering two byte sequences deliver their concatenation when joined |
| Commands.Shift | hd44780_i2c.c:138-209 | RS and RW are cleared and the code loaded; nine events per repetition, max(n, 0) repetitions; nothing else in the session changes |
| Commands.ShiftDelivers | hd44780_i2c.c:138-209 | a shift delivers its code exactly max(n, 0) times, all identical, to the instruction register |
| Commands.CursorShiftLeft | hd44780_i2c.c:138-148 | instruction 0x10 with RS = RW = 0; no traffic when n <= 0; only instruction, RS and RW change |
| Commands.CursorShiftRight | hd44780_i2c.c:150-161 | instruction 0x14 with RS = RW = 0; no traffic when n <= 0; only instruction, RS and RW change |
| Commands.DisplayShiftLeft | hd44780_i2c.c:187-197 | instruction 0x18 with RS = RW = 0; no traffic when n <= 0; only instruction, RS and RW change |
| Commands.DisplayShiftRight | hd44780_i2c.c:199-209 | instruction 0x1C with RS = RW = 0; no traffic when n <= 0; only instruction, RS and RW change |
| Commands.ShiftsDeliver | hd44780_i2c.c:138-209 | cursor left, cursor right, display left and display right by n deliver exactly max(n, 0) identical transfers of 0x10, 0x14, 0x18 and 0x1C, with RS = RW = 0 |
| Commands.RowInstruction | hd44780_i2c.c:91-95 | for every row the instruction built is 0x10: the mask discards the second-line bit 0x04 |
| Commands.Cursor | hd44780_i2c.c:87-103 | RS and RW end cleared; the instruction left is 0x10 when col is 0 and 0x14 otherwise; 1 + col transfers; cursor, blink and backlight flags are unchanged |
| Commands.CursorDelivers | hd44780_i2c.c:87-103 | for every row, the trace delivers 0x10 followed by col copies of 0x14, 1 + col transfers, all with RS = RW = 0 |
| Commands.CursorIgnoresRow | hd44780_i2c.c:92-95 | the row argument has no effect: any row gives the same state and trace as row 0 |
| Commands.Clear | hd44780_i2c.c:71-75 | instruction 0x01, one transfer; RS, RW and the flags are left as they were |
| Commands.ClearDelivers | hd44780_i2c.c:71-75 | clear delivers 0x01 under the session's current RS and RW |
| Commands.ReturnHome | hd44780_i2c.c:130-136 | instruction 0x02 with RS = RW = 0, one transfer; only instruction, RS and RW change |
| Commands.ReturnHomeDelivers | hd44780_i2c.c:130-136 | return home delivers 0x02 with RS = RW = 0 |
| Commands.DisplayControl | hd44780_i2c.c:165-169 | the display-control byte `0000 1 D C B`: upper nibble 0, bit 3 set, bit 2 the requested display bit, bits 1 and 0 the cursor and blink flags (the same construction is at hd44780_i2c.c:177-181) |
| Commands.DisplayOff | hd44780_i2c.c:163-173 | the instruction is display control `0000 1 0 C B` with C = cursorOn and B = cursorBlink; one transfer; RS, RW and the flags are left as they were |
| Commands.DisplayOffDelivers | hd44780_i2c.c:163-173 | display off delivers its display-control byte under the session's current RS and RW |
| Commands.DisplayOn | hd44780_i2c.c:175-185 | the instruction is display control `0000 1 1 C B` with C = cursorOn and B = cursorBlink; one transfer; RS, RW and the flags are left as they were |
| Commands.DisplayOnDelivers | hd44780_i2c.c:175-185 | display on delivers its display-control byte under the session's current RS and RW |
| Commands.SetLines | hd44780_i2c.c:276-290 | the instruction is function set (upper nibble 0x2, so DL = 0; F = 0) with N set exactly when two lines are requested; RS = RW = 0; one transfer |
| Commands.SetLinesDelivers | hd44780_i2c.c:276-290 | the function-set byte is delivered with RS = RW = 0 |
| Commands.StrLen | hd44780_i2c.c:239-244 | the loop's stopping index: no NUL before it, and a NUL at it when it is inside the string |
| Commands.Print | hd44780_i2c.c:234-245 | RS = 1 and RW = 0 afterwards; the instruction left is the last character, or unchanged for an empty string; nine events per character; the flags are unchanged |
| Commands.PrintDelivers | hd44780_i2c.c:234-245 | the trace delivers exactly the characters before the NUL, in order, each with RS = 1 and RW = 0 |
| Commands.PrintLoop | hd44780_i2c.c:234-245 | the driver's index loop produces the same state and trace as the characterisation in Print |
| Commands.PrintStep | hd44780_i2c.c:240-244 | one more loop iteration appends exactly one transfer of the next character |
| Commands.CommandsAfterPrintGoToDataRegister | hd44780_i2c.c:71-75 | after a print (hd44780_i2c.c:234-245), clear and display off/on (hd44780_i2c.c:163-185) are delivered with RS = 1, because none of them resets register select |
| Commands.BacklightOff | hd44780_i2c.c:56-59 | backlight becomes 0, no bus traffic, no other field changes |
| Commands.BacklightOn | hd44780_i2c.c:61-64 | backlight becomes 1, no bus traffic, no other field changes |
| Commands.BacklightToggle | hd44780_i2c.c:66-69 | backlight is complemented, no bus traffic, no other field changes |
| Commands.BacklightToggleTwice | hd44780_i2c.c:66-69 | toggling twice restores the original session |
| Commands.CursorBlinkOff | hd44780_i2c.c:105-108 | cursorBlink becomes 0, no bus traffic, no other field changes |
| Commands.CursorBlinkOn | hd44780_i2c.c:110-113 | cursorBlink becomes 1, no bus traffic, no other field changes |
| Commands.CursorOff | hd44780_i2c.c:115-118 | cursorOn becomes 0, no bus traffic, no other field changes |
| Commands.CursorOn | hd44780_i2c.c:120-123 | cursorOn becomes 1, no bus traffic, no other field changes |
| Startup.FunctionSet4Bit | hd44780_i2c.c:215-232 | one framed transaction of three raw writes, each with function set DL = 0 on the data lines, backlight on and RS = RW = 0; enable goes low, high, low; the session is untouched |
| Startup.Init | hd44780_i2c.c:299-306 | 8 + 27 events; the session ends with backlight 1, RS = RW = 0 and instruction 0x01, with the cursor flags kept |
| Startup.InitSequence | hd44780_i2c.c:299-306 | the trace starts with the raw 4-bit function set. It then delivers, in order, 0x28, the display-on code for the session's cursor flags, and 0x01, all with RS = RW = 0 |
| Startup.ConfigurationDelivers | hd44780_i2c.c:302-304 | the three configuration commands together deliver 0x28, the display-on code and 0x01 with RS = RW = 0 |
| Startup.DeliversThree | hd44780_i2c.c:302-304 | three single-byte deliveries joined deliver the three bytes in order |
| Scenarios.InitFromDefault | hd44780_i2c.c:299-306 | from the defaults, the exact 35 events of initialisation. These are the raw 0x28/0x2C/0x28, then transfers of 0x28, 0x0F and 0x01 with the backlight on. The session ends as {0x01, 1, 0, 0, 1, 1} |
| Scenarios.PrintAfterInit | hd44780_i2c.c:234-245 | after initialisation, printing "HI" gives exactly two transfers, 0x4D 0x09 0x8D 0x09 and 0x4D 0x09 0x9D 0x09 |
| Scenarios.TransferIs | hd44780_i2c.c:252-274 | a transfer whose four data writes are known is exactly those writes framed by the address byte |

## Left out

- `lcd_wait` (hd44780_i2c.c:292-297) is a busy loop. It becomes a `Wait` event, with no duration.
- The I2C master primitives (`i2c.h`) have no bodies. They become `Start`, `Stop` and `Write` events. They report no failure, so the model has no bus-error path.
- The `#if` include selection and the unused `LCDADDR` are platform details with no behaviour.
- Commands.Print: requires a NUL within the first 256 bytes. The driver's `uint8_t` index would wrap past 255 and the loop would not terminate. Characters are bytes 0..255, so the signedness of `char` is not modelled.
- `instruction` is an `unsigned int` in the driver. The model holds it as a byte. Only its low eight bits ever reach the bus (hd44780_i2c.c:263 and 268 mask them), and every value the driver loads fits in a byte once characters are taken as 0..255 (previous line). Where `char` is signed, a character of 0x80 or more would be sign-extended into `instruction`, with the same bytes on the bus.
- Shift counts are unbounded integers. The driver's `int` is narrower, but any positive count gives that many transfers either way.
- The controller itself (DDRAM contents, cursor position, display state) is not modelled. The driver never reads it back, so the model stops at the bytes on the bus.
- The session is passed explicitly instead of being a global. There is no concurrency in the driver.
