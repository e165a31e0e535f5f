/** The command façade: each operation loads an instruction byte (and for
    some, the register-select and read/write lines) into the session record and
    hands it to the transfer engine; the flag setters only change the record. */
module Commands {
  import opened Bus
  import opened Session
  import opened Transfer

  /** HD44780 instruction codes the driver uses. */
  const ClearDisplayCode: Byte := 0x01
  const ReturnHomeCode: Byte := 0x02
  const CursorLeftCode: Byte := 0x10
  const CursorRightCode: Byte := 0x14
  const DisplayLeftCode: Byte := 0x18
  const DisplayRightCode: Byte := 0x1C

  function Repeat(b: Byte, n: nat): (r: seq<Byte>)
    ensures |r| == n
    ensures forall i :: 0 <= i < n ==> r[i] == b
  {
    seq(n, _ => b)
  }

  /** How often `for (int i = 0; i < n; i++)` runs its body. */
  function Count(n: int): (c: nat)
  {
    if n > 0 then n else 0
  }

  /** Loads `code` as an instruction-register write and sends it `n` times. */
  function Shift(st: LcdState, code: Byte, n: int): (r: Step)
    ensures r.state.instruction == code && r.state.readWrite == 0 && r.state.registerSelect == 0
    ensures AgreeExcept(r.state, st, {Instruction, ReadWrite, RegisterSelect})
    ensures |r.trace| == 9 * Count(n)
  {
    var s := st.(readWrite := 0, registerSelect := 0, instruction := code);
    Step(s, SendBytes(s, Repeat(code, Count(n))))
  }

  function CursorShiftLeft(st: LcdState, n: int): (r: Step)
    ensures r.state.instruction == CursorLeftCode && r.state.readWrite == 0 && r.state.registerSelect == 0
    ensures AgreeExcept(r.state, st, {Instruction, ReadWrite, RegisterSelect})
    ensures n <= 0 ==> r.trace == []
  {
    Shift(st, CursorLeftCode, n)
  }

  function CursorShiftRight(st: LcdState, n: int): (r: Step)
    ensures r.state.instruction == CursorRightCode && r.state.readWrite == 0 && r.state.registerSelect == 0
    ensures AgreeExcept(r.state, st, {Instruction, ReadWrite, RegisterSelect})
    ensures n <= 0 ==> r.trace == []
  {
    Shift(st, CursorRightCode, n)
  }

  function DisplayShiftLeft(st: LcdState, n: int): (r: Step)
    ensures r.state.instruction == DisplayLeftCode && r.state.readWrite == 0 && r.state.registerSelect == 0
    ensures AgreeExcept(r.state, st, {Instruction, ReadWrite, RegisterSelect})
    ensures n <= 0 ==> r.trace == []
  {
    Shift(st, DisplayLeftCode, n)
  }

  function DisplayShiftRight(st: LcdState, n: int): (r: Step)
    ensures r.state.instruction == DisplayRightCode && r.state.readWrite == 0 && r.state.registerSelect == 0
    ensures AgreeExcept(r.state, st, {Instruction, ReadWrite, RegisterSelect})
    ensures n <= 0 ==> r.trace == []
  {
    Shift(st, DisplayRightCode, n)
  }

  /** A shift by `n` sends its code max(n, 0) times to the instruction register. */
  lemma ShiftDelivers(st: LcdState, code: Byte, n: int)
    ensures Delivers(Shift(st, code, n).trace, Repeat(code, Count(n)), 0, 0, st.backlight)
  {
    SendBytesDelivers(st.(readWrite := 0, registerSelect := 0, instruction := code), Repeat(code, Count(n)));
  }

  /** Each of the four shifts by `n` is max(n, 0) identical transfers of its
      code: 0x10 cursor left, 0x14 cursor right, 0x18 display left, 0x1C
      display right. */
  lemma ShiftsDeliver(st: LcdState, n: int)
    ensures Delivers(CursorShiftLeft(st, n).trace, Repeat(0x10, Count(n)), 0, 0, st.backlight)
    ensures Delivers(CursorShiftRight(st, n).trace, Repeat(0x14, Count(n)), 0, 0, st.backlight)
    ensures Delivers(DisplayShiftLeft(st, n).trace, Repeat(0x18, Count(n)), 0, 0, st.backlight)
    ensures Delivers(DisplayShiftRight(st, n).trace, Repeat(0x1C, Count(n)), 0, 0, st.backlight)
  {
    ShiftDelivers(st, CursorLeftCode, n);
    ShiftDelivers(st, CursorRightCode, n);
    ShiftDelivers(st, DisplayLeftCode, n);
    ShiftDelivers(st, DisplayRightCode, n);
  }

  /** The instruction `lcd_cursor` builds for a row: 0x10, with the second-line
      bit 0x04 merged in for row 1, then masked with 0x10, which discards that
      bit again. */
  function RowInstruction(row: Byte): (code: Byte)
    ensures code == CursorLeftCode
  {
    var c: Byte := 0x10;
    var c' := if row == 1 then c | 0x04 else c;
    c' & 0x10
  }

  /** Meant to set the DDRAM address of `row`, but sends the cursor-left shift
      that `RowInstruction` leaves for every row; then `col` cursor-right shifts. */
  function Cursor(st: LcdState, row: Byte, col: Byte): (r: Step)
    ensures r.state.readWrite == 0 && r.state.registerSelect == 0
    ensures r.state.instruction == (if col == 0 then CursorLeftCode else CursorRightCode)
    ensures AgreeExcept(r.state, st, {Instruction, ReadWrite, RegisterSelect})
    ensures |r.trace| == 9 * (1 + col as int)
  {
    var s := st.(readWrite := 0, registerSelect := 0, instruction := RowInstruction(row));
    var first := SendInstruction(s);
    if col == 0 then Step(s, first)
    else
      var shifted := CursorShiftRight(s, col as int);
      assert |shifted.trace| == 9 * col as int;
      Step(shifted.state, first + shifted.trace)
  }

  /** Whatever the row, the cursor positioning sends one cursor-left shift and
      then `col` cursor-right shifts, all to the instruction register. */
  lemma CursorDelivers(st: LcdState, row: Byte, col: Byte)
    ensures Delivers(Cursor(st, row, col).trace, [CursorLeftCode] + Repeat(CursorRightCode, col as int), 0, 0, st.backlight)
  {
    var s := st.(readWrite := 0, registerSelect := 0, instruction := CursorLeftCode);
    var first := SendInstruction(s);
    SendInstructionDelivers(s);
    if col == 0 {
      assert Cursor(st, row, col).trace == first;
      assert [CursorLeftCode] + Repeat(CursorRightCode, 0) == [CursorLeftCode];
    } else {
      var shifted := CursorShiftRight(s, col as int);
      assert Cursor(st, row, col).trace == first + shifted.trace;
      ShiftDelivers(s, CursorRightCode, col as int);
      DeliversAppend(first, shifted.trace, [CursorLeftCode], Repeat(CursorRightCode, col as int), 0, 0, st.backlight);
    }
  }

  /** The row argument has no effect on what is sent. */
  lemma CursorIgnoresRow(st: LcdState, row: Byte, col: Byte)
    ensures Cursor(st, row, col) == Cursor(st, 0, col)
  {
  }

  /** Clear display keeps register select and read/write as they are. */
  function Clear(st: LcdState): (r: Step)
    ensures r.state.instruction == ClearDisplayCode
    ensures AgreeExcept(r.state, st, {Instruction})
    ensures |r.trace| == 9
  {
    var s := st.(instruction := ClearDisplayCode);
    Step(s, SendInstruction(s))
  }

  lemma ClearDelivers(st: LcdState)
    ensures Delivers(Clear(st).trace, [ClearDisplayCode], st.registerSelect, st.readWrite, st.backlight)
  {
    SendInstructionDelivers(Clear(st).state);
  }

  function ReturnHome(st: LcdState): (r: Step)
    ensures r.state.instruction == ReturnHomeCode && r.state.readWrite == 0 && r.state.registerSelect == 0
    ensures AgreeExcept(r.state, st, {Instruction, ReadWrite, RegisterSelect})
    ensures |r.trace| == 9
  {
    var s := st.(readWrite := 0, registerSelect := 0, instruction := ReturnHomeCode);
    Step(s, SendInstruction(s))
  }

  lemma ReturnHomeDelivers(st: LcdState)
    ensures Delivers(ReturnHome(st).trace, [ReturnHomeCode], 0, 0, st.backlight)
  {
    SendInstructionDelivers(ReturnHome(st).state);
  }

  /** The display on/off control instruction `0 0 0 0 1 D C B` with D given and
      C, B taken from the cursor flags: the cursor bits are shifted in, then
      0x08 (display off) or 0x0C (display on) is or-ed over them. */
  function DisplayControl(st: LcdState, display: Bit): (c: Byte)
    ensures HighNibble(c) == 0 && BitAt(c, 3) == 1 && BitAt(c, 2) == display
    ensures BitAt(c, 1) == st.cursorOn && BitAt(c, 0) == st.cursorBlink
  {
    var base: Byte := if display == 1 then 0x0C else 0x08;
    ((((0x00 | st.cursorOn as Byte) << 1) | st.cursorBlink as Byte) | base)
  }

  /** Sends display control with D = 0; register select and read/write are left
      as they are. */
  function DisplayOff(st: LcdState): (r: Step)
    ensures HighNibble(r.state.instruction) == 0 && BitAt(r.state.instruction, 3) == 1
    ensures BitAt(r.state.instruction, 2) == 0
    ensures BitAt(r.state.instruction, 1) == st.cursorOn && BitAt(r.state.instruction, 0) == st.cursorBlink
    ensures AgreeExcept(r.state, st, {Instruction})
    ensures |r.trace| == 9
  {
    var s := st.(instruction := DisplayControl(st, 0));
    Step(s, SendInstruction(s))
  }

  lemma DisplayOffDelivers(st: LcdState)
    ensures Delivers(DisplayOff(st).trace, [DisplayOff(st).state.instruction], st.registerSelect, st.readWrite, st.backlight)
  {
    SendInstructionDelivers(DisplayOff(st).state);
  }

  /** Sends display control with D = 1; register select and read/write are left
      as they are. */
  function DisplayOn(st: LcdState): (r: Step)
    ensures HighNibble(r.state.instruction) == 0 && BitAt(r.state.instruction, 3) == 1
    ensures BitAt(r.state.instruction, 2) == 1
    ensures BitAt(r.state.instruction, 1) == st.cursorOn && BitAt(r.state.instruction, 0) == st.cursorBlink
    ensures AgreeExcept(r.state, st, {Instruction})
    ensures |r.trace| == 9
  {
    var s := st.(instruction := DisplayControl(st, 1));
    Step(s, SendInstruction(s))
  }

  lemma DisplayOnDelivers(st: LcdState)
    ensures Delivers(DisplayOn(st).trace, [DisplayOn(st).state.instruction], st.registerSelect, st.readWrite, st.backlight)
  {
    SendInstructionDelivers(DisplayOn(st).state);
  }

  /** Function set `0 0 1 DL N F - -` with DL = 0 and F = 0; N = 1 exactly when
      two lines are asked for. */
  function SetLines(st: LcdState, lines: int): (r: Step)
    ensures HighNibble(r.state.instruction) == 0x2
    ensures BitAt(r.state.instruction, 3) == 1 <==> lines == 2
    ensures r.state.instruction & 0x07 == 0
    ensures r.state.readWrite == 0 && r.state.registerSelect == 0
    ensures AgreeExcept(r.state, st, {Instruction, ReadWrite, RegisterSelect})
    ensures |r.trace| == 9
  {
    var s0 := st.(readWrite := 0, registerSelect := 0, instruction := 0x20);
    var s := if lines == 2 then s0.(instruction := s0.instruction | 0x08) else s0;
    Step(s, SendInstruction(s))
  }

  lemma SetLinesDelivers(st: LcdState, lines: int)
    ensures Delivers(SetLines(st, lines).trace, [SetLines(st, lines).state.instruction], 0, 0, st.backlight)
  {
    SendInstructionDelivers(SetLines(st, lines).state);
  }

  /** Length of the C string at the start of `text`: the index of its first NUL,
      or all of `text` when it has none. */
  function StrLen(text: seq<Byte>): (n: nat)
    ensures n <= |text|
    ensures forall i :: 0 <= i < n ==> text[i] != 0
    ensures n < |text| ==> text[n] == 0
  {
    if |text| == 0 || text[0] == 0 then 0 else 1 + StrLen(text[1..])
  }

  /** Writes each character before the NUL to the data register, in order. The
      string must be NUL-terminated within its first 256 bytes: the loop index
      is a `uint8_t`. */
  function Print(st: LcdState, text: seq<Byte>): (r: Step)
    requires StrLen(text) < |text| && StrLen(text) < 256
    ensures r.state.registerSelect == 1 && r.state.readWrite == 0
    ensures r.state.instruction == if StrLen(text) == 0 then st.instruction else text[StrLen(text) - 1]
    ensures AgreeExcept(r.state, st, {Instruction, ReadWrite, RegisterSelect})
    ensures |r.trace| == 9 * StrLen(text)
  {
    var s := st.(readWrite := 0, registerSelect := 1);
    var chars := text[..StrLen(text)];
    Step(if |chars| == 0 then s else s.(instruction := chars[|chars| - 1]), SendBytes(s, chars))
  }

  /** A print delivers exactly the characters before the NUL, in order, to the
      data register. */
  lemma PrintDelivers(st: LcdState, text: seq<Byte>)
    requires StrLen(text) < |text| && StrLen(text) < 256
    ensures Delivers(Print(st, text).trace, text[..StrLen(text)], 1, 0, st.backlight)
  {
    SendBytesDelivers(st.(readWrite := 0, registerSelect := 1), text[..StrLen(text)]);
  }

  /** The driver's loop as written: an index walks the string until it reads a
      NUL, reloading the instruction and sending it for each character. The
      index is a `uint8_t` in the driver; the precondition keeps it below 256. */
  method PrintLoop(st: LcdState, text: seq<Byte>) returns (r: Step)
    requires StrLen(text) < |text| && StrLen(text) < 256
    ensures r == Print(st, text)
  {
    var base := st.(readWrite := 0, registerSelect := 1);
    var s := base;
    var trace: Trace := [];
    var i := 0;
    while text[i] != 0
      invariant i <= StrLen(text)
      invariant s == if i == 0 then base else base.(instruction := text[i - 1])
      invariant trace == SendBytes(base, text[..i])
      decreases StrLen(text) - i
    {
      s := s.(instruction := text[i]);
      PrintStep(base, text, i);
      trace := trace + SendInstruction(s);
      i := i + 1;
    }
    r := Step(s, trace);
  }

  /** One more character extends the transfers by one. */
  lemma PrintStep(base: LcdState, text: seq<Byte>, k: nat)
    requires k < |text|
    ensures SendBytes(base, text[..k + 1]) == SendBytes(base, text[..k]) + SendInstruction(base.(instruction := text[k]))
  {
    SendBytesAppend(base, text[..k], [text[k]]);
    assert text[..k + 1] == text[..k] + [text[k]];
    assert SendBytes(base, [text[k]]) == SendInstruction(base.(instruction := text[k])) + SendBytes(base, []);
  }

  /** After a print, clear and display on/off still travel with register select
      set, so the controller takes them as character data. */
  lemma CommandsAfterPrintGoToDataRegister(st: LcdState, text: seq<Byte>)
    requires StrLen(text) < |text| && StrLen(text) < 256
    ensures var s := Print(st, text).state;
      && Delivers(Clear(s).trace, [ClearDisplayCode], 1, 0, st.backlight)
      && Delivers(DisplayOn(s).trace, [DisplayOn(s).state.instruction], 1, 0, st.backlight)
      && Delivers(DisplayOff(s).trace, [DisplayOff(s).state.instruction], 1, 0, st.backlight)
  {
    var s := Print(st, text).state;
    ClearDelivers(s);
    DisplayOnDelivers(s);
    DisplayOffDelivers(s);
  }

  function BacklightOff(st: LcdState): (r: Step)
    ensures r.trace == [] && r.state.backlight == 0
    ensures AgreeExcept(r.state, st, {Backlight})
  {
    Step(st.(backlight := 0), [])
  }

  function BacklightOn(st: LcdState): (r: Step)
    ensures r.trace == [] && r.state.backlight == 1
    ensures AgreeExcept(r.state, st, {Backlight})
  {
    Step(st.(backlight := 1), [])
  }

  /** The complement of a one-bit field. */
  function BacklightToggle(st: LcdState): (r: Step)
    ensures r.trace == [] && r.state.backlight != st.backlight
    ensures AgreeExcept(r.state, st, {Backlight})
  {
    Step(st.(backlight := !st.backlight), [])
  }

  lemma BacklightToggleTwice(st: LcdState)
    ensures BacklightToggle(BacklightToggle(st).state).state == st
  {
  }

  function CursorBlinkOff(st: LcdState): (r: Step)
    ensures r.trace == [] && r.state.cursorBlink == 0
    ensures AgreeExcept(r.state, st, {CursorBlinkFlag})
  {
    Step(st.(cursorBlink := 0), [])
  }

  function CursorBlinkOn(st: LcdState): (r: Step)
    ensures r.trace == [] && r.state.cursorBlink == 1
    ensures AgreeExcept(r.state, st, {CursorBlinkFlag})
  {
    Step(st.(cursorBlink := 1), [])
  }

  function CursorOff(st: LcdState): (r: Step)
    ensures r.trace == [] && r.state.cursorOn == 0
    ensures AgreeExcept(r.state, st, {CursorOnFlag})
  {
    Step(st.(cursorOn := 0), [])
  }

  function CursorOn(st: LcdState): (r: Step)
    ensures r.trace == [] && r.state.cursorOn == 1
    ensures AgreeExcept(r.state, st, {CursorOnFlag})
  {
    Step(st.(cursorOn := 1), [])
  }
}
