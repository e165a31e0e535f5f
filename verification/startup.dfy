/** Power-up: raw writes that force the controller into 4-bit mode (figure 24
    of the HD44780U datasheet), then the configuration commands in a fixed
    order. */
module Startup {
  import opened Bus
  import opened Session
  import opened Transfer
  import opened Commands

  /** Function set with DL = 0 on the data lines, backlight on and RS = RW = 0,
      first with enable low, then high, then low again. */
  const RawFunctionSetWrites: seq<Byte> := [0x28, 0x2C, 0x28]

  /** Sends the raw writes in one transaction, between settle delays, without
      going through the nibble encoder and without touching the session. */
  function FunctionSet4Bit(st: LcdState): (r: Step)
    ensures r.state == st
    ensures |r.trace| == 8
    ensures r.trace[0] == Wait && r.trace[1] == Start && r.trace[2] == Write(LcdAddress)
    ensures r.trace[6] == Stop && r.trace[7] == Wait
    ensures forall i :: 3 <= i < 6 ==> r.trace[i].Write? && HighNibble(r.trace[i].b) == 0x2
    ensures DecodeControl(r.trace[3].b) == Control(1, 0, 0, 0)
    ensures DecodeControl(r.trace[4].b) == Control(1, 1, 0, 0)
    ensures DecodeControl(r.trace[5].b) == Control(1, 0, 0, 0)
  {
    Step(st, Frame(RawFunctionSetWrites))
  }

  /** Function set 4-bit, two lines; display on; clear; backlight on. */
  function Init(st: LcdState): (r: Step)
    ensures |r.trace| == 8 + 3 * 9
    ensures r.state.backlight == 1 && r.state.readWrite == 0 && r.state.registerSelect == 0
    ensures r.state.instruction == ClearDisplayCode
    ensures AgreeExcept(r.state, st, {Instruction, Backlight, ReadWrite, RegisterSelect})
  {
    var a := FunctionSet4Bit(st);
    var b := SetLines(a.state, 2);
    var c := DisplayOn(b.state);
    var d := Clear(c.state);
    var e := BacklightOn(d.state);
    Step(e.state, a.trace + b.trace + c.trace + d.trace + e.trace)
  }

  /** Initialisation starts with the raw 4-bit function set, then transfers, in
      this order, function set for two lines, display on with the session's
      cursor flags, and clear display, all to the instruction register. */
  lemma InitSequence(st: LcdState)
    ensures Init(st).trace[..8] == FunctionSet4Bit(st).trace
    ensures Delivers(Init(st).trace[8..], [0x28, DisplayControl(st, 1), ClearDisplayCode], 0, 0, st.backlight)
  {
    var a := FunctionSet4Bit(st);
    var b := SetLines(a.state, 2);
    var c := DisplayOn(b.state);
    var d := Clear(c.state);
    var t := Init(st).trace;
    var rest := b.trace + c.trace + d.trace;
    var e := BacklightOn(d.state);
    assert t == a.trace + b.trace + c.trace + d.trace + e.trace;
    assert e.trace == [];
    assert a.trace + b.trace + c.trace + d.trace + e.trace == a.trace + rest;
    assert |a.trace| == 8;
    assert t[8..] == rest;
    assert t[..8] == a.trace;
    ConfigurationDelivers(st, b, c, d);
  }

  /** The three configuration commands, as one run of transfers. */
  lemma ConfigurationDelivers(st: LcdState, b: Step, c: Step, d: Step)
    requires b == SetLines(st, 2) && c == DisplayOn(b.state) && d == Clear(c.state)
    ensures Delivers(b.trace + c.trace + d.trace, [0x28, DisplayControl(st, 1), ClearDisplayCode], 0, 0, st.backlight)
  {
    assert b.state.instruction == 0x28;
    assert c.state.instruction == DisplayControl(st, 1);
    SetLinesDelivers(st, 2);
    DisplayOnDelivers(b.state);
    ClearDelivers(c.state);
    DeliversThree(b.trace, c.trace, d.trace, 0x28, DisplayControl(st, 1), ClearDisplayCode, st.backlight);
  }

  lemma DeliversThree(b: Trace, c: Trace, d: Trace, x: Byte, y: Byte, z: Byte, bl: Bit)
    requires Delivers(b, [x], 0, 0, bl) && Delivers(c, [y], 0, 0, bl) && Delivers(d, [z], 0, 0, bl)
    ensures Delivers(b + c + d, [x, y, z], 0, 0, bl)
  {
    DeliversAppend(b, c, [x], [y], 0, 0, bl);
    assert [x] + [y] == [x, y];
    DeliversAppend(b + c, d, [x, y], [z], 0, 0, bl);
    assert [x, y] + [z] == [x, y, z];
  }
}

/** Concrete bus traffic from the power-up defaults. */
module Scenarios {
  import opened Bus
  import opened Session
  import opened Transfer
  import opened Commands
  import opened Startup

  /** The events of one transfer whose four data writes are known. */
  lemma TransferIs(st: LcdState, w1: Byte, w2: Byte, w3: Byte, w4: Byte)
    requires NibbleWrites(st) == [w1, w2, w3, w4]
    ensures SendInstruction(st) == [Wait, Start, Write(0x7E), Write(w1), Write(w2), Write(w3), Write(w4), Stop, Wait]
  {
    SendInstructionEvents(st);
  }

  /** From the defaults the three configuration transfers carry 0x28, 0x0F and
      0x01 with the backlight line high, and the session ends ready for commands. */
  lemma InitFromDefault()
    ensures Delivers(Init(Default).trace[8..], [0x28, 0x0F, 0x01], 0, 0, 1)
    ensures Init(Default).state == LcdState(0x01, 1, 0, 0, 1, 1)
    ensures Init(Default).trace ==
      [Wait, Start, Write(0x7E), Write(0x28), Write(0x2C), Write(0x28), Stop, Wait] +
      [Wait, Start, Write(0x7E), Write(0x2C), Write(0x08), Write(0x8C), Write(0x08), Stop, Wait] +
      [Wait, Start, Write(0x7E), Write(0x0C), Write(0x08), Write(0xFC), Write(0x08), Stop, Wait] +
      [Wait, Start, Write(0x7E), Write(0x0C), Write(0x08), Write(0x1C), Write(0x08), Stop, Wait]
  {
    InitSequence(Default);
    assert DisplayControl(Default, 1) == 0x0F;
    var a := FunctionSet4Bit(Default);
    assert a.trace == [Wait, Start, Write(0x7E), Write(0x28), Write(0x2C), Write(0x28), Stop, Wait];
    var b := SetLines(a.state, 2);
    assert b.state == Default.(instruction := 0x28);
    TransferIs(b.state, 0x2C, 0x08, 0x8C, 0x08);
    var c := DisplayOn(b.state);
    assert c.state == Default.(instruction := 0x0F);
    TransferIs(c.state, 0x0C, 0x08, 0xFC, 0x08);
    var d := Clear(c.state);
    assert d.state == Default.(instruction := 0x01);
    TransferIs(d.state, 0x0C, 0x08, 0x1C, 0x08);
    var e := BacklightOn(d.state);
    assert e.trace == [];
    assert Init(Default).trace == a.trace + b.trace + c.trace + d.trace + e.trace;
  }

  /** Printing "HI" after initialisation: two transfers with register select
      high, 'H' = 0x48 and 'I' = 0x49. */
  lemma PrintAfterInit()
    ensures var s := Init(Default).state;
      Print(s, [0x48, 0x49, 0x00]).trace ==
      [Wait, Start, Write(0x7E), Write(0x4D), Write(0x09), Write(0x8D), Write(0x09), Stop, Wait] +
      [Wait, Start, Write(0x7E), Write(0x4D), Write(0x09), Write(0x9D), Write(0x09), Stop, Wait]
  {
    InitFromDefault();
    var text: seq<Byte> := [0x48, 0x49, 0x00];
    assert StrLen(text) == 2;
    assert text[..2] == [0x48, 0x49];
    var s := Init(Default).state.(readWrite := 0, registerSelect := 1);
    assert Print(Init(Default).state, text).trace == SendBytes(s, [0x48, 0x49]);
    assert SendBytes(s, [0x48, 0x49]) == SendInstruction(s.(instruction := 0x48)) + SendBytes(s, [0x49]);
    assert SendBytes(s, [0x49]) == SendInstruction(s.(instruction := 0x49)) + SendBytes(s, []);
    TransferIs(s.(instruction := 0x48), 0x4D, 0x09, 0x8D, 0x09);
    TransferIs(s.(instruction := 0x49), 0x4D, 0x09, 0x9D, 0x09);
  }
}
