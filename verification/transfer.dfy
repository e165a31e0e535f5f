/** The instruction encoder and transfer engine: one 8-bit instruction becomes
    one I2C transaction carrying its high nibble and then its low nibble, each
    written with the enable line high and then low (the 4-bit interface of the
    Hitachi HD44780U). Also a receiver-side decoder, used to state what a
    trace conveys independently of how the encoder builds it. */
module Transfer {
  import opened Bus
  import opened Session

  /** The backpack's I2C address byte, write direction. */
  const LcdAddress: Byte := 0x7E

  /** The four control lines of the backpack, in the low nibble of every byte:
      backlight (bit 3), enable (bit 2), read/write (bit 1), register select (bit 0). */
  datatype Control = Control(backlight: Bit, enable: Bit, readWrite: Bit, registerSelect: Bit)

  function DecodeControl(w: Byte): (k: Control)
  {
    Control(BitAt(w, 3), BitAt(w, 2), BitAt(w, 1), BitAt(w, 0))
  }

  /** Shifts the four lines into a byte, most significant first. */
  function EncodeControl(k: Control): (c: Byte)
    ensures c < 0x10
    ensures DecodeControl(c) == k
  {
    ((((((k.backlight as Byte) << 1) | k.enable as Byte) << 1) | k.readWrite as Byte) << 1)
      | k.registerSelect as Byte
  }

  /** Every value below 0x10 is the encoding of the control lines it decodes to. */
  lemma EncodeDecodeControl(c: Byte)
    requires c < 0x10
    ensures EncodeControl(DecodeControl(c)) == c
  {
  }

  /** The control nibble for the session's current flags, with the given enable level. */
  function ControlNibble(st: LcdState, enable: Bit): (c: Byte)
    ensures c < 0x10
    ensures DecodeControl(c) == Control(st.backlight, enable, st.readWrite, st.registerSelect)
    ensures enable == 1 ==> c == ControlNibble(st, 0) | 0x04
    ensures enable == 0 ==> c & 0x04 == 0
  {
    EncodeControl(Control(st.backlight, enable, st.readWrite, st.registerSelect))
  }

  /** The four data writes of one transfer. */
  function NibbleWrites(st: LcdState): (ws: seq<Byte>)
    ensures |ws| == 4
    // the high nibble goes first, the low nibble second, each on the upper data lines
    ensures HighNibble(ws[0]) == HighNibble(st.instruction)
    ensures HighNibble(ws[2]) == LowNibble(st.instruction)
    // reading the two data nibbles back gives the instruction
    ensures (ws[0] & 0xF0) | (ws[2] >> 4) == st.instruction
    // enable is high on the data writes, low on the writes that follow them
    ensures LowNibble(ws[0]) == LowNibble(ws[2]) == ControlNibble(st, 1)
    ensures ws[1] == ws[3] == ControlNibble(st, 0)
    ensures HighNibble(ws[1]) == 0
    ensures DecodeControl(ws[0]) == DecodeControl(ws[2]) == Control(st.backlight, 1, st.readWrite, st.registerSelect)
  {
    var conEnabled := ControlNibble(st, 1);
    var conDisabled := ControlNibble(st, 0);
    [ (st.instruction & 0xF0) | conEnabled,
      conDisabled,
      ((st.instruction << 4) & 0xF0) | conEnabled,
      conDisabled ]
  }

  /** One I2C transaction addressed to the backpack around the given writes:
      the settle delay, a start condition and the address byte, then the writes
      in order, then a stop condition and the settle delay. */
  function Frame(ws: seq<Byte>): (t: Trace)
    ensures |t| == |ws| + 5
    ensures t[0] == Wait && t[1] == Start && t[2] == Write(LcdAddress)
    ensures t[|t| - 2] == Stop && t[|t| - 1] == Wait
    ensures forall i :: 0 <= i < |ws| ==> t[i + 3] == Write(ws[i])
  {
    [Wait, Start, Write(LcdAddress)] + seq(|ws|, i requires 0 <= i < |ws| => Write(ws[i])) + [Stop, Wait]
  }

  /** Sends the session's instruction byte with its current flags. */
  function SendInstruction(st: LcdState): (t: Trace)
    ensures |t| == 9
    ensures t[0] == Wait && t[1] == Start && t[2] == Write(LcdAddress) && t[7] == Stop && t[8] == Wait
    ensures var ws := NibbleWrites(st);
      t[3] == Write(ws[0]) && t[4] == Write(ws[1]) && t[5] == Write(ws[2]) && t[6] == Write(ws[3])
  {
    Frame(NibbleWrites(st))
  }

  /** The backlight line is carried on every data write of a transfer, enable
      pulses included. */
  lemma BacklightOnEveryWrite(st: LcdState)
    ensures forall i :: 3 <= i < 7 ==> SendInstruction(st)[i].Write? && BitAt(SendInstruction(st)[i].b, 3) == st.backlight
  {
    SendInstructionEvents(st);
  }

  /** The nine events of a transfer, spelled out. */
  lemma SendInstructionEvents(st: LcdState)
    ensures var ws := NibbleWrites(st);
      SendInstruction(st) == [Wait, Start, Write(LcdAddress), Write(ws[0]), Write(ws[1]), Write(ws[2]), Write(ws[3]), Stop, Wait]
  {
  }

  /** The decoder reads back the instruction and the session's lines from the
      transfer the encoder produces. */
  lemma SendInstructionParses(st: LcdState)
    ensures ParseTransfer(SendInstruction(st)) == Some(Latched(st.instruction, st.registerSelect, st.readWrite, st.backlight))
  {
    var ws := NibbleWrites(st);
    var t := SendInstruction(st);
    SendInstructionEvents(st);
    assert t[3] == Write(ws[0]) && t[4] == Write(ws[1]) && t[5] == Write(ws[2]) && t[6] == Write(ws[3]);
    NibbleWritesDecode(st);
  }

  /** The four writes of a transfer decode to its instruction and lines. */
  lemma NibbleWritesDecode(st: LcdState)
    ensures var ws := NibbleWrites(st);
      DecodeWrites(ws[0], ws[1], ws[2], ws[3]) == Some(Latched(st.instruction, st.registerSelect, st.readWrite, st.backlight))
  {
    var ws := NibbleWrites(st);
    assert IsPulse(ws[0], ws[1]) && IsPulse(ws[2], ws[3]);
    assert (HighNibble(ws[0]) << 4) | HighNibble(ws[2]) == st.instruction;
  }

  /** What a receiver reads from one transfer: the byte and the lines that framed it. */
  datatype Latched = Latched(value: Byte, registerSelect: Bit, readWrite: Bit, backlight: Bit)

  /** `on` raises enable and `off` drops it, with the other control lines held and
      the data lines at zero. */
  predicate IsPulse(on: Byte, off: Byte)
  {
    && DecodeControl(on).enable == 1
    && off < 0x10
    && DecodeControl(off) == DecodeControl(on).(enable := 0)
  }

  /** Reads one nine-event transfer: the frame, then two enable pulses under the
      same control lines; the byte is the two data nibbles, high one first. */
  function ParseTransfer(t: Trace): (r: Option<Latched>)
  {
    if |t| != 9 then None
    else if !(t[0] == Wait && t[1] == Start && t[2] == Write(LcdAddress) && t[7] == Stop && t[8] == Wait) then None
    else if !(t[3].Write? && t[4].Write? && t[5].Write? && t[6].Write?) then None
    else DecodeWrites(t[3].b, t[4].b, t[5].b, t[6].b)
  }

  /** Two enable pulses under the same control lines; the byte is the two data
      nibbles, high one first. */
  function DecodeWrites(hi: Byte, hiOff: Byte, lo: Byte, loOff: Byte): (r: Option<Latched>)
  {
    if IsPulse(hi, hiOff) && IsPulse(lo, loOff) && LowNibble(hi) == LowNibble(lo) then
      var k := DecodeControl(hi);
      Some(Latched((HighNibble(hi) << 4) | HighNibble(lo), k.registerSelect, k.readWrite, k.backlight))
    else None
  }

  /** Reads a trace as consecutive transfers; `None` unless it splits exactly. */
  function ParseTransfers(t: Trace): (r: Option<seq<Latched>>)
  {
    ParseRun(ParseTransfer, t)
  }

  /** Splits a trace into nine-event pieces and reads each with `parse`. */
  function ParseRun(parse: Trace -> Option<Latched>, t: Trace): (r: Option<seq<Latched>>)
    decreases |t|
  {
    if |t| == 0 then Some([])
    else if |t| < 9 then None
    else Prepend(parse(t[..9]), ParseRun(parse, t[9..]))
  }

  function Prepend(head: Option<Latched>, tail: Option<seq<Latched>>): (r: Option<seq<Latched>>)
  {
    if head.Some? && tail.Some? then Some([head.value] + tail.value) else None
  }

  /** `t` is a run of transfers that convey exactly `bytes`, in order, all under
      the given register-select, read/write and backlight lines. */
  predicate Delivers(t: Trace, bytes: seq<Byte>, rs: Bit, rw: Bit, bl: Bit)
  {
    var p := ParseTransfers(t);
    && p.Some?
    && |p.value| == |bytes|
    && forall i :: 0 <= i < |bytes| ==> p.value[i] == Latched(bytes[i], rs, rw, bl)
  }

  /** One transfer per byte, in order, each with the session's flags. */
  function SendBytes(st: LcdState, bytes: seq<Byte>): (t: Trace)
    ensures |t| == 9 * |bytes|
    decreases |bytes|
  {
    if |bytes| == 0 then []
    else SendInstruction(st.(instruction := bytes[0])) + SendBytes(st, bytes[1..])
  }

  /** Sending `a + b` is sending `a` and then `b`. */
  lemma {:induction false} SendBytesAppend(st: LcdState, a: seq<Byte>, b: seq<Byte>)
    ensures SendBytes(st, a + b) == SendBytes(st, a) + SendBytes(st, b)
    decreases |a|
  {
    if |a| == 0 {
      assert a + b == b;
    } else {
      assert (a + b)[0] == a[0];
      assert (a + b)[1..] == a[1..] + b;
      SendBytesAppend(st, a[1..], b);
    }
  }

  /** Decoding the transfers of a byte sequence gives that sequence back, with
      the session's register-select, read/write and backlight lines on each. */
  lemma {:induction false} SendBytesDelivers(st: LcdState, bytes: seq<Byte>)
    ensures Delivers(SendBytes(st, bytes), bytes, st.registerSelect, st.readWrite, st.backlight)
    decreases |bytes|
  {
    if |bytes| > 0 {
      var t := SendBytes(st, bytes);
      var head := SendInstruction(st.(instruction := bytes[0]));
      var rest := SendBytes(st, bytes[1..]);
      assert t[..9] == head;
      assert t[9..] == rest;
      SendInstructionParses(st.(instruction := bytes[0]));
      SendBytesDelivers(st, bytes[1..]);
      var ls := ParseTransfers(rest).value;
      assert ParseTransfers(t) == Some([Latched(bytes[0], st.registerSelect, st.readWrite, st.backlight)] + ls);
      forall i | 0 <= i < |bytes|
        ensures ParseTransfers(t).value[i] == Latched(bytes[i], st.registerSelect, st.readWrite, st.backlight)
      {
        if i > 0 {
          assert ParseTransfers(t).value[i] == ls[i - 1];
        }
      }
    }
  }

  /** A single transfer delivers the session's instruction byte. */
  lemma SendInstructionDelivers(st: LcdState)
    ensures Delivers(SendInstruction(st), [st.instruction], st.registerSelect, st.readWrite, st.backlight)
  {
    var t := SendInstruction(st);
    SendInstructionParses(st);
    assert t[..9] == t;
    assert t[9..] == [];
    assert ParseTransfers(t[9..]) == Some([]);
    var l := Latched(st.instruction, st.registerSelect, st.readWrite, st.backlight);
    assert ParseTransfer(t[..9]) == Some(l);
    assert [l] + [] == [l];
    assert ParseTransfers(t) == Some([Latched(st.instruction, st.registerSelect, st.readWrite, st.backlight)]);
  }

  /** Decoding is compositional: the transfers of `a + b` are those of `a`
      followed by those of `b`. */
  lemma ParseTransfersAppend(a: Trace, b: Trace)
    requires ParseTransfers(a).Some? && ParseTransfers(b).Some?
    ensures ParseTransfers(a + b) == Some(ParseTransfers(a).value + ParseTransfers(b).value)
  {
    ParseRunAppend(ParseTransfer, a, b);
  }

  /** Reading a concatenation of runs reads each run in turn, whatever reads
      the single pieces. */
  lemma {:induction false} ParseRunAppend(parse: Trace -> Option<Latched>, a: Trace, b: Trace)
    requires ParseRun(parse, a).Some? && ParseRun(parse, b).Some?
    ensures ParseRun(parse, a + b) == Some(ParseRun(parse, a).value + ParseRun(parse, b).value)
    decreases |a|
  {
    if |a| == 0 {
      assert a + b == b;
      assert [] + ParseRun(parse, b).value == ParseRun(parse, b).value;
    } else {
      var l := parse(a[..9]).value;
      var ra := ParseRun(parse, a[9..]).value;
      var rb := ParseRun(parse, b).value;
      assert ParseRun(parse, a) == Some([l] + ra);
      ParseRunAppend(parse, a[9..], b);
      var ab := a + b;
      assert ab[..9] == a[..9];
      assert ab[9..] == a[9..] + b;
      assert ParseRun(parse, ab) == Some([l] + (ra + rb));
      assert [l] + (ra + rb) == ([l] + ra) + rb;
    }
  }

  lemma DeliversAppend(a: Trace, b: Trace, xs: seq<Byte>, ys: seq<Byte>, rs: Bit, rw: Bit, bl: Bit)
    requires Delivers(a, xs, rs, rw, bl) && Delivers(b, ys, rs, rw, bl)
    ensures Delivers(a + b, xs + ys, rs, rw, bl)
  {
    ParseTransfersAppend(a, b);
    var p := ParseTransfers(a + b).value;
    forall i | 0 <= i < |xs + ys|
      ensures p[i] == Latched((xs + ys)[i], rs, rw, bl)
    {
      if i >= |xs| {
        assert p[i] == ParseTransfers(b).value[i - |xs|];
      }
    }
  }

  /** A decoded transfer determines its events: the encoder is the only way to
      produce a trace the decoder accepts. */
  lemma ParseTransferExact(t: Trace, st: LcdState)
    requires ParseTransfer(t) == Some(Latched(st.instruction, st.registerSelect, st.readWrite, st.backlight))
    ensures t == SendInstruction(st)
  {
    var s := SendInstruction(st);
    assert EncodeControl(DecodeControl(t[4].b)) == t[4].b by { EncodeDecodeControl(t[4].b); }
    assert EncodeControl(DecodeControl(t[6].b)) == t[6].b by { EncodeDecodeControl(t[6].b); }
    forall i | 0 <= i < 9
      ensures t[i] == s[i]
    {
    }
  }
}
