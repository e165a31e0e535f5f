/** The driver's session record: the instruction to transfer next and the
    five one-bit flags that are folded into every byte sent to the backpack. */
module Session {
  import opened Bus

  datatype LcdState = LcdState(
    instruction: Byte,
    backlight: Bit,
    readWrite: Bit,
    registerSelect: Bit,
    cursorOn: Bit,
    cursorBlink: Bit)

  /** The record's static initialiser: backlight, cursor and blink on. */
  const Default: LcdState := LcdState(0x00, 1, 0, 0, 1, 1)

  /** The result of one driver operation: the record afterwards and what was
      put on the bus, in order. */
  datatype Step = Step(state: LcdState, trace: Trace)

  datatype Field = Instruction | Backlight | ReadWrite | RegisterSelect | CursorOnFlag | CursorBlinkFlag

  function Get(st: LcdState, f: Field): (v: int)
  {
    match f
    case Instruction => st.instruction as int
    case Backlight => st.backlight as int
    case ReadWrite => st.readWrite as int
    case RegisterSelect => st.registerSelect as int
    case CursorOnFlag => st.cursorOn as int
    case CursorBlinkFlag => st.cursorBlink as int
  }

  /** `a` and `b` hold the same value in every field outside `changed`. */
  predicate AgreeExcept(a: LcdState, b: LcdState, changed: set<Field>)
  {
    forall f :: f !in changed ==> Get(a, f) == Get(b, f)
  }
}
