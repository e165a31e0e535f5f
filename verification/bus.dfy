/** The I2C bus as the driver sees it: the master primitives and the settle
    delay become events in a trace, and bytes are 8-bit vectors. */
module Bus {

  /** One byte on the I2C bus; also the width of the controller's instructions. */
  type Byte = bv8

  /** One line of the backpack: a C one-bit bit-field. */
  type Bit = bv1

  datatype Option<+T> = None | Some(value: T)

  /** What the driver does to the outside world. `Wait` is the settle delay,
      with no duration attached; the others are the I2C master primitives. */
  datatype Event = Wait | Start | Stop | Write(b: Byte)

  type Trace = seq<Event>

  /** Bit `k` of `b`, counting from the least significant. */
  function BitAt(b: Byte, k: Byte): (r: Bit)
    requires k < 8
  {
    ((b >> k) & 1) as Bit
  }

  /** Bits 7..4 of `b`, moved down to 3..0. */
  function HighNibble(b: Byte): (r: Byte)
  {
    b >> 4
  }

  /** Bits 3..0 of `b`. */
  function LowNibble(b: Byte): (r: Byte)
  {
    b & 0x0F
  }
}
