/** Types shared by every property manager and by the editor registry. */
module Common {

  /** An opaque property handle (a `QtProperty *`). Only its identity matters. */
  class Property {
    constructor () {}
  }

  /** The C++ `int` of the managers: 32-bit two's complement. */
  newtype Int32 = x: int | -0x8000_0000 <= x <= 0x7fff_ffff

  /** `INT_MAX` */
  const IntMax: Int32 := 0x7fff_ffff

  datatype Option<+T> = None | Some(value: T)
}
