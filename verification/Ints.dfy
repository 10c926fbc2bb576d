/** Machine integers. */
module Ints {

  /** A C++ `int`. */
  type int32 = i: int | -0x8000_0000 <= i < 0x8000_0000
}
