/** The C++ integer types the modelled code works with, where their width
    matters. */
module CInt {

  /** `unsigned int` and DWORD: 32 bits, unsigned. */
  type uint32 = x: int | 0 <= x < 0x1_0000_0000

  /** The largest value of a 32-bit signed `int`. */
  const IntMax: int := 0x7fff_ffff
}
