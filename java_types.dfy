/** The Java primitive integer types and the exceptions the date utilities throw. */
module JavaTypes {

  const INT_MIN: int := -0x8000_0000
  const INT_MAX: int := 0x7FFF_FFFF
  const LONG_MIN: int := -0x8000_0000_0000_0000
  const LONG_MAX: int := 0x7FFF_FFFF_FFFF_FFFF

  /** Java `int`. */
  type Int = x: int | INT_MIN <= x <= INT_MAX

  /** Java `long`. */
  type Long = x: int | LONG_MIN <= x <= LONG_MAX

  /** Two's-complement wrap-around of a mathematical result into `int`, as Java's `+` and `-` do. */
  function WrapInt(x: int): (r: Int)
    ensures (r - x) % 0x1_0000_0000 == 0
    ensures INT_MIN <= x <= INT_MAX ==> r == x
  {
    (x - INT_MIN) % 0x1_0000_0000 + INT_MIN
  }

  /** The exceptions that escape from the modelled operations. */
  datatype Exception =
    | IllegalArgument(message: string)
    | NullPointer
}
