/** Present/absent values and success/failure results, standing in for Java's
    nullable references and thrown exceptions throughout the model. */
module Wrappers {

  /** A possibly-null reference: None is Java's null. */
  datatype Option<+T> = None | Some(value: T)

  /** The outcome of a Java call that either returns or throws. */
  datatype Result<+T, +E> = Success(value: T) | Failure(error: E)
}

/** Java's 32-bit `int` and the arithmetic on it that the model needs. */
module JavaInt {

  const MinInt: int := -0x8000_0000
  const MaxInt: int := 0x7fff_ffff

  /** Values of Java's `int` (and of a non-null `Integer`). */
  type int32 = x: int | MinInt <= x <= MaxInt

  /** Two's-complement wrap-around of an exact integer into `int` range. */
  function WrapInt(x: int): (r: int32)
    ensures (r - x) % 0x1_0000_0000 == 0
    ensures MinInt <= x <= MaxInt ==> r == x
  {
    var m := (x - MinInt) % 0x1_0000_0000;
    m + MinInt
  }

  /** Java's `a - b` on two `int`s, which wraps on overflow. */
  function Sub(a: int32, b: int32): (r: int32)
    ensures MinInt <= a - b <= MaxInt ==> r == a - b
    ensures (r - (a - b)) % 0x1_0000_0000 == 0
  {
    WrapInt(a - b)
  }
}
