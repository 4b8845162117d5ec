/**
 * Small shared vocabulary: an optional value (Java's nullable references),
 * the outcome of a Java call that may throw, and Java's primitive integer
 * ranges.
 */
module Common {

  /** A Java reference that may be null. */
  datatype Option<+T> = None | Some(value: T)

  /** The Java exceptions the modelled code can raise. */
  datatype JavaException =
    | NullPointer
    | IndexOutOfBounds
    | IllegalState(message: string)

  /** The result of a Java call: a returned value or a thrown exception. */
  datatype Outcome<+T> = Returned(value: T) | Thrown(exception: JavaException)

  const IntMin: int := -0x8000_0000
  const IntMax: int := 0x7fff_ffff
  const LongMax: int := 0x7fff_ffff_ffff_ffff

  predicate IsInt32(x: int) {
    IntMin <= x <= IntMax
  }

  /** Java `int` arithmetic: the two's-complement wrap of a mathematical result. */
  function Wrap32(x: int): (r: int)
    ensures IsInt32(r)
    ensures (r - x) % 0x1_0000_0000 == 0
    ensures IsInt32(x) ==> r == x
  {
    (x - IntMin) % 0x1_0000_0000 + IntMin
  }
}
