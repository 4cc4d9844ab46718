/**
 * C++ integer semantics that differ from Dafny's unbounded Euclidean arithmetic:
 * truncating `/` and `%`, unsigned `size_t` wrap-around and the narrowing
 * conversion of a `size_t` back to a 32-bit `int`.
 */
module CInt {

  const SizeModulus: int := 0x1_0000_0000_0000_0000
  const IntModulus: int := 0x1_0000_0000
  /** INT16_MAX from <cstdint>. */
  const Int16Max: int := 32767

  /** C++ `a / b` for a positive divisor: the quotient is truncated toward zero. */
  function Div(a: int, b: int): (q: int)
    requires b > 0
    ensures 0 <= a ==> q == a / b
    ensures a < 0 ==> q <= 0 && -q == (-a) / b
  {
    if a >= 0 then a / b else -((-a) / b)
  }

  /** C++ `a % b` for a positive divisor: the remainder takes the sign of `a`. */
  function Rem(a: int, b: int): (r: int)
    requires b > 0
    ensures 0 <= a ==> r == a % b
    ensures a < 0 ==> -b < r <= 0
    ensures a == b * Div(a, b) + r
  {
    if a >= 0 then a % b else -((-a) % b)
  }

  /** `a - b` computed in `size_t`: wraps modulo 2^64. */
  function SizeSub(a: nat, b: nat): (r: nat)
    requires a < SizeModulus && b < SizeModulus
    ensures r < SizeModulus
    ensures b <= a ==> r == a - b
    ensures a < b ==> r == SizeModulus + a - b
  {
    (a - b) % SizeModulus
  }

  /** A `size_t` returned as `int`: keeps the low 32 bits, read as two's complement. */
  function ToInt32(u: nat): (r: int)
    ensures -IntModulus / 2 <= r < IntModulus / 2
    ensures u < IntModulus / 2 ==> r == u
  {
    var low := u % IntModulus;
    if low < IntModulus / 2 then low else low - IntModulus
  }
}
