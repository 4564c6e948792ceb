/** Shared result types and small integer helpers used across the model. */
module Common {

  /** The outcome of a routine that may stop the program with an
      assertion failure (`AssertFatal`) instead of returning. */
  datatype Outcome<+T> = Ok(value: T) | Fatal

  /** Either a value or a negative status code returned to the caller. */
  datatype Status<+T> = Done(value: T) | Failed(code: int)

  datatype Option<+T> = None | Some(value: T)

  /** An octet (`uint8_t`). */
  type Byte = x: int | 0 <= x < 256

  function Min(a: int, b: int): (r: int)
    ensures r <= a && r <= b && (r == a || r == b)
  {
    if a <= b then a else b
  }

  function Max(a: int, b: int): (r: int)
    ensures r >= a && r >= b && (r == a || r == b)
  {
    if a >= b then a else b
  }

  /** Two's-complement narrowing of an integer to 16 bits. */
  function Wrap16(x: int): (r: int)
    ensures -32768 <= r < 32768
    ensures (r - x) % 65536 == 0
  {
    (x + 32768) % 65536 - 32768
  }

  /** The most negative 32-bit `int` (`INT_MIN`). */
  const IntMin := -0x8000_0000

  /** Two's-complement wrap of a 32-bit `int`: what an overflowing
      `int` expression evaluates to on the targets the code runs on. */
  function Wrap32(x: int): (r: int)
    ensures IntMin <= r < -IntMin
    ensures (r - x) % 0x1_0000_0000 == 0
    ensures IntMin <= x < -IntMin ==> r == x
  {
    (x + 0x8000_0000) % 0x1_0000_0000 - 0x8000_0000
  }

  /** Unsigned narrowing to `bits` bits (modular reduction). */
  function WrapU(x: int, bits: nat): (r: nat)
    ensures r < Pow2(bits)
  {
    x % Pow2(bits)
  }

  function Pow2(n: nat): (r: nat)
    ensures r >= 1
  {
    if n == 0 then 1 else 2 * Pow2(n - 1)
  }

  /** Powers of two grow with the exponent. */
  lemma {:induction false} PowMonotone(a: nat, b: nat)
    requires a <= b
    ensures Pow2(a) <= Pow2(b)
    decreases b
  {
    if a < b {
      PowMonotone(a, b - 1);
    }
  }

  /** Ceiling division of a natural number by a positive divisor. */
  function CeilDiv(a: nat, b: nat): (r: nat)
    requires b > 0
    ensures r * b >= a && (r == 0 || (r - 1) * b < a)
  {
    (a + b - 1) / b
  }

  /** Bit `i` of an unsigned value, as `(x >> i) & 1` tests it. */
  predicate BitSet(x: nat, i: nat) {
    (x / Pow2(i)) % 2 == 1
  }

  /** A sequence of 0/1 flags. */
  predicate IsBitVector(bits: seq<nat>) {
    forall i :: 0 <= i < |bits| ==> bits[i] <= 1
  }

  /** Number of set bits of an unsigned value (`__builtin_popcount`). */
  function Popcount(x: nat): (r: nat)
    ensures x == 0 ==> r == 0
  {
    if x == 0 then 0 else x % 2 + Popcount(x / 2)
  }

  /** C's `/` on signed operands: the quotient rounds toward zero. */
  function TruncDiv(a: int, b: int): (q: int)
    requires b > 0
    ensures a >= 0 ==> q == a / b
  {
    if a >= 0 then a / b else -((-a) / b)
  }

  /** C's `%` on signed operands: the remainder takes the sign of the
      dividend, so that a == TruncDiv(a, b) * b + TruncMod(a, b). */
  function TruncMod(a: int, b: int): (r: int)
    requires b > 0
    ensures a >= 0 ==> r == a % b
    ensures -b < r < b && (r < 0 ==> a < 0)
    ensures a == TruncDiv(a, b) * b + r
  {
    if a >= 0 then a % b else -((-a) % b)
  }
}
