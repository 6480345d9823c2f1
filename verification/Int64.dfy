/** Signed 64-bit arithmetic as Rust defines it: truncating division, wrapping
    operations, and bitwise operations on the two's-complement pattern. */
module Int64 {
  const MIN: int := -0x8000_0000_0000_0000
  const MAX: int := 0x7fff_ffff_ffff_ffff
  const MODULUS: int := 0x1_0000_0000_0000_0000

  type i64 = x: int | MIN <= x <= MAX

  predicate Fits(x: int) {
    MIN <= x <= MAX
  }

  /** Two's-complement wrap-around into i64. */
  function Wrap(x: int): (r: i64)
    ensures Fits(x) ==> r == x
    ensures exists q: int :: x == r + q * MODULUS
  {
    var m := (x - MIN) % MODULUS;
    assert x == m + MIN + ((x - MIN) / MODULUS) * MODULUS;
    m + MIN
  }

  function Abs(x: int): nat {
    if x < 0 then -x else x
  }

  function Min(a: int, b: int): int {
    if a <= b then a else b
  }

  function Max(a: int, b: int): int {
    if a <= b then b else a
  }

  /** Division rounding toward zero. */
  function TruncDiv(a: int, b: int): int
    requires b != 0
  {
    if (a < 0) == (b < 0) then Abs(a) / Abs(b) else -(Abs(a) / Abs(b))
  }

  /** Remainder with the sign of the dividend. */
  function TruncMod(a: int, b: int): int
    requires b != 0
  {
    if a < 0 then -(Abs(a) % Abs(b)) else Abs(a) % Abs(b)
  }

  function Pow2(n: nat): (r: nat)
    ensures r > 0
  {
    if n == 0 then 1 else 2 * Pow2(n - 1)
  }

  datatype BitOp = BAnd | BOr | BXor

  function BitOne(op: BitOp, x: bool, y: bool): bool {
    match op
    case BAnd => x && y
    case BOr => x || y
    case BXor => x != y
  }

  /** The low `n` bits of a bitwise operation, the sign being bit `n`. */
  function Bitwise(op: BitOp, x: int, y: int, n: nat): (r: int)
    ensures 0 - Pow2(n) <= r < Pow2(n)
    decreases n
  {
    if n == 0 then
      if BitOne(op, x < 0, y < 0) then -1 else 0
    else
      (if BitOne(op, x % 2 == 1, y % 2 == 1) then 1 else 0) + 2 * Bitwise(op, x / 2, y / 2, n - 1)
  }

  lemma Pow2Of63()
    ensures Pow2(63) == -MIN
  {
    assert Pow2(7) == 128;
    assert Pow2(14) == 0x4000 by { Pow2Add(7, 7); }
    assert Pow2(28) == 0x1000_0000 by { Pow2Add(14, 14); }
    assert Pow2(56) == 0x100_0000_0000_0000 by { Pow2Add(28, 28); }
    Pow2Add(56, 7);
  }

  lemma {:induction false} Pow2Add(a: nat, b: nat)
    ensures Pow2(a + b) == Pow2(a) * Pow2(b)
  {
    if a > 0 {
      Pow2Add(a - 1, b);
    }
  }

  function BitI64(op: BitOp, x: i64, y: i64): i64 {
    Pow2Of63();
    Bitwise(op, x, y, 63)
  }

  function BitNotI64(x: i64): i64 {
    -1 - x
  }

  /** `wrapping_shl`: the count is masked to six bits. */
  function Shl(x: i64, count: i64): i64 {
    Wrap(x * Pow2(count % 64))
  }

  /** Logical right shift of the 64-bit pattern. */
  function Shr(x: i64, count: i64): i64 {
    Wrap((x % MODULUS) / Pow2(count % 64))
  }
}
