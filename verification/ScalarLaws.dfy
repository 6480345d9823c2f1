/** What the number and text builtins mean, apart from how they are computed. */
module ScalarLaws {
  import opened Int64
  import opened Ast
  import opened TextOps

  // ----- decimal text -----

  lemma {:induction false} DigitsRead(n: nat)
    ensures DigitsValue(Digits(n)) == Some(n)
    ensures forall i | 0 <= i < |Digits(n)| :: IsDigit(Digits(n)[i])
  {
    var s := Digits(n);
    if n < 10 {
      assert s[..0] == [] && DigitsValue(s[..0]) == Some(0);
    } else {
      DigitsRead(n / 10);
      assert s[..|s| - 1] == Digits(n / 10);
    }
  }

  lemma TrimKeeps(s: Bytes)
    requires s != [] && !IsSpace(s[0]) && !IsSpace(s[|s| - 1])
    ensures Trim(s) == s
  {
  }

  /** Printing a number and parsing the text gives it back. */
  lemma DecimalParses(n: i64)
    ensures ParseI64(Decimal(n)) == Some(n)
  {
    var digits := Digits(Int64.Abs(n));
    DigitsRead(Int64.Abs(n));
    var s := Decimal(n);
    if n < 0 {
      assert s == [45] + digits && s[1..] == digits;
    }
    TrimKeeps(s);
  }

  // ----- little-endian bytes -----

  function Pow256(n: nat): (r: nat)
    ensures r > 0
  {
    if n == 0 then 1 else 256 * Pow256(n - 1)
  }

  /** The bytes weighted by the powers of 256. */
  function Weighted(s: Bytes): nat {
    if s == [] then 0 else s[0] + 256 * Weighted(s[1..])
  }

  /** The i-th byte weighs 256^i. */
  lemma {:induction false} LittleEndianWeighs(x: nat, width: nat)
    ensures Weighted(LittleEndian(x, width)) == x % Pow256(width)
  {
    if width == 0 {
      assert x % 1 == 0;
    } else {
      var s := LittleEndian(x, width);
      LittleEndianWeighs(x / 256, width - 1);
      assert s[1..] == LittleEndian(x / 256, width - 1);
      SplitMod(x, Pow256(width - 1));
    }
  }

  lemma SplitMod(x: nat, m: nat)
    requires m > 0
    ensures x % (256 * m) == x % 256 + 256 * ((x / 256) % m)
  {
    var q, r := x / 256, x % 256;
    var a, b := q / m, q % m;
    assert x == 256 * q + r && q == a * m + b;
    assert x == a * (256 * m) + (256 * b + r) by {
      assert 256 * (a * m) == a * (256 * m);
    }
    assert 256 * b + r < 256 * m;
    DivisionUnique(x, 256 * m, a, 256 * b + r);
  }

  /** A quotient and a remainder below the divisor are determined. */
  lemma SameQuotient(d: nat, q: int, r: int, q': int, r': int)
    requires 0 <= r < d && 0 <= r' < d && q * d + r == q' * d + r'
    ensures q == q' && r == r'
  {
    Gap(d, q, q');
    Gap(d, q', q);
  }

  lemma {:induction false} Gap(d: nat, a: int, b: int)
    ensures a < b ==> b * d >= a * d + d
    decreases b - a
  {
    if a < b {
      Gap(d, a, b - 1);
      assert b * d == (b - 1) * d + d;
    }
  }

  lemma DivisionUnique(x: int, d: nat, q: int, r: int)
    requires d > 0 && x == q * d + r && 0 <= r < d
    ensures x % d == r && x / d == q
  {
    var q', r' := x / d, x % d;
    assert q' * d + r' == x;
    SameQuotient(d, q, r, q', r');
  }

  lemma Pow256Widths()
    ensures Pow256(4) == 0x1_0000_0000 && Pow256(8) == MODULUS
  {
    assert Pow256(2) == 65536;
    assert Pow256(4) == 256 * (256 * Pow256(2));
    assert Pow256(6) == 256 * (256 * Pow256(4));
    assert Pow256(8) == 256 * (256 * Pow256(6));
  }

  lemma LowWord(n: int)
    ensures (n % MODULUS) % 0x1_0000_0000 == n % 0x1_0000_0000
  {
    var w: nat := 0x1_0000_0000;
    var a, m := n / MODULUS, n % MODULUS;
    var b, l := m / w, m % w;
    assert n == (a * w + b) * w + l;
    DivisionUnique(n, w, a * w + b, l);
  }

  /** The four bytes of `le32` are the number modulo 2^32, the eight of `le64`
      the number modulo 2^64. */
  lemma LittleEndianModulo(n: i64)
    ensures Weighted(LittleEndian(n % MODULUS, 4)) == n % 0x1_0000_0000
    ensures Weighted(LittleEndian(n % MODULUS, 8)) == n % MODULUS
  {
    var m: nat := n % MODULUS;
    LittleEndianWeighs(m, 4);
    LittleEndianWeighs(m, 8);
    Pow256Widths();
    LowWord(n);
  }

  // ----- division -----

  /** Quotient and remainder rebuild the dividend; the remainder is smaller than
      the divisor and has the sign of the dividend. */
  lemma TruncDivMod(a: int, b: int)
    requires b != 0
    ensures a == TruncDiv(a, b) * b + TruncMod(a, b)
    ensures Int64.Abs(TruncMod(a, b)) < Int64.Abs(b) && (a >= 0 ==> TruncMod(a, b) >= 0) &&
      (a <= 0 ==> TruncMod(a, b) <= 0)
  {
    var x: int, y: int := Int64.Abs(a), Int64.Abs(b);
    var q: int, r: int := x / y, x % y;
    assert x == q * y + r;
    Signs(q, y);
  }

  lemma Signs(q: int, y: int)
    ensures (0 - q) * y == 0 - q * y && (0 - q) * (0 - y) == q * y && q * (0 - y) == 0 - q * y
  {
  }

  // ----- bits -----

  /** The i-th bit of the two's-complement pattern. */
  predicate Bit(x: int, i: nat)
    decreases i
  {
    if i == 0 then x % 2 == 1 else Bit(x / 2, i - 1)
  }

  lemma {:induction false} BitwiseBits(op: BitOp, x: int, y: int, n: nat, i: nat)
    requires i < n
    ensures Bit(Bitwise(op, x, y, n), i) == BitOne(op, Bit(x, i), Bit(y, i))
    decreases n
  {
    var r := Bitwise(op, x / 2, y / 2, n - 1);
    var b := if BitOne(op, x % 2 == 1, y % 2 == 1) then 1 else 0;
    assert Bitwise(op, x, y, n) == b + 2 * r && (b + 2 * r) / 2 == r && (b + 2 * r) % 2 == b;
    if i > 0 {
      BitwiseBits(op, x / 2, y / 2, n - 1, i - 1);
    }
  }

  lemma {:induction false} SignBit(x: int, n: nat)
    requires 0 - Pow2(n) <= x < Pow2(n)
    ensures Bit(x, n) <==> x < 0
    decreases n
  {
    if n == 0 {
      assert x == -1 || x == 0;
    } else {
      assert Pow2(n) == 2 * Pow2(n - 1);
      SignBit(x / 2, n - 1);
    }
  }

  lemma {:induction false} BitwiseSign(op: BitOp, x: int, y: int, n: nat)
    requires 0 - Pow2(n) <= x < Pow2(n) && 0 - Pow2(n) <= y < Pow2(n)
    ensures Bitwise(op, x, y, n) < 0 <==> BitOne(op, x < 0, y < 0)
    decreases n
  {
    if n > 0 {
      assert Pow2(n) == 2 * Pow2(n - 1);
      BitwiseSign(op, x / 2, y / 2, n - 1);
    }
  }

  /** `band`, `bor` and `bxor` work bit by bit, on all 64 bits. */
  lemma BitI64Bits(op: BitOp, x: i64, y: i64, i: nat)
    requires i < 64
    ensures Bit(BitI64(op, x, y), i) == BitOne(op, Bit(x, i), Bit(y, i))
  {
    Pow2Of63();
    if i < 63 {
      BitwiseBits(op, x, y, 63, i);
    } else {
      SignBit(x, 63);
      SignBit(y, 63);
      SignBit(BitI64(op, x, y), 63);
      BitwiseSign(op, x, y, 63);
    }
  }

  /** `bnot` turns every bit over. */
  lemma {:induction false} BitNotBits(x: int, i: nat)
    ensures Bit(-1 - x, i) == !Bit(x, i)
    decreases i
  {
    if i > 0 {
      assert (-1 - x) / 2 == -1 - x / 2;
      BitNotBits(x / 2, i - 1);
    }
  }

  /** Multiples of 2^n leave the bits below n alone. */
  lemma {:induction false} BitsBelow(x: int, q: int, n: nat, i: nat)
    requires i < n
    ensures Bit(x + q * Pow2(n), i) == Bit(x, i)
    decreases i
  {
    var h := q * Pow2(n - 1);
    assert q * Pow2(n) == 2 * h;
    assert (x + 2 * h) / 2 == x / 2 + h && (x + 2 * h) % 2 == x % 2;
    if i > 0 {
      BitsBelow(x / 2, q, n - 1, i - 1);
    }
  }

  lemma {:induction false} BitsAbove(x: nat, n: nat, i: nat)
    requires x < Pow2(n) && n <= i
    ensures !Bit(x, i)
    decreases i
  {
    if n > 0 {
      BitsAbove(x / 2, n - 1, i - 1);
    } else if i > 0 {
      BitsAbove(0, 0, i - 1);
    }
  }

  lemma Pow2Of64()
    ensures Pow2(64) == MODULUS
  {
    Pow2Of63();
    assert Pow2(64) == 2 * Pow2(63);
  }

  /** Wrapping keeps the low 64 bits. */
  lemma WrapBits(x: int, i: nat)
    requires i < 64
    ensures Bit(Wrap(x), i) == Bit(x, i)
  {
    Pow2Of64();
    var q: int :| x == Wrap(x) + q * MODULUS;
    BitsBelow(Wrap(x), q, 64, i);
  }

  lemma {:induction false} TimesBits(x: int, m: nat, i: nat)
    ensures Bit(x * Pow2(m), i) == (m <= i && Bit(x, i - m))
    decreases m
  {
    if m > 0 {
      var h := x * Pow2(m - 1);
      assert x * Pow2(m) == 2 * h && (2 * h) / 2 == h && (2 * h) % 2 == 0;
      if i > 0 {
        TimesBits(x, m - 1, i - 1);
      }
    } else {
      assert x * Pow2(0) == x;
    }
  }

  lemma {:induction false} OverBits(x: int, m: nat, i: nat)
    ensures Bit(x / Pow2(m), i) == Bit(x, i + m)
    decreases m
  {
    if m > 0 {
      OverBits(x / 2, m - 1, i);
      HalfFirst(x, Pow2(m - 1));
    }
  }

  lemma HalfFirst(x: int, d: nat)
    requires d > 0
    ensures x / (2 * d) == (x / 2) / d
  {
    var q, r := (x / 2) / d, (x / 2) % d;
    assert x == 2 * (d * q + r) + x % 2 == (2 * d) * q + (2 * r + x % 2);
    DivisionUnique(x, 2 * d, q, 2 * r + x % 2);
  }

  /** `shl` moves the bits up by the count modulo 64, filling with zeros. */
  lemma ShlBits(x: i64, n: i64, i: nat)
    requires i < 64
    ensures Bit(Int64.Shl(x, n), i) == (n % 64 <= i && Bit(x, i - n % 64))
  {
    WrapBits(x * Pow2(n % 64), i);
    TimesBits(x, n % 64, i);
  }

  /** `shr` moves them down, filling with zeros whatever the sign. */
  lemma ShrBits(x: i64, n: i64, i: nat)
    requires i < 64
    ensures Bit(Int64.Shr(x, n), i) == (i + n % 64 < 64 && Bit(x, i + n % 64))
  {
    var m := n % 64;
    WrapBits((x % MODULUS) / Pow2(m), i);
    OverBits(x % MODULUS, m, i);
    PatternBits(x, i + m);
  }

  /** The unsigned reading of the 64-bit pattern. */
  lemma PatternBits(x: i64, i: nat)
    ensures Bit(x % MODULUS, i) == (i < 64 && Bit(x, i))
  {
    Pow2Of64();
    if i < 64 {
      assert x == x % MODULUS + (x / MODULUS) * Pow2(64);
      BitsBelow(x % MODULUS, x / MODULUS, 64, i);
    } else {
      BitsAbove(x % MODULUS, 64, i);
    }
  }

  // ----- text -----

  lemma PrefixSplits(h: Bytes, n: Bytes)
    ensures HasPrefix(h, n) <==> exists b: Bytes :: h == n + b
  {
    if HasPrefix(h, n) {
      assert h == n + h[|n|..];
    }
    if b: Bytes :| h == n + b {
      assert h[..|n|] == n;
    }
  }

  lemma SuffixSplits(h: Bytes, n: Bytes)
    ensures HasSuffix(h, n) <==> exists a: Bytes :: h == a + n
  {
    if HasSuffix(h, n) {
      assert h == h[..|h| - |n|] + n;
    }
    if a: Bytes :| h == a + n {
      assert h[|h| - |n|..] == n;
    }
  }

  /** `contains` finds its argument anywhere. */
  lemma InfixSplits(h: Bytes, n: Bytes)
    ensures HasInfix(h, n) <==> exists a: Bytes, b: Bytes :: h == a + n + b
  {
    if HasInfix(h, n) {
      var i :| 0 <= i <= |h| && HasPrefix(h[i..], n);
      assert h == h[..i] + n + h[i..][|n|..];
    }
    if a: Bytes, b: Bytes :| h == a + n + b {
      assert h[|a|..] == n + b;
      assert HasPrefix(h[|a|..], n);
    }
  }
}
