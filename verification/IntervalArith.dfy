/** Checked interval arithmetic on i64 endpoints. `None` stands for a refusal. */
module IntervalArith {
  import opened Int64
  import opened Ast
  import opened Interp

  datatype Interval = Interval(lo: i64, hi: i64)

  predicate Within(x: int, i: Interval) { i.lo <= x <= i.hi }

  predicate IsArith(op: BinOp) { op in {Add, Sub, Mul, Div, Mod} }

  function Min4(a: int, b: int, c: int, d: int): int { Int64.Min(Int64.Min(a, b), Int64.Min(c, d)) }
  function Max4(a: int, b: int, c: int, d: int): int { Int64.Max(Int64.Max(a, b), Int64.Max(c, d)) }

  function MulEnds(a: int, b: int, c: int, d: int): (int, int) {
    (Min4(a * c, a * d, b * c, b * d), Max4(a * c, a * d, b * c, b * d))
  }

  function DivEnds(a: int, b: int, c: int, d: int): (int, int)
    requires c != 0 && d != 0
  {
    (Min4(TruncDiv(a, c), TruncDiv(a, d), TruncDiv(b, c), TruncDiv(b, d)),
     Max4(TruncDiv(a, c), TruncDiv(a, d), TruncDiv(b, c), TruncDiv(b, d)))
  }

  function ModEnds(a: int, b: int, c: int, d: int): (int, int) {
    var limit := Int64.Max(Int64.Abs(c), Int64.Abs(d)) - 1;
    (Int64.Max(Int64.Min(a, 0), -limit), Int64.Min(Int64.Max(b, 0), limit))
  }

  /** The unclamped result endpoints. */
  function Endpoints(op: BinOp, p: Interval, q: Interval): (int, int)
    requires IsArith(op)
    requires op.Div? || op.Mod? ==> q.lo != 0 && q.hi != 0
  {
    match op
    case Add => (p.lo + q.lo, p.hi + q.hi)
    case Sub => (p.lo - q.hi, p.hi - q.lo)
    case Mul => MulEnds(p.lo, p.hi, q.lo, q.hi)
    case Div => DivEnds(p.lo, p.hi, q.lo, q.hi)
    case Mod => ModEnds(p.lo, p.hi, q.lo, q.hi)
  }

  function Arithmetic(op: BinOp, p: Interval, q: Interval): Option<Interval>
    requires p.lo <= p.hi && q.lo <= q.hi
  {
    if !IsArith(op) then None
    else if (op.Div? || op.Mod?) && (Within(0, q) || (p.lo == MIN && Within(-1, q))) then None
    else
      InBox(op, p, q, p.lo, q.lo);
      var (lo, hi) := Endpoints(op, p, q);
      if lo < MIN || hi > MAX then None else Some(Interval(lo, hi))
  }

  /** The exact (unbounded) result of one operation. */
  function Exact(op: BinOp, x: int, y: int): int
    requires IsArith(op)
    requires op.Div? || op.Mod? ==> y != 0
  {
    match op
    case Add => x + y
    case Sub => x - y
    case Mul => x * y
    case Div => TruncDiv(x, y)
    case Mod => TruncMod(x, y)
  }

  /** Evaluating `x op y` on i64 cannot fault. */
  predicate Defined(op: BinOp, x: i64, y: i64)
    requires IsArith(op)
  {
    && ((op.Div? || op.Mod?) ==> y != 0 && !(x == MIN && y == -1))
    && Fits(Exact(op, x, y))
  }

  lemma MulMono(a: int, b: int, y: int)
    requires a <= b
    ensures if y >= 0 then a * y <= b * y else b * y <= a * y
  {
    if y >= 0 {
      assert (b - a) * y >= 0;
    } else {
      assert (b - a) * (0 - y) >= 0;
    }
  }

  lemma MulInBox(a: int, b: int, c: int, d: int, x: int, y: int)
    requires a <= x <= b && c <= y <= d
    ensures MulEnds(a, b, c, d).0 <= x * y <= MulEnds(a, b, c, d).1
  {
    MulMono(a, x, y);
    MulMono(x, b, y);
    MulMono(c, y, a);
    MulMono(y, d, a);
    MulMono(c, y, b);
    MulMono(y, d, b);
  }

  /** Quotients are ordered as the products that witness them are. */
  lemma QuotientOrder(p: nat, q: nat, y: nat, n: nat)
    requires y * p <= n < y * (q + 1)
    ensures p <= q
  {
    if p >= q + 1 {
      MulMono(q + 1, p, y);
    }
  }

  lemma DivUp(a: nat, b: nat, y: nat)
    requires a <= b && y > 0
    ensures a / y <= b / y
  {
    QuotientOrder(a / y, b / y, y, b);
  }

  lemma DivDown(x: nat, y: nat, z: nat)
    requires 0 < y <= z
    ensures x / z <= x / y
  {
    MulMono(y, z, x / z);
    QuotientOrder(x / z, x / y, y, x);
  }

  lemma TruncMono(a: int, b: int, y: int)
    requires a <= b && y != 0
    ensures if y > 0 then TruncDiv(a, y) <= TruncDiv(b, y) else TruncDiv(b, y) <= TruncDiv(a, y)
  {
    var n := Int64.Abs(y);
    if a >= 0 {
      DivUp(a, b, n);
    } else if b < 0 {
      DivUp(0 - b, 0 - a, n);
    } else {
      assert Int64.Abs(a) / n >= 0 && Int64.Abs(b) / n >= 0;
    }
  }

  lemma DivDenominator(x: int, c: int, y: int, d: int)
    requires c <= y <= d && (d < 0 || c > 0)
    ensures Int64.Min(TruncDiv(x, c), TruncDiv(x, d)) <= TruncDiv(x, y) <= Int64.Max(TruncDiv(x, c), TruncDiv(x, d))
  {
    if c > 0 {
      DivDown(Int64.Abs(x), c, y);
      DivDown(Int64.Abs(x), y, d);
    } else {
      DivDown(Int64.Abs(x), 0 - d, 0 - y);
      DivDown(Int64.Abs(x), 0 - y, 0 - c);
    }
  }

  lemma DivInBox(a: int, b: int, c: int, d: int, x: int, y: int)
    requires a <= x <= b && c <= y <= d && (d < 0 || c > 0)
    ensures DivEnds(a, b, c, d).0 <= TruncDiv(x, y) <= DivEnds(a, b, c, d).1
  {
    TruncMono(a, x, y);
    TruncMono(x, b, y);
    DivDenominator(a, c, y, d);
    DivDenominator(b, c, y, d);
  }

  lemma ModInBox(a: int, b: int, c: int, d: int, x: int, y: int)
    requires a <= x <= b && c <= y <= d && (d < 0 || c > 0)
    ensures ModEnds(a, b, c, d).0 <= TruncMod(x, y) <= ModEnds(a, b, c, d).1
  {
    RemainderSmall(Int64.Abs(x), Int64.Abs(y));
  }

  lemma RemainderSmall(n: nat, y: nat)
    requires y > 0
    ensures n % y <= n && n % y < y
  {
    MulMono(0, n / y, y);
  }

  lemma InBox(op: BinOp, p: Interval, q: Interval, x: int, y: int)
    requires IsArith(op) && Within(x, p) && Within(y, q)
    requires op.Div? || op.Mod? ==> !Within(0, q)
    ensures var (lo, hi) := Endpoints(op, p, q); lo <= Exact(op, x, y) <= hi
  {
    match op
    case Add =>
    case Sub =>
    case Mul => MulInBox(p.lo, p.hi, q.lo, q.hi, x, y);
    case Div => DivInBox(p.lo, p.hi, q.lo, q.hi, x, y);
    case Mod => ModInBox(p.lo, p.hi, q.lo, q.hi, x, y);
  }

  /** Soundness: an accepted interval operation is defined on every pair of
      members, and its value is a member of the computed interval. */
  lemma ArithmeticSound(op: BinOp, p: Interval, q: Interval, x: i64, y: i64)
    requires IsArith(op) && Within(x, p) && Within(y, q) && Arithmetic(op, p, q).Some?
    ensures Defined(op, x, y)
    ensures Within(Exact(op, x, y), Arithmetic(op, p, q).value)
  {
    InBox(op, p, q, x, y);
  }

  /** Every endpoint except a remainder's is the result at some corner. */
  lemma EndpointsAttained(op: BinOp, p: Interval, q: Interval) returns (x: i64, y: i64, x': i64, y': i64)
    requires IsArith(op) && !op.Mod? && p.lo <= p.hi && q.lo <= q.hi
    requires op.Div? ==> !Within(0, q)
    ensures x in {p.lo, p.hi} && y in {q.lo, q.hi} && x' in {p.lo, p.hi} && y' in {q.lo, q.hi}
    ensures Endpoints(op, p, q) == (Exact(op, x, y), Exact(op, x', y'))
  {
    var (lo, hi) := Endpoints(op, p, q);
    if op.Sub? {
      return p.lo, q.hi, p.hi, q.lo;
    }
    x, y := p.lo, q.lo;
    if Exact(op, p.lo, q.hi) == lo { x, y := p.lo, q.hi; }
    if Exact(op, p.hi, q.lo) == lo { x, y := p.hi, q.lo; }
    if Exact(op, p.hi, q.hi) == lo { x, y := p.hi, q.hi; }
    if Exact(op, p.lo, q.lo) == lo { x, y := p.lo, q.lo; }
    x', y' := p.hi, q.hi;
    if Exact(op, p.lo, q.hi) == hi { x', y' := p.lo, q.hi; }
    if Exact(op, p.hi, q.lo) == hi { x', y' := p.hi, q.lo; }
    if Exact(op, p.lo, q.lo) == hi { x', y' := p.lo, q.lo; }
  }

  lemma DivShrinks(x: int, y: int)
    requires y != 0
    ensures Int64.Abs(TruncDiv(x, y)) <= Int64.Abs(x)
    ensures Int64.Abs(y) >= 2 && x != 0 ==> Int64.Abs(TruncDiv(x, y)) < Int64.Abs(x)
  {
    var a, b := Int64.Abs(x), Int64.Abs(y);
    assert a == b * (a / b) + a % b;
    MulMono(1, b, a / b);
    if b >= 2 {
      MulMono(2, b, a / b);
    }
  }

  /** Exactness of refusals, for all five operators: an interval operation is
      refused only when some pair of members really faults. */
  lemma RefusalIsReal(op: BinOp, p: Interval, q: Interval) returns (x: i64, y: i64)
    requires IsArith(op) && p.lo <= p.hi && q.lo <= q.hi && Arithmetic(op, p, q).None?
    ensures Within(x, p) && Within(y, q) && !Defined(op, x, y)
  {
    if (op.Div? || op.Mod?) && Within(0, q) {
      return p.lo, 0;
    }
    if (op.Div? || op.Mod?) && p.lo == MIN && Within(-1, q) {
      return MIN, -1;
    }
    if op.Mod? {
      assert false;
    }
    var a, b, a', b' := EndpointsAttained(op, p, q);
    if op.Div? {
      DivShrinks(a, b);
      DivShrinks(a', b');
    }
    if Exact(op, a, b) < MIN {
      return a, b;
    }
    return a', b';
  }

  /** Soundness and exact refusal together. */
  lemma ArithmeticExact(op: BinOp, p: Interval, q: Interval)
    requires IsArith(op) && p.lo <= p.hi && q.lo <= q.hi
    ensures Arithmetic(op, p, q).Some? <==>
            forall x: i64, y: i64 | Within(x, p) && Within(y, q) :: Defined(op, x, y)
  {
    if Arithmetic(op, p, q).Some? {
      forall x: i64, y: i64 | Within(x, p) && Within(y, q)
        ensures Defined(op, x, y)
      {
        ArithmeticSound(op, p, q, x, y);
      }
    } else {
      var x, y := RefusalIsReal(op, p, q);
    }
  }

  /** The evaluator on a defined operation returns the exact result, wrapping or not. */
  lemma DefinedEvaluates(m: Sem, op: BinOp, x: i64, y: i64)
    requires IsArith(op) && Defined(op, x, y)
    ensures ApplyBinary(m, op, VNumber(x), VNumber(y)) == Good(VNumber(Exact(op, x, y)))
  {
  }
}
