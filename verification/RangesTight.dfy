/** The other half of soundness for domains: what an operation or a guard keeps
    is really there, and what it refuses really fails. */
module RangesTight {
  import opened Int64
  import opened Ast
  import opened Interp
  import opened IntervalArith
  import opened Ranges

  // ----- guards -----

  /** Some member of the domain stands in the relation to x. */
  ghost predicate Satisfiable(op: BinOp, x: int, e: Domain) { exists y: int :: Has(e, y) && Compare(op, x, y) }

  lemma Related(op: BinOp, x: int, e: Domain, y: int)
    requires Has(e, y) && Compare(op, x, y)
    ensures Satisfiable(op, x, e)
  {
  }

  /** The third piece that does not fit, the one case in which a guard keeps more. */
  predicate Overfull(op: BinOp, d: Domain, e: Domain) {
    || (op.NotEq? && Hull(e).lo == Hull(e).hi && |RestrictPieces(op, d, Hull(e).lo)| > 2)
    || (op.Eq? && |MeetPieces(d, e)| > 2)
  }

  /** A guard keeps exactly the members that some member of the other side makes
      it true of, unless that takes a third piece; then it keeps them all. */
  lemma ConstrainExact(op: BinOp, d: Domain, e: Domain, x: int)
    requires IsComparison(op) && Canonical(d) && Canonical(e)
    ensures Overfull(op, d, e) ==> Constrain(op, d, e) == Some(d)
    ensures !Overfull(op, d, e) ==>
      ((Constrain(op, d, e).Some? && Has(Constrain(op, d, e).value, x)) <==> Has(d, x) && Satisfiable(op, x, e))
  {
    if Overfull(op, d, e) {
    } else if op.Eq? {
      EqualExact(d, e, x);
    } else if op.NotEq? {
      NotEqualExact(d, e, x);
    } else {
      OrderExact(op, d, e, x);
    }
  }

  lemma OrderExact(op: BinOp, d: Domain, e: Domain, x: int)
    requires op in {Lt, LtEq, Gt, GtEq} && Canonical(d) && Canonical(e)
    ensures (Constrain(op, d, e).Some? && Has(Constrain(op, d, e).value, x)) <==> Has(d, x) && Satisfiable(op, x, e)
  {
    var h := Hull(e);
    assert Has(e, h.lo) && Has(e, h.hi);
    var n := if op.Lt? || op.LtEq? then h.hi else h.lo;
    RestrictExact(op, d, n, x);
    if Compare(op, x, n) {
      Related(op, x, e, n);
    }
  }

  lemma NotEqualExact(d: Domain, e: Domain, x: int)
    requires Canonical(d) && Canonical(e) && !Overfull(NotEq, d, e)
    ensures Constrain(NotEq, d, e).Some? && Has(Constrain(NotEq, d, e).value, x) <==>
            Has(d, x) && Satisfiable(NotEq, x, e)
  {
    var h := Hull(e);
    assert Has(e, h.lo) && Has(e, h.hi);
    if x != h.lo {
      Related(NotEq, x, e, h.lo);
    } else if x != h.hi {
      Related(NotEq, x, e, h.hi);
    }
    if h.lo == h.hi {
      var ps := RestrictPieces(NotEq, d, h.lo);
      RestrictPiecesExact(NotEq, d, h.lo, x);
      CollectCovers(ps, x);
      assert forall p :: p in ps ==> Nonempty(p);
      DropNothing(ps);
      CollectTight(ps, x);
      assert forall y: int | Has(e, y) :: y == h.lo;
    }
  }

  lemma EqualExact(d: Domain, e: Domain, x: int)
    requires Canonical(d) && Canonical(e) && !Overfull(Eq, d, e)
    ensures Constrain(Eq, d, e).Some? && Has(Constrain(Eq, d, e).value, x) <==> Has(d, x) && Satisfiable(Eq, x, e)
  {
    var ps := MeetPieces(d, e);
    MeetExact(d, e, x);
    CollectCovers(ps, x);
    CollectTight(ps, x);
    if Has(e, x) { Related(Eq, x, e, x); }
  }

  // ----- operations -----

  /** The ends of a collected domain are ends of its pieces. */
  lemma CollectEnds(ps: seq<Interval>) returns (p: Interval, q: Interval)
    requires Ranges.Collect(ps).Some? && forall i | i in ps :: Nonempty(i)
    ensures p in ps && q in ps && Hull(Ranges.Collect(ps).value) == Interval(p.lo, q.hi)
  {
    CollectCovers(ps, 0);
    var h := Hull(Ranges.Collect(ps).value);
    var r;
    p, r := CollectInHull(ps, h.lo);
    r, q := CollectInHull(ps, h.hi);
    assert In(ps, p.lo) && In(ps, q.hi);
    CollectCovers(ps, p.lo);
    CollectCovers(ps, q.hi);
  }

  /** The ends of a piecewise result are ends on two pairs of pieces. */
  lemma PairwiseEnds(d: Domain, e: Domain, f: (Interval, Interval) -> Option<Interval>)
    returns (p: Interval, q: Interval, p': Interval, q': Interval)
    requires Canonical(d) && Canonical(e) && Pairwise(d, e, f).Some?
    requires forall p, q | f(p, q).Some? && Nonempty(p) && Nonempty(q) :: Nonempty(f(p, q).value)
    ensures p in Pieces(d) && q in Pieces(e) && p' in Pieces(d) && q' in Pieces(e)
    ensures f(p, q).Some? && f(p', q').Some?
    ensures Hull(Pairwise(d, e, f).value) == Interval(f(p, q).value.lo, f(p', q').value.hi)
  {
    var c := Cross(d, e);
    var r := MapPairs(c, f).value;
    forall i | 0 <= i < |c|
      ensures c[i].0 in Pieces(d) && c[i].1 in Pieces(e) && Nonempty(c[i].0) && Nonempty(c[i].1)
    {
      CrossAt(d, e, i);
    }
    var a, b := CollectEnds(r);
    var i :| 0 <= i < |r| && r[i] == a;
    var j :| 0 <= j < |r| && r[j] == b;
    p, q, p', q' := c[i].0, c[i].1, c[j].0, c[j].1;
  }

  lemma CrossAt(d: Domain, e: Domain, i: nat)
    requires Canonical(d) && Canonical(e) && i < |Cross(d, e)|
    ensures var c := Cross(d, e)[i];
      c.0 in Pieces(d) && c.1 in Pieces(e) && Nonempty(c.0) && Nonempty(c.1)
  {
    assert Pieces(d)[0] == d.first && Pieces(e)[0] == e.first;
    if d.second.Some? { assert Pieces(d)[1] == d.second.value; }
    if e.second.Some? { assert Pieces(e)[1] == e.second.value; }
  }

  lemma PieceMembers(d: Domain, p: Interval, x: int)
    requires p in Pieces(d) && Within(x, p)
    ensures Has(d, x)
  {
    HasIn(d, x);
  }

  lemma ArithPieceEnds(op: BinOp, p: Interval, q: Interval) returns (x: i64, y: i64, x': i64, y': i64)
    requires IsArith(op) && !op.Mod? && ArithOn(op)(p, q).Some?
    ensures Within(x, p) && Within(y, q) && Within(x', p) && Within(y', q) && Defined(op, x, y) && Defined(op, x', y')
    ensures ArithOn(op)(p, q).value == Interval(Exact(op, x, y), Exact(op, x', y'))
  {
    x, y, x', y' := EndpointsAttained(op, p, q);
    ArithmeticSound(op, p, q, x, y);
    ArithmeticSound(op, p, q, x', y');
  }

  lemma ArithNonempty(op: BinOp)
    ensures forall p, q | ArithOn(op)(p, q).Some? && Nonempty(p) && Nonempty(q) :: Nonempty(ArithOn(op)(p, q).value)
  {
    forall p, q | ArithOn(op)(p, q).Some? && Nonempty(p) && Nonempty(q)
      ensures Nonempty(ArithOn(op)(p, q).value)
    {
      ArithmeticSound(op, p, q, p.lo, q.lo);
    }
  }

  /** Sums, differences, products and quotients: both ends are results. */
  lemma ArithEndsTaken(op: BinOp, d: Domain, e: Domain) returns (x: i64, y: i64, x': i64, y': i64)
    requires IsArith(op) && !op.Mod? && Canonical(d) && Canonical(e) && DomainArith(op, d, e).Some?
    ensures Has(d, x) && Has(e, y) && Has(d, x') && Has(e, y') && Defined(op, x, y) && Defined(op, x', y')
    ensures Hull(DomainArith(op, d, e).value) == Interval(Exact(op, x, y), Exact(op, x', y'))
  {
    ArithNonempty(op);
    var p, q, p', q' := PairwiseEnds(d, e, ArithOn(op));
    var a, b;
    x, y, a, b := ArithPieceEnds(op, p, q);
    a, b, x', y' := ArithPieceEnds(op, p', q');
    PieceMembers(d, p, x);
    PieceMembers(e, q, y);
    PieceMembers(d, p', x');
    PieceMembers(e, q', y');
  }

  /** Negation is refused only for the least number, and both ends are results. */
  lemma NegEndsTaken(d: Domain) returns (x: i64, y: i64)
    requires Canonical(d)
    ensures Mapped(d, NegOn()).None? <==> Has(d, MIN)
    ensures Mapped(d, NegOn()).Some? ==>
      Has(d, x) && Has(d, y) && Hull(Mapped(d, NegOn()).value) == Interval(0 - x, 0 - y)
  {
    UnaryRefusal(d, NegOn());
    x, y := d.first.lo, d.first.lo;
    if Mapped(d, NegOn()).Some? {
      var p, q, p', q' := PairwiseEnds(d, Single(0, 0), NegOn());
      x, y := p.hi, p'.lo;
      PieceMembers(d, p, x);
      PieceMembers(d, p', y);
    }
  }

  /** The two one-operand interval functions refuse exactly the least number. */
  lemma UnaryRefusal(d: Domain, f: (Interval, Interval) -> Option<Interval>)
    requires Canonical(d) && (f == NegOn() || f == AbsOn())
    ensures Mapped(d, f).None? <==> Has(d, MIN)
  {
    if Mapped(d, f).None? {
      PairwiseRefuses(d, Single(0, 0), f);
      var p, q :| p in Pieces(d) && q in Pieces(Single(0, 0)) && f(p, q).None?;
      PieceMembers(d, p, p.lo);
    } else if Has(d, MIN) {
      var p, q := PairwiseCovers(d, Single(0, 0), f, MIN, 0);
    }
  }

  /** Absolute value likewise. */
  lemma AbsEndsTaken(d: Domain) returns (x: i64, y: i64)
    requires Canonical(d)
    ensures Mapped(d, AbsOn()).None? <==> Has(d, MIN)
    ensures Mapped(d, AbsOn()).Some? ==>
      Has(d, x) && Has(d, y) && Hull(Mapped(d, AbsOn()).value) == Interval(Int64.Abs(x), Int64.Abs(y))
  {
    UnaryRefusal(d, AbsOn());
    x, y := d.first.lo, d.first.lo;
    if Mapped(d, AbsOn()).Some? {
      var p, q, p', q' := PairwiseEnds(d, Single(0, 0), AbsOn());
      x := if p.lo <= 0 <= p.hi then 0 else if Int64.Abs(p.lo) <= Int64.Abs(p.hi) then p.lo else p.hi;
      y := if Int64.Abs(p'.lo) <= Int64.Abs(p'.hi) then p'.hi else p'.lo;
      PieceMembers(d, p, x);
      PieceMembers(d, p', y);
    }
  }

  /** Minimum and maximum likewise. */
  lemma MinEndsTaken(d: Domain, e: Domain) returns (x: i64, y: i64, x': i64, y': i64)
    requires Canonical(d) && Canonical(e) && Pairwise(d, e, MinOn()).Some?
    ensures Has(d, x) && Has(e, y) && Has(d, x') && Has(e, y')
    ensures Hull(Pairwise(d, e, MinOn()).value) == Interval(Int64.Min(x, y), Int64.Min(x', y'))
  {
    var p, q, p', q' := PairwiseEnds(d, e, MinOn());
    x, y, x', y' := p.lo, q.lo, p'.hi, q'.hi;
    PieceMembers(d, p, x);
    PieceMembers(e, q, y);
    PieceMembers(d, p', x');
    PieceMembers(e, q', y');
  }

  lemma MaxEndsTaken(d: Domain, e: Domain) returns (x: i64, y: i64, x': i64, y': i64)
    requires Canonical(d) && Canonical(e) && Pairwise(d, e, MaxOn()).Some?
    ensures Has(d, x) && Has(e, y) && Has(d, x') && Has(e, y')
    ensures Hull(Pairwise(d, e, MaxOn()).value) == Interval(Int64.Max(x, y), Int64.Max(x', y'))
  {
    var p, q, p', q' := PairwiseEnds(d, e, MaxOn());
    x, y, x', y' := p.lo, q.lo, p'.hi, q'.hi;
    PieceMembers(d, p, x);
    PieceMembers(e, q, y);
    PieceMembers(d, p', x');
    PieceMembers(e, q', y');
  }

  // ----- one scalar on both sides -----

  lemma RepeatNonempty(op: BinOp)
    requires op.Add? || op.Mul?
    ensures forall p, q | RepeatOn(op)(p, q).Some? && Nonempty(p) && Nonempty(q) :: Nonempty(RepeatOn(op)(p, q).value)
  {
    forall p, q | RepeatOn(op)(p, q).Some? && Nonempty(p) && Nonempty(q)
      ensures Nonempty(RepeatOn(op)(p, q).value)
    {
      RepeatPieceSound(op, p, q, p.lo);
    }
  }

  /** The ends of one piece combined with itself, member by member. */
  lemma RepeatPieceEnds(op: BinOp, p: Interval, q: Interval) returns (x: i64, y: i64)
    requires (op.Add? || op.Mul?) && RepeatOn(op)(p, q).Some?
    ensures Within(x, p) && Within(y, p) && Defined(op, x, x) && Defined(op, y, y)
    ensures RepeatOn(op)(p, q).value == Interval(Exact(op, x, x), Exact(op, y, y))
  {
    if op.Add? {
      x, y := p.lo, p.hi;
    } else {
      SquareEnds(p.lo, p.hi);
      x := if p.lo <= 0 <= p.hi then 0 else if p.lo > 0 then p.lo else p.hi;
      y := if Int64.Abs(p.lo) <= Int64.Abs(p.hi) then p.hi else p.lo;
    }
    RepeatPieceSound(op, p, q, x);
    RepeatPieceSound(op, p, q, y);
  }

  /** How the products of two ends are ordered. */
  lemma ProductOrder(a: int, b: int, aa: int, ab: int, bb: int)
    requires a <= b && aa == a * a && ab == a * b && bb == b * b
    ensures a >= 0 ==> aa <= ab <= bb
    ensures b <= 0 ==> bb <= ab <= aa
    ensures a < 0 < b ==> ab <= 0
    ensures 0 <= aa && 0 <= bb && (Int64.Abs(a) <= Int64.Abs(b) <==> aa <= bb)
  {
    MulMono(a, b, a);
    MulMono(a, b, b);
    SquareNonnegative(a);
    SquareNonnegative(b);
    SquareOrder(Int64.Abs(a), Int64.Abs(b));
    assert Int64.Abs(a) * Int64.Abs(a) == aa && Int64.Abs(b) * Int64.Abs(b) == bb;
    if a < 0 < b {
      MulMono(a, 0, b);
    }
  }

  lemma SquareOrder(m: nat, n: nat)
    ensures m <= n <==> m * m <= n * n
  {
    if m <= n {
      MulMono(m, n, m);
      MulMono(m, n, n);
    } else {
      MulMono(n, m, n);
      MulMono(n + 1, m, m);
      assert (n + 1) * m == n * m + m;
    }
  }

  lemma SquareEnds(a: int, b: int)
    requires a <= b
    ensures MulEnds(a, b, a, b).1 == if Int64.Abs(a) <= Int64.Abs(b) then b * b else a * a
    ensures 0 < a ==> MulEnds(a, b, a, b).0 == a * a
    ensures b < 0 ==> MulEnds(a, b, a, b).0 == b * b
  {
    ProductOrder(a, b, a * a, a * b, b * b);
    EndsOfProducts(a, b, a * a, a * b, b * b);
    assert b * a == a * b;
  }

  lemma EndsOfProducts(a: int, b: int, aa: int, ab: int, bb: int)
    requires a <= b && 0 <= aa && 0 <= bb && (Int64.Abs(a) <= Int64.Abs(b) <==> aa <= bb)
    requires (a >= 0 ==> aa <= ab <= bb) && (b <= 0 ==> bb <= ab <= aa) && (a < 0 < b ==> ab <= 0)
    ensures Max4(aa, ab, ab, bb) == if Int64.Abs(a) <= Int64.Abs(b) then bb else aa
    ensures 0 < a ==> Min4(aa, ab, ab, bb) == aa
    ensures b < 0 ==> Min4(aa, ab, ab, bb) == bb
  {
  }

  /** An operation on one scalar and itself: both ends are results of members. */
  lemma RepeatedEndsTaken(op: BinOp, d: Domain) returns (x: i64, y: i64)
    requires Canonical(d) && IsArith(op) && Repeated(op, d).Some?
    ensures Has(d, x) && Has(d, y) && Defined(op, x, x) && Defined(op, y, y)
    ensures Hull(Repeated(op, d).value) == Interval(Exact(op, x, x), Exact(op, y, y))
  {
    if op.Add? || op.Mul? {
      RepeatNonempty(op);
      var p, q, p', q' := PairwiseEnds(d, Single(0, 0), RepeatOn(op));
      var z;
      x, z := RepeatPieceEnds(op, p, q);
      z, y := RepeatPieceEnds(op, p', q');
      PieceMembers(d, p, x);
      PieceMembers(d, p', y);
    } else {
      x, y := d.first.lo, d.first.lo;
      RepeatedSound(op, d, x);
      if !op.Sub? { SelfQuotient(x); }
    }
  }

  /** It is refused only when some member combined with itself fails. */
  lemma RepeatedRefusalIsReal(op: BinOp, d: Domain) returns (x: i64)
    requires Canonical(d) && IsArith(op) && Repeated(op, d).None?
    ensures Has(d, x) && !Defined(op, x, x)
  {
    if op.Div? || op.Mod? {
      x := 0;
    } else {
      RepeatNonempty(op);
      PairwiseRefuses(d, Single(0, 0), RepeatOn(op));
      var p, q :| p in Pieces(d) && q in Pieces(Single(0, 0)) && RepeatOn(op)(p, q).None?;
      x := if Int64.Abs(p.lo) <= Int64.Abs(p.hi) then p.hi else p.lo;
      PieceOverflows(op, p);
      PieceMembers(d, p, p.lo);
      PieceMembers(d, p, p.hi);
      if Defined(op, x, x) {
        x := if x == p.lo then p.hi else p.lo;
      }
    }
  }

  lemma PieceOverflows(op: BinOp, p: Interval)
    requires (op.Add? || op.Mul?) && Nonempty(p) && Arithmetic(op, p, p).None?
    ensures !Defined(op, p.lo, p.lo) || !Defined(op, p.hi, p.hi)
  {
    if op.Mul? {
      SquareEnds(p.lo, p.hi);
      if p.lo * p.lo <= MAX && p.hi * p.hi <= MAX {
        LeastProduct(p.lo, p.hi);
      }
    }
  }

  /** Where both squares fit, so does every product in between. */
  lemma LeastProduct(a: i64, b: i64)
    requires a <= b && a * a <= MAX && b * b <= MAX
    ensures MulEnds(a, b, a, b).0 >= MIN
  {
    ProductOrder(a, b, a * a, a * b, b * b);
    assert (a + b) * (a + b) == a * a + 2 * (a * b) + b * b;
    SquareNonnegative(a + b);
    assert b * a == a * b;
  }
}
