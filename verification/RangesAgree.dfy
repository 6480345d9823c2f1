/** The repository has two range analyses, one in the overflow checker and one
    in the optimizer. On arithmetic over input fields they give the same answer. */
module RangesAgree {
  import opened Int64
  import opened Ast
  import opened Interp
  import opened IntervalArith
  import opened Ranges
  import opened NumericBounds
  import opened NumericExact
  import Optimizer

  /** Arithmetic over literals and input fields, no field standing on both sides
      of one operator by itself. */
  predicate Straight(input: string, e: Expr) {
    match e
    case Number(_) => true
    case Field(b, _) => b == Ident(input)
    case Unary(op, a) => op.Neg? && Straight(input, a)
    case Binary(op, a, b) => IsArith(op) && Straight(input, a) && Straight(input, b) && !(a.Field? && a == b)
    case _ => false
  }

  function AsPair(v: Option<AVal>): Option<(i64, i64)> {
    if v.Some? && v.value.ANum? && v.value.d.second.None? then Some((v.value.d.first.lo, v.value.d.first.hi)) else None
  }

  /** Both analyses refuse, or both give the one interval. */
  predicate Same(v: Option<AVal>, r: Option<(i64, i64)>) {
    (v.Some? ==> v.value.ANum? && v.value.d.second.None?) && r == AsPair(v)
  }

  lemma {:induction false} FieldRangesAre(fs: seq<FieldDecl>, name: string)
    requires DistinctNames(fs)
    ensures var f := FindField(fs, name); var m := FieldRanges(fs);
      if f.Some? && f.value.ty.TNumber? then
        name in m && m[name] == (DeclaredDomain(f.value).first.lo, DeclaredDomain(f.value).first.hi)
      else name !in m
    decreases |fs|
  {
    if fs != [] {
      var rest, last := fs[..|fs| - 1], fs[|fs| - 1];
      FieldRangesAre(rest, name);
      assert fs == rest + [last];
      FindLast(rest, last, name);
      assert forall f | f in rest :: f.name != last.name;
    }
  }

  lemma {:induction false} FindLast(fs: seq<FieldDecl>, f: FieldDecl, name: string)
    ensures FindField(fs + [f], name) ==
      if FindField(fs, name).Some? then FindField(fs, name) else if f.name == name then Some(f) else None
    decreases |fs|
  {
    if fs == [] {
      assert fs + [f] == [f];
      assert FindField([f][1..], name) == None;
    } else {
      assert (fs + [f])[1..] == fs[1..] + [f];
      FindLast(fs[1..], f, name);
    }
  }

  /** The two ways to bound a quotient. */
  lemma QuotientAgrees(p: Interval, q: Interval)
    requires Nonempty(p) && Nonempty(q) && !Within(0, q)
    ensures var (lo, hi) := DivEnds(p.lo, p.hi, q.lo, q.hi);
      Optimizer.BinaryRange(Div, (p.lo, p.hi), (q.lo, q.hi)) ==
      if p.lo == MIN && Within(-1, q) then None else Some((lo, hi))
  {
    DivShrinks(p.lo, q.lo);
    DivShrinks(p.lo, q.hi);
    DivShrinks(p.hi, q.lo);
    DivShrinks(p.hi, q.hi);
    if p.lo == MIN && Within(-1, q) {
      assert TruncDiv(MIN, -1) == MAX + 1;
    }
  }

  lemma PairAgrees(op: BinOp, p: Interval, q: Interval)
    requires IsArith(op) && Nonempty(p) && Nonempty(q)
    ensures Optimizer.BinaryRange(op, (p.lo, p.hi), (q.lo, q.hi)) ==
      match Arithmetic(op, p, q) case None => None case Some(i) => Some((i.lo, i.hi))
  {
    match op
    case Div => if !Within(0, q) { QuotientAgrees(p, q); DivInBox(p.lo, p.hi, q.lo, q.hi, p.lo, q.lo); }
    case Mul => assert p.hi * q.lo == q.lo * p.hi;
    case _ =>
  }

  /** The overflow checker's domain of an expression is the optimizer's range. */
  lemma {:induction false} SameRange(p: Program, r: Rule, s: Scope, e: Expr, k: nat)
    requires ScopeOk(s) && s.input == r.input && s.locals == map[] && s.fieldFacts == map[] && DistinctNames(s.fields)
    requires Straight(r.input, e)
    ensures Same(AnalyzeExpr(p, r, s, e, k), Optimizer.ComputeRange(e, FieldRanges(s.fields), r.input))
    decreases e
  {
    match e
    case Number(_) =>
    case Field(_, f) => FieldAgrees(p, r, s, e, k);
    case Unary(_, a) =>
      SameRange(p, r, s, a, k);
      NegAgrees(p, r, s, e, k);
    case Binary(_, a, b) =>
      SameRange(p, r, s, a, k);
      SameRange(p, r, s, b, k);
      BinaryAgrees(p, r, s, e, k);
  }

  lemma FieldAgrees(p: Program, r: Rule, s: Scope, e: Expr, k: nat)
    requires ScopeOk(s) && s.input == r.input && s.locals == map[] && s.fieldFacts == map[] && DistinctNames(s.fields)
    requires e.Field? && e.base == Ident(r.input)
    ensures Same(AnalyzeExpr(p, r, s, e, k), Optimizer.ComputeRange(e, FieldRanges(s.fields), r.input))
  {
    FieldRangesAre(s.fields, e.field);
    var f := FindField(s.fields, e.field);
    if f.Some? {
      FieldFound(s.fields, f.value);
    }
  }

  lemma NegAgrees(p: Program, r: Rule, s: Scope, e: Expr, k: nat)
    requires ScopeOk(s) && e.Unary? && e.uop.Neg?
    requires Same(AnalyzeExpr(p, r, s, e.arg, k), Optimizer.ComputeRange(e.arg, FieldRanges(s.fields), r.input))
    ensures Same(AnalyzeExpr(p, r, s, e, k), Optimizer.ComputeRange(e, FieldRanges(s.fields), r.input))
  {
    var v := AnalyzeExpr(p, r, s, e.arg, k);
    if v.Some? {
      OnePair(v.value.d.first, Interval(0, 0), NegOn());
    }
  }

  lemma BinaryAgrees(p: Program, r: Rule, s: Scope, e: Expr, k: nat)
    requires ScopeOk(s) && s.input == r.input && s.locals == map[] && e.Binary? && Straight(r.input, e)
    requires Same(AnalyzeExpr(p, r, s, e.left, k), Optimizer.ComputeRange(e.left, FieldRanges(s.fields), r.input))
    requires Same(AnalyzeExpr(p, r, s, e.right, k), Optimizer.ComputeRange(e.right, FieldRanges(s.fields), r.input))
    ensures Same(AnalyzeExpr(p, r, s, e, k), Optimizer.ComputeRange(e, FieldRanges(s.fields), r.input))
  {
    var v, w := AnalyzeExpr(p, r, s, e.left, k), AnalyzeExpr(p, r, s, e.right, k);
    if v.Some? && w.Some? {
      assert !SameScalar(s, e.left, e.right);
      DomainAgrees(e.op, v.value, w.value);
    }
  }

  lemma DomainAgrees(op: BinOp, v: AVal, w: AVal)
    requires IsArith(op) && OneInterval(v) && OneInterval(w)
    ensures var (p, q) := (v.d.first, w.d.first);
      Same(AnalyzeBinary(op, false, v, w), Optimizer.BinaryRange(op, (p.lo, p.hi), (q.lo, q.hi)))
  {
    var p, q := v.d.first, w.d.first;
    PairAgrees(op, p, q);
    if ArithOn(op)(p, q).Some? {
      ArithmeticSound(op, p, q, p.lo, q.lo);
    }
    OnePair(p, q, ArithOn(op));
    assert v.d == Domain(p, None) && w.d == Domain(q, None);
  }
}
