/** Which rules the overflow checker accepts. On conditionals over input fields
    with arithmetic that reads each field at most once in their arms, it accepts
    exactly the rules that run to their declared range on every admitted input. */
module NumericGuarded {
  import opened Int64
  import opened Ast
  import opened Interp
  import opened IntervalArith
  import opened Ranges
  import opened NumericBounds
  import opened NumericSound
  import opened NumericCheck
  import opened NumericExact
  import opened RangesTight

  /** An ordering of an input field against a literal. */
  predicate Ordering(input: string, q: Expr) {
    q.Binary? && q.op in {Lt, LtEq, Gt, GtEq} && q.left.Field? && q.left.base == Ident(input) && q.right.Number?
  }

  predicate Guarded(input: string, e: Expr)
    decreases e
  {
    || ReadOnce(input, e)
    || (e.If? && Ordering(input, e.cond) && Guarded(input, e.yes) && Guarded(input, e.no))
  }

  // ----- inputs that reach an arm -----

  predicate Admitted(fs: seq<FieldDecl>, m: map<string, Value>) { forall f | f in fs :: FieldAdmitted(f, m) }

  predicate Holding(c: Ctx, input: string, q: Expr, truth: bool, m: map<string, Value>, k: nat) {
    At(c, input, q, m, k) == Good(VBool(truth))
  }

  /** The conditions passed on the way, with the truth they had. */
  predicate Passes(c: Ctx, input: string, path: seq<(Expr, bool)>, m: map<string, Value>, k: nat) {
    forall i | 0 <= i < |path| :: Holding(c, input, path[i].0, path[i].1, m, k)
  }

  ghost predicate Reached(c: Ctx, input: string, fs: seq<FieldDecl>, path: seq<(Expr, bool)>, k: nat) {
    exists m :: Admitted(fs, m) && Passes(c, input, path, m, k)
  }

  /** Every arm is entered by some admitted input. */
  ghost predicate Live(c: Ctx, input: string, fs: seq<FieldDecl>, e: Expr, path: seq<(Expr, bool)>, k: nat)
    decreases e
  {
    e.If? ==>
      && Reached(c, input, fs, path + [(e.cond, true)], k) && Live(c, input, fs, e.yes, path + [(e.cond, true)], k)
      && Reached(c, input, fs, path + [(e.cond, false)], k) && Live(c, input, fs, e.no, path + [(e.cond, false)], k)
  }

  /** The scope describes exactly the admitted inputs that passed the conditions. */
  ghost predicate Tracks(c: Ctx, r: Rule, s: Scope, path: seq<(Expr, bool)>, k: nat) {
    && Fresh(c, r, s)
    && forall m :: Inside(s, m) <==> Admitted(s.fields, m) && Passes(c, r.input, path, m, k)
  }

  lemma PassesOne(c: Ctx, input: string, path: seq<(Expr, bool)>, q: Expr, truth: bool, m: map<string, Value>, k: nat)
    ensures Passes(c, input, path + [(q, truth)], m, k) <==>
            Passes(c, input, path, m, k) && Holding(c, input, q, truth, m, k)
  {
    var more := path + [(q, truth)];
    assert more[|path|] == (q, truth);
    if Passes(c, input, more, m, k) {
      assert forall i | 0 <= i < |path| :: more[i] == path[i];
    }
  }

  // ----- assuming an ordering -----

  /** A single interval restricted by an ordering: the members that satisfy it. */
  lemma OrderingNarrows(op: BinOp, p: Interval, n: i64) returns (d: Option<Domain>)
    requires op in {Lt, LtEq, Gt, GtEq} && Nonempty(p)
    ensures d == Constrain(op, Domain(p, None), Single(n, n))
    ensures d.Some? ==> d.value.second.None? && Nonempty(d.value.first)
    ensures d.Some? ==> p.lo <= d.value.first.lo && d.value.first.hi <= p.hi
    ensures forall x: int :: Within(x, p) && Compare(op, x, n) <==> d.Some? && Within(x, d.value.first)
  {
    var ps := RestrictPiece(op, p, n);
    assert RestrictPieces(op, Domain(p, None), n) == ps;
    d := Constrain(op, Domain(p, None), Single(n, n));
    if ps == [] {
      assert DropEmpty(ps) == [];
    } else {
      assert ps == [ps[0]] && Nonempty(ps[0]);
      OnePiece(ps[0]);
    }
  }

  lemma OnePiece(p: Interval)
    requires Nonempty(p)
    ensures Ranges.Collect([p]) == Some(Domain(p, None))
  {
    assert DropEmpty([p]) == [p] + DropEmpty([p][1..]) && [p][1..] == [];
    assert Sort([p]) == Insert(p, Sort([]));
    assert MergeOnto([], [p]) == MergeOnto(Extend([], p), []);
  }

  /** The literal side of a condition that some value satisfies. */
  lemma LiteralStays(op: BinOp, p: Interval, n: i64, x: int)
    requires op in {Lt, LtEq, Gt, GtEq} && Nonempty(p) && Within(x, p) && Compare(op, x, n)
    ensures Constrain(Reverse(op), Single(n, n), Domain(p, None)).Some?
  {
    ConstrainSound(Reverse(op), Single(n, n), Domain(p, None), n, x);
  }

  function Sided(op: BinOp, truth: bool): BinOp { if truth then op else Opposite(op) }

  /** Where a numeric field may be, in a scope of single intervals. */
  lemma SpanHolds(s: Scope, f: FieldDecl, m: map<string, Value>)
    requires ScopeOk(s) && FactsNarrow(s) && f in s.fields && f.ty.TNumber?
    ensures FieldHolds(s, f, m) <==> f.name in m && m[f.name].VNumber? && Within(m[f.name].n, Span(s, f))
  {
    assert FieldOk(f);
  }

  /** The condition on an input of the scope, as the comparison it makes. */
  lemma OrderingRuns(c: Ctx, r: Rule, s: Scope, q: Expr, f: FieldDecl, truth: bool, m: map<string, Value>, k: nat)
    requires Fresh(c, r, s) && Ordering(r.input, q) && f in s.fields && f.ty.TNumber? && f.name == q.left.field
    requires f.name in m && m[f.name].VNumber?
    ensures Holding(c, r.input, q, truth, m, k) <==> Compare(Sided(q.op, truth), m[f.name].n, q.right.n)
  {
    FieldRuns(c, r.input, q.left, m, k);
    var x := m[f.name].n;
    assert Eval(c, q.right, map[r.input := VRecord(m)], k) == Good(VNumber(q.right.n));
    assert At(c, r.input, q, m, k) == Good(VBool(Compare(q.op, x, q.right.n)));
    CompareFlips(q.op, x, q.right.n);
  }

  /** After a branch on a comparison, a scalar that was compared is known to be
      exactly where the comparison can hold; an arm that has no facts is dead. */
  lemma GuardRecorded(s: Scope, op: BinOp, a: Expr, b: Expr, truth: bool)
    requires ScopeOk(s) && IsComparison(op) && Scalar(s, a).Some? && Operand(s, b).Some?
    requires Operand(s, b).value.0 != Some(Scalar(s, a).value.0)
    ensures var (o, d, e) := (Sided(op, truth), Scalar(s, a).value.1, Operand(s, b).value.1);
      match Assume(s, Binary(op, a, b), truth)
      case None => forall x: int, y: int | Has(d, x) && Has(e, y) :: !Compare(o, x, y)
      case Some(t) =>
        && Scalar(t, a).Some? && Scalar(t, a).value.0 == Scalar(s, a).value.0
        && (!Overfull(o, d, e) ==> forall x: int :: Has(Scalar(t, a).value.1, x) <==> Has(d, x) && Satisfiable(o, x, e))
  {
    var o, d, e := Sided(op, truth), Scalar(s, a).value.1, Operand(s, b).value.1;
    ScalarCanonical(s, a);
    OperandCanonical(s, b);
    CompareFlips(op, 0, 0);
    var t := Assume(s, Binary(op, a, b), truth);
    assert t == AssumeCompare(s, o, Operand(s, a), Operand(s, b));
    if t.Some? {
      RecordedThere(s, a, Constrain(o, d, e).value, Operand(s, b).value.0, Constrain(Reverse(o), e, d).value);
      forall x: int { ConstrainExact(o, d, e, x); }
    } else {
      forall x: int, y: int | Has(d, x) && Has(e, y)
        ensures !Compare(o, x, y)
      {
        NoneEmpty(o, d, e, x, y);
      }
    }
  }

  lemma OperandCanonical(s: Scope, e: Expr)
    requires ScopeOk(s) && Operand(s, e).Some?
    ensures Canonical(Operand(s, e).value.1)
  {
    if Scalar(s, e).Some? { ScalarCanonical(s, e); }
  }

  lemma NoneEmpty(op: BinOp, d: Domain, e: Domain, x: int, y: int)
    requires IsComparison(op) && IsComparison(Reverse(op)) && Canonical(d) && Canonical(e) && Has(d, x) && Has(e, y)
    requires Constrain(op, d, e).None? || Constrain(Reverse(op), e, d).None?
    ensures !Compare(op, x, y)
  {
    CompareFlips(op, x, y);
    ConstrainSound(op, d, e, x, y);
    ConstrainSound(Reverse(op), e, d, y, x);
  }

  /** A recorded domain is the one read again, whatever else is recorded. */
  lemma RecordedThere(s: Scope, a: Expr, d: Domain, q: Option<Place>, e: Domain)
    requires Scalar(s, a).Some? && q != Some(Scalar(s, a).value.0)
    ensures Scalar(Record(Record(s, Some(Scalar(s, a).value.0), d), q, e), a) == Some((Scalar(s, a).value.0, d))
  {
  }

  function Narrowed(s: Scope, f: FieldDecl, d: Domain): Scope { s.(fieldFacts := s.fieldFacts[f.name := d]) }

  /** Assuming a condition that some input of the scope satisfies. */
  lemma AssumeNarrows(c: Ctx, r: Rule, s: Scope, q: Expr, f: FieldDecl, truth: bool, x: int) returns (d: Domain)
    requires Fresh(c, r, s) && Ordering(r.input, q) && f in s.fields && f.ty.TNumber? && f.name == q.left.field
    requires Within(x, Span(s, f)) && Compare(Sided(q.op, truth), x, q.right.n)
    ensures Assume(s, q, truth) == Some(Narrowed(s, f, d)) && d.second.None? && Nonempty(d.first)
    ensures Span(s, f).lo <= d.first.lo && d.first.hi <= Span(s, f).hi
    ensures forall y: int :: Within(y, d.first) <==> Within(y, Span(s, f)) && Compare(Sided(q.op, truth), y, q.right.n)
  {
    FieldFound(s.fields, f);
    var p, op, n := Span(s, f), Sided(q.op, truth), q.right.n;
    var o := OrderingNarrows(op, p, n);
    LiteralStays(op, p, n, x);
    d := o.value;
    SpanIsDomain(s, f);
    assert Operand(s, q.left) == Some((Some(PField(f.name)), Domain(p, None)));
    assert Operand(s, q.right) == Some((None, Single(n, n)));
    assert Assume(s, q, truth) == AssumeCompare(s, op, Operand(s, q.left), Operand(s, q.right));
  }

  lemma SpanIsDomain(s: Scope, f: FieldDecl)
    requires FactsNarrow(s) && f in s.fields && f.ty.TNumber? && DistinctNames(s.fields)
    ensures FieldDomain(s, f.name) == Some(Domain(Span(s, f), None))
  {
    FieldFound(s.fields, f);
  }

  lemma NarrowedFresh(c: Ctx, r: Rule, s: Scope, f: FieldDecl, d: Domain)
    requires Fresh(c, r, s) && f in s.fields && f.ty.TNumber? && d.second.None? && Nonempty(d.first)
    requires Span(s, f).lo <= d.first.lo && d.first.hi <= Span(s, f).hi
    ensures Fresh(c, r, Narrowed(s, f, d))
  {
    var t := Narrowed(s, f, d);
    forall g | g in s.fields && g.ty.TNumber?
      ensures DeclaredDomain(g).first.lo <= Span(t, g).lo <= Span(t, g).hi <= DeclaredDomain(g).first.hi
    {
      FieldFound(s.fields, f);
      FieldFound(s.fields, g);
    }
  }

  lemma NarrowedInside(c: Ctx, r: Rule, s: Scope, q: Expr, f: FieldDecl, truth: bool, d: Domain, m: map<string, Value>,
      k: nat)
    requires Fresh(c, r, s) && Fresh(c, r, Narrowed(s, f, d)) && Ordering(r.input, q)
    requires f in s.fields && f.ty.TNumber? && f.name == q.left.field
    requires forall y: int :: Within(y, d.first) <==> Within(y, Span(s, f)) && Compare(Sided(q.op, truth), y, q.right.n)
    ensures Inside(Narrowed(s, f, d), m) <==> Inside(s, m) && Holding(c, r.input, q, truth, m, k)
  {
    var t := Narrowed(s, f, d);
    SpanHolds(s, f, m);
    SpanHolds(t, f, m);
    if f.name in m && m[f.name].VNumber? {
      OrderingRuns(c, r, s, q, f, truth, m, k);
    }
    forall g | g in s.fields && g != f
      ensures FieldHolds(s, g, m) <==> FieldHolds(t, g, m)
    {
      FieldFound(s.fields, f);
      FieldFound(s.fields, g);
    }
    assert Inside(t, m) ==> FieldHolds(t, f, m);
    assert Inside(s, m) ==> FieldHolds(s, f, m);
  }

  /** Entering an arm that some input reaches keeps the scope exact. */
  lemma ArmTracks(c: Ctx, r: Rule, s: Scope, q: Expr, f: FieldDecl, truth: bool, path: seq<(Expr, bool)>, k: nat)
    requires Tracks(c, r, s, path, k) && Ordering(r.input, q) && Reached(c, r.input, s.fields, path + [(q, truth)], k)
    requires f in s.fields && f.ty.TNumber? && f.name == q.left.field
    ensures Tracks(c, r, Branch(s, q, truth), path + [(q, truth)], k)
    ensures SameFrame(Branch(s, q, truth), s)
  {
    var m: map<string, Value> :| Admitted(s.fields, m) && Passes(c, r.input, path + [(q, truth)], m, k);
    PassesOne(c, r.input, path, q, truth, m, k);
    assert Inside(s, m);
    assert FieldHolds(s, f, m);
    SpanHolds(s, f, m);
    OrderingRuns(c, r, s, q, f, truth, m, k);
    var d := AssumeNarrows(c, r, s, q, f, truth, m[f.name].n);
    NarrowedFresh(c, r, s, f, d);
    var t := Narrowed(s, f, d);
    forall n: map<string, Value>
      ensures Inside(t, n) <==> Admitted(t.fields, n) && Passes(c, r.input, path + [(q, truth)], n, k)
    {
      NarrowedInside(c, r, s, q, f, truth, d, n, k);
      PassesOne(c, r.input, path, q, truth, n, k);
    }
  }

  // ----- expressions -----

  /** As for arithmetic, with the hull of a domain of up to two intervals. */
  predicate HullAt(o: Option<AVal>, low: Res<Value>, high: Res<Value>) {
    match o
    case None => !IsNumber(low)
    case Some(v) => v.ANum? && low == Good(VNumber(Hull(v.d).lo)) && high == Good(VNumber(Hull(v.d).hi))
  }

  ghost predicate HullExact(c: Ctx, r: Rule, s: Scope, e: Expr, k: nat, low: map<string, Value>,
      high: map<string, Value>)
    requires ScopeOk(s)
  {
    && Inside(s, low) && Inside(s, high)
    && HullAt(AnalyzeExpr(c.prog, r, s, e, k), At(c, r.input, e, low, k), At(c, r.input, e, high, k))
  }

  lemma HullEnds(d: Domain, x: int)
    requires Canonical(d)
    ensures Has(d, Hull(d).lo) && Has(d, Hull(d).hi) && (Has(d, x) ==> Within(x, Hull(d)))
  {
  }

  lemma PieceInHull(d: Domain, p: Interval)
    requires Canonical(d) && p in Pieces(d)
    ensures Hull(d).lo <= p.lo <= p.hi <= Hull(d).hi
  {
  }

  lemma JoinInHull(d: Domain, e: Domain, x: int)
    requires Canonical(d) && Canonical(e) && Has(Join(d, e), x)
    ensures Int64.Min(Hull(d).lo, Hull(e).lo) <= x <= Int64.Max(Hull(d).hi, Hull(e).hi)
  {
    var ps := Pieces(d) + Pieces(e);
    SomePiece(ps, d.first);
    var p, q := CollectInHull(ps, x);
    PieceOf(d, e, p);
    PieceOf(d, e, q);
  }

  lemma SomePiece(ps: seq<Interval>, p: Interval)
    requires |ps| > 0 && ps[0] == p && Nonempty(p)
    ensures Ranges.Collect(ps).Some?
  {
    assert ps[0] in ps && Within(p.lo, ps[0]);
    CollectCovers(ps, p.lo);
  }

  lemma PieceOf(d: Domain, e: Domain, p: Interval)
    requires Canonical(d) && Canonical(e) && p in Pieces(d) + Pieces(e)
    ensures Int64.Min(Hull(d).lo, Hull(e).lo) <= p.lo && p.hi <= Int64.Max(Hull(d).hi, Hull(e).hi)
  {
    if p in Pieces(d) {
      PieceInHull(d, p);
    } else {
      PieceInHull(e, p);
    }
  }

  lemma HullJoin(d: Domain, e: Domain)
    requires Canonical(d) && Canonical(e)
    ensures Canonical(Join(d, e))
    ensures Hull(Join(d, e)) == Interval(Int64.Min(Hull(d).lo, Hull(e).lo), Int64.Max(Hull(d).hi, Hull(e).hi))
  {
    var j := Join(d, e);
    HullEnds(d, 0);
    HullEnds(e, 0);
    JoinReaches(d, e, Hull(d).lo);
    JoinReaches(d, e, Hull(d).hi);
    JoinReaches(d, e, Hull(e).lo);
    JoinReaches(d, e, Hull(e).hi);
    HullEnds(j, 0);
    JoinInHull(d, e, Hull(j).lo);
    JoinInHull(d, e, Hull(j).hi);
  }

  lemma JoinReaches(d: Domain, e: Domain, x: int)
    requires Canonical(d) && Canonical(e) && (Has(d, x) || Has(e, x))
    ensures Canonical(Join(d, e)) && Within(x, Hull(Join(d, e)))
  {
    JoinCovers(d, e, x);
    HullEnds(Join(d, e), x);
  }

  lemma {:induction false} GuardedExact(c: Ctx, r: Rule, s: Scope, e: Expr, path: seq<(Expr, bool)>, k: nat)
    returns (low: map<string, Value>, high: map<string, Value>)
    requires Tracks(c, r, s, path, k) && Guarded(r.input, e) && Live(c, r.input, s.fields, e, path, k)
    ensures HullExact(c, r, s, e, k, low, high)
    decreases e
  {
    if ReadOnce(r.input, e) {
      low, high := ExprExact(c, r, s, e, k);
    } else {
      var f := CondField(c, r, s, e, k);
      if f.Some? {
        ArmTracks(c, r, s, e.cond, f.value, true, path, k);
        ArmTracks(c, r, s, e.cond, f.value, false, path, k);
        var l, h := GuardedExact(c, r, Branch(s, e.cond, true), e.yes, path + [(e.cond, true)], k);
        var l', h' := GuardedExact(c, r, Branch(s, e.cond, false), e.no, path + [(e.cond, false)], k);
        low, high := ArmsExact(c, r, s, e, path, k, l, h, l', h');
      } else {
        low := NoField(c, r, s, e, k);
        high := low;
      }
    }
  }

  /** The numeric field a condition is about, if there is one. */
  lemma CondField(c: Ctx, r: Rule, s: Scope, e: Expr, k: nat) returns (f: Option<FieldDecl>)
    requires Fresh(c, r, s) && e.If? && Ordering(r.input, e.cond)
    ensures f.Some? ==> f.value in s.fields && f.value.ty.TNumber? && f.value.name == e.cond.left.field
    ensures f.Some? ==> AnalyzeExpr(c.prog, r, s, e.cond, k) == Some(ABool)
    ensures f.None? ==> AnalyzeExpr(c.prog, r, s, e.cond.left, k).None?
  {
    FieldSteps(c, r, s, e.cond.left, k);
    f := FindField(s.fields, e.cond.left.field);
    if f.Some? && f.value.ty.TNumber? {
      CondSteps(c, r, s, e.cond, k);
    } else {
      f := None;
    }
  }

  lemma CondSteps(c: Ctx, r: Rule, s: Scope, q: Expr, k: nat)
    requires ScopeOk(s) && Ordering(r.input, q)
    ensures var v := AnalyzeExpr(c.prog, r, s, q.left, k);
      AnalyzeExpr(c.prog, r, s, q, k) == if v.Some? && v.value.ANum? then Some(ABool) else None
  {
    assert AnalyzeExpr(c.prog, r, s, q.right, k) == Some(ANum(Single(q.right.n, q.right.n)));
  }

  /** A condition on something that is no numeric field fails. */
  lemma NoField(c: Ctx, r: Rule, s: Scope, e: Expr, k: nat) returns (low: map<string, Value>)
    requires Fresh(c, r, s) && e.If? && Ordering(r.input, e.cond)
    requires AnalyzeExpr(c.prog, r, s, e.cond.left, k).None?
    ensures HullExact(c, r, s, e, k, low, low)
  {
    var l, h := FieldExact(c, r, s, e.cond.left, k);
    low := l;
    assert AnalyzeExpr(c.prog, r, s, e.cond, k).None?;
    var env := map[r.input := VRecord(low)];
    assert Eval(c, e.cond.right, env, k) == Good(VNumber(e.cond.right.n));
    assert Eval(c, e.cond, env, k).Bad?;
  }

  lemma ArmRuns(c: Ctx, input: string, e: Expr, truth: bool, m: map<string, Value>, k: nat)
    requires e.If? && Holding(c, input, e.cond, truth, m, k) && c.sem == Sem(false, false, Off)
    ensures At(c, input, e, m, k) == At(c, input, if truth then e.yes else e.no, m, k)
  {
  }

  lemma ArmsExact(c: Ctx, r: Rule, s: Scope, e: Expr, path: seq<(Expr, bool)>, k: nat, l: map<string, Value>,
      h: map<string, Value>, l': map<string, Value>, h': map<string, Value>)
    returns (low: map<string, Value>, high: map<string, Value>)
    requires Tracks(c, r, s, path, k) && e.If? && AnalyzeExpr(c.prog, r, s, e.cond, k) == Some(ABool)
    requires Tracks(c, r, Branch(s, e.cond, true), path + [(e.cond, true)], k)
    requires Tracks(c, r, Branch(s, e.cond, false), path + [(e.cond, false)], k)
    requires SameFrame(Branch(s, e.cond, true), s) && SameFrame(Branch(s, e.cond, false), s)
    requires HullExact(c, r, Branch(s, e.cond, true), e.yes, k, l, h)
    requires HullExact(c, r, Branch(s, e.cond, false), e.no, k, l', h')
    ensures HullExact(c, r, s, e, k, low, high)
  {
    InArm(c, r, s, e, true, path, k, l);
    InArm(c, r, s, e, true, path, k, h);
    InArm(c, r, s, e, false, path, k, l');
    InArm(c, r, s, e, false, path, k, h');
    var v := AnalyzeExpr(c.prog, r, Branch(s, e.cond, true), e.yes, k);
    var w := AnalyzeExpr(c.prog, r, Branch(s, e.cond, false), e.no, k);
    IfSteps(c, r, s, e, k);
    if v.None? || w.None? {
      low, high := if v.None? then l else l', l;
    } else {
      HullJoin(v.value.d, w.value.d);
      low := if Hull(v.value.d).lo <= Hull(w.value.d).lo then l else l';
      high := if Hull(v.value.d).hi <= Hull(w.value.d).hi then h' else h;
    }
  }

  /** An input inside an arm's scope is one of the outer scope, and takes the arm. */
  lemma InArm(c: Ctx, r: Rule, s: Scope, e: Expr, truth: bool, path: seq<(Expr, bool)>, k: nat, m: map<string, Value>)
    requires Tracks(c, r, s, path, k) && e.If? && Tracks(c, r, Branch(s, e.cond, truth), path + [(e.cond, truth)], k)
    requires SameFrame(Branch(s, e.cond, truth), s) && Inside(Branch(s, e.cond, truth), m)
    ensures Inside(s, m) && At(c, r.input, e, m, k) == At(c, r.input, if truth then e.yes else e.no, m, k)
  {
    PassesOne(c, r.input, path, e.cond, truth, m, k);
    ArmRuns(c, r.input, e, truth, m, k);
  }

  lemma IfSteps(c: Ctx, r: Rule, s: Scope, e: Expr, k: nat)
    requires ScopeOk(s) && e.If? && AnalyzeExpr(c.prog, r, s, e.cond, k) == Some(ABool)
    requires ScopeOk(Branch(s, e.cond, true)) && ScopeOk(Branch(s, e.cond, false))
    ensures var v := AnalyzeExpr(c.prog, r, Branch(s, e.cond, true), e.yes, k);
      var w := AnalyzeExpr(c.prog, r, Branch(s, e.cond, false), e.no, k);
      AnalyzeExpr(c.prog, r, s, e, k) == if v.None? || w.None? then None else JoinVals(v.value, w.value)
  {
  }

  // ----- rules -----

  /** The rule runs to a number of its declared range. */
  predicate Delivers(c: Ctx, r: Rule, v: Value, k: nat) {
    var w := EvalRule(c, r, v, k);
    w.Good? && w.value.VNumber? &&
    (r.overflow.Some? ==> r.overflow.value.0 <= w.value.n <= r.overflow.value.1)
  }

  ghost predicate PlainRule(c: Ctx, name: string, k: nat) {
    && c.sem == Sem(false, false, Off) && TextMaxDeclared(c.prog) && ShapeOk(c.prog, name)
    && var (r, fs) := (c.prog.rules[name], RuleFields(c.prog, name));
       && r.outputTy.TNumber? && r.bindings == [] && Guarded(r.input, r.value) && DistinctNames(fs)
       && Live(c, r.input, fs, r.value, [], k)
  }

  lemma RuleRuns(c: Ctx, name: string, m: map<string, Value>, k: nat)
    requires PlainRule(c, name, k) && Admitted(RuleFields(c.prog, name), m)
    ensures EntryGuard(c.prog.concepts, c.prog.rules[name], VRecord(m))
    ensures EvalRule(c, c.prog.rules[name], VRecord(m), k) ==
      At(c, c.prog.rules[name].input, c.prog.rules[name].value, m, k)
  {
  }

  lemma StartTracks(c: Ctx, name: string, k: nat)
    requires PlainRule(c, name, k)
    ensures Tracks(c, c.prog.rules[name], NewScope(c.prog.rules[name], RuleFields(c.prog, name), map[]), [], k)
  {
    var r, fs := c.prog.rules[name], RuleFields(c.prog, name);
    var s := NewScope(r, fs, map[]);
    forall f | f in fs && f.ty.TNumber?
      ensures DeclaredDomain(f).first.lo <= Span(s, f).lo <= Span(s, f).hi <= DeclaredDomain(f).first.hi
    {
      assert FieldOk(f);
    }
  }

  lemma CondIdle(c: Ctx, r: Rule, s: Scope, q: Expr, j: nat, k: nat)
    requires ScopeOk(s) && Ordering(r.input, q)
    ensures AnalyzeExpr(c.prog, r, s, q, j) == AnalyzeExpr(c.prog, r, s, q, k)
  {
    CondSteps(c, r, s, q, j);
    CondSteps(c, r, s, q, k);
  }

  lemma {:induction false} GuardedIdle(c: Ctx, r: Rule, s: Scope, e: Expr, j: nat, k: nat)
    requires ScopeOk(s) && Guarded(r.input, e)
    ensures AnalyzeExpr(c.prog, r, s, e, j) == AnalyzeExpr(c.prog, r, s, e, k)
    decreases e
  {
    if ReadOnce(r.input, e) {
      ExprIdle(c, r, s, e, j, k);
    } else {
      CondIdle(c, r, s, e.cond, j, k);
      AssumeOk(s, e.cond, true);
      AssumeOk(s, e.cond, false);
      GuardedIdle(c, r, Branch(s, e.cond, true), e.yes, j, k);
      GuardedIdle(c, r, Branch(s, e.cond, false), e.no, j, k);
      IfIdle(c, r, s, e, j, k);
    }
  }

  lemma IfIdle(c: Ctx, r: Rule, s: Scope, e: Expr, j: nat, k: nat)
    requires ScopeOk(s) && e.If? && AnalyzeExpr(c.prog, r, s, e.cond, j) == AnalyzeExpr(c.prog, r, s, e.cond, k)
    requires var t := Branch(s, e.cond, true);
      ScopeOk(t) && AnalyzeExpr(c.prog, r, t, e.yes, j) == AnalyzeExpr(c.prog, r, t, e.yes, k)
    requires var f := Branch(s, e.cond, false);
      ScopeOk(f) && AnalyzeExpr(c.prog, r, f, e.no, j) == AnalyzeExpr(c.prog, r, f, e.no, k)
    ensures AnalyzeExpr(c.prog, r, s, e, j) == AnalyzeExpr(c.prog, r, s, e, k)
  {
    if AnalyzeExpr(c.prog, r, s, e.cond, k) == Some(ABool) {
      IfSteps(c, r, s, e, j);
      IfSteps(c, r, s, e, k);
    }
  }

  lemma RuleSteps(c: Ctx, name: string, j: nat, k: nat)
    requires PlainRule(c, name, k)
    ensures var (r, fs) := (c.prog.rules[name], RuleFields(c.prog, name));
      var v := AnalyzeExpr(c.prog, r, NewScope(r, fs, map[]), r.value, k);
      AnalyzeRule(c.prog, name, j) == if v.None? then None else Summary(r, v.value)
  {
    var r := c.prog.rules[name];
    GuardedIdle(c, r, NewScope(r, RuleFields(c.prog, name), map[]), r.value, j, k);
  }

  lemma BudgetIdle(c: Ctx, name: string, k: nat)
    requires PlainRule(c, name, k)
    ensures !Rejects(c.prog, name) <==> AnalyzeRule(c.prog, name, k).Some?
  {
    forall j: nat
      ensures AnalyzeRule(c.prog, name, j) == AnalyzeRule(c.prog, name, k)
    {
      RuleSteps(c, name, j, k);
      RuleSteps(c, name, k, k);
    }
  }

  /** The least and the greatest output, or a failing one. */
  lemma Extremes(c: Ctx, name: string, k: nat) returns (low: Value, high: Value)
    requires PlainRule(c, name, k)
    ensures EntryGuard(c.prog.concepts, c.prog.rules[name], low)
    ensures EntryGuard(c.prog.concepts, c.prog.rules[name], high)
    ensures var (r, fs) := (c.prog.rules[name], RuleFields(c.prog, name));
      var v := AnalyzeExpr(c.prog, r, NewScope(r, fs, map[]), r.value, k);
      HullAt(v, EvalRule(c, r, low, k), EvalRule(c, r, high, k))
  {
    var r, fs := c.prog.rules[name], RuleFields(c.prog, name);
    var s := NewScope(r, fs, map[]);
    StartTracks(c, name, k);
    var l, h := GuardedExact(c, r, s, r.value, [], k);
    RuleRuns(c, name, l, k);
    RuleRuns(c, name, h, k);
    low, high := VRecord(l), VRecord(h);
  }

  /** Acceptance is exact: the rule is accepted if and only if every input its
      guard admits runs without fault to a number of the declared range. */
  lemma AcceptedExactly(c: Ctx, name: string, k: nat)
    requires PlainRule(c, name, k)
    ensures !Rejects(c.prog, name) <==>
            forall v | EntryGuard(c.prog.concepts, c.prog.rules[name], v) :: Delivers(c, c.prog.rules[name], v, k)
  {
    var r := c.prog.rules[name];
    BudgetIdle(c, name, k);
    RuleSteps(c, name, k, k);
    if AnalyzeRule(c.prog, name, k).Some? {
      forall v | EntryGuard(c.prog.concepts, r, v)
        ensures Delivers(c, r, v, k)
      {
        RuleSound(c, name, v, k);
      }
    } else {
      var low, high := Extremes(c, name, k);
      assert !Delivers(c, r, low, k) || !Delivers(c, r, high, k);
    }
  }

  /** Without a declared range callers learn the least and the greatest output. */
  lemma UndeclaredSummary(c: Ctx, name: string, a: AVal, k: nat) returns (low: Value, high: Value)
    requires PlainRule(c, name, k) && c.prog.rules[name].overflow.None? && Accepts(c.prog, name, a)
    ensures EntryGuard(c.prog.concepts, c.prog.rules[name], low)
    ensures EntryGuard(c.prog.concepts, c.prog.rules[name], high)
    ensures a.ANum? && EvalRule(c, c.prog.rules[name], low, k) == Good(VNumber(Hull(a.d).lo))
    ensures EvalRule(c, c.prog.rules[name], high, k) == Good(VNumber(Hull(a.d).hi))
  {
    low, high := Extremes(c, name, k);
    var j: nat :| AnalyzeRule(c.prog, name, j) == Some(a);
    RuleSteps(c, name, j, k);
  }
}
