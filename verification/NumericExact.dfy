/** Arithmetic that reads each field at most once is analysed exactly: the ends
    of the computed interval are taken by some input, and a refusal is a failure
    at some input. */
module NumericExact {
  import opened Int64
  import opened Ast
  import opened Interp
  import opened IntervalArith
  import opened Ranges
  import opened NumericBounds
  import opened NumericSound
  import opened NumericCheck

  /** The input fields such an expression reads. */
  function Reads(e: Expr): set<string> {
    match e
    case Field(_, f) => {f}
    case Unary(_, a) => Reads(a)
    case Prim(_, a, b) => Reads(a) + Reads(b)
    case Binary(_, a, b) => Reads(a) + Reads(b)
    case _ => {}
  }

  /** Sums, differences, products, negations, minima and maxima, and quotients
      by literals, no field being read twice. */
  predicate ReadOnce(input: string, e: Expr)
    decreases e
  {
    match e
    case Number(_) => true
    case Field(b, _) => b == Ident(input)
    case Unary(op, a) => op.Neg? && ReadOnce(input, a)
    case Prim(op, a, b) =>
      (op.MinOp? || op.MaxOp?) && ReadOnce(input, a) && ReadOnce(input, b) && Reads(a) !! Reads(b)
    case Binary(op, a, b) =>
      && (op.Add? || op.Sub? || op.Mul? || (op.Div? && b.Number?))
      && ReadOnce(input, a) && ReadOnce(input, b) && Reads(a) !! Reads(b)
    case _ => false
  }

  predicate DistinctNames(fs: seq<FieldDecl>) {
    forall i, j | 0 <= i < j < |fs| :: fs[i].name != fs[j].name
  }

  // ----- inputs -----

  /** The record passes the declarations and the facts of the enclosing branches. */
  predicate Inside(s: Scope, m: map<string, Value>) { forall f | f in s.fields :: FieldHolds(s, f, m) }

  function At(c: Ctx, input: string, e: Expr, m: map<string, Value>, k: nat): Res<Value> {
    Eval(c, e, map[input := VRecord(m)], k)
  }

  predicate IsNumber(r: Res<Value>) { r.Good? && r.value.VNumber? }

  /** The fields of `xs` from one record, the others from another. */
  function Mix(m: map<string, Value>, xs: set<string>, n: map<string, Value>): map<string, Value> {
    map f | f in m.Keys * n.Keys :: if f in xs then m[f] else n[f]
  }

  predicate AgreeOn(xs: set<string>, m: map<string, Value>, n: map<string, Value>) {
    forall f | f in xs :: (f in m <==> f in n) && (f in m ==> m[f] == n[f])
  }

  /** Only the fields read matter. */
  lemma {:induction false} AgreeingInputs(c: Ctx, input: string, e: Expr, m: map<string, Value>,
      n: map<string, Value>, k: nat)
    requires ReadOnce(input, e) && AgreeOn(Reads(e), m, n)
    ensures At(c, input, e, m, k) == At(c, input, e, n, k)
    decreases e
  {
    match e
    case Number(_) =>
    case Field(b, f) =>
      assert f in Reads(e);
      assert Eval(c, b, map[input := VRecord(m)], k) == Good(VRecord(m));
      assert Eval(c, b, map[input := VRecord(n)], k) == Good(VRecord(n));
    case Unary(_, a) =>
      AgreeingInputs(c, input, a, m, n, k);
    case Prim(_, a, b) =>
      AgreeingInputs(c, input, a, m, n, k);
      AgreeingInputs(c, input, b, m, n, k);
    case Binary(_, a, b) =>
      AgreeingInputs(c, input, a, m, n, k);
      AgreeingInputs(c, input, b, m, n, k);
  }

  /** Operands that share no field take their values independently. */
  lemma Independent(c: Ctx, input: string, s: Scope, a: Expr, b: Expr, m: map<string, Value>,
      n: map<string, Value>, k: nat) returns (w: map<string, Value>)
    requires ReadOnce(input, a) && ReadOnce(input, b) && Reads(a) !! Reads(b)
    requires Inside(s, m) && Inside(s, n) && Declared(s.fields, a) && Declared(s.fields, b)
    ensures Inside(s, w)
    ensures At(c, input, a, w, k) == At(c, input, a, m, k)
    ensures At(c, input, b, w, k) == At(c, input, b, n, k)
  {
    w := Mix(m, Reads(a), n);
    forall f | f in s.fields
      ensures FieldHolds(s, f, w)
    {
      assert FieldHolds(s, f, m) && FieldHolds(s, f, n);
    }
    DeclaredThere(s, a, m, n);
    DeclaredThere(s, b, m, n);
    AgreeingInputs(c, input, a, w, m, k);
    AgreeingInputs(c, input, b, w, n, k);
  }

  /** Every field read is declared. */
  predicate Declared(fs: seq<FieldDecl>, e: Expr) { Reads(e) <= Names(fs) }

  lemma DeclaredThere(s: Scope, e: Expr, m: map<string, Value>, n: map<string, Value>)
    requires Declared(s.fields, e) && Inside(s, m) && Inside(s, n)
    ensures forall f | f in Reads(e) :: f in m && f in n
  {
    forall f | f in Reads(e)
      ensures f in m && f in n
    {
      var i :| 0 <= i < |s.fields| && s.fields[i].name == f;
      assert FieldHolds(s, s.fields[i], m) && FieldHolds(s, s.fields[i], n);
    }
  }

  /** A record of exactly the declared fields, each at an end of its domain. */
  function Ends(s: Scope, fs: seq<FieldDecl>, high: bool): map<string, Value> {
    if fs == [] then map[]
    else Ends(s, fs[1..], high)[fs[0].name := End(s, fs[0], high)]
  }

  function Span(s: Scope, f: FieldDecl): Interval {
    if f.name in s.fieldFacts then s.fieldFacts[f.name].first else DeclaredDomain(f).first
  }

  function End(s: Scope, f: FieldDecl, high: bool): Value {
    if f.ty.TNumber? then VNumber(if high then Span(s, f).hi else Span(s, f).lo) else VText([])
  }

  /** The recorded facts are single intervals within the declarations. */
  predicate FactsNarrow(s: Scope) {
    && (forall n | n in s.fieldFacts :: s.fieldFacts[n].second.None?)
    && forall f | f in s.fields && f.ty.TNumber? ::
         DeclaredDomain(f).first.lo <= Span(s, f).lo <= Span(s, f).hi <= DeclaredDomain(f).first.hi
  }

  lemma EndInside(s: Scope, f: FieldDecl, high: bool, m: map<string, Value>)
    requires ScopeOk(s) && FactsNarrow(s) && f in s.fields && f.name in m && m[f.name] == End(s, f, high)
    ensures FieldHolds(s, f, m)
  {
    assert FieldOk(f);
  }

  lemma {:induction false} EndsNamed(s: Scope, fs: seq<FieldDecl>, high: bool)
    ensures Ends(s, fs, high).Keys == Names(fs)
  {
    if fs != [] {
      EndsNamed(s, fs[1..], high);
      NamesCons(fs);
    }
  }

  lemma {:induction false} EndsAre(s: Scope, fs: seq<FieldDecl>, high: bool)
    requires DistinctNames(fs)
    ensures forall f | f in fs :: f.name in Ends(s, fs, high) && Ends(s, fs, high)[f.name] == End(s, f, high)
  {
    if fs != [] {
      EndsAre(s, fs[1..], high);
      forall f | f in fs && f != fs[0]
        ensures f in fs[1..] && f.name != fs[0].name
      {
        var j :| 0 < j < |fs| && fs[j] == f;
        assert fs[1..][j - 1] == f;
      }
    }
  }

  lemma EndsInside(s: Scope, high: bool)
    requires ScopeOk(s) && FactsNarrow(s) && DistinctNames(s.fields)
    ensures Inside(s, Ends(s, s.fields, high))
  {
    EndsAre(s, s.fields, high);
    forall f | f in s.fields
      ensures FieldHolds(s, f, Ends(s, s.fields, high))
    {
      EndInside(s, f, high, Ends(s, s.fields, high));
    }
  }

  lemma NamesCons(fs: seq<FieldDecl>)
    requires fs != []
    ensures Names(fs) == {fs[0].name} + Names(fs[1..])
  {
    forall x | x in Names(fs)
      ensures x in {fs[0].name} + Names(fs[1..])
    {
      var i :| 0 <= i < |fs| && fs[i].name == x;
      if i > 0 {
        assert fs[1..][i - 1].name == x;
      }
    }
    forall x | x in Names(fs[1..])
      ensures x in Names(fs)
    {
      var i :| 0 <= i < |fs[1..]| && fs[1..][i].name == x;
      assert fs[i + 1].name == x;
    }
  }

  // ----- one operation on single intervals -----

  /** One piece on either side gives one piece. */
  lemma OnePair(p: Interval, q: Interval, f: (Interval, Interval) -> Option<Interval>)
    requires Nonempty(p) && Nonempty(q) && (f(p, q).Some? ==> Nonempty(f(p, q).value))
    ensures Pairwise(Domain(p, None), Domain(q, None), f) ==
            (match f(p, q) case None => None case Some(i) => Some(Domain(i, None)))
  {
    var c := Cross(Domain(p, None), Domain(q, None));
    assert c == [(p, q)];
    if f(p, q).Some? {
      var ps := MapPairs(c, f).value;
      assert ps == [f(p, q).value];
      assert Ranges.Collect(ps) == Some(Domain(ps[0], None)) by {
        assert DropEmpty(ps) == [ps[0]] + DropEmpty(ps[1..]);
        assert ps[1..] == [];
        assert Sort([ps[0]]) == Insert(ps[0], Sort([]));
        assert Extend([], ps[0]) == [ps[0]];
        assert [ps[0]][1..] == [];
        assert MergeOnto([], [ps[0]]) == MergeOnto([ps[0]], []);
      }
    }
  }

  /** The outcome of an operation on intervals whose ends are taken: its own
      ends are results at some corners, or it fails at some corner. */
  predicate Corner(p: Interval, x: int) { x == p.lo || x == p.hi }

  lemma ArithCorners(op: BinOp, p: Interval, q: Interval) returns (x: i64, y: i64, x': i64, y': i64)
    requires IsArith(op) && !op.Mod? && Nonempty(p) && Nonempty(q) && (op.Div? ==> q.lo == q.hi)
    ensures Corner(p, x) && Corner(q, y) && Corner(p, x') && Corner(q, y')
    ensures match ArithOn(op)(p, q)
      case None => !Defined(op, x, y)
      case Some(i) => Nonempty(i) && Defined(op, x, y) && Defined(op, x', y')
                      && i.lo == Exact(op, x, y) && i.hi == Exact(op, x', y')
  {
    if op.Div? && Within(0, q) {
      return p.lo, q.lo, p.lo, q.lo;
    }
    if op.Div? && p.lo == MIN && Within(-1, q) {
      return p.lo, q.lo, p.lo, q.lo;
    }
    x, y, x', y' := EndpointsAttained(op, p, q);
    if ArithOn(op)(p, q).Some? {
      ArithmeticSound(op, p, q, x, y);
      ArithmeticSound(op, p, q, x', y');
      InBox(op, p, q, p.lo, q.lo);
    } else {
      if op.Div? {
        DivShrinks(x, y);
        DivShrinks(x', y');
      }
      if Exact(op, x, y) >= MIN {
        x, y := x', y';
      }
    }
  }

  // ----- expressions -----

  /** An analysed outcome and the values at two inputs: the ends of its single
      interval, or a failure at the first. */
  predicate Exactly(o: Option<AVal>, low: Res<Value>, high: Res<Value>) {
    match o
    case None => !IsNumber(low)
    case Some(v) =>
      v.ANum? && v.d.second.None? && low == Good(VNumber(v.d.first.lo)) && high == Good(VNumber(v.d.first.hi))
  }

  /** The analysed outcome of an expression is the exact one, as two admitted
      inputs show. */
  ghost predicate ExactAt(c: Ctx, r: Rule, s: Scope, e: Expr, k: nat, low: map<string, Value>, high: map<string, Value>)
    requires ScopeOk(s)
  {
    && Inside(s, low) && Inside(s, high)
    && Exactly(AnalyzeExpr(c.prog, r, s, e, k), At(c, r.input, e, low, k), At(c, r.input, e, high, k))
    && (AnalyzeExpr(c.prog, r, s, e, k).Some? ==> Declared(s.fields, e))
  }

  predicate Fresh(c: Ctx, r: Rule, s: Scope) {
    && ScopeOk(s) && s.input == r.input && s.locals == map[] && FactsNarrow(s) && DistinctNames(s.fields)
    && c.sem == Sem(false, false, Off)
  }

  lemma {:induction false} ExprExact(c: Ctx, r: Rule, s: Scope, e: Expr, k: nat)
    returns (low: map<string, Value>, high: map<string, Value>)
    requires Fresh(c, r, s) && ReadOnce(r.input, e)
    ensures ExactAt(c, r, s, e, k, low, high)
    decreases e
  {
    match e
    case Number(n) =>
      low, high := Ends(s, s.fields, false), Ends(s, s.fields, false);
      EndsInside(s, false);
    case Field(_, _) => low, high := FieldExact(c, r, s, e, k);
    case Unary(_, a) =>
      var l, h := ExprExact(c, r, s, a, k);
      low, high := NegExact(c, r, s, e, k, l, h);
    case Prim(_, a, b) =>
      var l, h := ExprExact(c, r, s, a, k);
      var l', h' := ExprExact(c, r, s, b, k);
      low, high := PairExact(c, r, s, e, a, b, k, l, h, l', h');
    case Binary(_, a, b) =>
      var l, h := ExprExact(c, r, s, a, k);
      var l', h' := ExprExact(c, r, s, b, k);
      low, high := PairExact(c, r, s, e, a, b, k, l, h, l', h');
  }

  lemma {:induction false} FieldFound(fs: seq<FieldDecl>, f: FieldDecl)
    requires DistinctNames(fs) && f in fs
    ensures FindField(fs, f.name) == Some(f)
    ensures f.ty.TNumber? ==> FindNumeric(fs, f.name) == Some(f)
  {
    if fs[0] != f {
      var j :| 0 <= j < |fs| && fs[j] == f;
      assert fs[0].name != fs[j].name;
      assert f == fs[1..][j - 1];
      FieldFound(fs[1..], f);
    }
  }

  lemma FieldExact(c: Ctx, r: Rule, s: Scope, e: Expr, k: nat)
    returns (low: map<string, Value>, high: map<string, Value>)
    requires Fresh(c, r, s) && e.Field? && ReadOnce(r.input, e)
    ensures ExactAt(c, r, s, e, k, low, high)
  {
    low, high := Ends(s, s.fields, false), Ends(s, s.fields, true);
    EndsFound(s, e.field, false);
    EndsFound(s, e.field, true);
    FieldRuns(c, r.input, e, low, k);
    FieldRuns(c, r.input, e, high, k);
    FieldSteps(c, r, s, e, k);
    assert Reads(e) == {e.field};
  }

  lemma EndsFound(s: Scope, name: string, high: bool)
    requires ScopeOk(s) && FactsNarrow(s) && DistinctNames(s.fields)
    ensures Inside(s, Ends(s, s.fields, high))
    ensures var m := Ends(s, s.fields, high);
      match FindField(s.fields, name)
      case None => name !in m
      case Some(f) => name in Names(s.fields) && name in m && m[name] == End(s, f, high)
  {
    EndsInside(s, high);
    EndsAre(s, s.fields, high);
    EndsNamed(s, s.fields, high);
    var f := FindField(s.fields, name);
    if f.Some? {
      var i :| 0 <= i < |s.fields| && s.fields[i] == f.value;
    }
  }

  lemma FieldRuns(c: Ctx, input: string, e: Expr, m: map<string, Value>, k: nat)
    requires e.Field? && e.base == Ident(input)
    ensures At(c, input, e, m, k) == if e.field in m then Good(m[e.field]) else Bad(Stuck)
  {
    assert Eval(c, e.base, map[input := VRecord(m)], k) == Good(VRecord(m));
  }

  lemma FieldSteps(c: Ctx, r: Rule, s: Scope, e: Expr, k: nat)
    requires Fresh(c, r, s) && e.Field? && e.base == Ident(r.input)
    ensures AnalyzeExpr(c.prog, r, s, e, k) ==
      match FindField(s.fields, e.field)
      case None => None
      case Some(f) => if f.ty.TNumber? then Some(ANum(Domain(Span(s, f), None))) else None
  {
    var f := FindField(s.fields, e.field);
    if f.Some? {
      FieldFound(s.fields, f.value);
    }
  }

  lemma NegExact(c: Ctx, r: Rule, s: Scope, e: Expr, k: nat, l: map<string, Value>, h: map<string, Value>)
    returns (low: map<string, Value>, high: map<string, Value>)
    requires Fresh(c, r, s) && e.Unary? && e.uop.Neg? && ExactAt(c, r, s, e.arg, k, l, h)
    ensures ExactAt(c, r, s, e, k, low, high)
  {
    var v := AnalyzeExpr(c.prog, r, s, e.arg, k);
    if v.None? || v.value.d.first.lo == MIN {
      low, high := l, h;
    } else {
      low, high := h, l;
    }
    NegSteps(c, r, s, e, k, low);
    NegSteps(c, r, s, e, k, high);
    if v.Some? {
      NegEnds(c.sem, v.value);
    }
  }

  lemma NegSteps(c: Ctx, r: Rule, s: Scope, e: Expr, k: nat, m: map<string, Value>)
    requires ScopeOk(s) && e.Unary? && e.uop.Neg?
    ensures var v := AnalyzeExpr(c.prog, r, s, e.arg, k);
      AnalyzeExpr(c.prog, r, s, e, k) == if v.None? then None else AnalyzeUnary(Neg, v.value)
    ensures var w := At(c, r.input, e.arg, m, k);
      At(c, r.input, e, m, k) == if w.Bad? then w else ApplyUnary(c.sem, Neg, w.value)
  {
  }

  /** Negation exchanges the ends. */
  lemma NegEnds(m: Sem, v: AVal)
    requires m == Sem(false, false, Off) && ValOk(v) && v.ANum? && v.d.second.None?
    ensures var (lo, hi) := (VNumber(v.d.first.lo), VNumber(v.d.first.hi));
      if lo.n == MIN then AnalyzeUnary(Neg, v).None? && ApplyUnary(m, Neg, lo).Bad?
      else Exactly(AnalyzeUnary(Neg, v), ApplyUnary(m, Neg, hi), ApplyUnary(m, Neg, lo))
  {
    OnePair(v.d.first, Interval(0, 0), NegOn());
  }

  /** Two operands with their outcomes, and the fields they read. */
  ghost predicate Operands(c: Ctx, r: Rule, s: Scope, e: Expr, a: Expr, b: Expr, k: nat, l: map<string, Value>,
      h: map<string, Value>, l': map<string, Value>, h': map<string, Value>) {
    && Fresh(c, r, s) && Children(e) == [a, b] && ReadOnce(r.input, a) && ReadOnce(r.input, b) && Reads(a) !! Reads(b)
    && ExactAt(c, r, s, a, k, l, h) && ExactAt(c, r, s, b, k, l', h')
  }

  lemma ReadsOfPair(e: Expr, a: Expr, b: Expr)
    requires (e.Prim? || e.Binary?) && Children(e) == [a, b]
    ensures Reads(e) == Reads(a) + Reads(b)
  {
  }

  /** An input at which both operands take chosen ends of their intervals. */
  lemma AtCorner(c: Ctx, r: Rule, s: Scope, e: Expr, a: Expr, b: Expr, k: nat, l: map<string, Value>,
      h: map<string, Value>, l': map<string, Value>, h': map<string, Value>, x: i64, y: i64)
    returns (w: map<string, Value>)
    requires Operands(c, r, s, e, a, b, k, l, h, l', h')
    requires AnalyzeExpr(c.prog, r, s, a, k).Some? && AnalyzeExpr(c.prog, r, s, b, k).Some?
    requires Corner(AnalyzeExpr(c.prog, r, s, a, k).value.d.first, x)
    requires Corner(AnalyzeExpr(c.prog, r, s, b, k).value.d.first, y)
    ensures Inside(s, w)
    ensures At(c, r.input, a, w, k) == Good(VNumber(x)) && At(c, r.input, b, w, k) == Good(VNumber(y))
  {
    var m := if x == AnalyzeExpr(c.prog, r, s, a, k).value.d.first.lo then l else h;
    var n := if y == AnalyzeExpr(c.prog, r, s, b, k).value.d.first.lo then l' else h';
    w := Independent(c, r.input, s, a, b, m, n, k);
  }

  /** What a two-operand node is in terms of its operands. */
  function Analyzed(e: Expr, v: Option<AVal>, w: Option<AVal>): Option<AVal>
    requires e.Prim? || e.Binary?
    requires v.Some? ==> ValOk(v.value)
  {
    if v.None? || w.None? then None
    else if e.Prim? then AnalyzePrim(e.pop, v.value, w.value)
    else AnalyzeBinary(e.op, false, v.value, w.value)
  }

  function Applied(m: Sem, e: Expr, x: Value, y: Value): Res<Value>
    requires e.Prim? || e.Binary?
  {
    if e.Prim? then ApplyPrim(m, e.pop, x, y) else ApplyBinary(m, e.op, x, y)
  }

  /** The two-operand nodes of `ReadOnce`. */
  predicate Node(e: Expr) {
    || (e.Prim? && (e.pop.MinOp? || e.pop.MaxOp?))
    || (e.Binary? && (e.op.Add? || e.op.Sub? || e.op.Mul? || (e.op.Div? && e.right.Number?)))
  }

  lemma PairSteps(c: Ctx, r: Rule, s: Scope, e: Expr, a: Expr, b: Expr, k: nat)
    requires Fresh(c, r, s) && Node(e) && Children(e) == [a, b] && Reads(a) !! Reads(b)
    ensures AnalyzeExpr(c.prog, r, s, e, k) ==
      Analyzed(e, AnalyzeExpr(c.prog, r, s, a, k), AnalyzeExpr(c.prog, r, s, b, k))
  {
    if e.Binary? {
      NotRepeated(r, s, a, b);
    }
  }

  lemma PairRuns(c: Ctx, input: string, e: Expr, a: Expr, b: Expr, m: map<string, Value>, k: nat)
    requires Node(e) && Children(e) == [a, b]
    ensures var (v, w) := (At(c, input, a, m, k), At(c, input, b, m, k));
      At(c, input, e, m, k) == if v.Bad? then v else if w.Bad? then w else Applied(c.sem, e, v.value, w.value)
  {
  }

  /** A number comes only from numbers. */
  lemma AppliedToNumbers(m: Sem, e: Expr, x: Value, y: Value)
    requires Node(e) && IsNumber(Applied(m, e, x, y))
    ensures x.VNumber? && y.VNumber?
  {
  }

  /** The corners at which a node takes the ends of its interval, or fails. */
  lemma NodeCorners(m: Sem, e: Expr, v: AVal, w: AVal) returns (x: i64, y: i64, x': i64, y': i64)
    requires m == Sem(false, false, Off) && Node(e) && OneInterval(v) && OneInterval(w)
    requires e.Binary? && e.op.Div? ==> w.d.first.lo == w.d.first.hi
    ensures Corner(v.d.first, x) && Corner(w.d.first, y) && Corner(v.d.first, x') && Corner(w.d.first, y')
    ensures Exactly(Analyzed(e, Some(v), Some(w)), Applied(m, e, VNumber(x), VNumber(y)),
      Applied(m, e, VNumber(x'), VNumber(y')))
  {
    if e.Prim? {
      x, y, x', y' := v.d.first.lo, w.d.first.lo, v.d.first.hi, w.d.first.hi;
      BoundEnds(m, e.pop, v, w);
    } else {
      x, y, x', y' := ArithEnds(m, e.op, v, w);
    }
  }

  predicate OneInterval(v: AVal) { ValOk(v) && v.ANum? && v.d.second.None? }

  lemma BoundEnds(m: Sem, op: PrimOp, v: AVal, w: AVal)
    requires OneInterval(v) && OneInterval(w) && (op.MinOp? || op.MaxOp?)
    ensures var (p, q) := (v.d.first, w.d.first);
      Exactly(AnalyzePrim(op, v, w), ApplyPrim(m, op, VNumber(p.lo), VNumber(q.lo)),
        ApplyPrim(m, op, VNumber(p.hi), VNumber(q.hi)))
  {
    OnePair(v.d.first, w.d.first, if op.MinOp? then MinOn() else MaxOn());
  }

  lemma ArithEnds(m: Sem, op: BinOp, v: AVal, w: AVal) returns (x: i64, y: i64, x': i64, y': i64)
    requires m == Sem(false, false, Off) && OneInterval(v) && OneInterval(w) && IsArith(op) && !op.Mod?
    requires op.Div? ==> w.d.first.lo == w.d.first.hi
    ensures Corner(v.d.first, x) && Corner(w.d.first, y) && Corner(v.d.first, x') && Corner(w.d.first, y')
    ensures Exactly(AnalyzeBinary(op, false, v, w), ApplyBinary(m, op, VNumber(x), VNumber(y)),
      ApplyBinary(m, op, VNumber(x'), VNumber(y')))
  {
    var p, q := v.d.first, w.d.first;
    x, y, x', y' := ArithCorners(op, p, q);
    OnePair(p, q, ArithOn(op));
    assert v.d == Domain(p, None) && w.d == Domain(q, None);
    if ArithOn(op)(p, q).Some? {
      DefinedEvaluates(m, op, x, y);
      DefinedEvaluates(m, op, x', y');
    } else {
      UndefinedFails(m, op, x, y);
    }
  }

  lemma UndefinedFails(m: Sem, op: BinOp, x: i64, y: i64)
    requires m == Sem(false, false, Off) && IsArith(op) && !Defined(op, x, y)
    ensures ApplyBinary(m, op, VNumber(x), VNumber(y)).Bad?
  {
  }

  lemma PairExact(c: Ctx, r: Rule, s: Scope, e: Expr, a: Expr, b: Expr, k: nat, l: map<string, Value>,
      h: map<string, Value>, l': map<string, Value>, h': map<string, Value>)
    returns (low: map<string, Value>, high: map<string, Value>)
    requires Node(e) && Operands(c, r, s, e, a, b, k, l, h, l', h')
    ensures ExactAt(c, r, s, e, k, low, high)
  {
    var v, w := AnalyzeExpr(c.prog, r, s, a, k), AnalyzeExpr(c.prog, r, s, b, k);
    PairSteps(c, r, s, e, a, b, k);
    if v.None? || w.None? {
      low, high := if v.None? then l else l', l;
      OperandFails(c, r.input, e, a, b, low, k);
    } else {
      low, high := CornersTaken(c, r, s, e, a, b, k, l, h, l', h');
    }
  }

  lemma CornersTaken(c: Ctx, r: Rule, s: Scope, e: Expr, a: Expr, b: Expr, k: nat, l: map<string, Value>,
      h: map<string, Value>, l': map<string, Value>, h': map<string, Value>)
    returns (low: map<string, Value>, high: map<string, Value>)
    requires Node(e) && Operands(c, r, s, e, a, b, k, l, h, l', h')
    requires AnalyzeExpr(c.prog, r, s, a, k).Some? && AnalyzeExpr(c.prog, r, s, b, k).Some?
    ensures Inside(s, low) && Inside(s, high) && Declared(s.fields, e)
    ensures Exactly(Analyzed(e, AnalyzeExpr(c.prog, r, s, a, k), AnalyzeExpr(c.prog, r, s, b, k)),
      At(c, r.input, e, low, k), At(c, r.input, e, high, k))
  {
    ReadsOfPair(e, a, b);
    var v, w := AnalyzeExpr(c.prog, r, s, a, k).value, AnalyzeExpr(c.prog, r, s, b, k).value;
    var x, y, x', y' := NodeCorners(c.sem, e, v, w);
    low := AtCorner(c, r, s, e, a, b, k, l, h, l', h', x, y);
    high := AtCorner(c, r, s, e, a, b, k, l, h, l', h', x', y');
    PairRuns(c, r.input, e, a, b, low, k);
    PairRuns(c, r.input, e, a, b, high, k);
  }

  /** A refused operand makes the whole fail where the operand does. */
  lemma OperandFails(c: Ctx, input: string, e: Expr, a: Expr, b: Expr, m: map<string, Value>, k: nat)
    requires Node(e) && Children(e) == [a, b]
    requires !IsNumber(At(c, input, a, m, k)) || !IsNumber(At(c, input, b, m, k))
    ensures !IsNumber(At(c, input, e, m, k))
  {
    PairRuns(c, input, e, a, b, m, k);
    var x, y := At(c, input, a, m, k), At(c, input, b, m, k);
    if x.Good? && y.Good? && IsNumber(Applied(c.sem, e, x.value, y.value)) {
      AppliedToNumbers(c.sem, e, x.value, y.value);
    }
  }

  /** Operands that share no field are never the same scalar. */
  lemma NotRepeated(r: Rule, s: Scope, a: Expr, b: Expr)
    requires s.locals == map[] && Reads(a) !! Reads(b)
    ensures !SameScalar(s, a, b)
  {
    if a.Field? && b.Field? {
      assert a.field in Reads(a) && b.field in Reads(b);
    }
  }

  /** Without calls the budget plays no part. */
  lemma {:induction false} ExprIdle(c: Ctx, r: Rule, s: Scope, e: Expr, j: nat, k: nat)
    requires ScopeOk(s) && ReadOnce(r.input, e)
    ensures AnalyzeExpr(c.prog, r, s, e, j) == AnalyzeExpr(c.prog, r, s, e, k)
    decreases e
  {
    match e
    case Unary(_, a) => ExprIdle(c, r, s, a, j, k);
    case Prim(_, a, b) =>
      ExprIdle(c, r, s, a, j, k);
      ExprIdle(c, r, s, b, j, k);
    case Binary(_, a, b) =>
      ExprIdle(c, r, s, a, j, k);
      ExprIdle(c, r, s, b, j, k);
    case _ =>
  }
}
