/** The optimizer finishes what it starts: in an optimized expression nothing
    is left that its rewrites are for. What is left out of folding is named. */
module OptimizerNormal {
  import opened Int64
  import opened Ast
  import opened TextOps
  import opened Interp
  import opened Optimizer

  const NATIVE := Sem(true, true, Off)

  function Literal(e: Expr): Option<Value> {
    match e
    case Number(n) => Some(VNumber(n))
    case Text(s) => Some(VText(s))
    case BytesLit(b) => Some(VBytes(b))
    case _ => None
  }

  /** An operation on literals that evaluates to a value. Of the operations, `not`,
      `bit_not`, the shifts and the bitwise pairs are never folded. */
  predicate Constant(e: Expr) {
    match e
    case Unary(op, a) =>
      && op in {Neg, Abs, ParseInt, JsonEscape, Le32, Le64, Length}
      && Literal(a).Some? && ApplyUnary(NATIVE, op, Literal(a).value).Good?
    case Binary(op, a, b) =>
      a.Number? && b.Number? && ApplyBinary(NATIVE, op, VNumber(a.n), VNumber(b.n)).Good?
    case Prim(op, a, b) =>
      && op in {MinOp, MaxOp, StartsWith, EndsWith, Contains, ByteAt}
      && Literal(a).Some? && Literal(b).Some?
      && ApplyPrim(NATIVE, op, Literal(a).value, Literal(b).value).Good?
    case Substring(a, b, c) =>
      && Literal(a).Some? && Literal(b).Some? && Literal(c).Some?
      && ApplySubstring(Literal(a).value, Literal(b).value, Literal(c).value).Good?
    case Concat(es) => forall a | a in es :: a.Text? || a.Number?
    case _ => false
  }

  /** An operation that gives back an operand, or zero. */
  predicate Trivial(e: Expr, fr: Bounds, input: string) {
    match e
    case Binary(Add, a, b) => a == Number(0) || b == Number(0)
    case Binary(Sub, _, b) => b == Number(0)
    case Binary(Mul, a, b) =>
      || a == Number(1) || b == Number(1)
      || (a == Number(0) && CanDiscard(b, fr, input)) || (b == Number(0) && CanDiscard(a, fr, input))
    case Binary(Div, _, b) => b == Number(1)
    case Unary(Not, Unary(Not, _)) => true
    case Unary(Neg, Unary(Neg, _)) => true
    case _ => false
  }

  /** The ordering holds, or fails, on every pair from the two intervals. */
  predicate Settled(op: BinOp, l: (i64, i64), r: (i64, i64), truth: bool) {
    && l.0 <= l.1 && r.0 <= r.1
    && forall x: i64, y: i64 | l.0 <= x <= l.1 && r.0 <= y <= r.1 :: Compare(op, x, y) == truth
  }

  /** A conditional on an ordering that the ranges of its operands settle. */
  predicate Decided(e: Expr, fr: Bounds, input: string) {
    && e.If? && e.cond.Binary? && e.cond.op in {Lt, LtEq, Gt, GtEq} && CanDiscard(e.cond, fr, input)
    && var (l, r) := (ComputeRange(e.cond.left, fr, input), ComputeRange(e.cond.right, fr, input));
       l.Some? && r.Some? && exists truth :: Settled(e.cond.op, l.value, r.value, truth)
  }

  lemma DecidesSettled(e: Expr, fr: Bounds, input: string)
    requires Decided(e, fr, input)
    ensures StaticEval(e.cond, fr, input).Some?
  {
    var op, l, r := e.cond.op, ComputeRange(e.cond.left, fr, input).value, ComputeRange(e.cond.right, fr, input).value;
    assert Compare(op, l.0, r.1) == Compare(op, l.1, r.0);
  }

  predicate Reducible(e: Expr, fr: Bounds, input: string) {
    Constant(e) || Trivial(e, fr, input) || Decided(e, fr, input)
  }

  /** The subexpressions the pass enters: all but the table of a try_byte_at. */
  function Entered(e: Expr): (cs: seq<Expr>)
    ensures forall c | c in cs :: c < e
  {
    if e.TryByteAt? then [e.index] else Children(e)
  }

  predicate Normal(p: Pass, e: Expr)
    decreases e
  {
    !Reducible(e, p.fr, p.input) && forall c | c in Entered(e) :: Normal(p, c)
  }

  // ----- one node -----

  /** What simplifying a node gives: itself, a literal, or something below it. */
  predicate Outcome(e: Expr, r: Expr) {
    r == e || Literal(r).Some? || r in Entered(e) || exists c | c in Entered(e) :: r in Entered(c)
  }

  lemma SimplifyUnaryOutcome(e: Expr, fr: Bounds, input: string)
    requires e.Unary?
    ensures Outcome(e, SimplifyUnary(e)) && (SimplifyUnary(e) == e ==> !Reducible(e, fr, input))
  {
    assert e.arg in Entered(e);
    if e.arg.Unary? {
      assert e.arg.arg in Entered(e.arg);
    }
  }

  lemma FoldsConstants(op: BinOp, l: i64, r: i64)
    ensures FoldNumbers(op, l, r).Some? <==> ApplyBinary(NATIVE, op, VNumber(l), VNumber(r)).Good?
    ensures FoldNumbers(op, l, r).Some? ==> FoldNumbers(op, l, r).value.Number?
  {
  }

  lemma SimplifyBinaryOutcome(e: Expr, fr: Bounds, input: string)
    requires e.Binary?
    ensures var r := SimplifyBinary(e, fr, input); Outcome(e, r) && (r == e ==> !Reducible(e, fr, input))
  {
    assert e.left in Entered(e) && e.right in Entered(e);
    if e.left.Number? && e.right.Number? {
      FoldsConstants(e.op, e.left.n, e.right.n);
    }
  }

  lemma SimplifyPrimOutcome(e: Expr, fr: Bounds, input: string)
    requires e.Prim?
    ensures Outcome(e, SimplifyPrim(e)) && (SimplifyPrim(e) == e ==> !Reducible(e, fr, input))
  {
  }

  lemma {:induction false} JoinsLiterals(es: seq<Expr>)
    ensures JoinLiterals(es).Some? <==> forall a | a in es :: a.Text? || a.Number?
  {
    if es != [] {
      JoinsLiterals(es[1..]);
      assert es == [es[0]] + es[1..];
    }
  }

  lemma SimplifyOutcome(e: Expr, fr: Bounds, input: string)
    ensures var r := Simplify(e, fr, input); Outcome(e, r) && (r == e ==> !Reducible(e, fr, input))
  {
    match e
    case Unary(_, _) => SimplifyUnaryOutcome(e, fr, input);
    case Binary(_, _, _) => SimplifyBinaryOutcome(e, fr, input);
    case Prim(_, _, _) => SimplifyPrimOutcome(e, fr, input);
    case If(q, a, b) =>
      assert a in Entered(e) && b in Entered(e);
      if Decided(e, fr, input) {
        DecidesSettled(e, fr, input);
      }
    case Concat(es) => JoinsLiterals(es);
    case _ =>
  }

  lemma LiteralNormal(p: Pass, e: Expr)
    requires Literal(e).Some?
    ensures Normal(p, e)
  {
  }

  /** Over normal subexpressions, simplifying gives a normal expression. */
  lemma SimplifyNormal(p: Pass, e: Expr)
    requires forall c | c in Entered(e) :: Normal(p, c)
    ensures Normal(p, Simplify(e, p.fr, p.input))
  {
    var r := Simplify(e, p.fr, p.input);
    SimplifyOutcome(e, p.fr, p.input);
    if r == e {
    } else if Literal(r).Some? {
      LiteralNormal(p, r);
    } else if r !in Entered(e) {
      var c :| c in Entered(e) && r in Entered(c);
      assert Normal(p, c);
    }
  }

  // ----- the pass -----

  /** No optimized expression holds a constant operation, a trivial identity or a
      decided branch, at any depth. */
  lemma {:induction false} OptimizedNormal(p: Pass, e: Expr)
    requires p.on
    ensures Normal(p, Optimize(p, e))
    decreases e, 1
  {
    RebuiltNormal(p, e);
    SimplifyNormal(p, Rebuild(p, e));
  }

  lemma {:induction false} RebuiltNormal(p: Pass, e: Expr)
    requires p.on
    ensures forall c | c in Entered(Rebuild(p, e)) :: Normal(p, c)
    decreases e, 0, 1
  {
    match e
    case Call(_, args) => AllNormal(p, args);
    case Concat(args) => AllNormal(p, args);
    case Construct(_, _, inits) => InitsNormal(p, inits);
    case MatchVariant(s, arms) =>
      OptimizedNormal(p, s);
      ArmsNormal(p, arms);
    case _ =>
      ChildrenNormal(p, e);
      EnteredRebuilt(p, e);
  }

  lemma {:induction false} ChildrenNormal(p: Pass, e: Expr)
    requires p.on
    ensures forall c | c in Children(e) :: Normal(p, Optimize(p, c))
    decreases e, 0, 0
  {
    forall c | c in Children(e)
      ensures Normal(p, Optimize(p, c))
    {
      OptimizedNormal(p, c);
    }
  }

  /** The subexpressions of a rebuilt node are optimized subexpressions. */
  lemma EnteredRebuilt(p: Pass, e: Expr)
    requires !e.Call? && !e.Concat? && !e.Construct? && !e.MatchVariant?
    ensures forall d | d in Entered(Rebuild(p, e)) :: exists c :: c in Children(e) && d == Optimize(p, c)
  {
    if |Children(e)| > 0 { assert Children(e)[0] in Children(e); }
    if |Children(e)| > 1 { assert Children(e)[1] in Children(e); }
    if |Children(e)| > 2 { assert Children(e)[2] in Children(e); }
  }

  lemma {:induction false} AllNormal(p: Pass, es: seq<Expr>)
    requires p.on
    ensures forall c | c in OptimizeAll(p, es) :: Normal(p, c)
    decreases es, 0
  {
    if es != [] {
      OptimizedNormal(p, es[0]);
      AllNormal(p, es[1..]);
    }
  }

  lemma {:induction false} InitsNormal(p: Pass, fs: seq<FieldInit>)
    requires p.on
    ensures forall f | f in OptimizeInits(p, fs) :: Normal(p, f.value)
    decreases fs, 0
  {
    if fs != [] {
      OptimizedNormal(p, fs[0].value);
      InitsNormal(p, fs[1..]);
    }
  }

  lemma {:induction false} ArmsNormal(p: Pass, arms: seq<Arm>)
    requires p.on
    ensures forall a | a in OptimizeArms(p, arms) :: Normal(p, a.body)
    decreases arms, 0
  {
    if arms != [] {
      OptimizedNormal(p, arms[0].body);
      ArmsNormal(p, arms[1..]);
    }
  }
}
