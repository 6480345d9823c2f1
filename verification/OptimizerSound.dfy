/** The optimizer preserves meaning in the lowered semantics: every run that
    does not go wrong keeps its value, or its fault. */
module OptimizerSound {
  import opened Int64
  import opened Ast
  import opened TextOps
  import opened Interp
  import opened IntervalArith
  import opened Refinement
  import opened Inlining
  import opened Optimizer

  predicate Native(m: Sem) { m.lowered && m.wrap }

  /** The environment's input, if it is a record, lies in the declared ranges. */
  predicate InputInRange(fr: Bounds, input: string, env: Env) { input in env ==> InRanges(fr, env[input]) }

  // ----- ranges -----

  predicate Inside(r: (i64, i64), x: int) { r.0 <= x <= r.1 }

  lemma BinaryRangeSound(op: BinOp, l: (i64, i64), r: (i64, i64), x: i64, y: i64)
    requires BinaryRange(op, l, r).Some? && Inside(l, x) && Inside(r, y)
    ensures IsArith(op) && Defined(op, x, y) && Inside(BinaryRange(op, l, r).value, Exact(op, x, y))
  {
    var p, q := Interval(l.0, l.1), Interval(r.0, r.1);
    InBox(op, p, q, x, y);
    if op.Div? {
      DivShrinks(x, y);
    }
  }

  /** A computed range holds every value the expression can have. */
  lemma {:induction false} RangeSound(c: Ctx, e: Expr, fr: Bounds, input: string, env: Env, k: nat)
    requires Native(c.sem) && InputInRange(fr, input, env) && ComputeRange(e, fr, input).Some?
    ensures var v := Eval(c, e, env, k);
      v.Good? && v.value.VNumber? ==> Inside(ComputeRange(e, fr, input).value, v.value.n)
    decreases e
  {
    match e
    case Number(_) =>
    case Field(_, _) =>
    case Binary(op, a, b) =>
      RangeSound(c, a, fr, input, env, k);
      RangeSound(c, b, fr, input, env, k);
      RangeOfBinary(c, e, fr, input, env, k);
    case Unary(_, a) => RangeSound(c, a, fr, input, env, k);
    case If(_, a, b) =>
      RangeSound(c, a, fr, input, env, k);
      RangeSound(c, b, fr, input, env, k);
    case _ =>
  }

  lemma RangeOfBinary(c: Ctx, e: Expr, fr: Bounds, input: string, env: Env, k: nat)
    requires e.Binary? && ComputeRange(e, fr, input).Some?
    requires var v := Eval(c, e.left, env, k);
      v.Good? && v.value.VNumber? ==> Inside(ComputeRange(e.left, fr, input).value, v.value.n)
    requires var v := Eval(c, e.right, env, k);
      v.Good? && v.value.VNumber? ==> Inside(ComputeRange(e.right, fr, input).value, v.value.n)
    ensures var v := Eval(c, e, env, k);
      v.Good? && v.value.VNumber? ==> Inside(ComputeRange(e, fr, input).value, v.value.n)
    ensures var v := Eval(c, e, env, k); v.Bad? ==>
      v == Bad(Stuck) || v == Eval(c, e.left, env, k) || v == Eval(c, e.right, env, k)
  {
    var v, w := Eval(c, e.left, env, k), Eval(c, e.right, env, k);
    if v.Good? && w.Good? {
      AppliedInRange(c.sem, e.op, ComputeRange(e.left, fr, input).value, ComputeRange(e.right, fr, input).value,
        v.value, w.value);
    }
  }

  lemma AppliedInRange(m: Sem, op: BinOp, l: (i64, i64), r: (i64, i64), x: Value, y: Value)
    requires BinaryRange(op, l, r).Some? && (x.VNumber? ==> Inside(l, x.n)) && (y.VNumber? ==> Inside(r, y.n))
    ensures !op.And? && !op.Or?
    ensures var v := ApplyBinary(m, op, x, y);
      if v.Good? then (v.value.VNumber? ==> Inside(BinaryRange(op, l, r).value, v.value.n)) else v == Bad(Stuck)
  {
    if x.VNumber? && y.VNumber? {
      BinaryRangeSound(op, l, r, x.n, y.n);
      DefinedEvaluates(m, op, x.n, y.n);
    }
  }

  /** Discarding an expression loses no fault but a type error. */
  lemma {:induction false} DiscardSound(c: Ctx, e: Expr, fr: Bounds, input: string, env: Env, k: nat)
    requires Native(c.sem) && InputInRange(fr, input, env) && CanDiscard(e, fr, input)
    ensures var v := Eval(c, e, env, k); v.Good? || v == Bad(Stuck)
    decreases e
  {
    match e
    case Binary(op, a, b) =>
      DiscardSound(c, a, fr, input, env, k);
      DiscardSound(c, b, fr, input, env, k);
      if IsArithmetic(op) {
        RangeSound(c, a, fr, input, env, k);
        RangeSound(c, b, fr, input, env, k);
        RangeOfBinary(c, e, fr, input, env, k);
      }
    case Unary(_, a) => DiscardSound(c, a, fr, input, env, k);
    case If(q, a, b) =>
      DiscardSound(c, q, fr, input, env, k);
      DiscardSound(c, a, fr, input, env, k);
      DiscardSound(c, b, fr, input, env, k);
    case _ =>
  }

  /** A decided condition has its decision, or a type error. */
  lemma StaticEvalSound(c: Ctx, e: Expr, fr: Bounds, input: string, env: Env, k: nat)
    requires Native(c.sem) && InputInRange(fr, input, env) && StaticEval(e, fr, input).Some?
    ensures var v := Eval(c, e, env, k); v == Bad(Stuck) || v == Good(MkBool(c.sem, StaticEval(e, fr, input).value))
  {
    DiscardSound(c, e.left, fr, input, env, k);
    DiscardSound(c, e.right, fr, input, env, k);
    RangeSound(c, e.left, fr, input, env, k);
    RangeSound(c, e.right, fr, input, env, k);
  }

  // ----- discarding well-typed expressions -----

  /** A value of a scalar type, booleans read as the semantics reads them. */
  predicate Inhabits(m: Sem, v: Value, t: Type) {
    match t
    case TNumber => v.VNumber?
    case TBool => AsBool(m, v).Some?
    case TText => v.VText?
    case _ => false
  }

  /** The expression has the type when its names and fields have the values of
      the environment. Only the forms that can be discarded are typed; a folded
      comparison is a literal of boolean type. */
  predicate Typed(m: Sem, e: Expr, env: Env, t: Type)
    decreases e
  {
    match e
    case Number(n) => Inhabits(m, VNumber(n), t)
    case Ident(x) => x in env && Inhabits(m, env[x], t)
    case Field(Ident(x), f) => x in env && env[x].VRecord? && f in env[x].fields && Inhabits(m, env[x].fields[f], t)
    case Binary(op, a, b) =>
      if IsArithmetic(op) then t.TNumber? && Typed(m, a, env, TNumber) && Typed(m, b, env, TNumber)
      else if op.And? || op.Or? then t.TBool? && Typed(m, a, env, TBool) && Typed(m, b, env, TBool)
      else
        t.TBool? &&
        (|| (Typed(m, a, env, TNumber) && Typed(m, b, env, TNumber))
         || ((op.Eq? || op.NotEq?) &&
             (|| (Typed(m, a, env, TBool) && Typed(m, b, env, TBool))
              || (Typed(m, a, env, TText) && Typed(m, b, env, TText)))))
    case Unary(Neg, a) => t.TNumber? && Typed(m, a, env, TNumber)
    case Unary(Not, a) => t.TBool? && Typed(m, a, env, TBool)
    case If(q, a, b) => Typed(m, q, env, TBool) && Typed(m, a, env, t) && Typed(m, b, env, t)
    case _ => false
  }

  /** Discarding is safe: a well-typed expression that may be dropped has a
      value of its type on every in-range input. */
  lemma {:induction false} DiscardTyped(c: Ctx, e: Expr, t: Type, fr: Bounds, input: string, env: Env, k: nat)
    requires Native(c.sem) && InputInRange(fr, input, env) && CanDiscard(e, fr, input) && Typed(c.sem, e, env, t)
    ensures var v := Eval(c, e, env, k); v.Good? && Inhabits(c.sem, v.value, t)
    decreases e
  {
    match e
    case Binary(_, _, _) => DiscardTypedBinary(c, e, t, fr, input, env, k);
    case Unary(Neg, a) => DiscardTyped(c, a, TNumber, fr, input, env, k);
    case Unary(Not, a) => DiscardTyped(c, a, TBool, fr, input, env, k);
    case If(q, a, b) =>
      DiscardTyped(c, q, TBool, fr, input, env, k);
      DiscardTyped(c, a, t, fr, input, env, k);
      DiscardTyped(c, b, t, fr, input, env, k);
    case _ =>
  }

  lemma {:induction false} DiscardTypedBinary(c: Ctx, e: Expr, t: Type, fr: Bounds, input: string, env: Env, k: nat)
    requires Native(c.sem) && InputInRange(fr, input, env) && CanDiscard(e, fr, input) && Typed(c.sem, e, env, t) &&
      e.Binary?
    ensures var v := Eval(c, e, env, k); v.Good? && Inhabits(c.sem, v.value, t)
    decreases e, 0
  {
    var a, b := e.left, e.right;
    var numbers := Typed(c.sem, a, env, TNumber) && Typed(c.sem, b, env, TNumber) && IsComparison(e.op);
    var u := if IsArithmetic(e.op) || numbers then TNumber
             else if Typed(c.sem, a, env, TBool) && Typed(c.sem, b, env, TBool) then TBool
             else TText;
    DiscardTyped(c, a, u, fr, input, env, k);
    DiscardTyped(c, b, u, fr, input, env, k);
    if IsArithmetic(e.op) {
      RangeSound(c, a, fr, input, env, k);
      RangeSound(c, b, fr, input, env, k);
      var x, y := Eval(c, a, env, k).value.n, Eval(c, b, env, k).value.n;
      BinaryRangeSound(e.op, ComputeRange(a, fr, input).value, ComputeRange(b, fr, input).value, x, y);
      DefinedEvaluates(c.sem, e.op, x, y);
    }
  }

  /** A decided well-typed condition evaluates to its decision. */
  lemma StaticEvalTyped(c: Ctx, e: Expr, fr: Bounds, input: string, env: Env, k: nat)
    requires Native(c.sem) && InputInRange(fr, input, env) && StaticEval(e, fr, input).Some? &&
      Typed(c.sem, e, env, TBool)
    ensures Eval(c, e, env, k) == Good(MkBool(c.sem, StaticEval(e, fr, input).value))
  {
    DiscardTyped(c, e, TBool, fr, input, env, k);
    StaticEvalSound(c, e, fr, input, env, k);
  }

  // ----- rewrites at the root -----

  lemma FoldNumbersSound(c: Ctx, op: BinOp, l: i64, r: i64, env: Env, k: nat)
    requires Native(c.sem) && FoldNumbers(op, l, r).Some?
    ensures Eval(c, FoldNumbers(op, l, r).value, env, k) == ApplyBinary(c.sem, op, VNumber(l), VNumber(r))
  {
  }

  lemma LiteralEval(c: Ctx, n: i64, env: Env, k: nat)
    ensures Eval(c, Number(n), env, k) == Good(VNumber(n))
  {
  }

  lemma IdentitySound(c: Ctx, e: Expr, fr: Bounds, input: string, env: Env, k: nat)
    requires Native(c.sem) && InputInRange(fr, input, env) && e.Binary?
    ensures Refines(true, Eval(c, e, env, k), Eval(c, Identity(e, fr, input), env, k))
  {
    LiteralEval(c, 0, env, k);
    LiteralEval(c, 1, env, k);
    if e.op.Mul? {
      ProductSound(c, e, fr, input, env, k);
    } else if e.op.Div? {
      QuotientSound(c, e, fr, input, env, k);
    }
  }

  lemma ProductSound(c: Ctx, e: Expr, fr: Bounds, input: string, env: Env, k: nat)
    requires Native(c.sem) && InputInRange(fr, input, env) && e.Binary? && e.op.Mul?
    requires Eval(c, Number(0), env, k) == Good(VNumber(0)) && Eval(c, Number(1), env, k) == Good(VNumber(1))
    ensures Refines(true, Eval(c, e, env, k), Eval(c, Identity(e, fr, input), env, k))
  {
    var l, r := e.left, e.right;
    if r == Number(0) && CanDiscard(l, fr, input) {
      DiscardSound(c, l, fr, input, env, k);
    }
    if l == Number(0) && CanDiscard(r, fr, input) {
      DiscardSound(c, r, fr, input, env, k);
    }
  }

  lemma QuotientSound(c: Ctx, e: Expr, fr: Bounds, input: string, env: Env, k: nat)
    requires Native(c.sem) && e.Binary? && e.op.Div? && Eval(c, Number(1), env, k) == Good(VNumber(1))
    ensures Refines(true, Eval(c, e, env, k), Eval(c, Identity(e, fr, input), env, k))
  {
    var v := Eval(c, e.left, env, k);
    if e.right == Number(1) && v.Good? && v.value.VNumber? {
      DivideByOne(v.value.n);
    }
  }

  lemma DivideByOne(x: i64)
    ensures TruncDiv(x, 1) == x
  {
  }

  lemma SimplifyBinarySound(c: Ctx, e: Expr, fr: Bounds, input: string, env: Env, k: nat)
    requires Native(c.sem) && InputInRange(fr, input, env) && e.Binary?
    ensures Refines(true, Eval(c, e, env, k), Eval(c, SimplifyBinary(e, fr, input), env, k))
  {
    if e.left.Number? && e.right.Number? && FoldNumbers(e.op, e.left.n, e.right.n).Some? {
      LiteralEval(c, e.left.n, env, k);
      LiteralEval(c, e.right.n, env, k);
      FoldNumbersSound(c, e.op, e.left.n, e.right.n, env, k);
    } else {
      IdentitySound(c, e, fr, input, env, k);
    }
  }

  lemma WrapNegTwice(x: i64)
    ensures Wrap(0 - Wrap(0 - x)) == x
  {
    if x == MIN {
      assert Wrap(0 - x) == MIN;
    }
  }

  lemma NegTwice(m: Sem, v: Value)
    requires Native(m)
    ensures v.VNumber? ==>
      ApplyUnary(m, Neg, v).Good? && ApplyUnary(m, Neg, ApplyUnary(m, Neg, v).value) == Good(v)
  {
    if v.VNumber? {
      WrapNegTwice(v.n);
    }
  }

  lemma NotTwice(m: Sem, v: Value)
    requires Native(m)
    ensures AsBool(m, v).Some? ==>
      ApplyUnary(m, Not, v).Good? && ApplyUnary(m, Not, ApplyUnary(m, Not, v).value) == Good(v)
  {
  }

  lemma DoubledSound(c: Ctx, op: UnOp, a: Expr, env: Env, k: nat)
    requires Native(c.sem) && (op.Not? || op.Neg?)
    ensures Refines(true, Eval(c, Unary(op, Unary(op, a)), env, k), Eval(c, a, env, k))
  {
    var v := Eval(c, a, env, k);
    assert Eval(c, Unary(op, a), env, k) == if v.Bad? then v else ApplyUnary(c.sem, op, v.value);
    if v.Good? {
      NegTwice(c.sem, v.value);
      NotTwice(c.sem, v.value);
    }
  }

  lemma SimplifyUnarySound(c: Ctx, e: Expr, env: Env, k: nat)
    requires Native(c.sem) && e.Unary?
    ensures Refines(true, Eval(c, e, env, k), Eval(c, SimplifyUnary(e), env, k))
  {
    var a := e.arg;
    if a.Unary? && a.uop == e.uop && (e.uop.Not? || e.uop.Neg?) {
      DoubledSound(c, e.uop, a.arg, env, k);
    } else if a.Number? {
      LiteralEval(c, a.n, env, k);
    }
  }

  lemma SimplifyPrimSound(c: Ctx, e: Expr, env: Env, k: nat)
    requires Native(c.sem) && e.Prim?
    ensures Refines(true, Eval(c, e, env, k), Eval(c, SimplifyPrim(e), env, k))
  {
  }

  lemma SimplifySubstringSound(c: Ctx, e: Expr, env: Env, k: nat)
    requires e.Substring?
    ensures Refines(true, Eval(c, e, env, k), Eval(c, SimplifySubstring(e), env, k))
  {
  }

  lemma {:induction false} JoinLiteralsSound(c: Ctx, es: seq<Expr>, env: Env, k: nat)
    requires Native(c.sem) && JoinLiterals(es).Some?
    ensures var r := EvalAll(c, es, env, k);
      r.Good? && (forall i | 0 <= i < |r.value| :: !r.value[i].VBytes?) &&
        JoinText(c.sem, r.value) == Good(JoinLiterals(es).value)
    decreases |es|
  {
    if es != [] {
      JoinLiteralsSound(c, es[1..], env, k);
      var v, vs := Eval(c, es[0], env, k).value, EvalAll(c, es[1..], env, k).value;
      assert ([v] + vs)[1..] == vs;
    }
  }

  lemma SimplifyConcatSound(c: Ctx, e: Expr, fr: Bounds, input: string, env: Env, k: nat)
    requires Native(c.sem) && e.Concat?
    ensures Refines(true, Eval(c, e, env, k), Eval(c, Simplify(e, fr, input), env, k))
  {
    if JoinLiterals(e.args).Some? {
      JoinLiteralsSound(c, e.args, env, k);
    }
  }

  lemma SimplifyIfSound(c: Ctx, e: Expr, fr: Bounds, input: string, env: Env, k: nat)
    requires Native(c.sem) && InputInRange(fr, input, env) && e.If?
    ensures Refines(true, Eval(c, e, env, k), Eval(c, Simplify(e, fr, input), env, k))
  {
    if StaticEval(e.cond, fr, input).Some? {
      StaticEvalSound(c, e.cond, fr, input, env, k);
    }
  }

  /** Every root rewrite preserves meaning. */
  lemma SimplifySound(c: Ctx, e: Expr, fr: Bounds, input: string, env: Env, k: nat)
    requires Native(c.sem) && InputInRange(fr, input, env)
    ensures Refines(true, Eval(c, e, env, k), Eval(c, Simplify(e, fr, input), env, k))
  {
    match e
    case Binary(_, _, _) => SimplifyBinarySound(c, e, fr, input, env, k);
    case Unary(_, _) => SimplifyUnarySound(c, e, env, k);
    case Prim(_, _, _) => SimplifyPrimSound(c, e, env, k);
    case Substring(_, _, _) => SimplifySubstringSound(c, e, env, k);
    case If(_, _, _) => SimplifyIfSound(c, e, fr, input, env, k);
    case Concat(_) => SimplifyConcatSound(c, e, fr, input, env, k);
    case _ =>
  }
}
