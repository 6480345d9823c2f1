/** Soundness of the overflow checker against the evaluator: accepted rules run
    to a value of their declared range, without any fault, through lets,
    refined branches and nested calls. */
module NumericSound {
  import opened Int64
  import opened Ast
  import opened Interp
  import opened IntervalArith
  import opened Ranges
  import opened NumericBounds

  predicate InVal(v: Value, a: AVal) {
    match a
    case ANum(d) => v.VNumber? && Has(d, v.n)
    case ABool => v.VBool?
  }

  predicate FieldHolds(s: Scope, f: FieldDecl, m: map<string, Value>) {
    FieldAdmitted(f, m) && (f.ty.TNumber? && f.name in s.fieldFacts ==> Has(s.fieldFacts[f.name], m[f.name].n))
  }

  /** The environment is one the scope describes. */
  predicate Models(s: Scope, env: Env) {
    && (s.input !in s.locals ==>
          s.input in env && env[s.input].VRecord? && forall f | f in s.fields :: FieldHolds(s, f, env[s.input].fields))
    && (forall n | n in s.locals :: n in env && InVal(env[n], Local(s, n).value))
  }

  predicate Source(m: Sem) { !m.lowered && m.monitor.Off? }

  /** The place exists in the scope and holds the number `x`. */
  predicate Holds(s: Scope, env: Env, p: Place, x: int) {
    match p
    case PLocal(n) => n in s.locals && s.locals[n].ANum? && n in env && env[n].VNumber? && env[n].n == x
    case PField(n) =>
      && s.input !in s.locals && s.input in env && env[s.input].VRecord?
      && FindNumeric(s.fields, n).Some? && n in env[s.input].fields
      && env[s.input].fields[n].VNumber? && env[s.input].fields[n].n == x
  }

  lemma ScalarSound(c: Ctx, s: Scope, e: Expr, env: Env, k: nat) returns (x: i64)
    requires ScopeOk(s) && Models(s, env) && Scalar(s, e).Some?
    ensures Eval(c, e, env, k) == Good(VNumber(x))
    ensures Holds(s, env, Scalar(s, e).value.0, x) && Has(Scalar(s, e).value.1, x)
  {
    match e
    case Ident(n) =>
      x := env[n].n;
    case Field(b, f) =>
      assert Eval(c, b, env, k) == Good(env[s.input]);
      var d := FindNumeric(s.fields, f).value;
      assert FieldHolds(s, d, env[s.input].fields);
      x := env[s.input].fields[f].n;
  }

  lemma OperandSound(c: Ctx, s: Scope, e: Expr, env: Env, k: nat) returns (x: i64)
    requires ScopeOk(s) && Models(s, env) && Operand(s, e).Some? && Source(c.sem)
    ensures Eval(c, e, env, k) == Good(VNumber(x)) && Has(Operand(s, e).value.1, x)
    ensures Operand(s, e).value.0.Some? ==> Holds(s, env, Operand(s, e).value.0.value, x)
    ensures Canonical(Operand(s, e).value.1)
  {
    if Scalar(s, e).Some? {
      x := ScalarSound(c, s, e, env, k);
      ScalarCanonical(s, e);
    } else {
      x := Literal(e).value;
      if e.Unary? {
        assert Eval(c, e.arg, env, k) == Good(VNumber(e.arg.n));
      }
    }
  }

  lemma ScalarCanonical(s: Scope, e: Expr)
    requires ScopeOk(s) && Scalar(s, e).Some?
    ensures Canonical(Scalar(s, e).value.1)
  {
    if e.Field? {
      assert FieldOk(FindNumeric(s.fields, e.field).value);
    }
  }

  lemma RecordSound(s: Scope, env: Env, p: Option<Place>, d: Domain, x: int)
    requires Models(s, env) && (p.Some? ==> Holds(s, env, p.value, x) && Has(d, x))
    ensures Models(Record(s, p, d), env)
  {
    var s' := Record(s, p, d);
    if p.Some? && p.value.PField? {
      forall f | f in s.fields
        ensures FieldHolds(s', f, env[s.input].fields)
      {
        assert FieldHolds(s, f, env[s.input].fields);
      }
      assert forall n | n in s.locals :: Local(s', n) == Local(s, n);
    } else if p.Some? {
      forall n | n in s.locals
        ensures n in env && InVal(env[n], Local(s', n).value)
      {
        assert InVal(env[n], Local(s, n).value);
      }
      if s.input !in s.locals {
        assert forall f | f in s.fields ::
          FieldHolds(s, f, env[s.input].fields) ==> FieldHolds(s', f, env[s.input].fields);
      }
    }
  }

  lemma CompareFlips(op: BinOp, x: int, y: int)
    requires IsComparison(op)
    ensures IsComparison(Opposite(op)) && IsComparison(Reverse(op))
    ensures Compare(Opposite(op), x, y) == !Compare(op, x, y)
    ensures Compare(Reverse(op), y, x) == Compare(op, x, y)
  {
  }

  /** Both projections of a comparison that holds are recorded soundly. */
  lemma CompareSound(s: Scope, env: Env, op: BinOp, p: Option<Place>, d: Domain, q: Option<Place>, e: Domain, x: int,
      y: int)
    requires Models(s, env) && IsComparison(op) && Canonical(d) && Canonical(e)
    requires Has(d, x) && Has(e, y) && Compare(op, x, y)
    requires p.Some? ==> Holds(s, env, p.value, x)
    requires q.Some? ==> Holds(s, env, q.value, y)
    ensures var r := AssumeCompare(s, op, Some((p, d)), Some((q, e))); r.Some? && Models(r.value, env)
  {
    var d', e' := ConstrainBoth(op, d, e, x, y);
    RecordBoth(s, env, p, d', q, e', x, y);
  }

  lemma ConstrainBoth(op: BinOp, d: Domain, e: Domain, x: int, y: int) returns (d': Domain, e': Domain)
    requires IsComparison(op) && Canonical(d) && Canonical(e) && Has(d, x) && Has(e, y) && Compare(op, x, y)
    ensures Constrain(op, d, e) == Some(d') && Constrain(Reverse(op), e, d) == Some(e')
    ensures Has(d', x) && Has(e', y)
  {
    CompareFlips(op, x, y);
    ConstrainSound(op, d, e, x, y);
    ConstrainSound(Reverse(op), e, d, y, x);
    d', e' := Constrain(op, d, e).value, Constrain(Reverse(op), e, d).value;
  }

  lemma RecordBoth(s: Scope, env: Env, p: Option<Place>, d: Domain, q: Option<Place>, e: Domain, x: int, y: int)
    requires Models(s, env)
    requires p.Some? ==> Holds(s, env, p.value, x) && Has(d, x)
    requires q.Some? ==> Holds(s, env, q.value, y) && Has(e, y)
    ensures Models(Record(Record(s, p, d), q, e), env)
  {
    RecordSound(s, env, p, d, x);
    RecordSound(Record(s, p, d), env, q, e, y);
  }

  /** A condition that evaluates to `truth` never empties the assumed facts,
      and the environment satisfies all of them. */
  lemma {:induction false} AssumeSound(c: Ctx, s: Scope, e: Expr, truth: bool, env: Env, k: nat)
    requires ScopeOk(s) && Models(s, env) && Source(c.sem)
    requires Eval(c, e, env, k) == Good(VBool(truth))
    ensures Assume(s, e, truth).Some? && Models(Assume(s, e, truth).value, env)
    decreases e
  {
    match e
    case Unary(Not, a) => AssumeSound(c, s, a, !truth, env, k);
    case Binary(op, a, b) =>
      if (op.And? && truth) || (op.Or? && !truth) {
        AssumeSound(c, s, a, truth, env, k);
        AssumeOk(s, a, truth);
        AssumeSound(c, Assume(s, a, truth).value, b, truth, env, k);
      } else if IsComparison(op) {
        AssumeComparison(c, s, op, a, b, truth, env, k);
      }
    case _ =>
  }

  lemma AssumeComparison(c: Ctx, s: Scope, op: BinOp, a: Expr, b: Expr, truth: bool, env: Env, k: nat)
    requires ScopeOk(s) && Models(s, env) && Source(c.sem) && IsComparison(op)
    requires Eval(c, Binary(op, a, b), env, k) == Good(VBool(truth))
    ensures var r := Assume(s, Binary(op, a, b), truth); r.Some? && Models(r.value, env)
  {
    if Operand(s, a).Some? && Operand(s, b).Some? {
      var x := OperandSound(c, s, a, env, k);
      var y := OperandSound(c, s, b, env, k);
      CompareFlips(op, x, y);
      var p, q := Operand(s, a).value, Operand(s, b).value;
      CompareSound(s, env, if truth then op else Opposite(op), p.0, p.1, q.0, q.1, x, y);
    }
  }

  lemma BranchSound(c: Ctx, s: Scope, e: Expr, truth: bool, env: Env, k: nat)
    requires ScopeOk(s) && Models(s, env) && Source(c.sem) && Eval(c, e, env, k) == Good(VBool(truth))
    ensures Models(Branch(s, e, truth), env)
  {
    AssumeSound(c, s, e, truth, env, k);
  }

  // ----- operations -----

  lemma BinarySound(m: Sem, op: BinOp, repeated: bool, a: AVal, b: AVal, v: Value, w: Value)
    requires ValOk(a) && ValOk(b) && InVal(v, a) && InVal(w, b) && Source(m)
    requires repeated ==> v == w
    requires !op.And? && !op.Or? && AnalyzeBinary(op, repeated, a, b).Some?
    ensures var r := ApplyBinary(m, op, v, w); r.Good? && InVal(r.value, AnalyzeBinary(op, repeated, a, b).value)
  {
    if a.ANum? && b.ANum? && !IsComparison(op) {
      if repeated {
        RepeatedSound(op, a.d, v.n);
      } else {
        DomainArithSound(op, a.d, b.d, v.n, w.n);
      }
      DefinedEvaluates(m, op, v.n, w.n);
    }
  }

  lemma UnarySound(m: Sem, op: UnOp, a: AVal, v: Value)
    requires ValOk(a) && InVal(v, a) && Source(m) && AnalyzeUnary(op, a).Some?
    ensures var r := ApplyUnary(m, op, v); r.Good? && InVal(r.value, AnalyzeUnary(op, a).value)
  {
    if op.Neg? { NegSound(a.d, v.n); }
    if op.Abs? { AbsSound(a.d, v.n); }
  }

  lemma PrimSound(m: Sem, op: PrimOp, a: AVal, b: AVal, v: Value, w: Value)
    requires ValOk(a) && ValOk(b) && InVal(v, a) && InVal(w, b) && AnalyzePrim(op, a, b).Some?
    ensures var r := ApplyPrim(m, op, v, w); r.Good? && InVal(r.value, AnalyzePrim(op, a, b).value)
  {
    MinMaxSound(a.d, b.d, v.n, w.n);
  }

  // ----- expressions and rules -----

  /** Text capacities are declared on text outputs only. */
  predicate TextMaxDeclared(p: Program) {
    forall n | n in p.rules :: p.rules[n].textMax.Some? ==> p.rules[n].outputTy.TText?
  }

  predicate InRule(c: Ctx, r: Rule, s: Scope) {
    && s.input == r.input
    && r.inputTy.TNamed? && r.inputTy.concept in c.prog.concepts
    && s.fields == c.prog.concepts[r.inputTy.concept].fields
    && ScopeOk(s) && Source(c.sem) && TextMaxDeclared(c.prog)
  }

  lemma SameScalarSame(c: Ctx, s: Scope, a: Expr, b: Expr, env: Env, k: nat)
    requires ScopeOk(s) && Models(s, env) && SameScalar(s, a, b)
    ensures Eval(c, a, env, k) == Eval(c, b, env, k)
  {
    var x := ScalarSound(c, s, a, env, k);
    var y := ScalarSound(c, s, b, env, k);
  }

  lemma {:induction false} ExprSound(c: Ctx, r: Rule, s: Scope, e: Expr, env: Env, k: nat)
    requires InRule(c, r, s) && Models(s, env)
    requires AnalyzeExpr(c.prog, r, s, e, k).Some?
    ensures var w := Eval(c, e, env, k); w.Good? && InVal(w.value, AnalyzeExpr(c.prog, r, s, e, k).value)
    decreases k, 0, e, 1
  {
    match e
    case Number(n) =>
    case Ident(n) =>
    case Field(b, name) => FieldSound(c, r, s, e, env, k);
    case If(_, _, _) => IfSound(c, r, s, e, env, k);
    case Unary(op, a) =>
      ExprSound(c, r, s, a, env, k);
      UnarySound(c.sem, op, AnalyzeExpr(c.prog, r, s, a, k).value, Eval(c, a, env, k).value);
    case Prim(_, _, _) => BuiltinSound(c, r, s, e, env, k);
    case Binary(_, _, _) => PairSound(c, r, s, e, env, k);
    case Call(name, args) =>
      CallEntry(c, r, s, name, env);
      assert Eval(c, args[0], env, k) == Good(env[s.input]);
      RuleSound(c, name, env[s.input], k - 1);
  }

  lemma {:induction false} IfSound(c: Ctx, r: Rule, s: Scope, e: Expr, env: Env, k: nat)
    requires InRule(c, r, s) && Models(s, env) && e.If?
    requires AnalyzeExpr(c.prog, r, s, e, k).Some?
    ensures var w := Eval(c, e, env, k); w.Good? && InVal(w.value, AnalyzeExpr(c.prog, r, s, e, k).value)
    decreases k, 0, e, 0
  {
    var q, a, b := e.cond, e.yes, e.no;
    ExprSound(c, r, s, q, env, k);
    var t := Eval(c, q, env, k).value.b;
    AssumeOk(s, q, true);
    AssumeOk(s, q, false);
    BranchSound(c, s, q, t, env, k);
    BranchInRule(c, r, s, q, t);
    ExprSound(c, r, Branch(s, q, t), if t then a else b, env, k);
    var x, y := AnalyzeExpr(c.prog, r, Branch(s, q, true), a, k).value,
      AnalyzeExpr(c.prog, r, Branch(s, q, false), b, k).value;
    JoinSound(x, y, Eval(c, if t then a else b, env, k).value);
  }

  lemma {:induction false} BuiltinSound(c: Ctx, r: Rule, s: Scope, e: Expr, env: Env, k: nat)
    requires InRule(c, r, s) && Models(s, env) && e.Prim?
    requires AnalyzeExpr(c.prog, r, s, e, k).Some?
    ensures var w := Eval(c, e, env, k); w.Good? && InVal(w.value, AnalyzeExpr(c.prog, r, s, e, k).value)
    decreases k, 0, e, 0
  {
    ExprSound(c, r, s, e.arg0, env, k);
    ExprSound(c, r, s, e.arg1, env, k);
    PrimSound(c.sem, e.pop, AnalyzeExpr(c.prog, r, s, e.arg0, k).value, AnalyzeExpr(c.prog, r, s, e.arg1, k).value,
              Eval(c, e.arg0, env, k).value, Eval(c, e.arg1, env, k).value);
  }

  lemma {:induction false} PairSound(c: Ctx, r: Rule, s: Scope, e: Expr, env: Env, k: nat)
    requires InRule(c, r, s) && Models(s, env) && e.Binary?
    requires AnalyzeExpr(c.prog, r, s, e, k).Some?
    ensures var w := Eval(c, e, env, k); w.Good? && InVal(w.value, AnalyzeExpr(c.prog, r, s, e, k).value)
    decreases k, 0, e, 0
  {
    var a, b := e.left, e.right;
    ExprSound(c, r, s, a, env, k);
    ExprSound(c, r, s, b, env, k);
    if SameScalar(s, a, b) {
      SameScalarSame(c, s, a, b, env, k);
    }
    if !e.op.And? && !e.op.Or? {
      BinarySound(c.sem, e.op, SameScalar(s, a, b), AnalyzeExpr(c.prog, r, s, a, k).value,
                  AnalyzeExpr(c.prog, r, s, b, k).value, Eval(c, a, env, k).value, Eval(c, b, env, k).value);
    }
  }

  lemma FieldSound(c: Ctx, r: Rule, s: Scope, e: Expr, env: Env, k: nat)
    requires InRule(c, r, s) && Models(s, env) && e.Field? && AnalyzeExpr(c.prog, r, s, e, k).Some?
    ensures var w := Eval(c, e, env, k); w.Good? && InVal(w.value, AnalyzeExpr(c.prog, r, s, e, k).value)
  {
    var x := ScalarSound(c, s, e, env, k);
  }

  lemma BranchInRule(c: Ctx, r: Rule, s: Scope, q: Expr, t: bool)
    requires InRule(c, r, s)
    ensures InRule(c, r, Branch(s, q, t))
  {
    AssumeOk(s, q, t);
  }

  lemma JoinSound(x: AVal, y: AVal, v: Value)
    requires ValOk(x) && ValOk(y) && JoinVals(x, y).Some? && (InVal(v, x) || InVal(v, y))
    ensures InVal(v, JoinVals(x, y).value)
  {
    if x.ANum? {
      JoinCovers(x.d, y.d, v.n);
    }
  }

  /** A caller's own input passes the entry guard of any callee on the same concept. */
  lemma CallEntry(c: Ctx, r: Rule, s: Scope, name: string, env: Env)
    requires InRule(c, r, s) && Models(s, env) && s.input !in s.locals
    requires name in c.prog.rules && c.prog.rules[name].inputTy == r.inputTy
    ensures EntryGuard(c.prog.concepts, c.prog.rules[name], env[s.input])
  {
    forall f | f in s.fields
      ensures FieldAdmitted(f, env[s.input].fields)
    {
      assert FieldHolds(s, f, env[s.input].fields);
    }
  }

  lemma {:induction false} LetsSound(c: Ctx, r: Rule, fs: seq<FieldDecl>, bs: seq<Binding>, locals: map<string, AVal>,
      env: Env, k: nat)
    requires InRule(c, r, NewScope(r, fs, locals)) && Models(NewScope(r, fs, locals), env)
    requires AnalyzeLets(c.prog, r, fs, bs, locals, k).Some?
    ensures var w := EvalLets(c, bs, env, k);
      w.Good? && Models(NewScope(r, fs, AnalyzeLets(c.prog, r, fs, bs, locals, k).value), w.value)
    decreases k, 1, |bs|
  {
    if bs != [] {
      var s := NewScope(r, fs, locals);
      ExprSound(c, r, s, bs[0].value, env, k);
      var a, v := AnalyzeExpr(c.prog, r, s, bs[0].value, k).value, Eval(c, bs[0].value, env, k).value;
      BindModels(r, fs, locals, env, bs[0].name, a, v);
      LetsSound(c, r, fs, bs[1..], locals[bs[0].name := a], env[bs[0].name := v], k);
    }
  }

  lemma BindModels(r: Rule, fs: seq<FieldDecl>, locals: map<string, AVal>, env: Env, n: string, a: AVal, v: Value)
    requires Models(NewScope(r, fs, locals), env) && InVal(v, a)
    ensures Models(NewScope(r, fs, locals[n := a]), env[n := v])
  {
    var s, s' := NewScope(r, fs, locals), NewScope(r, fs, locals[n := a]);
    if r.input !in s'.locals {
      assert forall f | f in fs :: FieldHolds(s, f, env[r.input].fields) ==> FieldHolds(s', f, env[r.input].fields);
    }
    forall x | x in s'.locals
      ensures x in env[n := v] && InVal(env[n := v][x], Local(s', x).value)
    {
      if x != n { assert InVal(env[x], Local(s, x).value); }
    }
  }

  /** An accepted rule entered through its guard returns a value of its summary. */
  lemma {:induction false} RuleSound(c: Ctx, name: string, v: Value, k: nat)
    requires Source(c.sem) && TextMaxDeclared(c.prog)
    requires AnalyzeRule(c.prog, name, k).Some? && EntryGuard(c.prog.concepts, c.prog.rules[name], v)
    ensures var w := EvalRule(c, c.prog.rules[name], v, k);
      w.Good? && InVal(w.value, AnalyzeRule(c.prog, name, k).value)
    decreases k, 2
  {
    var r := c.prog.rules[name];
    var fs := c.prog.concepts[r.inputTy.concept].fields;
    var s := NewScope(r, fs, map[]);
    assert forall f | f in fs :: FieldAdmitted(f, v.fields) ==> FieldHolds(s, f, v.fields);
    LetsSound(c, r, fs, r.bindings, map[], map[r.input := v], k);
    var locals := AnalyzeLets(c.prog, r, fs, r.bindings, map[], k).value;
    var env := EvalLets(c, r.bindings, map[r.input := v], k).value;
    ExprSound(c, r, NewScope(r, fs, locals), r.value, env, k);
    var a := AnalyzeExpr(c.prog, r, NewScope(r, fs, locals), r.value, k).value;
    SummarySound(r, a, Eval(c, r.value, env, k).value);
  }

  lemma SummarySound(r: Rule, a: AVal, v: Value)
    requires ValOk(a) && InVal(v, a) && Summary(r, a).Some?
    ensures InVal(v, Summary(r, a).value)
  {
  }
}
