/** A rule about which the constructor checker reports nothing builds only
    well-formed values: in every run with well-typed inputs and callees, each
    construction has exactly its declared fields, each of its declared type. */
module ConstructorSound {
  import opened Ast
  import opened TextOps
  import opened Interp
  import opened Facts
  import opened Constructors

  ghost predicate ScopeHolds(cs: map<string, Concept>, s: Scope, env: Env) {
    forall x | x in s && x in env :: Holds(cs, env[x], s[x])
  }

  /** Within each variant the payload fields have different names. */
  predicate PayloadsDistinct(cs: map<string, Concept>) {
    forall n | n in cs :: forall v | v in cs[n].variants ::
      forall i, k | 0 <= i < k < |v.fields| :: v.fields[i].name != v.fields[k].name
  }

  predicate Typing(c: Ctx) {
    c.sem.monitor.Types? && !c.sem.lowered && ScalarsReserved(c.prog.concepts) && PayloadsDistinct(c.prog.concepts)
  }

  ghost predicate RunFormed(c: Ctx, n: string, v: Value, k: nat)
    requires n in c.prog.rules
  {
    EvalRule(c, c.prog.rules[n], v, k) != Bad(IllFormed)
  }

  /** No callee builds an ill-formed value. */
  ghost predicate CallsFormed(c: Ctx, k: nat) {
    k > 0 ==> RunsFormed(c, k - 1)
  }

  ghost predicate RunsFormed(c: Ctx, k: nat) {
    forall n, v | n in c.prog.rules :: RunFormed(c, n, v, k)
  }

  /** What a run promises of a fact. */
  ghost predicate Delivers(c: Ctx, res: Res<Value>, f: Fact) {
    if res.Bad? then !res.fault.IllFormed? else Holds(c.prog.concepts, res.value, f)
  }

  ghost predicate Start(c: Ctx, r: Rule, e: Expr, s: Scope, env: Env, k: nat) {
    Typing(c) && CallsFormed(c, k) && ScopeHolds(c.prog.concepts, s, env) && Walk(c.prog, r, e, s).ok
  }

  ghost predicate Established(c: Ctx, r: Rule, e: Expr, s: Scope, env: Env, k: nat) {
    Delivers(c, Eval(c, e, env, k), Walk(c.prog, r, e, s).fact)
  }

  lemma ScopeBound(cs: map<string, Concept>, s: Scope, env: Env, x: string, v: Value, f: Fact)
    requires ScopeHolds(cs, s, env) && Holds(cs, v, f)
    ensures ScopeHolds(cs, s[x := f], env[x := v])
  {
  }

  // ----- operations: a defined result has the operation's type -----

  lemma ProducedHolds(cs: map<string, Concept>, valid: bool, t: Type, v: Value)
    requires HasType(cs, v, t)
    ensures Holds(cs, v, Produced(valid, t))
  {
    TypeHolds(cs, v, t);
  }

  lemma UnaryDelivers(c: Ctx, r: Rule, op: UnOp, a: Expr, f: Fact, s: Scope, v: Value)
    requires Typing(c) && Holds(c.prog.concepts, v, f)
    ensures Delivers(c, ApplyUnary(c.sem, op, v), UnaryFact(r, op, a, f, s))
  {
    var cs, w := c.prog.concepts, ApplyUnary(c.sem, op, v);
    if w.Good? && Constructors.UnaryTypes(op).Some? {
      var t := Constructors.UnaryTypes(op).value;
      ProducedHolds(cs, Fits(f, t.0), t.1, w.value);
    }
  }

  lemma BinaryDelivers(c: Ctx, op: BinOp, a: Fact, b: Fact, x: Value, y: Value)
    requires Typing(c) && !op.And? && !op.Or?
    ensures Delivers(c, ApplyBinary(c.sem, op, x, y), BinaryFact(op, a, b))
  {
  }

  lemma PrimDelivers(c: Ctx, r: Rule, op: PrimOp, e: Expr, a: Fact, b: Fact, s: Scope, x: Value, y: Value)
    requires Typing(c)
    ensures Delivers(c, ApplyPrim(c.sem, op, x, y), PrimFact(r, op, e, a, b, s))
  {
  }

  lemma TryByteDelivers(c: Ctx, table: Bytes, i: Value, valid: bool)
    ensures Delivers(c, ApplyTryByte(table, i), Produced(valid, TResult(TNumber, TBoundsError)))
  {
    var w := ApplyTryByte(table, i);
    if w.Good? { ProducedHolds(c.prog.concepts, valid, TResult(TNumber, TBoundsError), w.value); }
  }

  lemma FieldDelivers(c: Ctx, v: Value, f: Fact, name: string)
    requires Holds(c.prog.concepts, v, f) && v.VRecord? && name in v.fields
    ensures Holds(c.prog.concepts, v.fields[name], FieldFact(c.prog, f, name))
  {
    var cs := c.prog.concepts;
    if f.Known? && f.ty.TNamed? && f.ty.concept in cs {
      var d := FindField(cs[f.ty.concept].fields, name);
      if d.Some? {
        assert FieldsTyped(cs, cs[f.ty.concept].fields, v);
        TypeHolds(cs, v.fields[name], d.value.ty);
      }
    }
  }

  ghost predicate AllHold(cs: map<string, Concept>, vs: seq<Value>, fs: seq<Fact>) {
    |vs| == |fs| && forall i | 0 <= i < |vs| :: Holds(cs, vs[i], fs[i])
  }

  lemma {:induction false} JoinBytesFormed(vs: seq<Value>)
    ensures JoinBytes(vs) != Bad(IllFormed)
  {
    if vs != [] { JoinBytesFormed(vs[1..]); }
  }

  lemma {:induction false} JoinTextFormed(m: Sem, vs: seq<Value>)
    ensures JoinText(m, vs) != Bad(IllFormed)
  {
    if vs != [] { JoinTextFormed(m, vs[1..]); }
  }

  lemma ConcatDelivers(c: Ctx, vs: seq<Value>, fs: seq<Fact>)
    requires Typing(c) && AllHold(c.prog.concepts, vs, fs)
    ensures Delivers(c, ApplyConcat(c.sem, vs), ConcatFact(fs))
  {
    var cs := c.prog.concepts;
    JoinBytesFormed(vs);
    JoinTextFormed(c.sem, vs);
    forall i, t | 0 <= i < |vs| && Fits(fs[i], t)
      ensures HasType(cs, vs[i], t)
    {
      FitsHolds(cs, vs[i], fs[i], t);
    }
    if i :| 0 <= i < |fs| && Fits(fs[i], TBytes) {
      assert vs[i].VBytes?;
    } else if forall i | 0 <= i < |fs| :: Printable(fs[i]) {
      forall i | 0 <= i < |vs|
        ensures !vs[i].VBytes?
      {
        assert Printable(fs[i]);
      }
    }
  }

  // ----- constructions -----

  /** Field values in order, each under its name. */
  function Assemble(inits: seq<FieldInit>, vs: seq<Value>, m: map<string, Value>): map<string, Value>
    requires |vs| == |inits|
  {
    if inits == [] then m else Assemble(inits[1..], vs[1..], m[inits[0].name := vs[0]])
  }

  lemma {:induction false} AssembleAt(inits: seq<FieldInit>, vs: seq<Value>, m: map<string, Value>)
    requires |vs| == |inits| && forall i, k | 0 <= i < k < |inits| :: inits[i].name != inits[k].name
    ensures var out := Assemble(inits, vs, m);
      && out.Keys == m.Keys + InitNames(inits)
      && (forall i | 0 <= i < |inits| :: inits[i].name in out && out[inits[i].name] == vs[i])
      && forall f | f in m && f !in InitNames(inits) :: f in out && out[f] == m[f]
    decreases |inits|
  {
    if inits != [] {
      var rest := inits[1..];
      assert forall i | 0 <= i < |rest| :: rest[i] == inits[i + 1];
      AssembleAt(rest, vs[1..], m[inits[0].name := vs[0]]);
      assert inits[0].name !in InitNames(rest);
      assert InitNames(inits) == {inits[0].name} + InitNames(rest) by {
        forall f | f in InitNames(inits)
          ensures f in {inits[0].name} + InitNames(rest)
        {
          var i :| 0 <= i < |inits| && inits[i].name == f;
          if i > 0 { assert rest[i - 1].name == f; }
        }
      }
    }
  }

  lemma FieldsOkTyped(c: Ctx, ds: seq<FieldDecl>, inits: seq<FieldInit>, fs: seq<Fact>, vs: seq<Value>, v: Value)
    requires |fs| == |inits| && FieldsOk(ds, inits, fs) && AllHold(c.prog.concepts, vs, fs)
    requires (v.VRecord? || v.VVariant?) && v.fields == Assemble(inits, vs, map[])
    ensures FieldsTyped(c.prog.concepts, ds, v)
  {
    var cs := c.prog.concepts;
    AssembleAt(inits, vs, map[]);
    assert v.fields.Keys == InitNames(inits);
    forall f | f in InitNames(inits)
      ensures f in Names(ds) && f in v.fields && FindField(ds, f).Some? &&
        HasType(cs, v.fields[f], FindField(ds, f).value.ty)
    {
      var i :| 0 <= i < |inits| && inits[i].name == f;
      assert FieldOk(ds, inits[i].name, fs[i]);
      var d := FindField(ds, f).value;
      var k :| 0 <= k < |ds| && ds[k] == d;
      FitsHolds(cs, vs[i], fs[i], d.ty);
    }
  }

  lemma BuildDelivers(c: Ctx, n: string, variant: Option<string>, inits: seq<FieldInit>, fs: seq<Fact>, vs: seq<Value>)
    requires Typing(c) && |fs| == |inits| && ConstructOk(c.prog, n, variant, inits, fs) &&
      AllHold(c.prog.concepts, vs, fs)
    ensures Delivers(c, Build(c, n, variant, Assemble(inits, vs, map[])), Produced(true, TNamed(n)))
  {
    var m := Assemble(inits, vs, map[]);
    var v := if variant.None? then VRecord(m) else VVariant(n, variant.value, m);
    FieldsOkTyped(c, Declared(c.prog, n, variant).value, inits, fs, vs, v);
    assert HasType(c.prog.concepts, v, TNamed(n));
  }

  // ----- expressions -----

  lemma {:induction false} ExprFormed(c: Ctx, r: Rule, e: Expr, s: Scope, env: Env, k: nat)
    requires Start(c, r, e, s, env, k)
    ensures Established(c, r, e, s, env, k)
    decreases e, 2
  {
    match e
    case Number(_) =>
    case Text(_) =>
    case BytesLit(_) =>
    case Ident(_) =>
    case Field(_, _) => FieldFormed(c, r, e, s, env, k);
    case Unary(_, _) => UnaryFormed(c, r, e, s, env, k);
    case Binary(_, _, _) => BinaryFormed(c, r, e, s, env, k);
    case Prim(_, _, _) => PrimFormed(c, r, e, s, env, k);
    case TryByteAt(_, _) => TryByteFormed(c, r, e, s, env, k);
    case Substring(_, _, _) => SubstringFormed(c, r, e, s, env, k);
    case If(_, _, _) => IfFormed(c, r, e, s, env, k);
    case MatchResult(_, _, _, _, _) => MatchResultFormed(c, r, e, s, env, k);
    case Call(_, _) => CallFormed(c, r, e, s, env, k);
    case Concat(_) => ConcatFormed(c, r, e, s, env, k);
    case Construct(_, _, _) => ConstructFormed(c, r, e, s, env, k);
    case MatchVariant(_, _) => MatchVariantFormed(c, r, e, s, env, k);
    case Quantifier(_, _, _, _) => QuantifierFormed(c, r, e, s, env, k);
    case Collect(_, _, _, _) => CollectFormed(c, r, e, s, env, k);
    case Fold(_, _, _, _, _) => FoldFormed(c, r, e, s, env, k);
    case FoldBytes(_, _, _, _, _, _) => FoldBytesFormed(c, r, e, s, env, k);
  }

  lemma {:induction false} FieldFormed(c: Ctx, r: Rule, e: Expr, s: Scope, env: Env, k: nat)
    requires Start(c, r, e, s, env, k) && e.Field?
    ensures Established(c, r, e, s, env, k)
    decreases e, 1
  {
    ExprFormed(c, r, e.base, s, env, k);
    var v := Eval(c, e.base, env, k);
    if v.Good? && v.value.VRecord? && e.field in v.value.fields {
      FieldDelivers(c, v.value, Walk(c.prog, r, e.base, s).fact, e.field);
    }
  }

  lemma {:induction false} UnaryFormed(c: Ctx, r: Rule, e: Expr, s: Scope, env: Env, k: nat)
    requires Start(c, r, e, s, env, k) && e.Unary?
    ensures Established(c, r, e, s, env, k)
    decreases e, 1
  {
    ExprFormed(c, r, e.arg, s, env, k);
    var v := Eval(c, e.arg, env, k);
    if v.Good? {
      UnaryDelivers(c, r, e.uop, e.arg, Walk(c.prog, r, e.arg, s).fact, s, v.value);
    }
  }

  lemma BinaryRun(c: Ctx, e: Expr, env: Env, k: nat, f: Fact, g: Fact)
    requires Typing(c) && e.Binary? && Delivers(c, Eval(c, e.left, env, k), f) &&
      Delivers(c, Eval(c, e.right, env, k), g)
    ensures Delivers(c, Eval(c, e, env, k), BinaryFact(e.op, f, g))
  {
    var x, y := Eval(c, e.left, env, k), Eval(c, e.right, env, k);
    if x.Good? && y.Good? && !e.op.And? && !e.op.Or? {
      BinaryDelivers(c, e.op, f, g, x.value, y.value);
    }
  }

  lemma {:induction false} BinaryFormed(c: Ctx, r: Rule, e: Expr, s: Scope, env: Env, k: nat)
    requires Start(c, r, e, s, env, k) && e.Binary?
    ensures Established(c, r, e, s, env, k)
    decreases e, 1
  {
    ExprFormed(c, r, e.left, s, env, k);
    ExprFormed(c, r, e.right, s, env, k);
    BinaryRun(c, e, env, k, Walk(c.prog, r, e.left, s).fact, Walk(c.prog, r, e.right, s).fact);
  }

  lemma {:induction false} PrimFormed(c: Ctx, r: Rule, e: Expr, s: Scope, env: Env, k: nat)
    requires Start(c, r, e, s, env, k) && e.Prim?
    ensures Established(c, r, e, s, env, k)
    decreases e, 1
  {
    ExprFormed(c, r, e.arg0, s, env, k);
    ExprFormed(c, r, e.arg1, s, env, k);
    var x, y := Eval(c, e.arg0, env, k), Eval(c, e.arg1, env, k);
    if x.Good? && y.Good? {
      PrimDelivers(c, r, e.pop, e.arg0, Walk(c.prog, r, e.arg0, s).fact, Walk(c.prog, r, e.arg1, s).fact, s, x.value,
        y.value);
    }
  }

  lemma {:induction false} TryByteFormed(c: Ctx, r: Rule, e: Expr, s: Scope, env: Env, k: nat)
    requires Start(c, r, e, s, env, k) && e.TryByteAt?
    ensures Established(c, r, e, s, env, k)
    decreases e, 1
  {
    ExprFormed(c, r, e.index, s, env, k);
    var v := Eval(c, e.index, env, k);
    if v.Good? && IsTable(e.table) {
      TryByteDelivers(c, Table(e.table), v.value,
        ByteAddressable(r, e.table, Walk(c.prog, r, e.table, s).fact, s) &&
          Fits(Walk(c.prog, r, e.index, s).fact, TNumber));
    }
  }

  lemma {:induction false} SubstringFormed(c: Ctx, r: Rule, e: Expr, s: Scope, env: Env, k: nat)
    requires Start(c, r, e, s, env, k) && e.Substring?
    ensures Established(c, r, e, s, env, k)
    decreases e, 1
  {
    ExprFormed(c, r, e.text, s, env, k);
    ExprFormed(c, r, e.from, s, env, k);
    ExprFormed(c, r, e.to, s, env, k);
  }

  lemma {:induction false} IfFormed(c: Ctx, r: Rule, e: Expr, s: Scope, env: Env, k: nat)
    requires Start(c, r, e, s, env, k) && e.If?
    ensures Established(c, r, e, s, env, k)
    decreases e, 1
  {
    ExprFormed(c, r, e.cond, s, env, k);
    ExprFormed(c, r, e.yes, s, env, k);
    ExprFormed(c, r, e.no, s, env, k);
    var q := Eval(c, e.cond, env, k);
    if q.Good? && q.value.VBool? {
      var v := Eval(c, if q.value.b then e.yes else e.no, env, k);
      if v.Good? {
        JoinHolds(c.prog.concepts, v.value, Walk(c.prog, r, e.yes, s).fact, Walk(c.prog, r, e.no, s).fact);
      }
    }
  }

  lemma {:induction false} MatchResultFormed(c: Ctx, r: Rule, e: Expr, s: Scope, env: Env, k: nat)
    requires Start(c, r, e, s, env, k) && e.MatchResult?
    ensures Established(c, r, e, s, env, k)
    decreases e, 1
  {
    var cs := c.prog.concepts;
    ExprFormed(c, r, e.target, s, env, k);
    var w := Walk(c.prog, r, e.target, s).fact;
    var f, g := if w.Result? then Bound(w.ok) else Unknown, if w.Result? then Bound(w.err) else Unknown;
    var t := Eval(c, e.target, env, k);
    if t.Good? && (t.value.VOk? || t.value.VErr?) {
      var ok := t.value.VOk?;
      var x, b, h := if ok then e.okVar else e.errVar, if ok then e.okBody else e.errBody, if ok then f else g;
      ScopeBound(cs, s, env, x, t.value.inner, h);
      ExprFormed(c, r, b, s[x := h], env[x := t.value.inner], k);
      var v := Eval(c, b, env[x := t.value.inner], k);
      if v.Good? {
        JoinHolds(cs, v.value, Walk(c.prog, r, e.okBody, s[e.okVar := f]).fact,
          Walk(c.prog, r, e.errBody, s[e.errVar := g]).fact);
      }
    }
  }

  // ----- lists of expressions -----

  lemma {:induction false} AllFormed(c: Ctx, r: Rule, es: seq<Expr>, s: Scope, env: Env, k: nat)
    requires Typing(c) && CallsFormed(c, k) && ScopeHolds(c.prog.concepts, s, env) && WalkAll(c.prog, r, es, s).1
    ensures var vs := EvalAll(c, es, env, k);
      if vs.Bad? then !vs.fault.IllFormed? else AllHold(c.prog.concepts, vs.value, WalkAll(c.prog, r, es, s).0)
    decreases es, 0
  {
    if es != [] {
      ExprFormed(c, r, es[0], s, env, k);
      AllFormed(c, r, es[1..], s, env, k);
    }
  }

  lemma {:induction false} CallFormed(c: Ctx, r: Rule, e: Expr, s: Scope, env: Env, k: nat)
    requires Start(c, r, e, s, env, k) && e.Call?
    ensures Established(c, r, e, s, env, k)
    decreases e, 1
  {
    AllFormed(c, r, e.args, s, env, k);
    if e.callee in c.prog.rules && |e.args| == 1 {
      var v, callee := Eval(c, e.args[0], env, k), c.prog.rules[e.callee];
      OneArgument(c, r, e.args, s, env, k);
      if v.Good? && k > 0 {
        assert RunFormed(c, e.callee, v.value, k - 1);
        var o := EvalRule(c, callee, v.value, k - 1);
        var valid := Fits(WalkAll(c.prog, r, e.args, s).0[0], callee.inputTy);
        if o.Good? { ProducedHolds(c.prog.concepts, valid, callee.outputTy, o.value); }
      }
    }
  }

  lemma OneArgument(c: Ctx, r: Rule, es: seq<Expr>, s: Scope, env: Env, k: nat)
    requires |es| == 1
    ensures var v, vs := Eval(c, es[0], env, k), EvalAll(c, es, env, k); v.Bad? ==> vs.Bad? && vs.fault == v.fault
  {
  }

  lemma {:induction false} ConcatFormed(c: Ctx, r: Rule, e: Expr, s: Scope, env: Env, k: nat)
    requires Start(c, r, e, s, env, k) && e.Concat?
    ensures Established(c, r, e, s, env, k)
    decreases e, 1
  {
    AllFormed(c, r, e.args, s, env, k);
    var vs := EvalAll(c, e.args, env, k);
    if vs.Good? {
      ConcatDelivers(c, vs.value, WalkAll(c.prog, r, e.args, s).0);
    }
  }

  lemma {:induction false} InitsFormed(c: Ctx, r: Rule, fs: seq<FieldInit>, s: Scope, env: Env, m: map<string, Value>,
      k: nat)
    returns (vs: seq<Value>)
    requires Typing(c) && CallsFormed(c, k) && ScopeHolds(c.prog.concepts, s, env) && WalkInits(c.prog, r, fs, s).1
    ensures var out := EvalInits(c, fs, env, m, k);
      if out.Bad? then !out.fault.IllFormed?
      else AllHold(c.prog.concepts, vs, WalkInits(c.prog, r, fs, s).0) && out.value == Assemble(fs, vs, m)
    decreases fs, 0
  {
    vs := [];
    if fs != [] {
      ExprFormed(c, r, fs[0].value, s, env, k);
      var v := Eval(c, fs[0].value, env, k);
      if v.Good? {
        vs := InitsFormed(c, r, fs[1..], s, env, m[fs[0].name := v.value], k);
        vs := [v.value] + vs;
      }
    }
  }

  lemma {:induction false} ConstructFormed(c: Ctx, r: Rule, e: Expr, s: Scope, env: Env, k: nat)
    requires Start(c, r, e, s, env, k) && e.Construct?
    ensures Established(c, r, e, s, env, k)
    decreases e, 1
  {
    var vs := InitsFormed(c, r, e.inits, s, env, map[], k);
    if EvalInits(c, e.inits, env, map[], k).Good? {
      BuildDelivers(c, e.concept, e.variant, e.inits, WalkInits(c.prog, r, e.inits, s).0, vs);
    }
  }

  // ----- matches -----

  lemma {:induction false} FirstDeclared(ds: seq<FieldDecl>, i: nat)
    requires i < |ds| && forall i, k | 0 <= i < k < |ds| :: ds[i].name != ds[k].name
    ensures FindField(ds, ds[i].name) == Some(ds[i])
    decreases i
  {
    if i > 0 {
      assert ds[0].name != ds[i].name;
      FirstDeclared(ds[1..], i - 1);
    }
  }

  /** A payload field of an arm's variant has the type the arm gives its binder. */
  ghost predicate PayloadHolds(cs: map<string, Concept>, ds: seq<FieldDecl>, d: Option<VariantDecl>,
      m: map<string, Value>) {
    d.Some? ==>
      d.value.fields == ds && forall i | 0 <= i < |ds| && ds[i].name in m :: HasType(cs, m[ds[i].name], ds[i].ty)
  }

  lemma {:induction false} BindHolds(cs: map<string, Concept>, bs: seq<Option<string>>, ds: seq<FieldDecl>,
      d: Option<VariantDecl>, j: nat, m: map<string, Value>, s: Scope, env: Env)
    requires |bs| == |ds| && j <= |bs| && PayloadHolds(cs, ds, d, m) && ScopeHolds(cs, s, env)
    ensures var r := BindArm(bs[j..], ds[j..], m, env); r.Good? ==> ScopeHolds(cs, BindFacts(bs, d, j, s), r.value)
    decreases |bs| - j
  {
    if j < |bs| {
      assert bs[j..][0] == bs[j] && bs[j..][1..] == bs[j + 1..] && ds[j..][0] == ds[j] && ds[j..][1..] == ds[j + 1..];
      if bs[j].None? {
        BindHolds(cs, bs, ds, d, j + 1, m, s, env);
      } else if ds[j].name in m {
        var v, f := m[ds[j].name], if d.Some? && j < |d.value.fields| then FromType(d.value.fields[j].ty) else Unknown;
        TypeHolds(cs, v, ds[j].ty);
        ScopeBound(cs, s, env, bs[j].value, v, f);
        BindHolds(cs, bs, ds, d, j + 1, m, s[bs[j].value := f], env[bs[j].value := v]);
      }
    }
  }

  lemma {:induction false} JoinAllHolds(cs: map<string, Concept>, v: Value, fs: seq<Fact>, i: nat)
    requires i < |fs| && Holds(cs, v, fs[i])
    ensures Holds(cs, v, JoinAll(fs))
    decreases |fs|
  {
    if |fs| > 1 {
      if i < |fs| - 1 { JoinAllHolds(cs, v, fs[..|fs| - 1], i); }
      JoinHolds(cs, v, JoinAll(fs[..|fs| - 1]), fs[|fs| - 1]);
    }
  }

  /** The scope of the selected arm holds of its environment. */
  lemma SelectHolds(c: Ctx, arms: seq<Arm>, v: Value, f: Fact, s: Scope, env: Env)
    requires Typing(c) && ScopeHolds(c.prog.concepts, s, env) && Holds(c.prog.concepts, v, f)
    ensures var sel := SelectArm(c, arms, v, env); sel.Good? ==>
      var arm := arms[sel.value.0];
      ScopeHolds(c.prog.concepts, BindFacts(arm.binders, ArmDecl(MatchedConcept(c.prog, f), arm), 0, s), sel.value.1)
  {
    var cs, sel := c.prog.concepts, SelectArm(c, arms, v, env);
    if sel.Good? {
      var arm := arms[sel.value.0];
      var ds, d := FindVariant(cs[v.concept].variants, v.variant).value.fields, ArmDecl(MatchedConcept(c.prog, f), arm);
      if d.Some? {
        PayloadTyped(c, v, f, ds);
      }
      assert arm.binders[0..] == arm.binders && ds[0..] == ds;
      BindHolds(cs, arm.binders, ds, d, 0, v.fields, s, env);
    }
  }

  lemma PayloadTyped(c: Ctx, v: Value, f: Fact, ds: seq<FieldDecl>)
    requires Typing(c) && v.VVariant? && v.concept in c.prog.concepts && Holds(c.prog.concepts, v, f) &&
      MatchedConcept(c.prog, f).Some?
    requires FindVariant(c.prog.concepts[v.concept].variants, v.variant).Some? &&
      ds == FindVariant(c.prog.concepts[v.concept].variants, v.variant).value.fields
    ensures f.ty.concept == v.concept
    ensures forall i | 0 <= i < |ds| && ds[i].name in v.fields ::
      HasType(c.prog.concepts, v.fields[ds[i].name], ds[i].ty)
  {
    var cs := c.prog.concepts;
    assert FieldsTyped(cs, ds, v);
    forall i | 0 <= i < |ds| && ds[i].name in v.fields
      ensures HasType(cs, v.fields[ds[i].name], ds[i].ty)
    {
      FirstDeclared(ds, i);
    }
  }

  lemma {:induction false} MatchVariantFormed(c: Ctx, r: Rule, e: Expr, s: Scope, env: Env, k: nat)
    requires Start(c, r, e, s, env, k) && e.MatchVariant?
    ensures Established(c, r, e, s, env, k)
    decreases e, 1
  {
    ExprFormed(c, r, e.scrutinee, s, env, k);
    var t, f := Eval(c, e.scrutinee, env, k), Walk(c.prog, r, e.scrutinee, s).fact;
    if t.Good? {
      var sel := SelectArm(c, e.arms, t.value, env);
      SelectFormed(c, e.arms, t.value, env);
      if sel.Good? {
        ArmFormed(c, r, e, f, t.value, s, env, k);
      }
    }
  }

  lemma SelectFormed(c: Ctx, arms: seq<Arm>, v: Value, env: Env)
    ensures SelectArm(c, arms, v, env) != Bad(IllFormed)
  {
    var d := if v.VVariant? && v.concept in c.prog.concepts then
      FindVariant(c.prog.concepts[v.concept].variants, v.variant) else None;
    var i := if v.VVariant? then FindArm(arms, v.variant) else None;
    if d.Some? && i.Some? && |arms[i.value].binders| == |d.value.fields| {
      BindFormed(arms[i.value].binders, d.value.fields, v.fields, env);
    }
  }

  lemma {:induction false} BindFormed(bs: seq<Option<string>>, ds: seq<FieldDecl>, m: map<string, Value>, env: Env)
    requires |bs| == |ds|
    ensures BindArm(bs, ds, m, env) != Bad(IllFormed)
    decreases |bs|
  {
    if bs != [] {
      if bs[0].None? {
        BindFormed(bs[1..], ds[1..], m, env);
      } else if ds[0].name in m {
        BindFormed(bs[1..], ds[1..], m, env[bs[0].value := m[ds[0].name]]);
      }
    }
  }

  lemma {:induction false} ArmFormed(c: Ctx, r: Rule, e: Expr, f: Fact, v: Value, s: Scope, env: Env, k: nat)
    requires Typing(c) && CallsFormed(c, k) && ScopeHolds(c.prog.concepts, s, env) && e.MatchVariant?
    requires Holds(c.prog.concepts, v, f) && SelectArm(c, e.arms, v, env).Good?
    requires WalkArms(c.prog, r, MatchedConcept(c.prog, f), e.arms, s).1
    ensures var sel, fs := SelectArm(c, e.arms, v, env).value,
      WalkArms(c.prog, r, MatchedConcept(c.prog, f), e.arms, s).0;
      Delivers(c, Eval(c, e.arms[sel.0].body, sel.1, k), JoinAll(fs))
    decreases e, 0
  {
    var sel, mc := SelectArm(c, e.arms, v, env).value, MatchedConcept(c.prog, f);
    var arm := e.arms[sel.0];
    SelectHolds(c, e.arms, v, f, s, env);
    WalkArmsAt(c.prog, r, mc, e.arms, s, sel.0);
    ExprFormed(c, r, arm.body, BindFacts(arm.binders, ArmDecl(mc, arm), 0, s), sel.1, k);
    var o := Eval(c, arm.body, sel.1, k);
    if o.Good? {
      JoinAllHolds(c.prog.concepts, o.value, WalkArms(c.prog, r, mc, e.arms, s).0, sel.0);
    }
  }

  // ----- loops -----

  ghost predicate ItemsHold(cs: map<string, Concept>, vs: seq<Value>, f: Fact) {
    forall i | 0 <= i < |vs| :: Holds(cs, vs[i], f)
  }

  /** What the body of a loop is checked under. */
  ghost predicate BodyStart(c: Ctx, r: Rule, b: Expr, s: Scope, env: Env, x: string, f: Fact, k: nat) {
    Typing(c) && CallsFormed(c, k) && ScopeHolds(c.prog.concepts, s, env) && Walk(c.prog, r, b, s[x := f]).ok
  }

  ghost predicate Decides(o: Res<Value>) { if o.Bad? then !o.fault.IllFormed? else o.value.VBool? }

  lemma QuantifierStep(c: Ctx, all: bool, b: Expr, x: string, items: seq<Value>, env: Env, k: nat)
    requires !c.sem.lowered && items != [] && Eval(c, b, env[x := items[0]], k) != Bad(IllFormed)
    requires Decides(EvalQuantifier(c, all, b, x, items[1..], env, k))
    ensures Decides(EvalQuantifier(c, all, b, x, items, env, k))
  {
  }

  lemma {:induction false} QuantifierItems(c: Ctx, r: Rule, all: bool, b: Expr, x: string, items: seq<Value>, s: Scope,
      env: Env, f: Fact, k: nat)
    requires BodyStart(c, r, b, s, env, x, f, k) && ItemsHold(c.prog.concepts, items, f)
    ensures Decides(EvalQuantifier(c, all, b, x, items, env, k))
    decreases b, 3, |items|
  {
    if items != [] {
      ScopeBound(c.prog.concepts, s, env, x, items[0], f);
      ExprFormed(c, r, b, s[x := f], env[x := items[0]], k);
      QuantifierItems(c, r, all, b, x, items[1..], s, env, f, k);
      QuantifierStep(c, all, b, x, items, env, k);
    }
  }

  lemma ElementsHold(cs: map<string, Concept>, v: Value, f: Fact)
    requires v.VList? && Holds(cs, v, f)
    ensures ItemsHold(cs, v.items, Element(f))
  {
  }

  lemma {:induction false} QuantifierFormed(c: Ctx, r: Rule, e: Expr, s: Scope, env: Env, k: nat)
    requires Start(c, r, e, s, env, k) && e.Quantifier?
    ensures Established(c, r, e, s, env, k)
    decreases e, 1
  {
    ExprFormed(c, r, e.coll, s, env, k);
    var t, f := Eval(c, e.coll, env, k), Walk(c.prog, r, e.coll, s).fact;
    if t.Good? && t.value.VList? {
      ElementsHold(c.prog.concepts, t.value, f);
      QuantifierItems(c, r, e.all, e.body, e.item, t.value.items, s, env, Element(f), k);
    }
  }

  lemma {:induction false} CollectItems(c: Ctx, r: Rule, keep: bool, b: Expr, x: string, items: seq<Value>, s: Scope,
      env: Env, f: Fact, k: nat)
    requires BodyStart(c, r, b, s, env, x, f, k) && ItemsHold(c.prog.concepts, items, f)
    ensures var o := EvalCollect(c, keep, b, x, items, env, k);
      if o.Bad? then !o.fault.IllFormed?
      else ItemsHold(c.prog.concepts, o.value, if keep then f else Walk(c.prog, r, b, s[x := f]).fact)
    decreases b, 3, |items|
  {
    if items != [] {
      ScopeBound(c.prog.concepts, s, env, x, items[0], f);
      ExprFormed(c, r, b, s[x := f], env[x := items[0]], k);
      CollectItems(c, r, keep, b, x, items[1..], s, env, f, k);
    }
  }

  lemma {:induction false} CollectFormed(c: Ctx, r: Rule, e: Expr, s: Scope, env: Env, k: nat)
    requires Start(c, r, e, s, env, k) && e.Collect?
    ensures Established(c, r, e, s, env, k)
    decreases e, 1
  {
    ExprFormed(c, r, e.coll, s, env, k);
    var t, f := Eval(c, e.coll, env, k), Walk(c.prog, r, e.coll, s).fact;
    if t.Good? && t.value.VList? {
      ElementsHold(c.prog.concepts, t.value, f);
      CollectItems(c, r, e.keep, e.body, e.item, t.value.items, s, env, Element(f), k);
      var o := EvalCollect(c, e.keep, e.body, e.item, t.value.items, env, k);
      if o.Good? {
        CollectDelivers(c, e.keep, f, Walk(c.prog, r, e.body, s[e.item := Element(f)]).fact, o.value);
      }
    }
  }

  lemma CollectDelivers(c: Ctx, keep: bool, f: Fact, b: Fact, vs: seq<Value>)
    requires Typing(c) && ItemsHold(c.prog.concepts, vs, if keep then Element(f) else b)
    ensures Holds(c.prog.concepts, VList(vs), CollectFact(keep, f, b))
  {
    if !Element(f).Unknown? {
      if keep {
        assert forall i | 0 <= i < |vs| :: HasType(c.prog.concepts, vs[i], ElemType(f.ty.elem));
      } else {
        CollectionHolds(c.prog.concepts, vs, b);
      }
    }
  }

  // ----- folds -----

  /** Without constructions there is nothing to report, whatever is in scope. */
  lemma {:induction false} NothingReported(p: Program, r: Rule, e: Expr, s: Scope)
    requires Constructions(e) == 0
    ensures Walk(p, r, e, s).ok
    decreases e, 1
  {
    var cs := Children(e);
    forall i | 0 <= i < |cs|
      ensures Constructions(cs[i]) == 0
    {
      NoConstruction(e, cs, i);
    }
    if e.Call? || e.Concat? || e.MatchVariant? {
      NothingInList(p, r, e, s);
    } else {
      forall i | 0 <= i < |cs| { NothingAnywhere(p, r, cs[i]); }
      QuietForm(p, r, e, s);
    }
  }

  lemma {:induction false} NothingInList(p: Program, r: Rule, e: Expr, s: Scope)
    requires e.Call? || e.Concat? || e.MatchVariant?
    requires forall i | 0 <= i < |Children(e)| :: Constructions(Children(e)[i]) == 0
    ensures Walk(p, r, e, s).ok
    decreases e, 0
  {
    if e.Call? {
      assert Children(e) == e.args;
      NothingInAll(p, r, e.args, s);
    } else if e.Concat? {
      assert Children(e) == e.args;
      NothingInAll(p, r, e.args, s);
    } else {
      var cs := Children(e);
      NothingReported(p, r, cs[0], s);
      assert forall i | 0 <= i < |e.arms| :: e.arms[i].body == cs[i + 1];
      NothingInArms(p, r, MatchedConcept(p, Walk(p, r, e.scrutinee, s).fact), e.arms, s);
    }
  }

  lemma {:induction false} NoConstruction(e: Expr, es: seq<Expr>, i: nat)
    requires i < |es| && (forall i | 0 <= i < |es| :: es[i] < e) && AllConstructions(e, es) == 0
    ensures Constructions(es[i]) == 0
    decreases i
  {
    if i > 0 { NoConstruction(e, es[1..], i - 1); }
  }

  lemma {:induction false} NothingInAll(p: Program, r: Rule, es: seq<Expr>, s: Scope)
    requires forall i | 0 <= i < |es| :: Constructions(es[i]) == 0
    ensures WalkAll(p, r, es, s).1
    decreases es, 0
  {
    if es != [] {
      NothingReported(p, r, es[0], s);
      NothingInAll(p, r, es[1..], s);
    }
  }

  lemma {:induction false} NothingInArms(p: Program, r: Rule, c: Option<Concept>, arms: seq<Arm>, s: Scope)
    requires forall i | 0 <= i < |arms| :: Constructions(arms[i].body) == 0
    ensures WalkArms(p, r, c, arms, s).1
    decreases arms, 0
  {
    if arms != [] {
      NothingReported(p, r, arms[0].body, BindFacts(arms[0].binders, ArmDecl(c, arms[0]), 0, s));
      NothingInArms(p, r, c, arms[1..], s);
    }
  }

  ghost predicate Quiet(p: Program, r: Rule, e: Expr) { forall s :: Walk(p, r, e, s).ok }

  lemma {:induction false} NothingAnywhere(p: Program, r: Rule, e: Expr)
    requires Constructions(e) == 0
    ensures Quiet(p, r, e)
    decreases e, 2
  {
    forall s
      ensures Walk(p, r, e, s).ok
    {
      NothingReported(p, r, e, s);
    }
  }

  predicate HasBinder(e: Expr) { e.MatchResult? || e.Quantifier? || e.Collect? || e.Fold? || e.FoldBytes? }

  lemma QuietForm(p: Program, r: Rule, e: Expr, s: Scope)
    requires !e.Construct? && !e.Call? && !e.Concat? && !e.MatchVariant?
    requires forall i | 0 <= i < |Children(e)| :: Quiet(p, r, Children(e)[i]) && Constructions(Children(e)[i]) == 0
    ensures Walk(p, r, e, s).ok
  {
    var cs := Children(e);
    assert |cs| > 0 ==> Quiet(p, r, cs[0]);
    assert |cs| > 1 ==> Quiet(p, r, cs[1]);
    assert |cs| > 2 ==> Quiet(p, r, cs[2]) && Constructions(cs[2]) == 0;
    if HasBinder(e) { QuietBinder(p, r, e, s); } else { QuietScalar(p, r, e, s); }
  }

  lemma QuietScalar(p: Program, r: Rule, e: Expr, s: Scope)
    requires !e.Construct? && !e.Call? && !e.Concat? && !e.MatchVariant? && !HasBinder(e)
    requires var cs := Children(e);
      (|cs| > 0 ==> Quiet(p, r, cs[0])) && (|cs| > 1 ==> Quiet(p, r, cs[1])) && (|cs| > 2 ==> Quiet(p, r, cs[2]))
    ensures Walk(p, r, e, s).ok
  {
  }

  lemma QuietBinder(p: Program, r: Rule, e: Expr, s: Scope)
    requires HasBinder(e)
    requires var cs := Children(e);
      (|cs| > 0 ==> Quiet(p, r, cs[0])) && (|cs| > 1 ==> Quiet(p, r, cs[1])) &&
        (|cs| > 2 ==> Quiet(p, r, cs[2]) && Constructions(cs[2]) == 0)
    ensures Walk(p, r, e, s).ok
  {
  }

  ghost predicate FoldStart(c: Ctx, r: Rule, b: Expr, s: Scope, env: Env, acc: string, x: string, f: Fact, g: Fact,
      k: nat) {
    var w := Walk(c.prog, r, b, s[acc := f][x := g]);
    Typing(c) && CallsFormed(c, k) && ScopeHolds(c.prog.concepts, s, env) && w.ok && (f.Unknown? || w.fact == f)
  }

  lemma {:induction false} FoldItems(c: Ctx, r: Rule, b: Expr, acc: string, x: string, a: Value, items: seq<Value>,
      s: Scope, env: Env, f: Fact, g: Fact, k: nat)
    requires FoldStart(c, r, b, s, env, acc, x, f, g, k) && Holds(c.prog.concepts, a, f) &&
      ItemsHold(c.prog.concepts, items, g)
    ensures Delivers(c, EvalFold(c, b, acc, x, a, items, env, k), f)
    decreases b, 3, |items|
  {
    if items != [] {
      ScopeBound(c.prog.concepts, s, env, acc, a, f);
      ScopeBound(c.prog.concepts, s[acc := f], env[acc := a], x, items[0], g);
      var inner := env[acc := a][x := items[0]];
      ExprFormed(c, r, b, s[acc := f][x := g], inner, k);
      var v := Eval(c, b, inner, k);
      if v.Good? {
        FoldItems(c, r, b, acc, x, v.value, items[1..], s, env, f, g, k);
      }
    }
  }

  lemma {:induction false} FoldFormed(c: Ctx, r: Rule, e: Expr, s: Scope, env: Env, k: nat)
    requires Start(c, r, e, s, env, k) && e.Fold?
    ensures Established(c, r, e, s, env, k)
    decreases e, 1
  {
    ExprFormed(c, r, e.coll, s, env, k);
    ExprFormed(c, r, e.init, s, env, k);
    var t, a := Eval(c, e.coll, env, k), Eval(c, e.init, env, k);
    if t.Good? && t.value.VList? && a.Good? {
      FoldBodyFormed(c, r, e, s, env, t.value, a.value, k);
    }
  }

  lemma {:induction false} FoldBodyFormed(c: Ctx, r: Rule, e: Expr, s: Scope, env: Env, t: Value, a: Value, k: nat)
    requires Start(c, r, e, s, env, k) && e.Fold? && t.VList?
    requires Holds(c.prog.concepts, t, Walk(c.prog, r, e.coll, s).fact) &&
      Holds(c.prog.concepts, a, Walk(c.prog, r, e.init, s).fact)
    ensures Delivers(c, EvalFold(c, e.body, e.acc, e.item, a, t.items, env, k), Walk(c.prog, r, e, s).fact)
    decreases e, 0
  {
    var f, g := Walk(c.prog, r, e.init, s).fact, Element(Walk(c.prog, r, e.coll, s).fact);
    var y := Walk(c.prog, r, e.body, s[e.acc := f][e.item := g]);
    if y.fact == f {
      ElementsHold(c.prog.concepts, t, Walk(c.prog, r, e.coll, s).fact);
      JoinIdempotent(f);
      FoldItems(c, r, e.body, e.acc, e.item, a, t.items, s, env, f, g, k);
    } else {
      NothingReported(c.prog, r, e.body, s[e.acc := Unknown][e.item := Unknown]);
      FoldItems(c, r, e.body, e.acc, e.item, a, t.items, s, env, Unknown, Unknown, k);
    }
  }

  /** Facts do not tell numbers apart. */
  lemma NumbersAlike(cs: map<string, Concept>, a: Value, b: Value, f: Fact)
    requires a.VNumber? && b.VNumber? && Holds(cs, a, f)
    ensures Holds(cs, b, f)
  {
  }

  ghost predicate BytesStart(c: Ctx, r: Rule, e: Expr, s: Scope, env: Env, f: Fact, k: nat)
    requires e.FoldBytes?
  {
    && Typing(c) && CallsFormed(c, k) && ScopeHolds(c.prog.concepts, s, env)
    && Walk(c.prog, r, e.body, s[e.acc := f][e.byte := Known(TNumber)][e.idx := Known(TNumber)]).ok
  }

  lemma {:induction false} FoldBytesItems(c: Ctx, r: Rule, e: Expr, a: Value, b: Bytes, i: nat, s: Scope, env: Env,
      f: Fact, k: nat)
    requires e.FoldBytes? && i <= |b| && BytesStart(c, r, e, s, env, f, k) && a.VNumber? && Holds(c.prog.concepts, a, f)
    ensures var o := EvalFoldBytes(c, e, a, b, i, env, k); if o.Bad? then !o.fault.IllFormed? else o.value.VNumber?
    decreases e.body, 3, |b| - i
  {
    if i < |b| {
      var cs, x, n := c.prog.concepts, VNumber(b[i]), VNumber(Int64.Wrap(i));
      ScopeBound(cs, s, env, e.acc, a, f);
      ScopeBound(cs, s[e.acc := f], env[e.acc := a], e.byte, x, Known(TNumber));
      ScopeBound(cs, s[e.acc := f][e.byte := Known(TNumber)], env[e.acc := a][e.byte := x], e.idx, n, Known(TNumber));
      var inner := env[e.acc := a][e.byte := x][e.idx := n];
      ExprFormed(c, r, e.body, s[e.acc := f][e.byte := Known(TNumber)][e.idx := Known(TNumber)], inner, k);
      var v := Eval(c, e.body, inner, k);
      if v.Good? && v.value.VNumber? {
        NumbersAlike(cs, a, v.value, f);
        FoldBytesItems(c, r, e, v.value, b, i + 1, s, env, f, k);
      }
    }
  }

  lemma {:induction false} FoldBytesFormed(c: Ctx, r: Rule, e: Expr, s: Scope, env: Env, k: nat)
    requires Start(c, r, e, s, env, k) && e.FoldBytes?
    ensures Established(c, r, e, s, env, k)
    decreases e, 1
  {
    ExprFormed(c, r, e.text, s, env, k);
    ExprFormed(c, r, e.init, s, env, k);
    var t, a := Eval(c, e.text, env, k), Eval(c, e.init, env, k);
    if t.Good? && t.value.VText? && a.Good? && a.value.VNumber? {
      FoldBytesItems(c, r, e, a.value, t.value.s, 0, s, env, Walk(c.prog, r, e.init, s).fact, k);
    }
  }

  // ----- rules and programs -----

  lemma {:induction false} LetsFormed(c: Ctx, r: Rule, bs: seq<Binding>, s: Scope, env: Env, k: nat)
    requires Typing(c) && CallsFormed(c, k) && ScopeHolds(c.prog.concepts, s, env) && WalkLets(c.prog, r, bs, s).1
    ensures var o := EvalLets(c, bs, env, k);
      if o.Bad? then !o.fault.IllFormed? else ScopeHolds(c.prog.concepts, WalkLets(c.prog, r, bs, s).0, o.value)
    decreases |bs|
  {
    if bs != [] {
      ExprFormed(c, r, bs[0].value, s, env, k);
      var v, f := Eval(c, bs[0].value, env, k), Walk(c.prog, r, bs[0].value, s).fact;
      if v.Good? {
        ScopeBound(c.prog.concepts, s, env, bs[0].name, v.value, f);
        LetsFormed(c, r, bs[1..], s[bs[0].name := f], env[bs[0].name := v.value], k);
      }
    }
  }

  lemma RuleFormed(c: Ctx, r: Rule, v: Value, k: nat)
    requires Typing(c) && CallsFormed(c, k) && RuleEstablished(c.prog, r)
    ensures EvalRule(c, r, v, k) != Bad(IllFormed)
  {
    var s: Scope, env: Env := map[r.input := FromType(r.inputTy)], map[r.input := v];
    if EntryExpected(c, r, v) {
      TypeHolds(c.prog.concepts, v, r.inputTy);
      LetsFormed(c, r, r.bindings, s, env, k);
      var o := EvalLets(c, r.bindings, env, k);
      if o.Good? {
        ExprFormed(c, r, r.value, WalkLets(c.prog, r, r.bindings, s).0, o.value, k);
      }
    }
  }

  /** When nothing is reported about any rule, no run of any rule, on any input
      and with any call budget, builds an ill-formed value. */
  lemma {:induction false} ConstructorSoundness(c: Ctx, n: string, v: Value, k: nat)
    requires Typing(c) && n in c.prog.rules && forall m | m in c.prog.rules :: RuleEstablished(c.prog, c.prog.rules[m])
    ensures RunFormed(c, n, v, k)
    decreases k
  {
    if k > 0 {
      var less := k - 1;
      forall m, w | m in c.prog.rules
        ensures RunFormed(c, m, w, less)
      {
        ConstructorSoundness(c, m, w, less);
      }
    }
    RuleFormed(c, c.prog.rules[n], v, k);
  }
}
