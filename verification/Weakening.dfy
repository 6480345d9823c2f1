/** A name that does not occur free in an expression does not matter to it. */
module Weakening {
  import opened Int64
  import opened Ast
  import opened TextOps
  import opened Interp
  import opened Refinement

  /** `x` does not occur free in `e`. */
  predicate Lacks(e: Expr, x: string)
    decreases e, 1
  {
    match e
    case Ident(n) => n != x
    case MatchResult(t, y, a, z, b) => Lacks(t, x) && LacksUnder({y}, a, x) && LacksUnder({z}, b, x)
    case MatchVariant(t, arms) =>
      Lacks(t, x) && forall i | 0 <= i < |arms| :: Some(x) in arms[i].binders || Lacks(arms[i].body, x)
    case Quantifier(_, c, y, b) => Lacks(c, x) && LacksUnder({y}, b, x)
    case Collect(_, c, y, b) => Lacks(c, x) && LacksUnder({y}, b, x)
    case Fold(c, i, acc, y, b) => Lacks(c, x) && Lacks(i, x) && LacksUnder({acc, y}, b, x)
    case FoldBytes(t, i, acc, y, n, b) => Lacks(t, x) && Lacks(i, x) && LacksUnder({acc, y, n}, b, x)
    case _ => forall c | c in Children(e) :: Lacks(c, x)
  }

  predicate LacksUnder(bound: set<string>, e: Expr, x: string)
    decreases e, 2
  {
    x in bound || Lacks(e, x)
  }

  /** The same bindings, except perhaps of `x`. */
  ghost predicate SameBut(env: Env, env': Env, x: string) {
    forall y | y != x :: (y in env <==> y in env') && (y in env ==> env[y] == env'[y])
  }

  /** Binding `x` makes the environments equal; binding another name keeps them alike. */
  ghost predicate Alike(env: Env, env': Env, x: string, hidden: bool) {
    if hidden then env == env' else SameBut(env, env', x)
  }

  lemma BindAlike(env: Env, env': Env, x: string, hidden: bool, y: string, v: Value)
    requires SameBut(env, env', x) && (hidden ==> Alike(env, env', x, true))
    ensures Alike(env[y := v], env'[y := v], x, hidden || y == x) && SameBut(env[y := v], env'[y := v], x)
  {
    if y == x {
      assert env[y := v] == env'[y := v];
    }
  }

  lemma {:induction false} Irrelevant(c: Ctx, e: Expr, x: string, env: Env, env': Env, k: nat)
    requires Lacks(e, x) && SameBut(env, env', x)
    ensures ExprRefines(false, c, c, e, e, env, env', k)
    decreases e, 2
  {
    if e.Call? {
      IrrelevantCall(c, e, x, env, env', k);
    } else if e.Concat? || e.Construct? {
      IrrelevantList(c, e, x, env, env', k);
    } else if e.MatchResult? || e.MatchVariant? {
      IrrelevantMatch(c, e, x, env, env', k);
    } else if e.Quantifier? || e.Collect? || e.Fold? || e.FoldBytes? {
      IrrelevantLoop(c, e, x, env, env', k);
    } else if e.Number? || e.Text? || e.BytesLit? || e.Ident? {
      IrrelevantLeaf(c, e, x, env, env', k);
    } else {
      IrrelevantScalar(c, e, x, env, env', k);
    }
  }

  lemma IrrelevantLeaf(c: Ctx, e: Expr, x: string, env: Env, env': Env, k: nat)
    requires (e.Number? || e.Text? || e.BytesLit? || e.Ident?) && Lacks(e, x) && SameBut(env, env', x)
    ensures ExprRefines(false, c, c, e, e, env, env', k)
  {
  }

  lemma {:induction false} IrrelevantList(c: Ctx, e: Expr, x: string, env: Env, env': Env, k: nat)
    requires (e.Concat? || e.Construct?) && Lacks(e, x) && SameBut(env, env', x)
    ensures ExprRefines(false, c, c, e, e, env, env', k)
    decreases e, 1
  {
    if e.Concat? {
      IrrelevantAll(c, e, e.args, x, env, env', k);
      ConcatCong(false, c, c, e.args, e.args, env, env', k);
    } else {
      assert forall i | 0 <= i < |e.inits| :: e.inits[i].value == Children(e)[i];
      IrrelevantInits(c, e, e.inits, x, env, env', map[], k);
      ConstructCong(false, c, c, e.concept, e.variant, e.inits, e.inits, env, env', k);
    }
  }

  lemma {:induction false} IrrelevantScalar(c: Ctx, e: Expr, x: string, env: Env, env': Env, k: nat)
    requires e.Field? || e.Unary? || e.Binary? || e.Prim? || e.TryByteAt? || e.Substring? || e.If?
    requires Lacks(e, x) && SameBut(env, env', x)
    ensures ExprRefines(false, c, c, e, e, env, env', k)
    decreases e, 1
  {
    var cs := Children(e);
    assert cs[0] in cs;
    Irrelevant(c, cs[0], x, env, env', k);
    if |cs| > 1 { Irrelevant(c, cs[1], x, env, env', k); }
    if |cs| > 2 { Irrelevant(c, cs[2], x, env, env', k); }
    match e
    case Field(a, f) => FieldCong(false, c, c, a, a, f, env, env', k);
    case Unary(op, a) => UnaryCong(false, c, c, op, a, a, env, env', k);
    case Binary(op, a, b) => BinaryCong(false, c, c, op, a, a, b, b, env, env', k);
    case Prim(op, a, b) => PrimCong(false, c, c, op, a, a, b, b, env, env', k);
    case TryByteAt(t, i) => TryByteCong(false, c, c, t, t, i, i, env, env', k);
    case Substring(a, b, d) => SubstringCong(false, c, c, a, a, b, b, d, d, env, env', k);
    case If(a, b, d) => IfCong(false, c, c, a, a, b, b, d, d, env, env', k);
  }

  lemma {:induction false} IrrelevantCall(c: Ctx, e: Expr, x: string, env: Env, env': Env, k: nat)
    requires e.Call? && Lacks(e, x) && SameBut(env, env', x)
    ensures ExprRefines(false, c, c, e, e, env, env', k)
    decreases e, 1
  {
    if |e.args| == 1 {
      assert e.args[0] in Children(e);
      Irrelevant(c, e.args[0], x, env, env', k);
    }
  }

  lemma {:induction false} IrrelevantAll(c: Ctx, e: Expr, es: seq<Expr>, x: string, env: Env, env': Env, k: nat)
    requires (forall i | 0 <= i < |es| :: Lacks(es[i], x)) && SameBut(env, env', x)
    ensures Refines(false, EvalAll(c, es, env, k), EvalAll(c, es, env', k))
    decreases es, 0
  {
    if es != [] {
      Irrelevant(c, es[0], x, env, env', k);
      IrrelevantAll(c, e, es[1..], x, env, env', k);
    }
  }

  lemma {:induction false} IrrelevantInits(c: Ctx, e: Expr, fs: seq<FieldInit>, x: string, env: Env, env': Env,
      m: map<string, Value>, k: nat)
    requires (forall i | 0 <= i < |fs| :: Lacks(fs[i].value, x)) && SameBut(env, env', x)
    ensures Refines(false, EvalInits(c, fs, env, m, k), EvalInits(c, fs, env', m, k))
    decreases fs, 0
  {
    if fs != [] {
      Irrelevant(c, fs[0].value, x, env, env', k);
      var v := Eval(c, fs[0].value, env, k);
      if v.Good? {
        IrrelevantInits(c, e, fs[1..], x, env, env', m[fs[0].name := v.value], k);
      }
    }
  }

  // ----- binders -----

  lemma {:induction false} IrrelevantUnder(c: Ctx, bound: set<string>, e: Expr, x: string, env: Env, env': Env, k: nat)
    requires LacksUnder(bound, e, x) && Alike(env, env', x, x in bound)
    ensures Refines(false, Eval(c, e, env, k), Eval(c, e, env', k))
    decreases e, 3
  {
    if x !in bound {
      Irrelevant(c, e, x, env, env', k);
    }
  }

  lemma {:induction false} IrrelevantItem(c: Ctx, b: Expr, y: string, x: string, env: Env, env': Env, k: nat)
    requires LacksUnder({y}, b, x) && SameBut(env, env', x)
    ensures BodyRefines(false, c, c, b, b, y, env, env', k)
    decreases b, 4
  {
    forall v
      ensures ItemRefines(false, c, c, b, b, y, env, env', k, v)
    {
      BindAlike(env, env', x, false, y, v);
      IrrelevantUnder(c, {y}, b, x, env[y := v], env'[y := v], k);
    }
  }

  lemma {:induction false} IrrelevantStep(c: Ctx, b: Expr, acc: string, y: string, x: string, env: Env, env': Env,
      k: nat)
    requires LacksUnder({acc, y}, b, x) && SameBut(env, env', x)
    ensures StepsRefine(false, c, c, b, b, acc, y, env, env', k)
    decreases b, 4
  {
    forall a, v
      ensures StepRefines(false, c, c, b, b, acc, y, env, env', k, a, v)
    {
      BindAlike(env, env', x, false, acc, a);
      BindAlike(env[acc := a], env'[acc := a], x, acc == x, y, v);
      IrrelevantUnder(c, {acc, y}, b, x, env[acc := a][y := v], env'[acc := a][y := v], k);
    }
  }

  lemma {:induction false} IrrelevantByte(c: Ctx, e: Expr, x: string, env: Env, env': Env, k: nat)
    requires e.FoldBytes? && LacksUnder({e.acc, e.byte, e.idx}, e.body, x) && SameBut(env, env', x)
    ensures forall a, b, n :: ByteRefines(false, c, c, e, e, env, env', k, a, b, n)
    decreases e.body, 4
  {
    forall a, b, n
      ensures ByteRefines(false, c, c, e, e, env, env', k, a, b, n)
    {
      BindAlike(env, env', x, false, e.acc, a);
      BindAlike(env[e.acc := a], env'[e.acc := a], x, e.acc == x, e.byte, b);
      BindAlike(env[e.acc := a][e.byte := b], env'[e.acc := a][e.byte := b], x, e.acc == x || e.byte == x, e.idx, n);
      IrrelevantUnder(c, {e.acc, e.byte, e.idx}, e.body, x,
        env[e.acc := a][e.byte := b][e.idx := n], env'[e.acc := a][e.byte := b][e.idx := n], k);
    }
  }

  lemma {:induction false} BindArmAlike(bs: seq<Option<string>>, ds: seq<FieldDecl>, m: map<string, Value>, x: string,
      hidden: bool, env: Env, env': Env)
    requires |bs| == |ds| && SameBut(env, env', x) && (hidden ==> env == env')
    ensures var r, r' := BindArm(bs, ds, m, env), BindArm(bs, ds, m, env');
      && r.Good? == r'.Good? && (r.Bad? ==> r == r')
      && (r.Good? ==> Alike(r.value, r'.value, x, hidden || Some(x) in bs) && SameBut(r.value, r'.value, x))
    decreases |bs|
  {
    if bs != [] {
      assert bs == [bs[0]] + bs[1..];
      if bs[0].None? {
        BindArmAlike(bs[1..], ds[1..], m, x, hidden, env, env');
      } else if ds[0].name in m {
        var y, w := bs[0].value, m[ds[0].name];
        BindAlike(env, env', x, hidden, y, w);
        BindArmAlike(bs[1..], ds[1..], m, x, hidden || y == x, env[y := w], env'[y := w]);
      }
    }
  }

  lemma {:induction false} IrrelevantArms(c: Ctx, e: Expr, v: Value, x: string, env: Env, env': Env, k: nat)
    requires e.MatchVariant? && Lacks(e, x) && SameBut(env, env', x)
    ensures ArmsRefine(false, c, c, e.arms, e.arms, v, env, env', k)
    decreases e, 0
  {
    if v.VVariant? {
      var i := FindArm(e.arms, v.variant);
      if i.Some? && v.concept in c.prog.concepts {
        var d := FindVariant(c.prog.concepts[v.concept].variants, v.variant);
        var arm := e.arms[i.value];
        if d.Some? && |arm.binders| == |d.value.fields| {
          BindArmAlike(arm.binders, d.value.fields, v.fields, x, false, env, env');
          var r, r' := BindArm(arm.binders, d.value.fields, v.fields, env),
            BindArm(arm.binders, d.value.fields, v.fields, env');
          if r.Good? && Some(x) !in arm.binders {
            Irrelevant(c, arm.body, x, r.value, r'.value, k);
          }
        }
      }
    }
  }

  lemma {:induction false} IrrelevantMatch(c: Ctx, e: Expr, x: string, env: Env, env': Env, k: nat)
    requires e.MatchResult? || e.MatchVariant?
    requires Lacks(e, x) && SameBut(env, env', x)
    ensures ExprRefines(false, c, c, e, e, env, env', k)
    decreases e, 1
  {
    match e
    case MatchResult(t, y, a, z, b) =>
      Irrelevant(c, t, x, env, env', k);
      IrrelevantItem(c, a, y, x, env, env', k);
      IrrelevantItem(c, b, z, x, env, env', k);
      MatchResultCong(false, c, c, t, t, y, a, a, z, b, b, env, env', k);
    case MatchVariant(t, arms) =>
      Irrelevant(c, t, x, env, env', k);
      forall v
        ensures ArmsRefine(false, c, c, arms, arms, v, env, env', k)
      {
        IrrelevantArms(c, e, v, x, env, env', k);
      }
      MatchVariantCong(false, c, c, t, t, arms, arms, env, env', k);
  }

  lemma {:induction false} IrrelevantLoop(c: Ctx, e: Expr, x: string, env: Env, env': Env, k: nat)
    requires e.Quantifier? || e.Collect? || e.Fold? || e.FoldBytes?
    requires Lacks(e, x) && SameBut(env, env', x)
    ensures ExprRefines(false, c, c, e, e, env, env', k)
    decreases e, 1
  {
    match e
    case Quantifier(all, t, y, b) =>
      Irrelevant(c, t, x, env, env', k);
      IrrelevantItem(c, b, y, x, env, env', k);
      QuantifierCong(false, c, c, all, t, t, y, b, b, env, env', k);
    case Collect(keep, t, y, b) =>
      Irrelevant(c, t, x, env, env', k);
      IrrelevantItem(c, b, y, x, env, env', k);
      CollectCong(false, c, c, keep, t, t, y, b, b, env, env', k);
    case Fold(t, i, acc, y, b) =>
      Irrelevant(c, t, x, env, env', k);
      Irrelevant(c, i, x, env, env', k);
      IrrelevantStep(c, b, acc, y, x, env, env', k);
      FoldCong(false, c, c, t, t, i, i, acc, y, b, b, env, env', k);
    case FoldBytes(t, i, acc, y, n, b) =>
      Irrelevant(c, t, x, env, env', k);
      Irrelevant(c, i, x, env, env', k);
      IrrelevantByte(c, e, x, env, env', k);
      FoldBytesCong(false, c, c, e, e, env, env', k);
  }

  /** Rebinding a name an expression lacks changes no run of it. */
  lemma Rebinding(c: Ctx, e: Expr, x: string, env: Env, v: Value, k: nat)
    requires Lacks(e, x)
    ensures Eval(c, e, env[x := v], k) == Eval(c, e, env, k)
  {
    Irrelevant(c, e, x, env, env[x := v], k);
  }
}
