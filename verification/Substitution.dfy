/** Replacing a name by a text literal, under every binder form. */
module Substitution {
  import opened Int64
  import opened Ast
  import opened TextOps
  import opened Interp
  import opened Refinement

  predicate Binds(bs: seq<Option<string>>, x: string) { Some(x) in bs }

  /** Replaces the free occurrences of `x`; a body that rebinds it is left alone. */
  function Subst(e: Expr, x: string, r: Expr): Expr
    decreases e, 0
  {
    match e
    case Number(_) => e
    case Text(_) => e
    case BytesLit(_) => e
    case Ident(n) => if n == x then r else e
    case Field(b, f) => Field(Subst(b, x, r), f)
    case Binary(op, a, b) => Binary(op, Subst(a, x, r), Subst(b, x, r))
    case Unary(op, a) => Unary(op, Subst(a, x, r))
    case Prim(op, a, b) => Prim(op, Subst(a, x, r), Subst(b, x, r))
    case TryByteAt(t, i) => TryByteAt(Subst(t, x, r), Subst(i, x, r))
    case Substring(a, b, c) => Substring(Subst(a, x, r), Subst(b, x, r), Subst(c, x, r))
    case If(a, b, c) => If(Subst(a, x, r), Subst(b, x, r), Subst(c, x, r))
    case MatchResult(t, okVar, okBody, errVar, errBody) =>
      MatchResult(Subst(t, x, r), okVar, SubstUnder({okVar}, okBody, x, r), errVar, SubstUnder({errVar}, errBody, x, r))
    case Call(f, args) => Call(f, SubstAll(args, x, r))
    case Concat(args) => Concat(SubstAll(args, x, r))
    case Construct(n, v, inits) => Construct(n, v, SubstInits(inits, x, r))
    case MatchVariant(s, arms) => MatchVariant(Subst(s, x, r), SubstArms(arms, x, r))
    case Quantifier(all, c, y, b) => Quantifier(all, Subst(c, x, r), y, SubstUnder({y}, b, x, r))
    case Collect(keep, c, y, b) => Collect(keep, Subst(c, x, r), y, SubstUnder({y}, b, x, r))
    case Fold(c, i, acc, y, b) => Fold(Subst(c, x, r), Subst(i, x, r), acc, y, SubstUnder({acc, y}, b, x, r))
    case FoldBytes(t, i, acc, y, n, b) =>
      FoldBytes(Subst(t, x, r), Subst(i, x, r), acc, y, n, SubstUnder({acc, y, n}, b, x, r))
  }

  function SubstUnder(bound: set<string>, e: Expr, x: string, r: Expr): Expr
    decreases e, 1
  {
    if x in bound then e else Subst(e, x, r)
  }

  function SubstAll(es: seq<Expr>, x: string, r: Expr): (out: seq<Expr>)
    ensures |out| == |es|
    ensures |es| == 1 ==> out == [Subst(es[0], x, r)]
    decreases es, 0
  {
    if es == [] then [] else [Subst(es[0], x, r)] + SubstAll(es[1..], x, r)
  }

  function SubstInits(fs: seq<FieldInit>, x: string, r: Expr): seq<FieldInit>
    decreases fs, 0
  {
    if fs == [] then [] else [FieldInit(fs[0].name, Subst(fs[0].value, x, r))] + SubstInits(fs[1..], x, r)
  }

  function SubstArm(a: Arm, x: string, r: Expr): Arm
    decreases a, 0
  {
    Arm(a.variant, a.binders, if Binds(a.binders, x) then a.body else Subst(a.body, x, r))
  }

  function SubstArms(arms: seq<Arm>, x: string, r: Expr): (out: seq<Arm>)
    ensures |out| == |arms|
    ensures forall i | 0 <= i < |arms| :: out[i] == SubstArm(arms[i], x, r)
    decreases arms, 0
  {
    if arms == [] then [] else [SubstArm(arms[0], x, r)] + SubstArms(arms[1..], x, r)
  }

  // ----- the substitution lemma -----

  /** No try_byte_at in the expression has a name as its table. */
  predicate NoNamedTable(e: Expr)
    decreases e
  {
    !(e.TryByteAt? && e.table.Ident?) && forall c | c in Children(e) :: NoNamedTable(c)
  }

  /** Substituting a literal means evaluating with the name bound to its text:
      on every run when no table is a name, and on every run that does not go
      wrong in any case. */
  lemma {:induction false} SubstEval(lax: bool, c: Ctx, e: Expr, x: string, s: Bytes, env: Env, k: nat)
    requires lax || NoNamedTable(e)
    ensures ExprRefines(lax, c, c, e, Subst(e, x, Text(s)), env[x := VText(s)], env, k)
    decreases e, 1
  {
    var env1, r := env[x := VText(s)], Text(s);
    match e
    case Number(_) =>
    case Text(_) =>
    case BytesLit(_) =>
    case Ident(_) =>
    case Field(_, _) => SubstScalarEval(lax, c, e, x, s, env, k);
    case Binary(_, _, _) => SubstScalarEval(lax, c, e, x, s, env, k);
    case Unary(_, _) => SubstScalarEval(lax, c, e, x, s, env, k);
    case Prim(_, _, _) => SubstScalarEval(lax, c, e, x, s, env, k);
    case TryByteAt(_, _) => SubstScalarEval(lax, c, e, x, s, env, k);
    case Substring(_, _, _) => SubstThreeEval(lax, c, e, x, s, env, k);
    case If(_, _, _) => SubstThreeEval(lax, c, e, x, s, env, k);
    case Call(_, args) =>
      if |args| == 1 {
        SubstEval(lax, c, args[0], x, s, env, k);
      }
    case Concat(args) =>
      SubstAllEval(lax, c, args, x, s, env, k);
      ConcatCong(lax, c, c, args, SubstAll(args, x, r), env1, env, k);
    case Construct(n, v, inits) =>
      SubstFields(lax, e);
      SubstInitsEval(lax, c, inits, x, s, env, map[], k);
      ConstructCong(lax, c, c, n, v, inits, SubstInits(inits, x, r), env1, env, k);
    case MatchResult(_, _, _, _, _) => SubstMatchEval(lax, c, e, x, s, env, k);
    case MatchVariant(_, _) => SubstMatchEval(lax, c, e, x, s, env, k);
    case Quantifier(_, _, _, _) => SubstLoopEval(lax, c, e, x, s, env, k);
    case Collect(_, _, _, _) => SubstLoopEval(lax, c, e, x, s, env, k);
    case Fold(_, _, _, _, _) => SubstFoldEval(lax, c, e, x, s, env, k);
    case FoldBytes(_, _, _, _, _, _) => SubstFoldEval(lax, c, e, x, s, env, k);
  }

  lemma {:induction false} SubstScalarEval(lax: bool, c: Ctx, e: Expr, x: string, s: Bytes, env: Env, k: nat)
    requires lax || NoNamedTable(e)
    requires e.Field? || e.Binary? || e.Unary? || e.Prim? || e.TryByteAt?
    ensures ExprRefines(lax, c, c, e, Subst(e, x, Text(s)), env[x := VText(s)], env, k)
    decreases e, 0
  {
    var env1, r := env[x := VText(s)], Text(s);
    match e
    case Field(a, f) =>
      SubstEval(lax, c, a, x, s, env, k);
      FieldCong(lax, c, c, a, Subst(a, x, r), f, env1, env, k);
    case Binary(op, a, b) =>
      SubstEval(lax, c, a, x, s, env, k);
      SubstEval(lax, c, b, x, s, env, k);
      BinaryCong(lax, c, c, op, a, Subst(a, x, r), b, Subst(b, x, r), env1, env, k);
    case Unary(op, a) =>
      SubstEval(lax, c, a, x, s, env, k);
      UnaryCong(lax, c, c, op, a, Subst(a, x, r), env1, env, k);
    case Prim(op, a, b) =>
      SubstEval(lax, c, a, x, s, env, k);
      SubstEval(lax, c, b, x, s, env, k);
      PrimCong(lax, c, c, op, a, Subst(a, x, r), b, Subst(b, x, r), env1, env, k);
    case TryByteAt(t, i) =>
      SubstEval(lax, c, i, x, s, env, k);
      TryByteCong(lax, c, c, t, Subst(t, x, r), i, Subst(i, x, r), env1, env, k);
  }

  lemma {:induction false} SubstThreeEval(lax: bool, c: Ctx, e: Expr, x: string, s: Bytes, env: Env, k: nat)
    requires lax || NoNamedTable(e)
    requires e.Substring? || e.If?
    ensures ExprRefines(lax, c, c, e, Subst(e, x, Text(s)), env[x := VText(s)], env, k)
    decreases e, 0
  {
    var env1, r := env[x := VText(s)], Text(s);
    match e
    case Substring(a, b, d) =>
      SubstEval(lax, c, a, x, s, env, k);
      SubstEval(lax, c, b, x, s, env, k);
      SubstEval(lax, c, d, x, s, env, k);
      SubstringCong(lax, c, c, a, Subst(a, x, r), b, Subst(b, x, r), d, Subst(d, x, r), env1, env, k);
    case If(a, b, d) =>
      SubstEval(lax, c, a, x, s, env, k);
      SubstEval(lax, c, b, x, s, env, k);
      SubstEval(lax, c, d, x, s, env, k);
      IfCong(lax, c, c, a, Subst(a, x, r), b, Subst(b, x, r), d, Subst(d, x, r), env1, env, k);
  }

  lemma {:induction false} SubstMatchEval(lax: bool, c: Ctx, e: Expr, x: string, s: Bytes, env: Env, k: nat)
    requires lax || NoNamedTable(e)
    requires e.MatchResult? || e.MatchVariant?
    ensures ExprRefines(lax, c, c, e, Subst(e, x, Text(s)), env[x := VText(s)], env, k)
    decreases e, 0
  {
    var env1, r := env[x := VText(s)], Text(s);
    match e
    case MatchResult(t, y, a, z, b) =>
      SubstEval(lax, c, t, x, s, env, k);
      var a', b' := SubstUnder({y}, a, x, r), SubstUnder({z}, b, x, r);
      SubstItem(lax, c, a, a', y, x, s, env1, env, k);
      SubstItem(lax, c, b, b', z, x, s, env1, env, k);
      MatchResultCong(lax, c, c, t, Subst(t, x, r), y, a, a', z, b, b', env1, env, k);
    case MatchVariant(t, arms) =>
      SubstEval(lax, c, t, x, s, env, k);
      var arms' := SubstArms(arms, x, r);
      SubstBodies(lax, e);
      forall v
        ensures ArmsRefine(lax, c, c, arms, arms', v, env1, env, k)
      {
        SubstArmsEval(lax, c, arms, v, x, s, env, k);
      }
      MatchVariantCong(lax, c, c, t, Subst(t, x, r), arms, arms', env1, env, k);
  }

  lemma SubstFields(lax: bool, e: Expr)
    requires e.Construct? && (lax || NoNamedTable(e))
    ensures lax || forall i | 0 <= i < |e.inits| :: NoNamedTable(e.inits[i].value)
  {
    assert forall i | 0 <= i < |e.inits| :: e.inits[i].value == Children(e)[i];
  }

  lemma SubstBodies(lax: bool, e: Expr)
    requires e.MatchVariant? && (lax || NoNamedTable(e))
    ensures lax || forall i | 0 <= i < |e.arms| :: NoNamedTable(e.arms[i].body)
  {
    assert forall i | 0 <= i < |e.arms| :: e.arms[i].body == Children(e)[i + 1];
  }

  lemma {:induction false} SubstLoopEval(lax: bool, c: Ctx, e: Expr, x: string, s: Bytes, env: Env, k: nat)
    requires lax || NoNamedTable(e)
    requires e.Quantifier? || e.Collect?
    ensures ExprRefines(lax, c, c, e, Subst(e, x, Text(s)), env[x := VText(s)], env, k)
    decreases e, 0
  {
    var env1, r := env[x := VText(s)], Text(s);
    match e
    case Quantifier(all, coll, y, b) =>
      SubstEval(lax, c, coll, x, s, env, k);
      SubstItem(lax, c, b, SubstUnder({y}, b, x, r), y, x, s, env1, env, k);
      QuantifierCong(lax, c, c, all, coll, Subst(coll, x, r), y, b, SubstUnder({y}, b, x, r), env1, env, k);
    case Collect(keep, coll, y, b) =>
      SubstEval(lax, c, coll, x, s, env, k);
      SubstItem(lax, c, b, SubstUnder({y}, b, x, r), y, x, s, env1, env, k);
      CollectCong(lax, c, c, keep, coll, Subst(coll, x, r), y, b, SubstUnder({y}, b, x, r), env1, env, k);
  }

  lemma {:induction false} SubstFoldEval(lax: bool, c: Ctx, e: Expr, x: string, s: Bytes, env: Env, k: nat)
    requires lax || NoNamedTable(e)
    requires e.Fold? || e.FoldBytes?
    ensures ExprRefines(lax, c, c, e, Subst(e, x, Text(s)), env[x := VText(s)], env, k)
    decreases e, 0
  {
    var env1, r := env[x := VText(s)], Text(s);
    match e
    case Fold(coll, init, acc, y, b) =>
      SubstEval(lax, c, coll, x, s, env, k);
      SubstEval(lax, c, init, x, s, env, k);
      var b' := SubstUnder({acc, y}, b, x, r);
      SubstStep(lax, c, b, b', acc, y, x, s, env1, env, k);
      FoldCong(lax, c, c, coll, Subst(coll, x, r), init, Subst(init, x, r), acc, y, b, b', env1, env, k);
    case FoldBytes(t, init, acc, y, n, b) =>
      SubstEval(lax, c, t, x, s, env, k);
      SubstEval(lax, c, init, x, s, env, k);
      SubstByte(lax, c, e, Subst(e, x, r), x, s, env1, env, k);
      FoldBytesCong(lax, c, c, e, Subst(e, x, r), env1, env, k);
  }

  /** A body under binders, with environments that differ at most in an `x`
      which one of the binders hides. */
  lemma {:induction false} SubstUnderEval(lax: bool, c: Ctx, bound: set<string>, e: Expr, x: string, s: Bytes,
      env1: Env, env: Env, k: nat)
    requires lax || NoNamedTable(e)
    requires if x in bound then env1 == env else env1 == env[x := VText(s)]
    ensures Refines(lax, Eval(c, e, env1, k), Eval(c, SubstUnder(bound, e, x, Text(s)), env, k))
    decreases e, 2
  {
    if x !in bound {
      SubstEval(lax, c, e, x, s, env, k);
    }
  }

  lemma {:induction false} SubstItem(lax: bool, c: Ctx, b: Expr, f: Expr, y: string, x: string, s: Bytes, env1: Env,
      env: Env, k: nat)
    requires lax || NoNamedTable(b)
    requires env1 == env[x := VText(s)] && f == SubstUnder({y}, b, x, Text(s))
    ensures BodyRefines(lax, c, c, b, f, y, env1, env, k)
    decreases b, 3
  {
    forall v
      ensures ItemRefines(lax, c, c, b, f, y, env1, env, k, v)
    {
      assert env1[y := v] == if x == y then env[y := v] else env[y := v][x := VText(s)];
      SubstUnderEval(lax, c, {y}, b, x, s, env1[y := v], env[y := v], k);
    }
  }

  lemma {:induction false} SubstStep(lax: bool, c: Ctx, b: Expr, f: Expr, acc: string, y: string, x: string, s: Bytes,
      env1: Env, env: Env, k: nat)
    requires lax || NoNamedTable(b)
    requires env1 == env[x := VText(s)] && f == SubstUnder({acc, y}, b, x, Text(s))
    ensures StepsRefine(lax, c, c, b, f, acc, y, env1, env, k)
    decreases b, 3
  {
    forall a, v
      ensures StepRefines(lax, c, c, b, f, acc, y, env1, env, k, a, v)
    {
      var inner := env[acc := a][y := v];
      assert env1[acc := a][y := v] == if x == acc || x == y then inner else inner[x := VText(s)];
      SubstUnderEval(lax, c, {acc, y}, b, x, s, env1[acc := a][y := v], inner, k);
    }
  }

  lemma {:induction false} SubstByte(lax: bool, c: Ctx, e: Expr, f: Expr, x: string, s: Bytes, env1: Env, env: Env,
      k: nat)
    requires lax || NoNamedTable(e)
    requires e.FoldBytes? && env1 == env[x := VText(s)] && f == Subst(e, x, Text(s))
    ensures forall a, b, n :: ByteRefines(lax, c, c, e, f, env1, env, k, a, b, n)
    decreases e.body, 3
  {
    forall a, b, n
      ensures ByteRefines(lax, c, c, e, f, env1, env, k, a, b, n)
    {
      var inner := env[e.acc := a][e.byte := b][e.idx := n];
      assert env1[e.acc := a][e.byte := b][e.idx := n] ==
             if x in {e.acc, e.byte, e.idx} then inner else inner[x := VText(s)];
      SubstUnderEval(lax, c, {e.acc, e.byte, e.idx}, e.body, x, s, env1[e.acc := a][e.byte := b][e.idx := n], inner, k);
    }
  }

  lemma {:induction false} SubstAllEval(lax: bool, c: Ctx, es: seq<Expr>, x: string, s: Bytes, env: Env, k: nat)
    requires lax || forall i | 0 <= i < |es| :: NoNamedTable(es[i])
    ensures Refines(lax, EvalAll(c, es, env[x := VText(s)], k), EvalAll(c, SubstAll(es, x, Text(s)), env, k))
    decreases es, 0
  {
    if es != [] {
      SubstEval(lax, c, es[0], x, s, env, k);
      SubstAllEval(lax, c, es[1..], x, s, env, k);
      assert SubstAll(es, x, Text(s))[1..] == SubstAll(es[1..], x, Text(s));
    }
  }

  lemma {:induction false} SubstInitsEval(lax: bool, c: Ctx, fs: seq<FieldInit>, x: string, s: Bytes, env: Env,
      m: map<string, Value>, k: nat)
    requires lax || forall i | 0 <= i < |fs| :: NoNamedTable(fs[i].value)
    ensures Refines(lax, EvalInits(c, fs, env[x := VText(s)], m, k),
      EvalInits(c, SubstInits(fs, x, Text(s)), env, m, k))
    decreases fs, 0
  {
    if fs != [] {
      SubstEval(lax, c, fs[0].value, x, s, env, k);
      var gs := SubstInits(fs, x, Text(s));
      assert gs[1..] == SubstInits(fs[1..], x, Text(s));
      var v := Eval(c, fs[0].value, env[x := VText(s)], k);
      if v.Good? {
        SubstInitsEval(lax, c, fs[1..], x, s, env, m[fs[0].name := v.value], k);
      }
    }
  }

  // ----- match arms -----

  lemma {:induction false} BindArmSubst(bs: seq<Option<string>>, ds: seq<FieldDecl>, m: map<string, Value>, x: string,
      v: Value, env: Env)
    requires |bs| == |ds|
    ensures var r, r1 := BindArm(bs, ds, m, env), BindArm(bs, ds, m, env[x := v]);
      && r.Good? == r1.Good? && (r.Bad? ==> r == r1)
      && (r.Good? ==> r1.value == if Binds(bs, x) then r.value else r.value[x := v])
    decreases |bs|
  {
    if bs != [] && bs[0].Some? && ds[0].name in m {
      var y, w := bs[0].value, m[ds[0].name];
      if y == x {
        assert env[x := v][y := w] == env[y := w];
      } else {
        assert env[x := v][y := w] == env[y := w][x := v];
        BindArmSubst(bs[1..], ds[1..], m, x, v, env[y := w]);
      }
      assert bs == [bs[0]] + bs[1..];
    } else if bs != [] && bs[0].None? {
      BindArmSubst(bs[1..], ds[1..], m, x, v, env);
      assert bs == [bs[0]] + bs[1..];
    }
  }

  lemma {:induction false} FindArmSame(es: seq<Arm>, fs: seq<Arm>, name: string)
    requires |es| == |fs| && forall i | 0 <= i < |es| :: es[i].variant == fs[i].variant
    ensures FindArm(es, name) == FindArm(fs, name)
    decreases |es|
  {
    if es != [] {
      FindArmSame(es[1..], fs[1..], name);
    }
  }

  lemma FindArmSubst(arms: seq<Arm>, name: string, x: string, r: Expr)
    ensures FindArm(SubstArms(arms, x, r), name) == FindArm(arms, name)
  {
    FindArmSame(SubstArms(arms, x, r), arms, name);
  }

  lemma {:induction false} SubstArmsEval(lax: bool, c: Ctx, arms: seq<Arm>, v: Value, x: string, s: Bytes, env: Env,
      k: nat)
    requires lax || forall i | 0 <= i < |arms| :: NoNamedTable(arms[i].body)
    ensures ArmsRefine(lax, c, c, arms, SubstArms(arms, x, Text(s)), v, env[x := VText(s)], env, k)
    decreases arms, 0
  {
    if v.VVariant? {
      FindArmSubst(arms, v.variant, x, Text(s));
      var i := FindArm(arms, v.variant);
      if i.Some? && v.concept in c.prog.concepts {
        var d := FindVariant(c.prog.concepts[v.concept].variants, v.variant);
        var arm := arms[i.value];
        if d.Some? && |arm.binders| == |d.value.fields| {
          BindArmSubst(arm.binders, d.value.fields, v.fields, x, VText(s), env);
          var inner := BindArm(arm.binders, d.value.fields, v.fields, env);
          if inner.Good? && !Binds(arm.binders, x) {
            SubstEval(lax, c, arm.body, x, s, inner.value, k);
          }
        }
      }
    }
  }

  // ----- equality -----

  lemma SubstEqual(c: Ctx, e: Expr, x: string, s: Bytes, env: Env, k: nat)
    requires NoNamedTable(e)
    ensures Eval(c, Subst(e, x, Text(s)), env, k) == Eval(c, e, env[x := VText(s)], k)
  {
    SubstEval(false, c, e, x, s, env, k);
  }

  /** Substitution of a literal names no table. */
  lemma {:induction false} SubstTables(e: Expr, x: string, s: Bytes)
    requires NoNamedTable(e)
    ensures NoNamedTable(Subst(e, x, Text(s)))
    decreases e
  {
    var r := Text(s);
    var cs, ds := Children(e), Children(Subst(e, x, r));
    SubstChildren(e, x, r);
    forall d | d in ds
      ensures NoNamedTable(d)
    {
      var i :| 0 <= i < |ds| && ds[i] == d;
      assert cs[i] in cs;
      SubstTables(cs[i], x, s);
    }
  }

  /** Every subexpression is substituted into or left alone. */
  lemma SubstChildren(e: Expr, x: string, r: Expr)
    requires Children(r) == []
    ensures var cs, ds := Children(e), Children(Subst(e, x, r));
      |ds| <= |cs| && forall i | 0 <= i < |ds| :: ds[i] == cs[i] || ds[i] == Subst(cs[i], x, r)
  {
    match e
    case Call(_, args) => SubstAllAt(args, x, r);
    case Concat(args) => SubstAllAt(args, x, r);
    case Construct(_, _, inits) => SubstInitsAt(inits, x, r);
    case MatchVariant(_, _) => SubstArmsChildren(e, x, r);
    case MatchResult(_, _, _, _, _) => SubstResultChildren(e, x, r);
    case Fold(_, _, _, _, _) => SubstFoldChildren(e, x, r);
    case FoldBytes(_, _, _, _, _, _) => SubstFoldChildren(e, x, r);
    case _ =>
  }

  lemma SubstArmsChildren(e: Expr, x: string, r: Expr)
    requires e.MatchVariant?
    ensures var cs, ds := Children(e), Children(Subst(e, x, r));
      |ds| == |cs| && forall i | 0 <= i < |ds| :: ds[i] == cs[i] || ds[i] == Subst(cs[i], x, r)
  {
    var t, arms := Subst(e.scrutinee, x, r), SubstArms(e.arms, x, r);
    assert Subst(e, x, r) == MatchVariant(t, arms);
    ArmChildren(e.scrutinee, e.arms, t, arms, x, r);
  }

  lemma ArmChildren(t: Expr, es: seq<Arm>, u: Expr, fs: seq<Arm>, x: string, r: Expr)
    requires |fs| == |es| && u == Subst(t, x, r)
    requires forall i | 0 <= i < |es| :: fs[i].body == es[i].body || fs[i].body == Subst(es[i].body, x, r)
    ensures var cs, ds := Children(MatchVariant(t, es)), Children(MatchVariant(u, fs));
      |ds| == |cs| && forall i | 0 <= i < |ds| :: ds[i] == cs[i] || ds[i] == Subst(cs[i], x, r)
  {
    var cs, ds := Children(MatchVariant(t, es)), Children(MatchVariant(u, fs));
    forall i | 0 <= i < |ds|
      ensures ds[i] == cs[i] || ds[i] == Subst(cs[i], x, r)
    {
      if i > 0 {
        assert ds[i] == fs[i - 1].body && cs[i] == es[i - 1].body;
      }
    }
  }

  lemma SubstResultChildren(e: Expr, x: string, r: Expr)
    requires e.MatchResult?
    ensures var cs, ds := Children(e), Children(Subst(e, x, r));
      |ds| == |cs| && forall i | 0 <= i < |ds| :: ds[i] == cs[i] || ds[i] == Subst(cs[i], x, r)
  {
  }

  lemma SubstFoldChildren(e: Expr, x: string, r: Expr)
    requires e.Fold? || e.FoldBytes?
    ensures var cs, ds := Children(e), Children(Subst(e, x, r));
      |ds| == |cs| && forall i | 0 <= i < |ds| :: ds[i] == cs[i] || ds[i] == Subst(cs[i], x, r)
  {
  }

  lemma {:induction false} SubstAllAt(es: seq<Expr>, x: string, r: Expr)
    ensures forall i | 0 <= i < |es| :: SubstAll(es, x, r)[i] == Subst(es[i], x, r)
  {
    if es != [] {
      SubstAllAt(es[1..], x, r);
    }
  }

  lemma {:induction false} SubstInitsAt(fs: seq<FieldInit>, x: string, r: Expr)
    ensures |SubstInits(fs, x, r)| == |fs|
    ensures forall i | 0 <= i < |fs| :: SubstInits(fs, x, r)[i].value == Subst(fs[i].value, x, r)
  {
    if fs != [] {
      SubstInitsAt(fs[1..], x, r);
    }
  }
}
