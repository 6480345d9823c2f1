/** Native scalars: booleans become 0 and 1 and arithmetic wraps. A run of the
    interpreter that neither overflows nor goes wrong keeps its meaning. */
module Lowering {
  import opened Int64
  import opened Ast
  import opened TextOps
  import opened Interp

  function Lower(v: Value): (w: Value)
    ensures w.VRecord? <==> v.VRecord?
    ensures w.VVariant? <==> v.VVariant?
    ensures w.VList? <==> v.VList?
    ensures v.VNumber? || v.VText? || v.VBytes? || v.VBounds? ==> w == v
    ensures w.VText? <==> v.VText?
    ensures w.VBytes? <==> v.VBytes?
    ensures !w.VBool?
    decreases v
  {
    match v
    case VBool(b) => VNumber(if b then 1 else 0)
    case VList(items) => VList(seq(|items|, i requires 0 <= i < |items| => Lower(items[i])))
    case VRecord(fs) => VRecord(map f | f in fs :: Lower(fs[f]))
    case VOk(x) => VOk(Lower(x))
    case VErr(x) => VErr(Lower(x))
    case VVariant(c, n, fs) => VVariant(c, n, map f | f in fs :: Lower(fs[f]))
    case _ => v
  }

  function LowerAll(vs: seq<Value>): (ws: seq<Value>)
    ensures |ws| == |vs| && forall i | 0 <= i < |vs| :: ws[i] == Lower(vs[i])
  {
    seq(|vs|, i requires 0 <= i < |vs| => Lower(vs[i]))
  }

  function LowerMap(m: map<string, Value>): map<string, Value> { map f | f in m :: Lower(m[f]) }

  lemma LowerMapSet(m: map<string, Value>, f: string, v: Value)
    ensures LowerMap(m[f := v]) == LowerMap(m)[f := Lower(v)]
  {
  }

  /** Runs whose native counterpart is free to differ. */
  predicate Excused<T>(r: Res<T>) { r.Bad? && r.fault in {Stuck, IllFormed, Overflow} }

  predicate Lowers(r: Res<Value>, s: Res<Value>) {
    Excused(r) || s == if r.Good? then Good(Lower(r.value)) else Bad(r.fault)
  }

  /** The interpreter, watched for what lowering cannot express, and native code. */
  ghost predicate LowersTo(c: Ctx, d: Ctx) {
    && c.sem == Sem(false, false, Monitor.Lowering) && d.sem == Sem(true, true, Monitor.Lowering)
    && d.prog == c.prog && d.guarded == c.guarded
  }

  ghost predicate RuleLowers(c: Ctx, d: Ctx, n: string, v: Value, k: nat)
    requires n in c.prog.rules && n in d.prog.rules
  {
    Lowers(EvalRule(c, c.prog.rules[n], v, k), EvalRule(d, d.prog.rules[n], Lower(v), k))
  }

  ghost predicate RulesLower(c: Ctx, d: Ctx, k: nat) {
    forall n, v | n in c.prog.rules && n in d.prog.rules :: RuleLowers(c, d, n, v, k)
  }

  ghost predicate Start(c: Ctx, d: Ctx, k: nat) { LowersTo(c, d) && (k > 0 ==> RulesLower(c, d, k - 1)) }

  ghost predicate ExprLowers(c: Ctx, d: Ctx, e: Expr, env: Env, k: nat) {
    Lowers(Eval(c, e, env, k), Eval(d, e, LowerMap(env), k))
  }

  // ----- operations -----

  lemma BoolLowers(c: Ctx, d: Ctx, v: Value)
    requires LowersTo(c, d) && v.VBool?
    ensures AsBool(c.sem, v) == Some(v.b) && AsBool(d.sem, Lower(v)) == Some(v.b)
  {
  }

  lemma BinaryLowers(c: Ctx, d: Ctx, op: BinOp, a: Value, b: Value)
    requires LowersTo(c, d)
    ensures Lowers(ApplyBinary(c.sem, op, a, b), ApplyBinary(d.sem, op, Lower(a), Lower(b)))
  {
  }

  lemma UnaryLowers(c: Ctx, d: Ctx, op: UnOp, v: Value)
    requires LowersTo(c, d)
    ensures Lowers(ApplyUnary(c.sem, op, v), ApplyUnary(d.sem, op, Lower(v)))
  {
    if op.Not? && v.VBool? { BoolLowers(c, d, v); }
  }

  lemma PrimLowers(c: Ctx, d: Ctx, op: PrimOp, a: Value, b: Value)
    requires LowersTo(c, d)
    ensures Lowers(ApplyPrim(c.sem, op, a, b), ApplyPrim(d.sem, op, Lower(a), Lower(b)))
  {
  }

  lemma {:induction false} JoinBytesLowers(vs: seq<Value>)
    ensures Excused(JoinBytes(vs)) || JoinBytes(LowerAll(vs)) == JoinBytes(vs)
  {
    if vs != [] {
      JoinBytesLowers(vs[1..]);
      assert LowerAll(vs)[1..] == LowerAll(vs[1..]);
    }
  }

  lemma {:induction false} JoinTextLowers(c: Ctx, d: Ctx, vs: seq<Value>)
    requires LowersTo(c, d)
    ensures Excused(JoinText(c.sem, vs)) || JoinText(d.sem, LowerAll(vs)) == JoinText(c.sem, vs)
  {
    if vs != [] {
      JoinTextLowers(c, d, vs[1..]);
      assert LowerAll(vs)[1..] == LowerAll(vs[1..]);
    }
  }

  lemma ConcatLowers(c: Ctx, d: Ctx, vs: seq<Value>)
    requires LowersTo(c, d)
    ensures Lowers(ApplyConcat(c.sem, vs), ApplyConcat(d.sem, LowerAll(vs)))
  {
    JoinBytesLowers(vs);
    JoinTextLowers(c, d, vs);
    var ws := LowerAll(vs);
    assert forall i | 0 <= i < |vs| :: ws[i].VBytes? == vs[i].VBytes?;
  }

  // ----- expressions -----

  lemma {:induction false} EvalLowers(c: Ctx, d: Ctx, e: Expr, env: Env, k: nat)
    requires Start(c, d, k)
    ensures ExprLowers(c, d, e, env, k)
    decreases e, 2
  {
    if e.Number? || e.Text? || e.BytesLit? || e.Ident? {
      LeafLowers(c, d, e, env, k);
    } else if e.Field? {
      FieldLowers(c, d, e, env, k);
    } else if e.Unary? {
      UnaryExprLowers(c, d, e, env, k);
    } else if e.TryByteAt? {
      TryByteLowers(c, d, e, env, k);
    } else if e.Binary? {
      BinaryExprLowers(c, d, e, env, k);
    } else if e.Prim? {
      PrimExprLowers(c, d, e, env, k);
    } else if e.Substring? {
      SubstringLowers(c, d, e, env, k);
    } else if e.If? {
      IfLowers(c, d, e, env, k);
    } else if e.Call? {
      CallLowers(c, d, e, env, k);
    } else if e.Concat? {
      AllLowers(c, d, e.args, env, k);
      ConcatExprLowers(c, d, e, env, k);
    } else if e.Construct? {
      InitsLower(c, d, e.inits, env, map[], k);
      ConstructLowers(c, d, e, env, k);
    } else if e.MatchResult? {
      MatchResultLowers(c, d, e, env, k);
    } else if e.MatchVariant? {
      MatchVariantLowers(c, d, e, env, k);
    } else if e.Quantifier? || e.Collect? {
      ItemLoopLowers(c, d, e, env, k);
    } else {
      FoldLoopLowers(c, d, e, env, k);
    }
  }

  lemma LeafLowers(c: Ctx, d: Ctx, e: Expr, env: Env, k: nat)
    requires e.Number? || e.Text? || e.BytesLit? || e.Ident?
    ensures ExprLowers(c, d, e, env, k)
  {
  }

  lemma {:induction false} FieldLowers(c: Ctx, d: Ctx, e: Expr, env: Env, k: nat)
    requires Start(c, d, k) && e.Field?
    ensures ExprLowers(c, d, e, env, k)
    decreases e, 1
  {
    EvalLowers(c, d, e.base, env, k);
  }

  lemma {:induction false} UnaryExprLowers(c: Ctx, d: Ctx, e: Expr, env: Env, k: nat)
    requires Start(c, d, k) && e.Unary?
    ensures ExprLowers(c, d, e, env, k)
    decreases e, 1
  {
    EvalLowers(c, d, e.arg, env, k);
    var v := Eval(c, e.arg, env, k);
    if v.Good? { UnaryLowers(c, d, e.uop, v.value); }
  }

  lemma {:induction false} TryByteLowers(c: Ctx, d: Ctx, e: Expr, env: Env, k: nat)
    requires Start(c, d, k) && e.TryByteAt?
    ensures ExprLowers(c, d, e, env, k)
    decreases e, 1
  {
    EvalLowers(c, d, e.index, env, k);
  }

  lemma {:induction false} BinaryExprLowers(c: Ctx, d: Ctx, e: Expr, env: Env, k: nat)
    requires Start(c, d, k) && e.Binary?
    ensures ExprLowers(c, d, e, env, k)
    decreases e, 1
  {
    EvalLowers(c, d, e.left, env, k);
    EvalLowers(c, d, e.right, env, k);
    var a, b := Eval(c, e.left, env, k), Eval(c, e.right, env, k);
    if a.Good? && (e.op.And? || e.op.Or?) {
      if a.value.VBool? { BoolLowers(c, d, a.value); }
      if b.Good? && b.value.VBool? { BoolLowers(c, d, b.value); }
    } else if a.Good? && b.Good? {
      BinaryLowers(c, d, e.op, a.value, b.value);
    }
  }

  lemma {:induction false} PrimExprLowers(c: Ctx, d: Ctx, e: Expr, env: Env, k: nat)
    requires Start(c, d, k) && e.Prim?
    ensures ExprLowers(c, d, e, env, k)
    decreases e, 1
  {
    EvalLowers(c, d, e.arg0, env, k);
    EvalLowers(c, d, e.arg1, env, k);
    var a, b := Eval(c, e.arg0, env, k), Eval(c, e.arg1, env, k);
    if a.Good? && b.Good? { PrimLowers(c, d, e.pop, a.value, b.value); }
  }

  lemma {:induction false} SubstringLowers(c: Ctx, d: Ctx, e: Expr, env: Env, k: nat)
    requires Start(c, d, k) && e.Substring?
    ensures ExprLowers(c, d, e, env, k)
    decreases e, 1
  {
    EvalLowers(c, d, e.text, env, k);
    EvalLowers(c, d, e.from, env, k);
    EvalLowers(c, d, e.to, env, k);
    var a, b, f := Eval(c, e.text, env, k), Eval(c, e.from, env, k), Eval(c, e.to, env, k);
    if a.Good? && b.Good? && f.Good? { CutLowers(a.value, b.value, f.value); }
  }

  lemma CutLowers(t: Value, s: Value, e: Value)
    ensures Lowers(ApplySubstring(t, s, e), ApplySubstring(Lower(t), Lower(s), Lower(e)))
  {
  }

  lemma {:induction false} IfLowers(c: Ctx, d: Ctx, e: Expr, env: Env, k: nat)
    requires Start(c, d, k) && e.If?
    ensures ExprLowers(c, d, e, env, k)
    decreases e, 1
  {
    EvalLowers(c, d, e.cond, env, k);
    EvalLowers(c, d, e.yes, env, k);
    EvalLowers(c, d, e.no, env, k);
    var q := Eval(c, e.cond, env, k);
    if q.Good? && q.value.VBool? { BoolLowers(c, d, q.value); }
  }

  lemma {:induction false} CallLowers(c: Ctx, d: Ctx, e: Expr, env: Env, k: nat)
    requires Start(c, d, k) && e.Call?
    ensures ExprLowers(c, d, e, env, k)
    decreases e, 1
  {
    if |e.args| == 1 {
      EvalLowers(c, d, e.args[0], env, k);
      var v := Eval(c, e.args[0], env, k);
      if v.Good? && e.callee in c.prog.rules && k > 0 {
        assert RuleLowers(c, d, e.callee, v.value, k - 1);
      }
    }
  }

  lemma {:induction false} AllLowers(c: Ctx, d: Ctx, es: seq<Expr>, env: Env, k: nat)
    requires Start(c, d, k)
    ensures var r := EvalAll(c, es, env, k);
      Excused(r) || EvalAll(d, es, LowerMap(env), k) == if r.Good? then Good(LowerAll(r.value)) else r
    decreases es, 0
  {
    if es != [] {
      EvalLowers(c, d, es[0], env, k);
      AllLowers(c, d, es[1..], env, k);
      var v, vs := Eval(c, es[0], env, k), EvalAll(c, es[1..], env, k);
      if v.Good? && vs.Good? {
        assert LowerAll([v.value] + vs.value) == [Lower(v.value)] + LowerAll(vs.value);
      }
    } else {
      assert LowerAll([]) == [];
    }
  }

  lemma ConcatExprLowers(c: Ctx, d: Ctx, e: Expr, env: Env, k: nat)
    requires LowersTo(c, d) && e.Concat?
    requires var r := EvalAll(c, e.args, env, k);
      Excused(r) || EvalAll(d, e.args, LowerMap(env), k) == if r.Good? then Good(LowerAll(r.value)) else r
    ensures ExprLowers(c, d, e, env, k)
  {
    var r := EvalAll(c, e.args, env, k);
    if r.Good? { ConcatLowers(c, d, r.value); }
  }

  lemma {:induction false} InitsLower(c: Ctx, d: Ctx, fs: seq<FieldInit>, env: Env, m: map<string, Value>, k: nat)
    requires Start(c, d, k)
    ensures var r := EvalInits(c, fs, env, m, k);
      Excused(r) || EvalInits(d, fs, LowerMap(env), LowerMap(m), k) == if r.Good? then Good(LowerMap(r.value)) else r
    decreases fs, 0
  {
    if fs != [] {
      EvalLowers(c, d, fs[0].value, env, k);
      var v := Eval(c, fs[0].value, env, k);
      if v.Good? {
        LowerMapSet(m, fs[0].name, v.value);
        InitsLower(c, d, fs[1..], env, m[fs[0].name := v.value], k);
      }
    }
  }

  lemma ConstructLowers(c: Ctx, d: Ctx, e: Expr, env: Env, k: nat)
    requires LowersTo(c, d) && e.Construct?
    requires var r := EvalInits(c, e.inits, env, map[], k);
      Excused(r) || EvalInits(d, e.inits, LowerMap(env), LowerMap(map[]), k) ==
        if r.Good? then Good(LowerMap(r.value)) else r
    ensures ExprLowers(c, d, e, env, k)
  {
    assert LowerMap(map[]) == map[];
    var r := EvalInits(c, e.inits, env, map[], k);
    if r.Good? {
      assert Lower(VRecord(r.value)) == VRecord(LowerMap(r.value));
      assert e.variant.Some? ==>
        Lower(VVariant(e.concept, e.variant.value, r.value)) == VVariant(e.concept, e.variant.value, LowerMap(r.value));
    }
  }

  // ----- binders -----

  lemma {:induction false} BoundLowers(c: Ctx, d: Ctx, b: Expr, x: string, v: Value, env: Env, k: nat)
    requires Start(c, d, k)
    ensures Lowers(Eval(c, b, env[x := v], k), Eval(d, b, LowerMap(env)[x := Lower(v)], k))
    decreases b, 3
  {
    LowerMapSet(env, x, v);
    EvalLowers(c, d, b, env[x := v], k);
  }

  lemma {:induction false} MatchResultLowers(c: Ctx, d: Ctx, e: Expr, env: Env, k: nat)
    requires Start(c, d, k) && e.MatchResult?
    ensures ExprLowers(c, d, e, env, k)
    decreases e, 1
  {
    EvalLowers(c, d, e.target, env, k);
    var t := Eval(c, e.target, env, k);
    if t.Good? && t.value.VOk? {
      BoundLowers(c, d, e.okBody, e.okVar, t.value.inner, env, k);
    } else if t.Good? && t.value.VErr? {
      BoundLowers(c, d, e.errBody, e.errVar, t.value.inner, env, k);
    }
  }

  lemma {:induction false} BindArmLowers(bs: seq<Option<string>>, ds: seq<FieldDecl>, m: map<string, Value>, env: Env)
    requires |bs| == |ds|
    ensures var r := BindArm(bs, ds, m, env);
      BindArm(bs, ds, LowerMap(m), LowerMap(env)) == if r.Good? then Good(LowerMap(r.value)) else r
    decreases |bs|
  {
    if bs != [] {
      if bs[0].None? {
        BindArmLowers(bs[1..], ds[1..], m, env);
      } else if ds[0].name in m {
        LowerMapSet(env, bs[0].value, m[ds[0].name]);
        BindArmLowers(bs[1..], ds[1..], m, env[bs[0].value := m[ds[0].name]]);
      }
    }
  }

  lemma SelectLowers(c: Ctx, d: Ctx, arms: seq<Arm>, v: Value, env: Env)
    requires LowersTo(c, d)
    ensures var r := SelectArm(c, arms, v, env);
      SelectArm(d, arms, Lower(v), LowerMap(env)) == if r.Good? then Good((r.value.0, LowerMap(r.value.1))) else r
  {
    if v.VVariant? {
      assert Lower(v) == VVariant(v.concept, v.variant, LowerMap(v.fields));
      var i := FindArm(arms, v.variant);
      if i.Some? && v.concept in c.prog.concepts {
        var f := FindVariant(c.prog.concepts[v.concept].variants, v.variant);
        if f.Some? && |arms[i.value].binders| == |f.value.fields| {
          BindArmLowers(arms[i.value].binders, f.value.fields, v.fields, env);
        }
      }
    }
  }

  lemma {:induction false} MatchVariantLowers(c: Ctx, d: Ctx, e: Expr, env: Env, k: nat)
    requires Start(c, d, k) && e.MatchVariant?
    ensures ExprLowers(c, d, e, env, k)
    decreases e, 1
  {
    EvalLowers(c, d, e.scrutinee, env, k);
    var t := Eval(c, e.scrutinee, env, k);
    if t.Good? {
      SelectLowers(c, d, e.arms, t.value, env);
      var sel := SelectArm(c, e.arms, t.value, env);
      if sel.Good? {
        EvalLowers(c, d, e.arms[sel.value.0].body, sel.value.1, k);
      }
    }
  }

  // ----- loops -----

  lemma ListLowers(v: Value)
    requires v.VList?
    ensures Lower(v) == VList(LowerAll(v.items))
  {
  }

  /** A quantifier in terms of its first item's answer and the rest. */
  function Answer(m: Sem, all: bool, first: Res<Value>, rest: Res<Value>): Res<Value> {
    if first.Bad? then first
    else
      match AsBool(m, first.value)
      case None => Bad(Stuck)
      case Some(b) => if b != all then Good(MkBool(m, b)) else rest
  }

  lemma QuantifierRun(c: Ctx, all: bool, b: Expr, x: string, items: seq<Value>, env: Env, k: nat)
    requires items != []
    ensures EvalQuantifier(c, all, b, x, items, env, k) ==
      Answer(c.sem, all, Eval(c, b, env[x := items[0]], k), EvalQuantifier(c, all, b, x, items[1..], env, k))
  {
  }

  lemma AnswerLowers(c: Ctx, d: Ctx, all: bool, r: Res<Value>, s: Res<Value>, rest: Res<Value>, rest': Res<Value>,
      k: nat)
    requires Start(c, d, k) && Lowers(r, s) && Lowers(rest, rest')
    ensures Lowers(Answer(c.sem, all, r, rest), Answer(d.sem, all, s, rest'))
  {
    if r.Good? && r.value.VBool? { BoolLowers(c, d, r.value); }
  }

  lemma {:induction false} QuantifierLowers(c: Ctx, d: Ctx, all: bool, b: Expr, x: string, items: seq<Value>, env: Env,
      k: nat)
    requires Start(c, d, k)
    ensures Lowers(EvalQuantifier(c, all, b, x, items, env, k),
      EvalQuantifier(d, all, b, x, LowerAll(items), LowerMap(env), k))
    decreases b, 4, |items|
  {
    if items != [] {
      var low, inner := LowerAll(items), LowerMap(env);
      assert low[1..] == LowerAll(items[1..]);
      BoundLowers(c, d, b, x, items[0], env, k);
      QuantifierLowers(c, d, all, b, x, items[1..], env, k);
      QuantifierRun(c, all, b, x, items, env, k);
      QuantifierRun(d, all, b, x, low, inner, k);
      AnswerLowers(c, d, all, Eval(c, b, env[x := items[0]], k), Eval(d, b, inner[x := low[0]], k),
        EvalQuantifier(c, all, b, x, items[1..], env, k), EvalQuantifier(d, all, b, x, low[1..], inner, k), k);
    }
  }

  ghost predicate ListRun(r: Res<seq<Value>>, s: Res<seq<Value>>) {
    Excused(r) || s == if r.Good? then Good(LowerAll(r.value)) else r
  }

  lemma {:induction false} CollectLowers(c: Ctx, d: Ctx, keep: bool, b: Expr, x: string, items: seq<Value>, env: Env,
      k: nat)
    requires Start(c, d, k)
    ensures ListRun(EvalCollect(c, keep, b, x, items, env, k),
      EvalCollect(d, keep, b, x, LowerAll(items), LowerMap(env), k))
    decreases b, 4, |items|
  {
    if items == [] {
      assert LowerAll(items) == [];
    } else {
      BoundLowers(c, d, b, x, items[0], env, k);
      assert LowerAll(items)[1..] == LowerAll(items[1..]);
      CollectLowers(c, d, keep, b, x, items[1..], env, k);
      CollectGathers(c, keep, b, x, items, env, k);
      CollectGathers(d, keep, b, x, LowerAll(items), LowerMap(env), k);
      GatherLowers(c, d, keep, Eval(c, b, env[x := items[0]], k), Eval(d, b, LowerMap(env)[x := Lower(items[0])], k),
        items[0],
        EvalCollect(c, keep, b, x, items[1..], env, k),
        EvalCollect(d, keep, b, x, LowerAll(items[1..]), LowerMap(env), k));
    }
  }

  /** One item's part of a map or a filter. */
  function Gather(m: Sem, keep: bool, v: Res<Value>, item: Value, rest: Res<seq<Value>>): Res<seq<Value>> {
    if v.Bad? then Bad(v.fault)
    else if keep && AsBool(m, v.value).None? then Bad(Stuck)
    else if rest.Bad? then rest
    else Good((if !keep then [v.value] else if AsBool(m, v.value) == Some(true) then [item] else []) + rest.value)
  }

  lemma CollectGathers(c: Ctx, keep: bool, b: Expr, x: string, items: seq<Value>, env: Env, k: nat)
    requires items != []
    ensures EvalCollect(c, keep, b, x, items, env, k) ==
            Gather(c.sem, keep, Eval(c, b, env[x := items[0]], k), items[0],
              EvalCollect(c, keep, b, x, items[1..], env, k))
  {
  }

  lemma GatherLowers(c: Ctx, d: Ctx, keep: bool, v: Res<Value>, v': Res<Value>, item: Value, rest: Res<seq<Value>>,
      rest': Res<seq<Value>>)
    requires LowersTo(c, d) && Lowers(v, v') && ListRun(rest, rest')
    ensures ListRun(Gather(c.sem, keep, v, item, rest), Gather(d.sem, keep, v', Lower(item), rest'))
  {
    if v.Good? && v.value.VBool? { BoolLowers(c, d, v.value); }
    if v.Good? && rest.Good? {
      LowerAllCons(v.value, rest.value);
      LowerAllCons(item, rest.value);
      assert [] + rest.value == rest.value && [] + LowerAll(rest.value) == LowerAll(rest.value);
    }
  }

  lemma LowerAllCons(v: Value, vs: seq<Value>)
    ensures LowerAll([v] + vs) == [Lower(v)] + LowerAll(vs)
  {
  }

  lemma {:induction false} ItemLoopLowers(c: Ctx, d: Ctx, e: Expr, env: Env, k: nat)
    requires Start(c, d, k) && (e.Quantifier? || e.Collect?)
    ensures ExprLowers(c, d, e, env, k)
    decreases e, 1
  {
    EvalLowers(c, d, e.coll, env, k);
    var t := Eval(c, e.coll, env, k);
    if t.Good? && t.value.VList? {
      ListLowers(t.value);
      if e.Quantifier? {
        QuantifierLowers(c, d, e.all, e.body, e.item, t.value.items, env, k);
      } else {
        CollectLowers(c, d, e.keep, e.body, e.item, t.value.items, env, k);
        var out := EvalCollect(c, e.keep, e.body, e.item, t.value.items, env, k);
        if out.Good? { ListLowers(VList(out.value)); }
      }
    }
  }

  lemma {:induction false} FoldLowers(c: Ctx, d: Ctx, b: Expr, acc: string, x: string, a: Value, items: seq<Value>,
      env: Env, k: nat)
    requires Start(c, d, k)
    ensures Lowers(EvalFold(c, b, acc, x, a, items, env, k),
      EvalFold(d, b, acc, x, Lower(a), LowerAll(items), LowerMap(env), k))
    decreases b, 4, |items|
  {
    if items != [] {
      LowerMapSet(env, acc, a);
      BoundLowers(c, d, b, x, items[0], env[acc := a], k);
      var v := Eval(c, b, env[acc := a][x := items[0]], k);
      assert LowerAll(items)[1..] == LowerAll(items[1..]);
      if v.Good? {
        FoldLowers(c, d, b, acc, x, v.value, items[1..], env, k);
      }
    }
  }

  lemma {:induction false} FoldBytesLowers(c: Ctx, d: Ctx, e: Expr, a: Value, s: Bytes, i: nat, env: Env, k: nat)
    requires Start(c, d, k) && e.FoldBytes? && i <= |s|
    ensures Lowers(EvalFoldBytes(c, e, a, s, i, env, k), EvalFoldBytes(d, e, Lower(a), s, i, LowerMap(env), k))
    decreases e.body, 4, |s| - i
  {
    if i < |s| {
      var x, n := VNumber(s[i]), VNumber(Wrap(i));
      LowerMapSet(env, e.acc, a);
      LowerMapSet(env[e.acc := a], e.byte, x);
      BoundLowers(c, d, e.body, e.idx, n, env[e.acc := a][e.byte := x], k);
      var v := Eval(c, e.body, env[e.acc := a][e.byte := x][e.idx := n], k);
      if v.Good? && v.value.VNumber? {
        FoldBytesLowers(c, d, e, v.value, s, i + 1, env, k);
      }
    }
  }

  lemma {:induction false} FoldLoopLowers(c: Ctx, d: Ctx, e: Expr, env: Env, k: nat)
    requires Start(c, d, k) && (e.Fold? || e.FoldBytes?)
    ensures ExprLowers(c, d, e, env, k)
    decreases e, 1
  {
    EvalLowers(c, d, e.init, env, k);
    var a := Eval(c, e.init, env, k);
    if e.Fold? {
      EvalLowers(c, d, e.coll, env, k);
      var t := Eval(c, e.coll, env, k);
      if t.Good? && t.value.VList? && a.Good? {
        ListLowers(t.value);
        FoldLowers(c, d, e.body, e.acc, e.item, a.value, t.value.items, env, k);
      }
    } else {
      EvalLowers(c, d, e.text, env, k);
      var t := Eval(c, e.text, env, k);
      if t.Good? && t.value.VText? && a.Good? && a.value.VNumber? {
        FoldBytesLowers(c, d, e, a.value, t.value.s, 0, env, k);
      }
    }
  }

  // ----- rules -----

  lemma {:induction false} LetsLower(c: Ctx, d: Ctx, bs: seq<Binding>, env: Env, k: nat)
    requires Start(c, d, k)
    ensures var r := EvalLets(c, bs, env, k);
      Excused(r) || EvalLets(d, bs, LowerMap(env), k) == if r.Good? then Good(LowerMap(r.value)) else r
    decreases |bs|
  {
    if bs != [] {
      EvalLowers(c, d, bs[0].value, env, k);
      var v := Eval(c, bs[0].value, env, k);
      if v.Good? {
        LowerMapSet(env, bs[0].name, v.value);
        LetsLower(c, d, bs[1..], env[bs[0].name := v.value], k);
      }
    }
  }

  lemma {:induction false} NumericFieldRanged(fs: seq<FieldDecl>, i: nat)
    requires i < |fs| && fs[i].ty.TNumber?
    ensures fs[i].name in FieldRanges(fs)
    decreases |fs|
  {
    if i < |fs| - 1 { NumericFieldRanged(fs[..|fs| - 1], i); }
  }

  /** Entry checks read a lowered input as they read the original. */
  lemma EntryLowers(c: Ctx, d: Ctx, r: Rule, v: Value)
    requires LowersTo(c, d) && EntryExpected(c, r, v)
    ensures EntryExpected(d, r, Lower(v)) &&
      EntryGuard(d.prog.concepts, r, Lower(v)) == EntryGuard(c.prog.concepts, r, v)
  {
    var cs := c.prog.concepts;
    if v.VRecord? {
      assert Lower(v) == VRecord(LowerMap(v.fields));
      if r.inputTy.TNamed? && r.inputTy.concept in cs {
        var fs := cs[r.inputTy.concept].fields;
        forall f | f in fs
          ensures FieldAdmitted(f, LowerMap(v.fields)) == FieldAdmitted(f, v.fields)
        {
          var i :| 0 <= i < |fs| && fs[i] == f;
          if f.ty.TNumber? { NumericFieldRanged(fs, i); }
        }
      }
    }
  }

  lemma RuleLowersAt(c: Ctx, d: Ctx, r: Rule, v: Value, k: nat)
    requires Start(c, d, k)
    ensures Lowers(EvalRule(c, r, v, k), EvalRule(d, r, Lower(v), k))
  {
    var env: Env := map[r.input := v];
    assert LowerMap(env) == map[r.input := Lower(v)];
    if EntryExpected(c, r, v) {
      EntryLowers(c, d, r, v);
      LetsLower(c, d, r.bindings, env, k);
      var lets := EvalLets(c, r.bindings, env, k);
      if lets.Good? {
        EvalLowers(c, d, r.value, lets.value, k);
      }
    }
  }

  /** For every rule, input and budget: a run of the interpreter that neither
      overflows nor goes wrong has the same result, lowered, in native scalars. */
  lemma {:induction false} LoweringPreserves(c: Ctx, d: Ctx, n: string, v: Value, k: nat)
    requires LowersTo(c, d) && n in c.prog.rules
    ensures RuleLowers(c, d, n, v, k)
    decreases k
  {
    if k > 0 {
      var less := k - 1;
      forall m, w | m in c.prog.rules && m in d.prog.rules
        ensures RuleLowers(c, d, m, w, less)
      {
        LoweringPreserves(c, d, m, w, less);
      }
    }
    RuleLowersAt(c, d, c.prog.rules[n], v, k);
  }
}
