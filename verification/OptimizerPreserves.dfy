/** Main result of the optimizer: whole programs keep their meaning. */
module OptimizerPreserves {
  import opened Int64
  import opened Ast
  import opened TextOps
  import opened Interp
  import opened Refinement
  import opened Substitution
  import opened Inlining
  import opened Optimizer
  import opened OptimizerSound

  // ----- where the input's name is rebound -----

  function Bound(bs: seq<Option<string>>): set<string> { set b | b in bs && b.Some? :: b.value }

  /** The names bound over the i-th subexpression. */
  function Scope(e: Expr, i: nat): set<string>
    requires i < |Children(e)|
  {
    match e
    case MatchResult(_, x, _, y, _) => if i == 1 then {x} else if i == 2 then {y} else {}
    case MatchVariant(_, arms) => if i == 0 then {} else Bound(arms[i - 1].binders)
    case Quantifier(_, _, x, _) => if i == 1 then {x} else {}
    case Collect(_, _, x, _) => if i == 1 then {x} else {}
    case Fold(_, _, acc, x, _) => if i == 2 then {acc, x} else {}
    case FoldBytes(_, _, acc, x, n, _) => if i == 2 then {acc, x, n} else {}
    case _ => {}
  }

  /** The rewrite of this node owes nothing to the declared ranges. */
  predicate RangeFree(p: Pass, e: Expr) {
    Simplify(Rebuild(p, e), p.fr, p.input) == Simplify(Rebuild(p, e), map[], p.input)
  }

  /** Wherever the input's name is bound to something else, the declared ranges
      of the input decide no rewrite. */
  predicate Undisturbed(p: Pass, e: Expr, shadowed: bool)
    decreases e
  {
    && (shadowed ==> RangeFree(p, e))
    && forall i | 0 <= i < |Children(e)| :: Undisturbed(p, Children(e)[i], shadowed || p.input in Scope(e, i))
  }

  predicate LetsUndisturbed(p: Pass, bs: seq<Binding>, value: Expr, shadowed: bool)
    decreases |bs|
  {
    if bs == [] then Undisturbed(p, value, shadowed)
    else
      && Undisturbed(p, bs[0].value, shadowed)
      && LetsUndisturbed(p, bs[1..], value, shadowed || bs[0].name == p.input)
  }

  function RulePass(cs: map<string, Concept>, r: Rule): Pass { Pass(true, RuleRanges(cs, r), r.input) }

  predicate RuleUndisturbed(cs: map<string, Concept>, r: Rule) {
    LetsUndisturbed(RulePass(cs, r), Inlined(r).bindings, Inlined(r).value, false)
  }

  /** No lambda or match binder in the expression is called `x`. */
  predicate Keeps(e: Expr, x: string)
    decreases e
  {
    forall i | 0 <= i < |Children(e)| :: x !in Scope(e, i) && Keeps(Children(e)[i], x)
  }

  lemma {:induction false} KeepsUndisturbed(p: Pass, e: Expr)
    requires Keeps(e, p.input)
    ensures Undisturbed(p, e, false)
    decreases e
  {
    forall i | 0 <= i < |Children(e)|
      ensures Undisturbed(p, Children(e)[i], false || p.input in Scope(e, i))
    {
      KeepsUndisturbed(p, Children(e)[i]);
    }
  }

  lemma {:induction false} LetsKeepUndisturbed(p: Pass, bs: seq<Binding>, value: Expr)
    requires Keeps(value, p.input) && forall b | b in bs :: b.name != p.input && Keeps(b.value, p.input)
    ensures LetsUndisturbed(p, bs, value, false)
    decreases |bs|
  {
    if bs == [] {
      KeepsUndisturbed(p, value);
    } else {
      assert bs[0] in bs;
      KeepsUndisturbed(p, bs[0].value);
      LetsKeepUndisturbed(p, bs[1..], value);
    }
  }

  /** A rule that never rebinds its input's name is undisturbed. */
  lemma NeverRebound(cs: map<string, Concept>, r: Rule)
    requires Keeps(Inlined(r).value, r.input)
    requires forall b | b in Inlined(r).bindings :: b.name != r.input && Keeps(b.value, r.input)
    ensures RuleUndisturbed(cs, r)
  {
    LetsKeepUndisturbed(RulePass(cs, r), Inlined(r).bindings, Inlined(r).value);
  }

  /** The condition a pass needs of an expression and an environment. */
  ghost predicate PassOk(p: Pass, m: Sem, e: Expr, env: Env, shadowed: bool) {
    p.on ==> Native(m) && Undisturbed(p, e, shadowed) && (!shadowed ==> InputInRange(p.fr, p.input, env))
  }

  ghost predicate Agree(env: Env, env': Env, x: string) {
    (x in env <==> x in env') && (x in env ==> env[x] == env'[x])
  }

  /** `inner` is an environment the i-th subexpression may see. */
  ghost predicate Enters(p: Pass, e: Expr, i: nat, env: Env, inner: Env)
    requires i < |Children(e)|
  {
    p.input in Scope(e, i) || Agree(env, inner, p.input)
  }

  lemma ChildOk(p: Pass, m: Sem, e: Expr, i: nat, env: Env, inner: Env, shadowed: bool)
    requires PassOk(p, m, e, env, shadowed) && i < |Children(e)| && Enters(p, e, i, env, inner)
    ensures PassOk(p, m, Children(e)[i], inner, shadowed || p.input in Scope(e, i))
  {
  }

  // ----- programs -----

  /** `d` runs the optimized program of `c`. */
  ghost predicate Optimized(c: Ctx, d: Ctx, bounded: set<string>) {
    && Native(c.sem) && c.sem.monitor.Lowering?
    && d == c.(prog := OptimizeProgram(c.prog, bounded))
    && forall n | n in c.prog.rules && n !in bounded :: RuleUndisturbed(c.prog.concepts, c.prog.rules[n])
  }

  ghost predicate RulesRefine(c: Ctx, d: Ctx, k: nat) {
    forall n, v | n in c.prog.rules && n in d.prog.rules ::
      Refines(true, EvalRule(c, c.prog.rules[n], v, k), EvalRule(d, d.prog.rules[n], v, k))
  }

  /** What the calls of an expression with budget k need. */
  ghost predicate CallsRefine(c: Ctx, d: Ctx, k: nat) {
    Alike(true, c, d) && c.prog.rules.Keys == d.prog.rules.Keys && (k > 0 ==> RulesRefine(c, d, k - 1))
  }

  lemma {:induction false} OptimizeRefines(c: Ctx, d: Ctx, p: Pass, e: Expr, env: Env, shadowed: bool, k: nat)
    requires CallsRefine(c, d, k) && PassOk(p, c.sem, e, env, shadowed)
    ensures ExprRefines(true, c, d, e, Optimize(p, e), env, env, k)
    decreases e, 2
  {
    RebuildRefines(c, d, p, e, env, shadowed, k);
    if p.on {
      SimplifySound(d, Rebuild(p, e), if shadowed then map[] else p.fr, p.input, env, k);
    }
  }

  /** The i-th subexpression, in an environment it may see. */
  lemma {:induction false} InnerRefines(c: Ctx, d: Ctx, p: Pass, e: Expr, i: nat, env: Env, inner: Env, shadowed: bool,
      k: nat)
    requires CallsRefine(c, d, k) && PassOk(p, c.sem, e, env, shadowed)
    requires i < |Children(e)| && Enters(p, e, i, env, inner)
    ensures ExprRefines(true, c, d, Children(e)[i], Optimize(p, Children(e)[i]), inner, inner, k)
    decreases Children(e)[i], 3
  {
    ChildOk(p, c.sem, e, i, env, inner, shadowed);
    OptimizeRefines(c, d, p, Children(e)[i], inner, shadowed || p.input in Scope(e, i), k);
  }

  lemma {:induction false} ChildRefines(c: Ctx, d: Ctx, p: Pass, e: Expr, child: Expr, env: Env, shadowed: bool, k: nat)
    requires CallsRefine(c, d, k) && PassOk(p, c.sem, e, env, shadowed) && child in Children(e)
    ensures ExprRefines(true, c, d, child, Optimize(p, child), env, env, k)
    decreases child, 4
  {
    var i :| 0 <= i < |Children(e)| && Children(e)[i] == child;
    InnerRefines(c, d, p, e, i, env, env, shadowed, k);
  }

  lemma {:induction false} RebuildRefines(c: Ctx, d: Ctx, p: Pass, e: Expr, env: Env, shadowed: bool, k: nat)
    requires CallsRefine(c, d, k) && PassOk(p, c.sem, e, env, shadowed)
    ensures ExprRefines(true, c, d, e, Rebuild(p, e), env, env, k)
    decreases e, 1
  {
    match e
    case Number(_) =>
    case Text(_) =>
    case BytesLit(_) =>
    case Ident(_) =>
    case Field(a, f) =>
      ChildRefines(c, d, p, e, a, env, shadowed, k);
      FieldCong(true, c, d, a, Optimize(p, a), f, env, env, k);
    case Unary(op, a) =>
      ChildRefines(c, d, p, e, a, env, shadowed, k);
      UnaryCong(true, c, d, op, a, Optimize(p, a), env, env, k);
    case Binary(_, _, _) => RebuildTwo(c, d, p, e, env, shadowed, k);
    case Prim(_, _, _) => RebuildTwo(c, d, p, e, env, shadowed, k);
    case TryByteAt(_, _) => RebuildTwo(c, d, p, e, env, shadowed, k);
    case Substring(_, _, _) => RebuildThree(c, d, p, e, env, shadowed, k);
    case If(_, _, _) => RebuildThree(c, d, p, e, env, shadowed, k);
    case Call(_, _) => RebuildCall(c, d, p, e, env, shadowed, k);
    case Concat(_) => RebuildList(c, d, p, e, env, shadowed, k);
    case Construct(_, _, _) => RebuildList(c, d, p, e, env, shadowed, k);
    case MatchResult(_, _, _, _, _) => RebuildMatch(c, d, p, e, env, shadowed, k);
    case MatchVariant(_, _) => RebuildMatch(c, d, p, e, env, shadowed, k);
    case _ => RebuildLoop(c, d, p, e, env, shadowed, k);
  }

  lemma {:induction false} RebuildTwo(c: Ctx, d: Ctx, p: Pass, e: Expr, env: Env, shadowed: bool, k: nat)
    requires CallsRefine(c, d, k) && PassOk(p, c.sem, e, env, shadowed) && (e.Binary? || e.Prim? || e.TryByteAt?)
    ensures ExprRefines(true, c, d, e, Rebuild(p, e), env, env, k)
    decreases e, 0
  {
    match e
    case Binary(op, a, b) =>
      ChildRefines(c, d, p, e, a, env, shadowed, k);
      ChildRefines(c, d, p, e, b, env, shadowed, k);
      BinaryCong(true, c, d, op, a, Optimize(p, a), b, Optimize(p, b), env, env, k);
    case Prim(op, a, b) =>
      ChildRefines(c, d, p, e, a, env, shadowed, k);
      ChildRefines(c, d, p, e, b, env, shadowed, k);
      PrimCong(true, c, d, op, a, Optimize(p, a), b, Optimize(p, b), env, env, k);
    case TryByteAt(t, i) =>
      ChildRefines(c, d, p, e, i, env, shadowed, k);
      TryByteCong(true, c, d, t, t, i, Optimize(p, i), env, env, k);
  }

  lemma {:induction false} RebuildThree(c: Ctx, d: Ctx, p: Pass, e: Expr, env: Env, shadowed: bool, k: nat)
    requires CallsRefine(c, d, k) && PassOk(p, c.sem, e, env, shadowed) && (e.Substring? || e.If?)
    ensures ExprRefines(true, c, d, e, Rebuild(p, e), env, env, k)
    decreases e, 0
  {
    var cs := Children(e);
    ChildRefines(c, d, p, e, cs[0], env, shadowed, k);
    ChildRefines(c, d, p, e, cs[1], env, shadowed, k);
    ChildRefines(c, d, p, e, cs[2], env, shadowed, k);
    if e.If? {
      IfCong(true, c, d, cs[0], Optimize(p, cs[0]), cs[1], Optimize(p, cs[1]), cs[2], Optimize(p, cs[2]), env, env, k);
    } else {
      SubstringCong(true, c, d, cs[0], Optimize(p, cs[0]), cs[1], Optimize(p, cs[1]), cs[2], Optimize(p, cs[2]), env,
        env, k);
    }
  }

  lemma {:induction false} RebuildList(c: Ctx, d: Ctx, p: Pass, e: Expr, env: Env, shadowed: bool, k: nat)
    requires CallsRefine(c, d, k) && PassOk(p, c.sem, e, env, shadowed) && (e.Concat? || e.Construct?)
    ensures ExprRefines(true, c, d, e, Rebuild(p, e), env, env, k)
    decreases e, 0
  {
    match e
    case Concat(args) =>
      AllRefines(c, d, p, e, args, env, shadowed, k);
      ConcatCong(true, c, d, args, OptimizeAll(p, args), env, env, k);
    case Construct(n, v, inits) =>
      assert forall i | 0 <= i < |inits| :: inits[i].value == Children(e)[i];
      InitsRefine(c, d, p, e, inits, env, map[], shadowed, k);
      ConstructCong(true, c, d, n, v, inits, OptimizeInits(p, inits), env, env, k);
  }

  lemma {:induction false} RebuildCall(c: Ctx, d: Ctx, p: Pass, e: Expr, env: Env, shadowed: bool, k: nat)
    requires CallsRefine(c, d, k) && PassOk(p, c.sem, e, env, shadowed) && e.Call?
    ensures ExprRefines(true, c, d, e, Rebuild(p, e), env, env, k)
    decreases e, 0
  {
    if |e.args| == 1 {
      ChildRefines(c, d, p, e, e.args[0], env, shadowed, k);
      var v := Eval(c, e.args[0], env, k);
      if v.Good? && e.callee in c.prog.rules && k > 0 {
        assert Refines(true, EvalRule(c, c.prog.rules[e.callee], v.value, k - 1),
          EvalRule(d, d.prog.rules[e.callee], v.value, k - 1));
      }
    }
  }

  lemma {:induction false} AllRefines(c: Ctx, d: Ctx, p: Pass, e: Expr, es: seq<Expr>, env: Env, shadowed: bool, k: nat)
    requires CallsRefine(c, d, k) && PassOk(p, c.sem, e, env, shadowed) &&
      forall i | 0 <= i < |es| :: es[i] in Children(e)
    ensures Refines(true, EvalAll(c, es, env, k), EvalAll(d, OptimizeAll(p, es), env, k))
    decreases es, 0
  {
    if es != [] {
      ChildRefines(c, d, p, e, es[0], env, shadowed, k);
      AllRefines(c, d, p, e, es[1..], env, shadowed, k);
      assert OptimizeAll(p, es)[1..] == OptimizeAll(p, es[1..]);
    }
  }

  lemma {:induction false} InitsRefine(c: Ctx, d: Ctx, p: Pass, e: Expr, fs: seq<FieldInit>, env: Env,
      m: map<string, Value>, shadowed: bool, k: nat)
    requires CallsRefine(c, d, k) && PassOk(p, c.sem, e, env, shadowed) &&
      forall i | 0 <= i < |fs| :: fs[i].value in Children(e)
    ensures Refines(true, EvalInits(c, fs, env, m, k), EvalInits(d, OptimizeInits(p, fs), env, m, k))
    decreases fs, 0
  {
    if fs != [] {
      ChildRefines(c, d, p, e, fs[0].value, env, shadowed, k);
      assert OptimizeInits(p, fs)[1..] == OptimizeInits(p, fs[1..]);
      var v := Eval(c, fs[0].value, env, k);
      if v.Good? {
        InitsRefine(c, d, p, e, fs[1..], env, m[fs[0].name := v.value], shadowed, k);
      }
    }
  }

  // ----- binders -----

  lemma {:induction false} ItemsRefine(c: Ctx, d: Ctx, p: Pass, e: Expr, i: nat, f: Expr, x: string, env: Env,
      shadowed: bool, k: nat)
    requires CallsRefine(c, d, k) && PassOk(p, c.sem, e, env, shadowed)
    requires i < |Children(e)| && x in Scope(e, i) && f == Optimize(p, Children(e)[i])
    ensures BodyRefines(true, c, d, Children(e)[i], f, x, env, env, k)
    decreases Children(e)[i], 4
  {
    forall v
      ensures ItemRefines(true, c, d, Children(e)[i], f, x, env, env, k, v)
    {
      InnerRefines(c, d, p, e, i, env, env[x := v], shadowed, k);
    }
  }

  lemma {:induction false} RebuildMatch(c: Ctx, d: Ctx, p: Pass, e: Expr, env: Env, shadowed: bool, k: nat)
    requires CallsRefine(c, d, k) && PassOk(p, c.sem, e, env, shadowed) && (e.MatchResult? || e.MatchVariant?)
    ensures ExprRefines(true, c, d, e, Rebuild(p, e), env, env, k)
    decreases e, 0
  {
    match e
    case MatchResult(t, x, a, y, b) =>
      var a', b' := Optimize(p, a), Optimize(p, b);
      ChildRefines(c, d, p, e, t, env, shadowed, k);
      ItemsRefine(c, d, p, e, 1, a', x, env, shadowed, k);
      ItemsRefine(c, d, p, e, 2, b', y, env, shadowed, k);
      MatchResultCong(true, c, d, t, Optimize(p, t), x, a, a', y, b, b', env, env, k);
    case MatchVariant(t, arms) =>
      var arms' := OptimizeArms(p, arms);
      ChildRefines(c, d, p, e, t, env, shadowed, k);
      forall v
        ensures ArmsRefine(true, c, d, arms, arms', v, env, env, k)
      {
        SelectRefines(c, d, p, e, v, env, shadowed, k);
      }
      MatchVariantCong(true, c, d, t, Optimize(p, t), arms, arms', env, env, k);
  }

  lemma {:induction false} BindArmKeeps(bs: seq<Option<string>>, ds: seq<FieldDecl>, m: map<string, Value>, env: Env,
      x: string)
    requires |bs| == |ds| && Some(x) !in bs
    ensures var r := BindArm(bs, ds, m, env);
      r.Good? ==> (x in r.value <==> x in env) && (x in env ==> r.value[x] == env[x])
    decreases |bs|
  {
    if bs != [] {
      assert forall b | b in bs[1..] :: b in bs;
      if bs[0].None? {
        BindArmKeeps(bs[1..], ds[1..], m, env, x);
      } else if ds[0].name in m {
        assert bs[0] in bs;
        BindArmKeeps(bs[1..], ds[1..], m, env[bs[0].value := m[ds[0].name]], x);
      }
    }
  }

  lemma {:induction false} SelectRefines(c: Ctx, d: Ctx, p: Pass, e: Expr, v: Value, env: Env, shadowed: bool, k: nat)
    requires CallsRefine(c, d, k) && PassOk(p, c.sem, e, env, shadowed) && e.MatchVariant?
    ensures ArmsRefine(true, c, d, e.arms, OptimizeArms(p, e.arms), v, env, env, k)
    decreases e.arms, 1
  {
    var arms := e.arms;
    if v.VVariant? {
      SameArm(c, d, p, arms, v, env);
      var r := SelectArm(c, arms, v, env);
      if r.Good? {
        var i, inner := r.value.0, r.value.1;
        ArmEnters(c, p, e, v, env, i, inner);
        assert arms[i].body == Children(e)[i + 1];
        InnerRefines(c, d, p, e, i + 1, env, inner, shadowed, k);
      }
    }
  }

  lemma SameArm(c: Ctx, d: Ctx, p: Pass, arms: seq<Arm>, v: Value, env: Env)
    requires Alike(true, c, d)
    ensures SelectArm(d, OptimizeArms(p, arms), v, env) == SelectArm(c, arms, v, env)
  {
    if v.VVariant? {
      FindArmSame(OptimizeArms(p, arms), arms, v.variant);
    }
  }

  /** An arm's body sees the input unless one of its binders has that name. */
  lemma ArmEnters(c: Ctx, p: Pass, e: Expr, v: Value, env: Env, i: nat, inner: Env)
    requires e.MatchVariant? && SelectArm(c, e.arms, v, env) == Good((i, inner))
    ensures Enters(p, e, i + 1, env, inner)
  {
    var arm := e.arms[i];
    if p.input !in Scope(e, i + 1) {
      assert Some(p.input) !in arm.binders;
      var d := FindVariant(c.prog.concepts[v.concept].variants, v.variant).value;
      BindArmKeeps(arm.binders, d.fields, v.fields, env, p.input);
    }
  }

  lemma {:induction false} RebuildLoop(c: Ctx, d: Ctx, p: Pass, e: Expr, env: Env, shadowed: bool, k: nat)
    requires CallsRefine(c, d, k) && PassOk(p, c.sem, e, env, shadowed) &&
      (e.Quantifier? || e.Collect? || e.Fold? || e.FoldBytes?)
    ensures ExprRefines(true, c, d, e, Rebuild(p, e), env, env, k)
    decreases e, 0
  {
    match e
    case Quantifier(all, t, x, b) =>
      ChildRefines(c, d, p, e, t, env, shadowed, k);
      ItemsRefine(c, d, p, e, 1, Optimize(p, b), x, env, shadowed, k);
      QuantifierCong(true, c, d, all, t, Optimize(p, t), x, b, Optimize(p, b), env, env, k);
    case Collect(keep, t, x, b) =>
      ChildRefines(c, d, p, e, t, env, shadowed, k);
      ItemsRefine(c, d, p, e, 1, Optimize(p, b), x, env, shadowed, k);
      CollectCong(true, c, d, keep, t, Optimize(p, t), x, b, Optimize(p, b), env, env, k);
    case Fold(t, i, acc, x, b) =>
      ChildRefines(c, d, p, e, t, env, shadowed, k);
      ChildRefines(c, d, p, e, i, env, shadowed, k);
      StepsOptimized(c, d, p, e, Optimize(p, b), env, shadowed, k);
      FoldCong(true, c, d, t, Optimize(p, t), i, Optimize(p, i), acc, x, b, Optimize(p, b), env, env, k);
    case FoldBytes(t, i, acc, x, n, b) =>
      ChildRefines(c, d, p, e, t, env, shadowed, k);
      ChildRefines(c, d, p, e, i, env, shadowed, k);
      BytesRefine(c, d, p, e, Rebuild(p, e), env, shadowed, k);
      FoldBytesCong(true, c, d, e, Rebuild(p, e), env, env, k);
  }

  lemma {:induction false} StepsOptimized(c: Ctx, d: Ctx, p: Pass, e: Expr, f: Expr, env: Env, shadowed: bool, k: nat)
    requires CallsRefine(c, d, k) && PassOk(p, c.sem, e, env, shadowed) && e.Fold? && f == Optimize(p, e.body)
    ensures StepsRefine(true, c, d, e.body, f, e.acc, e.item, env, env, k)
    decreases e.body, 4
  {
    forall a, v
      ensures StepRefines(true, c, d, e.body, f, e.acc, e.item, env, env, k, a, v)
    {
      InnerRefines(c, d, p, e, 2, env, env[e.acc := a][e.item := v], shadowed, k);
    }
  }

  lemma {:induction false} BytesRefine(c: Ctx, d: Ctx, p: Pass, e: Expr, f: Expr, env: Env, shadowed: bool, k: nat)
    requires CallsRefine(c, d, k) && PassOk(p, c.sem, e, env, shadowed) && e.FoldBytes? && f.FoldBytes? &&
      f.body == Optimize(p, e.body)
    ensures forall a, b, n :: ByteRefines(true, c, d, e, f, env, env, k, a, b, n)
    decreases e.body, 4
  {
    forall a, b, n
      ensures ByteRefines(true, c, d, e, f, env, env, k, a, b, n)
    {
      InnerRefines(c, d, p, e, 2, env, env[e.acc := a][e.byte := b][e.idx := n], shadowed, k);
    }
  }

  // ----- rules and programs -----

  /** With rewriting off the pass is the identity. */
  lemma {:induction false} OptimizeOff(p: Pass, e: Expr)
    requires !p.on
    ensures Optimize(p, e) == e
    decreases e
  {
    match e
    case Number(_) =>
    case Text(_) =>
    case BytesLit(_) =>
    case Ident(_) =>
    case Call(_, args) => OffAll(p, args);
    case Concat(args) => OffAll(p, args);
    case Construct(_, _, inits) =>
      var out := OptimizeInits(p, inits);
      OffInits(p, inits);
    case MatchVariant(s, arms) =>
      OptimizeOff(p, s);
      forall i | 0 <= i < |arms| { OptimizeOff(p, arms[i].body); }
      assert OptimizeArms(p, arms) == arms;
    case _ =>
      forall c | c in Children(e) { OptimizeOff(p, c); }
      OffChildren(p, e);
  }

  lemma OffChildren(p: Pass, e: Expr)
    requires !p.on && !e.Call? && !e.Concat? && !e.Construct? && !e.MatchVariant?
    requires forall c | c in Children(e) :: Optimize(p, c) == c
    ensures Rebuild(p, e) == e
  {
    var cs := Children(e);
    assert |cs| > 0 ==> cs[0] in cs;
    assert |cs| > 1 ==> cs[1] in cs;
    assert |cs| > 2 ==> cs[2] in cs;
  }

  lemma {:induction false} OffAll(p: Pass, es: seq<Expr>)
    requires !p.on
    ensures OptimizeAll(p, es) == es
    decreases es
  {
    if es != [] {
      OptimizeOff(p, es[0]);
      OffAll(p, es[1..]);
    }
  }

  lemma {:induction false} OffInits(p: Pass, fs: seq<FieldInit>)
    requires !p.on
    ensures OptimizeInits(p, fs) == fs
    decreases fs
  {
    if fs != [] {
      OptimizeOff(p, fs[0].value);
      OffInits(p, fs[1..]);
    }
  }

  lemma {:induction false} OffLets(p: Pass, bs: seq<Binding>)
    requires !p.on
    ensures OptimizeLets(p, bs) == bs
  {
    if bs != [] {
      OptimizeOff(p, bs[0].value);
      OffLets(p, bs[1..]);
    }
  }

  lemma {:induction false} OptimizeLetsRefine(c: Ctx, d: Ctx, p: Pass, bs: seq<Binding>, value: Expr, env: Env,
      shadowed: bool, k: nat)
    requires CallsRefine(c, d, k)
    requires p.on ==>
      Native(c.sem) && LetsUndisturbed(p, bs, value, shadowed) && (!shadowed ==> InputInRange(p.fr, p.input, env))
    ensures Refines(true, RunFrom(c, bs, value, env, k), RunFrom(d, OptimizeLets(p, bs), Optimize(p, value), env, k))
    decreases |bs|
  {
    if bs == [] {
      OptimizeRefines(c, d, p, value, env, shadowed, k);
    } else {
      var x, e := bs[0].name, bs[0].value;
      OptimizeRefines(c, d, p, e, env, shadowed, k);
      var v, w := Eval(c, e, env, k), Eval(d, Optimize(p, e), env, k);
      RunStep(c, bs, value, env, k, v);
      OptimizedStep(d, p, bs, value, env, k, w);
      if v.Good? {
        OptimizeLetsRefine(c, d, p, bs[1..], value, env[x := v.value], shadowed || x == p.input, k);
      }
    }
  }

  lemma RunStep(c: Ctx, bs: seq<Binding>, value: Expr, env: Env, k: nat, v: Res<Value>)
    requires bs != [] && v == Eval(c, bs[0].value, env, k)
    ensures RunFrom(c, bs, value, env, k) ==
      if v.Bad? then v else RunFrom(c, bs[1..], value, env[bs[0].name := v.value], k)
  {
  }

  lemma OptimizedStep(d: Ctx, p: Pass, bs: seq<Binding>, value: Expr, env: Env, k: nat, w: Res<Value>)
    requires bs != [] && w == Eval(d, Optimize(p, bs[0].value), env, k)
    ensures RunFrom(d, OptimizeLets(p, bs), Optimize(p, value), env, k) ==
      if w.Bad? then w
      else RunFrom(d, OptimizeLets(p, bs[1..]), Optimize(p, value), env[bs[0].name := w.value], k)
  {
    var fs := OptimizeLets(p, bs);
    assert fs[0] == Binding(bs[0].name, Optimize(p, bs[0].value)) && fs[1..] == OptimizeLets(p, bs[1..]);
    RunStep(d, fs, Optimize(p, value), env, k, w);
  }

  /** The lets and then the value. */
  function RunFrom(c: Ctx, bs: seq<Binding>, value: Expr, env: Env, k: nat): Res<Value> {
    var inner :- EvalLets(c, bs, env, k);
    Eval(c, value, inner, k)
  }

  function PassedRule(p: Pass, r: Rule): Rule {
    r.(bindings := OptimizeLets(p, r.bindings), value := Optimize(p, r.value))
  }

  lemma PassRefines(c: Ctx, d: Ctx, p: Pass, r: Rule, v: Value, k: nat)
    requires CallsRefine(c, d, k) && c.guarded == d.guarded
    requires p.on ==>
      && Native(c.sem) && c.sem.monitor.Lowering? && p == RulePass(c.prog.concepts, r)
      && LetsUndisturbed(p, r.bindings, r.value, false)
    ensures Refines(true, EvalRule(c, r, v, k), EvalRule(d, PassedRule(p, r), v, k))
  {
    if EntryExpected(c, r, v) {
      OptimizeLetsRefine(c, d, p, r.bindings, r.value, map[r.input := v], false, k);
    }
  }

  lemma RuleRefines(c: Ctx, d: Ctx, bounded: set<string>, n: string, v: Value, k: nat)
    requires Optimized(c, d, bounded) && CallsRefine(c, d, k) && n in c.prog.rules
    ensures Refines(true, EvalRule(c, c.prog.rules[n], v, k), EvalRule(d, d.prog.rules[n], v, k))
  {
    var r := c.prog.rules[n];
    if n in bounded {
      var p := Pass(false, map[], r.input);
      OptimizeOff(p, r.value);
      OffLets(p, r.bindings);
      PassRefines(c, d, p, r, v, k);
    } else {
      var i := Inlined(r);
      var p := RulePass(c.prog.concepts, r);
      InlinedRefines(true, c, r, v, k);
      PassRefines(c, d, p, i, v, k);
      assert d.prog.rules[n] == PassedRule(p, i);
    }
  }

  lemma {:induction false} ProgramRefines(c: Ctx, d: Ctx, bounded: set<string>, k: nat)
    requires Optimized(c, d, bounded)
    ensures CallsRefine(c, d, k) && RulesRefine(c, d, k)
  {
    if k > 0 {
      ProgramRefines(c, d, bounded, k - 1);
    }
    forall n, v | n in c.prog.rules && n in d.prog.rules
      ensures Refines(true, EvalRule(c, c.prog.rules[n], v, k), EvalRule(d, d.prog.rules[n], v, k))
    {
      RuleRefines(c, d, bounded, n, v, k);
    }
  }

  lemma RuleAt(c: Ctx, d: Ctx, n: string, v: Value, k: nat)
    requires RulesRefine(c, d, k) && n in c.prog.rules && n in d.prog.rules
    ensures Refines(true, EvalRule(c, c.prog.rules[n], v, k), EvalRule(d, d.prog.rules[n], v, k))
  {
  }

  /** For every rule, input and call budget: unless the original run goes wrong,
      the optimized program returns the same value or raises the same fault. */
  lemma OptimizerPreservation(c: Ctx, d: Ctx, bounded: set<string>, n: string, v: Value, k: nat)
    requires Optimized(c, d, bounded) && n in c.prog.rules
    ensures n in d.prog.rules
    ensures var r := EvalRule(c, c.prog.rules[n], v, k);
      !GoesWrong(r) ==> EvalRule(d, d.prog.rules[n], v, k) == r
  {
    ProgramRefines(c, d, bounded, k);
    RuleAt(c, d, n, v, k);
  }
}
