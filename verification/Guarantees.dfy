/** What the parts give together: from the interpreter to optimized native code,
    and well-formed values in unwatched runs. */
module Guarantees {
  import opened Int64
  import opened Ast
  import opened TextOps
  import opened Interp
  import opened Refinement
  import opened Substitution
  import opened Inlining
  import opened Optimizer
  import opened OptimizerSound
  import opened OptimizerPreserves
  import opened Lowering
  import opened Constructors
  import Participation
  import BoundedCheck
  import opened ConstructorSound

  // ----- a monitor only observes -----

  lemma RuleErased(c: Ctx, d: Ctx, n: string, v: Value, k: nat)
    requires d == c.(sem := c.sem.(monitor := Off)) && CallsRefine(c, d, k) && n in c.prog.rules
    ensures Refines(true, EvalRule(c, c.prog.rules[n], v, k), EvalRule(d, d.prog.rules[n], v, k))
  {
    var r := c.prog.rules[n];
    var p := Pass(false, map[], r.input);
    OptimizeOff(p, r.value);
    OffLets(p, r.bindings);
    PassRefines(c, d, p, r, v, k);
    assert PassedRule(p, r) == r;
  }

  /** Unless a watched run goes wrong, the unwatched run is the same. */
  lemma {:induction false} MonitorErased(c: Ctx, d: Ctx, k: nat)
    requires d == c.(sem := c.sem.(monitor := Off))
    ensures CallsRefine(c, d, k) && RulesRefine(c, d, k)
  {
    if k > 0 {
      MonitorErased(c, d, k - 1);
    }
    forall n, v | n in c.prog.rules && n in d.prog.rules
      ensures Refines(true, EvalRule(c, c.prog.rules[n], v, k), EvalRule(d, d.prog.rules[n], v, k))
    {
      RuleErased(c, d, n, v, k);
    }
  }

  lemma RunErased(c: Ctx, d: Ctx, n: string, v: Value, k: nat)
    requires d == c.(sem := c.sem.(monitor := Off)) && n in c.prog.rules
    ensures Refines(true, EvalRule(c, c.prog.rules[n], v, k), EvalRule(d, d.prog.rules[n], v, k))
  {
    MonitorErased(c, d, k);
    RuleAt(c, d, n, v, k);
  }

  // ----- constructions -----

  /** In a program about which nothing is reported, a run whose rule inputs and
      results inhabit their types builds only well-formed values, and is the
      interpreter's own run. */
  lemma ConstructionsWellFormed(c: Ctx, d: Ctx, n: string, v: Value, k: nat)
    requires Typing(c) && d == c.(sem := c.sem.(monitor := Off)) && n in c.prog.rules
    requires forall m | m in c.prog.rules :: RuleEstablished(c.prog, c.prog.rules[m])
    ensures var r := EvalRule(c, c.prog.rules[n], v, k);
      r != Bad(IllFormed) && (r != Bad(Stuck) ==> EvalRule(d, d.prog.rules[n], v, k) == r)
  {
    ConstructorSoundness(c, n, v, k);
    RunErased(c, d, n, v, k);
  }

  // ----- inlining of the rules that are optimized -----

  lemma {:induction false} NoTryByteNoTable(e: Expr)
    requires !BoundedCheck.HasTryByte(e)
    ensures NoNamedTable(e)
    decreases e
  {
    forall c | c in Children(e) { NoTryByteNoTable(c); }
  }

  /** The optimizer leaves the rules of the bounded contract alone; inlining any
      other rule changes no outcome of it, failures included. */
  lemma InlinedOutsideContract(c: Ctx, n: string, v: Value, k: nat)
    requires n in c.prog.rules
    requires !Participation.Participates(Participation.CallGraph(c.prog), BoundedCheck.Seeds(c.prog), n)
    ensures EvalRule(c, c.prog.rules[n], v, k) == EvalRule(c, Inlined(c.prog.rules[n]), v, k)
  {
    var r, g, seeds := c.prog.rules[n], Participation.CallGraph(c.prog), BoundedCheck.Seeds(c.prog);
    if n in seeds {
      Participation.SeedsSound(g, seeds);
    }
    forall b | b in r.bindings { NoTryByteNoTable(b.value); }
    NoTryByteNoTable(r.value);
    InlinedEqual(c, r, v, k);
  }

  // ----- from source to optimized native code -----

  function Native(c: Ctx, bounded: set<string>): Ctx {
    Ctx(OptimizeProgram(c.prog, bounded), c.guarded, Sem(true, true, Off))
  }

  lemma OptimizedLowered(c: Ctx, d: Ctx, bounded: set<string>, n: string, v: Value, k: nat)
    requires LowersTo(c, d) && n in c.prog.rules
    requires forall m | m in c.prog.rules && m !in bounded :: RuleUndisturbed(c.prog.concepts, c.prog.rules[m])
    ensures var o := d.(prog := OptimizeProgram(d.prog, bounded));
      n in o.prog.rules && Lowers(EvalRule(c, c.prog.rules[n], v, k), EvalRule(o, o.prog.rules[n], Lower(v), k))
  {
    var o := d.(prog := OptimizeProgram(d.prog, bounded));
    LoweringPreserves(c, d, n, v, k);
    OptimizerPreservation(d, o, bounded, n, Lower(v), k);
  }

  /** For every rule, input and call budget: when a run of the interpreter stays
      in the declared numeric ranges, prints no boolean, does not overflow and
      does not go wrong, the interpreter and the optimized native program agree
      on its value or its fault. */
  lemma SourceToNative(c: Ctx, bounded: set<string>, n: string, v: Value, k: nat)
    requires c.sem == Sem(false, false, Monitor.Lowering) && n in c.prog.rules
    requires forall m | m in c.prog.rules && m !in bounded :: RuleUndisturbed(c.prog.concepts, c.prog.rules[m])
    ensures var r, native := EvalRule(c, c.prog.rules[n], v, k), Native(c, bounded);
      && n in native.prog.rules
      && (!Excused(r) ==>
           && EvalRule(c.(sem := Sem(false, false, Off)), c.prog.rules[n], v, k) == r
           && EvalRule(native, native.prog.rules[n], Lower(v), k) == if r.Good? then Good(Lower(r.value)) else r)
  {
    var d := c.(sem := Sem(true, true, Monitor.Lowering));
    var o := d.(prog := OptimizeProgram(d.prog, bounded));
    OptimizedLowered(c, d, bounded, n, v, k);
    RunErased(c, c.(sem := Sem(false, false, Off)), n, v, k);
    RunErased(o, Native(c, bounded), n, Lower(v), k);
  }

  // ----- why the ranges must not decide anything under a rebound input -----

  /** `let i = C { amount: n }` over an input `i` whose amount lies in lo .. hi,
      then `if i.amount > t then a else b`. */
  datatype Rebind = Rebind(lo: i64, hi: i64, n: i64, t: i64, a: i64, b: i64) {
    function Cond(): Expr { Binary(Gt, Field(Ident("i"), "amount"), Number(t)) }

    function Body(): Expr { If(Cond(), Number(a), Number(b)) }

    function Let(): Expr { Construct("C", None, [FieldInit("amount", Number(n))]) }

    function RebindRule(): Rule {
      Rule("f", "i", TNamed("C"), false, TNumber, None, [Binding("i", Let())], Body(), None)
    }

    function Prog(): Program {
      Program(map["f" := RebindRule()], map["C" := Concept([FieldDecl("amount", TNumber, Some((lo, hi)))], [])])
    }

    function RangePass(): Pass { Pass(true, map["amount" := (lo, hi)], "i") }

    /** What the declared range says of the condition. */
    function Decided(): Option<bool> { if lo > t then Some(true) else if hi <= t then Some(false) else None }

    function Rewritten(): Expr {
      match Decided() case Some(true) => Number(a) case Some(false) => Number(b) case None => Body()
    }

    function Inner(v: Value): Env { map["i" := v]["i" := VRecord(map["amount" := VNumber(n)])] }
  }

  lemma RebindRanges(q: Rebind)
    ensures RulePass(q.Prog().concepts, q.RebindRule()) == q.RangePass()
  {
    var fs := q.Prog().concepts["C"].fields;
    assert fs[..0] == [] && FieldRanges(fs[..0]) == map[];
    assert FieldRanges(fs) == map[]["amount" := (q.lo, q.hi)];
  }

  lemma RebindInlined(q: Rebind)
    ensures Inlined(q.RebindRule()) == q.RebindRule()
  {
    var r := q.RebindRule();
    var b := r.bindings[0];
    assert r.bindings[1..] == [] && [b] + [] == r.bindings;
    assert InlineLets(r.bindings[1..], []) == ([], []);
    assert Retain([], "i") == [] && ApplySubs(b.value, []) == b.value;
    assert InlineLets(r.bindings, []) == (r.bindings, []);
  }

  lemma RebindSimplified(q: Rebind)
    ensures Simplify(q.Body(), q.RangePass().fr, "i") == q.Rewritten()
    ensures Simplify(q.Body(), map[], "i") == q.Body()
  {
    var f, fr := Field(Ident("i"), "amount"), q.RangePass().fr;
    assert ComputeRange(Number(q.t), fr, "i") == Some((q.t, q.t)) && ComputeRange(f, fr, "i") == Some((q.lo, q.hi));
    assert CanDiscard(f, fr, "i") && CanDiscard(Number(q.t), fr, "i");
    assert StaticEval(q.Cond(), fr, "i") == q.Decided();
    assert ComputeRange(f, map[], "i") == None;
    assert StaticEval(q.Cond(), map[], "i") == None;
  }

  lemma RebindRebuilt(q: Rebind)
    ensures Rebuild(q.RangePass(), q.Body()) == q.Body() && Optimize(q.RangePass(), q.Let()) == q.Let()
  {
    var p, inits := q.RangePass(), q.Let().inits;
    LiteralOptimized(p, q.a);
    LiteralOptimized(p, q.b);
    LiteralOptimized(p, q.n);
    CompareOptimized(q);
    assert inits[1..] == [] && OptimizeInits(p, inits[1..]) == [];
    assert OptimizeInits(p, inits) == inits;
  }

  lemma LiteralOptimized(p: Pass, n: i64)
    ensures Optimize(p, Number(n)) == Number(n)
  {
  }

  lemma CompareOptimized(q: Rebind)
    ensures Optimize(q.RangePass(), q.Cond()) == q.Cond()
  {
    var p, f := q.RangePass(), Field(Ident("i"), "amount");
    LiteralOptimized(p, q.t);
    assert Optimize(p, Ident("i")) == Ident("i");
    assert Optimize(p, f) == f;
    assert Rebuild(p, q.Cond()) == q.Cond();
  }

  lemma RebindOptimized(q: Rebind)
    ensures OptimizeRule(q.Prog().concepts, q.RebindRule()) == q.RebindRule().(value := q.Rewritten())
  {
    var p, r := q.RangePass(), q.RebindRule();
    RebindRanges(q);
    RebindInlined(q);
    RebindRebuilt(q);
    RebindSimplified(q);
    assert Optimize(p, q.Body()) == q.Rewritten();
    assert r.bindings[1..] == [] && OptimizeLets(p, r.bindings[1..]) == [];
    assert OptimizeLets(p, r.bindings) == r.bindings;
  }

  lemma RebindRun(c: Ctx, q: Rebind, v: Value, k: nat, e: Expr)
    requires c.sem == Sem(true, true, Off) && c.guarded == {}
    ensures EvalRule(c, q.RebindRule().(value := e), v, k) == Eval(c, e, q.Inner(v), k)
  {
    var inits := q.Let().inits;
    var env: Env := map["i" := v];
    assert inits[1..] == [] && Eval(c, Number(q.n), env, k) == Good(VNumber(q.n));
    var m: map<string, Value> := map[]["amount" := VNumber(q.n)];
    assert EvalInits(c, inits[1..], env, m, k) == Good(m);
    assert EvalInits(c, inits, env, map[], k) == Good(m);
    assert Eval(c, q.Let(), env, k) == Good(VRecord(m));
    assert q.RebindRule().bindings[1..] == [];
    assert EvalLets(c, q.RebindRule().bindings, env, k) == Good(q.Inner(v));
  }

  lemma RebindValue(c: Ctx, q: Rebind, v: Value, k: nat)
    requires c.sem == Sem(true, true, Off)
    ensures Eval(c, q.Body(), q.Inner(v), k) == Good(VNumber(if q.n > q.t then q.a else q.b))
  {
    var env := q.Inner(v);
    assert Eval(c, Ident("i"), env, k) == Good(VRecord(map["amount" := VNumber(q.n)]));
    assert Eval(c, Field(Ident("i"), "amount"), env, k) == Good(VNumber(q.n));
    assert Eval(c, Number(q.t), env, k) == Good(VNumber(q.t));
    assert Eval(c, q.Cond(), env, k) == Good(MkBool(c.sem, q.n > q.t));
  }

  /** The optimized rule means what the original means if and only if the
      declared range decides nothing, or decides as the rebound value does, or
      the branches agree. */
  lemma RebindingExact(c: Ctx, d: Ctx, q: Rebind, v: Value, k: nat)
    requires c == Ctx(q.Prog(), {}, Sem(true, true, Off)) && d == c.(prog := OptimizeProgram(q.Prog(), {}))
    ensures EvalRule(d, d.prog.rules["f"], v, k) == EvalRule(c, c.prog.rules["f"], v, k) <==>
            (q.Decided() == None || q.Decided() == Some(q.n > q.t) || q.a == q.b)
  {
    RebindOptimized(q);
    RebindRun(c, q, v, k, q.Body());
    RebindRun(d, q, v, k, q.Rewritten());
    RebindValue(c, q, v, k);
    RebindValue(d, q, v, k);
  }

  /** An amount of 100 over a declared range 0 .. 10: the original returns 1, the
      optimized rule 2. */
  lemma RebindingBreaks(c: Ctx, d: Ctx, q: Rebind, v: Value, k: nat)
    requires q == Rebind(0, 10, 100, 50, 1, 2)
    requires c == Ctx(q.Prog(), {}, Sem(true, true, Off)) && d == c.(prog := OptimizeProgram(q.Prog(), {}))
    ensures EvalRule(c, c.prog.rules["f"], v, k) == Good(VNumber(1))
    ensures EvalRule(d, d.prog.rules["f"], v, k) == Good(VNumber(2))
  {
    RebindOptimized(q);
    RebindRun(c, q, v, k, q.Body());
    RebindRun(d, q, v, k, q.Rewritten());
    RebindValue(c, q, v, k);
  }

  /** These rules are undisturbed exactly when the range decides nothing. */
  lemma RebindUndisturbed(q: Rebind)
    ensures RuleUndisturbed(q.Prog().concepts, q.RebindRule()) <==> q.Decided() == None
  {
    var p, r := q.RangePass(), q.RebindRule();
    RebindRanges(q);
    RebindInlined(q);
    RebindRebuilt(q);
    RebindSimplified(q);
    RebindLeaves(q);
    assert r.bindings[1..] == [];
    assert LetsUndisturbed(p, r.bindings, q.Body(), false) ==
      (Undisturbed(p, q.Let(), false) && Undisturbed(p, q.Body(), true));
    assert RangeFree(p, q.Body()) <==> q.Decided() == None;
  }

  lemma RebindLeaves(q: Rebind)
    ensures Undisturbed(q.RangePass(), q.Let(), false)
    ensures Undisturbed(q.RangePass(), q.Body(), true) <==> RangeFree(q.RangePass(), q.Body())
  {
    var p := q.RangePass();
    LiteralUndisturbed(p, q.a, true);
    LiteralUndisturbed(p, q.b, true);
    LiteralUndisturbed(p, q.n, false);
    RebindCondition(q);
    assert Children(q.Body()) == [q.Cond(), Number(q.a), Number(q.b)];
    assert Children(q.Let()) == [Number(q.n)];
  }

  lemma LiteralUndisturbed(p: Pass, n: i64, shadowed: bool)
    ensures Undisturbed(p, Number(n), shadowed)
  {
  }

  lemma RebindCondition(q: Rebind)
    ensures Undisturbed(q.RangePass(), q.Cond(), true)
  {
    var p, f := q.RangePass(), Field(Ident("i"), "amount");
    assert Undisturbed(p, Ident("i"), true);
    assert Undisturbed(p, f, true);
    LiteralUndisturbed(p, q.t, true);
    RebindCompares(q);
    assert Children(q.Cond()) == [f, Number(q.t)];
  }

  lemma RebindCompares(q: Rebind)
    ensures RangeFree(q.RangePass(), q.Cond())
  {
    var p, f := q.RangePass(), Field(Ident("i"), "amount");
    assert Optimize(p, Ident("i")) == Ident("i");
    assert Optimize(p, f) == f && Optimize(p, Number(q.t)) == Number(q.t);
    assert Rebuild(p, q.Cond()) == q.Cond();
  }

  // ----- why concat must not print a boolean -----

  const PrintsBool := Concat([Binary(Lt, Number(1), Number(2))])

  /** The interpreter prints `true`; folding the comparison first prints `1`. */
  lemma PrintedBoolDiffers(c: Ctx, p: Pass, env: Env, k: nat)
    requires c.sem == Sem(false, false, Off) && p.on
    ensures Eval(c, PrintsBool, env, k) == Good(VText([116, 114, 117, 101]))
    ensures Eval(c, Optimize(p, PrintsBool), env, k) == Good(VText([49]))
  {
    PrintedInterpreted(c, PrintsBool.args[0], env, k);
    PrintedFolded(p);
    LiteralRun(c, [49], env, k);
  }

  lemma LiteralRun(c: Ctx, s: Bytes, env: Env, k: nat)
    ensures Eval(c, Text(s), env, k) == Good(VText(s))
  {
  }

  lemma PrintedFolded(p: Pass)
    requires p.on
    ensures Optimize(p, PrintsBool) == Text([49])
  {
    var e := PrintsBool.args[0];
    assert PrintsBool.args[1..] == [] && PrintsBool.args == [e];
    assert Optimize(p, Number(1)) == Number(1) && Optimize(p, Number(2)) == Number(2);
    assert Optimize(p, e) == Number(1);
    assert OptimizeAll(p, PrintsBool.args) == [Number(1)];
    assert [Number(1)][1..] == [] && JoinLiterals([Number(1)][1..]) == Some([]);
    assert Decimal(1) == [49] && [49] + [] == [49];
    assert JoinLiterals([Number(1)]) == Some([49]);
  }

  lemma PrintedInterpreted(c: Ctx, e: Expr, env: Env, k: nat)
    requires c.sem == Sem(false, false, Off) && e == Binary(Lt, Number(1), Number(2))
    ensures Eval(c, Concat([e]), env, k) == Good(VText([116, 114, 117, 101]))
  {
    var t: Bytes := [116, 114, 117, 101];
    assert Eval(c, Number(1), env, k) == Good(VNumber(1)) && Eval(c, Number(2), env, k) == Good(VNumber(2));
    assert Eval(c, e, env, k) == Good(VBool(true));
    assert [e][1..] == [] && EvalAll(c, [e][1..], env, k) == Good([]);
    assert [VBool(true)] + [] == [VBool(true)];
    assert EvalAll(c, [e], env, k) == Good([VBool(true)] + []);
    assert [VBool(true)][1..] == [] && JoinText(c.sem, [VBool(true)][1..]) == Good([]);
    assert t + [] == t;
    assert JoinText(c.sem, [VBool(true)]) == Good(t);
  }
}
