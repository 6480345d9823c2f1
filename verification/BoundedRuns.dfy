/** The evaluator instrumented with a ledger of results. Every run that creates
    a Result numbers it; matching a result marks its number. The ledger is
    threaded through calls, so it lists the results of the whole call tree. */
module BoundedRuns {
  import opened Int64
  import opened Ast
  import opened Interp

  datatype Tagged = Tagged(v: Value, token: Option<nat>)

  type TaggedEnv = map<string, Tagged>

  /** Results 1..made have been created; those in `matched` were matched. */
  datatype Ledger = Ledger(made: nat, matched: set<nat>)

  datatype Run = Run(val: Tagged, ledger: Ledger)

  function Plain(env: TaggedEnv): Env { map x | x in env :: env[x].v }

  /** A value just computed: a Result is entered in the ledger. */
  function Issue(v: Value, l: Ledger): Run {
    if v.VOk? || v.VErr? then Run(Tagged(v, Some(l.made + 1)), l.(made := l.made + 1))
    else Run(Tagged(v, None), l)
  }

  function Match(t: Tagged, l: Ledger): Ledger {
    if t.token.Some? then l.(matched := l.matched + {t.token.value}) else l
  }

  /** `Eval` with a ledger. A call's result keeps the number its callee gave it.
      Forms the bounded-result contract does not support are evaluated whole. */
  function Trace(c: Ctx, e: Expr, env: TaggedEnv, l: Ledger, k: nat): Res<Run>
    decreases k, 0, e
  {
    match e
    case Ident(x) => if x in env then Good(Run(env[x], l)) else Bad(Stuck)
    case Unary(op, a) =>
      var r :- Trace(c, a, env, l, k);
      var v :- ApplyUnary(c.sem, op, r.val.v);
      Good(Issue(v, r.ledger))
    case Binary(op, a, b) =>
      var r :- Trace(c, a, env, l, k);
      if op.And? || op.Or? then
        match AsBool(c.sem, r.val.v)
        case None => Bad(Stuck)
        case Some(x) =>
          if x == op.Or? then Good(Issue(r.val.v, r.ledger))
          else
            var s :- Trace(c, b, env, r.ledger, k);
            if AsBool(c.sem, s.val.v).None? then Bad(Stuck) else Good(Issue(s.val.v, s.ledger))
      else
        var s :- Trace(c, b, env, r.ledger, k);
        var v :- ApplyBinary(c.sem, op, r.val.v, s.val.v);
        Good(Issue(v, s.ledger))
    case Prim(op, a, b) =>
      var r :- Trace(c, a, env, l, k);
      var s :- Trace(c, b, env, r.ledger, k);
      var v :- ApplyPrim(c.sem, op, r.val.v, s.val.v);
      Good(Issue(v, s.ledger))
    case TryByteAt(t, i) =>
      if !IsTable(t) then Bad(Stuck)
      else
        var r :- Trace(c, i, env, l, k);
        var v :- ApplyTryByte(Table(t), r.val.v);
        Good(Issue(v, r.ledger))
    case If(q, a, b) =>
      var r :- Trace(c, q, env, l, k);
      (match AsBool(c.sem, r.val.v)
       case None => Bad(Stuck)
       case Some(x) => if x then Trace(c, a, env, r.ledger, k) else Trace(c, b, env, r.ledger, k))
    case MatchResult(t, x, a, y, b) =>
      var r :- Trace(c, t, env, l, k);
      var l' := Match(r.val, r.ledger);
      if r.val.v.VOk? then Trace(c, a, env[x := Tagged(r.val.v.inner, None)], l', k)
      else if r.val.v.VErr? then Trace(c, b, env[y := Tagged(r.val.v.inner, None)], l', k)
      else Bad(Stuck)
    case Call(name, args) =>
      if name !in c.prog.rules || |args| != 1 then Bad(Stuck)
      else
        var r :- Trace(c, args[0], env, l, k);
        if k == 0 then Bad(Timeout) else TraceRule(c, c.prog.rules[name], r.val, r.ledger, k - 1)
    case _ =>
      var v :- Eval(c, e, Plain(env), k);
      Good(Issue(v, l))
  }

  function TraceLets(c: Ctx, bs: seq<Binding>, env: TaggedEnv, l: Ledger, k: nat): Res<(TaggedEnv, Ledger)>
    decreases k, 1, |bs|
  {
    if bs == [] then Good((env, l))
    else
      var r :- Trace(c, bs[0].value, env, l, k);
      TraceLets(c, bs[1..], env[bs[0].name := r.val], r.ledger, k)
  }

  /** A rule entered with the ledger of its caller. */
  function TraceRule(c: Ctx, r: Rule, v: Tagged, l: Ledger, k: nat): Res<Run>
    decreases k, 2
  {
    if !EntryExpected(c, r, v.v) then Bad(Stuck)
    else if (r.name in c.guarded || r.textMax.Some?) && !EntryGuard(c.prog.concepts, r, v.v) then Bad(Refused)
    else
      var lets :- TraceLets(c, r.bindings, map[r.input := v], l, k);
      var out :- Trace(c, r.value, lets.0, lets.1, k);
      if r.textMax.Some? && !(out.val.v.VText? && |out.val.v.s| <= r.textMax.value) then Bad(TooLong)
      else if !ExitExpected(c, r, out.val.v) then Bad(Stuck)
      else Good(out)
  }

  const Empty := Ledger(0, {})

  /** A whole run from an empty ledger. */
  function Traced(c: Ctx, r: Rule, v: Value, k: nat): Res<Run> { TraceRule(c, r, Tagged(v, None), Empty, k) }

  // ----- forgetting the ledger gives the evaluator back -----

  function Forget(r: Res<Run>): Res<Value> {
    if r.Bad? then Bad(r.fault) else Good(r.value.val.v)
  }

  ghost predicate Forgets(c: Ctx, e: Expr, env: TaggedEnv, l: Ledger, k: nat) {
    Forget(Trace(c, e, env, l, k)) == Eval(c, e, Plain(env), k)
  }

  lemma PlainBound(env: TaggedEnv, x: string, t: Tagged)
    ensures Plain(env[x := t]) == Plain(env)[x := t.v]
  {
  }

  lemma {:induction false} TraceForgets(c: Ctx, e: Expr, env: TaggedEnv, l: Ledger, k: nat)
    ensures Forgets(c, e, env, l, k)
    decreases k, 0, e, 1
  {
    match e
    case Ident(_) =>
    case Unary(_, _) => UnaryForgets(c, e, env, l, k);
    case TryByteAt(_, i) => TraceForgets(c, i, env, l, k);
    case Binary(_, _, _) => BinaryForgets(c, e, env, l, k);
    case Prim(_, _, _) => PrimForgets(c, e, env, l, k);
    case If(_, _, _) => IfForgets(c, e, env, l, k);
    case MatchResult(_, _, _, _, _) => MatchForgets(c, e, env, l, k);
    case Call(_, _) => CallForgets(c, e, env, l, k);
    case _ => WholeForgets(c, e, env, l, k);
  }

  lemma {:induction false} WholeForgets(c: Ctx, e: Expr, env: TaggedEnv, l: Ledger, k: nat)
    requires !e.Ident? && !e.Unary? && !e.TryByteAt? && !e.Binary? && !e.Prim? && !e.If? && !e.MatchResult? && !e.Call?
    ensures Forgets(c, e, env, l, k)
  {
  }

  lemma {:induction false} UnaryForgets(c: Ctx, e: Expr, env: TaggedEnv, l: Ledger, k: nat)
    requires e.Unary?
    ensures Forgets(c, e, env, l, k)
    decreases k, 0, e, 0
  {
    TraceForgets(c, e.arg, env, l, k);
  }

  lemma {:induction false} CallForgets(c: Ctx, e: Expr, env: TaggedEnv, l: Ledger, k: nat)
    requires e.Call?
    ensures Forgets(c, e, env, l, k)
    decreases k, 0, e, 0
  {
    if |e.args| == 1 {
      TraceForgets(c, e.args[0], env, l, k);
      var r := Trace(c, e.args[0], env, l, k);
      if r.Good? && e.callee in c.prog.rules && k > 0 {
        RuleForgets(c, c.prog.rules[e.callee], r.value.val, r.value.ledger, k - 1);
      }
    }
  }

  lemma {:induction false} PrimForgets(c: Ctx, e: Expr, env: TaggedEnv, l: Ledger, k: nat)
    requires e.Prim?
    ensures Forgets(c, e, env, l, k)
    decreases k, 0, e, 0
  {
    TraceForgets(c, e.arg0, env, l, k);
    var r := Trace(c, e.arg0, env, l, k);
    if r.Good? { TraceForgets(c, e.arg1, env, r.value.ledger, k); }
  }

  lemma {:induction false} IfForgets(c: Ctx, e: Expr, env: TaggedEnv, l: Ledger, k: nat)
    requires e.If?
    ensures Forgets(c, e, env, l, k)
    decreases k, 0, e, 0
  {
    TraceForgets(c, e.cond, env, l, k);
    var r := Trace(c, e.cond, env, l, k);
    if r.Good? {
      TraceForgets(c, e.yes, env, r.value.ledger, k);
      TraceForgets(c, e.no, env, r.value.ledger, k);
    }
  }

  lemma {:induction false} BinaryForgets(c: Ctx, e: Expr, env: TaggedEnv, l: Ledger, k: nat)
    requires e.Binary?
    ensures Forgets(c, e, env, l, k)
    decreases k, 0, e, 0
  {
    TraceForgets(c, e.left, env, l, k);
    var r := Trace(c, e.left, env, l, k);
    if r.Good? { TraceForgets(c, e.right, env, r.value.ledger, k); }
  }

  lemma {:induction false} MatchForgets(c: Ctx, e: Expr, env: TaggedEnv, l: Ledger, k: nat)
    requires e.MatchResult?
    ensures Forgets(c, e, env, l, k)
    decreases k, 0, e, 0
  {
    TraceForgets(c, e.target, env, l, k);
    var r := Trace(c, e.target, env, l, k);
    if r.Good? {
      var l' := Match(r.value.val, r.value.ledger);
      if r.value.val.v.VOk? {
        var t := Tagged(r.value.val.v.inner, None);
        PlainBound(env, e.okVar, t);
        TraceForgets(c, e.okBody, env[e.okVar := t], l', k);
      } else if r.value.val.v.VErr? {
        var t := Tagged(r.value.val.v.inner, None);
        PlainBound(env, e.errVar, t);
        TraceForgets(c, e.errBody, env[e.errVar := t], l', k);
      }
    }
  }

  lemma {:induction false} LetsForget(c: Ctx, bs: seq<Binding>, env: TaggedEnv, l: Ledger, k: nat)
    ensures var r := TraceLets(c, bs, env, l, k);
      EvalLets(c, bs, Plain(env), k) == if r.Bad? then Bad(r.fault) else Good(Plain(r.value.0))
    decreases k, 1, |bs|
  {
    if bs != [] {
      TraceForgets(c, bs[0].value, env, l, k);
      var r := Trace(c, bs[0].value, env, l, k);
      if r.Good? {
        PlainBound(env, bs[0].name, r.value.val);
        LetsForget(c, bs[1..], env[bs[0].name := r.value.val], r.value.ledger, k);
      }
    }
  }

  /** The ledger observes a run without changing it. */
  lemma {:induction false} RuleForgets(c: Ctx, r: Rule, v: Tagged, l: Ledger, k: nat)
    ensures Forget(TraceRule(c, r, v, l, k)) == EvalRule(c, r, v.v, k)
    decreases k, 2
  {
    var env: TaggedEnv := map[r.input := v];
    assert Plain(env) == map[r.input := v.v];
    LetsForget(c, r.bindings, env, l, k);
    var lets := TraceLets(c, r.bindings, env, l, k);
    if lets.Good? {
      TraceForgets(c, r.value, lets.value.0, lets.value.1, k);
    }
  }
}
