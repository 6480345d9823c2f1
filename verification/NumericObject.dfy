/** The checker object of the overflow contract, with its memo table, its set of
    rules being visited and its work limits. */
module NumericObject {
  import opened Int64
  import opened Ast
  import opened Interp
  import opened IntervalArith
  import opened Ranges
  import opened NumericBounds
  import opened NumericCheck

  function ToOutcome(v: Option<AVal>): Outcome {
    match v case Some(x) => Accept(x) case None => Refuse
  }

  // ----- one expression form at a time -----

  lemma AgreeBoth(p: Program, r: Rule, s: Scope, a: Expr, x: AVal, t: Scope, b: Expr, y: AVal) returns (k: nat)
    requires ScopeOk(s) && ScopeOk(t) && Agrees(p, r, s, a, Accept(x)) && Agrees(p, r, t, b, Accept(y))
    ensures AnalyzeExpr(p, r, s, a, k) == Some(x) && AnalyzeExpr(p, r, t, b, k) == Some(y)
  {
    var i: nat :| AnalyzeExpr(p, r, s, a, i) == Some(x);
    var j: nat :| AnalyzeExpr(p, r, t, b, j) == Some(y);
    if i <= j {
      ExprMono(p, r, s, a, i, j);
      k := j;
    } else {
      ExprMono(p, r, t, b, j, i);
      k := i;
    }
  }

  lemma UnaryAgrees(p: Program, r: Rule, s: Scope, op: UnOp, a: Expr, o: Outcome)
    requires ScopeOk(s) && Agrees(p, r, s, a, o) && !o.Limit?
    ensures Agrees(p, r, s, Unary(op, a), if o.Refuse? then Refuse else ToOutcome(AnalyzeUnary(op, o.v)))
  {
    if o.Accept? {
      var k: nat :| AnalyzeExpr(p, r, s, a, k) == Some(o.v);
      assert AnalyzeExpr(p, r, s, Unary(op, a), k) == AnalyzeUnary(op, o.v);
      UnaryOk(op, o.v);
    }
    forall k: nat
      ensures var v := AnalyzeExpr(p, r, s, Unary(op, a), k); v.Some? ==> o.Accept? && v == AnalyzeUnary(op, o.v)
    {
      var v := AnalyzeExpr(p, r, s, a, k);
      if v.Some? {
        ExprDecided(p, r, s, a, o, k, v.value);
      }
    }
  }

  lemma PrimAnalyzed(p: Program, r: Rule, s: Scope, op: PrimOp, a: Expr, b: Expr, x: AVal, y: AVal, k: nat)
    requires ScopeOk(s) && AnalyzeExpr(p, r, s, a, k) == Some(x) && AnalyzeExpr(p, r, s, b, k) == Some(y)
    ensures AnalyzeExpr(p, r, s, Prim(op, a, b), k) == AnalyzePrim(op, x, y)
  {
  }

  lemma PrimParts(p: Program, r: Rule, s: Scope, op: PrimOp, a: Expr, b: Expr, k: nat)
    requires ScopeOk(s) && AnalyzeExpr(p, r, s, Prim(op, a, b), k).Some?
    ensures AnalyzeExpr(p, r, s, a, k).Some? && AnalyzeExpr(p, r, s, b, k).Some?
  {
  }

  lemma PrimDecided(p: Program, r: Rule, s: Scope, op: PrimOp, a: Expr, b: Expr, x: AVal, y: AVal, k: nat)
    requires ScopeOk(s) && Agrees(p, r, s, a, Accept(x)) && Agrees(p, r, s, b, Accept(y))
    ensures var v := AnalyzeExpr(p, r, s, Prim(op, a, b), k); v.Some? ==> v == AnalyzePrim(op, x, y)
  {
    if AnalyzeExpr(p, r, s, Prim(op, a, b), k).Some? {
      PrimParts(p, r, s, op, a, b, k);
      ExprDecided(p, r, s, a, Accept(x), k, AnalyzeExpr(p, r, s, a, k).value);
      ExprDecided(p, r, s, b, Accept(y), k, AnalyzeExpr(p, r, s, b, k).value);
      PrimAnalyzed(p, r, s, op, a, b, x, y, k);
    }
  }

  lemma PrimAgrees(p: Program, r: Rule, s: Scope, op: PrimOp, a: Expr, b: Expr, x: AVal, y: AVal)
    requires ScopeOk(s) && Agrees(p, r, s, a, Accept(x)) && Agrees(p, r, s, b, Accept(y))
    ensures Agrees(p, r, s, Prim(op, a, b), ToOutcome(AnalyzePrim(op, x, y)))
  {
    var k := AgreeBoth(p, r, s, a, x, s, b, y);
    PrimAnalyzed(p, r, s, op, a, b, x, y, k);
    PrimOk(op, x, y);
    forall k: nat
      ensures var v := AnalyzeExpr(p, r, s, Prim(op, a, b), k); v.Some? ==> v == AnalyzePrim(op, x, y)
    {
      PrimDecided(p, r, s, op, a, b, x, y, k);
    }
  }

  /** A refused operand refuses its operator. */
  lemma OperandRefused(p: Program, r: Rule, s: Scope, e: Expr, c: Expr)
    requires (e.Prim? || e.Binary?) && c in Children(e) && ScopeOk(s) && Agrees(p, r, s, c, Refuse)
    ensures Agrees(p, r, s, e, Refuse)
  {
    forall k: nat
      ensures AnalyzeExpr(p, r, s, e, k).None?
    {
      assert AnalyzeExpr(p, r, s, c, k).None?;
    }
  }

  /** A first operand that is a boolean refuses min and max. */
  lemma PrimNotNumber(p: Program, r: Rule, s: Scope, e: Expr)
    requires e.Prim? && ScopeOk(s) && Agrees(p, r, s, e.arg0, Accept(ABool))
    ensures Agrees(p, r, s, e, Refuse)
  {
    forall k: nat
      ensures AnalyzeExpr(p, r, s, e, k).None?
    {
      var v := AnalyzeExpr(p, r, s, e.arg0, k);
      if v.Some? {
        ExprDecided(p, r, s, e.arg0, Accept(ABool), k, v.value);
      }
    }
  }

  lemma BinaryAnalyzed(p: Program, r: Rule, s: Scope, op: BinOp, a: Expr, b: Expr, x: AVal, y: AVal, k: nat)
    requires ScopeOk(s) && AnalyzeExpr(p, r, s, a, k) == Some(x) && AnalyzeExpr(p, r, s, b, k) == Some(y)
    ensures AnalyzeExpr(p, r, s, Binary(op, a, b), k) == AnalyzeBinary(op, SameScalar(s, a, b), x, y)
  {
  }

  lemma BinaryAgrees(p: Program, r: Rule, s: Scope, op: BinOp, a: Expr, b: Expr, x: AVal, y: AVal)
    requires ScopeOk(s) && Agrees(p, r, s, a, Accept(x)) && Agrees(p, r, s, b, Accept(y))
    ensures Agrees(p, r, s, Binary(op, a, b), ToOutcome(AnalyzeBinary(op, SameScalar(s, a, b), x, y)))
  {
    var k := AgreeBoth(p, r, s, a, x, s, b, y);
    BinaryAnalyzed(p, r, s, op, a, b, x, y, k);
    BinaryOk(op, SameScalar(s, a, b), x, y);
    forall k: nat
      ensures var v := AnalyzeExpr(p, r, s, Binary(op, a, b), k);
        v.Some? ==> v == AnalyzeBinary(op, SameScalar(s, a, b), x, y)
    {
      BinaryDecided(p, r, s, op, a, b, x, y, k);
    }
  }

  lemma BinaryDecided(p: Program, r: Rule, s: Scope, op: BinOp, a: Expr, b: Expr, x: AVal, y: AVal, k: nat)
    requires ScopeOk(s) && Agrees(p, r, s, a, Accept(x)) && Agrees(p, r, s, b, Accept(y))
    ensures var v := AnalyzeExpr(p, r, s, Binary(op, a, b), k);
      v.Some? ==> v == AnalyzeBinary(op, SameScalar(s, a, b), x, y)
  {
    if AnalyzeExpr(p, r, s, Binary(op, a, b), k).Some? {
      BinaryParts(p, r, s, op, a, b, k);
      ExprDecided(p, r, s, a, Accept(x), k, AnalyzeExpr(p, r, s, a, k).value);
      ExprDecided(p, r, s, b, Accept(y), k, AnalyzeExpr(p, r, s, b, k).value);
      BinaryAnalyzed(p, r, s, op, a, b, x, y, k);
    }
  }

  lemma BinaryParts(p: Program, r: Rule, s: Scope, op: BinOp, a: Expr, b: Expr, k: nat)
    requires ScopeOk(s) && AnalyzeExpr(p, r, s, Binary(op, a, b), k).Some?
    ensures AnalyzeExpr(p, r, s, a, k).Some? && AnalyzeExpr(p, r, s, b, k).Some?
  {
  }

  ghost predicate ArmsAgree(p: Program, r: Rule, t: Scope, f: Scope, e: Expr, o: Outcome)
    requires e.If? && ScopeOk(t) && ScopeOk(f)
  {
    match o
    case Accept(v) => ValOk(v) && exists k: nat :: AnalyzeArms(p, r, t, f, e, k) == Some(v)
    case Refuse => forall k: nat :: AnalyzeArms(p, r, t, f, e, k).None?
    case Limit => true
  }

  lemma ArmsBoth(p: Program, r: Rule, t: Scope, f: Scope, e: Expr, x: AVal, y: AVal)
    requires e.If? && ScopeOk(t) && ScopeOk(f)
    requires Agrees(p, r, t, e.yes, Accept(x)) && Agrees(p, r, f, e.no, Accept(y))
    ensures ArmsAgree(p, r, t, f, e, ToOutcome(JoinVals(x, y)))
  {
    JoinOk(x, y);
    var k := AgreeBoth(p, r, t, e.yes, x, f, e.no, y);
    assert AnalyzeArms(p, r, t, f, e, k) == JoinVals(x, y);
    forall k: nat
      ensures var v := AnalyzeArms(p, r, t, f, e, k); v.Some? ==> v == JoinVals(x, y)
    {
      var v, w := AnalyzeExpr(p, r, t, e.yes, k), AnalyzeExpr(p, r, f, e.no, k);
      if v.Some? && w.Some? {
        ExprDecided(p, r, t, e.yes, Accept(x), k, v.value);
        ExprDecided(p, r, f, e.no, Accept(y), k, w.value);
      }
    }
  }

  lemma {:induction false} ArmsMono(p: Program, r: Rule, t: Scope, f: Scope, e: Expr, k: nat, j: nat)
    requires e.If? && ScopeOk(t) && ScopeOk(f) && k <= j && AnalyzeArms(p, r, t, f, e, k).Some?
    ensures AnalyzeArms(p, r, t, f, e, j) == AnalyzeArms(p, r, t, f, e, k)
  {
    ExprMono(p, r, t, e.yes, k, j);
    ExprMono(p, r, f, e.no, k, j);
  }

  /** With a boolean condition, the conditional's outcome is that of its arms. */
  lemma IfAgrees(p: Program, r: Rule, s: Scope, e: Expr, o: Outcome)
    requires e.If? && ScopeOk(s) && ScopeOk(Branch(s, e.cond, true)) && ScopeOk(Branch(s, e.cond, false)) && !o.Limit?
    requires Agrees(p, r, s, e.cond, Accept(ABool)) &&
      ArmsAgree(p, r, Branch(s, e.cond, true), Branch(s, e.cond, false), e, o)
    ensures Agrees(p, r, s, e, o)
  {
    if o.Accept? {
      var t, f := Branch(s, e.cond, true), Branch(s, e.cond, false);
      var i: nat :| AnalyzeExpr(p, r, s, e.cond, i) == Some(ABool);
      var j: nat :| AnalyzeArms(p, r, t, f, e, j) == Some(o.v);
      if i <= j {
        ExprMono(p, r, s, e.cond, i, j);
        assert AnalyzeExpr(p, r, s, e, j) == Some(o.v);
      } else {
        ArmsMono(p, r, t, f, e, j, i);
        assert AnalyzeExpr(p, r, s, e, i) == Some(o.v);
      }
    }
  }

  /** A condition that is not boolean refuses the conditional. */
  lemma IfNotBool(p: Program, r: Rule, s: Scope, q: Expr, a: Expr, b: Expr, o: Outcome)
    requires ScopeOk(s) && Agrees(p, r, s, q, o) && !o.Limit? && o != Accept(ABool)
    ensures Agrees(p, r, s, If(q, a, b), Refuse)
  {
    forall k: nat
      ensures AnalyzeExpr(p, r, s, If(q, a, b), k).None?
    {
      if AnalyzeExpr(p, r, s, If(q, a, b), k).Some? {
        IfParts(p, r, s, q, a, b, k);
        ExprDecided(p, r, s, q, o, k, ABool);
      }
    }
  }

  lemma IfParts(p: Program, r: Rule, s: Scope, q: Expr, a: Expr, b: Expr, k: nat)
    requires ScopeOk(s) && AnalyzeExpr(p, r, s, If(q, a, b), k).Some?
    ensures AnalyzeExpr(p, r, s, q, k) == Some(ABool)
  {
  }

  lemma CallAgrees(p: Program, r: Rule, s: Scope, name: string, args: seq<Expr>, o: Outcome)
    requires ScopeOk(s) && RuleAgrees(p, name, o) && !o.Limit?
    requires name in p.rules && |args| == 1 && IsInput(s, args[0]) && p.rules[name].inputTy == r.inputTy
    ensures Agrees(p, r, s, Call(name, args), o)
  {
    if o.Accept? {
      var k: nat :| AnalyzeRule(p, name, k) == Some(o.v);
      assert AnalyzeExpr(p, r, s, Call(name, args), k + 1) == Some(o.v);
    } else {
      forall k: nat
        ensures AnalyzeExpr(p, r, s, Call(name, args), k).None?
      {
      }
    }
  }

  lemma InputCallNames(e: Expr)
    requires e.Call? && |e.args| == 1 && e.args[0].Ident?
    ensures CallNames(e) == {e.callee}
  {
    assert Children(e) == [e.args[0]];
    assert CallNames(e.args[0]) == {};
  }

  lemma PairCallNames(e: Expr, a: Expr, b: Expr)
    requires (e.Prim? || e.Binary?) && Children(e) == [a, b]
    ensures CallNames(e) == CallNames(a) + CallNames(b)
  {
    assert a in Children(e) && b in Children(e);
  }

  lemma IfCallNames(e: Expr)
    requires e.If?
    ensures CallNames(e) == CallNames(e.cond) + CallNames(e.yes) + CallNames(e.no)
  {
    assert Children(e) == [e.cond, e.yes, e.no];
    assert e.cond in Children(e) && e.yes in Children(e) && e.no in Children(e);
  }

  function LetCalls(bs: seq<Binding>): set<string> {
    set i, n | 0 <= i < |bs| && n in CallNames(bs[i].value) :: n
  }

  lemma LetCallsSnoc(bs: seq<Binding>, i: nat)
    requires i < |bs|
    ensures LetCalls(bs[..i + 1]) == LetCalls(bs[..i]) + CallNames(bs[i].value)
  {
    forall n | n in LetCalls(bs[..i]) + CallNames(bs[i].value)
      ensures n in LetCalls(bs[..i + 1])
    {
      if n in LetCalls(bs[..i]) {
        var j :| 0 <= j < i && n in CallNames(bs[..i][j].value);
        assert bs[..i + 1][j] == bs[..i][j];
      } else {
        assert bs[..i + 1][i] == bs[i];
      }
    }
    forall n | n in LetCalls(bs[..i + 1])
      ensures n in LetCalls(bs[..i]) + CallNames(bs[i].value)
    {
      var j :| 0 <= j < i + 1 && n in CallNames(bs[..i + 1][j].value);
      if j < i { assert bs[..i][j] == bs[..i + 1][j]; }
    }
  }

  lemma PrefixStart(p: Program, name: string)
    requires ShapeOk(p, name)
    ensures ScopeOk(NewScope(p.rules[name], RuleFields(p, name), map[]))
    ensures Prefix(p, p.rules[name], RuleFields(p, name), 0, map[], 0)
  {
  }

  // ----- the object -----

  const STEP_LIMIT: nat := 100_000
  const CALL_LIMIT: nat := 128
  const DEPTH_LIMIT: nat := 256

  /** The expression is at most `levels` deep. */
  ghost predicate Shallow(e: Expr, levels: nat)
    decreases e, 1
  {
    levels > 0 && forall i: nat :: ChildShallow(e, i, levels)
  }

  ghost predicate ChildShallow(e: Expr, i: nat, levels: nat)
    decreases e, 0
  {
    i < |Children(e)| && levels > 0 ==> Shallow(Children(e)[i], levels - 1)
  }

  /** There are fewer rules than calls may nest, and this one is within the depth limit. */
  ghost predicate RuleModest(p: Program, n: string) {
    && |p.rules.Keys| < CALL_LIMIT
    && (n in p.rules ==>
          Shallow(p.rules[n].value, DEPTH_LIMIT) &&
          forall b | b in p.rules[n].bindings :: Shallow(b.value, DEPTH_LIMIT))
  }

  ghost predicate Modest(p: Program) { forall n :: RuleModest(p, n) }

  lemma ShallowChild(e: Expr, c: Expr, levels: nat)
    requires Shallow(e, levels) && c in Children(e)
    ensures levels > 0 && Shallow(c, levels - 1)
  {
    var i: nat :| i < |Children(e)| && Children(e)[i] == c;
    assert ChildShallow(e, i, levels);
  }

  /** Cached rules are accepted by the plain recursion and callee-closed. */
  ghost predicate CacheOk(p: Program, cache: map<string, AVal>) {
    && (forall n | n in cache :: Accepts(p, n, cache[n]))
    && (forall n | n in cache :: n in p.rules && RuleCalls(p.rules[n]) <= cache.Keys)
  }

  lemma CacheGrows(p: Program, cache: map<string, AVal>, name: string, v: AVal)
    requires CacheOk(p, cache) && Accepts(p, name, v) && name in p.rules && RuleCalls(p.rules[name]) <= cache.Keys
    ensures CacheOk(p, cache[name := v])
  {
    var grown := cache[name := v];
    assert cache.Keys <= grown.Keys;
    forall n | n in grown
      ensures Accepts(p, n, grown[n])
    {
      assert n == name || (n in cache && grown[n] == cache[n]);
    }
  }

  ghost predicate AllDepend(p: Program, callers: set<string>, name: string) {
    forall x | x in callers :: Depends(p, x, name)
  }

  lemma NestedCalls(p: Program, visiting: set<string>)
    requires visiting <= p.rules.Keys && |visiting| >= CALL_LIMIT
    ensures !Modest(p)
  {
    assert p.rules.Keys == visiting + (p.rules.Keys - visiting);
    assert !RuleModest(p, "");
  }

  class Check {
    const p: Program
    /** Whether the program is known to be modest. */
    ghost const modest: bool
    var visiting: set<string>
    var cache: map<string, AVal>
    var steps: nat

    ghost predicate Valid()
      reads this
    {
      CacheOk(p, cache) && (modest ==> Modest(p))
    }

    /** Every rule being visited depends on each of these. */
    ghost predicate Awaits(names: set<string>)
      reads this
    {
      forall x, n | x in visiting && n in names :: Depends(p, x, n)
    }

    /** In a modest program the expression is within the depth limit. */
    ghost predicate LevelsLeft(e: Expr, depth: nat) {
      depth <= DEPTH_LIMIT && (modest ==> Shallow(e, DEPTH_LIMIT - depth))
    }

    lemma LevelsLeftChild(e: Expr, c: Expr, depth: nat)
      requires LevelsLeft(e, depth) && depth < DEPTH_LIMIT && c in Children(e)
      ensures LevelsLeft(c, depth + 1)
    {
      if modest {
        ShallowChild(e, c, DEPTH_LIMIT - depth);
      }
    }

    lemma LevelsLeftRule(n: string)
      requires n in p.rules && (modest ==> Modest(p))
      ensures LevelsLeft(p.rules[n].value, 0)
      ensures forall i | 0 <= i < |p.rules[n].bindings| :: LevelsLeft(p.rules[n].bindings[i].value, 0)
    {
      assert modest ==> RuleModest(p, n);
    }

    lemma DepthReached(e: Expr, depth: nat)
      requires LevelsLeft(e, depth) && depth >= DEPTH_LIMIT
      ensures !modest
    {
    }

    constructor (p: Program, ghost modest: bool)
      requires modest ==> Modest(p)
      ensures Valid() && this.p == p && this.modest == modest && visiting == {} && cache == map[] && steps == 0
    {
      this.p := p;
      this.modest := modest;
      visiting := {};
      cache := map[];
      steps := 0;
    }

    /** Any outcome but a work limit is that of the plain recursion, and a limit is
        reported only when one is exceeded; the set of visited rules is restored
        whatever happens, and the memo table only grows. */
    method VisitRule(name: string) returns (o: Outcome)
      requires Valid() && visiting <= p.rules.Keys && Awaits({name})
      modifies this
      ensures Valid() && visiting == old(visiting) && old(cache.Keys) <= cache.Keys && old(steps) <= steps
      ensures RuleAgrees(p, name, o) && (o.Accept? ==> name in cache) && (o.Limit? && modest ==> steps > STEP_LIMIT)
      decreases CALL_LIMIT - |visiting|, 0, 1
    {
      if name in cache {
        return Accept(cache[name]);
      }
      if |visiting| >= CALL_LIMIT {
        NestedCalls(p, visiting);
        return Limit;
      }
      if name in visiting {
        CircularRefused(name);
        return Refuse;
      }
      o := VisitFresh(name);
    }

    method VisitFresh(name: string) returns (o: Outcome)
      requires Valid() && visiting <= p.rules.Keys && Awaits({name})
      requires name !in visiting && |visiting| < CALL_LIMIT
      modifies this
      ensures Valid() && visiting == old(visiting) && old(cache.Keys) <= cache.Keys && old(steps) <= steps
      ensures RuleAgrees(p, name, o) && (o.Accept? ==> name in cache) && (o.Limit? && modest ==> steps > STEP_LIMIT)
      decreases CALL_LIMIT - |visiting|, 0, 0
    {
      ghost var callers := visiting;
      AwaitedBy(callers, name);
      visiting := visiting + {name};
      o := VisitInner(name, callers);
      visiting := visiting - {name};
      assert visiting == callers;
      if o.Accept? {
        CacheGrows(p, cache, name, o.v);
        cache := cache[name := o.v];
      }
    }

    method VisitInner(name: string, ghost callers: set<string>) returns (o: Outcome)
      requires Valid() && |visiting| <= CALL_LIMIT && visiting == callers + {name} && callers <= p.rules.Keys
      requires AllDepend(p, callers, name)
      modifies this
      ensures Valid() && visiting == old(visiting) && old(cache.Keys) <= cache.Keys && old(steps) <= steps
      ensures RuleAgrees(p, name, o) && (o.Limit? && modest ==> steps > STEP_LIMIT)
      ensures o.Accept? ==> name in p.rules && RuleCalls(p.rules[name]) <= cache.Keys
      decreases CALL_LIMIT - |visiting|, 3
    {
      if !ShapeOk(p, name) {
        return Refuse;
      }
      var r := p.rules[name];
      AwaitCalls(callers, name);
      ghost var k: nat;
      var locals;
      o, locals, k := VisitLets(name);
      if !o.Accept? {
        return;
      }
      AwaitSubset(RuleCalls(r), CallNames(r.value));
      LevelsLeftRule(name);
      o := VisitExpr(r.value, r, NewScope(r, RuleFields(p, name), locals), 0);
      ConcludeAgrees(p, name, locals, k, o);
      o := Conclude(r, o);
    }

    /** The let loop of a rule. */
    method VisitLets(name: string) returns (o: Outcome, locals: map<string, AVal>, ghost k: nat)
      requires Valid() && |visiting| <= CALL_LIMIT && visiting <= p.rules.Keys && ShapeOk(p, name) &&
        Awaits(RuleCalls(p.rules[name]))
      modifies this
      ensures Valid() && visiting == old(visiting) && old(cache.Keys) <= cache.Keys && old(steps) <= steps
      ensures o.Accept? ==> ScopeOk(NewScope(p.rules[name], RuleFields(p, name), locals))
      ensures o.Accept? ==> Prefix(p, p.rules[name], RuleFields(p, name), |p.rules[name].bindings|, locals, k)
      ensures o.Accept? ==> LetCalls(p.rules[name].bindings) <= cache.Keys
      ensures (o.Refuse? ==> Rejects(p, name)) && (o.Limit? && modest ==> steps > STEP_LIMIT)
      decreases CALL_LIMIT - |visiting|, 2
    {
      var r, fs := p.rules[name], RuleFields(p, name);
      locals, k, o := map[], 0, Accept(ABool);
      PrefixStart(p, name);
      for i := 0 to |r.bindings|
        invariant Valid() && visiting == old(visiting) && old(cache.Keys) <= cache.Keys && old(steps) <= steps &&
          o.Accept?
        invariant ScopeOk(NewScope(r, fs, locals)) && Prefix(p, r, fs, i, locals, k)
        invariant LetCalls(r.bindings[..i]) <= cache.Keys
      {
        o, locals, k := VisitLet(name, i, locals, k);
        if !o.Accept? {
          return;
        }
        LetCallsSnoc(r.bindings, i);
      }
      assert r.bindings[..|r.bindings|] == r.bindings;
    }

    method VisitLet(name: string, i: nat, locals: map<string, AVal>, ghost k: nat)
      returns (o: Outcome, locals': map<string, AVal>, ghost k': nat)
      requires Valid() && |visiting| <= CALL_LIMIT && visiting <= p.rules.Keys && ShapeOk(p, name) &&
        Awaits(RuleCalls(p.rules[name]))
      requires i < |p.rules[name].bindings| && ScopeOk(NewScope(p.rules[name], RuleFields(p, name), locals))
      requires Prefix(p, p.rules[name], RuleFields(p, name), i, locals, k)
      modifies this
      ensures Valid() && visiting == old(visiting) && old(cache.Keys) <= cache.Keys && old(steps) <= steps
      ensures o.Accept? ==> ScopeOk(NewScope(p.rules[name], RuleFields(p, name), locals'))
      ensures o.Accept? ==> Prefix(p, p.rules[name], RuleFields(p, name), i + 1, locals', k')
      ensures o.Accept? ==> CallNames(p.rules[name].bindings[i].value) <= cache.Keys
      ensures (o.Refuse? ==> Rejects(p, name)) && (o.Limit? && modest ==> steps > STEP_LIMIT)
      decreases CALL_LIMIT - |visiting|, 1, p.rules[name].bindings[i].value, 3
    {
      var r, fs := p.rules[name], RuleFields(p, name);
      locals', k' := locals, k;
      AwaitSubset(RuleCalls(r), CallNames(r.bindings[i].value));
      LevelsLeftRule(name);
      o := VisitExpr(r.bindings[i].value, r, NewScope(r, fs, locals), 0);
      if o.Refuse? {
        RefusedLet(p, name, i, locals, k);
      } else if o.Accept? {
        k' := PrefixGrows(p, r, fs, i, locals, k, o.v);
        locals' := locals[r.bindings[i].name := o.v];
      }
    }

    method VisitExpr(e: Expr, r: Rule, s: Scope, depth: nat) returns (o: Outcome)
      requires Valid() && |visiting| <= CALL_LIMIT && visiting <= p.rules.Keys && ScopeOk(s) && Awaits(CallNames(e))
      requires LevelsLeft(e, depth)
      modifies this
      ensures Valid() && visiting == old(visiting) && old(cache.Keys) <= cache.Keys && old(steps) <= steps
      ensures Agrees(p, r, s, e, o) && (o.Accept? ==> CallNames(e) <= cache.Keys) &&
        (o.Limit? && modest ==> steps > STEP_LIMIT)
      decreases CALL_LIMIT - |visiting|, 1, e, 2
    {
      steps := steps + 1;
      if steps > STEP_LIMIT {
        return Limit;
      }
      if depth >= DEPTH_LIMIT {
        DepthReached(e, depth);
        return Limit;
      }
      match e
      case Number(n) =>
        o := Accept(ANum(Single(n, n)));
        assert AnalyzeExpr(p, r, s, e, 0) == Some(o.v);
      case Ident(n) =>
        o := ToOutcome(Local(s, n));
        assert AnalyzeExpr(p, r, s, e, 0) == Local(s, n);
      case Field(b, name) =>
        o := VisitField(e, r, s);
      case If(q, a, b) =>
        o := VisitIf(e, r, s, depth);
      case Unary(op, a) =>
        o := VisitUnary(e, r, s, depth);
      case Prim(op, a, b) =>
        o := VisitPrim(e, r, s, depth);
      case Binary(op, a, b) =>
        o := VisitBinary(e, r, s, depth);
      case Call(name, args) =>
        o := VisitCall(e, r, s);
      case _ =>
        o := Refuse;
    }

    method VisitField(e: Expr, r: Rule, s: Scope) returns (o: Outcome)
      requires e.Field? && ScopeOk(s)
      ensures Agrees(p, r, s, e, o) && (o.Accept? ==> CallNames(e) == {}) && !o.Limit?
    {
      if !IsInput(s, e.base) {
        return Refuse;
      }
      var f := FindField(s.fields, e.field);
      var v := if f.Some? && f.value.ty.TNumber? then Lift(FieldDomain(s, e.field)) else None;
      assert forall k: nat :: AnalyzeExpr(p, r, s, e, k) == v;
      assert AnalyzeExpr(p, r, s, e, 0) == v;
      o := ToOutcome(v);
    }

    /** An unsupported builtin is refused before its operand is visited. */
    method VisitUnary(e: Expr, r: Rule, s: Scope, depth: nat) returns (o: Outcome)
      requires e.Unary? && Valid() && |visiting| <= CALL_LIMIT && visiting <= p.rules.Keys && ScopeOk(s) &&
        Awaits(CallNames(e))
      requires depth < DEPTH_LIMIT && LevelsLeft(e, depth)
      modifies this
      ensures Valid() && visiting == old(visiting) && old(cache.Keys) <= cache.Keys && old(steps) <= steps
      ensures Agrees(p, r, s, e, o) && (o.Accept? ==> CallNames(e) <= cache.Keys) &&
        (o.Limit? && modest ==> steps > STEP_LIMIT)
      ensures e.uop !in {Not, Neg, Abs} ==> o.Refuse? && steps == old(steps) && cache == old(cache)
      decreases CALL_LIMIT - |visiting|, 1, e, 0
    {
      if e.uop !in {Not, Neg, Abs} {
        return Refuse;
      }
      AwaitChild(e, e.arg);
      LevelsLeftChild(e, e.arg, depth);
      o := VisitExpr(e.arg, r, s, depth + 1);
      if !o.Limit? {
        UnaryAgrees(p, r, s, e.uop, e.arg, o);
        o := if o.Refuse? then Refuse else ToOutcome(AnalyzeUnary(e.uop, o.v));
      }
    }

    method VisitPrim(e: Expr, r: Rule, s: Scope, depth: nat) returns (o: Outcome)
      requires e.Prim? && Valid() && |visiting| <= CALL_LIMIT && visiting <= p.rules.Keys && ScopeOk(s) &&
        Awaits(CallNames(e))
      requires depth < DEPTH_LIMIT && LevelsLeft(e, depth)
      modifies this
      ensures Valid() && visiting == old(visiting) && old(cache.Keys) <= cache.Keys && old(steps) <= steps
      ensures Agrees(p, r, s, e, o) && (o.Accept? ==> CallNames(e) <= cache.Keys) &&
        (o.Limit? && modest ==> steps > STEP_LIMIT)
      ensures e.pop !in {MinOp, MaxOp} ==> o.Refuse? && steps == old(steps) && cache == old(cache)
      decreases CALL_LIMIT - |visiting|, 1, e, 1
    {
      if e.pop !in {MinOp, MaxOp} {
        return Refuse;
      }
      o := VisitMinMax(e, r, s, depth);
    }

    /** The first operand must be a number before the second is visited. */
    method VisitMinMax(e: Expr, r: Rule, s: Scope, depth: nat) returns (o: Outcome)
      requires e.Prim? && Valid() && |visiting| <= CALL_LIMIT && visiting <= p.rules.Keys && ScopeOk(s) &&
        Awaits(CallNames(e))
      requires depth < DEPTH_LIMIT && LevelsLeft(e, depth)
      modifies this
      ensures Valid() && visiting == old(visiting) && old(cache.Keys) <= cache.Keys && old(steps) <= steps
      ensures Agrees(p, r, s, e, o) && (o.Accept? ==> CallNames(e) <= cache.Keys) &&
        (o.Limit? && modest ==> steps > STEP_LIMIT)
      decreases CALL_LIMIT - |visiting|, 1, e, 0
    {
      PairCallNames(e, e.arg0, e.arg1);
      AwaitSubset(CallNames(e), CallNames(e.arg0));
      AwaitSubset(CallNames(e), CallNames(e.arg1));
      LevelsLeftChild(e, e.arg0, depth);
      LevelsLeftChild(e, e.arg1, depth);
      var x := VisitExpr(e.arg0, r, s, depth + 1);
      if !x.Accept? {
        if x.Refuse? { OperandRefused(p, r, s, e, e.arg0); }
        return x;
      }
      if x.v.ABool? {
        PrimNotNumber(p, r, s, e);
        return Refuse;
      }
      var y := VisitExpr(e.arg1, r, s, depth + 1);
      if !y.Accept? {
        if y.Refuse? { OperandRefused(p, r, s, e, e.arg1); }
        return y;
      }
      PrimAgrees(p, r, s, e.pop, e.arg0, e.arg1, x.v, y.v);
      o := ToOutcome(AnalyzePrim(e.pop, x.v, y.v));
    }

    method VisitBinary(e: Expr, r: Rule, s: Scope, depth: nat) returns (o: Outcome)
      requires e.Binary? && Valid() && |visiting| <= CALL_LIMIT && visiting <= p.rules.Keys && ScopeOk(s) &&
        Awaits(CallNames(e))
      requires depth < DEPTH_LIMIT && LevelsLeft(e, depth)
      modifies this
      ensures Valid() && visiting == old(visiting) && old(cache.Keys) <= cache.Keys && old(steps) <= steps
      ensures Agrees(p, r, s, e, o) && (o.Accept? ==> CallNames(e) <= cache.Keys) &&
        (o.Limit? && modest ==> steps > STEP_LIMIT)
      decreases CALL_LIMIT - |visiting|, 1, e, 0
    {
      var a, b := e.left, e.right;
      PairCallNames(e, a, b);
      AwaitSubset(CallNames(e), CallNames(a));
      AwaitSubset(CallNames(e), CallNames(b));
      LevelsLeftChild(e, a, depth);
      LevelsLeftChild(e, b, depth);
      var x := VisitExpr(a, r, s, depth + 1);
      if !x.Accept? {
        if x.Refuse? { OperandRefused(p, r, s, e, a); }
        return x;
      }
      var y := VisitExpr(b, r, s, depth + 1);
      if !y.Accept? {
        if y.Refuse? { OperandRefused(p, r, s, e, b); }
        return y;
      }
      BinaryAgrees(p, r, s, e.op, a, b, x.v, y.v);
      o := ToOutcome(AnalyzeBinary(e.op, SameScalar(s, a, b), x.v, y.v));
    }

    method VisitIf(e: Expr, r: Rule, s: Scope, depth: nat) returns (o: Outcome)
      requires e.If? && Valid() && |visiting| <= CALL_LIMIT && visiting <= p.rules.Keys && ScopeOk(s) &&
        Awaits(CallNames(e))
      requires depth < DEPTH_LIMIT && LevelsLeft(e, depth)
      modifies this
      ensures Valid() && visiting == old(visiting) && old(cache.Keys) <= cache.Keys && old(steps) <= steps
      ensures Agrees(p, r, s, e, o) && (o.Accept? ==> CallNames(e) <= cache.Keys) &&
        (o.Limit? && modest ==> steps > STEP_LIMIT)
      decreases CALL_LIMIT - |visiting|, 1, e, 1
    {
      IfCallNames(e);
      AwaitSubset(CallNames(e), CallNames(e.cond));
      AwaitSubset(CallNames(e), CallNames(e.yes));
      AwaitSubset(CallNames(e), CallNames(e.no));
      LevelsLeftChild(e, e.cond, depth);
      AssumeOk(s, e.cond, true);
      AssumeOk(s, e.cond, false);
      o := VisitExpr(e.cond, r, s, depth + 1);
      if o.Limit? {
        return;
      }
      if o != Accept(ABool) {
        IfNotBool(p, r, s, e.cond, e.yes, e.no, o);
        return Refuse;
      }
      o := VisitArms(e, r, Branch(s, e.cond, true), Branch(s, e.cond, false), depth);
      if !o.Limit? {
        IfAgrees(p, r, s, e, o);
      }
    }

    method VisitArms(e: Expr, r: Rule, t: Scope, f: Scope, depth: nat) returns (o: Outcome)
      requires e.If? && Valid() && |visiting| <= CALL_LIMIT && visiting <= p.rules.Keys && ScopeOk(t) && ScopeOk(f)
      requires Awaits(CallNames(e.yes)) && Awaits(CallNames(e.no))
      requires depth < DEPTH_LIMIT && LevelsLeft(e, depth)
      modifies this
      ensures Valid() && visiting == old(visiting) && old(cache.Keys) <= cache.Keys && old(steps) <= steps
      ensures ArmsAgree(p, r, t, f, e, o) && (o.Accept? ==> CallNames(e.yes) + CallNames(e.no) <= cache.Keys)
      ensures o.Limit? && modest ==> steps > STEP_LIMIT
      decreases CALL_LIMIT - |visiting|, 1, e, 0
    {
      LevelsLeftChild(e, e.yes, depth);
      LevelsLeftChild(e, e.no, depth);
      var x := VisitExpr(e.yes, r, t, depth + 1);
      if !x.Accept? {
        return x;
      }
      var y := VisitExpr(e.no, r, f, depth + 1);
      if !y.Accept? {
        return y;
      }
      ArmsBoth(p, r, t, f, e, x.v, y.v);
      o := ToOutcome(JoinVals(x.v, y.v));
    }

    method VisitCall(e: Expr, r: Rule, s: Scope) returns (o: Outcome)
      requires e.Call? && Valid() && |visiting| <= CALL_LIMIT && visiting <= p.rules.Keys && ScopeOk(s) &&
        Awaits(CallNames(e))
      modifies this
      ensures Valid() && visiting == old(visiting) && old(cache.Keys) <= cache.Keys && old(steps) <= steps
      ensures Agrees(p, r, s, e, o) && (o.Accept? ==> CallNames(e) <= cache.Keys) &&
        (o.Limit? && modest ==> steps > STEP_LIMIT)
      decreases CALL_LIMIT - |visiting|, 1, e, 0
    {
      var name, args := e.callee, e.args;
      if name !in p.rules || |args| != 1 || !IsInput(s, args[0]) || p.rules[name].inputTy != r.inputTy {
        return Refuse;
      }
      AwaitSubset(CallNames(e), {name});
      o := VisitRule(name);
      InputCallNames(e);
      if !o.Limit? {
        CallAgrees(p, r, s, name, args, o);
      }
    }

    lemma CircularRefused(name: string)
      requires name in visiting && Awaits({name})
      ensures RuleAgrees(p, name, Refuse)
    {
      assert Depends(p, name, name);
      forall k: nat { CircularRejected(p, name, k); }
    }

    lemma AwaitedBy(callers: set<string>, name: string)
      requires callers == visiting && Awaits({name})
      ensures AllDepend(p, callers, name)
    {
    }

    lemma AwaitCalls(callers: set<string>, name: string)
      requires name in p.rules && visiting == callers + {name} && AllDepend(p, callers, name)
      ensures Awaits(RuleCalls(p.rules[name]))
    {
      forall x, n | x in visiting && n in RuleCalls(p.rules[name])
        ensures Depends(p, x, n)
      {
        RuleDepends(p, name, n);
        if x != name {
          DependsTransitive(p, x, name, n);
        }
      }
    }

    lemma AwaitSubset(a: set<string>, b: set<string>)
      requires Awaits(a) && b <= a
      ensures Awaits(b)
    {
    }

    lemma AwaitChild(e: Expr, a: Expr)
      requires Awaits(CallNames(e)) && a in Children(e)
      ensures Awaits(CallNames(a))
    {
    }
  }

  /** Checks every participating rule with one object: an acceptance or refusal
      is that of the plain recursion, whatever was analysed before it. A work
      limit is reported only by a program that exceeds one. */
  method VerifyRules(p: Program, active: set<string>) returns (verdicts: map<string, Outcome>, steps: nat)
    ensures verdicts.Keys == active && forall n | n in verdicts :: RuleAgrees(p, n, verdicts[n])
    ensures forall n | n in verdicts :: verdicts[n].Limit? && Modest(p) ==> steps > STEP_LIMIT
  {
    ghost var modest := Modest(p);
    var check := new Check(p, modest);
    verdicts := map[];
    var todo := active;
    while todo != {}
      invariant check.Valid() && check.p == p && check.modest == modest && check.visiting == {} && fresh(check)
      invariant todo <= active && verdicts.Keys == active - todo
      invariant forall n | n in verdicts :: RuleAgrees(p, n, verdicts[n])
      invariant forall n | n in verdicts :: verdicts[n].Limit? && modest ==> check.steps > STEP_LIMIT
      decreases |todo|
    {
      var n :| n in todo;
      var o := check.VisitRule(n);
      verdicts := verdicts[n := o];
      todo := todo - {n};
    }
    steps := check.steps;
  }
}
