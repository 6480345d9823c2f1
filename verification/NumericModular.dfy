/** Callers rely on the declared contract alone: rewriting the body of an
    accepted rule that declares its range changes no outcome anywhere else. */
module NumericModular {
  import opened Int64
  import opened Ast
  import opened Interp
  import opened IntervalArith
  import opened Ranges
  import opened NumericBounds
  import opened NumericCheck

  /** The two programs differ at most in the lets and the output of `g`. */
  predicate BodyReplaced(p: Program, q: Program, g: string) {
    && p.concepts == q.concepts && p.rules.Keys == q.rules.Keys && g in p.rules
    && (forall n | n in p.rules && n != g :: p.rules[n] == q.rules[n])
    && q.rules[g] == p.rules[g].(bindings := q.rules[g].bindings, value := q.rules[g].value)
  }

  /** What an accepted rule that declares its range tells its callers. */
  lemma DeclaredSummary(p: Program, g: string, k: nat)
    requires AnalyzeRule(p, g, k).Some? && p.rules[g].overflow.Some?
    ensures AnalyzeRule(p, g, k).value == ANum(Single(p.rules[g].overflow.value.0, p.rules[g].overflow.value.1))
  {
  }

  /** `g` is accepted in both programs, in `q` with the budget `j`. */
  predicate Swapped(p: Program, q: Program, g: string, j: nat) {
    BodyReplaced(p, q, g) && p.rules[g].overflow.Some? && AnalyzeRule(q, g, j).Some?
  }

  lemma {:induction false} ExprCarries(p: Program, q: Program, g: string, j: nat, r: Rule, s: Scope, e: Expr, k: nat)
    requires Swapped(p, q, g, j) && ScopeOk(s) && AnalyzeExpr(p, r, s, e, k).Some?
    ensures AnalyzeExpr(q, r, s, e, k + j) == AnalyzeExpr(p, r, s, e, k)
    decreases k, 0, e, 1
  {
    match e
    case Unary(_, a) => ExprCarries(p, q, g, j, r, s, a, k);
    case Prim(_, _, _) => PairCarries(p, q, g, j, r, s, e, k);
    case Binary(_, _, _) => PairCarries(p, q, g, j, r, s, e, k);
    case If(_, _, _) => IfCarries(p, q, g, j, r, s, e, k);
    case Call(_, _) => CallCarries(p, q, g, j, r, s, e, k);
    case _ =>
  }

  lemma {:induction false} CallCarries(p: Program, q: Program, g: string, j: nat, r: Rule, s: Scope, e: Expr, k: nat)
    requires Swapped(p, q, g, j) && ScopeOk(s) && e.Call? && AnalyzeExpr(p, r, s, e, k).Some?
    ensures AnalyzeExpr(q, r, s, e, k + j) == AnalyzeExpr(p, r, s, e, k)
    decreases k, 0, e, 0
  {
    RuleCarries(p, q, g, j, e.callee, k - 1);
    assert q.rules[e.callee].inputTy == p.rules[e.callee].inputTy;
  }

  lemma {:induction false} PairCarries(p: Program, q: Program, g: string, j: nat, r: Rule, s: Scope, e: Expr, k: nat)
    requires Swapped(p, q, g, j) && ScopeOk(s) && (e.Prim? || e.Binary?) && AnalyzeExpr(p, r, s, e, k).Some?
    ensures AnalyzeExpr(q, r, s, e, k + j) == AnalyzeExpr(p, r, s, e, k)
    decreases k, 0, e, 0
  {
    if e.Prim? {
      ExprCarries(p, q, g, j, r, s, e.arg0, k);
      ExprCarries(p, q, g, j, r, s, e.arg1, k);
    } else {
      ExprCarries(p, q, g, j, r, s, e.left, k);
      ExprCarries(p, q, g, j, r, s, e.right, k);
    }
  }

  lemma {:induction false} IfCarries(p: Program, q: Program, g: string, j: nat, r: Rule, s: Scope, e: Expr, k: nat)
    requires Swapped(p, q, g, j) && ScopeOk(s) && e.If? && AnalyzeExpr(p, r, s, e, k).Some?
    ensures AnalyzeExpr(q, r, s, e, k + j) == AnalyzeExpr(p, r, s, e, k)
    decreases k, 0, e, 0
  {
    ExprCarries(p, q, g, j, r, s, e.cond, k);
    AssumeOk(s, e.cond, true);
    AssumeOk(s, e.cond, false);
    ExprCarries(p, q, g, j, r, Branch(s, e.cond, true), e.yes, k);
    ExprCarries(p, q, g, j, r, Branch(s, e.cond, false), e.no, k);
  }

  lemma {:induction false} LetsCarry(p: Program, q: Program, g: string, j: nat, r: Rule, fs: seq<FieldDecl>,
      bs: seq<Binding>, locals: map<string, AVal>, k: nat)
    requires Swapped(p, q, g, j) && ScopeOk(NewScope(r, fs, locals)) && AnalyzeLets(p, r, fs, bs, locals, k).Some?
    ensures AnalyzeLets(q, r, fs, bs, locals, k + j) == AnalyzeLets(p, r, fs, bs, locals, k)
    decreases k, 1, |bs|
  {
    if bs != [] {
      var s := NewScope(r, fs, locals);
      ExprCarries(p, q, g, j, r, s, bs[0].value, k);
      LetsCarry(p, q, g, j, r, fs, bs[1..], locals[bs[0].name := AnalyzeExpr(p, r, s, bs[0].value, k).value], k);
    }
  }

  lemma {:induction false} RuleCarries(p: Program, q: Program, g: string, j: nat, name: string, k: nat)
    requires Swapped(p, q, g, j) && AnalyzeRule(p, name, k).Some?
    ensures AnalyzeRule(q, name, k + j) == AnalyzeRule(p, name, k)
    decreases k, 2
  {
    if name == g {
      DeclaredSummary(p, g, k);
      DeclaredSummary(q, g, j);
      RuleMono(q, g, j, k + j);
    } else {
      var r := p.rules[name];
      var fs := p.concepts[r.inputTy.concept].fields;
      LetsCarry(p, q, g, j, r, fs, r.bindings, map[], k);
      ExprCarries(p, q, g, j, r, NewScope(r, fs, AnalyzeLets(p, r, fs, r.bindings, map[], k).value), r.value, k);
    }
  }

  /** Modularity: every rule of the program, `g` and its direct and indirect
      callers included, is accepted with the same summary, or refused, in both. */
  lemma CallersUnaffected(p: Program, q: Program, g: string, name: string, v: AVal)
    requires BodyReplaced(p, q, g) && p.rules[g].overflow.Some?
    requires !Rejects(p, g) && !Rejects(q, g)
    ensures Accepts(p, name, v) <==> Accepts(q, name, v)
    ensures Rejects(p, name) <==> Rejects(q, name)
  {
    assert BodyReplaced(q, p, g);
    AcceptanceCarries(p, q, g, name);
    AcceptanceCarries(q, p, g, name);
  }

  lemma AcceptanceCarries(p: Program, q: Program, g: string, name: string)
    requires BodyReplaced(p, q, g) && p.rules[g].overflow.Some? && !Rejects(q, g)
    ensures forall v | Accepts(p, name, v) :: Accepts(q, name, v)
    ensures Rejects(q, name) ==> Rejects(p, name)
  {
    var j: nat :| AnalyzeRule(q, g, j).Some?;
    forall k: nat | AnalyzeRule(p, name, k).Some?
      ensures AnalyzeRule(q, name, k + j) == AnalyzeRule(p, name, k)
    {
      RuleCarries(p, q, g, j, name, k);
    }
  }
}
