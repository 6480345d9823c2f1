/** The checker object: a memo table and a set of rules being visited, proved
    to agree with the plain recursion of `AnalyzeRule` whatever was analysed
    before and in whatever order. */
module NumericCheck {
  import opened Int64
  import opened Ast
  import opened Interp
  import opened IntervalArith
  import opened Ranges
  import opened NumericBounds
  import opened NumericSound

  // ----- plain recursion does not depend on its call budget -----

  lemma {:induction false} ExprMono(p: Program, r: Rule, s: Scope, e: Expr, k: nat, j: nat)
    requires ScopeOk(s) && k <= j && AnalyzeExpr(p, r, s, e, k).Some?
    ensures AnalyzeExpr(p, r, s, e, j) == AnalyzeExpr(p, r, s, e, k)
    decreases k, 0, e
  {
    match e
    case Unary(_, a) => ExprMono(p, r, s, a, k, j);
    case Prim(_, a, b) => ExprMono(p, r, s, a, k, j); ExprMono(p, r, s, b, k, j);
    case Binary(_, a, b) => ExprMono(p, r, s, a, k, j); ExprMono(p, r, s, b, k, j);
    case If(q, a, b) =>
      ExprMono(p, r, s, q, k, j);
      AssumeOk(s, q, true);
      AssumeOk(s, q, false);
      ExprMono(p, r, Branch(s, q, true), a, k, j);
      ExprMono(p, r, Branch(s, q, false), b, k, j);
    case Call(name, _) => RuleMono(p, name, k - 1, j - 1);
    case _ =>
  }

  lemma {:induction false} LetsMono(p: Program, r: Rule, fs: seq<FieldDecl>, bs: seq<Binding>,
      locals: map<string, AVal>, k: nat, j: nat)
    requires ScopeOk(NewScope(r, fs, locals)) && k <= j && AnalyzeLets(p, r, fs, bs, locals, k).Some?
    ensures AnalyzeLets(p, r, fs, bs, locals, j) == AnalyzeLets(p, r, fs, bs, locals, k)
    decreases k, 1, |bs|
  {
    if bs != [] {
      var s := NewScope(r, fs, locals);
      ExprMono(p, r, s, bs[0].value, k, j);
      LetsMono(p, r, fs, bs[1..], locals[bs[0].name := AnalyzeExpr(p, r, s, bs[0].value, k).value], k, j);
    }
  }

  lemma {:induction false} RuleMono(p: Program, name: string, k: nat, j: nat)
    requires k <= j && AnalyzeRule(p, name, k).Some?
    ensures AnalyzeRule(p, name, j) == AnalyzeRule(p, name, k)
    decreases k, 2
  {
    var r := p.rules[name];
    var fs := p.concepts[r.inputTy.concept].fields;
    LetsMono(p, r, fs, r.bindings, map[], k, j);
    var locals := AnalyzeLets(p, r, fs, r.bindings, map[], k).value;
    ExprMono(p, r, NewScope(r, fs, locals), r.value, k, j);
  }

  ghost predicate Accepts(p: Program, name: string, v: AVal) { exists k: nat :: AnalyzeRule(p, name, k) == Some(v) }

  ghost predicate Rejects(p: Program, name: string) { forall k: nat :: AnalyzeRule(p, name, k).None? }

  /** Whole-program soundness: a rule the checker accepts, entered with any
      value whatsoever, either refuses it at its own entry guard or returns a
      scalar inside its declared range; no fault occurs and no budget runs out. */
  lemma OverflowSoundness(c: Ctx, name: string, a: AVal, v: Value) returns (k: nat)
    requires Source(c.sem) && TextMaxDeclared(c.prog) && name in c.guarded
    requires (forall n | n in c.prog.rules :: c.prog.rules[n].name == n) && Accepts(c.prog, name, a)
    ensures name in c.prog.rules
    ensures forall j: nat | j >= k ::
      var r, w := c.prog.rules[name], EvalRule(c, c.prog.rules[name], v, j);
      if !EntryGuard(c.prog.concepts, r, v) then w == Bad(Refused)
      else w.Good? && InVal(w.value, a) &&
           (r.overflow.Some? ==> w.value.VNumber? && r.overflow.value.0 <= w.value.n <= r.overflow.value.1)
  {
    k :| AnalyzeRule(c.prog, name, k) == Some(a);
    var r := c.prog.rules[name];
    forall j: nat | j >= k && EntryGuard(c.prog.concepts, r, v)
      ensures var w := EvalRule(c, r, v, j); w.Good? && InVal(w.value, a)
    {
      RuleMono(c.prog, name, k, j);
      RuleSound(c, name, v, j);
    }
  }

  // ----- dependence -----

  ghost predicate DependsAt(p: Program, x: string, n: string, k: nat) {
    AnalyzeRule(p, x, k).Some? ==> exists j: nat :: j < k && AnalyzeRule(p, n, j).Some?
  }

  /** Every acceptance of x rests on an earlier acceptance of n. */
  ghost predicate Depends(p: Program, x: string, n: string) { forall k: nat :: DependsAt(p, x, n, k) }

  lemma DependsTransitive(p: Program, x: string, y: string, z: string)
    requires Depends(p, x, y) && Depends(p, y, z)
    ensures Depends(p, x, z)
  {
    forall k: nat
      ensures DependsAt(p, x, z, k)
    {
      assert DependsAt(p, x, y, k);
      if AnalyzeRule(p, x, k).Some? {
        var j: nat :| j < k && AnalyzeRule(p, y, j).Some?;
        assert DependsAt(p, y, z, j);
      }
    }
  }

  /** A rule that depends on itself is never accepted. */
  lemma {:induction false} CircularRejected(p: Program, x: string, k: nat)
    requires Depends(p, x, x)
    ensures AnalyzeRule(p, x, k).None?
  {
    assert DependsAt(p, x, x, k);
    if AnalyzeRule(p, x, k).Some? {
      var j: nat :| j < k && AnalyzeRule(p, x, j).Some?;
      CircularRejected(p, x, j);
    }
  }

  /** An accepted expression calls only rules accepted with a smaller budget. */
  lemma {:induction false} ExprCalls(p: Program, r: Rule, s: Scope, e: Expr, k: nat, n: string)
    requires ScopeOk(s) && AnalyzeExpr(p, r, s, e, k).Some? && n in CallNames(e)
    ensures k > 0 && AnalyzeRule(p, n, k - 1).Some?
    decreases e, 1
  {
    if e.Call? && n == e.callee {
    } else {
      var c :| c in Children(e) && n in CallNames(c);
      if e.If? {
        IfCalls(p, r, s, e, k, n, c);
      } else {
        ChildAccepted(p, r, s, e, k, c, n);
        ExprCalls(p, r, s, c, k, n);
      }
    }
  }

  /** The part of an accepted expression that makes a call is accepted. */
  lemma ChildAccepted(p: Program, r: Rule, s: Scope, e: Expr, k: nat, c: Expr, n: string)
    requires ScopeOk(s) && AnalyzeExpr(p, r, s, e, k).Some? && !e.If? && c in Children(e) && n in CallNames(c)
    ensures AnalyzeExpr(p, r, s, c, k).Some?
  {
  }

  lemma {:induction false} IfCalls(p: Program, r: Rule, s: Scope, e: Expr, k: nat, n: string, c: Expr)
    requires e.If? && ScopeOk(s) && AnalyzeExpr(p, r, s, e, k).Some? && c in Children(e) && n in CallNames(c)
    ensures k > 0 && AnalyzeRule(p, n, k - 1).Some?
    decreases e, 0
  {
    AssumeOk(s, e.cond, true);
    AssumeOk(s, e.cond, false);
    var s' := if c == e.cond then s else if c == e.yes then Branch(s, e.cond, true) else Branch(s, e.cond, false);
    ExprCalls(p, r, s', c, k, n);
  }

  lemma {:induction false} LetsCalls(p: Program, r: Rule, fs: seq<FieldDecl>, bs: seq<Binding>,
      locals: map<string, AVal>, k: nat, i: nat, n: string)
    requires ScopeOk(NewScope(r, fs, locals)) && AnalyzeLets(p, r, fs, bs, locals, k).Some?
    requires i < |bs| && n in CallNames(bs[i].value)
    ensures k > 0 && AnalyzeRule(p, n, k - 1).Some?
    decreases |bs|
  {
    var s := NewScope(r, fs, locals);
    if i == 0 {
      ExprCalls(p, r, s, bs[0].value, k, n);
    } else {
      LetsCalls(p, r, fs, bs[1..], locals[bs[0].name := AnalyzeExpr(p, r, s, bs[0].value, k).value], k, i - 1, n);
    }
  }

  /** The rank of an accepted rule exceeds that of every rule it calls. */
  lemma RuleRank(p: Program, name: string, k: nat, n: string)
    requires AnalyzeRule(p, name, k).Some? && n in RuleCalls(p.rules[name])
    ensures k > 0 && AnalyzeRule(p, n, k - 1).Some?
  {
    var r := p.rules[name];
    var fs := p.concepts[r.inputTy.concept].fields;
    if n in CallNames(r.value) {
      ExprCalls(p, r, NewScope(r, fs, AnalyzeLets(p, r, fs, r.bindings, map[], k).value), r.value, k, n);
    } else {
      var i :| 0 <= i < |r.bindings| && n in CallNames(r.bindings[i].value);
      LetsCalls(p, r, fs, r.bindings, map[], k, i, n);
    }
  }

  lemma RuleDepends(p: Program, name: string, n: string)
    requires name in p.rules && n in RuleCalls(p.rules[name])
    ensures Depends(p, name, n)
  {
    forall k: nat
      ensures DependsAt(p, name, n, k)
    {
      if AnalyzeRule(p, name, k).Some? {
        RuleRank(p, name, k, n);
      }
    }
  }

  // ----- lets one at a time -----

  lemma {:induction false} LetsAppend(p: Program, r: Rule, fs: seq<FieldDecl>, bs: seq<Binding>, cs: seq<Binding>,
      locals: map<string, AVal>, k: nat)
    requires ScopeOk(NewScope(r, fs, locals))
    ensures AnalyzeLets(p, r, fs, bs + cs, locals, k) ==
            (match AnalyzeLets(p, r, fs, bs, locals, k)
             case None => None
             case Some(m) => AnalyzeLets(p, r, fs, cs, m, k))
    decreases |bs|
  {
    if bs == [] {
      assert bs + cs == cs;
    } else {
      assert (bs + cs)[1..] == bs[1..] + cs;
      var v := AnalyzeExpr(p, r, NewScope(r, fs, locals), bs[0].value, k);
      if v.Some? {
        LetsAppend(p, r, fs, bs[1..], cs, locals[bs[0].name := v.value], k);
      }
    }
  }

  /** The first `i` lets are accepted, giving `locals`. */
  ghost predicate Prefix(p: Program, r: Rule, fs: seq<FieldDecl>, i: nat, locals: map<string, AVal>, k: nat)
    requires i <= |r.bindings|
  {
    ScopeOk(NewScope(r, fs, map[])) && AnalyzeLets(p, r, fs, r.bindings[..i], map[], k) == Some(locals)
  }

  /** Whatever the budget, acceptance of all lets passes through `locals`. */
  lemma PrefixUnique(p: Program, r: Rule, fs: seq<FieldDecl>, i: nat, locals: map<string, AVal>, k: nat, j: nat)
    requires i <= |r.bindings| && Prefix(p, r, fs, i, locals, k) && AnalyzeLets(p, r, fs, r.bindings, map[], j).Some?
    ensures AnalyzeLets(p, r, fs, r.bindings, map[], j) == AnalyzeLets(p, r, fs, r.bindings[i..], locals, j)
  {
    var head, tail := r.bindings[..i], r.bindings[i..];
    assert r.bindings == head + tail;
    LetsAppend(p, r, fs, head, tail, map[], j);
    LetsMono(p, r, fs, head, map[], k, k + j);
    LetsMono(p, r, fs, head, map[], j, k + j);
  }

  lemma PrefixGrows(p: Program, r: Rule, fs: seq<FieldDecl>, i: nat, locals: map<string, AVal>, k: nat, v: AVal)
    returns (j: nat)
    requires i < |r.bindings| && Prefix(p, r, fs, i, locals, k)
    requires exists j: nat :: AnalyzeExpr(p, r, NewScope(r, fs, locals), r.bindings[i].value, j) == Some(v)
    ensures Prefix(p, r, fs, i + 1, locals[r.bindings[i].name := v], j)
  {
    var s := NewScope(r, fs, locals);
    var l: nat :| AnalyzeExpr(p, r, s, r.bindings[i].value, l) == Some(v);
    j := k + l;
    ExprMono(p, r, s, r.bindings[i].value, l, j);
    LetsMono(p, r, fs, r.bindings[..i], map[], k, j);
    assert r.bindings[..i + 1] == r.bindings[..i] + [r.bindings[i]];
    LetsAppend(p, r, fs, r.bindings[..i], [r.bindings[i]], map[], j);
  }

  function RuleFields(p: Program, name: string): seq<FieldDecl>
    requires ShapeOk(p, name)
  {
    p.concepts[p.rules[name].inputTy.concept].fields
  }

  /** A refused let refuses the rule. */
  lemma RefusedLet(p: Program, name: string, i: nat, locals: map<string, AVal>, k: nat)
    requires ShapeOk(p, name)
    requires i < |p.rules[name].bindings| && Prefix(p, p.rules[name], RuleFields(p, name), i, locals, k)
    requires Agrees(p, p.rules[name], NewScope(p.rules[name], RuleFields(p, name), locals),
      p.rules[name].bindings[i].value, Refuse)
    ensures Rejects(p, name)
  {
    var r := p.rules[name];
    var fs := p.concepts[r.inputTy.concept].fields;
    forall j: nat
      ensures AnalyzeRule(p, name, j).None?
    {
      if AnalyzeLets(p, r, fs, r.bindings, map[], j).Some? {
        PrefixUnique(p, r, fs, i, locals, k, j);
        assert false;
      }
    }
  }

  // ----- outcomes -----

  datatype Outcome = Accept(v: AVal) | Refuse | Limit

  ghost predicate Agrees(p: Program, r: Rule, s: Scope, e: Expr, o: Outcome)
    requires ScopeOk(s)
  {
    match o
    case Accept(v) => ValOk(v) && exists k: nat :: AnalyzeExpr(p, r, s, e, k) == Some(v)
    case Refuse => forall k: nat :: AnalyzeExpr(p, r, s, e, k).None?
    case Limit => true
  }

  ghost predicate RuleAgrees(p: Program, name: string, o: Outcome) {
    match o
    case Accept(v) => Accepts(p, name, v)
    case Refuse => Rejects(p, name)
    case Limit => true
  }

  function Conclude(r: Rule, o: Outcome): Outcome {
    match o
    case Accept(v) => (match Summary(r, v) case Some(w) => Accept(w) case None => Refuse)
    case _ => o
  }

  /** With every let accepted, an accepted rule is the summary of its output. */
  lemma OutputDecides(p: Program, name: string, locals: map<string, AVal>, k: nat, j: nat) returns (v: AVal)
    requires ShapeOk(p, name) && Prefix(p, p.rules[name], RuleFields(p, name), |p.rules[name].bindings|, locals, k)
    requires AnalyzeRule(p, name, j).Some?
    ensures var s := NewScope(p.rules[name], RuleFields(p, name), locals);
      AnalyzeExpr(p, p.rules[name], s, p.rules[name].value, j) == Some(v)
    ensures Summary(p.rules[name], v).Some?
  {
    var r, fs := p.rules[name], RuleFields(p, name);
    PrefixUnique(p, r, fs, |r.bindings|, locals, k, j);
    assert r.bindings[|r.bindings|..] == [];
    v := AnalyzeExpr(p, r, NewScope(r, fs, locals), r.value, j).value;
  }

  lemma AcceptedOutput(p: Program, name: string, locals: map<string, AVal>, k: nat, v: AVal)
    requires ShapeOk(p, name) && Prefix(p, p.rules[name], RuleFields(p, name), |p.rules[name].bindings|, locals, k)
    requires Agrees(p, p.rules[name], NewScope(p.rules[name], RuleFields(p, name), locals), p.rules[name].value,
      Accept(v))
    ensures Summary(p.rules[name], v).Some? ==> Accepts(p, name, Summary(p.rules[name], v).value)
  {
    var r, fs := p.rules[name], RuleFields(p, name);
    var s := NewScope(r, fs, locals);
    var l: nat :| AnalyzeExpr(p, r, s, r.value, l) == Some(v);
    assert r.bindings[..|r.bindings|] == r.bindings;
    ExprMono(p, r, s, r.value, l, k + l);
    LetsMono(p, r, fs, r.bindings, map[], k, k + l);
    OutputSummary(p, name, locals, k + l, v);
  }

  lemma OutputSummary(p: Program, name: string, locals: map<string, AVal>, k: nat, v: AVal)
    requires ShapeOk(p, name) && ScopeOk(NewScope(p.rules[name], RuleFields(p, name), map[]))
    requires AnalyzeLets(p, p.rules[name], RuleFields(p, name), p.rules[name].bindings, map[], k) == Some(locals)
    requires var r := p.rules[name];
      AnalyzeExpr(p, r, NewScope(r, RuleFields(p, name), locals), r.value, k) == Some(v)
    ensures AnalyzeRule(p, name, k) == Summary(p.rules[name], v)
  {
  }

  lemma ExprUnique(p: Program, r: Rule, s: Scope, e: Expr, k: nat, v: AVal, j: nat, w: AVal)
    requires ScopeOk(s) && AnalyzeExpr(p, r, s, e, k) == Some(v) && AnalyzeExpr(p, r, s, e, j) == Some(w)
    ensures v == w
  {
    if k <= j {
      ExprMono(p, r, s, e, k, j);
    } else {
      ExprMono(p, r, s, e, j, k);
    }
  }

  lemma ExprDecided(p: Program, r: Rule, s: Scope, e: Expr, o: Outcome, j: nat, v: AVal)
    requires ScopeOk(s) && Agrees(p, r, s, e, o) && !o.Limit? && AnalyzeExpr(p, r, s, e, j) == Some(v)
    ensures o == Accept(v)
  {
    if o.Accept? {
      var l: nat :| AnalyzeExpr(p, r, s, e, l) == Some(o.v);
      ExprUnique(p, r, s, e, l, o.v, j, v);
    }
  }

  lemma RefusedOutput(p: Program, name: string, locals: map<string, AVal>, k: nat, o: Outcome, j: nat)
    requires ShapeOk(p, name) && Prefix(p, p.rules[name], RuleFields(p, name), |p.rules[name].bindings|, locals, k)
    requires Agrees(p, p.rules[name], NewScope(p.rules[name], RuleFields(p, name), locals), p.rules[name].value, o)
    requires Conclude(p.rules[name], o).Refuse?
    ensures AnalyzeRule(p, name, j).None?
  {
    if AnalyzeRule(p, name, j).Some? {
      var v := OutputDecides(p, name, locals, k, j);
      ExprDecided(p, p.rules[name], NewScope(p.rules[name], RuleFields(p, name), locals), p.rules[name].value, o, j, v);
      assert false;
    }
  }

  /** With every let accepted, the rule's outcome is that of its output. */
  lemma ConcludeAgrees(p: Program, name: string, locals: map<string, AVal>, k: nat, o: Outcome)
    requires ShapeOk(p, name) && Prefix(p, p.rules[name], RuleFields(p, name), |p.rules[name].bindings|, locals, k)
    requires Agrees(p, p.rules[name], NewScope(p.rules[name], RuleFields(p, name), locals), p.rules[name].value, o)
    ensures RuleAgrees(p, name, Conclude(p.rules[name], o))
  {
    if o.Accept? {
      AcceptedOutput(p, name, locals, k, o.v);
    }
    if Conclude(p.rules[name], o).Refuse? {
      forall j: nat {
        RefusedOutput(p, name, locals, k, o, j);
      }
    }
  }
}
