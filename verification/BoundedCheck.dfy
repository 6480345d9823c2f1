/** The bounded-result contract on whole programs. */
module BoundedCheck {
  import opened Int64
  import opened Ast
  import opened Interp
  import opened Participation
  import opened CallCycles
  import opened BoundedPaths
  import opened BoundedRuns
  import opened BoundedSound

  // ----- which rules are checked -----

  predicate MentionsBounds(t: Type) {
    match t
    case TBoundsError => true
    case TResult(a, b) => MentionsBounds(a) || MentionsBounds(b)
    case TNamed(n) => n == "BoundsError"
    case TCollection(n) => n == "BoundsError"
    case _ => false
  }

  predicate HasTryByte(e: Expr)
    decreases e
  {
    e.TryByteAt? || exists c | c in Children(e) :: HasTryByte(c)
  }

  predicate IsSeed(r: Rule) {
    MentionsBounds(r.outputTy) || HasTryByte(r.value) || exists b | b in r.bindings :: HasTryByte(b.value)
  }

  function Seeds(p: Program): set<string> { set n | n in p.rules && IsSeed(p.rules[n]) }

  /** The rules under the bounded-result contract. */
  method ActiveRules(p: Program) returns (active: set<string>)
    ensures forall n :: n in active <==> Participates(CallGraph(p), Seeds(p), n)
  {
    active := Close(CallGraph(p), Seeds(p));
  }

  lemma CalleeParticipates(p: Program, n: string, m: string)
    requires n in p.rules && Participates(CallGraph(p), Seeds(p), n) && m in RuleCalls(p.rules[n])
    ensures Participates(CallGraph(p), Seeds(p), m)
  {
    ParticipatesStep(CallGraph(p), Seeds(p), n, m);
  }

  // ----- what is checked of each -----

  predicate NumericConcept(p: Program, t: Type) {
    && t.TNamed? && t.concept in p.concepts && p.concepts[t.concept].variants == []
    && forall f | f in p.concepts[t.concept].fields :: f.ty.TNumber?
  }

  predicate RuleAccepted(p: Program, n: string)
    requires n in p.rules
  {
    var r := p.rules[n];
    && !r.hasContext && NumericConcept(p, r.inputTy)
    && r.outputTy in {BoundedResult, TNumber, TBool}
    && !Cyclic(CallGraph(p), n, {})
    && PathsReturn(p, r)
  }

  ghost predicate Accepted(p: Program) {
    forall n | n in p.rules && Participates(CallGraph(p), Seeds(p), n) :: RuleAccepted(p, n)
  }

  // ----- where BoundsError may stand -----

  predicate FieldMentions(fs: seq<FieldDecl>) { exists f | f in fs :: MentionsBounds(f.ty) }

  /** A concept that is called BoundsError or stores one. */
  predicate ConceptMisuses(name: string, c: Concept) {
    name == "BoundsError" || FieldMentions(c.fields) || exists v | v in c.variants :: FieldMentions(v.fields)
  }

  predicate RuleMisuses(r: Rule) {
    MentionsBounds(r.inputTy) || (MentionsBounds(r.outputTy) && r.outputTy != BoundedResult)
  }

  /** BoundsError occurs in Result(number, BoundsError) outputs only. */
  ghost predicate Reserved(p: Program) {
    && (forall n | n in p.concepts :: !ConceptMisuses(n, p.concepts[n]))
    && forall n | n in p.rules :: !RuleMisuses(p.rules[n])
  }

  /** No bounds error anywhere inside the value. */
  predicate BoundsFree(v: Value)
    decreases v
  {
    match v
    case VBounds => false
    case VList(items) => forall i | 0 <= i < |items| :: BoundsFree(items[i])
    case VRecord(m) => forall f | f in m :: BoundsFree(m[f])
    case VVariant(_, _, m) => forall f | f in m :: BoundsFree(m[f])
    case VOk(w) => BoundsFree(w)
    case VErr(w) => BoundsFree(w)
    case _ => true
  }

  lemma {:induction false} NoBoundsStored(p: Program, v: Value, t: Type)
    requires Reserved(p) && HasType(p.concepts, v, t) && !MentionsBounds(t)
    ensures BoundsFree(v)
    decreases v, 1
  {
    match t
    case TCollection(n) =>
      forall i | 0 <= i < |v.items| { NoBoundsStored(p, v.items[i], ElemType(n)); }
    case TResult(a, b) =>
      if HasType(p.concepts, v.inner, a) { NoBoundsStored(p, v.inner, a); } else { NoBoundsStored(p, v.inner, b); }
    case TNamed(n) =>
      var c := p.concepts[n];
      NoBoundsFields(p, v, if c.variants == [] then c.fields else FindVariant(c.variants, v.variant).value.fields);
    case _ =>
  }

  lemma {:induction false} NoBoundsFields(p: Program, v: Value, ds: seq<FieldDecl>)
    requires Reserved(p) && (v.VRecord? || v.VVariant?) && FieldsTyped(p.concepts, ds, v) && !FieldMentions(ds)
    ensures BoundsFree(v)
    decreases v, 0
  {
    forall f | f in v.fields
      ensures BoundsFree(v.fields[f])
    {
      assert f in Names(ds);
      NoBoundsStored(p, v.fields[f], FindField(ds, f).value.ty);
    }
  }

  /** Where BoundsError is reserved, no well-typed value stores a bounds error:
      it enters no rule, and leaves one only as the error of its result. */
  lemma BoundsErrorReserved(p: Program, n: string, v: Value)
    requires Reserved(p) && n in p.rules
    ensures HasType(p.concepts, v, p.rules[n].inputTy) ==> BoundsFree(v)
    ensures HasType(p.concepts, v, p.rules[n].outputTy) ==> BoundsFree(v) || v == VErr(VBounds)
  {
    var r := p.rules[n];
    if HasType(p.concepts, v, r.inputTy) {
      NoBoundsStored(p, v, r.inputTy);
    }
    if HasType(p.concepts, v, r.outputTy) {
      if r.outputTy == BoundedResult {
        ResultValue(p.concepts, v);
      } else {
        NoBoundsStored(p, v, r.outputTy);
      }
    }
  }

  lemma ResultValue(cs: map<string, Concept>, v: Value)
    requires HasType(cs, v, BoundedResult)
    ensures (v.VOk? && v.inner.VNumber? && BoundsFree(v)) || v == VErr(VBounds)
  {
    if v.VOk? {
      assert HasType(cs, v.inner, TNumber);
      assert BoundsFree(v.inner);
    } else {
      assert HasType(cs, v.inner, TBoundsError);
    }
  }

  // ----- lets -----

  predicate NamesNoBool(r: Rule) { (forall b | b in r.bindings :: NoBareBool(b.value)) && NoBareBool(r.value) }

  ghost predicate ReadyRule(j: Job) {
    && Source(j.c.sem) && NumericInput(j.c.prog, j.r, j.v)
    && (NamesNoBool(j.r) || (!j.strict && j.r.input != "true" && j.r.input != "false"))
    && CalleesRun(j, RuleCalls(j.r))
  }

  lemma ReadyLet(j: Job, i: nat)
    requires ReadyRule(j) && i < |j.r.bindings|
    ensures Ready(j, j.r.bindings[i].value)
  {
    assert CallNames(j.r.bindings[i].value) <= RuleCalls(j.r);
  }

  lemma ReadyValue(j: Job)
    requires ReadyRule(j)
    ensures Ready(j, j.r.value)
  {
  }

  lemma {:induction false} LetAt(p: Program, r: Rule, b: Binding, ss: seq<State>, next: nat, i: nat) returns (n: nat)
    requires i < |ss| && ExploreLet(p, r, b, ss, next).Some?
    ensures var one, out := Explore(p, r, b.value, ss[i], n), ExploreLet(p, r, b, ss, next).value;
      next <= n && one.Some? && one.value.1 <= out.1 && forall q | q in one.value.0 :: BindOne(q, b.name) in out.0
    decreases i
  {
    var one := Explore(p, r, b.value, ss[0], next).value;
    LetCounts(p, r, b, ss[1..], one.1);
    if i == 0 {
      n := next;
      var out := ExploreLet(p, r, b, ss, next).value;
      forall q | q in one.0
        ensures BindOne(q, b.name) in out.0
      {
        var k :| 0 <= k < |one.0| && one.0[k] == q;
        assert BindAll(one.0, b.name)[k] == BindOne(q, b.name);
      }
    } else {
      n := LetAt(p, r, b, ss[1..], one.1, i - 1);
    }
  }

  lemma {:induction false} LetCounts(p: Program, r: Rule, b: Binding, ss: seq<State>, next: nat)
    ensures var out := ExploreLet(p, r, b, ss, next); out.Some? ==> next <= out.value.1
    decreases |ss|
  {
    if ss != [] {
      var one := Explore(p, r, b.value, ss[0], next);
      if one.Some? { LetCounts(p, r, b, ss[1..], one.value.1); }
    }
  }

  lemma LetSim(j: Job, b: Binding, ss: seq<State>, next: nat, i: nat, env: TaggedEnv, l: Ledger, ren: Renaming)
    returns (m: nat, big: Renaming)
    requires i < |ss| && Ready(j, b.value) && At(j, ren, ss[i], next, env, l) &&
      ExploreLet(j.c.prog, j.r, b, ss, next).Some?
    ensures var out, t := ExploreLet(j.c.prog, j.r, b, ss, next).value, Trace(j.c, b.value, env, l, j.k);
      if t.Bad? then Allowed(j, t.fault)
      else m < |out.0| && At(j, big, out.0[m], out.1, env[b.name := t.value.val], t.value.ledger)
  {
    var n := LetAt(j.c.prog, j.r, b, ss, next, i);
    LedgerGrows(j.base, ren, ss[i].pending, next, n, l);
    ExprSim(j, b.value, ss[i], n, env, l, ren);
    var one, out := Explore(j.c.prog, j.r, b.value, ss[i], n).value, ExploreLet(j.c.prog, j.r, b, ss, next).value;
    var t := Trace(j.c, b.value, env, l, j.k);
    m, big := 0, ren;
    if t.Good? {
      var k;
      k, big := FollowsPick(j, ren, one.0, one.1, t.value);
      var s := BindOne(one.0[k], b.name);
      assert s in out.0;
      m :| m < |out.0| && out.0[m] == s;
      EnvGrows(j, ren, big, ss[i].env, env);
      BindSim(j, big, ss[i].env, one.0[k], one.1, env, t.value, b.name);
      LedgerGrows(j.base, big, s.pending, one.1, out.1, t.value.ledger);
    }
  }

  lemma BindSim(j: Job, ren: Renaming, a: map<string, Val>, p: Path, next: nat, env: TaggedEnv, run: Run, x: string)
    requires EnvSim(j, ren, a, env) && Simulated(j.c.prog.concepts, j.base, ren, p, next, run) && p.state.env == a
    ensures At(j, ren, BindOne(p, x), next, env[x := run.val], run.ledger)
  {
  }

  lemma {:induction false} LetsSim(j: Job, from: nat, ss: seq<State>, next: nat, i: nat, env: TaggedEnv, l: Ledger,
      ren: Renaming)
    returns (m: nat, big: Renaming)
    requires ReadyRule(j) && from <= |j.r.bindings| && i < |ss| && At(j, ren, ss[i], next, env, l)
    requires ExploreLets(j.c.prog, j.r, j.r.bindings[from..], ss, next).Some?
    ensures var out, t := ExploreLets(j.c.prog, j.r, j.r.bindings[from..], ss, next).value,
      TraceLets(j.c, j.r.bindings[from..], env, l, j.k);
      if t.Bad? then Allowed(j, t.fault)
      else m < |out.0| && At(j, big, out.0[m], out.1, t.value.0, t.value.1)
    decreases |j.r.bindings| - from
  {
    var bs := j.r.bindings[from..];
    m, big := i, ren;
    if bs != [] {
      assert bs[1..] == j.r.bindings[from + 1..];
      ReadyLet(j, from);
      m, big := LetSim(j, bs[0], ss, next, i, env, l, ren);
      var t := Trace(j.c, bs[0].value, env, l, j.k);
      if t.Good? {
        var one := ExploreLet(j.c.prog, j.r, bs[0], ss, next).value;
        m, big := LetsSim(j, from + 1, one.0, one.1, m, env[bs[0].name := t.value.val], t.value.ledger, big);
      }
    }
  }

  // ----- rules -----

  lemma {:induction false} OutputsAt(p: Program, r: Rule, ss: seq<State>, next: nat, i: nat) returns (n: nat)
    requires i < |ss| && OutputsReturn(p, r, ss, next)
    ensures next <= n
    ensures var out := Explore(p, r, r.value, ss[i], n); out.Some? && AllReturn(r, out.value.0)
    decreases i
  {
    if i == 0 {
      n := next;
    } else {
      n := OutputsAt(p, r, ss[1..], Explore(p, r, r.value, ss[0], next).value.1, i - 1);
    }
  }

  lemma ReturnSettles(j: Job, ren: Renaming, p: Path, next: nat, run: Run)
    requires Simulated(j.c.prog.concepts, j.base, ren, p, next, run) && BoundedPaths.Returns(j.r, p)
    ensures Ends(j, Good(run))
  {
    forall t: nat | j.base.made < t <= run.ledger.made && t !in run.ledger.matched
      ensures run.val.token == Some(t)
    {
      assert t in ren && ren[t] in p.state.pending;
    }
  }

  lemma RuleEnds(j: Job)
    requires ReadyRule(j) && PathsReturn(j.c.prog, j.r) && j.r.textMax.None?
    ensures Ends(j, TraceRule(j.c, j.r, Tagged(j.v, None), j.base, j.k))
  {
    var env: TaggedEnv := map[j.r.input := Tagged(j.v, None)];
    var l := j.base;
    assert j.r.bindings[0..] == j.r.bindings;
    assert At(j, map[], Start, 0, env, l);
    var i, ren := LetsSim(j, 0, [Start], 0, 0, env, l, map[]);
    var lets := TraceLets(j.c, j.r.bindings, env, l, j.k);
    if lets.Good? {
      var (ss, next) := ExploreLets(j.c.prog, j.r, j.r.bindings, [Start], 0).value;
      OutputEnds(j, ss, next, i, lets.value.0, lets.value.1, ren);
    }
  }

  lemma OutputEnds(j: Job, ss: seq<State>, next: nat, i: nat, env: TaggedEnv, l: Ledger, ren: Renaming)
    requires ReadyRule(j) && i < |ss| && OutputsReturn(j.c.prog, j.r, ss, next) && At(j, ren, ss[i], next, env, l)
    ensures Ends(j, Trace(j.c, j.r.value, env, l, j.k))
  {
    var n := OutputsAt(j.c.prog, j.r, ss, next, i);
    LedgerGrows(j.base, ren, ss[i].pending, next, n, l);
    ReadyValue(j);
    ExprSim(j, j.r.value, ss[i], n, env, l, ren);
    var out, t := Explore(j.c.prog, j.r, j.r.value, ss[i], n).value, Trace(j.c, j.r.value, env, l, j.k);
    if t.Good? {
      var m, big := FollowsPick(j, ren, out.0, out.1, t.value);
      ReturnSettles(j, big, out.0[m], out.1, t.value);
    }
  }

  // ----- programs -----

  /** What is needed beside acceptance of the rules under the contract: bounds on
      text are declared for text only, and a rule that mentions the bare names has
      an input called otherwise; for progress, no rule mentions them. */
  ghost predicate Clean(p: Program, strict: bool) {
    forall n | n in p.rules && Participates(CallGraph(p), Seeds(p), n) ::
      var r := p.rules[n];
      && (r.textMax.Some? ==> r.outputTy.TText?)
      && (NamesNoBool(r) || (!strict && r.input != "true" && r.input != "false"))
  }

  /** What every run of the rule `n` needs. */
  ghost predicate Runnable(j: Job, n: string, stack: set<string>) {
    && Accepted(j.c.prog) && Clean(j.c.prog, j.strict) && Source(j.c.sem)
    && n in j.c.prog.rules && j.r == j.c.prog.rules[n] && Participates(CallGraph(j.c.prog), Seeds(j.c.prog), n)
    && NumericInput(j.c.prog, j.r, j.v)
    && !Cyclic(CallGraph(j.c.prog), n, stack) && |j.c.prog.rules.Keys - stack| <= j.k + 1
  }

  lemma {:induction false} RuleRuns(j: Job, n: string, stack: set<string>)
    requires Runnable(j, n, stack)
    ensures Ends(j, TraceRule(j.c, j.r, Tagged(j.v, None), j.base, j.k))
    decreases j.k, 1
  {
    var p := j.c.prog;
    assert RuleAccepted(p, n);
    forall m | m in RuleCalls(j.r) && m in p.rules && p.rules[m].inputTy == j.r.inputTy
      ensures CalleeRuns(j, m)
    {
      CalleeRunnable(j, n, m, stack);
      CalleeSettles(j, n, m, stack);
    }
    RuleEnds(j);
  }

  lemma CalleeRunnable(j: Job, n: string, m: string, stack: set<string>)
    requires Runnable(j, n, stack)
    requires m in RuleCalls(j.r) && m in j.c.prog.rules && j.c.prog.rules[m].inputTy == j.r.inputTy
    ensures j.k > 0 && Simple(j.c.prog.rules[m].outputTy)
    ensures forall l :: Runnable(Callee(j, m, l), m, stack + {n})
  {
    CalleeParticipates(j.c.prog, n, m);
    CalleeBudget(j.c.prog, n, m, stack, j.k);
    assert RuleAccepted(j.c.prog, m);
  }

  lemma {:induction false} CalleeSettles(j: Job, n: string, m: string, stack: set<string>)
    requires m in j.c.prog.rules && j.k > 0 && j.c.prog.rules[m].inputTy == j.r.inputTy
    requires forall l :: Runnable(Callee(j, m, l), m, stack + {n})
    ensures forall l :: CalleeEnds(j, m, l)
    decreases j.k, 0
  {
    forall l
      ensures CalleeEnds(j, m, l)
    {
      var i := Callee(j, m, l);
      assert Runnable(i, m, stack + {n});
      RuleRuns(i, m, stack + {n});
      SameGuard(i, j);
    }
  }

  /** What one job allows, another of the same input type allows. */
  lemma SameGuard(i: Job, j: Job)
    requires i.c == j.c && i.v == j.v && i.strict == j.strict && i.r.inputTy == j.r.inputTy
    ensures forall f :: Allowed(i, f) ==> Allowed(j, f)
  {
    assert EntryGuard(j.c.prog.concepts, i.r, j.v) == EntryGuard(j.c.prog.concepts, j.r, j.v);
  }

  lemma CalleeBudget(p: Program, n: string, m: string, stack: set<string>, k: nat)
    requires n in p.rules && m in p.rules && m in RuleCalls(p.rules[n])
    requires !Cyclic(CallGraph(p), n, stack) && |p.rules.Keys - stack| <= k + 1
    ensures k > 0 && !Cyclic(CallGraph(p), m, stack + {n}) && |p.rules.Keys - (stack + {n})| <= k
  {
    var g := CallGraph(p);
    assert g.Keys == p.rules.Keys && g[n] == RuleCalls(p.rules[n]);
    CallDescends(g, n, m, stack);
  }

  /** For every rule under the contract and every numeric input: a run that
      succeeds has matched or returned each result made anywhere in its call
      tree, and its value has the declared type; with one call level per rule no
      run exhausts its budget. */
  lemma ObligationSoundness(c: Ctx, n: string, v: Value, k: nat)
    requires Accepted(c.prog) && Clean(c.prog, false) && Source(c.sem)
    requires n in c.prog.rules && Participates(CallGraph(c.prog), Seeds(c.prog), n)
    requires NumericInput(c.prog, c.prog.rules[n], v) && |c.prog.rules| <= k + 1
    ensures var t := Traced(c, c.prog.rules[n], v, k);
      && Forget(t) == EvalRule(c, c.prog.rules[n], v, k) && t != Bad(Timeout)
      && (t.Good? ==> Settled(Empty, t.value) && HasType(c.prog.concepts, t.value.val.v, c.prog.rules[n].outputTy))
  {
    var j := Job(c, c.prog.rules[n], v, k, false, Empty);
    assert RuleAccepted(c.prog, n);
    assert c.prog.rules.Keys - {} == c.prog.rules.Keys;
    RuleRuns(j, n, {});
    RuleForgets(c, j.r, Tagged(v, None), Empty, k);
  }

  /** Without the bare names true and false, a run on an admitted numeric input
      delivers the declared type or stops with an arithmetic or range fault. */
  lemma Progress(c: Ctx, n: string, v: Value, k: nat)
    requires Accepted(c.prog) && Clean(c.prog, true) && Source(c.sem)
    requires n in c.prog.rules && Participates(CallGraph(c.prog), Seeds(c.prog), n)
    requires NumericInput(c.prog, c.prog.rules[n], v) && EntryGuard(c.prog.concepts, c.prog.rules[n], v) &&
      |c.prog.rules| <= k + 1
    ensures var o := EvalRule(c, c.prog.rules[n], v, k);
      if o.Good? then HasType(c.prog.concepts, o.value, c.prog.rules[n].outputTy)
      else o.fault in {Overflow, DivZero, MinDiv, Range}
  {
    var j := Job(c, c.prog.rules[n], v, k, true, Empty);
    assert RuleAccepted(c.prog, n);
    assert c.prog.rules.Keys - {} == c.prog.rules.Keys;
    RuleRuns(j, n, {});
    RuleForgets(c, j.r, Tagged(v, None), Empty, k);
  }

  // ----- the bare names -----

  /** `if true then ok(1) else ok(2)`, as the only rule. */
  const BareRule := Rule("f", "i", TNamed("C"), false, BoundedResult, None, [],
                         If(Ident("true"), Unary(MkOk, Number(1)), Unary(MkOk, Number(2))), None)
  const BareProgram := Program(map["f" := BareRule], map["C" := Concept([], [])])

  /** The analysis types the bare name, the evaluator does not know it: the rule
      is accepted and its every run goes wrong. */
  lemma BareNameGoesWrong(guarded: set<string>, wrap: bool, k: nat)
    ensures RuleAccepted(BareProgram, "f") && Participates(CallGraph(BareProgram), Seeds(BareProgram), "f")
    ensures EvalRule(Ctx(BareProgram, guarded, Sem(wrap, false, Off)), BareRule, VRecord(map[]), k) == Bad(Stuck)
  {
    BareAccepted();
    SeedsSound(CallGraph(BareProgram), Seeds(BareProgram));
    assert "f" in Seeds(BareProgram);
    var c, env := Ctx(BareProgram, guarded, Sem(wrap, false, Off)), map["i" := VRecord(map[])];
    assert Eval(c, Ident("true"), env, k) == Bad(Stuck);
    assert Eval(c, BareRule.value, env, k) == Bad(Stuck);
  }

  lemma BareAccepted()
    ensures RuleAccepted(BareProgram, "f")
  {
    var p, r := BareProgram, BareRule;
    BareCalls();
    assert CallGraph(p)["f"] == {};
    BareExplored();
    assert OutputsReturn(p, r, [Start][1..], 2);
    assert OutputsReturn(p, r, [Start], 0);
  }

  const BareFirst := Path(State(map[], {1}), Val(BoundedResult, Some(1)))
  const BareSecond := Path(State(map[], {2}), Val(BoundedResult, Some(2)))

  lemma BareExplored()
    ensures Explore(BareProgram, BareRule, BareRule.value, Start, 0) == Some(([BareFirst, BareSecond], 2))
  {
    var p, r, e := BareProgram, BareRule, BareRule.value;
    TypedOne(p, r, e.cond, Start, Start, 0, TBool, 0);
    BareOk(p, r, 1, 0);
    BareOk(p, r, 2, 1);
    IfOne(p, r, e, Start, 0, 0, [BareFirst], 1, [BareSecond], 2);
    assert [BareFirst] + [BareSecond] == [BareFirst, BareSecond];
  }

  /** A conditional whose condition leaves one path. */
  lemma IfOne(p: Program, r: Rule, e: Expr, s: State, next: nat, n: nat, ps: seq<Path>, m: nat, qs: seq<Path>, k: nat)
    requires e.If? && ExploreTyped(p, r, e.cond, s, next, TBool) == Some(([s], n))
    requires Explore(p, r, e.yes, s, n) == Some((ps, m)) && Explore(p, r, e.no, s, m) == Some((qs, k)) &&
      SameTypes(ps + qs)
    ensures Explore(p, r, e, s, next) == Some((ps + qs, k))
  {
    assert [s][1..] == [] && ps + qs + [] == ps + qs;
    assert ExploreArms(p, r, e, [s][1..], k, s.env) == Some(([], k));
    assert ExploreArms(p, r, e, [s], n, s.env) == Some((ps + qs, k));
  }

  lemma TypedOne(p: Program, r: Rule, e: Expr, s: State, t: State, next: nat, ty: Type, n: nat)
    requires Explore(p, r, e, s, next) == Some(([Path(t, Val(ty, None))], n))
    ensures ExploreTyped(p, r, e, s, next, ty) == Some(([t], n))
  {
    assert Expect([Path(t, Val(ty, None))], ty).value == [t];
  }

  lemma BareOk(p: Program, r: Rule, n: i64, next: nat)
    ensures Explore(p, r, Unary(MkOk, Number(n)), Start, next) ==
            Some(([Path(State(map[], {next + 1}), Val(BoundedResult, Some(next + 1)))], next + 1))
  {
    TypedOne(p, r, Number(n), Start, Start, next, TNumber, next);
    assert ProduceAll([Start], BoundedResult, next).0 == [Produce(Start, BoundedResult, next).0];
    assert {} + {next + 1} == {next + 1};
  }

  lemma BareCalls()
    ensures RuleCalls(BareRule) == {}
  {
    var e := BareRule.value;
    forall c | c in Children(e)
      ensures CallNames(c) == {}
    {
      forall d | d in Children(c)
        ensures CallNames(d) == {}
      {
        assert Children(d) == [];
      }
    }
  }

  // ----- an input called true -----

  /** `match try_byte_at("a", 0) with x => true, e => true`, of output bool, for
      an input that is itself called `true`. */
  const NamedRule := Rule("f", "true", TNamed("C"), false, TBool, None, [],
                          MatchResult(TryByteAt(Text([97]), Number(0)), "x", Ident("true"), "e", Ident("true")), None)
  const NamedProgram := Program(map["f" := NamedRule], map["C" := Concept([], [])])

  /** The analysis types the name as bool, the evaluator finds the input: the rule
      is accepted and returns a record. */
  lemma NamedInputEscapes(guarded: set<string>, wrap: bool, k: nat)
    ensures RuleAccepted(NamedProgram, "f") && Participates(CallGraph(NamedProgram), Seeds(NamedProgram), "f")
    ensures EvalRule(Ctx(NamedProgram, guarded, Sem(wrap, false, Off)), NamedRule, VRecord(map[]), k) ==
      Good(VRecord(map[]))
    ensures !HasType(NamedProgram.concepts, VRecord(map[]), NamedRule.outputTy)
  {
    NamedAccepted();
    NamedTakesPart();
    NamedRun(Ctx(NamedProgram, guarded, Sem(wrap, false, Off)), k);
  }

  lemma NamedTakesPart()
    ensures Participates(CallGraph(NamedProgram), Seeds(NamedProgram), "f")
  {
    SeedsSound(CallGraph(NamedProgram), Seeds(NamedProgram));
    assert HasTryByte(NamedRule.value.target) && NamedRule.value.target in Children(NamedRule.value);
    assert "f" in Seeds(NamedProgram);
  }

  lemma NamedRun(c: Ctx, k: nat)
    requires c.prog == NamedProgram && c.sem.monitor.Off?
    ensures EvalRule(c, NamedRule, VRecord(map[]), k) == Good(VRecord(map[]))
  {
    var env: Env := map["true" := VRecord(map[])];
    assert Eval(c, Number(0), env, k) == Good(VNumber(0));
    assert Eval(c, NamedRule.value.target, env, k) == Good(VOk(VNumber(97)));
    assert Eval(c, Ident("true"), env["x" := VNumber(97)], k) == Good(VRecord(map[]));
    assert Eval(c, NamedRule.value, env, k) == Good(VRecord(map[]));
  }

  const NamedPath := Path(Start, Val(TBool, None))

  lemma NamedAccepted()
    ensures RuleAccepted(NamedProgram, "f")
  {
    var p, r := NamedProgram, NamedRule;
    NamedCalls();
    assert CallGraph(p)["f"] == {};
    NamedExplored();
    assert OutputsReturn(p, r, [Start][1..], 1);
    assert OutputsReturn(p, r, [Start], 0);
  }

  lemma NamedExplored()
    ensures Explore(NamedProgram, NamedRule, NamedRule.value, Start, 0) == Some(([NamedPath, NamedPath], 1))
  {
    var p, r, e := NamedProgram, NamedRule, NamedRule.value;
    var made := Path(State(map[], {1}), Val(BoundedResult, Some(1)));
    NamedTarget(p, r, made);
    assert made.state.(pending := {1} - {1}) == Start;
    NamedArm(p, r, "x", TNumber);
    NamedArm(p, r, "e", TBoundsError);
    MatchOne(p, r, e, Start, 0, made, Start, 1, [NamedPath], 1, [NamedPath], 1);
    assert [NamedPath] + [NamedPath] == [NamedPath, NamedPath];
  }

  /** A match whose scrutinee leaves one path. */
  lemma MatchOne(p: Program, r: Rule, e: Expr, s: State, next: nat, q: Path, t: State, n: nat, ps: seq<Path>, m: nat,
      qs: seq<Path>, k: nat)
    requires e.MatchResult? && Explore(p, r, e.target, s, next) == Some(([q], n)) && q.val.ty == BoundedResult
    requires q.val.token.Some? && t == q.state.(pending := q.state.pending - {q.val.token.value})
    requires ExploreBound(p, r, e.okBody, t, e.okVar, TNumber, n) == Some((ps, m))
    requires ExploreBound(p, r, e.errBody, t, e.errVar, TBoundsError, m) == Some((qs, k)) && SameTypes(ps + qs)
    ensures Explore(p, r, e, s, next) == Some((ps + qs, k))
  {
    assert [q][1..] == [] && ps + qs + [] == ps + qs;
    assert Scoped(Explore(p, r, e.target, s, next), s.env, next);
    assert ExploreMatches(p, r, e, [q][1..], k, s.env) == Some(([], k));
    assert ExploreMatches(p, r, e, [q], n, s.env) == Some((ps + qs, k));
  }

  lemma NamedTarget(p: Program, r: Rule, made: Path)
    requires made == Path(State(map[], {1}), Val(BoundedResult, Some(1)))
    ensures Explore(p, r, NamedRule.value.target, Start, 0) == Some(([made], 1))
  {
    TypedOne(p, r, Number(0), Start, Start, 0, TNumber, 0);
    assert ProduceAll([Start], BoundedResult, 0).0 == [Produce(Start, BoundedResult, 0).0];
    assert {} + {1} == {1};
  }

  lemma NamedArm(p: Program, r: Rule, x: string, ty: Type)
    requires x != "true"
    ensures ExploreBound(p, r, Ident("true"), Start, x, ty, 1) == Some(([NamedPath], 1))
  {
    var inner := Start.(env := Start.env[x := Val(ty, None)]);
    assert Explore(p, r, Ident("true"), inner, 1) == Some(([Path(inner, Val(TBool, None))], 1));
    assert Restore([Path(inner, Val(TBool, None))], x, Start.env) == [NamedPath];
  }

  lemma NamedCalls()
    ensures RuleCalls(NamedRule) == {}
  {
    var e := NamedRule.value;
    forall c | c in Children(e)
      ensures CallNames(c) == {}
    {
      forall d | d in Children(c)
        ensures CallNames(d) == {}
      {
        assert Children(d) == [];
      }
    }
  }
}
