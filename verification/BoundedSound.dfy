/** Every run of an accepted rule is simulated by one of its abstract paths, so
    no bounded result is dropped and no run goes wrong. */
module BoundedSound {
  import opened Int64
  import opened Ast
  import opened Interp
  import opened BoundedPaths
  import opened BoundedRuns

  /** One rule on one input, entered with the ledger `base`. `strict` leaves out
      the bare names true and false. */
  datatype Job = Job(c: Ctx, r: Rule, v: Value, k: nat, strict: bool, base: Ledger)

  predicate Source(m: Sem) { !m.lowered && m.monitor.Off? }

  /** The faults a run may end in. */
  predicate Allowed(j: Job, f: Fault) {
    || f in {Overflow, DivZero, MinDiv, Range}
    || (f.Refused? && !EntryGuard(j.c.prog.concepts, j.r, j.v))
    || (f.Stuck? && !j.strict)
  }

  /** No bare `true` or `false` anywhere in the expression. */
  predicate NoBareBool(e: Expr)
    decreases e
  {
    e != Ident("true") && e != Ident("false") && forall c | c in Children(e) :: NoBareBool(c)
  }

  predicate Simple(t: Type) { t in {TNumber, TBoundsError, TBool, TText, TBytes, BoundedResult} }

  /** An input record whose declared fields are all present numbers. */
  predicate NumericInput(p: Program, r: Rule, v: Value) {
    && r.inputTy.TNamed? && r.inputTy.concept in p.concepts && v.VRecord?
    && forall f | f in p.concepts[r.inputTy.concept].fields ::
      f.ty.TNumber? && f.name in v.fields && v.fields[f.name].VNumber?
  }

  /** Each result entered after `base` was matched, or is the value returned. */
  ghost predicate Settled(base: Ledger, run: Run) {
    && base.made <= run.ledger.made && base.matched <= run.ledger.matched
    && (run.val.token.Some? ==> base.made < run.val.token.value <= run.ledger.made)
    && forall t: nat | base.made < t <= run.ledger.made :: t in run.ledger.matched || run.val.token == Some(t)
  }

  /** A rule's run delivers a settled value of its declared type or stops with an
      allowed fault. */
  ghost predicate Ends(j: Job, t: Res<Run>) {
    if t.Bad? then Allowed(j, t.fault)
    else
      && HasType(j.c.prog.concepts, t.value.val.v, j.r.outputTy) && Settled(j.base, t.value)
      && (t.value.val.token.Some? <==> j.r.outputTy == BoundedResult)
  }

  /** The callee `n`, entered with the ledger `l`. */
  function Callee(j: Job, n: string, l: Ledger): Job
    requires n in j.c.prog.rules && j.k > 0
  {
    j.(r := j.c.prog.rules[n], k := j.k - 1, base := l)
  }

  ghost predicate CalleeEnds(j: Job, n: string, l: Ledger)
    requires n in j.c.prog.rules && j.k > 0
  {
    var t := TraceRule(j.c, j.c.prog.rules[n], Tagged(j.v, None), l, j.k - 1);
    if t.Bad? then Allowed(j, t.fault) else Ends(Callee(j, n, l), t)
  }

  /** A callee ends well whatever ledger it is entered with. */
  ghost predicate CalleeRuns(j: Job, n: string)
    requires n in j.c.prog.rules
  {
    j.k > 0 && Simple(j.c.prog.rules[n].outputTy) && forall l :: CalleeEnds(j, n, l)
  }

  ghost predicate CalleesRun(j: Job, calls: set<string>) {
    forall n | n in calls && n in j.c.prog.rules && j.c.prog.rules[n].inputTy == j.r.inputTy :: CalleeRuns(j, n)
  }

  /** No bare name of the expression is taken for the input. */
  predicate NamesOk(j: Job, e: Expr) {
    NoBareBool(e) || (!j.strict && j.r.input != "true" && j.r.input != "false")
  }

  ghost predicate Ready(j: Job, e: Expr) {
    && Source(j.c.sem) && NumericInput(j.c.prog, j.r, j.v)
    && NamesOk(j, e)
    && CalleesRun(j, CallNames(e))
  }

  lemma ReadyChild(j: Job, e: Expr, child: Expr)
    requires Ready(j, e) && child in Children(e)
    ensures Ready(j, child)
  {
    assert CallNames(child) <= CallNames(e);
  }

  // ----- the simulation relation -----

  /** From the run's results to the tokens of the path. */
  type Renaming = map<nat, nat>

  predicate Extends(small: Renaming, big: Renaming) {
    forall t | t in small :: t in big && big[t] == small[t]
  }

  predicate ValSim(cs: map<string, Concept>, ren: Renaming, a: Val, t: Tagged) {
    && HasType(cs, t.v, a.ty) && Simple(a.ty)
    && (a.token.Some? <==> a.ty == BoundedResult) && (t.token.Some? <==> a.token.Some?)
    && (a.token.Some? ==> t.token.value in ren && ren[t.token.value] == a.token.value)
  }

  ghost predicate EnvSim(j: Job, ren: Renaming, a: map<string, Val>, env: TaggedEnv) {
    && (forall x :: x in env <==> x in a || x == j.r.input)
    && (forall x | x in a && x in env :: ValSim(j.c.prog.concepts, ren, a[x], env[x]))
    && (j.r.input !in a && j.r.input in env ==> env[j.r.input] == Tagged(j.v, None))
  }

  /** The renaming is injective and maps each unmatched result entered since
      `base` to a pending token. */
  ghost predicate LedgerSim(base: Ledger, ren: Renaming, pending: set<nat>, next: nat, l: Ledger) {
    && base.made <= l.made && base.matched <= l.matched
    && (forall t | t in ren :: base.made < t <= l.made)
    && (forall t: nat | base.made < t <= l.made :: t in ren || t in l.matched)
    && (forall t, u | t in ren && u in ren && ren[t] == ren[u] :: t == u)
    && (forall t | t in ren :: ren[t] <= next && (t in l.matched || ren[t] in pending))
  }

  ghost predicate Simulated(cs: map<string, Concept>, base: Ledger, ren: Renaming, p: Path, next: nat, run: Run) {
    LedgerSim(base, ren, p.state.pending, next, run.ledger) && ValSim(cs, ren, p.val, run.val)
  }

  ghost predicate Follows(j: Job, ren: Renaming, ps: seq<Path>, next: nat, t: Res<Run>) {
    if t.Bad? then Allowed(j, t.fault)
    else exists p: Path, big: Renaming ::
      p in ps && Extends(ren, big) && Simulated(j.c.prog.concepts, j.base, big, p, next, t.value)
  }

  lemma EnvGrows(j: Job, small: Renaming, big: Renaming, a: map<string, Val>, env: TaggedEnv)
    requires EnvSim(j, small, a, env) && Extends(small, big)
    ensures EnvSim(j, big, a, env)
  {
  }

  lemma LedgerGrows(base: Ledger, ren: Renaming, pending: set<nat>, next: nat, n: nat, l: Ledger)
    requires LedgerSim(base, ren, pending, next, l) && next <= n
    ensures LedgerSim(base, ren, pending, n, l)
  {
  }

  /** A result entered in the ledger is a fresh token of the path. */
  lemma IssueSim(cs: map<string, Concept>, base: Ledger, ren: Renaming, s: State, ty: Type, next: nat, v: Value,
      l: Ledger)
    returns (big: Renaming)
    requires LedgerSim(base, ren, s.pending, next, l) && HasType(cs, v, ty) && Simple(ty)
    ensures Extends(ren, big)
    ensures Simulated(cs, base, big, Produce(s, ty, next).0, Produce(s, ty, next).1, Issue(v, l))
  {
    big := if ty == BoundedResult then ren[l.made + 1 := next + 1] else ren;
  }

  /** Matching a result discharges exactly its token. */
  lemma MatchSim(cs: map<string, Concept>, base: Ledger, ren: Renaming, p: Path, next: nat, run: Run)
    requires Simulated(cs, base, ren, p, next, run) && p.val.token.Some?
    ensures LedgerSim(base, ren, p.state.pending - {p.val.token.value}, next, Match(run.val, run.ledger))
  {
  }

  // ----- lists of paths -----

  lemma {:induction false} ProduceAt(ss: seq<State>, ty: Type, next: nat, i: nat) returns (n: nat)
    requires i < |ss|
    ensures next <= n && Produce(ss[i], ty, n).0 in ProduceAll(ss, ty, next).0 &&
      Produce(ss[i], ty, n).1 <= ProduceAll(ss, ty, next).1
    decreases i
  {
    var (p, m) := Produce(ss[0], ty, next);
    if i == 0 {
      n := next;
    } else {
      n := ProduceAt(ss[1..], ty, m, i - 1);
    }
  }

  lemma {:induction false} PairsAt(p: Program, r: Rule, e: Expr, ss: seq<State>, next: nat, want: Type, give: Type,
      skips: bool, env: map<string, Val>, i: nat)
    returns (n: nat)
    requires i < |ss| && AllScoped(ss, env) && ExplorePairs(p, r, e, ss, next, want, give, skips, env).Some?
    ensures next <= n
    ensures var (skip, m) := Skip(ss[i], n, give, skips);
      var one, out := ExploreThen(p, r, e, ss[i], m, want, give),
        ExplorePairs(p, r, e, ss, next, want, give, skips, env).value;
      && one.Some? && one.value.1 <= out.1 && m <= out.1
      && (forall q | q in skip :: q in out.0) && forall q | q in one.value.0 :: q in out.0
    decreases i
  {
    var one := ExploreRight(p, r, e, ss[0], next, want, give, skips).value;
    assert Scoped(ExplorePairs(p, r, e, ss[1..], one.1, want, give, skips, env), env, one.1);
    if i == 0 {
      n := next;
    } else {
      n := PairsAt(p, r, e, ss[1..], one.1, want, give, skips, env, i - 1);
    }
  }

  lemma {:induction false} ArmsAt(p: Program, r: Rule, e: Expr, ss: seq<State>, next: nat, env: map<string, Val>,
      i: nat)
    returns (n: nat, m: nat)
    requires e.If? && i < |ss| && AllScoped(ss, env) && ExploreArms(p, r, e, ss, next, env).Some?
    ensures next <= n <= m
    ensures var a, b, out := Explore(p, r, e.yes, ss[i], n), Explore(p, r, e.no, ss[i], m),
      ExploreArms(p, r, e, ss, next, env).value;
      && a.Some? && b.Some? && a.value.1 <= out.1 && b.value.1 <= out.1
      && (forall q | q in a.value.0 :: q in out.0) && forall q | q in b.value.0 :: q in out.0
    decreases i
  {
    var a := Explore(p, r, e.yes, ss[0], next).value;
    var b := Explore(p, r, e.no, ss[0], a.1).value;
    assert Scoped(ExploreArms(p, r, e, ss[1..], b.1, env), env, b.1);
    if i == 0 {
      n, m := next, a.1;
    } else {
      n, m := ArmsAt(p, r, e, ss[1..], b.1, env, i - 1);
    }
  }

  lemma {:induction false} MatchesAt(p: Program, r: Rule, e: Expr, ps: seq<Path>, next: nat, env: map<string, Val>,
      i: nat)
    returns (n: nat, m: nat)
    requires e.MatchResult? && i < |ps| && (forall i | 0 <= i < |ps| :: ps[i].state.env == env)
    requires ExploreMatches(p, r, e, ps, next, env).Some?
    ensures next <= n <= m && ps[i].val.ty == BoundedResult && ps[i].val.token.Some?
    ensures var s := ps[i].state.(pending := ps[i].state.pending - {ps[i].val.token.value});
      var a := ExploreBound(p, r, e.okBody, s, e.okVar, TNumber, n);
      var b := ExploreBound(p, r, e.errBody, s, e.errVar, TBoundsError, m);
      var out := ExploreMatches(p, r, e, ps, next, env).value;
      && a.Some? && b.Some? && a.value.1 <= out.1 && b.value.1 <= out.1
      && (forall q | q in a.value.0 :: q in out.0) && forall q | q in b.value.0 :: q in out.0
    decreases i
  {
    var s := ps[0].state.(pending := ps[0].state.pending - {ps[0].val.token.value});
    var a := ExploreBound(p, r, e.okBody, s, e.okVar, TNumber, next).value;
    var b := ExploreBound(p, r, e.errBody, s, e.errVar, TBoundsError, a.1).value;
    assert Scoped(ExploreMatches(p, r, e, ps[1..], b.1, env), env, b.1);
    if i == 0 {
      n, m := next, a.1;
    } else {
      n, m := MatchesAt(p, r, e, ps[1..], b.1, env, i - 1);
    }
  }

  // ----- expressions -----

  ghost predicate At(j: Job, ren: Renaming, s: State, next: nat, env: TaggedEnv, l: Ledger) {
    EnvSim(j, ren, s.env, env) && LedgerSim(j.base, ren, s.pending, next, l)
  }

  lemma FollowsLift(j: Job, ren: Renaming, big: Renaming, ps: seq<Path>, n: nat, qs: seq<Path>, m: nat, t: Res<Run>)
    requires Follows(j, big, ps, n, t) && Extends(ren, big) && n <= m && forall p | p in ps :: p in qs
    ensures Follows(j, ren, qs, m, t)
  {
    if t.Good? {
      var p: Path, huge: Renaming :| p in ps && Extends(big, huge) &&
        Simulated(j.c.prog.concepts, j.base, huge, p, n, t.value);
      assert p in qs && Extends(ren, huge) && Simulated(j.c.prog.concepts, j.base, huge, p, m, t.value);
    }
  }

  lemma FollowsPick(j: Job, ren: Renaming, ps: seq<Path>, next: nat, run: Run) returns (i: nat, big: Renaming)
    requires Follows(j, ren, ps, next, Good(run))
    ensures i < |ps| && Extends(ren, big) && Simulated(j.c.prog.concepts, j.base, big, ps[i], next, run)
  {
    var p: Path, huge: Renaming :| p in ps && Extends(ren, huge) &&
      Simulated(j.c.prog.concepts, j.base, huge, p, next, run);
    i :| i < |ps| && ps[i] == p;
    big := huge;
  }

  lemma ProduceFollows(j: Job, ren: Renaming, s: State, ty: Type, next: nat, v: Value, l: Ledger, ps: seq<Path>, n: nat)
    requires LedgerSim(j.base, ren, s.pending, next, l) && HasType(j.c.prog.concepts, v, ty) && Simple(ty)
    requires Produce(s, ty, next).0 in ps && Produce(s, ty, next).1 <= n
    ensures Follows(j, ren, ps, n, Good(Issue(v, l)))
  {
    var big := IssueSim(j.c.prog.concepts, j.base, ren, s, ty, next, v, l);
    assert Simulated(j.c.prog.concepts, j.base, big, Produce(s, ty, next).0, n, Issue(v, l));
  }

  lemma {:induction false} ExprSim(j: Job, e: Expr, s: State, next: nat, env: TaggedEnv, l: Ledger, ren: Renaming)
    requires Ready(j, e) && At(j, ren, s, next, env, l) && Explore(j.c.prog, j.r, e, s, next).Some?
    ensures var out := Explore(j.c.prog, j.r, e, s, next).value;
      Follows(j, ren, out.0, out.1, Trace(j.c, e, env, l, j.k))
    decreases e, 3
  {
    match e
    case Number(n) => ProduceFollows(j, ren, s, TNumber, next, VNumber(n), l, [Produce(s, TNumber, next).0], next);
    case Text(b) => ProduceFollows(j, ren, s, TText, next, VText(b), l, [Produce(s, TText, next).0], next);
    case BytesLit(b) => ProduceFollows(j, ren, s, TBytes, next, VBytes(b), l, [Produce(s, TBytes, next).0], next);
    case Ident(_) => IdentSim(j, e, s, next, env, l, ren);
    case Field(_, _) => FieldSim(j, e, s, next, env, l, ren);
    case Call(_, _) => CallSim(j, e, s, next, env, l, ren);
    case Unary(_, _) => UnarySim(j, e, s, next, env, l, ren);
    case TryByteAt(_, _) => TryByteSim(j, e, s, next, env, l, ren);
    case Prim(op, _, _) =>
      if op.ByteAt? {
        ByteAtSim(j, e, s, next, env, l, ren);
      } else {
        PrimSim(j, e, s, next, env, l, ren);
      }
    case Binary(_, _, _) => BinarySim(j, e, s, next, env, l, ren);
    case If(_, _, _) => IfSim(j, e, s, next, env, l, ren);
    case MatchResult(_, _, _, _, _) => MatchResultSim(j, e, s, next, env, l, ren);
  }

  lemma IdentSim(j: Job, e: Expr, s: State, next: nat, env: TaggedEnv, l: Ledger, ren: Renaming)
    requires Ready(j, e) && At(j, ren, s, next, env, l) && Explore(j.c.prog, j.r, e, s, next).Some? && e.Ident?
    ensures var out := Explore(j.c.prog, j.r, e, s, next).value;
      Follows(j, ren, out.0, out.1, Trace(j.c, e, env, l, j.k))
  {
    if e.name in s.env {
      assert Simulated(j.c.prog.concepts, j.base, ren, Path(s, s.env[e.name]), next, Run(env[e.name], l));
    }
  }

  lemma FieldSim(j: Job, e: Expr, s: State, next: nat, env: TaggedEnv, l: Ledger, ren: Renaming)
    requires Ready(j, e) && At(j, ren, s, next, env, l) && Explore(j.c.prog, j.r, e, s, next).Some? && e.Field?
    ensures var out := Explore(j.c.prog, j.r, e, s, next).value;
      Follows(j, ren, out.0, out.1, Trace(j.c, e, env, l, j.k))
  {
    var v := j.v.fields[e.field];
    assert Eval(j.c, e, Plain(env), j.k) == Good(v);
    ProduceFollows(j, ren, s, TNumber, next, v, l, [Produce(s, TNumber, next).0], next);
  }

  /** A callee's result is a fresh token of the path. */
  lemma ReturnSim(j: Job, ren: Renaming, s: State, next: nat, l: Ledger, i: Job, run: Run)
    requires LedgerSim(j.base, ren, s.pending, next, l) && i.base == l && i.c == j.c && Simple(i.r.outputTy)
    requires Ends(i, Good(run))
    ensures var (p, n) := Produce(s, i.r.outputTy, next); Follows(j, ren, [p], n, Good(run))
  {
    var (p, n) := Produce(s, i.r.outputTy, next);
    var big := if i.r.outputTy == BoundedResult then ren[run.val.token.value := next + 1] else ren;
    assert Simulated(j.c.prog.concepts, j.base, big, p, n, run);
  }

  lemma CallSim(j: Job, e: Expr, s: State, next: nat, env: TaggedEnv, l: Ledger, ren: Renaming)
    requires Ready(j, e) && At(j, ren, s, next, env, l) && Explore(j.c.prog, j.r, e, s, next).Some? && e.Call?
    ensures var out := Explore(j.c.prog, j.r, e, s, next).value;
      Follows(j, ren, out.0, out.1, Trace(j.c, e, env, l, j.k))
  {
    var callee := j.c.prog.rules[e.callee];
    assert CalleeRuns(j, e.callee) && CalleeEnds(j, e.callee, l);
    assert Trace(j.c, e.args[0], env, l, j.k) == Good(Run(Tagged(j.v, None), l));
    var t := TraceRule(j.c, callee, Tagged(j.v, None), l, j.k - 1);
    if t.Good? {
      ReturnSim(j, ren, s, next, l, Callee(j, e.callee, l), t.value);
    }
  }

  /** The states after an operand, and the one its run ends in. */
  lemma {:induction false} TypedSim(j: Job, e: Expr, s: State, next: nat, env: TaggedEnv, l: Ledger, ren: Renaming,
      ty: Type)
    returns (i: nat, big: Renaming)
    requires Ready(j, e) && At(j, ren, s, next, env, l) && ExploreTyped(j.c.prog, j.r, e, s, next, ty).Some?
    ensures var out, t := ExploreTyped(j.c.prog, j.r, e, s, next, ty).value, Trace(j.c, e, env, l, j.k);
      if t.Bad? then Allowed(j, t.fault)
      else
        && i < |out.0| && Extends(ren, big) && At(j, big, out.0[i], out.1, env, t.value.ledger)
        && HasType(j.c.prog.concepts, t.value.val.v, ty)
    decreases e, 4
  {
    ExprSim(j, e, s, next, env, l, ren);
    var out := Explore(j.c.prog, j.r, e, s, next).value;
    i, big := TypedPick(j, ren, s.env, out.0, out.1, env, ty, Trace(j.c, e, env, l, j.k));
  }

  lemma TypedPick(j: Job, ren: Renaming, a: map<string, Val>, ps: seq<Path>, next: nat, env: TaggedEnv, ty: Type,
      t: Res<Run>)
    returns (i: nat, big: Renaming)
    requires EnvSim(j, ren, a, env) && Follows(j, ren, ps, next, t)
    requires forall i | 0 <= i < |ps| :: ps[i].state.env == a && ps[i].val.ty == ty
    ensures
      if t.Bad? then Allowed(j, t.fault)
      else
        && i < |ps| && Extends(ren, big) && At(j, big, ps[i].state, next, env, t.value.ledger)
        && HasType(j.c.prog.concepts, t.value.val.v, ty)
  {
    i, big := 0, ren;
    if t.Good? {
      i, big := FollowsPick(j, ren, ps, next, t.value);
      EnvGrows(j, ren, big, a, env);
    }
  }

  /** `t` continues an operand's run `r` by computing a value of type `give`. */
  ghost predicate Continues(j: Job, r: Res<Run>, t: Res<Run>, want: Type, give: Type) {
    if r.Bad? then t.Bad? && t.fault == r.fault
    else HasType(j.c.prog.concepts, r.value.val.v, want) ==>
      if t.Bad? then Allowed(j, t.fault)
      else t.value == Issue(t.value.val.v, r.value.ledger) && HasType(j.c.prog.concepts, t.value.val.v, give)
  }

  lemma {:induction false} ThenSim(j: Job, e: Expr, s: State, next: nat, env: TaggedEnv, l: Ledger, ren: Renaming,
      want: Type, give: Type, t: Res<Run>)
    requires Ready(j, e) && At(j, ren, s, next, env, l) && ExploreThen(j.c.prog, j.r, e, s, next, want, give).Some?
    requires Simple(give) && Continues(j, Trace(j.c, e, env, l, j.k), t, want, give)
    ensures var out := ExploreThen(j.c.prog, j.r, e, s, next, want, give).value; Follows(j, ren, out.0, out.1, t)
    decreases e, 5
  {
    var i, big := TypedSim(j, e, s, next, env, l, ren, want);
    if t.Good? {
      var (ss, n) := ExploreTyped(j.c.prog, j.r, e, s, next, want).value;
      var m := ProduceAt(ss, give, n, i);
      var v, l' := t.value.val.v, Trace(j.c, e, env, l, j.k).value.ledger;
      LedgerGrows(j.base, big, ss[i].pending, n, m, l');
      var out := ProduceAll(ss, give, n);
      ProduceFollows(j, big, ss[i], give, m, v, l', out.0, out.1);
      FollowsLift(j, ren, big, out.0, out.1, out.0, out.1, t);
    }
  }

  lemma UnaryTyped(j: Job, op: UnOp, v: Value)
    requires Source(j.c.sem) && UnaryTypes(op).Some? && HasType(j.c.prog.concepts, v, UnaryTypes(op).value.0)
    ensures var w := ApplyUnary(j.c.sem, op, v);
      if w.Bad? then Allowed(j, w.fault) else HasType(j.c.prog.concepts, w.value, UnaryTypes(op).value.1)
  {
  }

  lemma {:induction false} UnarySim(j: Job, e: Expr, s: State, next: nat, env: TaggedEnv, l: Ledger, ren: Renaming)
    requires Ready(j, e) && At(j, ren, s, next, env, l) && Explore(j.c.prog, j.r, e, s, next).Some? && e.Unary?
    ensures var out := Explore(j.c.prog, j.r, e, s, next).value;
      Follows(j, ren, out.0, out.1, Trace(j.c, e, env, l, j.k))
    decreases e, 0
  {
    ReadyChild(j, e, e.arg);
    var ty := UnaryTypes(e.uop).value;
    var t := Trace(j.c, e, env, l, j.k);
    var r := Trace(j.c, e.arg, env, l, j.k);
    if r.Good? && HasType(j.c.prog.concepts, r.value.val.v, ty.0) {
      UnaryTyped(j, e.uop, r.value.val.v);
    }
    assert Continues(j, r, t, ty.0, ty.1);
    ThenSim(j, e.arg, s, next, env, l, ren, ty.0, ty.1, t);
  }

  lemma {:induction false} TryByteSim(j: Job, e: Expr, s: State, next: nat, env: TaggedEnv, l: Ledger, ren: Renaming)
    requires Ready(j, e) && At(j, ren, s, next, env, l) && Explore(j.c.prog, j.r, e, s, next).Some? && e.TryByteAt?
    ensures var out := Explore(j.c.prog, j.r, e, s, next).value;
      Follows(j, ren, out.0, out.1, Trace(j.c, e, env, l, j.k))
    decreases e, 0
  {
    ReadyChild(j, e, e.index);
    var t := Trace(j.c, e, env, l, j.k);
    assert Continues(j, Trace(j.c, e.index, env, l, j.k), t, TNumber, BoundedResult);
    ThenSim(j, e.index, s, next, env, l, ren, TNumber, BoundedResult, t);
  }

  /** The right operand, continued, from the state its left operand's run ended in. */
  lemma {:induction false} PairsSim(j: Job, e: Expr, ss: seq<State>, next: nat, i: nat, env: TaggedEnv, l: Ledger,
      ren: Renaming, want: Type, give: Type, skips: bool, a: map<string, Val>, t: Res<Run>)
    requires i < |ss| && AllScoped(ss, a) && ExplorePairs(j.c.prog, j.r, e, ss, next, want, give, skips, a).Some?
    requires Ready(j, e) && At(j, ren, ss[i], next, env, l) && Simple(give) && (skips ==> give != BoundedResult)
    requires || Continues(j, Trace(j.c, e, env, l, j.k), t, want, give)
             || (skips && t.Good? && t.value == Issue(t.value.val.v, l) &&
               HasType(j.c.prog.concepts, t.value.val.v, give))
    ensures var out := ExplorePairs(j.c.prog, j.r, e, ss, next, want, give, skips, a).value;
      Follows(j, ren, out.0, out.1, t)
    decreases e, 6
  {
    var n := PairsAt(j.c.prog, j.r, e, ss, next, want, give, skips, a, i);
    var m := Skip(ss[i], n, give, skips).1;
    var out := ExplorePairs(j.c.prog, j.r, e, ss, next, want, give, skips, a).value;
    if Continues(j, Trace(j.c, e, env, l, j.k), t, want, give) {
      var one := ExploreThen(j.c.prog, j.r, e, ss[i], m, want, give).value;
      LedgerGrows(j.base, ren, ss[i].pending, next, m, l);
      ThenSim(j, e, ss[i], m, env, l, ren, want, give, t);
      FollowsLift(j, ren, ren, one.0, one.1, out.0, out.1, t);
    } else {
      LedgerGrows(j.base, ren, ss[i].pending, next, n, l);
      assert Produce(ss[i], give, n).0 in Skip(ss[i], n, give, skips).0;
      ProduceFollows(j, ren, ss[i], give, n, t.value.val.v, l, out.0, out.1);
    }
  }

  lemma {:induction false} ByteAtSim(j: Job, e: Expr, s: State, next: nat, env: TaggedEnv, l: Ledger, ren: Renaming)
    requires Ready(j, e) && At(j, ren, s, next, env, l) && Explore(j.c.prog, j.r, e, s, next).Some? && e.Prim? &&
      e.pop.ByteAt?
    ensures var out := Explore(j.c.prog, j.r, e, s, next).value;
      Follows(j, ren, out.0, out.1, Trace(j.c, e, env, l, j.k))
    decreases e, 0
  {
    ReadyChild(j, e, e.arg1);
    var t := Trace(j.c, e, env, l, j.k);
    var table := Eval(j.c, e.arg0, Plain(env), j.k).value;
    assert Trace(j.c, e.arg0, env, l, j.k) == Good(Issue(table, l));
    assert Continues(j, Trace(j.c, e.arg1, env, l, j.k), t, TNumber, TNumber);
    ThenSim(j, e.arg1, s, next, env, l, ren, TNumber, TNumber, t);
  }

  lemma ScalarPrim(m: Sem, op: PrimOp, a: Value, b: Value)
    requires IsScalarPrim(op) && a.VNumber? && b.VNumber?
    ensures ApplyPrim(m, op, a, b).Good? && ApplyPrim(m, op, a, b).value.VNumber?
  {
  }

  lemma PrimContinues(j: Job, e: Expr, env: TaggedEnv, l: Ledger, r: Run)
    requires e.Prim? && IsScalarPrim(e.pop) && Trace(j.c, e.arg0, env, l, j.k) == Good(r) && r.val.v.VNumber?
    ensures Continues(j, Trace(j.c, e.arg1, env, r.ledger, j.k), Trace(j.c, e, env, l, j.k), TNumber, TNumber)
  {
    var s := Trace(j.c, e.arg1, env, r.ledger, j.k);
    PrimTrace(j.c, e, env, l, j.k, r, s);
    if s.Good? && s.value.val.v.VNumber? {
      ScalarPrim(j.c.sem, e.pop, r.val.v, s.value.val.v);
    }
  }

  lemma PrimTrace(c: Ctx, e: Expr, env: TaggedEnv, l: Ledger, k: nat, r: Run, s: Res<Run>)
    requires e.Prim? && Trace(c, e.arg0, env, l, k) == Good(r) && Trace(c, e.arg1, env, r.ledger, k) == s
    ensures Trace(c, e, env, l, k) ==
      if s.Bad? then s
      else
        var v := ApplyPrim(c.sem, e.pop, r.val.v, s.value.val.v);
        if v.Bad? then Bad(v.fault) else Good(Issue(v.value, s.value.ledger))
  {
  }

  lemma {:induction false} PrimSim(j: Job, e: Expr, s: State, next: nat, env: TaggedEnv, l: Ledger, ren: Renaming)
    requires Ready(j, e) && At(j, ren, s, next, env, l) && Explore(j.c.prog, j.r, e, s, next).Some? && e.Prim? &&
      !e.pop.ByteAt?
    ensures var out := Explore(j.c.prog, j.r, e, s, next).value;
      Follows(j, ren, out.0, out.1, Trace(j.c, e, env, l, j.k))
    decreases e, 1
  {
    ReadyChild(j, e, e.arg0);
    ReadyChild(j, e, e.arg1);
    var t := Trace(j.c, e, env, l, j.k);
    var i, big := TypedSim(j, e.arg0, s, next, env, l, ren, TNumber);
    var r := Trace(j.c, e.arg0, env, l, j.k);
    if r.Good? {
      var (ss, n) := ExploreTyped(j.c.prog, j.r, e.arg0, s, next, TNumber).value;
      PrimContinues(j, e, env, l, r.value);
      PairsSim(j, e.arg1, ss, n, i, env, r.value.ledger, big, TNumber, TNumber, false, s.env, t);
      var out := Explore(j.c.prog, j.r, e, s, next).value;
      FollowsLift(j, ren, big, out.0, out.1, out.0, out.1, t);
    }
  }

  lemma {:induction false} BinarySim(j: Job, e: Expr, s: State, next: nat, env: TaggedEnv, l: Ledger, ren: Renaming)
    requires Ready(j, e) && At(j, ren, s, next, env, l) && Explore(j.c.prog, j.r, e, s, next).Some? && e.Binary?
    ensures var out := Explore(j.c.prog, j.r, e, s, next).value;
      Follows(j, ren, out.0, out.1, Trace(j.c, e, env, l, j.k))
    decreases e, 1
  {
    ReadyChild(j, e, e.left);
    ReadyChild(j, e, e.right);
    var t := Trace(j.c, e, env, l, j.k);
    var want, give, skips := OperandType(e.op), ResultOf(e.op), e.op.And? || e.op.Or?;
    var i, big := TypedSim(j, e.left, s, next, env, l, ren, want);
    var r := Trace(j.c, e.left, env, l, j.k);
    if r.Good? {
      var (ss, n) := ExploreTyped(j.c.prog, j.r, e.left, s, next, want).value;
      BinaryContinues(j, e, env, l, r.value);
      PairsSim(j, e.right, ss, n, i, env, r.value.ledger, big, want, give, skips, s.env, t);
      var out := Explore(j.c.prog, j.r, e, s, next).value;
      FollowsLift(j, ren, big, out.0, out.1, out.0, out.1, t);
    }
  }

  lemma BinaryContinues(j: Job, e: Expr, env: TaggedEnv, l: Ledger, r: Run)
    requires e.Binary? && Source(j.c.sem) && Trace(j.c, e.left, env, l, j.k) == Good(r)
    requires HasType(j.c.prog.concepts, r.val.v, OperandType(e.op))
    ensures var t := Trace(j.c, e, env, l, j.k);
      || Continues(j, Trace(j.c, e.right, env, r.ledger, j.k), t, OperandType(e.op), ResultOf(e.op))
      || ((e.op.And? || e.op.Or?) && t.Good? && t.value == Issue(t.value.val.v, r.ledger) &&
        HasType(j.c.prog.concepts, t.value.val.v, TBool))
  {
    var s := Trace(j.c, e.right, env, r.ledger, j.k);
    if !e.op.And? && !e.op.Or? && s.Good? && s.value.val.v.VNumber? {
      ScalarBinary(j, e.op, r.val.v, s.value.val.v);
    }
  }

  lemma ScalarBinary(j: Job, op: BinOp, a: Value, b: Value)
    requires Source(j.c.sem) && !op.And? && !op.Or? && a.VNumber? && b.VNumber?
    ensures var v := ApplyBinary(j.c.sem, op, a, b);
      if v.Bad? then Allowed(j, v.fault) else HasType(j.c.prog.concepts, v.value, ResultOf(op))
  {
  }

  lemma {:induction false} IfSim(j: Job, e: Expr, s: State, next: nat, env: TaggedEnv, l: Ledger, ren: Renaming)
    requires Ready(j, e) && At(j, ren, s, next, env, l) && Explore(j.c.prog, j.r, e, s, next).Some? && e.If?
    ensures var out := Explore(j.c.prog, j.r, e, s, next).value;
      Follows(j, ren, out.0, out.1, Trace(j.c, e, env, l, j.k))
    decreases e, 1
  {
    ReadyChild(j, e, e.cond);
    ReadyChild(j, e, e.yes);
    ReadyChild(j, e, e.no);
    var i, big := TypedSim(j, e.cond, s, next, env, l, ren, TBool);
    var q := Trace(j.c, e.cond, env, l, j.k);
    if q.Good? {
      var (ss, n0) := ExploreTyped(j.c.prog, j.r, e.cond, s, next, TBool).value;
      var n, m := ArmsAt(j.c.prog, j.r, e, ss, n0, s.env, i);
      var arm, at := if q.value.val.v.b then e.yes else e.no, if q.value.val.v.b then n else m;
      LedgerGrows(j.base, big, ss[i].pending, n0, at, q.value.ledger);
      ExprSim(j, arm, ss[i], at, env, q.value.ledger, big);
      var one, out := Explore(j.c.prog, j.r, arm, ss[i], at).value, ExploreArms(j.c.prog, j.r, e, ss, n0, s.env).value;
      FollowsLift(j, ren, big, one.0, one.1, out.0, out.1, Trace(j.c, arm, env, q.value.ledger, j.k));
    }
  }

  lemma RestoreSim(j: Job, ren: Renaming, big: Renaming, ps: seq<Path>, next: nat, i: nat, x: string,
      outer: map<string, Val>, run: Run)
    requires i < |ps| && Extends(ren, big) && Simulated(j.c.prog.concepts, j.base, big, ps[i], next, run)
    ensures Follows(j, ren, Restore(ps, x, outer), next, Good(run))
  {
    var q := RestoreOne(ps[i], x, outer);
    assert q in Restore(ps, x, outer);
    assert Simulated(j.c.prog.concepts, j.base, big, q, next, run);
  }

  lemma {:induction false} BoundSim(j: Job, e: Expr, s: State, x: string, ty: Type, next: nat, env: TaggedEnv,
      v: Value, l: Ledger, ren: Renaming)
    requires Ready(j, e) && At(j, ren, s, next, env, l) && ExploreBound(j.c.prog, j.r, e, s, x, ty, next).Some?
    requires ty in {TNumber, TBoundsError} && HasType(j.c.prog.concepts, v, ty)
    ensures var out := ExploreBound(j.c.prog, j.r, e, s, x, ty, next).value;
      Follows(j, ren, out.0, out.1, Trace(j.c, e, env[x := Tagged(v, None)], l, j.k))
    decreases e, 4
  {
    var inner := s.(env := s.env[x := Val(ty, None)]);
    var env' := env[x := Tagged(v, None)];
    assert At(j, ren, inner, next, env', l);
    ExprSim(j, e, inner, next, env', l, ren);
    var t, out := Trace(j.c, e, env', l, j.k), Explore(j.c.prog, j.r, e, inner, next).value;
    if t.Good? {
      var i, big := FollowsPick(j, ren, out.0, out.1, t.value);
      RestoreSim(j, ren, big, out.0, out.1, i, x, s.env, t.value);
    }
  }

  /** What a match does once its scrutinee is known. */
  function TraceArm(c: Ctx, e: Expr, env: TaggedEnv, r: Run, k: nat): Res<Run>
    requires e.MatchResult?
  {
    var l := Match(r.val, r.ledger);
    if r.val.v.VOk? then Trace(c, e.okBody, env[e.okVar := Tagged(r.val.v.inner, None)], l, k)
    else if r.val.v.VErr? then Trace(c, e.errBody, env[e.errVar := Tagged(r.val.v.inner, None)], l, k)
    else Bad(Stuck)
  }

  lemma {:induction false} MatchArmSim(j: Job, e: Expr, ps: seq<Path>, next: nat, i: nat, a: map<string, Val>,
      env: TaggedEnv, r: Run, ren: Renaming)
    requires e.MatchResult? && i < |ps| && (forall i | 0 <= i < |ps| :: ps[i].state.env == a)
    requires ExploreMatches(j.c.prog, j.r, e, ps, next, a).Some?
    requires Ready(j, e.okBody) && Ready(j, e.errBody)
    requires EnvSim(j, ren, a, env) && Simulated(j.c.prog.concepts, j.base, ren, ps[i], next, r)
    ensures var out := ExploreMatches(j.c.prog, j.r, e, ps, next, a).value;
      Follows(j, ren, out.0, out.1, TraceArm(j.c, e, env, r, j.k))
    decreases e, 0, 0
  {
    var n, m := MatchesAt(j.c.prog, j.r, e, ps, next, a, i);
    var s := ps[i].state.(pending := ps[i].state.pending - {ps[i].val.token.value});
    var l := Match(r.val, r.ledger);
    var out := ExploreMatches(j.c.prog, j.r, e, ps, next, a).value;
    MatchSim(j.c.prog.concepts, j.base, ren, ps[i], next, r);
    if r.val.v.VOk? {
      LedgerGrows(j.base, ren, s.pending, next, n, l);
      BoundSim(j, e.okBody, s, e.okVar, TNumber, n, env, r.val.v.inner, l, ren);
      var one := ExploreBound(j.c.prog, j.r, e.okBody, s, e.okVar, TNumber, n).value;
      FollowsLift(j, ren, ren, one.0, one.1, out.0, out.1, TraceArm(j.c, e, env, r, j.k));
    } else {
      LedgerGrows(j.base, ren, s.pending, next, m, l);
      BoundSim(j, e.errBody, s, e.errVar, TBoundsError, m, env, r.val.v.inner, l, ren);
      var one := ExploreBound(j.c.prog, j.r, e.errBody, s, e.errVar, TBoundsError, m).value;
      FollowsLift(j, ren, ren, one.0, one.1, out.0, out.1, TraceArm(j.c, e, env, r, j.k));
    }
  }

  lemma {:induction false} MatchResultSim(j: Job, e: Expr, s: State, next: nat, env: TaggedEnv, l: Ledger,
      ren: Renaming)
    requires Ready(j, e) && At(j, ren, s, next, env, l) && Explore(j.c.prog, j.r, e, s, next).Some? && e.MatchResult?
    ensures var out := Explore(j.c.prog, j.r, e, s, next).value;
      Follows(j, ren, out.0, out.1, Trace(j.c, e, env, l, j.k))
    decreases e, 1
  {
    ReadyChild(j, e, e.target);
    ReadyChild(j, e, e.okBody);
    ReadyChild(j, e, e.errBody);
    ExprSim(j, e.target, s, next, env, l, ren);
    var (ps, n0) := Explore(j.c.prog, j.r, e.target, s, next).value;
    var q := Trace(j.c, e.target, env, l, j.k);
    if q.Good? {
      MatchedSim(j, e, ps, n0, s.env, env, q.value, ren);
      assert TraceArm(j.c, e, env, q.value, j.k) == Trace(j.c, e, env, l, j.k);
    }
  }

  lemma {:induction false} MatchedSim(j: Job, e: Expr, ps: seq<Path>, next: nat, a: map<string, Val>, env: TaggedEnv,
      r: Run, ren: Renaming)
    requires e.MatchResult? && (forall i | 0 <= i < |ps| :: ps[i].state.env == a)
    requires ExploreMatches(j.c.prog, j.r, e, ps, next, a).Some?
    requires Ready(j, e.okBody) && Ready(j, e.errBody)
    requires EnvSim(j, ren, a, env) && Follows(j, ren, ps, next, Good(r))
    ensures var out := ExploreMatches(j.c.prog, j.r, e, ps, next, a).value;
      Follows(j, ren, out.0, out.1, TraceArm(j.c, e, env, r, j.k))
    decreases e, 0, 1
  {
    var i, big := FollowsPick(j, ren, ps, next, r);
    EnvGrows(j, ren, big, a, env);
    MatchArmSim(j, e, ps, next, i, a, env, r, big);
    var out := ExploreMatches(j.c.prog, j.r, e, ps, next, a).value;
    FollowsLift(j, ren, big, out.0, out.1, out.0, out.1, TraceArm(j.c, e, env, r, j.k));
  }
}
