/** The checker object of the bounded-result contract: a token counter and a
    step counter threaded through loops over paths. */
module BoundedObject {
  import opened Ast
  import opened Interp
  import opened Participation
  import opened CallCycles
  import opened BoundedPaths
  import opened BoundedCheck

  const LIMIT: nat := 100_000

  datatype Outcome<T> = Found(value: T) | Refusal | OutOfSteps

  /** What an outcome says of the specification's result. */
  predicate Agrees<T(==)>(o: Outcome<seq<T>>, spec: Option<(seq<T>, nat)>, next: nat) {
    match o
    case Found(ps) => spec == Some((ps, next))
    case Refusal => spec.None?
    case OutOfSteps => true
  }

  class Check {
    const prog: Program
    const rule: Rule
    var next: nat
    var steps: nat

    constructor (prog: Program, rule: Rule)
      ensures this.prog == prog && this.rule == rule && next == 0 && steps == 0
    {
      this.prog, this.rule, next, steps := prog, rule, 0, 0;
    }

    /** One value, with a fresh token if it is a bounded result. */
    method Value(s: State, ty: Type) returns (p: Path)
      modifies this`next
      ensures (p, next) == Produce(s, ty, old(next))
    {
      if ty == BoundedResult {
        next := next + 1;
        p := Path(s.(pending := s.pending + {next}), Val(ty, Some(next)));
      } else {
        p := Path(s, Val(ty, None));
      }
    }

    method Values(ss: seq<State>, ty: Type) returns (ps: seq<Path>)
      modifies this`next
      ensures (ps, next) == ProduceAll(ss, ty, old(next))
    {
      ps := [];
      ghost var all := ProduceAll(ss, ty, next);
      assert ss[0..] == ss && [] + all.0 == all.0;
      for i := 0 to |ss|
        invariant all.0 == ps + ProduceAll(ss[i..], ty, next).0 && all.1 == ProduceAll(ss[i..], ty, next).1
      {
        ProduceStep(ss, i, ty, next, ps);
        var p := Value(ss[i], ty);
        ps := ps + [p];
      }
      assert ss[|ss|..] == [] && ps + [] == ps;
    }

    /** The states after `e`, if it has type `ty` on every path. */
    method Typed(e: Expr, s: State, ty: Type) returns (o: Outcome<seq<State>>)
      requires steps <= LIMIT
      modifies this
      ensures steps > old(steps) && (o.OutOfSteps? <==> steps > LIMIT)
      ensures Agrees(o, ExploreTyped(prog, rule, e, s, old(next), ty), next)
      decreases e, 3
    {
      var ps := Explored(e, s);
      match ps
      case Refusal => return Refusal;
      case OutOfSteps => return OutOfSteps;
      case Found(ps) =>
        var ss: seq<State> := [];
        for i := 0 to |ps|
          invariant |ss| == i && forall k | 0 <= k < i :: ps[k].val.ty == ty && ss[k] == ps[k].state
        {
          if ps[i].val.ty != ty {
            assert Expect(ps, ty).None?;
            return Refusal;
          }
          ss := ss + [ps[i].state];
        }
        assert Expect(ps, ty).value == ss;
        return Found(ss);
    }

    /** An operand of type `want` turned into values of type `give`. */
    method Then(e: Expr, s: State, want: Type, give: Type) returns (o: Outcome<seq<Path>>)
      requires steps <= LIMIT
      modifies this
      ensures steps > old(steps) && (o.OutOfSteps? <==> steps > LIMIT)
      ensures Agrees(o, ExploreThen(prog, rule, e, s, old(next), want, give), next)
      decreases e, 4
    {
      var ss := Typed(e, s, want);
      match ss
      case Refusal => return Refusal;
      case OutOfSteps => return OutOfSteps;
      case Found(ss) =>
        var ps := Values(ss, give);
        return Found(ps);
    }

    /** The right operand from one state, after the path that skips it. */
    method Right(e: Expr, s: State, want: Type, give: Type, skips: bool) returns (o: Outcome<seq<Path>>)
      requires steps <= LIMIT
      modifies this
      ensures steps > old(steps) && (o.OutOfSteps? <==> steps > LIMIT)
      ensures Agrees(o, ExploreRight(prog, rule, e, s, old(next), want, give, skips), next)
      decreases e, 5
    {
      var skip := [];
      if skips {
        var p := Value(s, give);
        skip := [p];
      }
      var ps := Then(e, s, want, give);
      match ps
      case Refusal => return Refusal;
      case OutOfSteps => return OutOfSteps;
      case Found(ps) => return Found(skip + ps);
    }

    /** The right operand from each state the left one leaves. */
    method Pairs(e: Expr, ss: seq<State>, want: Type, give: Type, skips: bool, ghost env: map<string, Val>)
      returns (o: Outcome<seq<Path>>)
      requires steps <= LIMIT && AllScoped(ss, env)
      modifies this
      ensures steps >= old(steps) && (o.OutOfSteps? <==> steps > LIMIT)
      ensures Agrees(o, ExplorePairs(prog, rule, e, ss, old(next), want, give, skips, env), next)
      decreases e, 6
    {
      var out: seq<Path> := [];
      ghost var all := ExplorePairs(prog, rule, e, ss, next, want, give, skips, env);
      assert ss[0..] == ss;
      PrependNothing(all);
      for i := 0 to |ss|
        invariant old(steps) <= steps <= LIMIT
        invariant all == Prepend(out, ExplorePairs(prog, rule, e, ss[i..], next, want, give, skips, env))
      {
        PairsStep(prog, rule, e, ss, i, next, want, give, skips, env);
        var ps := Right(e, ss[i], want, give, skips);
        match ps
        case Refusal => return Refusal;
        case OutOfSteps => return OutOfSteps;
        case Found(ps) =>
          PrependTwice(out, ps, ExplorePairs(prog, rule, e, ss[i + 1..], next, want, give, skips, env));
          out := out + ps;
      }
      assert ss[|ss|..] == [] && out + [] == out;
      return Found(out);
    }

    /** Both branches from each state the condition leaves. */
    method Arms(e: Expr, ss: seq<State>, ghost env: map<string, Val>) returns (o: Outcome<seq<Path>>)
      requires e.If? && steps <= LIMIT && AllScoped(ss, env)
      modifies this
      ensures steps >= old(steps) && (o.OutOfSteps? <==> steps > LIMIT)
      ensures Agrees(o, ExploreArms(prog, rule, e, ss, old(next), env), next)
      decreases e, 0
    {
      var out: seq<Path> := [];
      ghost var all := ExploreArms(prog, rule, e, ss, next, env);
      assert ss[0..] == ss;
      PrependNothing(all);
      for i := 0 to |ss|
        invariant old(steps) <= steps <= LIMIT
        invariant all == Prepend(out, ExploreArms(prog, rule, e, ss[i..], next, env))
      {
        assert ss[i..][0] == ss[i] && ss[i..][1..] == ss[i + 1..];
        var ps := Explored(e.yes, ss[i]);
        if ps.Found? {
          var qs := Explored(e.no, ss[i]);
          if qs.Found? {
            PrependTwice(out, ps.value + qs.value, ExploreArms(prog, rule, e, ss[i + 1..], next, env));
            out := out + (ps.value + qs.value);
          } else {
            return qs;
          }
        } else {
          return ps;
        }
      }
      assert ss[|ss|..] == [] && out + [] == out;
      return Found(out);
    }

    /** One arm of a match, its binder in scope and put back on every path. */
    method Bound(e: Expr, s: State, x: string, ty: Type) returns (o: Outcome<seq<Path>>)
      requires steps <= LIMIT
      modifies this
      ensures steps > old(steps) && (o.OutOfSteps? <==> steps > LIMIT)
      ensures Agrees(o, ExploreBound(prog, rule, e, s, x, ty, old(next)), next)
      decreases e, 3
    {
      var ps := Explored(e, s.(env := s.env[x := Val(ty, None)]));
      if !ps.Found? {
        return ps;
      }
      var out: seq<Path> := [];
      for i := 0 to |ps.value|
        invariant |out| == i && forall k | 0 <= k < i :: out[k] == RestoreOne(ps.value[k], x, s.env)
      {
        out := out + [RestoreOne(ps.value[i], x, s.env)];
      }
      assert out == Restore(ps.value, x, s.env);
      return Found(out);
    }

    /** Discharges the matched token and explores both arms, for each scrutinee path. */
    method Matches(e: Expr, ps: seq<Path>, ghost env: map<string, Val>) returns (o: Outcome<seq<Path>>)
      requires e.MatchResult? && steps <= LIMIT && forall i | 0 <= i < |ps| :: ps[i].state.env == env
      modifies this
      ensures steps >= old(steps) && (o.OutOfSteps? <==> steps > LIMIT)
      ensures Agrees(o, ExploreMatches(prog, rule, e, ps, old(next), env), next)
      decreases e, 0
    {
      var out: seq<Path> := [];
      ghost var all := ExploreMatches(prog, rule, e, ps, next, env);
      assert ps[0..] == ps;
      PrependNothing(all);
      for i := 0 to |ps|
        invariant old(steps) <= steps <= LIMIT
        invariant all == Prepend(out, ExploreMatches(prog, rule, e, ps[i..], next, env))
      {
        assert ps[i..][0] == ps[i] && ps[i..][1..] == ps[i + 1..];
        if ps[i].val.ty != BoundedResult || ps[i].val.token.None? {
          return Refusal;
        }
        var s := ps[i].state.(pending := ps[i].state.pending - {ps[i].val.token.value});
        var oks := Bound(e.okBody, s, e.okVar, TNumber);
        if !oks.Found? {
          return oks;
        }
        var errs := Bound(e.errBody, s, e.errVar, TBoundsError);
        if !errs.Found? {
          return errs;
        }
        PrependTwice(out, oks.value + errs.value, ExploreMatches(prog, rule, e, ps[i + 1..], next, env));
        out := out + (oks.value + errs.value);
      }
      assert ps[|ps|..] == [] && out + [] == out;
      return Found(out);
    }

    method One(s: State, ty: Type) returns (o: Outcome<seq<Path>>)
      modifies this`next
      ensures o.Found? && Agrees(o, BoundedPaths.One(s, ty, old(next)), next)
    {
      var p := Value(s, ty);
      return Found([p]);
    }

    /** Every path of `e` from `s`, or a refusal, or the step limit. */
    method Explored(e: Expr, s: State) returns (o: Outcome<seq<Path>>)
      requires steps <= LIMIT
      modifies this
      ensures steps > old(steps) && (o.OutOfSteps? <==> steps > LIMIT)
      ensures Agrees(o, Explore(prog, rule, e, s, old(next)), next)
      decreases e, 2
    {
      steps := steps + 1;
      if steps > LIMIT {
        return OutOfSteps;
      }
      match e
      case Number(_) => o := One(s, TNumber);
      case Text(_) => o := One(s, TText);
      case BytesLit(_) => o := One(s, TBytes);
      case Ident(x) =>
        if x in s.env {
          o := Found([Path(s, s.env[x])]);
        } else if x == "true" || x == "false" {
          o := One(s, TBool);
        } else {
          o := Refusal;
        }
      case Field(b, f) =>
        var ty := FieldType(prog, rule, s, b, f);
        if ty.Some? { o := One(s, ty.value); } else { o := Refusal; }
      case Call(n, args) =>
        var ty := CallType(prog, rule, s, n, args);
        if ty.Some? { o := One(s, ty.value); } else { o := Refusal; }
      case TryByteAt(t, i) =>
        if IsTable(t) { o := Then(i, s, TNumber, BoundedResult); } else { o := Refusal; }
      case Unary(op, a) =>
        var t := UnaryTypes(op);
        if t.Some? { o := Then(a, s, t.value.0, t.value.1); } else { o := Refusal; }
      case Prim(_, _, _) => o := Primitive(e, s);
      case Binary(_, _, _) => o := Operator(e, s);
      case If(_, _, _) => o := Conditional(e, s);
      case MatchResult(_, _, _, _, _) => o := Matching(e, s);
      case _ => o := Refusal;
    }

    method Primitive(e: Expr, s: State) returns (o: Outcome<seq<Path>>)
      requires steps <= LIMIT && e.Prim?
      modifies this
      ensures steps >= old(steps) && (o.OutOfSteps? <==> steps > LIMIT)
      ensures Agrees(o, Explore(prog, rule, e, s, old(next)), next)
      decreases e, 1
    {
      if e.pop.ByteAt? {
        if !IsTable(e.arg0) {
          return Refusal;
        }
        o := Then(e.arg1, s, TNumber, TNumber);
      } else if !IsScalarPrim(e.pop) {
        o := Refusal;
      } else {
        var ss := Typed(e.arg0, s, TNumber);
        match ss
        case Refusal => o := Refusal;
        case OutOfSteps => o := OutOfSteps;
        case Found(ss) => o := Pairs(e.arg1, ss, TNumber, TNumber, false, s.env);
      }
    }

    method Operator(e: Expr, s: State) returns (o: Outcome<seq<Path>>)
      requires steps <= LIMIT && e.Binary?
      modifies this
      ensures steps >= old(steps) && (o.OutOfSteps? <==> steps > LIMIT)
      ensures Agrees(o, Explore(prog, rule, e, s, old(next)), next)
      decreases e, 1
    {
      var ss := Typed(e.left, s, OperandType(e.op));
      match ss
      case Refusal => o := Refusal;
      case OutOfSteps => o := OutOfSteps;
      case Found(ss) => o := Pairs(e.right, ss, OperandType(e.op), ResultOf(e.op), e.op.And? || e.op.Or?, s.env);
    }

    method Conditional(e: Expr, s: State) returns (o: Outcome<seq<Path>>)
      requires steps <= LIMIT && e.If?
      modifies this
      ensures steps >= old(steps) && (o.OutOfSteps? <==> steps > LIMIT)
      ensures Agrees(o, Explore(prog, rule, e, s, old(next)), next)
      decreases e, 1
    {
      var ss := Typed(e.cond, s, TBool);
      match ss
      case Refusal => o := Refusal;
      case OutOfSteps => o := OutOfSteps;
      case Found(ss) =>
        o := Arms(e, ss, s.env);
        if o.Found? && !SameTypes(o.value) {
          o := Refusal;
        }
    }

    method Matching(e: Expr, s: State) returns (o: Outcome<seq<Path>>)
      requires steps <= LIMIT && e.MatchResult?
      modifies this
      ensures steps >= old(steps) && (o.OutOfSteps? <==> steps > LIMIT)
      ensures Agrees(o, Explore(prog, rule, e, s, old(next)), next)
      decreases e, 1
    {
      var ps := Explored(e.target, s);
      match ps
      case Refusal => o := Refusal;
      case OutOfSteps => o := OutOfSteps;
      case Found(ps) =>
        o := Matches(e, ps, s.env);
        if o.Found? && !SameTypes(o.value) {
          o := Refusal;
        }
    }

    /** The states after one let, from each state before it. */
    method Let(b: Binding, ss: seq<State>) returns (o: Outcome<seq<State>>)
      requires steps <= LIMIT
      modifies this
      ensures steps >= old(steps) && (o.OutOfSteps? <==> steps > LIMIT)
      ensures Agrees(o, ExploreLet(prog, rule, b, ss, old(next)), next)
    {
      var out: seq<State> := [];
      ghost var all := ExploreLet(prog, rule, b, ss, next);
      assert ss[0..] == ss;
      assert all.Some? ==> [] + all.value.0 == all.value.0;
      for i := 0 to |ss|
        invariant old(steps) <= steps <= LIMIT
        invariant all == Onto(out, ExploreLet(prog, rule, b, ss[i..], next))
      {
        assert ss[i..][0] == ss[i] && ss[i..][1..] == ss[i + 1..];
        var ps := Explored(b.value, ss[i]);
        match ps
        case Refusal => return Refusal;
        case OutOfSteps => return OutOfSteps;
        case Found(ps) =>
          OntoTwice(out, BindAll(ps, b.name), ExploreLet(prog, rule, b, ss[i + 1..], next));
          out := out + BindAll(ps, b.name);
      }
      assert ss[|ss|..] == [] && out + [] == out;
      return Found(out);
    }

    /** The path loop of one rule: every path of lets and output may end it. */
    method Run() returns (o: Outcome<bool>)
      requires next == 0 && steps == 0
      modifies this
      ensures o.OutOfSteps? <==> steps > LIMIT
      ensures !o.OutOfSteps? ==> o == Found(PathsReturn(prog, rule))
    {
      var states := [Start];
      ghost var all := ExploreLets(prog, rule, rule.bindings, [Start], 0);
      for i := 0 to |rule.bindings|
        invariant steps <= LIMIT
        invariant all == ExploreLets(prog, rule, rule.bindings[i..], states, next)
      {
        assert rule.bindings[i..][0] == rule.bindings[i] && rule.bindings[i..][1..] == rule.bindings[i + 1..];
        var after := Let(rule.bindings[i], states);
        match after
        case Refusal => return Found(false);
        case OutOfSteps => return OutOfSteps;
        case Found(ss) => states := ss;
      }
      assert rule.bindings[|rule.bindings|..] == [];
      o := Outputs(states);
    }

    method Outputs(states: seq<State>) returns (o: Outcome<bool>)
      requires steps <= LIMIT
      modifies this
      ensures o.OutOfSteps? <==> steps > LIMIT
      ensures !o.OutOfSteps? ==> o == Found(OutputsReturn(prog, rule, states, old(next)))
    {
      ghost var all := OutputsReturn(prog, rule, states, next);
      for i := 0 to |states|
        invariant steps <= LIMIT
        invariant all == OutputsReturn(prog, rule, states[i..], next)
      {
        assert states[i..][0] == states[i] && states[i..][1..] == states[i + 1..];
        var ps := Explored(rule.value, states[i]);
        match ps
        case Refusal => return Found(false);
        case OutOfSteps => return OutOfSteps;
        case Found(ps) =>
          if !AllReturn(rule, ps) {
            return Found(false);
          }
      }
      assert states[|states|..] == [];
      return Found(true);
    }
  }

  lemma ProduceStep(ss: seq<State>, i: nat, ty: Type, next: nat, ps: seq<Path>)
    requires i < |ss|
    ensures var (p, n) := Produce(ss[i], ty, next);
      var now, later := ProduceAll(ss[i..], ty, next), ProduceAll(ss[i + 1..], ty, n);
      ps + now.0 == ps + [p] + later.0 && now.1 == later.1
  {
    assert ss[i..][0] == ss[i] && ss[i..][1..] == ss[i + 1..];
    var (p, n) := Produce(ss[i], ty, next);
    assert ProduceAll(ss[i..], ty, next).0 == [p] + ProduceAll(ss[i + 1..], ty, n).0;
  }

  lemma PairsStep(p: Program, r: Rule, e: Expr, ss: seq<State>, i: nat, next: nat, want: Type, give: Type, skips: bool,
      env: map<string, Val>)
    requires i < |ss| && AllScoped(ss, env)
    ensures var one := ExploreRight(p, r, e, ss[i], next, want, give, skips);
      ExplorePairs(p, r, e, ss[i..], next, want, give, skips, env) ==
      if one.None? then None
      else Prepend(one.value.0, ExplorePairs(p, r, e, ss[i + 1..], one.value.1, want, give, skips, env))
  {
    assert ss[i..][0] == ss[i] && ss[i..][1..] == ss[i + 1..];
  }

  lemma PrependNothing(all: Paths)
    ensures Prepend([], all) == all
  {
    if all.Some? { assert [] + all.value.0 == all.value.0; }
  }

  lemma PrependTwice(out: seq<Path>, ps: seq<Path>, rest: Paths)
    ensures Prepend(out, Prepend(ps, rest)) == Prepend(out + ps, rest)
  {
    if rest.Some? { assert out + (ps + rest.value.0) == out + ps + rest.value.0; }
  }

  function Onto(ss: seq<State>, rest: Option<(seq<State>, nat)>): Option<(seq<State>, nat)> {
    match rest case None => None case Some((ts, n)) => Some((ss + ts, n))
  }

  lemma OntoTwice(out: seq<State>, ss: seq<State>, rest: Option<(seq<State>, nat)>)
    ensures Onto(out, Onto(ss, rest)) == Onto(out + ss, rest)
  {
    if rest.Some? { assert out + (ss + rest.value.0) == out + ss + rest.value.0; }
  }

  method CheckRule(p: Program, n: string) returns (o: Outcome<bool>)
    requires n in p.rules
    ensures !o.OutOfSteps? ==> o == Found(RuleAccepted(p, n))
  {
    var r := p.rules[n];
    if r.hasContext || !NumericConcept(p, r.inputTy) || r.outputTy !in {BoundedResult, TNumber, TBool} ||
      Cyclic(CallGraph(p), n, {}) {
      return Found(false);
    }
    var check := new Check(p, r);
    o := check.Run();
  }

  /** The reports of the whole program: the concepts that misuse BoundsError,
      and the rules that misuse it or are refused under the contract. When no rule
      runs out of steps the verdict is exact. */
  method Verify(p: Program) returns (concepts: set<string>, bad: set<string>, limited: set<string>)
    ensures forall n :: n in concepts <==> n in p.concepts && ConceptMisuses(n, p.concepts[n])
    ensures limited <= bad <= p.rules.Keys && forall n | n in limited :: Participates(CallGraph(p), Seeds(p), n)
    ensures forall n | n in p.rules && n !in limited ::
      n in bad <==> RuleMisuses(p.rules[n]) || (Participates(CallGraph(p), Seeds(p), n) && !RuleAccepted(p, n))
    ensures concepts == {} && bad == {} ==> Reserved(p) && Accepted(p)
  {
    concepts := set n | n in p.concepts && ConceptMisuses(n, p.concepts[n]);
    var active := ActiveRules(p);
    bad, limited := CheckAll(p, active * p.rules.Keys);
    bad := bad + set n | n in p.rules && RuleMisuses(p.rules[n]);
  }

  method CheckAll(p: Program, names: set<string>) returns (bad: set<string>, limited: set<string>)
    requires names <= p.rules.Keys
    ensures limited <= bad <= names
    ensures forall n | n in names && n !in limited :: n in bad <==> !RuleAccepted(p, n)
  {
    bad, limited := {}, {};
    var todo := names;
    ghost var good := set n | n in names && RuleAccepted(p, n);
    while todo != {}
      invariant todo <= names && limited <= bad <= names - todo
      invariant forall n | n in names - todo && n !in limited :: n in bad <==> n !in good
      decreases |todo|
    {
      var n :| n in todo;
      todo := todo - {n};
      var o := CheckRule(p, n);
      match o
      case Found(ok) => if !ok { bad := bad + {n}; }
      case _ => bad, limited := bad + {n}, limited + {n};
    }
  }
}
