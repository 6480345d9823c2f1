/** The constructor checker as an object that counts its errors and the
    constructions it has walked. */
module ConstructorObject {
  import opened Ast
  import opened Interp
  import opened Facts
  import opened Constructors

  class Checker {
    const prog: Program
    const rule: Rule
    var errors: nat
    var constructors: nat

    constructor (prog: Program, rule: Rule)
      ensures this.prog == prog && this.rule == rule && errors == 0 && constructors == 0
    {
      this.prog, this.rule, errors, constructors := prog, rule, 0, 0;
    }

    /** The fact of `e`; an error is added exactly when an obligation in it fails. */
    method Visit(e: Expr, s: Scope) returns (f: Fact)
      modifies this
      ensures f == Walk(prog, rule, e, s).fact
      ensures errors >= old(errors) && (errors == old(errors) <==> Walk(prog, rule, e, s).ok)
      ensures constructors == old(constructors) + Constructions(e)
      decreases e, 2
    {
      CountForm(e);
      match e
      case Number(_) => f := Known(TNumber);
      case Text(_) => f := Known(TText);
      case BytesLit(_) => f := Known(TBytes);
      case Ident(x) => f := Lookup(s, x);
      case Field(_, _) => f := VisitParts(e, s);
      case Unary(_, _) => f := VisitParts(e, s);
      case Binary(_, _, _) => f := VisitParts(e, s);
      case Prim(_, _, _) => f := VisitParts(e, s);
      case TryByteAt(_, _) => f := VisitParts(e, s);
      case Substring(_, _, _) => f := VisitParts(e, s);
      case If(_, _, _) => f := VisitParts(e, s);
      case Call(n, args) =>
        var fs := VisitAll(e, args, s);
        f := CallFact(prog, n, fs);
      case Concat(args) =>
        var fs := VisitAll(e, args, s);
        f := ConcatFact(fs);
      case Construct(_, _, _) => f := VisitConstruct(e, s);
      case MatchResult(_, _, _, _, _) => f := VisitMatch(e, s);
      case MatchVariant(_, _) => f := VisitArms(e, s);
      case Quantifier(_, _, _, _) => f := VisitLoop(e, s);
      case Collect(_, _, _, _) => f := VisitLoop(e, s);
      case Fold(_, _, _, _, _) => f := VisitFold(e, s);
      case FoldBytes(_, _, _, _, _, _) => f := VisitFoldBytes(e, s);
    }

    method VisitParts(e: Expr, s: Scope) returns (f: Fact)
      requires e.Field? || e.Unary? || e.Binary? || e.Prim? || e.TryByteAt? || e.Substring? || e.If?
      modifies this
      ensures f == Walk(prog, rule, e, s).fact
      ensures errors >= old(errors) && (errors == old(errors) <==> Walk(prog, rule, e, s).ok)
      ensures constructors == old(constructors) + Constructions(e)
      decreases e, 1
    {
      CountForm(e);
      match e
      case Field(b, n) =>
        var w := Visit(b, s);
        f := FieldFact(prog, w, n);
      case Unary(op, a) =>
        var w := Visit(a, s);
        f := UnaryFact(rule, op, a, w, s);
      case Binary(op, a, b) =>
        var w := Visit(a, s);
        var x := Visit(b, s);
        f := BinaryFact(op, w, x);
      case Prim(op, a, b) =>
        var w := Visit(a, s);
        var x := Visit(b, s);
        f := PrimFact(rule, op, a, w, x, s);
      case TryByteAt(t, i) =>
        var w := Visit(t, s);
        var x := Visit(i, s);
        f := Produced(ByteAddressable(rule, t, w, s) && Fits(x, TNumber), TResult(TNumber, TBoundsError));
      case Substring(a, b, c) =>
        var w := Visit(a, s);
        var x := Visit(b, s);
        var y := Visit(c, s);
        f := Produced(Fits(w, TText) && Fits(x, TNumber) && Fits(y, TNumber), TText);
      case If(q, a, b) =>
        var w := Visit(q, s);
        var x := Visit(a, s);
        var y := Visit(b, s);
        f := if Fits(w, TBool) then Join(x, y) else Unknown;
    }

    method VisitAll(ghost e: Expr, es: seq<Expr>, s: Scope) returns (fs: seq<Fact>)
      requires forall i | 0 <= i < |es| :: es[i] < e
      modifies this
      ensures fs == WalkAll(prog, rule, es, s).0
      ensures errors >= old(errors) && (errors == old(errors) <==> WalkAll(prog, rule, es, s).1)
      ensures constructors == old(constructors) + AllConstructions(e, es)
      decreases e, 1
    {
      fs := [];
      ghost var all := WalkAll(prog, rule, es, s);
      assert es[0..] == es && [] + all.0 == all.0;
      for i := 0 to |es|
        invariant all.0 == fs + WalkAll(prog, rule, es[i..], s).0
        invariant errors >= old(errors) && (all.1 <==> errors == old(errors) && WalkAll(prog, rule, es[i..], s).1)
        invariant constructors + AllConstructions(e, es[i..]) == old(constructors) + AllConstructions(e, es)
      {
        CountStep(e, es, i);
        AllStep(prog, rule, es, s, i, fs);
        var f := Visit(es[i], s);
        fs := fs + [f];
      }
      assert es[|es|..] == [] && fs + [] == fs;
    }

    method VisitMatch(e: Expr, s: Scope) returns (f: Fact)
      requires e.MatchResult?
      modifies this
      ensures f == Walk(prog, rule, e, s).fact
      ensures errors >= old(errors) && (errors == old(errors) <==> Walk(prog, rule, e, s).ok)
      ensures constructors == old(constructors) + Constructions(e)
      decreases e, 1
    {
      CountForm(e);
      var t := Visit(e.target, s);
      var a, b := if t.Result? then Bound(t.ok) else Unknown, if t.Result? then Bound(t.err) else Unknown;
      var yes := Visit(e.okBody, s[e.okVar := a]);
      var no := Visit(e.errBody, s[e.errVar := b]);
      f := if t.Result? then Join(yes, no) else Unknown;
    }

    method VisitLoop(e: Expr, s: Scope) returns (f: Fact)
      requires e.Quantifier? || e.Collect?
      modifies this
      ensures f == Walk(prog, rule, e, s).fact
      ensures errors >= old(errors) && (errors == old(errors) <==> Walk(prog, rule, e, s).ok)
      ensures constructors == old(constructors) + Constructions(e)
      decreases e, 1
    {
      CountForm(e);
      match e
      case Quantifier(_, c, x, b) =>
        var w := Visit(c, s);
        var y := Visit(b, s[x := Element(w)]);
        f := Produced(!Element(w).Unknown? && Fits(y, TBool), TBool);
      case Collect(keep, c, x, b) =>
        var w := Visit(c, s);
        var y := Visit(b, s[x := Element(w)]);
        f := CollectFact(keep, w, y);
    }

    method VisitFold(e: Expr, s: Scope) returns (f: Fact)
      requires e.Fold?
      modifies this
      ensures f == Walk(prog, rule, e, s).fact
      ensures errors >= old(errors) && (errors == old(errors) <==> Walk(prog, rule, e, s).ok)
      ensures constructors == old(constructors) + Constructions(e)
      decreases e, 1
    {
      CountForm(e);
      var w := Visit(e.coll, s);
      var init := Visit(e.init, s);
      var before := constructors;
      var y := Visit(e.body, s[e.acc := init][e.item := Element(w)]);
      if y != init && constructors != before {
        errors := errors + 1;
      }
      f := if Element(w).Unknown? || y != init then Unknown else Join(init, y);
    }

    method VisitFoldBytes(e: Expr, s: Scope) returns (f: Fact)
      requires e.FoldBytes?
      modifies this
      ensures f == Walk(prog, rule, e, s).fact
      ensures errors >= old(errors) && (errors == old(errors) <==> Walk(prog, rule, e, s).ok)
      ensures constructors == old(constructors) + Constructions(e)
      decreases e, 1
    {
      CountForm(e);
      var w := Visit(e.text, s);
      var init := Visit(e.init, s);
      var y := Visit(e.body, s[e.acc := init][e.byte := Known(TNumber)][e.idx := Known(TNumber)]);
      f := Produced(Fits(w, TText) && Fits(init, TNumber) && Fits(y, TNumber), TNumber);
    }

    /** One constructor: every field in order, then the missing ones. */
    method VisitConstruct(e: Expr, s: Scope) returns (f: Fact)
      requires e.Construct?
      modifies this
      ensures f == Walk(prog, rule, e, s).fact
      ensures errors >= old(errors) && (errors == old(errors) <==> Walk(prog, rule, e, s).ok)
      ensures constructors == old(constructors) + Constructions(e)
      decreases e, 1
    {
      constructors := constructors + 1;
      var decl := Declared(prog, e.concept, e.variant);
      ghost var fs, oks := WalkInits(prog, rule, e.inits, s).0, InitOks(prog, rule, e.inits, s);
      ConstructConclude(prog, rule, e, s);
      var valid, seen := VisitFields(e, decl, s, fs, oks, Children(e));
      if decl.Some? {
        var complete := Missing(decl.value, seen);
        valid := valid && complete;
      }
      f := Produced(valid, TNamed(e.concept));
    }

    method VisitFields(e: Expr, decl: Option<seq<FieldDecl>>, s: Scope, ghost fs: seq<Fact>, ghost oks: seq<bool>,
        ghost cs: seq<Expr>)
      returns (valid: bool, seen: set<string>)
      requires e.Construct? && InitsWalked(prog, rule, e.inits, s, fs, oks)
      requires |cs| == |e.inits| && forall i | 0 <= i < |cs| :: cs[i] == e.inits[i].value && cs[i] < e
      modifies this
      ensures errors >= old(errors) && FieldLoop(valid, seen, errors == old(errors)) ==
        FieldsAfter(e.inits, fs, oks, decl, |e.inits|)
      ensures constructors == old(constructors) + AllConstructions(e, cs)
      decreases e, 0
    {
      valid, seen := decl.Some?, {};
      if decl.None? {
        errors := errors + 1;
      }
      assert cs[0..] == cs;
      for i := 0 to |e.inits|
        invariant errors >= old(errors) && FieldLoop(valid, seen, errors == old(errors)) ==
          FieldsAfter(e.inits, fs, oks, decl, i)
        invariant constructors + AllConstructions(e, cs[i..]) == old(constructors) + AllConstructions(e, cs)
      {
        CountStep(e, cs, i);
        assert IsWalked(WalkInit(prog, rule, e.inits[i], s), fs[i], oks[i]);
        var good := VisitField(e.inits[i], decl, seen, s);
        valid := valid && good;
        seen := seen + {e.inits[i].name};
      }
    }

    /** One field: reports it if it is repeated, undeclared or not of its type. */
    method VisitField(init: FieldInit, decl: Option<seq<FieldDecl>>, seen: set<string>, s: Scope) returns (good: bool)
      modifies this
      ensures good <==>
        init.name !in seen && (decl.Some? ==> FieldOk(decl.value, init.name, WalkInit(prog, rule, init, s).fact))
      ensures errors >= old(errors) && (errors == old(errors) <==> good && WalkInit(prog, rule, init, s).ok)
      ensures constructors == old(constructors) + Constructions(init.value)
      decreases init.value, 3
    {
      good := true;
      var actual := Visit(init.value, s);
      if init.name in seen {
        good, errors := false, errors + 1;
      }
      if decl.Some? && !FieldOk(decl.value, init.name, actual) {
        good, errors := false, errors + 1;
      }
    }

    /** Reports the declared fields that were not given. */
    method Missing(ds: seq<FieldDecl>, seen: set<string>) returns (complete: bool)
      modifies this`errors
      ensures complete <==> forall j | 0 <= j < |ds| :: ds[j].name in seen
      ensures errors >= old(errors) && (errors == old(errors) <==> complete)
    {
      complete := true;
      for i := 0 to |ds|
        invariant complete <==> forall j | 0 <= j < i :: ds[j].name in seen
        invariant errors >= old(errors) && (errors == old(errors) <==> complete)
      {
        if ds[i].name !in seen {
          complete, errors := false, errors + 1;
        }
      }
    }

    /** A variant match; its fact is the join of its arms if they cover the concept. */
    method VisitArms(e: Expr, s: Scope) returns (f: Fact)
      requires e.MatchVariant?
      modifies this
      ensures f == Walk(prog, rule, e, s).fact
      ensures errors >= old(errors) && (errors == old(errors) <==> Walk(prog, rule, e, s).ok)
      ensures constructors == old(constructors) + Constructions(e)
      decreases e, 1
    {
      ghost var bodies := Children(e)[1..];
      MatchParts(e, bodies);
      MatchConclude(prog, rule, e, s);
      var t := Visit(e.scrutinee, s);
      var c := MatchedConcept(prog, t);
      ghost var fs, oks := WalkArms(prog, rule, c, e.arms, s).0, ArmOks(prog, rule, c, e.arms, s);
      var valid, seen, result := JoinArms(e, c, s, fs, oks, bodies);
      valid := valid && c.Some? && c.value.variants != [] && forall v | v in c.value.variants :: v.name in seen;
      f := if valid && result.Some? then result.value else Unknown;
    }

    /** The arms' facts joined from left to right, and whether each arm fits its variant. */
    method JoinArms(e: Expr, c: Option<Concept>, s: Scope, ghost fs: seq<Fact>, ghost oks: seq<bool>,
        ghost cs: seq<Expr>)
      returns (valid: bool, seen: set<string>, result: Option<Fact>)
      requires e.MatchVariant? && ArmsWalked(prog, rule, c, e.arms, s, fs, oks)
      requires |cs| == |e.arms| && forall i | 0 <= i < |cs| :: cs[i] == e.arms[i].body && cs[i] < e
      modifies this
      ensures errors >= old(errors) && ArmLoop(valid, seen, result, errors == old(errors)) ==
        ArmsAfter(e.arms, fs, oks, c, |e.arms|)
      ensures constructors == old(constructors) + AllConstructions(e, cs)
      decreases e, 0
    {
      valid, seen, result := true, {}, None;
      assert cs[0..] == cs;
      for i := 0 to |e.arms|
        invariant errors >= old(errors) && ArmLoop(valid, seen, result, errors == old(errors)) ==
          ArmsAfter(e.arms, fs, oks, c, i)
        invariant constructors + AllConstructions(e, cs[i..]) == old(constructors) + AllConstructions(e, cs)
      {
        var arm := e.arms[i];
        CountStep(e, cs, i);
        assert IsWalked(WalkArm(prog, rule, c, arm, s), fs[i], oks[i]);
        var fact, good := VisitArm(c, arm, s);
        valid := valid && arm.variant !in seen && good;
        seen := seen + {arm.variant};
        result := Some(if result.None? then fact else Join(result.value, fact));
      }
    }

    method VisitArm(c: Option<Concept>, arm: Arm, s: Scope) returns (f: Fact, good: bool)
      modifies this
      ensures f == WalkArm(prog, rule, c, arm, s).fact && good == ArmOk(c, arm)
      ensures errors >= old(errors) && (errors == old(errors) <==> WalkArm(prog, rule, c, arm, s).ok)
      ensures constructors == old(constructors) + Constructions(arm.body)
      decreases arm.body, 3
    {
      var d := ArmDecl(c, arm);
      var scope, distinct := BindArmFacts(arm, d, s);
      good := d.Some? && |d.value.fields| == |arm.binders| && distinct;
      f := Visit(arm.body, scope);
    }

    method BindArmFacts(arm: Arm, d: Option<VariantDecl>, s: Scope) returns (scope: Scope, distinct: bool)
      ensures scope == BindFacts(arm.binders, d, 0, s)
      ensures distinct == Distinct(BinderNames(arm.binders))
    {
      scope, distinct := s, true;
      var names: set<string>, bs := {}, arm.binders;
      for i := 0 to |bs|
        invariant BindFacts(bs, d, i, scope) == BindFacts(bs, d, 0, s)
        invariant names == (set x | x in BinderNames(bs[..i]))
        invariant distinct == Distinct(BinderNames(bs[..i]))
      {
        BinderStep(bs, i);
        if bs[i].None? { assert BinderNames(bs[..i + 1]) == BinderNames(bs[..i]); }
        if bs[i].Some? {
          var x := bs[i].value;
          distinct := distinct && x !in names;
          names := names + {x};
          scope := scope[x := if d.Some? && i < |d.value.fields| then FromType(d.value.fields[i].ty) else Unknown];
        }
      }
      assert bs[..|bs|] == bs;
    }

    /** The whole rule; nothing is reported exactly when the rule is established. */
    method CheckRule()
      requires errors == 0
      modifies this
      ensures errors == 0 <==> RuleEstablished(prog, rule)
    {
      var env: Scope := map[rule.input := FromType(rule.inputTy)];
      ghost var all := WalkLets(prog, rule, rule.bindings, env);
      assert rule.bindings[0..] == rule.bindings;
      for i := 0 to |rule.bindings|
        invariant all.0 == WalkLets(prog, rule, rule.bindings[i..], env).0
        invariant all.1 <==> errors == 0 && WalkLets(prog, rule, rule.bindings[i..], env).1
      {
        assert rule.bindings[i..][0] == rule.bindings[i] && rule.bindings[i..][1..] == rule.bindings[i + 1..];
        var fact := Visit(rule.bindings[i].value, env);
        env := env[rule.bindings[i].name := fact];
      }
      var out := Visit(rule.value, env);
    }
  }

  // ----- the loops of the walk -----

  /** The fields checked so far are distinct, declared and of their types. */
  predicate FieldsUpTo(ds: seq<FieldDecl>, inits: seq<FieldInit>, fs: seq<Fact>, n: nat)
    requires n <= |inits| == |fs|
  {
    && (forall i, k | 0 <= i < k < n :: inits[i].name != inits[k].name)
    && forall i | 0 <= i < n :: FieldOk(ds, inits[i].name, fs[i])
  }

  predicate AllTrue(oks: seq<bool>, n: nat)
    requires n <= |oks|
  {
    forall i | 0 <= i < n :: oks[i]
  }

  lemma AllStep(p: Program, r: Rule, es: seq<Expr>, s: Scope, i: nat, fs: seq<Fact>)
    requires i < |es|
    ensures var w, rest := Walk(p, r, es[i], s), WalkAll(p, r, es[i + 1..], s);
      fs + WalkAll(p, r, es[i..], s).0 == fs + [w.fact] + rest.0 && WalkAll(p, r, es[i..], s).1 == (w.ok && rest.1)
  {
    assert es[i..][0] == es[i] && es[i..][1..] == es[i + 1..];
  }

  function WalkInit(p: Program, r: Rule, init: FieldInit, s: Scope): Walked { Walk(p, r, init.value, s) }

  predicate IsWalked(w: Walked, f: Fact, ok: bool) { w == Walked(f, ok) }

  /** Facts and verdicts of the fields, one by one. */
  ghost predicate InitsWalked(p: Program, r: Rule, inits: seq<FieldInit>, s: Scope, fs: seq<Fact>, oks: seq<bool>) {
    |inits| == |fs| == |oks| && forall i | 0 <= i < |inits| :: IsWalked(WalkInit(p, r, inits[i], s), fs[i], oks[i])
  }

  ghost predicate ArmsWalked(p: Program, r: Rule, c: Option<Concept>, arms: seq<Arm>, s: Scope, fs: seq<Fact>,
      oks: seq<bool>) {
    |arms| == |fs| == |oks| && forall i | 0 <= i < |arms| :: IsWalked(WalkArm(p, r, c, arms[i], s), fs[i], oks[i])
  }

  /** Which fields are walked without a report. */
  function InitOks(p: Program, r: Rule, inits: seq<FieldInit>, s: Scope): (oks: seq<bool>)
    ensures |oks| == |inits|
  {
    if inits == [] then [] else [Walk(p, r, inits[0].value, s).ok] + InitOks(p, r, inits[1..], s)
  }

  lemma {:induction false} InitAt(p: Program, r: Rule, inits: seq<FieldInit>, s: Scope, i: nat)
    requires i < |inits|
    ensures InitOks(p, r, inits, s)[i] == Walk(p, r, inits[i].value, s).ok
    decreases i
  {
    if i > 0 { InitAt(p, r, inits[1..], s, i - 1); }
  }

  lemma {:induction false} InitsQuiet(p: Program, r: Rule, inits: seq<FieldInit>, s: Scope)
    ensures WalkInits(p, r, inits, s).1 == AllTrue(InitOks(p, r, inits, s), |inits|)
    decreases |inits|
  {
    if inits != [] {
      InitsQuiet(p, r, inits[1..], s);
      AllTrueStep(InitOks(p, r, inits, s));
    }
  }

  lemma AllTrueStep(oks: seq<bool>)
    requires oks != []
    ensures AllTrue(oks, |oks|) == (oks[0] && AllTrue(oks[1..], |oks| - 1))
  {
    assert forall i | 0 <= i < |oks| - 1 :: oks[1..][i] == oks[i + 1];
    if oks[0] && AllTrue(oks[1..], |oks| - 1) {
      forall i | 0 <= i < |oks|
        ensures oks[i]
      {
        if i > 0 { assert oks[1..][i - 1]; }
      }
    }
  }

  function ArmOks(p: Program, r: Rule, c: Option<Concept>, arms: seq<Arm>, s: Scope): (oks: seq<bool>)
    ensures |oks| == |arms|
  {
    if arms == [] then [] else [WalkArm(p, r, c, arms[0], s).ok] + ArmOks(p, r, c, arms[1..], s)
  }

  lemma {:induction false} ArmAt(p: Program, r: Rule, c: Option<Concept>, arms: seq<Arm>, s: Scope, i: nat)
    requires i < |arms|
    ensures ArmOks(p, r, c, arms, s)[i] == WalkArm(p, r, c, arms[i], s).ok
    decreases i
  {
    if i > 0 { ArmAt(p, r, c, arms[1..], s, i - 1); }
  }

  lemma {:induction false} ArmsQuiet(p: Program, r: Rule, c: Option<Concept>, arms: seq<Arm>, s: Scope)
    ensures WalkArms(p, r, c, arms, s).1 == AllTrue(ArmOks(p, r, c, arms, s), |arms|)
    decreases |arms|
  {
    if arms != [] {
      ArmsQuiet(p, r, c, arms[1..], s);
      AllTrueStep(ArmOks(p, r, c, arms, s));
    }
  }

  /** Where the loop over a constructor's fields stands after n of them. */
  ghost predicate FieldsDone(inits: seq<FieldInit>, fs: seq<Fact>, oks: seq<bool>, decl: Option<seq<FieldDecl>>,
      n: nat, valid: bool, seen: set<string>, quiet: bool)
    requires n <= |inits| == |fs| == |oks|
  {
    && seen == InitNames(inits[..n])
    && (valid <==> decl.Some? && FieldsUpTo(decl.value, inits, fs, n))
    && (quiet <==> valid && AllTrue(oks, n))
  }

  datatype FieldLoop = FieldLoop(valid: bool, seen: set<string>, quiet: bool)

  /** The loop over a constructor's fields, n of them done. */
  function FieldsAfter(inits: seq<FieldInit>, fs: seq<Fact>, oks: seq<bool>, decl: Option<seq<FieldDecl>>,
      n: nat): FieldLoop
    requires n <= |inits| == |fs| == |oks|
  {
    if n == 0 then FieldLoop(decl.Some?, {}, decl.Some?)
    else
      var l, name := FieldsAfter(inits, fs, oks, decl, n - 1), inits[n - 1].name;
      var good := name !in l.seen && (decl.Some? ==> FieldOk(decl.value, name, fs[n - 1]));
      FieldLoop(l.valid && good, l.seen + {name}, l.quiet && good && oks[n - 1])
  }

  lemma {:induction false} FieldsMeaning(inits: seq<FieldInit>, fs: seq<Fact>, oks: seq<bool>,
      decl: Option<seq<FieldDecl>>, n: nat)
    requires n <= |inits| == |fs| == |oks|
    ensures var l := FieldsAfter(inits, fs, oks, decl, n); FieldsDone(inits, fs, oks, decl, n, l.valid, l.seen, l.quiet)
    decreases n
  {
    if n == 0 {
      assert InitNames(inits[..0]) == {};
    } else {
      FieldsMeaning(inits, fs, oks, decl, n - 1);
      SeenStep(inits, n - 1);
      if decl.Some? { FieldsGrow(decl.value, inits, fs, n - 1); }
    }
  }

  lemma FieldsConclude(p: Program, r: Rule, decl: Option<seq<FieldDecl>>, inits: seq<FieldInit>, s: Scope)
    ensures var fs, oks := WalkInits(p, r, inits, s).0, InitOks(p, r, inits, s);
      var l := FieldsAfter(inits, fs, oks, decl, |inits|);
      && InitsWalked(p, r, inits, s, fs, oks)
      && l.seen == InitNames(inits) && (l.valid <==> decl.Some? && FieldsUpTo(decl.value, inits, fs, |inits|))
      && (l.quiet <==> l.valid && WalkInits(p, r, inits, s).1)
  {
    FieldsMeaning(inits, WalkInits(p, r, inits, s).0, InitOks(p, r, inits, s), decl, |inits|);
    assert inits[..|inits|] == inits;
    InitsQuiet(p, r, inits, s);
    forall i | 0 <= i < |inits|
      ensures IsWalked(WalkInit(p, r, inits[i], s), WalkInits(p, r, inits, s).0[i], InitOks(p, r, inits, s)[i])
    {
      InitAt(p, r, inits, s, i);
      WalkInitsAt(p, r, inits, s, i);
    }
  }

  /** What the field loop and the search for missing fields decide together. */
  lemma ConstructConclude(p: Program, r: Rule, e: Expr, s: Scope)
    requires e.Construct?
    ensures var decl, fs, oks := Declared(p, e.concept, e.variant), WalkInits(p, r, e.inits, s).0,
      InitOks(p, r, e.inits, s);
      var l := FieldsAfter(e.inits, fs, oks, decl, |e.inits|);
      var valid := l.valid && decl.Some? && forall j | 0 <= j < |decl.value| :: decl.value[j].name in l.seen;
      && InitsWalked(p, r, e.inits, s, fs, oks)
      && (l.quiet <==> l.valid && WalkInits(p, r, e.inits, s).1) && (l.valid ==> decl.Some?)
      && Walk(p, r, e, s) == Walked(Produced(valid, TNamed(e.concept)), WalkInits(p, r, e.inits, s).1 && valid)
  {
    var decl := Declared(p, e.concept, e.variant);
    FieldsConclude(p, r, decl, e.inits, s);
    if decl.Some? { AllSeen(decl.value, e.inits); }
  }

  lemma FieldsGrow(ds: seq<FieldDecl>, inits: seq<FieldInit>, fs: seq<Fact>, n: nat)
    requires n < |inits| == |fs|
    ensures FieldsUpTo(ds, inits, fs, n + 1) <==>
            FieldsUpTo(ds, inits, fs, n) && FieldOk(ds, inits[n].name, fs[n]) &&
            !exists i | 0 <= i < n :: inits[i].name == inits[n].name
  {
  }

  lemma SeenStep(inits: seq<FieldInit>, n: nat)
    requires n < |inits|
    ensures InitNames(inits[..n + 1]) == InitNames(inits[..n]) + {inits[n].name}
    ensures inits[n].name in InitNames(inits[..n]) <==> exists i | 0 <= i < n :: inits[i].name == inits[n].name
  {
    assert forall i | 0 <= i < n :: inits[..n][i] == inits[i];
    assert forall i | 0 <= i < n + 1 :: inits[..n + 1][i] == inits[i];
    NamesAt(inits, n);
    NamesAt(inits, n + 1);
  }

  lemma NamesAt(inits: seq<FieldInit>, n: nat)
    requires n <= |inits|
    ensures forall x :: x in InitNames(inits[..n]) <==> exists i | 0 <= i < n :: inits[i].name == x
  {
    forall i | 0 <= i < n
      ensures inits[i].name in InitNames(inits[..n])
    {
      assert inits[..n][i] == inits[i];
    }
  }

  function ArmNames(arms: seq<Arm>): set<string> { set i | 0 <= i < |arms| :: arms[i].variant }

  predicate ArmsUpTo(c: Option<Concept>, arms: seq<Arm>, n: nat)
    requires n <= |arms|
  {
    && (forall i, k | 0 <= i < k < n :: arms[i].variant != arms[k].variant)
    && forall i | 0 <= i < n :: ArmOk(c, arms[i])
  }

  /** Where the loop over a match's arms stands after n of them. */
  ghost predicate ArmsDone(arms: seq<Arm>, fs: seq<Fact>, oks: seq<bool>, c: Option<Concept>, n: nat, valid: bool,
      seen: set<string>, result: Option<Fact>, quiet: bool)
    requires n <= |arms| == |fs| == |oks|
  {
    && seen == ArmNames(arms[..n]) && valid == ArmsUpTo(c, arms, n)
    && result == (if n == 0 then None else Some(JoinAll(fs[..n])))
    && quiet == AllTrue(oks, n)
  }

  datatype ArmLoop = ArmLoop(valid: bool, seen: set<string>, result: Option<Fact>, quiet: bool)

  /** The loop over a match's arms, n of them done. */
  function ArmsAfter(arms: seq<Arm>, fs: seq<Fact>, oks: seq<bool>, c: Option<Concept>, n: nat): ArmLoop
    requires n <= |arms| == |fs| == |oks|
  {
    if n == 0 then ArmLoop(true, {}, None, true)
    else
      var l, arm := ArmsAfter(arms, fs, oks, c, n - 1), arms[n - 1];
      ArmLoop(l.valid && arm.variant !in l.seen && ArmOk(c, arm), l.seen + {arm.variant},
              Some(if l.result.None? then fs[n - 1] else Join(l.result.value, fs[n - 1])), l.quiet && oks[n - 1])
  }

  lemma {:induction false} ArmsMeaning(arms: seq<Arm>, fs: seq<Fact>, oks: seq<bool>, c: Option<Concept>, n: nat)
    requires n <= |arms| == |fs| == |oks|
    ensures var l := ArmsAfter(arms, fs, oks, c, n); ArmsDone(arms, fs, oks, c, n, l.valid, l.seen, l.result, l.quiet)
    decreases n
  {
    if n == 0 {
      assert ArmNames(arms[..0]) == {};
    } else {
      ArmsMeaning(arms, fs, oks, c, n - 1);
      ArmSeenStep(arms, n - 1);
      ArmsGrow(c, arms, n - 1);
      JoinAllStep(fs, n - 1);
    }
  }

  lemma ArmsConclude(p: Program, r: Rule, c: Option<Concept>, arms: seq<Arm>, s: Scope)
    ensures var fs, oks := WalkArms(p, r, c, arms, s).0, ArmOks(p, r, c, arms, s);
      var l := ArmsAfter(arms, fs, oks, c, |arms|);
      && ArmsWalked(p, r, c, arms, s, fs, oks)
      && l.seen == ArmNames(arms) && l.valid == ArmsUpTo(c, arms, |arms|)
      && l.result == (if arms == [] then None else Some(JoinAll(fs))) && l.quiet == WalkArms(p, r, c, arms, s).1
  {
    var fs := WalkArms(p, r, c, arms, s).0;
    ArmsMeaning(arms, fs, ArmOks(p, r, c, arms, s), c, |arms|);
    assert arms[..|arms|] == arms && fs[..|arms|] == fs;
    ArmsQuiet(p, r, c, arms, s);
    forall i | 0 <= i < |arms|
      ensures IsWalked(WalkArm(p, r, c, arms[i], s), fs[i], ArmOks(p, r, c, arms, s)[i])
    {
      ArmAt(p, r, c, arms, s, i);
      WalkArmsAt(p, r, c, arms, s, i);
    }
  }

  lemma MatchParts(e: Expr, bodies: seq<Expr>)
    requires e.MatchVariant? && bodies == Children(e)[1..]
    ensures |bodies| == |e.arms| && forall i | 0 <= i < |bodies| :: bodies[i] == e.arms[i].body && bodies[i] < e
    ensures Constructions(e) == Constructions(e.scrutinee) + AllConstructions(e, bodies)
  {
    assert Children(e)[0] == e.scrutinee;
    forall i | 0 <= i < |bodies|
      ensures bodies[i] == e.arms[i].body && bodies[i] < e
    {
      assert bodies[i] == Children(e)[i + 1];
    }
  }

  /** What the arm loop and the search for uncovered variants decide together. */
  lemma MatchConclude(p: Program, r: Rule, e: Expr, s: Scope)
    requires e.MatchVariant?
    ensures var w := Walk(p, r, e.scrutinee, s);
      var c := MatchedConcept(p, w.fact);
      var fs, oks := WalkArms(p, r, c, e.arms, s).0, ArmOks(p, r, c, e.arms, s);
      var l := ArmsAfter(e.arms, fs, oks, c, |e.arms|);
      var valid := l.valid && c.Some? && c.value.variants != [] && forall v | v in c.value.variants :: v.name in l.seen;
      && ArmsWalked(p, r, c, e.arms, s, fs, oks)
      && Walk(p, r, e, s) == Walked(if valid && l.result.Some? then l.result.value else Unknown, w.ok && l.quiet)
  {
    var c := MatchedConcept(p, Walk(p, r, e.scrutinee, s).fact);
    ArmsConclude(p, r, c, e.arms, s);
    AllArmsSeen(c, e.arms);
  }

  lemma ArmsGrow(c: Option<Concept>, arms: seq<Arm>, n: nat)
    requires n < |arms|
    ensures ArmsUpTo(c, arms, n + 1) <==>
            ArmsUpTo(c, arms, n) && ArmOk(c, arms[n]) && !exists i | 0 <= i < n :: arms[i].variant == arms[n].variant
  {
  }

  lemma JoinAllStep(fs: seq<Fact>, n: nat)
    requires n < |fs|
    ensures JoinAll(fs[..n + 1]) == if n == 0 then fs[0] else Join(JoinAll(fs[..n]), fs[n])
  {
    assert fs[..n + 1][..n] == fs[..n];
  }

  lemma AllSeen(ds: seq<FieldDecl>, inits: seq<FieldInit>)
    ensures Names(ds) <= InitNames(inits) <==> forall j | 0 <= j < |ds| :: ds[j].name in InitNames(inits)
  {
    forall j | 0 <= j < |ds|
      ensures ds[j].name in Names(ds)
    {
    }
  }

  lemma ArmSeenStep(arms: seq<Arm>, n: nat)
    requires n < |arms|
    ensures ArmNames(arms[..n + 1]) == ArmNames(arms[..n]) + {arms[n].variant}
    ensures arms[n].variant in ArmNames(arms[..n]) <==> exists i | 0 <= i < n :: arms[i].variant == arms[n].variant
  {
    assert forall i | 0 <= i < n :: arms[..n][i] == arms[i];
    assert forall i | 0 <= i < n + 1 :: arms[..n + 1][i] == arms[i];
    ArmNamesAt(arms, n);
    ArmNamesAt(arms, n + 1);
  }

  lemma ArmNamesAt(arms: seq<Arm>, n: nat)
    requires n <= |arms|
    ensures forall x :: x in ArmNames(arms[..n]) <==> exists i | 0 <= i < n :: arms[i].variant == x
  {
    forall i | 0 <= i < n
      ensures arms[i].variant in ArmNames(arms[..n])
    {
      assert arms[..n][i] == arms[i];
    }
  }

  lemma AllArmsSeen(c: Option<Concept>, arms: seq<Arm>)
    ensures ArmsCover(c, arms) <==>
            && c.Some? && c.value.variants != [] && ArmsUpTo(c, arms, |arms|)
            && forall v | v in c.value.variants :: v.name in ArmNames(arms)
  {
  }

  lemma {:induction false} BinderAppend(bs: seq<Option<string>>, b: Option<string>)
    ensures BinderNames(bs + [b]) == BinderNames(bs) + (if b.Some? then [b.value] else [])
    decreases |bs|
  {
    var one := if b.Some? then [b.value] else [];
    if bs == [] {
      assert bs + [b] == [b] && [b][1..] == [];
      assert BinderNames([b]) == one + [];
    } else {
      assert (bs + [b])[0] == bs[0] && (bs + [b])[1..] == bs[1..] + [b];
      BinderAppend(bs[1..], b);
      var head, tail := if bs[0].Some? then [bs[0].value] else [], BinderNames(bs[1..]);
      assert head + (tail + one) == head + tail + one;
    }
  }

  lemma BinderStep(bs: seq<Option<string>>, n: nat)
    requires n < |bs|
    ensures BinderNames(bs[..n + 1]) == BinderNames(bs[..n]) + (if bs[n].Some? then [bs[n].value] else [])
    ensures bs[n].Some? ==>
      (Distinct(BinderNames(bs[..n + 1])) <==> Distinct(BinderNames(bs[..n])) && bs[n].value !in BinderNames(bs[..n]))
  {
    assert bs[..n + 1] == bs[..n] + [bs[n]];
    BinderAppend(bs[..n], bs[n]);
    if bs[n].Some? {
      var xs, x := BinderNames(bs[..n]), bs[n].value;
      assert Distinct(xs + [x]) <==> Distinct(xs) && x !in xs by {
        if Distinct(xs + [x]) {
          forall i, k | 0 <= i < k < |xs|
            ensures xs[i] != xs[k]
          {
            assert (xs + [x])[i] != (xs + [x])[k];
          }
          forall i | 0 <= i < |xs|
            ensures xs[i] != x
          {
            assert (xs + [x])[i] != (xs + [x])[|xs|];
          }
        }
      }
    }
  }

  lemma CountStep(e: Expr, cs: seq<Expr>, i: nat)
    requires i < |cs| && forall i | 0 <= i < |cs| :: cs[i] < e
    ensures AllConstructions(e, cs[i..]) == Constructions(cs[i]) + AllConstructions(e, cs[i + 1..])
  {
    assert cs[i..][0] == cs[i] && cs[i..][1..] == cs[i + 1..];
  }

  /** The count of a form with at most three parts. */
  lemma CountForm(e: Expr)
    ensures var cs := Children(e);
      && (|cs| == 0 ==> Constructions(e) == if e.Construct? then 1 else 0)
      && (!e.Construct? && |cs| == 1 ==> Constructions(e) == Constructions(cs[0]))
      && (!e.Construct? && |cs| == 2 ==> Constructions(e) == Constructions(cs[0]) + Constructions(cs[1]))
      && (!e.Construct? && |cs| == 3 ==>
        Constructions(e) == Constructions(cs[0]) + Constructions(cs[1]) + Constructions(cs[2]))
  {
    CountThree(e, Children(e));
  }

  lemma CountThree(e: Expr, cs: seq<Expr>)
    requires forall i | 0 <= i < |cs| :: cs[i] < e
    ensures |cs| == 0 ==> AllConstructions(e, cs) == 0
    ensures |cs| == 1 ==> AllConstructions(e, cs) == Constructions(cs[0])
    ensures |cs| == 2 ==> AllConstructions(e, cs) == Constructions(cs[0]) + Constructions(cs[1])
    ensures |cs| == 3 ==> AllConstructions(e, cs) == Constructions(cs[0]) + Constructions(cs[1]) + Constructions(cs[2])
  {
    if 0 < |cs| <= 3 {
      var rest := cs[1..];
      assert forall i | 0 <= i < |rest| :: rest[i] == cs[i + 1];
      CountTwo(e, rest);
    }
  }

  lemma CountTwo(e: Expr, cs: seq<Expr>)
    requires |cs| <= 2 && forall i | 0 <= i < |cs| :: cs[i] < e
    ensures AllConstructions(e, cs) == (if |cs| > 0 then Constructions(cs[0]) else 0) +
      if |cs| > 1 then Constructions(cs[1]) else 0
  {
    if |cs| > 1 {
      assert cs[1..][0] == cs[1] && cs[1..][1..] == [];
    }
  }
}
