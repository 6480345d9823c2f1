/** Which rules the path analysis accepts. Where no let keeps a bounded result,
    a rule is accepted exactly when it has its declared type in the plain typing
    below, in which a result can only be matched or returned. */
module BoundedTyped {
  import opened Ast
  import opened Interp
  import opened Participation
  import opened CallCycles
  import opened BoundedPaths
  import opened BoundedCheck

  type Types = map<string, Type>

  /** The type a declared field of the input has where the input is visible. */
  function InputField(p: Program, r: Rule, g: Types, b: Expr, f: string): Option<Type> {
    if b != Ident(r.input) || r.input in g || !NamedConcept(p, r.inputTy) then None
    else match FindField(p.concepts[r.inputTy.concept].fields, f) case None => None case Some(d) => Some(d.ty)
  }

  predicate NamedConcept(p: Program, t: Type) { t.TNamed? && t.concept in p.concepts }

  function When(ok: bool, t: Type): Option<Type> { if ok then Some(t) else None }

  /** The plain typing of the supported expressions. */
  function TypeOf(p: Program, r: Rule, g: Types, e: Expr): Option<Type>
    decreases e
  {
    match e
    case Number(_) => Some(TNumber)
    case Text(_) => Some(TText)
    case BytesLit(_) => Some(TBytes)
    case Ident(x) => if x in g then Some(g[x]) else When(x in {"true", "false"}, TBool)
    case Field(b, f) => InputField(p, r, g, b, f)
    case Call(n, args) =>
      if n in p.rules && args == [Ident(r.input)] && r.input !in g && p.rules[n].inputTy == r.inputTy
      then Some(p.rules[n].outputTy) else None
    case TryByteAt(t, i) =>
      When((t.Text? || t.BytesLit?) && TypeOf(p, r, g, i) == Some(TNumber), BoundedResult)
    case Unary(op, a) =>
      (match op
       case MkOk => When(TypeOf(p, r, g, a) == Some(TNumber), BoundedResult)
       case MkErr => When(TypeOf(p, r, g, a) == Some(TBoundsError), BoundedResult)
       case Not => When(TypeOf(p, r, g, a) == Some(TBool), TBool)
       case _ => When(op in {Neg, Abs, BitNot} && TypeOf(p, r, g, a) == Some(TNumber), TNumber))
    case Prim(op, a, b) =>
      if op.ByteAt? then When((a.Text? || a.BytesLit?) && TypeOf(p, r, g, b) == Some(TNumber), TNumber)
      else
        When(op !in {StartsWith, EndsWith, Contains} && TypeOf(p, r, g, a) == Some(TNumber)
             && TypeOf(p, r, g, b) == Some(TNumber), TNumber)
    case Binary(op, a, b) =>
      var t := if op.And? || op.Or? then TBool else TNumber;
      When(TypeOf(p, r, g, a) == Some(t) && TypeOf(p, r, g, b) == Some(t),
           if op in {Add, Sub, Mul, Div, Mod} then TNumber else TBool)
    case If(q, a, b) =>
      if TypeOf(p, r, g, q) == Some(TBool) && TypeOf(p, r, g, a) == TypeOf(p, r, g, b) then TypeOf(p, r, g, a) else None
    case MatchResult(t, x, a, y, b) =>
      var ok, err := TypeOf(p, r, g[x := TNumber], a), TypeOf(p, r, g[y := TBoundsError], b);
      if TypeOf(p, r, g, t) == Some(BoundedResult) && ok == err then ok else None
    case _ => None
  }

  // ----- what the paths of a typed expression are -----

  /** The names have the types, and none of them holds a result. */
  predicate EnvTyped(g: Types, env: map<string, Val>) {
    && g.Keys == env.Keys
    && forall x | x in env :: env[x] == Val(g[x], None) && g[x] != BoundedResult
  }

  predicate Low(s: State, next: nat) { forall t | t in s.pending :: t <= next }

  /** The path leaves the state as it was, but for the result it yields. */
  predicate CleanPath(q: Path, s: State, ty: Type, lo: nat, hi: nat) {
    && q.val.ty == ty && q.state.env == s.env
    && if ty == BoundedResult then
         q.val.token.Some? && lo < q.val.token.value <= hi && q.state.pending == s.pending + {q.val.token.value}
       else q.val.token.None? && q.state.pending == s.pending
  }

  predicate AllClean(ps: seq<Path>, s: State, ty: Type, lo: nat, hi: nat) {
    forall i | 0 <= i < |ps| :: CleanPath(ps[i], s, ty, lo, hi)
  }

  /** The analysis and the typing agree: both refuse, or every path is clean. */
  predicate Decides(out: Paths, ty: Option<Type>, s: State, next: nat) {
    match ty
    case None => out.None?
    case Some(t) =>
      && out.Some? && out.value.1 >= next && out.value.0 != []
      && AllClean(out.value.0, s, t, next, out.value.1)
  }

  predicate Given(g: Types, s: State, next: nat) { EnvTyped(g, s.env) && Low(s, next) }

  lemma CleanWider(ps: seq<Path>, s: State, ty: Type, lo: nat, hi: nat, lo': nat, hi': nat)
    requires AllClean(ps, s, ty, lo, hi) && lo' <= lo && hi <= hi'
    ensures AllClean(ps, s, ty, lo', hi')
  {
  }

  lemma CleanAppend(ps: seq<Path>, qs: seq<Path>, s: State, ty: Type, lo: nat, hi: nat)
    requires AllClean(ps, s, ty, lo, hi) && AllClean(qs, s, ty, lo, hi)
    ensures AllClean(ps + qs, s, ty, lo, hi)
  {
  }

  /** `n` copies of a state. */
  predicate Copies(ss: seq<State>, s: State) { forall i | 0 <= i < |ss| :: ss[i] == s }

  /** The states after an operand that must have type `want`, not a result. */
  predicate Operand(out: Option<(seq<State>, nat)>, ok: bool, s: State, next: nat) {
    if ok then out.Some? && out.value.0 != [] && out.value.1 >= next && Copies(out.value.0, s) else out.None?
  }

  lemma OneDecides(s: State, ty: Type, next: nat)
    requires Low(s, next)
    ensures Decides(One(s, ty, next), Some(ty), s, next)
  {
  }

  lemma {:induction false} ExploreDecides(p: Program, r: Rule, g: Types, e: Expr, s: State, next: nat)
    requires Given(g, s, next)
    ensures Decides(Explore(p, r, e, s, next), TypeOf(p, r, g, e), s, next)
    decreases e, 2
  {
    match e
    case TryByteAt(_, _) => OperandDecides(p, r, g, e, s, next);
    case Unary(_, _) => OperandDecides(p, r, g, e, s, next);
    case Prim(_, _, _) => PrimDecides(p, r, g, e, s, next);
    case Binary(_, _, _) => BinaryDecides(p, r, g, e, s, next);
    case If(_, _, _) => IfDecides(p, r, g, e, s, next);
    case MatchResult(_, _, _, _, _) => MatchDecides(p, r, g, e, s, next);
    case _ => LeafDecides(p, r, g, e, s, next);
  }

  predicate IsLeaf(e: Expr) {
    !e.TryByteAt? && !e.Unary? && !e.Prim? && !e.Binary? && !e.If? && !e.MatchResult?
  }

  lemma LeafDecides(p: Program, r: Rule, g: Types, e: Expr, s: State, next: nat)
    requires Given(g, s, next) && IsLeaf(e)
    ensures Decides(Explore(p, r, e, s, next), TypeOf(p, r, g, e), s, next)
  {
    if TypeOf(p, r, g, e).Some? {
      OneDecides(s, TypeOf(p, r, g, e).value, next);
    }
  }

  lemma {:induction false} OperandDecides(p: Program, r: Rule, g: Types, e: Expr, s: State, next: nat)
    requires Given(g, s, next) && (e.TryByteAt? || e.Unary?)
    ensures Decides(Explore(p, r, e, s, next), TypeOf(p, r, g, e), s, next)
    decreases e, 0
  {
    if e.TryByteAt? {
      if IsTable(e.table) {
        ThenDecides(p, r, g, e.index, s, next, TNumber, BoundedResult);
      }
    } else if UnaryTypes(e.uop).Some? {
      ThenDecides(p, r, g, e.arg, s, next, UnaryTypes(e.uop).value.0, UnaryTypes(e.uop).value.1);
    }
  }

  lemma {:induction false} TypedDecides(p: Program, r: Rule, g: Types, e: Expr, s: State, next: nat, want: Type)
    requires Given(g, s, next) && want != BoundedResult
    ensures Operand(ExploreTyped(p, r, e, s, next, want), TypeOf(p, r, g, e) == Some(want), s, next)
    decreases e, 3
  {
    ExploreDecides(p, r, g, e, s, next);
    StatesLeft(Explore(p, r, e, s, next), TypeOf(p, r, g, e), s, next, want);
  }

  lemma StatesLeft(out: Paths, ty: Option<Type>, s: State, next: nat, want: Type)
    requires Decides(out, ty, s, next) && want != BoundedResult
    ensures ty != Some(want) && out.Some? ==> Expect(out.value.0, want).None?
    ensures ty == Some(want) ==> var ss := Expect(out.value.0, want); ss.Some? && ss.value != [] && Copies(ss.value, s)
  {
  }

  lemma {:induction false} ThenDecides(p: Program, r: Rule, g: Types, e: Expr, s: State, next: nat, want: Type,
      give: Type)
    requires Given(g, s, next) && want != BoundedResult
    ensures Decides(ExploreThen(p, r, e, s, next, want, give), When(TypeOf(p, r, g, e) == Some(want), give), s, next)
    decreases e, 4
  {
    TypedDecides(p, r, g, e, s, next, want);
    var out := ExploreTyped(p, r, e, s, next, want);
    if out.Some? {
      ProduceClean(out.value.0, s, give, out.value.1);
      CleanWider(ProduceAll(out.value.0, give, out.value.1).0, s, give, out.value.1,
        ProduceAll(out.value.0, give, out.value.1).1, next, ProduceAll(out.value.0, give, out.value.1).1);
    }
  }

  lemma {:induction false} ProduceClean(ss: seq<State>, s: State, ty: Type, next: nat)
    requires Copies(ss, s)
    ensures var (ps, n) := ProduceAll(ss, ty, next); AllClean(ps, s, ty, next, n)
    decreases |ss|
  {
    if ss != [] {
      var (q, n) := Produce(ss[0], ty, next);
      assert ss[0] == s;
      ProduceClean(ss[1..], s, ty, n);
      var (ps, m) := ProduceAll(ss[1..], ty, n);
      CleanWider(ps, s, ty, n, m, next, m);
      CleanAppend([q], ps, s, ty, next, m);
    }
  }

  lemma {:induction false} PairsDecide(p: Program, r: Rule, g: Types, e: Expr, ss: seq<State>, s: State, next: nat,
      want: Type, give: Type, skips: bool)
    requires Given(g, s, next) && Copies(ss, s) && want != BoundedResult && give != BoundedResult && ss != []
    ensures Decides(ExplorePairs(p, r, e, ss, next, want, give, skips, s.env),
      When(TypeOf(p, r, g, e) == Some(want), give), s, next)
    decreases e, 6, |ss|
  {
    RightDecides(p, r, g, e, s, next, want, give, skips);
    var out := ExploreRight(p, r, e, s, next, want, give, skips);
    assert ss[0] == s;
    if out.Some? && |ss| > 1 {
      PairsDecide(p, r, g, e, ss[1..], s, out.value.1, want, give, skips);
    } else if out.Some? {
      assert ss[1..] == [] && out.value.0 + [] == out.value.0;
    }
  }

  lemma {:induction false} RightDecides(p: Program, r: Rule, g: Types, e: Expr, s: State, next: nat, want: Type,
      give: Type, skips: bool)
    requires Given(g, s, next) && want != BoundedResult && give != BoundedResult
    ensures Decides(ExploreRight(p, r, e, s, next, want, give, skips), When(TypeOf(p, r, g, e) == Some(want), give),
      s, next)
    decreases e, 5
  {
    ThenDecides(p, r, g, e, s, next, want, give);
  }

  lemma {:induction false} PrimDecides(p: Program, r: Rule, g: Types, e: Expr, s: State, next: nat)
    requires Given(g, s, next) && e.Prim?
    ensures Decides(Explore(p, r, e, s, next), TypeOf(p, r, g, e), s, next)
    decreases e, 0
  {
    if e.pop.ByteAt? {
      if IsTable(e.arg0) {
        ThenDecides(p, r, g, e.arg1, s, next, TNumber, TNumber);
      }
    } else if IsScalarPrim(e.pop) {
      TypedDecides(p, r, g, e.arg0, s, next, TNumber);
      var out := ExploreTyped(p, r, e.arg0, s, next, TNumber);
      if out.Some? {
        PairsDecide(p, r, g, e.arg1, out.value.0, s, out.value.1, TNumber, TNumber, false);
      }
    }
  }

  lemma {:induction false} BinaryDecides(p: Program, r: Rule, g: Types, e: Expr, s: State, next: nat)
    requires Given(g, s, next) && e.Binary?
    ensures Decides(Explore(p, r, e, s, next), TypeOf(p, r, g, e), s, next)
    decreases e, 0
  {
    var t := OperandType(e.op);
    TypedDecides(p, r, g, e.left, s, next, t);
    var out := ExploreTyped(p, r, e.left, s, next, t);
    if out.Some? {
      PairsDecide(p, r, g, e.right, out.value.0, s, out.value.1, t, ResultOf(e.op), e.op.And? || e.op.Or?);
    }
  }

  // ----- arms -----

  lemma CleanSame(ps: seq<Path>, s: State, ty: Type, lo: nat, hi: nat)
    requires AllClean(ps, s, ty, lo, hi)
    ensures SameTypes(ps)
  {
  }

  /** Two arms, taken from each of the paths before them: where their types
      differ, so do those of some two paths. */
  predicate ArmsDecide(out: Paths, a: Option<Type>, b: Option<Type>, s: State, next: nat) {
    if a.None? || b.None? then out.None?
    else if a == b then Decides(out, a, s, next)
    else out.Some? && !SameTypes(out.value.0)
  }

  /** One round of the two arms. */
  lemma RoundDecides(ps: seq<Path>, m: nat, qs: seq<Path>, n: nat, s: State, a: Type, b: Type, next: nat, rest: Paths)
    requires Decides(Some((ps, m)), Some(a), s, next) && Decides(Some((qs, n)), Some(b), s, m) && n >= m >= next
    requires rest == Some(([], n)) || ArmsDecide(rest, Some(a), Some(b), s, n)
    ensures ArmsDecide(Prepend(ps + qs, rest), Some(a), Some(b), s, next)
  {
    var all := Prepend(ps + qs, rest).value.0;
    assert all[0] == ps[0] && all[|ps|] == qs[0];
    assert CleanPath(ps[0], s, a, next, m) && CleanPath(qs[0], s, b, m, n);
    if a == b {
      var hi := rest.value.1;
      CleanWider(ps, s, a, next, m, next, hi);
      CleanWider(qs, s, a, m, n, next, hi);
      CleanAppend(ps, qs, s, a, next, hi);
      if rest.value.0 != [] {
        CleanWider(rest.value.0, s, a, n, hi, next, hi);
      }
      CleanAppend(ps + qs, rest.value.0, s, a, next, hi);
    }
  }

  lemma {:induction false} IfArmsDecide(p: Program, r: Rule, g: Types, e: Expr, ss: seq<State>, s: State, next: nat)
    requires e.If? && Given(g, s, next) && Copies(ss, s) && ss != []
    ensures ArmsDecide(ExploreArms(p, r, e, ss, next, s.env), TypeOf(p, r, g, e.yes), TypeOf(p, r, g, e.no), s, next)
    decreases e, 1, |ss|
  {
    assert ss[0] == s;
    ExploreDecides(p, r, g, e.yes, s, next);
    var out := Explore(p, r, e.yes, s, next);
    if out.Some? {
      var (ps, m) := out.value;
      ExploreDecides(p, r, g, e.no, s, m);
      var out' := Explore(p, r, e.no, s, m);
      if out'.Some? {
        var (qs, n) := out'.value;
        if |ss| > 1 {
          IfArmsDecide(p, r, g, e, ss[1..], s, n);
        } else {
          assert ss[1..] == [];
        }
        RoundDecides(ps, m, qs, n, s, TypeOf(p, r, g, e.yes).value, TypeOf(p, r, g, e.no).value, next,
          ExploreArms(p, r, e, ss[1..], n, s.env));
      }
    }
  }

  lemma {:induction false} IfDecides(p: Program, r: Rule, g: Types, e: Expr, s: State, next: nat)
    requires Given(g, s, next) && e.If?
    ensures Decides(Explore(p, r, e, s, next), TypeOf(p, r, g, e), s, next)
    decreases e, 2, 0
  {
    TypedDecides(p, r, g, e.cond, s, next, TBool);
    var out := ExploreTyped(p, r, e.cond, s, next, TBool);
    if out.Some? {
      IfArmsDecide(p, r, g, e, out.value.0, s, out.value.1);
      SettleArms(ExploreArms(p, r, e, out.value.0, out.value.1, s.env), TypeOf(p, r, g, e.yes), TypeOf(p, r, g, e.no),
        s, next, out.value.1);
    }
  }

  /** An arm sees its binder, and puts back what the binder hid. */
  lemma {:induction false} BoundDecides(p: Program, r: Rule, g: Types, e: Expr, s: State, x: string, ty: Type,
      next: nat)
    requires Given(g, s, next) && ty != BoundedResult
    ensures Decides(ExploreBound(p, r, e, s, x, ty, next), TypeOf(p, r, g[x := ty], e), s, next)
    decreases e, 3
  {
    var inner := s.(env := s.env[x := Val(ty, None)]);
    ExploreDecides(p, r, g[x := ty], e, inner, next);
    var out, t := Explore(p, r, e, inner, next), TypeOf(p, r, g[x := ty], e);
    if t.Some? {
      RestoreClean(out.value.0, s, x, ty, t.value, next, out.value.1);
    }
  }

  lemma RestoreClean(ps: seq<Path>, s: State, x: string, ty: Type, t: Type, lo: nat, hi: nat)
    requires AllClean(ps, s.(env := s.env[x := Val(ty, None)]), t, lo, hi)
    ensures AllClean(Restore(ps, x, s.env), s, t, lo, hi)
  {
    var qs := Restore(ps, x, s.env);
    forall i | 0 <= i < |qs|
      ensures CleanPath(qs[i], s, t, lo, hi)
    {
      assert CleanPath(ps[i], s.(env := s.env[x := Val(ty, None)]), t, lo, hi);
      assert RestoreOne(ps[i], x, s.env).state.env == s.env;
    }
  }

  /** Matching the one result a path made leaves the state before it was made. */
  lemma Discharged(q: Path, s: State, lo: nat, hi: nat)
    requires CleanPath(q, s, BoundedResult, lo, hi) && Low(s, lo)
    ensures q.state.(pending := q.state.pending - {q.val.token.value}) == s
  {
  }

  lemma {:induction false} MatchArmsDecide(p: Program, r: Rule, g: Types, e: Expr, ps: seq<Path>, s: State, lo: nat,
      next: nat)
    requires e.MatchResult? && EnvTyped(g, s.env) && Low(s, lo) && lo <= next && ps != []
    requires AllClean(ps, s, BoundedResult, lo, next)
    ensures ArmsDecide(ExploreMatches(p, r, e, ps, next, s.env), TypeOf(p, r, g[e.okVar := TNumber], e.okBody),
      TypeOf(p, r, g[e.errVar := TBoundsError], e.errBody), s, next)
    decreases e, 1, |ps|
  {
    assert CleanPath(ps[0], s, BoundedResult, lo, next);
    Discharged(ps[0], s, lo, next);
    BoundDecides(p, r, g, e.okBody, s, e.okVar, TNumber, next);
    var a, b := TypeOf(p, r, g[e.okVar := TNumber], e.okBody), TypeOf(p, r, g[e.errVar := TBoundsError], e.errBody);
    var out := ExploreBound(p, r, e.okBody, s, e.okVar, TNumber, next);
    if out.Some? {
      var (oks, m) := out.value;
      BoundDecides(p, r, g, e.errBody, s, e.errVar, TBoundsError, m);
      var out' := ExploreBound(p, r, e.errBody, s, e.errVar, TBoundsError, m);
      if out'.Some? {
        var (errs, n) := out'.value;
        if |ps| > 1 {
          CleanWider(ps[1..], s, BoundedResult, lo, next, lo, n);
          MatchArmsDecide(p, r, g, e, ps[1..], s, lo, n);
        } else {
          assert ps[1..] == [];
        }
        RoundDecides(oks, m, errs, n, s, a.value, b.value, next, ExploreMatches(p, r, e, ps[1..], n, s.env));
      }
    }
  }

  lemma {:induction false} MatchDecides(p: Program, r: Rule, g: Types, e: Expr, s: State, next: nat)
    requires Given(g, s, next) && e.MatchResult?
    ensures Decides(Explore(p, r, e, s, next), TypeOf(p, r, g, e), s, next)
    decreases e, 2, 0
  {
    ExploreDecides(p, r, g, e.target, s, next);
    var out, t := Explore(p, r, e.target, s, next), TypeOf(p, r, g, e.target);
    if t == Some(BoundedResult) {
      MatchArmsDecide(p, r, g, e, out.value.0, s, next, out.value.1);
      SettleArms(ExploreMatches(p, r, e, out.value.0, out.value.1, s.env),
        TypeOf(p, r, g[e.okVar := TNumber], e.okBody), TypeOf(p, r, g[e.errVar := TBoundsError], e.errBody), s, next,
        out.value.1);
    } else if t.Some? {
      assert CleanPath(out.value.0[0], s, t.value, next, out.value.1);
    }
  }

  /** A match or a conditional is kept when its paths have one type. */
  function Kept(out: Paths): Paths { if out.Some? && SameTypes(out.value.0) then out else None }

  lemma SettleArms(out: Paths, a: Option<Type>, b: Option<Type>, s: State, next: nat, mid: nat)
    requires ArmsDecide(out, a, b, s, mid) && next <= mid
    ensures Decides(Kept(out), if a == b then a else None, s, next)
  {
    if a == b && a.Some? {
      CleanWider(out.value.0, s, a.value, mid, out.value.1, next, out.value.1);
      CleanSame(out.value.0, s, a.value, next, out.value.1);
    }
  }

  // ----- rules -----

  /** The types after the lets, none of which may hold a result. */
  function LetTypes(p: Program, r: Rule, bs: seq<Binding>, g: Types): Option<Types> {
    if bs == [] then Some(g)
    else
      match TypeOf(p, r, g, bs[0].value)
      case None => None
      case Some(t) => LetTypes(p, r, bs[1..], g[bs[0].name := t])
  }

  /** No let is typed as a result. */
  predicate NoResultKept(p: Program, r: Rule, bs: seq<Binding>, g: Types)
    decreases |bs|
  {
    bs != [] ==>
      var t := TypeOf(p, r, g, bs[0].value);
      t.Some? ==> t.value != BoundedResult && NoResultKept(p, r, bs[1..], g[bs[0].name := t.value])
  }

  lemma {:induction false} LetDecides(p: Program, r: Rule, g: Types, b: Binding, ss: seq<State>, s: State, next: nat)
    requires Given(g, s, next) && Copies(ss, s) && ss != [] && TypeOf(p, r, g, b.value) != Some(BoundedResult)
    ensures var out, t := ExploreLet(p, r, b, ss, next), TypeOf(p, r, g, b.value);
      if t.None? then out.None?
      else out.Some? && out.value.0 != [] && out.value.1 >= next
           && Copies(out.value.0, s.(env := s.env[b.name := Val(t.value, None)]))
    decreases |ss|
  {
    assert ss[0] == s;
    ExploreDecides(p, r, g, b.value, s, next);
    var out, t := Explore(p, r, b.value, s, next), TypeOf(p, r, g, b.value);
    if t.Some? {
      var (ps, m) := out.value;
      if |ss| > 1 {
        LetDecides(p, r, g, b, ss[1..], s, m);
      } else {
        assert ss[1..] == [];
      }
      BindCopies(ps, s, b.name, t.value, next, m);
    }
  }

  lemma BindCopies(ps: seq<Path>, s: State, x: string, t: Type, lo: nat, hi: nat)
    requires AllClean(ps, s, t, lo, hi) && t != BoundedResult
    ensures Copies(BindAll(ps, x), s.(env := s.env[x := Val(t, None)]))
  {
    forall i | 0 <= i < |ps|
      ensures BindAll(ps, x)[i] == s.(env := s.env[x := Val(t, None)])
    {
      assert CleanPath(ps[i], s, t, lo, hi);
    }
  }

  lemma {:induction false} LetsDecide(p: Program, r: Rule, g: Types, bs: seq<Binding>, ss: seq<State>, s: State,
      next: nat) returns (t: State)
    requires Given(g, s, next) && Copies(ss, s) && ss != [] && NoResultKept(p, r, bs, g)
    ensures var out, h := ExploreLets(p, r, bs, ss, next), LetTypes(p, r, bs, g);
      if h.None? then out.None?
      else out.Some? && out.value.0 != [] && Copies(out.value.0, t) && t.pending == s.pending
           && Given(h.value, t, out.value.1)
    decreases |bs|
  {
    t := s;
    if bs != [] {
      LetDecides(p, r, g, bs[0], ss, s, next);
      var out, ty := ExploreLet(p, r, bs[0], ss, next), TypeOf(p, r, g, bs[0].value);
      if ty.Some? {
        var s' := s.(env := s.env[bs[0].name := Val(ty.value, None)]);
        t := LetsDecide(p, r, g[bs[0].name := ty.value], bs[1..], out.value.0, s', out.value.1);
      }
    }
  }

  lemma {:induction false} OutputsDecide(p: Program, r: Rule, g: Types, ss: seq<State>, s: State, next: nat)
    requires Given(g, s, next) && s.pending == {} && Copies(ss, s) && ss != []
    ensures OutputsReturn(p, r, ss, next) <==> TypeOf(p, r, g, r.value) == Some(r.outputTy)
    decreases |ss|
  {
    assert ss[0] == s;
    ExploreDecides(p, r, g, r.value, s, next);
    var out, t := Explore(p, r, r.value, s, next), TypeOf(p, r, g, r.value);
    if t.Some? {
      var (ps, n) := out.value;
      assert CleanPath(ps[0], s, t.value, next, n);
      assert AllReturn(r, ps) <==> t.value == r.outputTy;
      if |ss| > 1 {
        OutputsDecide(p, r, g, ss[1..], s, n);
      } else {
        assert ss[1..] == [];
      }
    }
  }

  /** The rule has its declared type. */
  predicate WellTyped(p: Program, r: Rule) {
    var g := LetTypes(p, r, r.bindings, map[]);
    g.Some? && TypeOf(p, r, g.value, r.value) == Some(r.outputTy)
  }

  /** Where no let keeps a result, the paths end well exactly when the rule has
      its declared type: nothing that matches or returns its results is refused. */
  lemma PathsDecide(p: Program, r: Rule)
    requires NoResultKept(p, r, r.bindings, map[])
    ensures PathsReturn(p, r) <==> WellTyped(p, r)
  {
    var t := LetsDecide(p, r, map[], r.bindings, [Start], Start, 0);
    var lets, g := ExploreLets(p, r, r.bindings, [Start], 0), LetTypes(p, r, r.bindings, map[]);
    if g.Some? {
      OutputsDecide(p, r, g.value, lets.value.0, t, lets.value.1);
    }
  }

  /** Acceptance of a rule that keeps no result in a let. */
  lemma AcceptedTyped(p: Program, n: string)
    requires n in p.rules && NoResultKept(p, p.rules[n], p.rules[n].bindings, map[])
    ensures var r := p.rules[n];
      RuleAccepted(p, n) <==>
      && !r.hasContext && NumericConcept(p, r.inputTy) && r.outputTy in {BoundedResult, TNumber, TBool}
      && !Cyclic(CallGraph(p), n, {}) && WellTyped(p, r)
  {
    PathsDecide(p, p.rules[n]);
  }

  // ----- which rules are under the contract -----

  /** The expression and everything in it. */
  function Subterms(e: Expr): set<Expr>
    decreases e
  {
    {e} + set c, d | c in Children(e) && d in Subterms(c) :: d
  }

  lemma {:induction false} TryByteSomewhere(e: Expr)
    ensures HasTryByte(e) <==> exists d :: d in Subterms(e) && d.TryByteAt?
    decreases e
  {
    forall c | c in Children(e)
      ensures HasTryByte(c) <==> exists d :: d in Subterms(c) && d.TryByteAt?
    {
      TryByteSomewhere(c);
    }
    if e.TryByteAt? {
      assert e in Subterms(e);
    }
  }

  /** A rule outside the contract reads no byte that may not be there, nowhere in
      its lets or its output, and neither does any rule it calls. */
  lemma OutsideReadsNone(p: Program, n: string, m: string, e: Expr, d: Expr)
    requires n in p.rules && !Participates(CallGraph(p), Seeds(p), n) && m in p.rules
    requires m == n || m in RuleCalls(p.rules[n])
    requires e == p.rules[m].value || exists b | b in p.rules[m].bindings :: e == b.value
    requires d in Subterms(e)
    ensures !d.TryByteAt?
  {
    if d.TryByteAt? {
      TryByteSomewhere(e);
      assert m in Seeds(p);
      SeedsSound(CallGraph(p), Seeds(p));
      assert Participates(CallGraph(p), Seeds(p), m);
      if m != n {
        assert m in CallGraph(p)[n];
        ParticipatesStep(CallGraph(p), Seeds(p), m, n);
      }
    }
  }
}
