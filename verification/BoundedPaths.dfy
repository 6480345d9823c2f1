/** The obligation analysis of bounded results: an abstract interpreter that
    splits an expression into paths. Each Result(number, BoundsError) a path
    creates is a token that stays pending until the path matches or returns it. */
module BoundedPaths {
  import opened Ast
  import opened Interp

  const BoundedResult := TResult(TNumber, TBoundsError)

  /** What is known of a value: its type, and the token it carries. */
  datatype Val = Val(ty: Type, token: Option<nat>)
  datatype State = State(env: map<string, Val>, pending: set<nat>)
  datatype Path = Path(state: State, val: Val)

  /** All paths of an expression and the next token counter; None is a refusal. */
  type Paths = Option<(seq<Path>, nat)>

  /** Gives a state a value of type `ty`, with a fresh token if it is a bounded result. */
  function Produce(s: State, ty: Type, next: nat): (Path, nat) {
    if ty == BoundedResult then
      (Path(s.(pending := s.pending + {next + 1}), Val(ty, Some(next + 1))), next + 1)
    else
      (Path(s, Val(ty, None)), next)
  }

  /** The same over a list of states, in order. */
  function ProduceAll(ss: seq<State>, ty: Type, next: nat): (r: (seq<Path>, nat))
    ensures r.1 >= next && |r.0| == |ss|
    ensures forall i | 0 <= i < |ss| :: r.0[i].state.env == ss[i].env
  {
    if ss == [] then ([], next)
    else
      var (p, n) := Produce(ss[0], ty, next);
      var rest := ProduceAll(ss[1..], ty, n);
      ([p] + rest.0, rest.1)
  }

  /** The states of paths that must all have one type. */
  function Expect(ps: seq<Path>, ty: Type): (r: Option<seq<State>>)
    ensures r.Some? <==> forall i | 0 <= i < |ps| :: ps[i].val.ty == ty
    ensures r.Some? ==> |r.value| == |ps| && forall i | 0 <= i < |ps| :: r.value[i] == ps[i].state
  {
    if ps == [] then Some([])
    else if ps[0].val.ty != ty then None
    else
      match Expect(ps[1..], ty)
      case None => None
      case Some(ss) => Some([ps[0].state] + ss)
  }

  predicate SameTypes(ps: seq<Path>) {
    forall i | 0 <= i < |ps| :: ps[i].val.ty == ps[0].val.ty
  }

  /** Puts back what a match binder hid. */
  function Restore(ps: seq<Path>, x: string, outer: map<string, Val>): (r: seq<Path>)
    ensures |r| == |ps|
    ensures forall i | 0 <= i < |ps| :: r[i] == RestoreOne(ps[i], x, outer)
  {
    if ps == [] then [] else [RestoreOne(ps[0], x, outer)] + Restore(ps[1..], x, outer)
  }

  function RestoreOne(p: Path, x: string, outer: map<string, Val>): Path {
    var env := if x in outer then p.state.env[x := outer[x]] else p.state.env - {x};
    p.(state := p.state.(env := env))
  }

  /** The type of an input field; the input must not be rebound. */
  function FieldType(p: Program, r: Rule, s: State, b: Expr, f: string): Option<Type> {
    if b != Ident(r.input) || r.input in s.env then None
    else if !r.inputTy.TNamed? || r.inputTy.concept !in p.concepts then None
    else match FindField(p.concepts[r.inputTy.concept].fields, f) case None => None case Some(d) => Some(d.ty)
  }

  /** A call passes the input on, to a rule of the same input type. */
  function CallType(p: Program, r: Rule, s: State, n: string, args: seq<Expr>): Option<Type> {
    if n !in p.rules then None
    else if args != [Ident(r.input)] || r.input in s.env || p.rules[n].inputTy != r.inputTy then None
    else Some(p.rules[n].outputTy)
  }

  function OperandType(op: BinOp): Type { if op.And? || op.Or? then TBool else TNumber }

  function ResultOf(op: BinOp): Type { if IsComparison(op) || op.And? || op.Or? then TBool else TNumber }

  predicate IsScalarPrim(op: PrimOp) {
    op in {MinOp, MaxOp, PrimOp.BitAnd, PrimOp.BitOr, PrimOp.BitXor, PrimOp.Shl, PrimOp.Shr}
  }

  /** Operand and result types of the one-argument forms the contract supports. */
  function UnaryTypes(op: UnOp): Option<(Type, Type)> {
    match op
    case MkOk => Some((TNumber, BoundedResult))
    case MkErr => Some((TBoundsError, BoundedResult))
    case Not => Some((TBool, TBool))
    case Neg => Some((TNumber, TNumber))
    case Abs => Some((TNumber, TNumber))
    case BitNot => Some((TNumber, TNumber))
    case _ => None
  }

  predicate Scoped(out: Paths, env: map<string, Val>, next: nat) {
    out.Some? ==> out.value.1 >= next && forall i | 0 <= i < |out.value.0| :: out.value.0[i].state.env == env
  }

  /** Every path of `e` from `s`. Paths leave the environment as they found it. */
  function Explore(p: Program, r: Rule, e: Expr, s: State, next: nat): (out: Paths)
    ensures Scoped(out, s.env, next)
    decreases e, 2
  {
    match e
    case Number(_) => One(s, TNumber, next)
    case Text(_) => One(s, TText, next)
    case BytesLit(_) => One(s, TBytes, next)
    case Ident(x) =>
      if x in s.env then Some(([Path(s, s.env[x])], next))
      else if x == "true" || x == "false" then One(s, TBool, next)
      else None
    case Field(b, f) =>
      (match FieldType(p, r, s, b, f) case None => None case Some(ty) => One(s, ty, next))
    case Call(n, args) =>
      (match CallType(p, r, s, n, args) case None => None case Some(ty) => One(s, ty, next))
    case TryByteAt(t, i) => if IsTable(t) then ExploreThen(p, r, i, s, next, TNumber, BoundedResult) else None
    case Unary(op, a) =>
      (match UnaryTypes(op) case None => None case Some(t) => ExploreThen(p, r, a, s, next, t.0, t.1))
    case Prim(op, a, b) =>
      if op.ByteAt? then
        if IsTable(a) then ExploreThen(p, r, b, s, next, TNumber, TNumber) else None
      else if !IsScalarPrim(op) then None
      else
        (match ExploreTyped(p, r, a, s, next, TNumber)
         case None => None
         case Some((ss, n)) => ExplorePairs(p, r, b, ss, n, TNumber, TNumber, false, s.env))
    case Binary(op, a, b) =>
      (match ExploreTyped(p, r, a, s, next, OperandType(op))
       case None => None
       case Some((ss, n)) => ExplorePairs(p, r, b, ss, n, OperandType(op), ResultOf(op), op.And? || op.Or?, s.env))
    case If(q, _, _) =>
      (match ExploreTyped(p, r, q, s, next, TBool)
       case None => None
       case Some((ss, n)) =>
         match ExploreArms(p, r, e, ss, n, s.env)
         case None => None
         case Some((ps, n')) => if SameTypes(ps) then Some((ps, n')) else None)
    case MatchResult(t, _, _, _, _) =>
      (match Explore(p, r, t, s, next)
       case None => None
       case Some((ps, n)) =>
         match ExploreMatches(p, r, e, ps, n, s.env)
         case None => None
         case Some((qs, n')) => if SameTypes(qs) then Some((qs, n')) else None)
    case _ => None
  }

  function One(s: State, ty: Type, next: nat): (out: Paths)
    ensures Scoped(out, s.env, next)
  {
    var (p, n) := Produce(s, ty, next);
    Some(([p], n))
  }

  /** The states after `e`, which must have type `ty` on every path. */
  function ExploreTyped(p: Program, r: Rule, e: Expr, s: State, next: nat, ty: Type): (out: Option<(seq<State>, nat)>)
    ensures out.Some? ==> out.value.1 >= next && forall i | 0 <= i < |out.value.0| :: out.value.0[i].env == s.env
    decreases e, 3
  {
    match Explore(p, r, e, s, next)
    case None => None
    case Some((ps, n)) => match Expect(ps, ty) case None => None case Some(ss) => Some((ss, n))
  }

  /** An operand of type `want` turned into a value of type `give`. */
  function ExploreThen(p: Program, r: Rule, e: Expr, s: State, next: nat, want: Type, give: Type): (out: Paths)
    ensures Scoped(out, s.env, next)
    decreases e, 4
  {
    match ExploreTyped(p, r, e, s, next, want)
    case None => None
    case Some((ss, n)) => Some(ProduceAll(ss, give, n))
  }

  predicate AllScoped(ss: seq<State>, env: map<string, Val>) {
    forall i | 0 <= i < |ss| :: ss[i].env == env
  }

  /** The right operand from each state the left one leaves. A short-circuit
      operator also has the path that skips it. */
  function ExplorePairs(p: Program, r: Rule, e: Expr, ss: seq<State>, next: nat, want: Type, give: Type, skips: bool,
      ghost env: map<string, Val>): (out: Paths)
    requires AllScoped(ss, env)
    ensures Scoped(out, env, next)
    decreases e, 6, |ss|
  {
    if ss == [] then Some(([], next))
    else
      match ExploreRight(p, r, e, ss[0], next, want, give, skips)
      case None => None
      case Some((ps, n)) => Prepend(ps, ExplorePairs(p, r, e, ss[1..], n, want, give, skips, env))
  }

  function ExploreRight(p: Program, r: Rule, e: Expr, s: State, next: nat, want: Type, give: Type,
      skips: bool): (out: Paths)
    ensures Scoped(out, s.env, next)
    decreases e, 5
  {
    var (skip, m) := Skip(s, next, give, skips);
    Prepend(skip, ExploreThen(p, r, e, s, m, want, give))
  }

  function Skip(s: State, next: nat, give: Type, skips: bool): (r: (seq<Path>, nat)) {
    if skips then var (q, m) := Produce(s, give, next); ([q], m) else ([], next)
  }

  function Prepend(ps: seq<Path>, rest: Paths): Paths {
    match rest case None => None case Some((qs, n)) => Some((ps + qs, n))
  }

  /** Both branches from each state the condition leaves. */
  function ExploreArms(p: Program, r: Rule, e: Expr, ss: seq<State>, next: nat,
      ghost env: map<string, Val>): (out: Paths)
    requires e.If? && AllScoped(ss, env)
    ensures Scoped(out, env, next)
    decreases e, 1, |ss|
  {
    if ss == [] then Some(([], next))
    else
      match Explore(p, r, e.yes, ss[0], next)
      case None => None
      case Some((ps, m)) =>
        match Explore(p, r, e.no, ss[0], m)
        case None => None
        case Some((qs, n)) => Prepend(ps + qs, ExploreArms(p, r, e, ss[1..], n, env))
  }

  /** One arm of a match from state `s`, its binder in scope. */
  function ExploreBound(p: Program, r: Rule, e: Expr, s: State, x: string, ty: Type, next: nat): (out: Paths)
    ensures Scoped(out, s.env, next)
    decreases e, 3
  {
    match Explore(p, r, e, s.(env := s.env[x := Val(ty, None)]), next)
    case None => None
    case Some((ps, n)) => Some((Restore(ps, x, s.env), n))
  }

  /** Discharges the matched token and explores both arms, for each scrutinee path. */
  function ExploreMatches(p: Program, r: Rule, e: Expr, ps: seq<Path>, next: nat,
      ghost env: map<string, Val>): (out: Paths)
    requires e.MatchResult? && forall i | 0 <= i < |ps| :: ps[i].state.env == env
    ensures Scoped(out, env, next)
    decreases e, 1, |ps|
  {
    if ps == [] then Some(([], next))
    else if ps[0].val.ty != BoundedResult || ps[0].val.token.None? then None
    else
      var s := ps[0].state.(pending := ps[0].state.pending - {ps[0].val.token.value});
      match ExploreBound(p, r, e.okBody, s, e.okVar, TNumber, next)
      case None => None
      case Some((oks, m)) =>
        match ExploreBound(p, r, e.errBody, s, e.errVar, TBoundsError, m)
        case None => None
        case Some((errs, n)) => Prepend(oks + errs, ExploreMatches(p, r, e, ps[1..], n, env))
  }

  // ----- rules -----

  /** The states after one let, from each state before it. */
  function ExploreLet(p: Program, r: Rule, b: Binding, ss: seq<State>, next: nat): Option<(seq<State>, nat)> {
    if ss == [] then Some(([], next))
    else
      match Explore(p, r, b.value, ss[0], next)
      case None => None
      case Some((ps, m)) =>
        match ExploreLet(p, r, b, ss[1..], m)
        case None => None
        case Some((rest, n)) => Some((BindAll(ps, b.name) + rest, n))
  }

  function BindAll(ps: seq<Path>, x: string): (ss: seq<State>)
    ensures |ss| == |ps| && forall i | 0 <= i < |ps| :: ss[i] == BindOne(ps[i], x)
  {
    if ps == [] then [] else [BindOne(ps[0], x)] + BindAll(ps[1..], x)
  }

  function BindOne(p: Path, x: string): State { p.state.(env := p.state.env[x := p.val]) }

  function ExploreLets(p: Program, r: Rule, bs: seq<Binding>, ss: seq<State>, next: nat): Option<(seq<State>, nat)> {
    if bs == [] then Some((ss, next))
    else
      match ExploreLet(p, r, bs[0], ss, next)
      case None => None
      case Some((ts, n)) => ExploreLets(p, r, bs[1..], ts, n)
  }

  /** A path may end a rule when it has the declared type and nothing but the
      returned value is pending. */
  predicate Returns(r: Rule, p: Path) {
    p.val.ty == r.outputTy && p.state.pending <= (if p.val.token.Some? then {p.val.token.value} else {})
  }

  predicate AllReturn(r: Rule, ps: seq<Path>) {
    forall i | 0 <= i < |ps| :: Returns(r, ps[i])
  }

  /** Every path of the output, from each state the lets leave, may end the rule. */
  predicate OutputsReturn(p: Program, r: Rule, ss: seq<State>, next: nat) {
    ss != [] ==>
      var out := Explore(p, r, r.value, ss[0], next);
      out.Some? && AllReturn(r, out.value.0) && OutputsReturn(p, r, ss[1..], out.value.1)
  }

  const Start := State(map[], {})

  predicate PathsReturn(p: Program, r: Rule) {
    var lets := ExploreLets(p, r, r.bindings, [Start], 0);
    lets.Some? && OutputsReturn(p, r, lets.value.0, lets.value.1)
  }
}
