/** What the constructor checker accepts: every rule that has a type in the
    bidirectional typing below. Results made by `ok` and `err` are checked
    against a type; whatever is matched or bound must have one of its own. */
module ConstructorTyped {
  import opened Ast
  import opened Interp
  import opened Facts
  import opened Constructors

  type Types = map<string, Type>

  function When(ok: bool, t: Type): Option<Type> { if ok then Some(t) else None }

  /** The first of the types that are known. */
  function FirstType(ts: seq<Option<Type>>): Option<Type> {
    if ts == [] then None else if ts[0].Some? then ts[0] else FirstType(ts[1..])
  }

  /** Operand and result types of the plain one-argument builtins. */
  function Given(op: UnOp): Option<(Type, Type)> {
    match op
    case Not => Some((TBool, TBool))
    case ParseInt => Some((TText, TNumber))
    case JsonEscape => Some((TText, TText))
    case Le32 => Some((TNumber, TBytes))
    case Le64 => Some((TNumber, TBytes))
    case AbortIf => Some((TNumber, TBytes))
    case Neg => Some((TNumber, TNumber))
    case Abs => Some((TNumber, TNumber))
    case BitNot => Some((TNumber, TNumber))
    case _ => None
  }

  /** Each variant of the concept has exactly one arm, which binds its fields. */
  predicate Covers(c: Concept, arms: seq<Arm>) {
    && c.variants != []
    && (forall i, k | 0 <= i < k < |arms| :: arms[i].variant != arms[k].variant)
    && (forall v | v in c.variants :: exists i | 0 <= i < |arms| :: arms[i].variant == v.name)
    && forall i | 0 <= i < |arms| ::
         var d := FindVariant(c.variants, arms[i].variant);
         d.Some? && |d.value.fields| == |arms[i].binders| && Distinct(BinderNames(arms[i].binders))
  }

  function BindTypes(bs: seq<Option<string>>, ds: seq<FieldDecl>, g: Types): Types
    requires |bs| == |ds|
  {
    if bs == [] then g
    else BindTypes(bs[1..], ds[1..], if bs[0].None? then g else g[bs[0].value := ds[0].ty])
  }

  function ArmTypes(c: Concept, arm: Arm, g: Types): Types {
    match FindVariant(c.variants, arm.variant)
    case None => g
    case Some(d) => if |d.fields| == |arm.binders| then BindTypes(arm.binders, d.fields, g) else g
  }

  /** The fields a construction gives are the declared ones, each once. */
  predicate Complete(ds: seq<FieldDecl>, inits: seq<FieldInit>) {
    && (forall i, k | 0 <= i < k < |inits| :: inits[i].name != inits[k].name)
    && InitNames(inits) == Names(ds)
  }

  function DeclaredFields(p: Program, n: string, v: Option<string>): Option<seq<FieldDecl>> {
    if n !in p.concepts then None
    else
      match v
      case None => if p.concepts[n].variants == [] then Some(p.concepts[n].fields) else None
      case Some(x) =>
        match FindVariant(p.concepts[n].variants, x) case None => None case Some(d) => Some(d.fields)
  }

  /** The type of an expression that has one by itself. */
  function Synth(p: Program, r: Rule, g: Types, e: Expr): Option<Type>
    decreases e, 0
  {
    match e
    case Number(_) => Some(TNumber)
    case Text(_) => Some(TText)
    case BytesLit(_) => Some(TBytes)
    case Ident(x) => if x in g then Some(g[x]) else None
    case Field(b, f) =>
      (match Synth(p, r, g, b)
       case Some(TNamed(c)) =>
         if c !in p.concepts then None
         else (match FindField(p.concepts[c].fields, f) case None => None case Some(d) => Some(d.ty))
       case _ => None)
    case Unary(op, a) =>
      (match op
       case ArenaScope =>
         if Checks(p, r, g, a, TNumber) then Some(TNumber) else When(Checks(p, r, g, a, TBytes), TBytes)
       case Length => When(Addressable(p, r, g, a), TNumber)
       case _ =>
         match Given(op) case None => None case Some(t) => When(Checks(p, r, g, a, t.0), t.1))
    case Binary(op, a, b) =>
      var numbers := Checks(p, r, g, a, TNumber) && Checks(p, r, g, b, TNumber);
      if op in {Add, Sub, Mul, Div, Mod} then When(numbers, TNumber)
      else if op in {And, Or} then When(Checks(p, r, g, a, TBool) && Checks(p, r, g, b, TBool), TBool)
      else
        When(numbers || (op in {Eq, NotEq} && Checks(p, r, g, a, TText) && Checks(p, r, g, b, TText)), TBool)
    case Prim(op, a, b) =>
      if op.ByteAt? then When(Addressable(p, r, g, a) && Checks(p, r, g, b, TNumber), TNumber)
      else if op in {StartsWith, EndsWith, Contains} then
        When(Checks(p, r, g, a, TText) && Checks(p, r, g, b, TText), TBool)
      else When(Checks(p, r, g, a, TNumber) && Checks(p, r, g, b, TNumber), TNumber)
    case TryByteAt(t, i) =>
      When(Addressable(p, r, g, t) && Checks(p, r, g, i, TNumber), TResult(TNumber, TBoundsError))
    case Substring(a, b, c) =>
      When(Checks(p, r, g, a, TText) && Checks(p, r, g, b, TNumber) && Checks(p, r, g, c, TNumber), TText)
    case If(q, a, b) =>
      (match FirstType([Synth(p, r, g, a), Synth(p, r, g, b)])
       case None => None
       case Some(t) => When(Checks(p, r, g, q, TBool) && Checks(p, r, g, a, t) && Checks(p, r, g, b, t), t))
    case MatchResult(m, x, a, y, b) =>
      (match Synth(p, r, g, m)
       case Some(TResult(t, u)) =>
         (match FirstType([Synth(p, r, g[x := t], a), Synth(p, r, g[y := u], b)])
          case None => None
          case Some(v) => When(Checks(p, r, g[x := t], a, v) && Checks(p, r, g[y := u], b, v), v))
       case _ => None)
    case Call(n, args) =>
      if n in p.rules && |args| == 1
      then When(Checks(p, r, g, args[0], p.rules[n].inputTy), p.rules[n].outputTy) else None
    case Concat(args) =>
      if args != [] && forall i | 0 <= i < |args| :: Checks(p, r, g, args[i], TBytes) then Some(TBytes)
      else
        When(forall i | 0 <= i < |args| ::
          (Checks(p, r, g, args[i], TText) || Checks(p, r, g, args[i], TNumber) || Checks(p, r, g, args[i], TBool)),
          TText)
    case Construct(n, v, inits) =>
      (match DeclaredFields(p, n, v)
       case None => None
       case Some(ds) =>
         When(Complete(ds, inits) && forall i | 0 <= i < |inits| ::
           var d := FindField(ds, inits[i].name); d.Some? && Checks(p, r, g, inits[i].value, d.value.ty), TNamed(n)))
    case MatchVariant(m, arms) =>
      (match Synth(p, r, g, m)
       case Some(TNamed(c)) =>
         if c !in p.concepts || !Covers(p.concepts[c], arms) then None
         else
           var ts := seq(|arms|, i requires 0 <= i < |arms| =>
             Synth(p, r, ArmTypes(p.concepts[c], arms[i], g), arms[i].body));
           (match FirstType(ts)
            case None => None
            case Some(t) =>
              When(forall i | 0 <= i < |arms| ::
                Checks(p, r, ArmTypes(p.concepts[c], arms[i], g), arms[i].body, t), t))
       case _ => None)
    case Quantifier(_, c, x, b) =>
      (match Synth(p, r, g, c)
       case Some(TCollection(n)) => When(Checks(p, r, g[x := ElemType(n)], b, TBool), TBool)
       case _ => None)
    case Collect(keep, c, x, b) =>
      (match Synth(p, r, g, c)
       case Some(TCollection(n)) =>
         if keep then When(Checks(p, r, g[x := ElemType(n)], b, TBool), TCollection(n))
         else
           (match Synth(p, r, g[x := ElemType(n)], b)
            case None => None
            case Some(t) => ListOf(t))
       case _ => None)
    case Fold(c, i, acc, x, b) =>
      (match (Synth(p, r, g, c), Synth(p, r, g, i))
       case (Some(TCollection(n)), Some(t)) => When(Synth(p, r, g[acc := t][x := ElemType(n)], b) == Some(t), t)
       case _ => None)
    case FoldBytes(t, i, acc, x, n, b) =>
      When(Checks(p, r, g, t, TText) && Checks(p, r, g, i, TNumber)
           && Checks(p, r, g[acc := TNumber][x := TNumber][n := TNumber], b, TNumber), TNumber)
  }

  /** The collection type of items of a type. */
  function ListOf(t: Type): Option<Type> {
    match t
    case TNumber => Some(TCollection("number"))
    case TBool => Some(TCollection("bool"))
    case TText => Some(TCollection("text"))
    case TBytes => Some(TCollection("bytes"))
    case TNamed(n) => Some(TCollection(n))
    case _ => None
  }

  /** The expression may stand where a value of type `t` is wanted. */
  predicate Checks(p: Program, r: Rule, g: Types, e: Expr, t: Type)
    decreases e, 1
  {
    || Synth(p, r, g, e) == Some(t)
    || match e
       case Unary(MkOk, a) => t.TResult? && Checks(p, r, g, a, t.ok)
       case Unary(MkErr, a) => t.TResult? && Checks(p, r, g, a, t.err)
       case If(q, a, b) => Checks(p, r, g, q, TBool) && Checks(p, r, g, a, t) && Checks(p, r, g, b, t)
       case MatchResult(m, x, a, y, b) =>
         (match Synth(p, r, g, m)
          case Some(TResult(u, v)) => Checks(p, r, g[x := u], a, t) && Checks(p, r, g[y := v], b, t)
          case _ => false)
       case MatchVariant(m, arms) =>
         (match Synth(p, r, g, m)
          case Some(TNamed(c)) =>
            && c in p.concepts && Covers(p.concepts[c], arms)
            && forall i | 0 <= i < |arms| :: Checks(p, r, ArmTypes(p.concepts[c], arms[i], g), arms[i].body, t)
          case _ => false)
       case _ => false
  }

  /** Text, a byte literal, or a field of the input as it was declared. */
  predicate Addressable(p: Program, r: Rule, g: Types, e: Expr)
    decreases e, 2
  {
    || Checks(p, r, g, e, TText)
    || (Checks(p, r, g, e, TBytes) &&
        (e.BytesLit? || (e.Field? && e.base == Ident(r.input) && r.input in g && g[r.input] == r.inputTy)))
  }

  // ----- facts -----

  /** The fact may stand where the type is wanted. */
  predicate Suits(f: Fact, t: Type) { Normal(f) && Fits(f, t) }

  predicate Loosely(f: Fact, t: Type) { Normal(f) && Compatible(f, t) }

  lemma {:induction false} LooseJoin(a: Fact, b: Fact, t: Type)
    requires Loosely(a, t) && Loosely(b, t)
    ensures Loosely(Join(a, b), t) && (Join(a, b).Absent? ==> a.Absent?)
    ensures b == FromType(t) ==> Join(a, b) == b && Join(b, a) == b
  {
    if a.Result? && b.Result? {
      LooseJoin(a.ok, b.ok, t.ok);
      LooseJoin(a.err, b.err, t.err);
    }
  }

  /** A join of suitable facts suits, and is the type's own fact if one side is. */
  lemma SuitsJoin(a: Fact, b: Fact, t: Type)
    requires Suits(a, t) && Suits(b, t)
    ensures Suits(Join(a, b), t)
    ensures a == FromType(t) || b == FromType(t) ==> Join(a, b) == FromType(t)
  {
    LooseJoin(a, b, t);
    LooseJoin(b, a, t);
  }

  lemma TypeSuits(t: Type)
    ensures Suits(FromType(t), t)
  {
    FromTypeExact(t);
  }

  predicate AllSuit(fs: seq<Fact>, t: Type) { forall i | 0 <= i < |fs| :: Suits(fs[i], t) }

  lemma {:induction false} SuitsJoinAll(fs: seq<Fact>, t: Type)
    requires fs != [] && AllSuit(fs, t)
    ensures Suits(JoinAll(fs), t)
    ensures FromType(t) in fs ==> JoinAll(fs) == FromType(t)
    decreases |fs|
  {
    if |fs| > 1 {
      var most, last := fs[..|fs| - 1], fs[|fs| - 1];
      assert fs == most + [last];
      SuitsJoinAll(most, t);
      SuitsJoin(JoinAll(most), last, t);
    }
  }

  /** Every name has the fact of its type. */
  predicate ScopeTyped(g: Types, s: Scope) { g.Keys == s.Keys && forall x | x in g :: s[x] == FromType(g[x]) }

  predicate Made(w: Walked, t: Type) { w.ok && w.fact == FromType(t) }

  predicate Fitting(w: Walked, t: Type) { w.ok && Suits(w.fact, t) }

  lemma {:induction false} FirstKnown(ts: seq<Option<Type>>)
    ensures FirstType(ts).Some? ==> FirstType(ts) in ts
    ensures FirstType(ts).None? ==> forall t | t in ts :: t.None?
  {
    if ts != [] && ts[0].None? {
      FirstKnown(ts[1..]);
    }
  }

  // ----- expressions -----

  /** A typed expression is walked without a report, and its fact is its type. */
  lemma {:induction false} SynthWalks(p: Program, r: Rule, g: Types, e: Expr, s: Scope)
    requires ScopeTyped(g, s) && Synth(p, r, g, e).Some?
    ensures Made(Walk(p, r, e, s), Synth(p, r, g, e).value)
    decreases e, 2
  {
    match e
    case Number(_) =>
    case Text(_) =>
    case BytesLit(_) =>
    case Ident(_) =>
    case Field(b, _) => SynthWalks(p, r, g, b, s);
    case Unary(_, _) => UnaryWalks(p, r, g, e, s);
    case Binary(_, _, _) => BinaryWalks(p, r, g, e, s);
    case Prim(_, _, _) => PrimWalks(p, r, g, e, s);
    case TryByteAt(_, _) => TableWalks(p, r, g, e, s);
    case Substring(_, _, _) => TableWalks(p, r, g, e, s);
    case If(_, _, _) => IfWalks(p, r, g, e, s);
    case MatchResult(_, _, _, _, _) => MatchWalks(p, r, g, e, s);
    case Call(_, _) => CallWalks(p, r, g, e, s);
    case Concat(_) => ConcatWalks(p, r, g, e, s);
    case Construct(_, _, _) => ConstructWalks(p, r, g, e, s);
    case MatchVariant(_, _) => VariantWalks(p, r, g, e, s);
    case Quantifier(_, _, _, _) => ItemsWalk(p, r, g, e, s);
    case Collect(_, _, _, _) => ItemsWalk(p, r, g, e, s);
    case Fold(_, _, _, _, _) => FoldWalks(p, r, g, e, s);
    case FoldBytes(_, _, _, _, _, _) => FoldWalks(p, r, g, e, s);
  }

  /** An expression that may stand for a type has a fact that suits it. */
  lemma {:induction false} ChecksWalk(p: Program, r: Rule, g: Types, e: Expr, t: Type, s: Scope)
    requires ScopeTyped(g, s) && Checks(p, r, g, e, t)
    ensures Fitting(Walk(p, r, e, s), t)
    decreases e, 3
  {
    if Synth(p, r, g, e) == Some(t) {
      SynthWalks(p, r, g, e, s);
      TypeSuits(t);
    } else if e.Unary? {
      MadeResult(p, r, g, e, t, s);
    } else if e.If? {
      IfFits(p, r, g, e, t, s);
    } else if e.MatchResult? {
      MatchFits(p, r, g, e, t, s);
    } else {
      VariantFits(p, r, g, e, t, s);
    }
  }

  lemma {:induction false} MadeResult(p: Program, r: Rule, g: Types, e: Expr, t: Type, s: Scope)
    requires ScopeTyped(g, s) && e.Unary? && t.TResult?
    requires (e.uop.MkOk? && Checks(p, r, g, e.arg, t.ok)) || (e.uop.MkErr? && Checks(p, r, g, e.arg, t.err))
    ensures Fitting(Walk(p, r, e, s), t)
    decreases e, 0
  {
    ChecksWalk(p, r, g, e.arg, if e.uop.MkOk? then t.ok else t.err, s);
  }

  lemma {:induction false} AddressableWalks(p: Program, r: Rule, g: Types, e: Expr, s: Scope)
    requires ScopeTyped(g, s) && Addressable(p, r, g, e)
    ensures var w := Walk(p, r, e, s); w.ok && ByteAddressable(r, e, w.fact, s)
    decreases e, 4
  {
    ChecksWalk(p, r, g, e, if Checks(p, r, g, e, TText) then TText else TBytes, s);
  }

  lemma {:induction false} UnaryWalks(p: Program, r: Rule, g: Types, e: Expr, s: Scope)
    requires ScopeTyped(g, s) && e.Unary? && Synth(p, r, g, e).Some?
    ensures Made(Walk(p, r, e, s), Synth(p, r, g, e).value)
    decreases e, 0
  {
    if e.uop.ArenaScope? {
      ChecksWalk(p, r, g, e.arg, if Checks(p, r, g, e.arg, TNumber) then TNumber else TBytes, s);
    } else if e.uop.Length? {
      AddressableWalks(p, r, g, e.arg, s);
    } else {
      ChecksWalk(p, r, g, e.arg, Given(e.uop).value.0, s);
    }
  }

  lemma {:induction false} BinaryWalks(p: Program, r: Rule, g: Types, e: Expr, s: Scope)
    requires ScopeTyped(g, s) && e.Binary? && Synth(p, r, g, e).Some?
    ensures Made(Walk(p, r, e, s), Synth(p, r, g, e).value)
    decreases e, 0
  {
    var t := if e.op in {And, Or} then TBool
             else if Checks(p, r, g, e.left, TNumber) && Checks(p, r, g, e.right, TNumber) then TNumber else TText;
    ChecksWalk(p, r, g, e.left, t, s);
    ChecksWalk(p, r, g, e.right, t, s);
  }

  lemma {:induction false} PrimWalks(p: Program, r: Rule, g: Types, e: Expr, s: Scope)
    requires ScopeTyped(g, s) && e.Prim? && Synth(p, r, g, e).Some?
    ensures Made(Walk(p, r, e, s), Synth(p, r, g, e).value)
    decreases e, 0
  {
    if e.pop.ByteAt? {
      AddressableWalks(p, r, g, e.arg0, s);
      ChecksWalk(p, r, g, e.arg1, TNumber, s);
    } else {
      var t := if e.pop in {StartsWith, EndsWith, Contains} then TText else TNumber;
      ChecksWalk(p, r, g, e.arg0, t, s);
      ChecksWalk(p, r, g, e.arg1, t, s);
    }
  }

  lemma {:induction false} TableWalks(p: Program, r: Rule, g: Types, e: Expr, s: Scope)
    requires ScopeTyped(g, s) && (e.TryByteAt? || e.Substring?) && Synth(p, r, g, e).Some?
    ensures Made(Walk(p, r, e, s), Synth(p, r, g, e).value)
    decreases e, 0
  {
    if e.TryByteAt? {
      AddressableWalks(p, r, g, e.table, s);
      ChecksWalk(p, r, g, e.index, TNumber, s);
      assert FromType(TResult(TNumber, TBoundsError)) == Result(Known(TNumber), Known(TBoundsError));
    } else {
      ChecksWalk(p, r, g, e.text, TText, s);
      ChecksWalk(p, r, g, e.from, TNumber, s);
      ChecksWalk(p, r, g, e.to, TNumber, s);
    }
  }

  lemma {:induction false} IfFits(p: Program, r: Rule, g: Types, e: Expr, t: Type, s: Scope)
    requires ScopeTyped(g, s) && e.If?
    requires Checks(p, r, g, e.cond, TBool) && Checks(p, r, g, e.yes, t) && Checks(p, r, g, e.no, t)
    ensures Fitting(Walk(p, r, e, s), t)
    ensures Walk(p, r, e.yes, s).fact == FromType(t) || Walk(p, r, e.no, s).fact == FromType(t) ==>
      Made(Walk(p, r, e, s), t)
    decreases e, 0
  {
    ChecksWalk(p, r, g, e.cond, TBool, s);
    ChecksWalk(p, r, g, e.yes, t, s);
    ChecksWalk(p, r, g, e.no, t, s);
    SuitsJoin(Walk(p, r, e.yes, s).fact, Walk(p, r, e.no, s).fact, t);
  }

  lemma {:induction false} IfWalks(p: Program, r: Rule, g: Types, e: Expr, s: Scope)
    requires ScopeTyped(g, s) && e.If? && Synth(p, r, g, e).Some?
    ensures Made(Walk(p, r, e, s), Synth(p, r, g, e).value)
    decreases e, 1
  {
    var t := Synth(p, r, g, e).value;
    FirstKnown([Synth(p, r, g, e.yes), Synth(p, r, g, e.no)]);
    if Synth(p, r, g, e.yes) == Some(t) {
      SynthWalks(p, r, g, e.yes, s);
    } else {
      SynthWalks(p, r, g, e.no, s);
    }
    IfFits(p, r, g, e, t, s);
  }

  lemma BindTyped(g: Types, s: Scope, x: string, t: Type)
    requires ScopeTyped(g, s)
    ensures ScopeTyped(g[x := t], s[x := FromType(t)])
  {
  }

  /** The two scopes of a match on a result of a known type. */
  lemma {:induction false} ArmScopes(p: Program, r: Rule, g: Types, e: Expr, s: Scope, t: Type, u: Type)
    requires ScopeTyped(g, s) && e.MatchResult? && Synth(p, r, g, e.target) == Some(TResult(t, u))
    ensures ScopeTyped(g[e.okVar := t], s[e.okVar := FromType(t)])
    ensures ScopeTyped(g[e.errVar := u], s[e.errVar := FromType(u)])
    ensures var x := Walk(p, r, e.okBody, s[e.okVar := FromType(t)]);
      var y := Walk(p, r, e.errBody, s[e.errVar := FromType(u)]);
      Walk(p, r, e, s) == Walked(Join(x.fact, y.fact), x.ok && y.ok)
    decreases e, 0
  {
    SynthWalks(p, r, g, e.target, s);
    BindTyped(g, s, e.okVar, t);
    BindTyped(g, s, e.errVar, u);
    TypeSuits(t);
    TypeSuits(u);
  }

  lemma {:induction false} MatchFits(p: Program, r: Rule, g: Types, e: Expr, v: Type, s: Scope)
    requires ScopeTyped(g, s) && e.MatchResult? && Synth(p, r, g, e.target).Some?
    requires Synth(p, r, g, e.target).value.TResult?
    requires var t := Synth(p, r, g, e.target).value;
      Checks(p, r, g[e.okVar := t.ok], e.okBody, v) && Checks(p, r, g[e.errVar := t.err], e.errBody, v)
    ensures Fitting(Walk(p, r, e, s), v)
    decreases e, 1
  {
    var t := Synth(p, r, g, e.target).value;
    ArmScopes(p, r, g, e, s, t.ok, t.err);
    ChecksWalk(p, r, g[e.okVar := t.ok], e.okBody, v, s[e.okVar := FromType(t.ok)]);
    ChecksWalk(p, r, g[e.errVar := t.err], e.errBody, v, s[e.errVar := FromType(t.err)]);
    SuitsJoin(Walk(p, r, e.okBody, s[e.okVar := FromType(t.ok)]).fact,
      Walk(p, r, e.errBody, s[e.errVar := FromType(t.err)]).fact, v);
  }

  lemma {:induction false} MatchWalks(p: Program, r: Rule, g: Types, e: Expr, s: Scope)
    requires ScopeTyped(g, s) && e.MatchResult? && Synth(p, r, g, e).Some?
    ensures Made(Walk(p, r, e, s), Synth(p, r, g, e).value)
    decreases e, 1
  {
    var t, v := Synth(p, r, g, e.target).value, Synth(p, r, g, e).value;
    ArmScopes(p, r, g, e, s, t.ok, t.err);
    var h, k := g[e.okVar := t.ok], g[e.errVar := t.err];
    var x, y := s[e.okVar := FromType(t.ok)], s[e.errVar := FromType(t.err)];
    ChecksWalk(p, r, h, e.okBody, v, x);
    ChecksWalk(p, r, k, e.errBody, v, y);
    FirstKnown([Synth(p, r, h, e.okBody), Synth(p, r, k, e.errBody)]);
    if Synth(p, r, h, e.okBody) == Some(v) {
      SynthWalks(p, r, h, e.okBody, x);
    } else {
      SynthWalks(p, r, k, e.errBody, y);
    }
    SuitsJoin(Walk(p, r, e.okBody, x).fact, Walk(p, r, e.errBody, y).fact, v);
  }

  // ----- lists of expressions -----

  lemma {:induction false} CallWalks(p: Program, r: Rule, g: Types, e: Expr, s: Scope)
    requires ScopeTyped(g, s) && e.Call? && Synth(p, r, g, e).Some?
    ensures Made(Walk(p, r, e, s), Synth(p, r, g, e).value)
    decreases e, 0
  {
    ChecksWalk(p, r, g, e.args[0], p.rules[e.callee].inputTy, s);
    assert WalkAll(p, r, e.args[1..], s) == ([], true);
  }

  lemma {:induction false} AllWalked(p: Program, r: Rule, es: seq<Expr>, s: Scope)
    requires forall i | 0 <= i < |es| :: Walk(p, r, es[i], s).ok
    ensures WalkAll(p, r, es, s).1
    ensures forall i | 0 <= i < |es| :: WalkAll(p, r, es, s).0[i] == Walk(p, r, es[i], s).fact
  {
    if es != [] {
      AllWalked(p, r, es[1..], s);
    }
  }

  /** Something a concat may hold. */
  predicate Prints(f: Fact) { Suits(f, TText) || Suits(f, TNumber) || Suits(f, TBool) }

  lemma ConcatFacts(fs: seq<Fact>)
    ensures fs != [] && AllSuit(fs, TBytes) ==> ConcatFact(fs) == Known(TBytes)
    ensures (forall i | 0 <= i < |fs| :: Prints(fs[i])) ==> ConcatFact(fs) == Known(TText)
  {
    if fs != [] && AllSuit(fs, TBytes) {
      assert Fits(fs[0], TBytes);
    }
  }

  lemma {:induction false} PieceWalks(p: Program, r: Rule, g: Types, e: Expr, s: Scope)
    requires ScopeTyped(g, s) && (Checks(p, r, g, e, TText) || Checks(p, r, g, e, TNumber) || Checks(p, r, g, e, TBool))
    ensures var w := Walk(p, r, e, s); w.ok && Prints(w.fact)
    decreases e, 4
  {
    ChecksWalk(p, r, g, e, if Checks(p, r, g, e, TText) then TText else if Checks(p, r, g, e, TNumber) then TNumber
      else TBool, s);
  }

  predicate AllBytes(p: Program, r: Rule, g: Types, es: seq<Expr>) {
    forall i | 0 <= i < |es| :: Checks(p, r, g, es[i], TBytes)
  }

  predicate AllPieces(p: Program, r: Rule, g: Types, es: seq<Expr>) {
    forall i | 0 <= i < |es| ::
      Checks(p, r, g, es[i], TText) || Checks(p, r, g, es[i], TNumber) || Checks(p, r, g, es[i], TBool)
  }

  lemma ConcatType(p: Program, r: Rule, g: Types, e: Expr)
    requires e.Concat? && Synth(p, r, g, e).Some?
    ensures Synth(p, r, g, e) == Some(if e.args != [] && AllBytes(p, r, g, e.args) then TBytes else TText)
    ensures (e.args != [] && AllBytes(p, r, g, e.args)) || AllPieces(p, r, g, e.args)
  {
  }

  lemma {:induction false} ConcatWalks(p: Program, r: Rule, g: Types, e: Expr, s: Scope)
    requires ScopeTyped(g, s) && e.Concat? && Synth(p, r, g, e).Some?
    ensures Made(Walk(p, r, e, s), Synth(p, r, g, e).value)
    decreases e, 0
  {
    ConcatType(p, r, g, e);
    PiecesWalk(p, r, g, e.args, s, e.args != [] && AllBytes(p, r, g, e.args));
    ConcatFacts(WalkAll(p, r, e.args, s).0);
  }

  lemma {:induction false} PiecesWalk(p: Program, r: Rule, g: Types, es: seq<Expr>, s: Scope, bytes: bool)
    requires ScopeTyped(g, s) && if bytes then AllBytes(p, r, g, es) else AllPieces(p, r, g, es)
    ensures var (fs, ok) := WalkAll(p, r, es, s);
      ok && if bytes then AllSuit(fs, TBytes) else forall i | 0 <= i < |fs| :: Prints(fs[i])
    decreases es, 4
  {
    forall i | 0 <= i < |es|
      ensures var w := Walk(p, r, es[i], s); w.ok && if bytes then Suits(w.fact, TBytes) else Prints(w.fact)
    {
      if bytes {
        ChecksWalk(p, r, g, es[i], TBytes, s);
      } else {
        PieceWalks(p, r, g, es[i], s);
      }
    }
    AllWalked(p, r, es, s);
  }

  lemma {:induction false} InitsWalked(p: Program, r: Rule, inits: seq<FieldInit>, s: Scope)
    requires forall i | 0 <= i < |inits| :: Walk(p, r, inits[i].value, s).ok
    ensures WalkInits(p, r, inits, s).1
    ensures forall i | 0 <= i < |inits| :: WalkInits(p, r, inits, s).0[i] == Walk(p, r, inits[i].value, s).fact
  {
    if inits != [] {
      InitsWalked(p, r, inits[1..], s);
    }
  }

  lemma {:induction false} ConstructWalks(p: Program, r: Rule, g: Types, e: Expr, s: Scope)
    requires ScopeTyped(g, s) && e.Construct? && Synth(p, r, g, e).Some?
    ensures Made(Walk(p, r, e, s), Synth(p, r, g, e).value)
    decreases e, 0
  {
    var ds := DeclaredFields(p, e.concept, e.variant).value;
    forall i | 0 <= i < |e.inits|
      ensures Fitting(Walk(p, r, e.inits[i].value, s), FindField(ds, e.inits[i].name).value.ty)
    {
      ChecksWalk(p, r, g, e.inits[i].value, FindField(ds, e.inits[i].name).value.ty, s);
    }
    InitsWalked(p, r, e.inits, s);
  }

  // ----- arms -----

  lemma {:induction false} BoundTypes(bs: seq<Option<string>>, d: VariantDecl, i: nat, g: Types, s: Scope)
    requires ScopeTyped(g, s) && |bs| == |d.fields| && i <= |bs|
    ensures ScopeTyped(BindTypes(bs[i..], d.fields[i..], g), BindFacts(bs, Some(d), i, s))
    decreases |bs| - i
  {
    if i < |bs| {
      assert bs[i..][1..] == bs[i + 1..] && d.fields[i..][1..] == d.fields[i + 1..];
      if bs[i].Some? {
        BindTyped(g, s, bs[i].value, d.fields[i].ty);
        BoundTypes(bs, d, i + 1, g[bs[i].value := d.fields[i].ty], s[bs[i].value := FromType(d.fields[i].ty)]);
      } else {
        BoundTypes(bs, d, i + 1, g, s);
      }
    }
  }

  lemma ArmTyped(c: Concept, arms: seq<Arm>, i: nat, g: Types, s: Scope)
    requires ScopeTyped(g, s) && Covers(c, arms) && i < |arms|
    ensures ScopeTyped(ArmTypes(c, arms[i], g), BindFacts(arms[i].binders, ArmDecl(Some(c), arms[i]), 0, s))
    ensures ArmOk(Some(c), arms[i])
  {
    var d := FindVariant(c.variants, arms[i].variant).value;
    BoundTypes(arms[i].binders, d, 0, g, s);
    assert arms[i].binders[0..] == arms[i].binders && d.fields[0..] == d.fields;
  }

  lemma CoversArms(c: Concept, arms: seq<Arm>)
    requires Covers(c, arms)
    ensures ArmsCover(Some(c), arms) && arms != []
  {
    assert c.variants[0] in c.variants;
    forall i | 0 <= i < |arms|
      ensures ArmOk(Some(c), arms[i])
    {
    }
  }

  lemma {:induction false} ArmsWalked(p: Program, r: Rule, c: Option<Concept>, arms: seq<Arm>, s: Scope)
    requires forall i | 0 <= i < |arms| :: WalkArm(p, r, c, arms[i], s).ok
    ensures WalkArms(p, r, c, arms, s).1
    ensures forall i | 0 <= i < |arms| :: WalkArms(p, r, c, arms, s).0[i] == WalkArm(p, r, c, arms[i], s).fact
  {
    if arms != [] {
      ArmsWalked(p, r, c, arms[1..], s);
    }
  }

  /** The arms of a match on a concept, all of which may stand for `t`. */
  lemma {:induction false} VariantArms(p: Program, r: Rule, g: Types, e: Expr, c: Concept, t: Type, s: Scope)
    requires ScopeTyped(g, s) && e.MatchVariant? && Covers(c, e.arms)
    requires forall i | 0 <= i < |e.arms| :: Checks(p, r, ArmTypes(c, e.arms[i], g), e.arms[i].body, t)
    ensures var (fs, ok) := WalkArms(p, r, Some(c), e.arms, s);
      ok && AllSuit(fs, t) && forall i | 0 <= i < |fs| :: fs[i] == WalkArm(p, r, Some(c), e.arms[i], s).fact
    decreases e, 0, 0
  {
    forall i | 0 <= i < |e.arms|
      ensures Fitting(WalkArm(p, r, Some(c), e.arms[i], s), t)
    {
      ArmTyped(c, e.arms, i, g, s);
      ChecksWalk(p, r, ArmTypes(c, e.arms[i], g), e.arms[i].body, t,
        BindFacts(e.arms[i].binders, ArmDecl(Some(c), e.arms[i]), 0, s));
    }
    ArmsWalked(p, r, Some(c), e.arms, s);
  }

  /** The concept of the value an expression matches. */
  predicate Matches(p: Program, r: Rule, g: Types, e: Expr, n: string)
    requires e.MatchVariant?
  {
    Synth(p, r, g, e.scrutinee) == Some(TNamed(n)) && n in p.concepts && Covers(p.concepts[n], e.arms)
  }

  predicate ArmsCheck(p: Program, r: Rule, g: Types, e: Expr, n: string, t: Type)
    requires e.MatchVariant? && n in p.concepts
  {
    forall i | 0 <= i < |e.arms| :: Checks(p, r, ArmTypes(p.concepts[n], e.arms[i], g), e.arms[i].body, t)
  }

  /** A match on a covered concept: the join of its arms. */
  lemma VariantStep(p: Program, r: Rule, e: Expr, s: Scope, n: string)
    requires e.MatchVariant? && n in p.concepts && Made(Walk(p, r, e.scrutinee, s), TNamed(n))
    requires Covers(p.concepts[n], e.arms)
    ensures var (fs, ok) := WalkArms(p, r, Some(p.concepts[n]), e.arms, s);
      fs != [] && Walk(p, r, e, s) == Walked(JoinAll(fs), ok)
  {
    CoversArms(p.concepts[n], e.arms);
  }

  lemma {:induction false} VariantJoins(p: Program, r: Rule, g: Types, e: Expr, n: string, t: Type, s: Scope)
    requires ScopeTyped(g, s) && e.MatchVariant? && Matches(p, r, g, e, n) && ArmsCheck(p, r, g, e, n, t)
    ensures Fitting(Walk(p, r, e, s), t)
    ensures forall i | 0 <= i < |e.arms| ::
      WalkArm(p, r, Some(p.concepts[n]), e.arms[i], s).fact == FromType(t) ==> Made(Walk(p, r, e, s), t)
    decreases e, 0, 1
  {
    SynthWalks(p, r, g, e.scrutinee, s);
    VariantStep(p, r, e, s, n);
    VariantArms(p, r, g, e, p.concepts[n], t, s);
    SuitsJoinAll(WalkArms(p, r, Some(p.concepts[n]), e.arms, s).0, t);
  }

  lemma {:induction false} VariantFits(p: Program, r: Rule, g: Types, e: Expr, t: Type, s: Scope)
    requires ScopeTyped(g, s) && e.MatchVariant? && Checks(p, r, g, e, t) && Synth(p, r, g, e) != Some(t)
    ensures Fitting(Walk(p, r, e, s), t)
    decreases e, 1
  {
    var n := Synth(p, r, g, e.scrutinee).value.concept;
    VariantJoins(p, r, g, e, n, t, s);
  }

  /** The arm a synthesized match takes its type from. */
  lemma TypedArm(p: Program, r: Rule, g: Types, e: Expr) returns (n: string, i: nat)
    requires e.MatchVariant? && Synth(p, r, g, e).Some?
    ensures Matches(p, r, g, e, n) && ArmsCheck(p, r, g, e, n, Synth(p, r, g, e).value) && i < |e.arms|
    ensures Synth(p, r, ArmTypes(p.concepts[n], e.arms[i], g), e.arms[i].body) == Synth(p, r, g, e)
  {
    n := Synth(p, r, g, e.scrutinee).value.concept;
    var c := p.concepts[n];
    var ts := seq(|e.arms|, i requires 0 <= i < |e.arms| => Synth(p, r, ArmTypes(c, e.arms[i], g), e.arms[i].body));
    FirstKnown(ts);
    i :| 0 <= i < |ts| && ts[i] == Synth(p, r, g, e);
  }

  lemma {:induction false} VariantWalks(p: Program, r: Rule, g: Types, e: Expr, s: Scope)
    requires ScopeTyped(g, s) && e.MatchVariant? && Synth(p, r, g, e).Some?
    ensures Made(Walk(p, r, e, s), Synth(p, r, g, e).value)
    decreases e, 1
  {
    var t := Synth(p, r, g, e).value;
    var n, i := TypedArm(p, r, g, e);
    var c := p.concepts[n];
    ArmTyped(c, e.arms, i, g, s);
    SynthWalks(p, r, ArmTypes(c, e.arms[i], g), e.arms[i].body,
      BindFacts(e.arms[i].binders, ArmDecl(Some(c), e.arms[i]), 0, s));
    VariantJoins(p, r, g, e, n, t, s);
  }

  // ----- items -----

  lemma {:induction false} ItemsWalk(p: Program, r: Rule, g: Types, e: Expr, s: Scope)
    requires ScopeTyped(g, s) && (e.Quantifier? || e.Collect?) && Synth(p, r, g, e).Some?
    ensures Made(Walk(p, r, e, s), Synth(p, r, g, e).value)
    decreases e, 0
  {
    SynthWalks(p, r, g, e.coll, s);
    var t := ElemType(Synth(p, r, g, e.coll).value.elem);
    BindTyped(g, s, e.item, t);
    if e.Collect? && !e.keep {
      SynthWalks(p, r, g[e.item := t], e.body, s[e.item := FromType(t)]);
      ItemsOf(Synth(p, r, g[e.item := t], e.body).value);
    } else {
      ChecksWalk(p, r, g[e.item := t], e.body, TBool, s[e.item := FromType(t)]);
    }
  }

  lemma ItemsOf(t: Type)
    ensures ListOf(t).Some? ==> Collection(FromType(t)) == FromType(ListOf(t).value)
  {
  }

  lemma {:induction false} FoldItemsWalk(p: Program, r: Rule, g: Types, e: Expr, s: Scope)
    requires ScopeTyped(g, s) && e.Fold? && Synth(p, r, g, e).Some?
    ensures Made(Walk(p, r, e, s), Synth(p, r, g, e).value)
    decreases e, 0, 0
  {
    SynthWalks(p, r, g, e.coll, s);
    SynthWalks(p, r, g, e.init, s);
    var t, u := Synth(p, r, g, e.init).value, ElemType(Synth(p, r, g, e.coll).value.elem);
    BindTyped(g, s, e.acc, t);
    BindTyped(g[e.acc := t], s[e.acc := FromType(t)], e.item, u);
    SynthWalks(p, r, g[e.acc := t][e.item := u], e.body, s[e.acc := FromType(t)][e.item := FromType(u)]);
    JoinIdempotent(FromType(t));
  }

  lemma {:induction false} FoldWalks(p: Program, r: Rule, g: Types, e: Expr, s: Scope)
    requires ScopeTyped(g, s) && (e.Fold? || e.FoldBytes?) && Synth(p, r, g, e).Some?
    ensures Made(Walk(p, r, e, s), Synth(p, r, g, e).value)
    decreases e, 0
  {
    if e.Fold? {
      FoldItemsWalk(p, r, g, e, s);
    } else {
      ChecksWalk(p, r, g, e.text, TText, s);
      ChecksWalk(p, r, g, e.init, TNumber, s);
      var h, y := g[e.acc := TNumber][e.byte := TNumber], s[e.acc := Known(TNumber)][e.byte := Known(TNumber)];
      ChecksWalk(p, r, h[e.idx := TNumber], e.body, TNumber, y[e.idx := Known(TNumber)]);
    }
  }

  // ----- rules -----

  /** Every let has a type of its own, and the output may stand for the declared one. */
  predicate LetsTyped(p: Program, r: Rule, bs: seq<Binding>, g: Types)
    decreases |bs|
  {
    if bs == [] then Checks(p, r, g, r.value, r.outputTy)
    else
      match Synth(p, r, g, bs[0].value)
      case None => false
      case Some(t) => LetsTyped(p, r, bs[1..], g[bs[0].name := t])
  }

  lemma {:induction false} LetsWalk(p: Program, r: Rule, bs: seq<Binding>, g: Types, s: Scope)
    requires ScopeTyped(g, s) && LetsTyped(p, r, bs, g)
    ensures var (t, ok) := WalkLets(p, r, bs, s); ok && Fitting(Walk(p, r, r.value, t), r.outputTy)
    decreases |bs|
  {
    if bs == [] {
      ChecksWalk(p, r, g, r.value, r.outputTy, s);
    } else {
      SynthWalks(p, r, g, bs[0].value, s);
      var t := Synth(p, r, g, bs[0].value).value;
      BindTyped(g, s, bs[0].name, t);
      LetsWalk(p, r, bs[1..], g[bs[0].name := t], s[bs[0].name := FromType(t)]);
    }
  }

  /** A rule that has its declared type is established: nothing is reported. */
  lemma TypedEstablished(p: Program, r: Rule)
    requires LetsTyped(p, r, r.bindings, map[r.input := r.inputTy])
    ensures RuleEstablished(p, r)
  {
    LetsWalk(p, r, r.bindings, map[r.input := r.inputTy], map[r.input := FromType(r.inputTy)]);
  }
}
