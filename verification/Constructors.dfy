/** The constructor checker: walks an expression with the facts in scope, gives
    its fact, and says whether every construction in it is established. */
module Constructors {
  import opened Ast
  import opened Interp
  import opened Facts

  type Scope = map<string, Fact>

  /** `ok` is false when an obligation was reported. */
  datatype Walked = Walked(fact: Fact, ok: bool)

  function Produced(valid: bool, t: Type): Fact { if valid then FromType(t) else Unknown }

  /** The number of constructions in an expression. */
  function Constructions(e: Expr): nat
    decreases e, 1
  {
    (if e.Construct? then 1 else 0) + AllConstructions(e, Children(e))
  }

  function AllConstructions(ghost e: Expr, es: seq<Expr>): nat
    requires forall i | 0 <= i < |es| :: es[i] < e
    decreases e, 0, |es|
  {
    if es == [] then 0 else Constructions(es[0]) + AllConstructions(e, es[1..])
  }

  function Lookup(s: Scope, x: string): Fact { if x in s then s[x] else Unknown }

  function FieldFact(p: Program, f: Fact, name: string): Fact {
    if f.Known? && f.ty.TNamed? && f.ty.concept in p.concepts then
      match FindField(p.concepts[f.ty.concept].fields, name) case Some(d) => FromType(d.ty) case None => Unknown
    else Unknown
  }

  /** Bytes are indexed only in a literal or in a field of the input as declared. */
  predicate ByteAddressable(r: Rule, e: Expr, f: Fact, s: Scope) {
    || Fits(f, TText)
    || (Fits(f, TBytes) &&
        (|| e.BytesLit?
         || (e.Field? && e.base == Ident(r.input) && r.input in s && s[r.input] == FromType(r.inputTy))))
  }

  function UnaryTypes(op: UnOp): Option<(Type, Type)> {
    match op
    case Not => Some((TBool, TBool))
    case ParseInt => Some((TText, TNumber))
    case JsonEscape => Some((TText, TText))
    case Le32 => Some((TNumber, TBytes))
    case Le64 => Some((TNumber, TBytes))
    case AbortIf => Some((TNumber, TBytes))
    case Neg => Some((TNumber, TNumber))
    case Abs => Some((TNumber, TNumber))
    case BitNot => Some((TNumber, TNumber))
    case _ => None
  }

  function UnaryFact(r: Rule, op: UnOp, e: Expr, f: Fact, s: Scope): Fact {
    match op
    case MkOk => Result(f, Absent)
    case MkErr => Result(Absent, f)
    case ArenaScope => if Fits(f, TNumber) || Fits(f, TBytes) then f else Unknown
    case Length => Produced(ByteAddressable(r, e, f, s), TNumber)
    case _ => Produced(Fits(f, UnaryTypes(op).value.0), UnaryTypes(op).value.1)
  }

  function BinaryFact(op: BinOp, a: Fact, b: Fact): Fact {
    var numeric := Fits(a, TNumber) && Fits(b, TNumber);
    match op
    case And => Produced(Fits(a, TBool) && Fits(b, TBool), TBool)
    case Or => Produced(Fits(a, TBool) && Fits(b, TBool), TBool)
    case Eq => Produced(numeric || (Fits(a, TText) && Fits(b, TText)), TBool)
    case NotEq => Produced(numeric || (Fits(a, TText) && Fits(b, TText)), TBool)
    case Lt => Produced(numeric, TBool)
    case LtEq => Produced(numeric, TBool)
    case Gt => Produced(numeric, TBool)
    case GtEq => Produced(numeric, TBool)
    case _ => Produced(numeric, TNumber)
  }

  function PrimFact(r: Rule, op: PrimOp, e: Expr, a: Fact, b: Fact, s: Scope): Fact {
    match op
    case ByteAt => Produced(ByteAddressable(r, e, a, s) && Fits(b, TNumber), TNumber)
    case StartsWith => Produced(Fits(a, TText) && Fits(b, TText), TBool)
    case EndsWith => Produced(Fits(a, TText) && Fits(b, TText), TBool)
    case Contains => Produced(Fits(a, TText) && Fits(b, TText), TBool)
    case _ => Produced(Fits(a, TNumber) && Fits(b, TNumber), TNumber)
  }

  predicate Printable(f: Fact) { Fits(f, TNumber) || Fits(f, TBool) || Fits(f, TText) }

  function ConcatFact(fs: seq<Fact>): Fact {
    var bytes := exists i | 0 <= i < |fs| :: Fits(fs[i], TBytes);
    Produced(forall i | 0 <= i < |fs| :: if bytes then Fits(fs[i], TBytes) else Printable(fs[i]),
             if bytes then TBytes else TText)
  }

  function CallFact(p: Program, n: string, fs: seq<Fact>): Fact {
    if n in p.rules && |fs| == 1 then Produced(Fits(fs[0], p.rules[n].inputTy), p.rules[n].outputTy) else Unknown
  }

  // ----- constructions -----

  /** The fields a construction must give. */
  function Declared(p: Program, n: string, v: Option<string>): Option<seq<FieldDecl>> {
    if n !in p.concepts then None
    else if v.None? then
      if p.concepts[n].variants == [] then Some(p.concepts[n].fields) else None
    else
      match FindVariant(p.concepts[n].variants, v.value) case Some(d) => Some(d.fields) case None => None
  }

  predicate FieldOk(ds: seq<FieldDecl>, name: string, f: Fact) {
    match FindField(ds, name) case Some(d) => Fits(f, d.ty) case None => false
  }

  /** No repeated, unknown or ill-typed field, and none missing. */
  predicate FieldsOk(ds: seq<FieldDecl>, inits: seq<FieldInit>, fs: seq<Fact>)
    requires |fs| == |inits|
  {
    && (forall i, k | 0 <= i < k < |inits| :: inits[i].name != inits[k].name)
    && (forall i | 0 <= i < |inits| :: FieldOk(ds, inits[i].name, fs[i]))
    && Names(ds) <= InitNames(inits)
  }

  function InitNames(inits: seq<FieldInit>): set<string> { set i | 0 <= i < |inits| :: inits[i].name }

  predicate ConstructOk(p: Program, n: string, v: Option<string>, inits: seq<FieldInit>, fs: seq<Fact>)
    requires |fs| == |inits|
  {
    Declared(p, n, v).Some? && FieldsOk(Declared(p, n, v).value, inits, fs)
  }

  // ----- matches -----

  function MatchedConcept(p: Program, f: Fact): Option<Concept> {
    if f.Known? && f.ty.TNamed? && f.ty.concept in p.concepts then Some(p.concepts[f.ty.concept]) else None
  }

  function ArmDecl(c: Option<Concept>, arm: Arm): Option<VariantDecl> {
    if c.None? then None else FindVariant(c.value.variants, arm.variant)
  }

  /** Arm binders in order; a later binder of the same name wins. */
  function BindFacts(bs: seq<Option<string>>, d: Option<VariantDecl>, i: nat, s: Scope): Scope
    requires i <= |bs|
    decreases |bs| - i
  {
    if i == |bs| then s
    else
      var t := if bs[i].None? then s
               else
                 var f := if d.Some? && i < |d.value.fields| then FromType(d.value.fields[i].ty) else Unknown;
                 s[bs[i].value := f];
      BindFacts(bs, d, i + 1, t)
  }

  predicate Distinct<T(==)>(xs: seq<T>) { forall i, k | 0 <= i < k < |xs| :: xs[i] != xs[k] }

  function BinderNames(bs: seq<Option<string>>): (ns: seq<string>)
  {
    if bs == [] then [] else (if bs[0].Some? then [bs[0].value] else []) + BinderNames(bs[1..])
  }

  predicate ArmOk(c: Option<Concept>, arm: Arm) {
    var d := ArmDecl(c, arm);
    d.Some? && |d.value.fields| == |arm.binders| && Distinct(BinderNames(arm.binders))
  }

  /** Each variant of the concept has exactly one arm, of the right arity. */
  predicate ArmsCover(c: Option<Concept>, arms: seq<Arm>) {
    && c.Some? && c.value.variants != []
    && (forall i, k | 0 <= i < k < |arms| :: arms[i].variant != arms[k].variant)
    && (forall i | 0 <= i < |arms| :: ArmOk(c, arms[i]))
    && forall v | v in c.value.variants :: exists i | 0 <= i < |arms| :: arms[i].variant == v.name
  }

  function JoinAll(fs: seq<Fact>): Fact
    requires fs != []
  {
    if |fs| == 1 then fs[0] else Join(JoinAll(fs[..|fs| - 1]), fs[|fs| - 1])
  }

  // ----- the walk -----

  function Walk(p: Program, r: Rule, e: Expr, s: Scope): Walked
    decreases e, 1
  {
    match e
    case Number(_) => Walked(Known(TNumber), true)
    case Text(_) => Walked(Known(TText), true)
    case BytesLit(_) => Walked(Known(TBytes), true)
    case Ident(x) => Walked(Lookup(s, x), true)
    case Field(b, f) =>
      var w := Walk(p, r, b, s);
      Walked(FieldFact(p, w.fact, f), w.ok)
    case Unary(op, a) =>
      var w := Walk(p, r, a, s);
      Walked(UnaryFact(r, op, a, w.fact, s), w.ok)
    case Binary(op, a, b) =>
      var w, x := Walk(p, r, a, s), Walk(p, r, b, s);
      Walked(BinaryFact(op, w.fact, x.fact), w.ok && x.ok)
    case Prim(op, a, b) =>
      var w, x := Walk(p, r, a, s), Walk(p, r, b, s);
      Walked(PrimFact(r, op, a, w.fact, x.fact, s), w.ok && x.ok)
    case TryByteAt(t, i) =>
      var w, x := Walk(p, r, t, s), Walk(p, r, i, s);
      Walked(Produced(ByteAddressable(r, t, w.fact, s) && Fits(x.fact, TNumber), TResult(TNumber, TBoundsError)),
             w.ok && x.ok)
    case Substring(a, b, c) =>
      var w, x, y := Walk(p, r, a, s), Walk(p, r, b, s), Walk(p, r, c, s);
      Walked(Produced(Fits(w.fact, TText) && Fits(x.fact, TNumber) && Fits(y.fact, TNumber), TText),
             w.ok && x.ok && y.ok)
    case If(q, a, b) =>
      var w, x, y := Walk(p, r, q, s), Walk(p, r, a, s), Walk(p, r, b, s);
      Walked(if Fits(w.fact, TBool) then Join(x.fact, y.fact) else Unknown, w.ok && x.ok && y.ok)
    case MatchResult(t, okVar, a, errVar, b) =>
      var w := Walk(p, r, t, s);
      var (f, g) := if w.fact.Result? then (Bound(w.fact.ok), Bound(w.fact.err)) else (Unknown, Unknown);
      var x, y := Walk(p, r, a, s[okVar := f]), Walk(p, r, b, s[errVar := g]);
      Walked(if w.fact.Result? then Join(x.fact, y.fact) else Unknown, w.ok && x.ok && y.ok)
    case Call(n, args) =>
      var (fs, ok) := WalkAll(p, r, args, s);
      Walked(CallFact(p, n, fs), ok)
    case Concat(args) =>
      var (fs, ok) := WalkAll(p, r, args, s);
      Walked(ConcatFact(fs), ok)
    case Construct(n, v, inits) =>
      var (fs, ok) := WalkInits(p, r, inits, s);
      var valid := ConstructOk(p, n, v, inits, fs);
      Walked(Produced(valid, TNamed(n)), ok && valid)
    case MatchVariant(t, arms) =>
      var w := Walk(p, r, t, s);
      var c := MatchedConcept(p, w.fact);
      var (fs, ok) := WalkArms(p, r, c, arms, s);
      Walked(if ArmsCover(c, arms) && arms != [] then JoinAll(fs) else Unknown, w.ok && ok)
    case Quantifier(_, c, x, b) =>
      var w := Walk(p, r, c, s);
      var y := Walk(p, r, b, s[x := Element(w.fact)]);
      Walked(Produced(!Element(w.fact).Unknown? && Fits(y.fact, TBool), TBool), w.ok && y.ok)
    case Collect(keep, c, x, b) =>
      var w := Walk(p, r, c, s);
      var y := Walk(p, r, b, s[x := Element(w.fact)]);
      Walked(CollectFact(keep, w.fact, y.fact), w.ok && y.ok)
    case Fold(c, i, acc, x, b) =>
      var w, init := Walk(p, r, c, s), Walk(p, r, i, s);
      var y := Walk(p, r, b, s[acc := init.fact][x := Element(w.fact)]);
      Walked(if Element(w.fact).Unknown? || y.fact != init.fact then Unknown else Join(init.fact, y.fact),
             w.ok && init.ok && y.ok && (y.fact == init.fact || Constructions(b) == 0))
    case FoldBytes(t, i, acc, x, n, b) =>
      var w, init := Walk(p, r, t, s), Walk(p, r, i, s);
      var y := Walk(p, r, b, s[acc := init.fact][x := Known(TNumber)][n := Known(TNumber)]);
      Walked(Produced(Fits(w.fact, TText) && Fits(init.fact, TNumber) && Fits(y.fact, TNumber), TNumber),
             w.ok && init.ok && y.ok)
  }

  function CollectFact(keep: bool, c: Fact, b: Fact): Fact {
    if Element(c).Unknown? then Unknown
    else if !keep then Collection(b)
    else if Fits(b, TBool) then c
    else Unknown
  }

  function WalkAll(p: Program, r: Rule, es: seq<Expr>, s: Scope): (out: (seq<Fact>, bool))
    ensures |out.0| == |es|
    decreases es, 0
  {
    if es == [] then ([], true)
    else
      var w, rest := Walk(p, r, es[0], s), WalkAll(p, r, es[1..], s);
      ([w.fact] + rest.0, w.ok && rest.1)
  }

  function WalkInits(p: Program, r: Rule, inits: seq<FieldInit>, s: Scope): (out: (seq<Fact>, bool))
    ensures |out.0| == |inits|
    decreases inits, 0
  {
    if inits == [] then ([], true)
    else
      var w, rest := Walk(p, r, inits[0].value, s), WalkInits(p, r, inits[1..], s);
      ([w.fact] + rest.0, w.ok && rest.1)
  }

  function WalkArms(p: Program, r: Rule, c: Option<Concept>, arms: seq<Arm>, s: Scope): (out: (seq<Fact>, bool))
    ensures |out.0| == |arms|
    decreases arms, 0
  {
    if arms == [] then ([], true)
    else
      var w, rest := WalkArm(p, r, c, arms[0], s), WalkArms(p, r, c, arms[1..], s);
      ([w.fact] + rest.0, w.ok && rest.1)
  }

  function WalkArm(p: Program, r: Rule, c: Option<Concept>, arm: Arm, s: Scope): Walked
    decreases arm, 0
  {
    Walk(p, r, arm.body, BindFacts(arm.binders, ArmDecl(c, arm), 0, s))
  }

  lemma {:induction false} WalkAllAt(p: Program, r: Rule, es: seq<Expr>, s: Scope, i: nat)
    requires i < |es|
    ensures var w := Walk(p, r, es[i], s); WalkAll(p, r, es, s).0[i] == w.fact && (WalkAll(p, r, es, s).1 ==> w.ok)
    decreases i
  {
    if i > 0 { WalkAllAt(p, r, es[1..], s, i - 1); }
  }

  lemma {:induction false} WalkInitsAt(p: Program, r: Rule, inits: seq<FieldInit>, s: Scope, i: nat)
    requires i < |inits|
    ensures var w := Walk(p, r, inits[i].value, s);
      WalkInits(p, r, inits, s).0[i] == w.fact && (WalkInits(p, r, inits, s).1 ==> w.ok)
    decreases i
  {
    if i > 0 { WalkInitsAt(p, r, inits[1..], s, i - 1); }
  }

  lemma {:induction false} WalkArmsAt(p: Program, r: Rule, c: Option<Concept>, arms: seq<Arm>, s: Scope, i: nat)
    requires i < |arms|
    ensures var w := WalkArm(p, r, c, arms[i], s);
      WalkArms(p, r, c, arms, s).0[i] == w.fact && (WalkArms(p, r, c, arms, s).1 ==> w.ok)
    decreases i
  {
    if i > 0 { WalkArmsAt(p, r, c, arms[1..], s, i - 1); }
  }

  // ----- rules -----

  function WalkLets(p: Program, r: Rule, bs: seq<Binding>, s: Scope): (Scope, bool) {
    if bs == [] then (s, true)
    else
      var w := Walk(p, r, bs[0].value, s);
      var rest := WalkLets(p, r, bs[1..], s[bs[0].name := w.fact]);
      (rest.0, w.ok && rest.1)
  }

  /** The checker reports nothing about the rule. */
  predicate RuleEstablished(p: Program, r: Rule) {
    var (s, ok) := WalkLets(p, r, r.bindings, map[r.input := FromType(r.inputTy)]);
    ok && Walk(p, r, r.value, s).ok
  }
}
