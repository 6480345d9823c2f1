/** The strict overflow checker: an interval analysis over the call graph, in
    which a declared contract is the only thing a caller learns of a callee. */
module NumericBounds {
  import opened Int64
  import opened Ast
  import opened Interp
  import opened IntervalArith
  import opened Ranges

  datatype AVal = ANum(d: Domain) | ABool

  /** A rule's lets and input fields, with the facts of the enclosing branches. */
  datatype Scope = Scope(
    locals: map<string, AVal>,
    fields: seq<FieldDecl>,
    input: string,
    localFacts: map<string, Domain>,
    fieldFacts: map<string, Domain>)

  function NewScope(r: Rule, fields: seq<FieldDecl>, locals: map<string, AVal>): Scope {
    Scope(locals, fields, r.input, map[], map[])
  }

  function DeclaredDomain(f: FieldDecl): Domain {
    if f.range.Some? then Single(f.range.value.0, f.range.value.1) else Single(MIN, MAX)
  }

  function Local(s: Scope, n: string): Option<AVal> {
    if n !in s.locals then None
    else if s.locals[n].ANum? && n in s.localFacts then Some(ANum(s.localFacts[n]))
    else Some(s.locals[n])
  }

  function FindNumeric(fs: seq<FieldDecl>, name: string): (r: Option<FieldDecl>)
    ensures r.Some? ==> r.value in fs && r.value.name == name && r.value.ty.TNumber?
  {
    if fs == [] then None
    else if fs[0].name == name && fs[0].ty.TNumber? then Some(fs[0])
    else FindNumeric(fs[1..], name)
  }

  function FieldDomain(s: Scope, name: string): Option<Domain> {
    match FindNumeric(s.fields, name)
    case None => None
    case Some(f) => Some(if name in s.fieldFacts then s.fieldFacts[name] else DeclaredDomain(f))
  }

  // ----- guards -----

  datatype Place = PLocal(name: string) | PField(name: string)

  predicate IsInput(s: Scope, e: Expr) { e == Ident(s.input) && s.input !in s.locals }

  /** A direct read of a numeric let or input field. */
  function Scalar(s: Scope, e: Expr): Option<(Place, Domain)> {
    match e
    case Ident(n) =>
      (match Local(s, n) case Some(ANum(d)) => Some((PLocal(n), d)) case _ => None)
    case Field(b, f) =>
      if !IsInput(s, b) then None
      else (match FieldDomain(s, f) case Some(d) => Some((PField(f), d)) case None => None)
    case _ => None
  }

  predicate SameScalar(s: Scope, a: Expr, b: Expr) {
    Scalar(s, a).Some? && Scalar(s, b).Some? && Scalar(s, a).value.0 == Scalar(s, b).value.0
  }

  function Literal(e: Expr): Option<i64> {
    match e
    case Number(n) => Some(n)
    case Unary(Neg, Number(n)) => if n == MIN then None else Some(0 - n)
    case _ => None
  }

  function Operand(s: Scope, e: Expr): Option<(Option<Place>, Domain)> {
    match Scalar(s, e)
    case Some(pd) => Some((Some(pd.0), pd.1))
    case None => (match Literal(e) case Some(n) => Some((None, Single(n, n))) case None => None)
  }

  function Record(s: Scope, p: Option<Place>, d: Domain): Scope {
    match p
    case None => s
    case Some(PLocal(n)) => s.(localFacts := s.localFacts[n := d])
    case Some(PField(n)) => s.(fieldFacts := s.fieldFacts[n := d])
  }

  function Opposite(op: BinOp): BinOp {
    match op
    case Eq => NotEq
    case NotEq => Eq
    case Lt => GtEq
    case LtEq => Gt
    case Gt => LtEq
    case GtEq => Lt
    case _ => op
  }

  function Reverse(op: BinOp): BinOp {
    match op
    case Lt => Gt
    case LtEq => GtEq
    case Gt => Lt
    case GtEq => LtEq
    case _ => op
  }

  /** The facts of a condition being `truth`; None when they cannot hold. */
  function Assume(s: Scope, e: Expr, truth: bool): Option<Scope>
    decreases e
  {
    match e
    case Unary(Not, a) => Assume(s, a, !truth)
    case Binary(op, a, b) =>
      if (op.And? && truth) || (op.Or? && !truth) then
        match Assume(s, a, truth)
        case None => None
        case Some(s') => Assume(s', b, truth)
      else if !IsComparison(op) then Some(s)
      else AssumeCompare(s, if truth then op else Opposite(op), Operand(s, a), Operand(s, b))
    case _ => Some(s)
  }

  function AssumeCompare(s: Scope, op: BinOp, a: Option<(Option<Place>, Domain)>,
      b: Option<(Option<Place>, Domain)>): Option<Scope> {
    if a.None? || b.None? || a.value.0 == b.value.0 then Some(s)
    else
      match (Constrain(op, a.value.1, b.value.1), Constrain(Reverse(op), b.value.1, a.value.1))
      case (Some(d), Some(e)) => Some(Record(Record(s, a.value.0, d), b.value.0, e))
      case _ => None
  }

  /** An impossible arm keeps the enclosing facts. */
  function Branch(s: Scope, cond: Expr, truth: bool): Scope {
    match Assume(s, cond, truth) case Some(s') => s' case None => s
  }

  // ----- the analysis, as plain recursion -----

  function AnalyzeBinary(op: BinOp, repeated: bool, a: AVal, b: AVal): Option<AVal>
    requires a.ANum? ==> Canonical(a.d)
  {
    if op.And? || op.Or? then (if a.ABool? && b.ABool? then Some(ABool) else None)
    else if (op.Eq? || op.NotEq?) && a.ABool? && b.ABool? then Some(ABool)
    else if a.ABool? || b.ABool? then None
    else if IsComparison(op) then Some(ABool)
    else
      match (if repeated then Repeated(op, a.d) else DomainArith(op, a.d, b.d))
      case None => None
      case Some(d) => Some(ANum(d))
  }

  function Lift(d: Option<Domain>): Option<AVal> {
    match d case None => None case Some(x) => Some(ANum(x))
  }

  function AnalyzeUnary(op: UnOp, a: AVal): Option<AVal> {
    match op
    case Not => if a.ABool? then Some(ABool) else None
    case Neg => if a.ANum? then Lift(Mapped(a.d, NegOn())) else None
    case Abs => if a.ANum? then Lift(Mapped(a.d, AbsOn())) else None
    case _ => None
  }

  function AnalyzePrim(op: PrimOp, a: AVal, b: AVal): Option<AVal> {
    if a.ABool? || b.ABool? then None
    else if op.MinOp? then Lift(Pairwise(a.d, b.d, MinOn()))
    else if op.MaxOp? then Lift(Pairwise(a.d, b.d, MaxOn()))
    else None
  }

  function JoinVals(a: AVal, b: AVal): Option<AVal>
    requires a.ANum? ==> Canonical(a.d)
  {
    match (a, b)
    case (ANum(d), ANum(e)) => Some(ANum(Join(d, e)))
    case (ABool, ABool) => Some(ABool)
    case _ => None
  }

  predicate ValOk(v: AVal) { v.ANum? ==> Canonical(v.d) }

  predicate FieldOk(f: FieldDecl) {
    && (f.ty.TNumber? || f.ty.TText?)
    && (f.range.Some? ==> f.range.value.0 <= f.range.value.1 && (f.ty.TText? ==> f.range.value.1 >= 0))
  }

  /** Well-formed scopes: valid field declarations, canonical domains. */
  predicate ScopeOk(s: Scope) {
    && (forall f | f in s.fields :: FieldOk(f))
    && (forall n | n in s.locals :: ValOk(s.locals[n]))
    && (forall n | n in s.localFacts :: Canonical(s.localFacts[n]))
    && (forall n | n in s.fieldFacts :: Canonical(s.fieldFacts[n]))
  }

  predicate SameFrame(s: Scope, t: Scope) {
    s.locals == t.locals && s.fields == t.fields && s.input == t.input
  }

  /** Assuming a condition only adds canonical facts. */
  lemma {:induction false} AssumeOk(s: Scope, e: Expr, truth: bool)
    requires ScopeOk(s)
    ensures var r := Assume(s, e, truth); r.Some? ==> ScopeOk(r.value) && SameFrame(r.value, s)
    decreases e
  {
    match e
    case Unary(Not, a) => AssumeOk(s, a, !truth);
    case Binary(op, a, b) =>
      if (op.And? && truth) || (op.Or? && !truth) {
        AssumeOk(s, a, truth);
        if Assume(s, a, truth).Some? {
          AssumeOk(Assume(s, a, truth).value, b, truth);
        }
      } else if IsComparison(op) {
        CompareOk(s, if truth then op else Opposite(op), Operand(s, a), Operand(s, b));
      }
    case _ =>
  }

  lemma CompareOk(s: Scope, op: BinOp, a: Option<(Option<Place>, Domain)>, b: Option<(Option<Place>, Domain)>)
    requires ScopeOk(s) && IsComparison(op)
    requires a.Some? ==> Canonical(a.value.1)
    requires b.Some? ==> Canonical(b.value.1)
    ensures var r := AssumeCompare(s, op, a, b); r.Some? ==> ScopeOk(r.value) && SameFrame(r.value, s)
  {
    if a.Some? && b.Some? {
      ConstrainSound(op, a.value.1, b.value.1, 0, 0);
      ConstrainSound(Reverse(op), b.value.1, a.value.1, 0, 0);
      var d, e := Constrain(op, a.value.1, b.value.1), Constrain(Reverse(op), b.value.1, a.value.1);
      if d.Some? && e.Some? {
        RecordOk(s, a.value.0, d.value);
        RecordOk(Record(s, a.value.0, d.value), b.value.0, e.value);
      }
    }
  }

  lemma RecordOk(s: Scope, p: Option<Place>, d: Domain)
    requires ScopeOk(s) && Canonical(d)
    ensures ScopeOk(Record(s, p, d)) && SameFrame(Record(s, p, d), s)
  {
  }

  /** `k` bounds the nesting of calls, as in the evaluator. */
  function AnalyzeExpr(p: Program, r: Rule, s: Scope, e: Expr, k: nat): (v: Option<AVal>)
    requires ScopeOk(s)
    ensures v.Some? ==> ValOk(v.value)
    decreases k, 0, e, 1
  {
    match e
    case Number(n) => Some(ANum(Single(n, n)))
    case Ident(n) => Local(s, n)
    case Field(b, name) =>
      if !IsInput(s, b) then None
      else
        (match FindField(s.fields, name)
         case None => None
         case Some(f) => if f.ty.TNumber? then Lift(FieldDomain(s, name)) else None)
    case If(q, a, b) =>
      (match AnalyzeExpr(p, r, s, q, k)
       case Some(ABool) =>
         AssumeOk(s, q, true);
         AssumeOk(s, q, false);
         AnalyzeArms(p, r, Branch(s, q, true), Branch(s, q, false), e, k)
       case _ => None)
    case Unary(op, a) =>
      (match AnalyzeExpr(p, r, s, a, k)
       case Some(x) => UnaryOk(op, x); AnalyzeUnary(op, x)
       case None => None)
    case Prim(op, a, b) =>
      (match (AnalyzeExpr(p, r, s, a, k), AnalyzeExpr(p, r, s, b, k))
       case (Some(x), Some(y)) => PrimOk(op, x, y); AnalyzePrim(op, x, y)
       case _ => None)
    case Binary(op, a, b) =>
      (match (AnalyzeExpr(p, r, s, a, k), AnalyzeExpr(p, r, s, b, k))
       case (Some(x), Some(y)) => BinaryOk(op, SameScalar(s, a, b), x, y); AnalyzeBinary(op, SameScalar(s, a, b), x, y)
       case _ => None)
    case Call(name, args) =>
      if name in p.rules && |args| == 1 && IsInput(s, args[0]) && p.rules[name].inputTy == r.inputTy && k > 0
      then AnalyzeRule(p, name, k - 1)
      else None
    case _ => None
  }

  /** Both arms of a conditional, each under the facts of its branch. */
  function AnalyzeArms(p: Program, r: Rule, t: Scope, f: Scope, e: Expr, k: nat): (v: Option<AVal>)
    requires e.If? && ScopeOk(t) && ScopeOk(f)
    ensures v.Some? ==> ValOk(v.value)
    decreases k, 0, e, 0
  {
    match (AnalyzeExpr(p, r, t, e.yes, k), AnalyzeExpr(p, r, f, e.no, k))
    case (Some(x), Some(y)) => JoinOk(x, y); JoinVals(x, y)
    case _ => None
  }

  function AnalyzeLets(p: Program, r: Rule, fs: seq<FieldDecl>, bs: seq<Binding>, locals: map<string, AVal>,
      k: nat): (m: Option<map<string, AVal>>)
    requires ScopeOk(NewScope(r, fs, locals))
    ensures m.Some? ==> ScopeOk(NewScope(r, fs, m.value))
    decreases k, 1, |bs|
  {
    if bs == [] then Some(locals)
    else
      match AnalyzeExpr(p, r, NewScope(r, fs, locals), bs[0].value, k)
      case None => None
      case Some(v) => AnalyzeLets(p, r, fs, bs[1..], locals[bs[0].name := v], k)
  }

  /** A rule of a participating call graph: no context, a scalar output, and a
      nonempty flat input concept with valid declared bounds. */
  predicate ShapeOk(p: Program, name: string) {
    && name in p.rules
    && var r := p.rules[name];
       && !r.hasContext
       && (r.outputTy.TNumber? || r.outputTy.TBool?)
       && r.inputTy.TNamed? && r.inputTy.concept in p.concepts
       && var c := p.concepts[r.inputTy.concept];
          && c.variants == [] && c.fields != []
          && forall f | f in c.fields :: FieldOk(f)
  }

  function Summary(r: Rule, v: AVal): Option<AVal> {
    if v.ANum? != r.outputTy.TNumber? then None
    else if r.overflow.None? then Some(v)
    else
      var (lo, hi) := r.overflow.value;
      if lo > hi || v.ABool? || Hull(v.d).lo < lo || Hull(v.d).hi > hi then None
      else Some(ANum(Single(lo, hi)))
  }

  function AnalyzeRule(p: Program, name: string, k: nat): (v: Option<AVal>)
    ensures v.Some? ==> ValOk(v.value)
    decreases k, 2
  {
    if !ShapeOk(p, name) then None
    else
      var r := p.rules[name];
      var fs := p.concepts[r.inputTy.concept].fields;
      match AnalyzeLets(p, r, fs, r.bindings, map[], k)
      case None => None
      case Some(locals) =>
        match AnalyzeExpr(p, r, NewScope(r, fs, locals), r.value, k)
        case None => None
        case Some(v) => Summary(r, v)
  }

  lemma JoinOk(a: AVal, b: AVal)
    requires ValOk(a) && ValOk(b)
    ensures var r := JoinVals(a, b); r.Some? ==> ValOk(r.value)
  {
    if a.ANum? && b.ANum? { JoinCovers(a.d, b.d, 0); }
  }

  lemma UnaryOk(op: UnOp, a: AVal)
    requires ValOk(a)
    ensures var r := AnalyzeUnary(op, a); r.Some? ==> ValOk(r.value)
  {
    if a.ANum? && op.Neg? && Mapped(a.d, NegOn()).Some? { NegSound(a.d, a.d.first.lo); }
    if a.ANum? && op.Abs? && Mapped(a.d, AbsOn()).Some? { AbsSound(a.d, a.d.first.lo); }
  }

  lemma PrimOk(op: PrimOp, a: AVal, b: AVal)
    requires ValOk(a) && ValOk(b)
    ensures var r := AnalyzePrim(op, a, b); r.Some? ==> ValOk(r.value)
  {
    if a.ANum? && b.ANum? { MinMaxSound(a.d, b.d, a.d.first.lo, b.d.first.lo); }
  }

  lemma BinaryOk(op: BinOp, repeated: bool, a: AVal, b: AVal)
    requires ValOk(a) && ValOk(b)
    ensures var r := AnalyzeBinary(op, repeated, a, b); r.Some? ==> ValOk(r.value)
  {
    if a.ANum? && b.ANum? {
      if repeated && Repeated(op, a.d).Some? { RepeatedSound(op, a.d, a.d.first.lo); }
      if !repeated && DomainArith(op, a.d, b.d).Some? { DomainArithSound(op, a.d, b.d, a.d.first.lo, b.d.first.lo); }
    }
  }
}
