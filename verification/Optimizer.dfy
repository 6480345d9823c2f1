/** The expression optimizer: bottom-up constant folding, algebraic identities
    and removal of branches decided by declared field ranges. */
module Optimizer {
  import opened Int64
  import opened Ast
  import opened TextOps
  import opened Interp
  import opened Inlining

  type Bounds = map<string, (i64, i64)>

  function CheckedPair(a: int, b: int): Option<(i64, i64)> {
    if Fits(a) && Fits(b) then Some((a, b)) else None
  }

  function Checked4(a: int, b: int, c: int, d: int): Option<(i64, i64)> {
    if Fits(a) && Fits(b) && Fits(c) && Fits(d) then
      Some((Int64.Min(Int64.Min(a, b), Int64.Min(c, d)), Int64.Max(Int64.Max(a, b), Int64.Max(c, d))))
    else None
  }

  function BinaryRange(op: BinOp, l: (i64, i64), r: (i64, i64)): Option<(i64, i64)> {
    match op
    case Add => CheckedPair(l.0 + r.0, l.1 + r.1)
    case Sub => CheckedPair(l.0 - r.1, l.1 - r.0)
    case Mul => Checked4(l.0 * r.0, l.0 * r.1, l.1 * r.0, l.1 * r.1)
    case Div =>
      if r.0 <= 0 <= r.1 || r.0 == 0 || r.1 == 0 then None
      else Checked4(TruncDiv(l.0, r.0), TruncDiv(l.0, r.1), TruncDiv(l.1, r.0), TruncDiv(l.1, r.1))
    case Mod =>
      if r.0 <= 0 <= r.1 || (l.0 == MIN && r.0 <= -1 <= r.1) then None
      else
        var limit := Int64.Max(Int64.Abs(r.0), Int64.Abs(r.1)) - 1;
        Some((Int64.Max(Int64.Min(l.0, 0), 0 - limit), Int64.Min(Int64.Max(l.1, 0), limit)))
    case _ => None
  }

  /** An interval for the values of an expression, from the input's field ranges.
      A field of any expression named like the input is read as the input's. */
  function ComputeRange(e: Expr, fr: Bounds, input: string): Option<(i64, i64)> {
    match e
    case Number(n) => Some((n, n))
    case Field(b, f) => if b == Ident(input) && f in fr then Some(fr[f]) else None
    case Binary(op, a, b) =>
      (match (ComputeRange(a, fr, input), ComputeRange(b, fr, input))
       case (Some(l), Some(r)) => BinaryRange(op, l, r)
       case _ => None)
    case Unary(Neg, a) =>
      (match ComputeRange(a, fr, input) case Some(r) => CheckedPair(0 - r.1, 0 - r.0) case None => None)
    case If(_, a, b) =>
      (match (ComputeRange(a, fr, input), ComputeRange(b, fr, input))
       case (Some(l), Some(r)) => Some((Int64.Min(l.0, r.0), Int64.Max(l.1, r.1)))
       case _ => None)
    case _ => None
  }

  predicate IsArithmetic(op: BinOp) { op in {Add, Sub, Mul, Div, Mod} }

  /** Evaluation of a well-typed occurrence can be dropped: it cannot fail. */
  predicate CanDiscard(e: Expr, fr: Bounds, input: string) {
    match e
    case Number(_) => true
    case Ident(_) => true
    case Field(b, _) => b.Ident?
    case Binary(op, a, b) =>
      CanDiscard(a, fr, input) && CanDiscard(b, fr, input) && (IsArithmetic(op) ==> ComputeRange(e, fr, input).Some?)
    case Unary(Neg, a) => CanDiscard(a, fr, input) && ComputeRange(e, fr, input).Some?
    case Unary(Not, a) => CanDiscard(a, fr, input)
    case If(q, a, b) => CanDiscard(q, fr, input) && CanDiscard(a, fr, input) && CanDiscard(b, fr, input)
    case _ => false
  }

  /** A comparison whose operand ranges decide it. */
  function StaticEval(e: Expr, fr: Bounds, input: string): Option<bool> {
    if !CanDiscard(e, fr, input) || !e.Binary? then None
    else
      match (ComputeRange(e.left, fr, input), ComputeRange(e.right, fr, input))
      case (Some(l), Some(r)) =>
        (match e.op
         case Gt => if l.0 > r.1 then Some(true) else if l.1 <= r.0 then Some(false) else None
         case Lt => if l.1 < r.0 then Some(true) else if l.0 >= r.1 then Some(false) else None
         case GtEq => if l.0 >= r.1 then Some(true) else if l.1 < r.0 then Some(false) else None
         case LtEq => if l.1 <= r.0 then Some(true) else if l.0 > r.1 then Some(false) else None
         case _ => None)
      case _ => None
  }

  // ----- rewrites at the root of a node whose children are done -----

  function Bit(b: bool): Expr { Number(if b then 1 else 0) }

  /** Two literal operands; division folds only where it is defined. */
  function FoldNumbers(op: BinOp, l: i64, r: i64): Option<Expr> {
    match op
    case Add => Some(Number(Wrap(l + r)))
    case Sub => Some(Number(Wrap(l - r)))
    case Mul => Some(Number(Wrap(l * r)))
    case Div => if r == 0 || (l == MIN && r == -1) then None else Some(Number(Wrap(TruncDiv(l, r))))
    case Mod => if r == 0 || (l == MIN && r == -1) then None else Some(Number(Wrap(TruncMod(l, r))))
    case And => None
    case Or => None
    case _ => Some(Bit(Compare(op, l, r)))
  }

  function Identity(e: Expr, fr: Bounds, input: string): Expr
    requires e.Binary?
  {
    var l, r := e.left, e.right;
    match e.op
    case Add => if r == Number(0) then l else if l == Number(0) then r else e
    case Sub => if r == Number(0) then l else e
    case Mul =>
      if (r == Number(0) && CanDiscard(l, fr, input)) || (l == Number(0) && CanDiscard(r, fr, input)) then Number(0)
      else if r == Number(1) then l
      else if l == Number(1) then r
      else e
    case Div => if r == Number(1) then l else e
    case _ => e
  }

  function SimplifyBinary(e: Expr, fr: Bounds, input: string): Expr
    requires e.Binary?
  {
    var folded := if e.left.Number? && e.right.Number? then FoldNumbers(e.op, e.left.n, e.right.n) else None;
    if folded.Some? then folded.value else Identity(e, fr, input)
  }

  function SimplifyUnary(e: Expr): Expr
    requires e.Unary?
  {
    var a := e.arg;
    match e.uop
    case Not => if a.Unary? && a.uop.Not? then a.arg else e
    case Neg => if a.Unary? && a.uop.Neg? then a.arg else if a.Number? then Number(Wrap(0 - a.n)) else e
    case Abs => if a.Number? then Number(Wrap(Int64.Abs(a.n))) else e
    case ParseInt => if a.Text? && ParseI64(a.s).Some? then Number(ParseI64(a.s).value) else e
    case JsonEscape => if a.Text? then Text(Escape(a.s)) else e
    case Le32 => if a.Number? then BytesLit(LittleEndian(a.n % MODULUS, 4)) else e
    case Le64 => if a.Number? then BytesLit(LittleEndian(a.n % MODULUS, 8)) else e
    case Length => if a.Text? then Number(Wrap(|a.s|)) else if a.BytesLit? then Number(Wrap(|a.b|)) else e
    case _ => e
  }

  function SimplifyPrim(e: Expr): Expr
    requires e.Prim?
  {
    var a, b := e.arg0, e.arg1;
    match e.pop
    case MinOp => if a.Number? && b.Number? then Number(Int64.Min(a.n, b.n)) else e
    case MaxOp => if a.Number? && b.Number? then Number(Int64.Max(a.n, b.n)) else e
    case StartsWith => if a.Text? && b.Text? then Bit(HasPrefix(a.s, b.s)) else e
    case EndsWith => if a.Text? && b.Text? then Bit(HasSuffix(a.s, b.s)) else e
    case Contains => if a.Text? && b.Text? then Bit(HasInfix(a.s, b.s)) else e
    case ByteAt => if IsTable(a) && b.Number? && 0 <= b.n < |Table(a)| then Number(Table(a)[b.n]) else e
    case _ => e
  }

  function SimplifySubstring(e: Expr): Expr
    requires e.Substring?
  {
    if e.text.Text? && e.from.Number? && e.to.Number? && 0 <= e.from.n <= e.to.n <= |e.text.s|
    then Text(e.text.s[e.from.n..e.to.n]) else e
  }

  /** The text of a concat of text and number literals only. */
  function JoinLiterals(es: seq<Expr>): Option<Bytes> {
    if es == [] then Some([])
    else if !es[0].Text? && !es[0].Number? then None
    else
      match JoinLiterals(es[1..])
      case None => None
      case Some(rest) => Some((if es[0].Text? then es[0].s else Decimal(es[0].n)) + rest)
  }

  function Simplify(e: Expr, fr: Bounds, input: string): Expr {
    match e
    case Binary(_, _, _) => SimplifyBinary(e, fr, input)
    case Unary(_, _) => SimplifyUnary(e)
    case Prim(_, _, _) => SimplifyPrim(e)
    case Substring(_, _, _) => SimplifySubstring(e)
    case If(q, a, b) =>
      (match StaticEval(q, fr, input) case Some(t) => (if t then a else b) case None => e)
    case Concat(es) => (match JoinLiterals(es) case Some(s) => Text(s) case None => e)
    case _ => e
  }

  // ----- the bottom-up pass -----

  /** Whether rewriting is on, and the input whose ranges it may use. */
  datatype Pass = Pass(on: bool, fr: Bounds, input: string)

  function Optimize(p: Pass, e: Expr): Expr
    decreases e, 1
  {
    var f := Rebuild(p, e);
    if p.on then Simplify(f, p.fr, p.input) else f
  }

  /** The same node over optimized children; a try_byte_at table is kept as written. */
  function Rebuild(p: Pass, e: Expr): Expr
    decreases e, 0
  {
    match e
    case Number(_) => e
    case Text(_) => e
    case BytesLit(_) => e
    case Ident(_) => e
    case Field(b, f) => Field(Optimize(p, b), f)
    case Binary(op, a, b) => Binary(op, Optimize(p, a), Optimize(p, b))
    case Unary(op, a) => Unary(op, Optimize(p, a))
    case Prim(op, a, b) => Prim(op, Optimize(p, a), Optimize(p, b))
    case TryByteAt(t, i) => TryByteAt(t, Optimize(p, i))
    case Substring(a, b, c) => Substring(Optimize(p, a), Optimize(p, b), Optimize(p, c))
    case If(a, b, c) => If(Optimize(p, a), Optimize(p, b), Optimize(p, c))
    case MatchResult(t, x, a, y, b) => MatchResult(Optimize(p, t), x, Optimize(p, a), y, Optimize(p, b))
    case Call(f, args) => Call(f, OptimizeAll(p, args))
    case Concat(args) => Concat(OptimizeAll(p, args))
    case Construct(n, v, inits) => Construct(n, v, OptimizeInits(p, inits))
    case MatchVariant(s, arms) => MatchVariant(Optimize(p, s), OptimizeArms(p, arms))
    case Quantifier(all, c, x, b) => Quantifier(all, Optimize(p, c), x, Optimize(p, b))
    case Collect(keep, c, x, b) => Collect(keep, Optimize(p, c), x, Optimize(p, b))
    case Fold(c, i, acc, x, b) => Fold(Optimize(p, c), Optimize(p, i), acc, x, Optimize(p, b))
    case FoldBytes(t, i, acc, x, n, b) => FoldBytes(Optimize(p, t), Optimize(p, i), acc, x, n, Optimize(p, b))
  }

  function OptimizeAll(p: Pass, es: seq<Expr>): (out: seq<Expr>)
    ensures |out| == |es|
    ensures |es| == 1 ==> out == [Optimize(p, es[0])]
    decreases es, 0
  {
    if es == [] then [] else [Optimize(p, es[0])] + OptimizeAll(p, es[1..])
  }

  function OptimizeInits(p: Pass, fs: seq<FieldInit>): (out: seq<FieldInit>)
    ensures |out| == |fs|
    decreases fs, 0
  {
    if fs == [] then [] else [FieldInit(fs[0].name, Optimize(p, fs[0].value))] + OptimizeInits(p, fs[1..])
  }

  function OptimizeArms(p: Pass, arms: seq<Arm>): (out: seq<Arm>)
    ensures |out| == |arms|
    ensures forall i | 0 <= i < |arms| :: out[i] == Arm(arms[i].variant, arms[i].binders, Optimize(p, arms[i].body))
    decreases arms, 0
  {
    if arms == [] then []
    else [Arm(arms[0].variant, arms[0].binders, Optimize(p, arms[0].body))] + OptimizeArms(p, arms[1..])
  }

  function OptimizeLets(p: Pass, bs: seq<Binding>): seq<Binding> {
    if bs == [] then [] else [Binding(bs[0].name, Optimize(p, bs[0].value))] + OptimizeLets(p, bs[1..])
  }

  function OptimizeRule(cs: map<string, Concept>, r: Rule): Rule {
    var i := Inlined(r);
    var p := Pass(true, RuleRanges(cs, r), r.input);
    i.(bindings := OptimizeLets(p, i.bindings), value := Optimize(p, i.value))
  }

  /** Every rule but those of the bounded contracts. */
  function OptimizeProgram(p: Program, bounded: set<string>): Program {
    p.(rules := map n | n in p.rules :: if n in bounded then p.rules[n] else OptimizeRule(p.concepts, p.rules[n]))
  }
}
