/** The expression grammar over tokens, as functions from a position to an
    expression and the position after it. */
module Parsing {
  import opened Int64
  import opened Ast
  import opened Tokens
  import opened FoldSugar

  datatype Parsed<+T> = Fail | Done(value: T, at: nat) {
    predicate IsFailure() { Fail? }
    function PropagateFailure<U>(): Parsed<U>
      requires Fail?
    {
      Fail
    }
    function Extract(): (T, nat)
      requires Done?
    {
      (value, at)
    }
  }

  /** A stream ends in its only EOF. */
  ghost predicate Stream(ts: seq<Token>) {
    ts != [] && ts[|ts| - 1] == Eof && forall i | 0 <= i < |ts| - 1 :: ts[i] != Eof
  }

  /** Past a position, and before the end. */
  predicate Moved<T>(ts: seq<Token>, i: nat, r: Parsed<T>) { r.Done? ==> i < r.at < |ts| }

  // ----- operators -----

  /* Levels: 0 a whole expression, 1 or, 2 and, 3 comparison, 4 sum, 5 product, 6 unary, 7 primary. */

  function OperatorAt(t: Token, level: nat): Option<BinOp> {
    match level
    case 1 => if t == TIdent("or") then Some(Or) else None
    case 2 => if t == TIdent("and") then Some(And) else None
    case 3 =>
      (match t
       case EqualEqual => Some(Eq)
       case NotEqual => Some(NotEq)
       case Greater => Some(Gt)
       case Less => Some(Lt)
       case GreaterEqual => Some(GtEq)
       case LessEqual => Some(LtEq)
       case _ => None)
    case 4 => (match t case Plus => Some(Add) case Minus => Some(Sub) case _ => None)
    case 5 => (match t case Star => Some(Mul) case Slash => Some(Div) case Percent => Some(Mod) case _ => None)
    case _ => None
  }

  // ----- fixed productions -----

  /** One element of a production: a token, an expression or an identifier. */
  datatype Item = Tok(t: Token) | Ex | Id

  datatype Parts = Parts(exprs: seq<Expr>, ids: seq<string>)

  const Parens: seq<Item> := [Tok(LParen), Ex, Tok(RParen)]
  const Two: seq<Item> := [Tok(LParen), Ex, Tok(Comma), Ex, Tok(RParen)]
  const Three: seq<Item> := [Tok(LParen), Ex, Tok(Comma), Ex, Tok(Comma), Ex, Tok(RParen)]
  const Lambda: seq<Item> := [Tok(LParen), Ex, Tok(Comma), Id, Tok(FatArrow), Ex, Tok(RParen)]
  const FoldItems: seq<Item> := [Tok(LParen), Ex, Tok(Comma), Ex, Tok(Comma), Id, Tok(Comma), Id, Tok(FatArrow), Ex,
    Tok(RParen)]
  const FoldBytesItems: seq<Item> :=
    [Tok(LParen), Ex, Tok(Comma), Ex, Tok(Comma), Id, Tok(Comma), Id, Tok(Comma), Id, Tok(FatArrow), Ex, Tok(RParen)]
  const MatchItems: seq<Item> :=
    [Tok(LParen), Ex, Tok(Comma), Id, Tok(FatArrow), Ex, Tok(Comma), Id, Tok(FatArrow), Ex, Tok(RParen)]

  function UnaryOf(name: string): Option<UnOp> {
    if name == "json_escape" then Some(JsonEscape)
    else if name == "parse_int" then Some(ParseInt)
    else if name == "length" then Some(Length)
    else if name == "abs" then Some(UnOp.Abs)
    else if name == "le32" then Some(Le32)
    else if name == "le64" then Some(Le64)
    else if name == "arena_scope" then Some(ArenaScope)
    else if name == "abort_if" then Some(AbortIf)
    else if name == "bnot" then Some(BitNot)
    else if name == "Ok" then Some(MkOk)
    else if name == "Err" then Some(MkErr)
    else None
  }

  function PrimOf(name: string): Option<PrimOp> {
    if name == "starts_with" then Some(StartsWith)
    else if name == "contains" then Some(Contains)
    else if name == "ends_with" then Some(EndsWith)
    else if name == "byte_at" then Some(ByteAt)
    else if name == "band" then Some(PrimOp.BitAnd)
    else if name == "bor" then Some(PrimOp.BitOr)
    else if name == "bxor" then Some(PrimOp.BitXor)
    else if name == "shl" then Some(PrimOp.Shl)
    else if name == "shr" then Some(PrimOp.Shr)
    else None
  }

  /** The production of a builtin call, if its shape is fixed. */
  function Production(name: string): (r: Option<seq<Item>>)
    ensures r.Some? ==> Tok(Eof) !in r.value && Tok(Dedent) !in r.value && r.value != []
  {
    if UnaryOf(name).Some? then Some(Parens)
    else if PrimOf(name).Some? || name == "try_byte_at" then Some(Two)
    else if name == "substring" then Some(Three)
    else if name in {"all", "any", "map", "filter"} then Some(Lambda)
    else if name == "fold" then Some(FoldItems)
    else if name == "fold_bytes" then Some(FoldBytesItems)
    else if name == "match_result" then Some(MatchItems)
    else None
  }

  /** The node a builtin call builds from its parts. */
  function Build(name: string, p: Parts): Option<Expr> {
    var e, x := p.exprs, p.ids;
    if UnaryOf(name).Some? then (if |e| == 1 then Some(Unary(UnaryOf(name).value, e[0])) else None)
    else if PrimOf(name).Some? then (if |e| == 2 then Some(Prim(PrimOf(name).value, e[0], e[1])) else None)
    else if name == "try_byte_at" then (if |e| == 2 then Some(TryByteAt(e[0], e[1])) else None)
    else if name == "substring" then (if |e| == 3 then Some(Substring(e[0], e[1], e[2])) else None)
    else if name == "all" || name == "any" then
      (if |e| == 2 && |x| == 1 then Some(Quantifier(name == "all", e[0], x[0], e[1])) else None)
    else if name == "map" || name == "filter" then
      (if |e| == 2 && |x| == 1 then Some(Collect(name == "filter", e[0], x[0], e[1])) else None)
    else if name == "fold" then (if |e| == 3 && |x| == 2 then Some(Fold(e[0], e[1], x[0], x[1], e[2])) else None)
    else if name == "fold_bytes" then
      (if |e| == 3 && |x| == 3 then Some(FoldBytes(e[0], e[1], x[0], x[1], x[2], e[2])) else None)
    else if name == "match_result" then
      (if |e| == 3 && |x| == 2 then Some(MatchResult(e[0], x[0], e[1], x[1], e[2])) else None)
    else None
  }

  /** Builtins with an effect outside the model. */
  predicate IsEffect(name: string) { name in {"read", "random", "fetch", "now_unix"} }

  function AggregateOf(name: string): Option<Aggregate> {
    if name == "sum" then Some(SumOf)
    else if name == "count" then Some(CountOf)
    else if name == "min" then Some(MinOf)
    else if name == "max" then Some(MaxOf)
    else None
  }

  // ----- layout inside a conditional -----

  /** Skips line breaks and blocks opened since; `d` counts the open ones. */
  function Skip(ts: seq<Token>, i: nat, d: nat): (r: (nat, nat))
    requires Stream(ts) && i < |ts|
    ensures i <= r.0 < |ts|
    decreases |ts| - i
  {
    match ts[i]
    case Newline => Skip(ts, i + 1, d)
    case Indent => Skip(ts, i + 1, d + 1)
    case Dedent => if d > 0 then Skip(ts, i + 1, d - 1) else (i, d)
    case _ => (i, d)
  }

  /** Closes the blocks still open after the last branch. */
  function Balance(ts: seq<Token>, i: nat, d: nat): (n: nat)
    requires Stream(ts) && i < |ts|
    ensures i <= n < |ts|
    decreases |ts| - i
  {
    if d == 0 then i
    else
      match ts[i]
      case Newline => Balance(ts, i + 1, d)
      case Dedent => Balance(ts, i + 1, d - 1)
      case _ => i
  }

  // ----- the grammar -----

  function Parse(ts: seq<Token>, i: nat, level: nat): (r: Parsed<Expr>)
    requires Stream(ts) && i < |ts| && level <= 7
    ensures Moved(ts, i, r)
    decreases |ts| - i, 1, 8 - level
  {
    if level == 0 then Parse(ts, i, 1)
    else if level == 7 then Primary(ts, i)
    else if level == 6 then
      if ts[i] == TIdent("not") then
        var a :- Parse(ts, i + 1, 6);
        Done(Unary(Not, a.0), a.1)
      else if ts[i] == Minus then
        var a :- Parse(ts, i + 1, 6);
        Done(Unary(Neg, a.0), a.1)
      else Parse(ts, i, 7)
    else
      var a :- Parse(ts, i, level + 1);
      if level == 3 then Compare(ts, a.1, a.0) else Chain(ts, a.1, level, a.0)
  }

  /** At most one comparison. */
  function Compare(ts: seq<Token>, j: nat, left: Expr): (r: Parsed<Expr>)
    requires Stream(ts) && j < |ts|
    ensures r.Done? ==> j <= r.at < |ts|
    decreases |ts| - j, 2
  {
    match OperatorAt(ts[j], 3)
    case None => Done(left, j)
    case Some(op) =>
      var b :- Parse(ts, j + 1, 4);
      Done(Binary(op, left, b.0), b.1)
  }

  /** Further operands of one level, associating to the left. */
  function Chain(ts: seq<Token>, j: nat, level: nat, left: Expr): (r: Parsed<Expr>)
    requires Stream(ts) && j < |ts| && 1 <= level <= 5
    ensures r.Done? ==> j <= r.at < |ts|
    decreases |ts| - j, 2
  {
    match OperatorAt(ts[j], level)
    case None => Done(left, j)
    case Some(op) =>
      var b :- Parse(ts, j + 1, level + 1);
      Chain(ts, b.1, level, Binary(op, left, b.0))
  }

  function Primary(ts: seq<Token>, i: nat): (r: Parsed<Expr>)
    requires Stream(ts) && i < |ts|
    ensures Moved(ts, i, r)
    decreases |ts| - i, 0
  {
    match ts[i]
    case TNumberLit(n) => Done(Number(n), i + 1)
    case TString(s) => Done(Text(s), i + 1)
    case TBytesLit(b) => Done(BytesLit(b), i + 1)
    case LParen =>
      var e :- Parse(ts, i + 1, 0);
      if ts[e.1] == RParen then Done(e.0, e.1 + 1) else Fail
    case TIdent(name) =>
      if name == "if" then Conditional(ts, i + 1)
      else if name == "match" then Matching(ts, i + 1)
      else Named(ts, i + 1, name)
    case _ => Fail
  }

  /** A match block, from after its keyword. */
  function Matching(ts: seq<Token>, i: nat): (r: Parsed<Expr>)
    requires Stream(ts) && i < |ts|
    ensures Moved(ts, i, r)
    decreases |ts| - i, 3
  {
    var s :- Parse(ts, i, 0);
    if ts[s.1] == Colon && ts[s.1 + 1] == Newline && ts[s.1 + 2] == Indent then
      var arms :- Arms(ts, s.1 + 3);
      Done(MatchVariant(s.0, arms.0), arms.1)
    else Fail
  }

  function Conditional(ts: seq<Token>, i: nat): (r: Parsed<Expr>)
    requires Stream(ts) && i < |ts|
    ensures Moved(ts, i, r)
    decreases |ts| - i, 3
  {
    var s1 := Skip(ts, i, 0);
    var q :- Parse(ts, s1.0, 0);
    var s2 := Skip(ts, q.1, s1.1);
    if ts[s2.0] != TIdent("then") then Fail
    else
      var tail :- Branches(ts, s2.0 + 1, s2.1);
      Done(If(q.0, tail.0.0, tail.0.1), tail.1)
  }

  /** Both branches of a conditional, from after its `then`. */
  function Branches(ts: seq<Token>, i: nat, d: nat): (r: Parsed<(Expr, Expr)>)
    requires Stream(ts) && i < |ts|
    ensures Moved(ts, i, r)
    decreases |ts| - i, 3
  {
    var s3 := Skip(ts, i, d);
    var a :- Parse(ts, s3.0, 0);
    var s4 := Skip(ts, a.1, s3.1);
    if ts[s4.0] != TIdent("else") then Fail
    else
      var s5 := Skip(ts, s4.0 + 1, s4.1);
      var b :- Parse(ts, s5.0, 0);
      Done((a.0, b.0), Balance(ts, b.1, s5.1))
  }

  /** What follows an identifier. */
  function Named(ts: seq<Token>, i: nat, name: string): (r: Parsed<Expr>)
    requires Stream(ts) && 0 < i < |ts|
    ensures Moved(ts, i - 1, r)
    decreases |ts| - i, 4
  {
    match ts[i]
    case DoubleColon => Variant(ts, i + 1, name)
    case LBrace =>
      var fs :- Fields(ts, i + 1);
      Done(Construct(name, None, fs.0), fs.1)
    case LParen => CallOf(ts, i, name)
    case _ => Path(ts, i, Ident(name))
  }

  /** A variant construction, from after its `::`. */
  function Variant(ts: seq<Token>, i: nat, name: string): (r: Parsed<Expr>)
    requires Stream(ts) && i < |ts|
    ensures Moved(ts, i, r)
    decreases |ts| - i, 4
  {
    if !ts[i].TIdent? then Fail
    else if ts[i + 1] == LBrace then
      var fs :- Fields(ts, i + 2);
      Done(Construct(name, Some(ts[i].name), fs.0), fs.1)
    else Done(Construct(name, Some(ts[i].name), []), i + 1)
  }

  /** A call, of a builtin or of a rule. */
  function CallOf(ts: seq<Token>, i: nat, name: string): (r: Parsed<Expr>)
    requires Stream(ts) && i < |ts| && ts[i] == LParen
    ensures Moved(ts, i, r)
    decreases |ts| - i, 3
  {
    if AggregateOf(name).Some? then Aggregation(ts, i, AggregateOf(name).value)
    else if Production(name).Some? then
      var p :- Items(ts, i, Production(name).value);
      (match Build(name, p.0) case Some(e) => Done(e, p.1) case None => Fail)
    else if IsEffect(name) then Fail
    else
      var args :- Arguments(ts, i + 1);
      if name == "concat" then (if args.0 == [] then Fail else Done(Concat(args.0), args.1))
      else Done(Call(name, args.0), args.1)
  }

  /** Field accesses. */
  function Path(ts: seq<Token>, i: nat, e: Expr): (r: Parsed<Expr>)
    requires Stream(ts) && i < |ts|
    ensures r.Done? ==> i <= r.at < |ts|
    decreases |ts| - i, 0
  {
    if ts[i] != Dot then Done(e, i)
    else if !ts[i + 1].TIdent? then Fail
    else Path(ts, i + 2, Field(e, ts[i + 1].name))
  }

  /** A fixed production. */
  function Items(ts: seq<Token>, i: nat, items: seq<Item>): (r: Parsed<Parts>)
    requires Stream(ts) && i < |ts| && Tok(Eof) !in items
    ensures r.Done? ==> i + |items| <= r.at < |ts|
    decreases |ts| - i, 2, |items|
  {
    if items == [] then Done(Parts([], []), i)
    else
      match items[0]
      case Tok(t) => if ts[i] == t then Items(ts, i + 1, items[1..]) else Fail
      case Id =>
        if !ts[i].TIdent? then Fail
        else
          var p :- Items(ts, i + 1, items[1..]);
          Done(Parts(p.0.exprs, [ts[i].name] + p.0.ids), p.1)
      case Ex =>
        var e :- Parse(ts, i, 0);
        var p :- Items(ts, e.1, items[1..]);
        Done(Parts([e.0] + p.0.exprs, p.0.ids), p.1)
  }

  /** sum, count, min and max: the second operand decides between the two-operand
      form of min and max and the fold, which reads it again as a binder. */
  function Aggregation(ts: seq<Token>, i: nat, g: Aggregate): (r: Parsed<Expr>)
    requires Stream(ts) && i < |ts| && ts[i] == LParen
    ensures Moved(ts, i, r)
    decreases |ts| - i, 2
  {
    var c :- Parse(ts, i + 1, 0);
    if ts[c.1] != Comma then Fail
    else
      var second :- Parse(ts, c.1 + 1, 0);
      if (g.MinOf? || g.MaxOf?) && ts[second.1] != FatArrow then
        if ts[second.1] == RParen
        then Done(Prim(if g.MinOf? then MinOp else MaxOp, c.0, second.0), second.1 + 1)
        else Fail
      else
        var l :- LambdaTail(ts, c.1 + 1);
        Done(Desugar(g, c.0, l.0.0, l.0.1), l.1)
  }

  /** A binder, its arrow, a body and the closing parenthesis. */
  function LambdaTail(ts: seq<Token>, i: nat): (r: Parsed<(string, Expr)>)
    requires Stream(ts) && i < |ts|
    ensures Moved(ts, i, r)
    decreases |ts| - i, 2
  {
    if !ts[i].TIdent? || ts[i + 1] != FatArrow then Fail
    else
      var b :- Parse(ts, i + 2, 0);
      if ts[b.1] == RParen then Done((ts[i].name, b.0), b.1 + 1) else Fail
  }

  /** Arguments after an opening parenthesis. */
  function Arguments(ts: seq<Token>, i: nat): (r: Parsed<seq<Expr>>)
    requires Stream(ts) && i < |ts|
    ensures Moved(ts, i, r)
    decreases |ts| - i, 3
  {
    if ts[i] == RParen then Done([], i + 1) else MoreArguments(ts, i)
  }

  function MoreArguments(ts: seq<Token>, i: nat): (r: Parsed<seq<Expr>>)
    requires Stream(ts) && i < |ts|
    ensures Moved(ts, i, r) && (r.Done? ==> r.value != [])
    decreases |ts| - i, 2
  {
    var e :- Parse(ts, i, 0);
    if ts[e.1] == Comma then
      var rest :- MoreArguments(ts, e.1 + 1);
      Done([e.0] + rest.0, rest.1)
    else if ts[e.1] == RParen then Done([e.0], e.1 + 1)
    else Fail
  }

  /** Field initializers after an opening brace; a trailing comma is allowed. */
  function Fields(ts: seq<Token>, i: nat): (r: Parsed<seq<FieldInit>>)
    requires Stream(ts) && i < |ts|
    ensures Moved(ts, i, r)
    decreases |ts| - i, 3
  {
    if ts[i] == RBrace then Done([], i + 1)
    else if !ts[i].TIdent? || ts[i + 1] != Colon then Fail
    else
      var e :- Parse(ts, i + 2, 0);
      var f := FieldInit(ts[i].name, e.0);
      if ts[e.1] == Comma then
        var rest :- Fields(ts, e.1 + 1);
        Done([f] + rest.0, rest.1)
      else if ts[e.1] == RBrace then Done([f], e.1 + 1)
      else Fail
  }

  /** Match arms up to the DEDENT that closes their block. */
  function Arms(ts: seq<Token>, i: nat): (r: Parsed<seq<Arm>>)
    requires Stream(ts) && i < |ts|
    ensures Moved(ts, i, r)
    decreases |ts| - i, 4
  {
    if ts[i] == Dedent then Done([], i + 1)
    else if ts[i] == Newline then Arms(ts, i + 1)
    else
      var arm :- OneArm(ts, i);
      var rest :- Arms(ts, arm.1);
      Done([arm.0] + rest.0, rest.1)
  }

  /** One arm with the NEWLINE that ends it. */
  function OneArm(ts: seq<Token>, i: nat): (r: Parsed<Arm>)
    requires Stream(ts) && i < |ts|
    ensures Moved(ts, i, r)
    decreases |ts| - i, 3
  {
    if !ts[i].TIdent? then Fail
    else
      var bs :- ArmBinders(ts, i + 1);
      if ts[bs.1] != FatArrow then Fail
      else
        var b :- Parse(ts, bs.1 + 1, 0);
        if ts[b.1] == Newline then Done(Arm(ts[i].name, bs.0, b.0), b.1 + 1) else Fail
  }

  /** The binders of an arm, if it has any. */
  function ArmBinders(ts: seq<Token>, i: nat): (r: Parsed<seq<Option<string>>>)
    requires Stream(ts) && i < |ts|
    ensures r.Done? ==> i <= r.at < |ts|
    decreases |ts| - i, 2
  {
    if ts[i] == LParen then Binders(ts, i + 1) else Done([], i)
  }

  function Binders(ts: seq<Token>, i: nat): (r: Parsed<seq<Option<string>>>)
    requires Stream(ts) && i < |ts|
    ensures Moved(ts, i, r)
    decreases |ts| - i, 1
  {
    if ts[i] == RParen then Done([], i + 1) else MoreBinders(ts, i)
  }

  function MoreBinders(ts: seq<Token>, i: nat): (r: Parsed<seq<Option<string>>>)
    requires Stream(ts) && i < |ts|
    ensures Moved(ts, i, r)
    decreases |ts| - i, 0
  {
    if !ts[i].TIdent? then Fail
    else
      var b := if ts[i].name == "_" then None else Some(ts[i].name);
      if ts[i + 1] == Comma then
        var rest :- MoreBinders(ts, i + 2);
        Done([b] + rest.0, rest.1)
      else if ts[i + 1] == RParen then Done([b], i + 2)
      else Fail
  }
}
