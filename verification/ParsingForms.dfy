/** The printed shapes of the named forms: builtin calls, constructions and
    match blocks. */
module ParsingForms {
  import opened Int64
  import opened Ast
  import opened Tokens
  import opened Parsing

  // ----- names of builtins -----

  function UnaryName(op: UnOp): string {
    match op
    case Not => "not"
    case Neg => "-"
    case Abs => "abs"
    case BitNot => "bnot"
    case ParseInt => "parse_int"
    case JsonEscape => "json_escape"
    case Le32 => "le32"
    case Le64 => "le64"
    case Length => "length"
    case AbortIf => "abort_if"
    case ArenaScope => "arena_scope"
    case MkOk => "Ok"
    case MkErr => "Err"
  }

  function PrimName(op: PrimOp): string {
    match op
    case MinOp => "min"
    case MaxOp => "max"
    case BitAnd => "band"
    case BitOr => "bor"
    case BitXor => "bxor"
    case Shl => "shl"
    case Shr => "shr"
    case StartsWith => "starts_with"
    case EndsWith => "ends_with"
    case Contains => "contains"
    case ByteAt => "byte_at"
  }

  /** A form that is read by a fixed production. */
  predicate IsBuiltin(e: Expr) {
    match e
    case Unary(op, _) => !op.Not? && !op.Neg?
    case Prim(op, _, _) => !op.MinOp? && !op.MaxOp?
    case TryByteAt(_, _) => true
    case Substring(_, _, _) => true
    case Quantifier(_, _, _, _) => true
    case Collect(_, _, _, _) => true
    case Fold(_, _, _, _, _) => true
    case FoldBytes(_, _, _, _, _, _) => true
    case MatchResult(_, _, _, _, _) => true
    case _ => false
  }

  function BuiltinName(e: Expr): string
    requires IsBuiltin(e)
  {
    match e
    case Unary(op, _) => UnaryName(op)
    case Prim(op, _, _) => PrimName(op)
    case TryByteAt(_, _) => "try_byte_at"
    case Substring(_, _, _) => "substring"
    case Quantifier(all, _, _, _) => if all then "all" else "any"
    case Collect(keep, _, _, _) => if keep then "filter" else "map"
    case Fold(_, _, _, _, _) => "fold"
    case FoldBytes(_, _, _, _, _, _) => "fold_bytes"
    case MatchResult(_, _, _, _, _) => "match_result"
  }

  /** The names a builtin binds, in the order they are written. */
  function Ids(e: Expr): seq<string> {
    match e
    case Quantifier(_, _, x, _) => [x]
    case Collect(_, _, x, _) => [x]
    case Fold(_, _, acc, x, _) => [acc, x]
    case FoldBytes(_, _, acc, x, n, _) => [acc, x, n]
    case MatchResult(_, x, _, y, _) => [x, y]
    case _ => []
  }

  // ----- what a builtin is read back as -----

  /** Reading back the name and the parts of a builtin builds it again. */
  ghost predicate ReadsBack(e: Expr) {
    IsBuiltin(e) &&
    var name := BuiltinName(e);
    && Production(name).Some? && Production(name).value[0] == Tok(LParen)
    && Build(name, Parts(Children(e), Ids(e))) == Some(e)
    && AggregateOf(name).None? && name !in {"if", "match", "not"}
  }

  lemma UnaryReads(e: Expr)
    requires IsBuiltin(e) && e.Unary?
    ensures ReadsBack(e)
  {
    assert UnaryOf(UnaryName(e.uop)) == Some(e.uop);
  }

  lemma PrimReads(e: Expr)
    requires IsBuiltin(e) && e.Prim?
    ensures ReadsBack(e)
  {
    assert UnaryOf(PrimName(e.pop)) == None && PrimOf(PrimName(e.pop)) == Some(e.pop);
  }

  /** Names that are none of the one- and two-argument builtins. */
  predicate OwnName(name: string) { UnaryOf(name).None? && PrimOf(name).None? && AggregateOf(name).None? }

  lemma TryByteReads(e: Expr)
    requires e.TryByteAt?
    ensures ReadsBack(e)
  {
    assert OwnName("try_byte_at");
  }

  lemma SubstringReads(e: Expr)
    requires e.Substring?
    ensures ReadsBack(e)
  {
    assert OwnName("substring");
  }

  lemma QuantifierReads(e: Expr)
    requires e.Quantifier?
    ensures ReadsBack(e)
  {
    assert OwnName(if e.all then "all" else "any");
  }

  lemma CollectReads(e: Expr)
    requires e.Collect?
    ensures ReadsBack(e)
  {
    assert OwnName(if e.keep then "filter" else "map");
  }

  lemma FoldProduction()
    ensures OwnName("fold") && Production("fold") == Some(FoldItems)
  {
  }

  lemma FoldBuilds(e: Expr)
    requires e.Fold? && OwnName("fold")
    ensures Build("fold", Parts(Children(e), Ids(e))) == Some(e)
  {
    assert |Children(e)| == 3 && |Ids(e)| == 2;
  }

  lemma FoldReads(e: Expr)
    requires e.Fold?
    ensures ReadsBack(e)
  {
    FoldProduction();
    FoldBuilds(e);
    assert |Children(e)| == 3 && |Ids(e)| == 2;
  }

  lemma FoldBytesProduction()
    ensures OwnName("fold_bytes") && Production("fold_bytes") == Some(FoldBytesItems)
  {
  }

  lemma FoldBytesBuilds(e: Expr)
    requires e.FoldBytes? && OwnName("fold_bytes")
    ensures Build("fold_bytes", Parts(Children(e), Ids(e))) == Some(e)
  {
    assert |Children(e)| == 3 && |Ids(e)| == 3;
  }

  lemma FoldBytesReads(e: Expr)
    requires e.FoldBytes?
    ensures ReadsBack(e)
  {
    FoldBytesProduction();
    FoldBytesBuilds(e);
    assert |Children(e)| == 3 && |Ids(e)| == 3;
  }

  lemma MatchProduction()
    ensures OwnName("match_result") && Production("match_result") == Some(MatchItems)
  {
  }

  lemma MatchBuilds(e: Expr)
    requires e.MatchResult? && OwnName("match_result")
    ensures Build("match_result", Parts(Children(e), Ids(e))) == Some(e)
  {
    assert |Children(e)| == 3 && |Ids(e)| == 2;
  }

  lemma MatchResultReads(e: Expr)
    requires e.MatchResult?
    ensures ReadsBack(e)
  {
    MatchProduction();
    MatchBuilds(e);
    assert |Children(e)| == 3 && |Ids(e)| == 2;
  }

  lemma ReadBack(e: Expr)
    requires IsBuiltin(e)
    ensures ReadsBack(e)
  {
    match e
    case Unary(_, _) => UnaryReads(e);
    case Prim(_, _, _) => PrimReads(e);
    case TryByteAt(_, _) => TryByteReads(e);
    case Substring(_, _, _) => SubstringReads(e);
    case Quantifier(_, _, _, _) => QuantifierReads(e);
    case Collect(_, _, _, _) => CollectReads(e);
    case Fold(_, _, _, _, _) => FoldReads(e);
    case FoldBytes(_, _, _, _, _, _) => FoldBytesReads(e);
    case MatchResult(_, _, _, _, _) => MatchResultReads(e);
  }

  // ----- binders -----

  /** A binder that reads back as itself; the underscore binds nothing. */
  predicate PrintableBinder(b: Option<string>) { b != Some("_") }

  function BinderToken(b: Option<string>): Token { TIdent(if b.Some? then b.value else "_") }

  function BinderList(bs: seq<Option<string>>): (ts: seq<Token>)
    requires bs != []
    ensures |ts| == 2 * |bs|
  {
    if |bs| == 1 then [BinderToken(bs[0]), RParen] else [BinderToken(bs[0]), Comma] + BinderList(bs[1..])
  }

  function PrintBinders(bs: seq<Option<string>>): seq<Token> {
    if bs == [] then [] else [LParen] + BinderList(bs)
  }
}
