/** The expression language, its types, and its rules. One-argument builtins,
    two-argument builtins, both construction forms and map/filter share a
    constructor each, tagged by the builtin. */
module Ast {
  import opened Int64

  type Byte = x: int | 0 <= x < 256
  type Bytes = seq<Byte>

  datatype Option<+T> = None | Some(value: T)

  datatype Type =
    | TNumber | TBoundsError | TBool | TText | TBytes
    | TCollection(elem: string)
    | TNamed(concept: string)
    | TResult(ok: Type, err: Type)

  datatype BinOp =
    Add | Sub | Mul | Div | Mod | Eq | NotEq | Lt | LtEq | Gt | GtEq | And | Or

  datatype UnOp =
    | Not | Neg | Abs | BitNot | ParseInt | JsonEscape | Le32 | Le64
    | Length | AbortIf | ArenaScope | MkOk | MkErr

  datatype PrimOp =
    | MinOp | MaxOp | BitAnd | BitOr | BitXor | Shl | Shr
    | StartsWith | EndsWith | Contains | ByteAt

  datatype FieldInit = FieldInit(name: string, value: Expr)

  datatype Arm = Arm(variant: string, binders: seq<Option<string>>, body: Expr)

  datatype Expr =
    | Number(n: i64)
    | Text(s: Bytes)
    | BytesLit(b: Bytes)
    | Ident(name: string)
    | Field(base: Expr, field: string)
    | Binary(op: BinOp, left: Expr, right: Expr)
    | Unary(uop: UnOp, arg: Expr)
    | Prim(pop: PrimOp, arg0: Expr, arg1: Expr)
    | TryByteAt(table: Expr, index: Expr)
    | Substring(text: Expr, from: Expr, to: Expr)
    | If(cond: Expr, yes: Expr, no: Expr)
    | MatchResult(target: Expr, okVar: string, okBody: Expr, errVar: string, errBody: Expr)
    | Call(callee: string, args: seq<Expr>)
    | Concat(args: seq<Expr>)
    | Construct(concept: string, variant: Option<string>, inits: seq<FieldInit>)
    | MatchVariant(scrutinee: Expr, arms: seq<Arm>)
    | Quantifier(all: bool, coll: Expr, item: string, body: Expr)
    | Collect(keep: bool, coll: Expr, item: string, body: Expr)
    | Fold(coll: Expr, init: Expr, acc: string, item: string, body: Expr)
    | FoldBytes(text: Expr, init: Expr, acc: string, byte: string, idx: string, body: Expr)

  datatype FieldDecl = FieldDecl(name: string, ty: Type, range: Option<(i64, i64)>)
  datatype VariantDecl = VariantDecl(name: string, fields: seq<FieldDecl>)
  datatype Concept = Concept(fields: seq<FieldDecl>, variants: seq<VariantDecl>)

  datatype Binding = Binding(name: string, value: Expr)

  datatype Rule = Rule(
    name: string,
    input: string,
    inputTy: Type,
    hasContext: bool,
    outputTy: Type,
    textMax: Option<nat>,
    bindings: seq<Binding>,
    value: Expr,
    overflow: Option<(i64, i64)>)

  /** Rule and concept names are unique in a verified program. */
  datatype Program = Program(rules: map<string, Rule>, concepts: map<string, Concept>)

  /** The direct subexpressions, in source order. */
  function Children(e: Expr): (cs: seq<Expr>)
    ensures forall c :: c in cs ==> c < e
  {
    match e
    case Number(_) => []
    case Text(_) => []
    case BytesLit(_) => []
    case Ident(_) => []
    case Field(b, _) => [b]
    case Binary(_, a, b) => [a, b]
    case Unary(_, a) => [a]
    case Prim(_, a, b) => [a, b]
    case TryByteAt(a, b) => [a, b]
    case Substring(a, b, c) => [a, b, c]
    case If(a, b, c) => [a, b, c]
    case MatchResult(t, _, a, _, b) => [t, a, b]
    case Call(_, args) => args
    case Concat(args) => args
    case Construct(_, _, inits) => seq(|inits|, i requires 0 <= i < |inits| => inits[i].value)
    case MatchVariant(s, arms) => [s] + seq(|arms|, i requires 0 <= i < |arms| => arms[i].body)
    case Quantifier(_, a, _, b) => [a, b]
    case Collect(_, a, _, b) => [a, b]
    case Fold(a, b, _, _, c) => [a, b, c]
    case FoldBytes(a, b, _, _, _, c) => [a, b, c]
  }

  /** Every rule name called anywhere in an expression. */
  function CallNames(e: Expr): set<string>
    decreases e
  {
    (if e.Call? then {e.callee} else {}) +
    set c, n | c in Children(e) && n in CallNames(c) :: n
  }

  /** Every rule name called by a rule, in its lets or its output. */
  function RuleCalls(r: Rule): set<string> {
    (set i, n | 0 <= i < |r.bindings| && n in CallNames(r.bindings[i].value) :: n) + CallNames(r.value)
  }
}
