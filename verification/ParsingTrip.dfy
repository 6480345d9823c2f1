/** Printing an expression with the parentheses its precedence needs, and
    parsing it back. */
module ParsingTrip {
  import opened Int64
  import opened Ast
  import opened Tokens
  import opened Parsing
  import opened ParsingForms
  import opened ParsingShapes
  import opened ParsingProductions

  // ----- printing -----

  /** The level at which an expression needs no parentheses. */
  function Level(e: Expr): nat {
    match e
    case If(_, _, _) => 0
    case Binary(op, _, _) => OperatorLevel(op)
    case Unary(Not, _) => 6
    case Unary(Neg, _) => 6
    case _ => 7
  }

  function OperatorLevel(op: BinOp): (l: nat)
    ensures 1 <= l <= 5
  {
    match op
    case Or => 1
    case And => 2
    case Add => 4
    case Sub => 4
    case Mul => 5
    case Div => 5
    case Mod => 5
    case _ => 3
  }

  function OperatorToken(op: BinOp): (t: Token)
    ensures OperatorAt(t, OperatorLevel(op)) == Some(op)
  {
    match op
    case Or => TIdent("or")
    case And => TIdent("and")
    case Eq => EqualEqual
    case NotEq => NotEqual
    case Gt => Greater
    case Lt => Less
    case GtEq => GreaterEqual
    case LtEq => LessEqual
    case Add => Plus
    case Sub => Minus
    case Mul => Star
    case Div => Slash
    case Mod => Percent
  }

  /** The levels of the operands; comparisons do not chain. */
  function LeftLevel(op: BinOp): nat { if OperatorLevel(op) == 3 then 4 else OperatorLevel(op) }
  function RightLevel(op: BinOp): nat { OperatorLevel(op) + 1 }

  predicate IsPath(e: Expr) { e.Ident? || (e.Field? && IsPath(e.base)) }

  /** A named form: it starts with a name and ends in a closing token. */
  predicate IsForm(e: Expr) { IsBuiltin(e) || e.Prim? || e.Concat? || e.Construct? || e.MatchVariant? }

  /** The expressions with a printed form. A negative literal is written with a
      minus, a name that starts another form is no name, only a path has fields,
      a concat has operands and an underscore binds nothing. */
  predicate Printable(e: Expr)
    decreases e, 1
  {
    match e
    case Number(n) => n >= 0
    case Text(_) => true
    case BytesLit(_) => true
    case Ident(x) => !Reserved(x)
    case Field(b, _) => IsPath(b) && Printable(b)
    case Binary(_, a, b) => Printable(a) && Printable(b)
    case Unary(_, a) => Printable(a)
    case Prim(_, a, b) => Printable(a) && Printable(b)
    case If(q, a, b) => Printable(q) && Printable(a) && Printable(b)
    case Call(n, args) => PlainCall(n) && forall i | 0 <= i < |args| :: Printable(args[i])
    case Concat(args) => args != [] && forall i | 0 <= i < |args| :: Printable(args[i])
    case Construct(n, _, fs) => !Reserved(n) && forall i | 0 <= i < |fs| :: Printable(fs[i].value)
    case MatchVariant(t, arms) => Printable(t) && forall i | 0 <= i < |arms| :: PrintableArm(arms[i])
    case _ => forall i | 0 <= i < |Children(e)| :: Printable(Children(e)[i])
  }

  predicate PrintableArm(a: Arm)
    decreases a, 0
  {
    Printable(a.body) && forall b | b in a.binders :: PrintableBinder(b)
  }

  /** What every builtin needs of its operands. */
  predicate Operands(e: Expr) { forall i | 0 <= i < |Children(e)| :: Printable(Children(e)[i]) }

  lemma BuiltinOperands(e: Expr)
    requires Printable(e) && (IsBuiltin(e) || e.Prim?)
    ensures Operands(e)
  {
  }

  function Print(e: Expr, level: nat): (ts: seq<Token>)
    requires Printable(e)
    ensures |ts| > 0
    decreases e, 3
  {
    if Level(e) >= level then PrintBare(e) else Wrapped(PrintBare(e))
  }

  function PrintBare(e: Expr): (ts: seq<Token>)
    requires Printable(e)
    ensures |ts| > 0
    decreases e, 2
  {
    if IsForm(e) then PrintForm(e)
    else
      match e
      case Number(n) => [TNumberLit(n)]
      case Text(s) => [TString(s)]
      case BytesLit(b) => [TBytesLit(b)]
      case Ident(x) => [TIdent(x)]
      case Field(b, f) => PrintBare(b) + [Dot, TIdent(f)]
      case Binary(op, a, b) => Print(a, LeftLevel(op)) + [OperatorToken(op)] + Print(b, RightLevel(op))
      case Unary(op, a) => [if op.Not? then TIdent("not") else Minus] + Print(a, 6)
      case If(q, a, b) => IfTokens(Print(q, 0), Print(a, 0), Print(b, 0))
      case Call(n, args) => [TIdent(n)] + Wrapped(PrintArgs(args))
  }

  function PrintForm(e: Expr): (ts: seq<Token>)
    requires Printable(e) && IsForm(e)
    ensures |ts| > 0
    decreases e, 1, 1
  {
    if IsBuiltin(e) then PrintBuiltin(e)
    else if e.Prim? then PairTokens(PrimName(e.pop), Print(e.arg0, 0), Print(e.arg1, 0))
    else if e.Concat? then [TIdent("concat")] + Wrapped(PrintArgs(e.args))
    else if e.Construct? then ConstructTokens(e.concept, e.variant, PrintFields(e.inits))
    else MatchTokens(Print(e.scrutinee, 0), PrintArms(e.arms))
  }

  function PrintBuiltin(e: Expr): (ts: seq<Token>)
    requires Printable(e) && IsBuiltin(e)
    ensures |ts| > 0
    decreases e, 1, 0
  {
    [TIdent(BuiltinName(e))] + BuiltinTokens(e, PrintOperands(e))
  }

  /** The operands of a builtin, each printed. */
  function PrintOperands(e: Expr): (ps: seq<seq<Token>>)
    requires Printable(e) && IsBuiltin(e)
    ensures |ps| == |Children(e)|
    decreases e, 0
  {
    BuiltinOperands(e);
    seq(|Children(e)|, i requires 0 <= i < |Children(e)| => Print(Children(e)[i], 0))
  }

  /** Initializers up to the closing brace, each with a comma after it. */
  function PrintFields(fs: seq<FieldInit>): (ts: seq<Token>)
    requires forall i | 0 <= i < |fs| :: Printable(fs[i].value)
    ensures |ts| > 0
    decreases fs, 0
  {
    if fs == [] then [RBrace] else FieldTokens(fs[0].name, Print(fs[0].value, 0), PrintFields(fs[1..]))
  }

  function PrintArms(arms: seq<Arm>): (ts: seq<Token>)
    requires forall i | 0 <= i < |arms| :: PrintableArm(arms[i])
    ensures |ts| > 0
    decreases arms, 0
  {
    if arms == [] then [Dedent]
    else
      assert PrintableArm(arms[0]);
      ArmTokens(arms[0].variant, PrintBinders(arms[0].binders), Print(arms[0].body, 0), PrintArms(arms[1..]))
  }

  function PrintArgs(es: seq<Expr>): seq<Token>
    requires forall i | 0 <= i < |es| :: Printable(es[i])
    decreases es, 0
  {
    if es == [] then []
    else if |es| == 1 then Print(es[0], 0)
    else Print(es[0], 0) + [Comma] + PrintArgs(es[1..])
  }

  // ----- first tokens -----

  lemma {:induction false} FirstToken(e: Expr, level: nat)
    requires Printable(e)
    ensures StartsExpr(Print(e, level)[0])
    decreases e, 1
  {
    BareFirst(e);
  }

  lemma {:induction false} BareFirst(e: Expr)
    requires Printable(e)
    ensures StartsExpr(PrintBare(e)[0])
    decreases e, 0
  {
    if IsForm(e) {
      FormFirst(e);
    } else if e.Field? {
      BareFirst(e.base);
    } else if e.Binary? {
      FirstToken(e.left, LeftLevel(e.op));
    }
  }

  lemma FormFirst(e: Expr)
    requires Printable(e) && IsForm(e)
    ensures PrintForm(e)[0].TIdent? && PrintForm(e)[0] != TIdent("not")
  {
    if IsBuiltin(e) {
      ReadBack(e);
    }
  }

  /** Only a prefix operator starts with one. */
  lemma {:induction false} BareNoPrefix(e: Expr)
    requires Printable(e) && Level(e) in {0, 7}
    ensures NoPrefix(PrintBare(e))
    decreases e
  {
    if IsForm(e) {
      FormFirst(e);
    } else if e.Field? {
      BareNoPrefix(e.base);
    }
  }

  // ----- the round trip -----

  /** A printed expression is read back wherever the next token does not go on. */
  lemma {:induction false} Trip(e: Expr, level: nat)
    requires Printable(e) && level <= 7
    ensures Reads(Print(e, level), e, level, level)
    decreases e, 5
  {
    if Level(e) >= level {
      TripBare(e, level);
    } else {
      TripBare(e, 0);
      ParensRead(PrintBare(e), e);
      StopEarlier(Wrapped(PrintBare(e)), e, 7, 7, level);
      ReadsBelow(Wrapped(PrintBare(e)), e, 7, level);
    }
  }

  lemma {:induction false} TripBare(e: Expr, level: nat)
    requires Printable(e) && level <= Level(e)
    ensures Reads(PrintBare(e), e, level, level)
    decreases e, 4
  {
    var ps := PrintBare(e);
    if Level(e) == 6 {
      UnaryTrip(e);
      StopEarlier(ps, e, 6, 6, level);
      ReadsBelow(ps, e, 6, level);
    } else if e.Binary? {
      BinaryTrip(e);
      StopEarlier(ps, e, OperatorLevel(e.op), OperatorLevel(e.op), level);
      ReadsBelow(ps, e, OperatorLevel(e.op), level);
    } else {
      var stop := if e.If? then 0 else 7;
      PrimaryTrip(e, stop);
      BareNoPrefix(e);
      StopEarlier(ps, e, 7, stop, level);
      ReadsBelow(ps, e, 7, level);
    }
  }

  lemma {:induction false} UnaryTrip(e: Expr)
    requires Printable(e) && Level(e) == 6
    ensures Reads(PrintBare(e), e, 6, 6)
    decreases e, 3
  {
    Trip(e.arg, 6);
    PrefixReads(Print(e.arg, 6), e.uop, e.arg);
  }

  lemma OperatorJoins(op: BinOp)
    ensures Joins(OperatorToken(op), op, OperatorLevel(op))
  {
  }

  lemma {:induction false} BinaryTrip(e: Expr)
    requires Printable(e) && e.Binary?
    ensures Reads(PrintBare(e), e, OperatorLevel(e.op), OperatorLevel(e.op))
    decreases e, 3
  {
    if OperatorLevel(e.op) == 3 {
      OperatorJoins(e.op);
      Trip(e.left, 4);
      Trip(e.right, 4);
      CompareReads(Print(e.left, 4), e.left, OperatorToken(e.op), e.op, Print(e.right, 4), e.right);
      StopEarlier(PrintBare(e), e, 3, 4, 3);
    } else {
      ChainTrip(e);
      ChainEnds(PrintBare(e), e, OperatorLevel(e.op));
    }
  }

  /** A left-associative chain, with all the operands to its left. */
  lemma {:induction false} ChainTrip(e: Expr)
    requires Printable(e) && e.Binary? && OperatorLevel(e.op) != 3
    ensures Chains(PrintBare(e), e, OperatorLevel(e.op))
    decreases e, 2
  {
    var p := OperatorLevel(e.op);
    OperatorJoins(e.op);
    Spine(e.left, p);
    Trip(e.right, p + 1);
    ChainGrows(Print(e.left, p), e.left, OperatorToken(e.op), e.op, Print(e.right, p + 1), e.right, p);
  }

  lemma {:induction false} Spine(e: Expr, p: nat)
    requires Printable(e) && p in {1, 2, 4, 5}
    ensures Chains(Print(e, p), e, p)
    decreases e, 6
  {
    if Level(e) == p {
      ChainTrip(e);
    } else {
      assert Print(e, p) == Print(e, p + 1);
      Trip(e, p + 1);
      ChainStarts(Print(e, p), e, p);
    }
  }

  lemma {:induction false} PrimaryTrip(e: Expr, stop: nat)
    requires Printable(e) && Level(e) in {0, 7} && stop == (if e.If? then 0 else 7)
    ensures Reads(PrintBare(e), e, 7, stop)
    decreases e, 3
  {
    if IsForm(e) {
      FormTrip(e);
    } else if e.If? {
      IfTrip(e);
    } else if e.Call? {
      ArgumentsTrip(e.args);
      CallReads(e, e.callee, e.args, PrintArgs(e.args));
    } else if IsPath(e) {
      PathTrip(e);
      PathEnds(PrintBare(e), Root(e), e);
    } else {
      LiteralReads(PrintBare(e)[0], e);
    }
  }

  lemma {:induction false} IfTrip(e: Expr)
    requires Printable(e) && e.If?
    ensures Reads(PrintBare(e), e, 7, 0)
    decreases e, 2
  {
    Trip(e.cond, 0);
    Trip(e.yes, 0);
    Trip(e.no, 0);
    FirstToken(e.cond, 0);
    FirstToken(e.yes, 0);
    FirstToken(e.no, 0);
    IfReads(e, Print(e.cond, 0), Print(e.yes, 0), Print(e.no, 0));
  }

  function Root(e: Expr): string
    requires IsPath(e)
  {
    if e.Ident? then e.name else Root(e.base)
  }

  lemma {:induction false} PathTrip(e: Expr)
    requires Printable(e) && IsPath(e)
    ensures PathReads(PrintBare(e), Root(e), e) && !Reserved(Root(e))
    decreases e
  {
    if e.Ident? {
      PathStarts(e.name);
    } else {
      PathTrip(e.base);
      PathGrows(PrintBare(e.base), Root(e), e.base, e.field);
      assert PrintBare(e) == PrintBare(e.base) + [Dot] + [TIdent(e.field)];
    }
  }

  lemma {:induction false} ArgumentsTrip(es: seq<Expr>)
    requires forall i | 0 <= i < |es| :: Printable(es[i])
    ensures ArgumentsRead(PrintArgs(es), es)
    decreases es, 2
  {
    if es != [] {
      MoreTrip(es);
      FirstToken(es[0], 0);
    }
  }

  lemma {:induction false} MoreTrip(es: seq<Expr>)
    requires es != [] && forall i | 0 <= i < |es| :: Printable(es[i])
    ensures MoreRead(PrintArgs(es), es)
    decreases es, 1
  {
    ArgumentReads(es);
    if |es| == 1 {
      OneArgument(Print(es[0], 0), es[0]);
      assert es == [es[0]];
    } else {
      MoreTrip(es[1..]);
      ArgumentsGrow(es, Print(es[0], 0), PrintArgs(es[1..]));
    }
  }

  lemma {:induction false} ArgumentReads(es: seq<Expr>)
    requires es != [] && Printable(es[0])
    ensures Reads(Print(es[0], 0), es[0], 0, 0)
    decreases es, 0
  {
    Trip(es[0], 0);
  }

  // ----- named forms -----

  lemma {:induction false} FormTrip(e: Expr)
    requires Printable(e) && IsForm(e)
    ensures Reads(PrintBare(e), e, 7, 7)
    decreases e, 2
  {
    assert PrintBare(e) == PrintForm(e);
    if IsBuiltin(e) {
      BuiltinTrip(e);
    } else if e.Prim? {
      Trip(e.arg0, 0);
      Trip(e.arg1, 0);
      PairReads(e, Print(e.arg0, 0), Print(e.arg1, 0));
    } else if e.Concat? {
      ArgumentsTrip(e.args);
      CallReads(e, "concat", e.args, PrintArgs(e.args));
    } else if e.Construct? {
      FieldsTrip(e.inits);
      ConstructReads(e, PrintFields(e.inits));
    } else {
      Trip(e.scrutinee, 0);
      ArmsTrip(e.arms);
      MatchReads(e, Print(e.scrutinee, 0), PrintArms(e.arms));
    }
  }

  lemma {:induction false} BuiltinTrip(e: Expr)
    requires Printable(e) && IsBuiltin(e)
    ensures Reads(PrintBuiltin(e), e, 7, 7)
    decreases e, 1
  {
    OperandTrips(e, PrintOperands(e));
    BuiltinRead(e, PrintOperands(e));
  }

  lemma {:induction false} OperandTrips(e: Expr, ps: seq<seq<Token>>)
    requires Printable(e) && IsBuiltin(e) && ps == PrintOperands(e)
    ensures AllRead(ps, Children(e))
    decreases e, 0
  {
    BuiltinOperands(e);
    forall i | 0 <= i < |ps|
      ensures Reads(ps[i], Children(e)[i], 0, 0)
    {
      Trip(Children(e)[i], 0);
    }
  }

  lemma {:induction false} FieldsTrip(fs: seq<FieldInit>)
    requires forall i | 0 <= i < |fs| :: Printable(fs[i].value)
    ensures FieldsRead(PrintFields(fs), fs)
    decreases fs, 1
  {
    if fs == [] {
      NoFields();
    } else {
      FieldReads(fs);
      FieldsTrip(fs[1..]);
      OneField(fs, Print(fs[0].value, 0), PrintFields(fs[1..]));
    }
  }

  lemma {:induction false} FieldReads(fs: seq<FieldInit>)
    requires fs != [] && Printable(fs[0].value)
    ensures Reads(Print(fs[0].value, 0), fs[0].value, 0, 0)
    decreases fs, 0
  {
    Trip(fs[0].value, 0);
  }

  lemma {:induction false} ArmsTrip(arms: seq<Arm>)
    requires forall i | 0 <= i < |arms| :: PrintableArm(arms[i])
    ensures ArmsRead(PrintArms(arms), arms)
    decreases arms, 1
  {
    if arms == [] {
      NoArms();
    } else {
      assert PrintableArm(arms[0]);
      ArmReads(arms);
      ArmsTrip(arms[1..]);
      OneArmRead(arms, Print(arms[0].body, 0), PrintArms(arms[1..]));
    }
  }

  lemma {:induction false} ArmReads(arms: seq<Arm>)
    requires arms != [] && PrintableArm(arms[0])
    ensures Reads(Print(arms[0].body, 0), arms[0].body, 0, 0)
    decreases arms, 0
  {
    Trip(arms[0].body, 0);
  }

  // ----- a printed expression on its own -----

  lemma {:induction false} PrintNoEof(e: Expr, level: nat)
    requires Printable(e)
    ensures Eof !in Print(e, level)
    decreases e, 3
  {
    BareNoEof(e);
  }

  lemma {:induction false} BareNoEof(e: Expr)
    requires Printable(e)
    ensures Eof !in PrintBare(e)
    decreases e, 2
  {
    if IsForm(e) {
      FormNoEof(e);
    } else {
      match e
      case Field(b, _) => BareNoEof(b);
      case Binary(op, a, b) =>
        PrintNoEof(a, LeftLevel(op));
        PrintNoEof(b, RightLevel(op));
      case Unary(_, a) => PrintNoEof(a, 6);
      case If(q, a, b) =>
        PrintNoEof(q, 0);
        PrintNoEof(a, 0);
        PrintNoEof(b, 0);
      case Call(_, args) => ArgsNoEof(args);
      case _ =>
    }
  }

  lemma {:induction false} FormNoEof(e: Expr)
    requires Printable(e) && IsForm(e)
    ensures Eof !in PrintForm(e)
    decreases e, 1, 1
  {
    if IsBuiltin(e) {
      BuiltinNoEof(e);
    } else if e.Prim? {
      PairNoEof(e);
    } else if e.Concat? {
      ArgsNoEof(e.args);
    } else if e.Construct? {
      FieldsNoEof(e.inits);
    } else {
      MatchNoEof(e);
    }
  }

  lemma {:induction false} BuiltinNoEof(e: Expr)
    requires Printable(e) && IsBuiltin(e)
    ensures Eof !in PrintForm(e)
    decreases e, 1, 0
  {
    OperandsNoEof(e, PrintOperands(e));
    ParsingProductions.BuiltinNoEof(e, PrintOperands(e));
    assert PrintForm(e) == PrintBuiltin(e);
  }

  lemma {:induction false} PairNoEof(e: Expr)
    requires Printable(e) && e.Prim? && !IsBuiltin(e)
    ensures Eof !in PrintForm(e)
    decreases e, 1, 0
  {
    PrintNoEof(e.arg0, 0);
    PrintNoEof(e.arg1, 0);
    assert Eof !in PairTokens(PrimName(e.pop), Print(e.arg0, 0), Print(e.arg1, 0));
  }

  lemma {:induction false} MatchNoEof(e: Expr)
    requires Printable(e) && e.MatchVariant?
    ensures Eof !in PrintForm(e)
    decreases e, 1, 0
  {
    PrintNoEof(e.scrutinee, 0);
    ArmsNoEof(e.arms);
    assert Eof !in MatchTokens(Print(e.scrutinee, 0), PrintArms(e.arms));
  }

  lemma {:induction false} OperandsNoEof(e: Expr, ps: seq<seq<Token>>)
    requires Printable(e) && IsBuiltin(e) && ps == PrintOperands(e)
    ensures forall i | 0 <= i < |ps| :: Eof !in ps[i]
    decreases e, 0
  {
    BuiltinOperands(e);
    forall i | 0 <= i < |ps|
      ensures Eof !in ps[i]
    {
      PrintNoEof(Children(e)[i], 0);
    }
  }

  lemma {:induction false} FieldsNoEof(fs: seq<FieldInit>)
    requires forall i | 0 <= i < |fs| :: Printable(fs[i].value)
    ensures Eof !in PrintFields(fs)
    decreases fs, 0
  {
    if fs != [] {
      PrintNoEof(fs[0].value, 0);
      FieldsNoEof(fs[1..]);
    }
  }

  lemma {:induction false} BindersNoEof(bs: seq<Option<string>>)
    requires bs != []
    ensures Eof !in BinderList(bs)
    decreases |bs|
  {
    if |bs| > 1 {
      BindersNoEof(bs[1..]);
    }
  }

  lemma {:induction false} ArmsNoEof(arms: seq<Arm>)
    requires forall i | 0 <= i < |arms| :: PrintableArm(arms[i])
    ensures Eof !in PrintArms(arms)
    decreases arms, 0
  {
    if arms != [] {
      if arms[0].binders != [] {
        BindersNoEof(arms[0].binders);
      }
      PrintNoEof(arms[0].body, 0);
      ArmsNoEof(arms[1..]);
    }
  }

  lemma {:induction false} ArgsNoEof(es: seq<Expr>)
    requires forall i | 0 <= i < |es| :: Printable(es[i])
    ensures Eof !in PrintArgs(es)
    decreases es, 0
  {
    if es != [] {
      PrintNoEof(es[0], 0);
      ArgsNoEof(es[1..]);
    }
  }

  lemma Alone(ps: seq<Token>, ts: seq<Token>)
    requires Eof !in ps && ts == ps + [Eof]
    ensures Stream(ts) && Stands(ts, 0, ps) && ts[|ps|] == Eof
  {
  }

  /** Every printable expression, printed with the parentheses its precedence
      needs, parses back to itself. */
  lemma PrintParse(e: Expr, ts: seq<Token>)
    requires Printable(e) && ts == Print(e, 0) + [Eof]
    ensures Stream(ts) && Parse(ts, 0, 0) == Done(e, |Print(e, 0)|)
  {
    PrintNoEof(e, 0);
    Alone(Print(e, 0), ts);
    Trip(e, 0);
    Part(ts, 0, Print(e, 0), e, 0, 0, |Print(e, 0)|);
  }
}
