/** What the parser returns can be printed: only the seed of a max fold, the
    least number, has no literal. */
module ParsingImage {
  import opened Int64
  import opened Ast
  import opened Tokens
  import opened FoldSugar
  import opened Parsing
  import opened ParsingForms
  import opened ParsingShapes
  import opened ParsingTrip

  /** The least number occurs in the expression. */
  ghost predicate Seeded(e: Expr)
    decreases e
  {
    e == Number(MIN) || exists c | c in Children(e) :: Seeded(c)
  }

  ghost predicate Shows(e: Expr) { Printable(e) || Seeded(e) }

  ghost predicate ShowsAll(es: seq<Expr>) { forall i | 0 <= i < |es| :: Shows(es[i]) }

  ghost predicate PrintableAll(es: seq<Expr>) { forall i | 0 <= i < |es| :: Printable(es[i]) }

  /** A node shows when its parts do. */
  lemma Lift(e: Expr)
    requires ShowsAll(Children(e)) && (PrintableAll(Children(e)) ==> Printable(e))
    ensures Shows(e)
  {
    if !PrintableAll(Children(e)) {
      var i :| 0 <= i < |Children(e)| && !Printable(Children(e)[i]);
      assert Children(e)[i] in Children(e) && Seeded(Children(e)[i]);
    }
  }

  lemma BinaryShows(op: BinOp, a: Expr, b: Expr)
    requires Shows(a) && Shows(b)
    ensures Shows(Binary(op, a, b))
  {
    var e := Binary(op, a, b);
    assert PrintableAll(Children(e)) ==> Printable(Children(e)[0]) && Printable(Children(e)[1]);
    Lift(e);
  }

  lemma UnaryShows(op: UnOp, a: Expr)
    requires Shows(a)
    ensures Shows(Unary(op, a))
  {
    var e := Unary(op, a);
    assert PrintableAll(Children(e)) ==> Printable(Children(e)[0]);
    Lift(e);
  }

  lemma IfShows(q: Expr, a: Expr, b: Expr)
    requires Shows(q) && Shows(a) && Shows(b)
    ensures Shows(If(q, a, b))
  {
    var e := If(q, a, b);
    assert PrintableAll(Children(e)) ==>
      Printable(Children(e)[0]) && Printable(Children(e)[1]) && Printable(Children(e)[2]);
    Lift(e);
  }

  lemma PairShows(op: PrimOp, a: Expr, b: Expr)
    requires Shows(a) && Shows(b)
    ensures Shows(Prim(op, a, b))
  {
    var e := Prim(op, a, b);
    assert PrintableAll(Children(e)) ==> Printable(Children(e)[0]) && Printable(Children(e)[1]);
    Lift(e);
  }

  lemma FoldShows(t: Expr, i: Expr, acc: string, x: string, b: Expr)
    requires Shows(t) && Shows(i) && Shows(b)
    ensures Shows(Fold(t, i, acc, x, b))
  {
    var e := Fold(t, i, acc, x, b);
    assert Children(e) == [t, i, b];
    Lift(e);
  }

  lemma AggregateShows(g: Aggregate, t: Expr, x: string, b: Expr)
    requires Shows(t) && Shows(b)
    ensures Shows(Desugar(g, t, x, b))
  {
    StepShows(g, b);
    assert Shows(Number(Initial(g)));
    FoldShows(t, Number(Initial(g)), ACC, x, FoldBody(g, b));
  }

  lemma StepShows(g: Aggregate, b: Expr)
    requires Shows(b)
    ensures Shows(FoldBody(g, b))
  {
    var acc := Ident(ACC);
    assert Printable(acc) && Printable(Number(0)) && Printable(Number(1));
    if g.SumOf? {
      BinaryShows(Add, acc, b);
    } else if g.CountOf? {
      IfShows(b, Number(1), Number(0));
      BinaryShows(Add, acc, If(b, Number(1), Number(0)));
    } else {
      var op := if g.MinOf? then Lt else Gt;
      BinaryShows(op, b, acc);
      IfShows(Binary(op, b, acc), b, acc);
    }
  }

  /** A builtin built from parts that show. */
  lemma BuildShows(name: string, p: Parts)
    requires ShowsAll(p.exprs) && Build(name, p).Some?
    ensures Shows(Build(name, p).value)
  {
    var e := Build(name, p).value;
    BuildParts(name, p);
    if PrintableAll(Children(e)) {
      BuiltPrintable(e);
    }
    Lift(e);
  }

  lemma BuildParts(name: string, p: Parts)
    requires Build(name, p).Some?
    ensures var e := Build(name, p).value; Children(e) == p.exprs && (IsBuiltin(e) || e.Unary? || e.Prim?)
  {
  }

  lemma BuiltPrintable(e: Expr)
    requires PrintableAll(Children(e)) && (IsBuiltin(e) || e.Unary? || e.Prim?)
    ensures Printable(e)
  {
    if e.Unary? {
      assert Printable(Children(e)[0]);
    } else if e.Prim? {
      assert Printable(Children(e)[0]) && Printable(Children(e)[1]);
    }
  }

  lemma CallShows(name: string, es: seq<Expr>)
    requires ShowsAll(es) && PlainCall(name)
    ensures Shows(Call(name, es))
  {
    assert Children(Call(name, es)) == es;
    Lift(Call(name, es));
  }

  lemma ConcatShows(es: seq<Expr>)
    requires ShowsAll(es) && es != []
    ensures Shows(Concat(es))
  {
    assert Children(Concat(es)) == es;
    Lift(Concat(es));
  }

  ghost predicate ShowsFields(fs: seq<FieldInit>) { forall i | 0 <= i < |fs| :: Shows(fs[i].value) }

  lemma ConstructShows(name: string, v: Option<string>, fs: seq<FieldInit>)
    requires ShowsFields(fs) && !Reserved(name)
    ensures Shows(Construct(name, v, fs))
  {
    var e := Construct(name, v, fs);
    assert forall i | 0 <= i < |fs| :: Children(e)[i] == fs[i].value;
    Lift(e);
  }

  ghost predicate BindersShow(bs: seq<Option<string>>) { forall b | b in bs :: PrintableBinder(b) }

  ghost predicate ShowsArm(a: Arm) { Shows(a.body) && BindersShow(a.binders) }

  ghost predicate ShowsArms(arms: seq<Arm>) { forall i | 0 <= i < |arms| :: ShowsArm(arms[i]) }

  lemma MatchShows(t: Expr, arms: seq<Arm>)
    requires Shows(t) && ShowsArms(arms)
    ensures Shows(MatchVariant(t, arms))
  {
    var e := MatchVariant(t, arms);
    var cs := Children(e);
    assert cs[0] == t && forall i | 0 <= i < |arms| :: cs[i + 1] == arms[i].body;
    forall i | 0 <= i < |cs|
      ensures Shows(cs[i])
    {
      assert i > 0 ==> ShowsArm(arms[i - 1]);
    }
    if PrintableAll(cs) {
      ArmsPrint(t, arms);
    }
    Lift(e);
  }

  lemma ArmsPrint(t: Expr, arms: seq<Arm>)
    requires PrintableAll(Children(MatchVariant(t, arms))) && ShowsArms(arms)
    ensures Printable(MatchVariant(t, arms))
  {
    var cs := Children(MatchVariant(t, arms));
    assert cs[0] == t;
    forall i | 0 <= i < |arms|
      ensures PrintableArm(arms[i])
    {
      assert ShowsArm(arms[i]) && cs[i + 1] == arms[i].body;
    }
  }

  // ----- the grammar -----

  ghost predicate Shown(r: Parsed<Expr>) { r.Done? ==> Shows(r.value) }

  lemma {:induction false} ParseShows(ts: seq<Token>, i: nat, level: nat)
    requires Stream(ts) && Literals(ts) && i < |ts| && level <= 7 && (level == 7 ==> ts[i] != TIdent("not"))
    ensures Shown(Parse(ts, i, level))
    decreases |ts| - i, 1, 8 - level
  {
    if level == 7 {
      PrimaryShows(ts, i);
    } else if level == 6 {
      if ts[i] == TIdent("not") || ts[i] == Minus {
        PrefixShows(ts, i);
      } else {
        ParseShows(ts, i, 7);
      }
    } else {
      ParseShows(ts, i, level + 1);
      var a := Parse(ts, i, level + 1);
      if level > 0 && a.Done? {
        if level == 3 { CompareShows(ts, a.at, a.value); } else { ChainShows(ts, a.at, level, a.value); }
      }
    }
  }

  lemma {:induction false} PrefixShows(ts: seq<Token>, i: nat)
    requires Stream(ts) && Literals(ts) && i < |ts| && (ts[i] == TIdent("not") || ts[i] == Minus)
    ensures Shown(Parse(ts, i, 6))
    decreases |ts| - i, 0
  {
    ParseShows(ts, i + 1, 6);
    var a := Parse(ts, i + 1, 6);
    if a.Done? {
      UnaryShows(if ts[i] == Minus then Neg else Not, a.value);
    }
  }

  lemma {:induction false} CompareShows(ts: seq<Token>, j: nat, left: Expr)
    requires Stream(ts) && Literals(ts) && j < |ts| && Shows(left)
    ensures Shown(Compare(ts, j, left))
    decreases |ts| - j, 2
  {
    var op := OperatorAt(ts[j], 3);
    if op.Some? {
      ParseShows(ts, j + 1, 4);
      var b := Parse(ts, j + 1, 4);
      if b.Done? { BinaryShows(op.value, left, b.value); }
    }
  }

  lemma {:induction false} ChainShows(ts: seq<Token>, j: nat, level: nat, left: Expr)
    requires Stream(ts) && Literals(ts) && j < |ts| && 1 <= level <= 5 && Shows(left)
    ensures Shown(Chain(ts, j, level, left))
    decreases |ts| - j, 2
  {
    var op := OperatorAt(ts[j], level);
    if op.Some? {
      ParseShows(ts, j + 1, level + 1);
      var b := Parse(ts, j + 1, level + 1);
      if b.Done? {
        BinaryShows(op.value, left, b.value);
        ChainShows(ts, b.at, level, Binary(op.value, left, b.value));
      }
    }
  }

  lemma {:induction false} PrimaryShows(ts: seq<Token>, i: nat)
    requires Stream(ts) && Literals(ts) && i < |ts| && ts[i] != TIdent("not")
    ensures Shown(Primary(ts, i))
    decreases |ts| - i, 0
  {
    if ts[i] == LParen {
      ParseShows(ts, i + 1, 0);
    } else if ts[i].TIdent? {
      if ts[i].name == "if" {
        ConditionalShows(ts, i + 1);
      } else if ts[i].name == "match" {
        MatchingShows(ts, i + 1);
      } else {
        NamedShows(ts, i + 1, ts[i].name);
      }
    }
  }

  lemma {:induction false} MatchingShows(ts: seq<Token>, i: nat)
    requires Stream(ts) && Literals(ts) && i < |ts|
    ensures Shown(Matching(ts, i))
    decreases |ts| - i, 3
  {
    ParseShows(ts, i, 0);
    var s := Parse(ts, i, 0);
    if s.Done? && OpensBlock(ts, s.at) {
      ArmsShow(ts, s.at + 3);
    }
    MatchedShows(ts, i, s);
  }

  /** A colon, a line break and an indentation. */
  predicate OpensBlock(ts: seq<Token>, i: nat) {
    i + 3 < |ts| && ts[i] == Colon && ts[i + 1] == Newline && ts[i + 2] == Indent
  }

  ghost predicate ArmsShown(r: Parsed<seq<Arm>>) { r.Done? ==> ShowsArms(r.value) }

  lemma MatchedShows(ts: seq<Token>, i: nat, s: Parsed<Expr>)
    requires Stream(ts) && i < |ts| && s == Parse(ts, i, 0) && Shown(s)
    requires s.Done? && OpensBlock(ts, s.at) ==> ArmsShown(Arms(ts, s.at + 3))
    ensures Shown(Matching(ts, i))
  {
    var r := Matching(ts, i);
    if r.Done? {
      assert OpensBlock(ts, s.at);
      MatchShows(s.value, Arms(ts, s.at + 3).value);
    }
  }

  lemma {:induction false} ConditionalShows(ts: seq<Token>, i: nat)
    requires Stream(ts) && Literals(ts) && i < |ts|
    ensures Shown(Conditional(ts, i))
    decreases |ts| - i, 3
  {
    var s1 := Skip(ts, i, 0);
    ParseShows(ts, s1.0, 0);
    var q := Parse(ts, s1.0, 0);
    if q.Done? {
      var s2 := Skip(ts, q.at, s1.1);
      if ts[s2.0] == TIdent("then") {
        BranchesShow(ts, s2.0 + 1, s2.1);
        ChosenShows(ts, i, s1, q, s2);
      }
    }
  }

  ghost predicate BranchesShown(r: Parsed<(Expr, Expr)>) { r.Done? ==> Shows(r.value.0) && Shows(r.value.1) }

  lemma ChosenShows(ts: seq<Token>, i: nat, s1: (nat, nat), q: Parsed<Expr>, s2: (nat, nat))
    requires Stream(ts) && i < |ts| && s1 == Skip(ts, i, 0) && q == Parse(ts, s1.0, 0) && q.Done? && Shows(q.value)
    requires s2 == Skip(ts, q.at, s1.1) && ts[s2.0] == TIdent("then") && BranchesShown(Branches(ts, s2.0 + 1, s2.1))
    ensures Shown(Conditional(ts, i))
  {
    var tail := Branches(ts, s2.0 + 1, s2.1);
    ChosenIs(ts, i, s1, q, s2, tail);
    if tail.Done? {
      IfShows(q.value, tail.value.0, tail.value.1);
    }
  }

  lemma ChosenIs(ts: seq<Token>, i: nat, s1: (nat, nat), q: Parsed<Expr>, s2: (nat, nat), tail: Parsed<(Expr, Expr)>)
    requires Stream(ts) && i < |ts| && s1 == Skip(ts, i, 0) && q == Parse(ts, s1.0, 0) && q.Done?
    requires s2 == Skip(ts, q.at, s1.1) && ts[s2.0] == TIdent("then") && tail == Branches(ts, s2.0 + 1, s2.1)
    ensures Conditional(ts, i) == if tail.Done? then Done(If(q.value, tail.value.0, tail.value.1), tail.at) else Fail
  {
  }

  lemma {:induction false} BranchesShow(ts: seq<Token>, i: nat, d: nat)
    requires Stream(ts) && Literals(ts) && i < |ts|
    ensures BranchesShown(Branches(ts, i, d))
    decreases |ts| - i, 3
  {
    var s3 := Skip(ts, i, d);
    ParseShows(ts, s3.0, 0);
    var a := Parse(ts, s3.0, 0);
    if a.Done? {
      var s4 := Skip(ts, a.at, s3.1);
      if ts[s4.0] == TIdent("else") {
        ParseShows(ts, Skip(ts, s4.0 + 1, s4.1).0, 0);
      }
    }
  }

  lemma {:induction false} NamedShows(ts: seq<Token>, i: nat, name: string)
    requires Stream(ts) && Literals(ts) && 0 < i < |ts| && !Reserved(name)
    ensures Shown(Named(ts, i, name))
    decreases |ts| - i, 4
  {
    if ts[i] == DoubleColon {
      VariantShows(ts, i + 1, name);
    } else if ts[i] == LBrace {
      RecordShows(ts, i, name);
    } else if ts[i] == LParen {
      CallOfShows(ts, i, name);
    } else {
      PathShows(ts, i, Ident(name));
    }
  }

  lemma {:induction false} RecordShows(ts: seq<Token>, i: nat, name: string)
    requires Stream(ts) && Literals(ts) && 0 < i < |ts| && ts[i] == LBrace && !Reserved(name)
    ensures Shown(Named(ts, i, name))
    decreases |ts| - i, 3
  {
    FieldsShow(ts, i + 1);
    var fs := Fields(ts, i + 1);
    if fs.Done? { ConstructShows(name, None, fs.value); }
  }

  lemma {:induction false} VariantShows(ts: seq<Token>, i: nat, name: string)
    requires Stream(ts) && Literals(ts) && i < |ts| && !Reserved(name)
    ensures Shown(Variant(ts, i, name))
    decreases |ts| - i, 4
  {
    if ts[i].TIdent? {
      if ts[i + 1] == LBrace {
        FieldsShow(ts, i + 2);
        var fs := Fields(ts, i + 2);
        if fs.Done? { ConstructShows(name, Some(ts[i].name), fs.value); }
      } else {
        ConstructShows(name, Some(ts[i].name), []);
      }
    }
  }

  lemma {:induction false} CallOfShows(ts: seq<Token>, i: nat, name: string)
    requires Stream(ts) && Literals(ts) && i < |ts| && ts[i] == LParen && !Reserved(name)
    ensures Shown(CallOf(ts, i, name))
    decreases |ts| - i, 3
  {
    if AggregateOf(name).Some? {
      AggregationShows(ts, i, AggregateOf(name).value);
    } else if Production(name).Some? {
      ItemsShow(ts, i, Production(name).value);
      var p := Items(ts, i, Production(name).value);
      if p.Done? && Build(name, p.value).Some? { BuildShows(name, p.value); }
    } else if !IsEffect(name) {
      ArgumentsShow(ts, i + 1);
      var args := Arguments(ts, i + 1);
      if args.Done? {
        if name != "concat" {
          CallShows(name, args.value);
        } else if args.value != [] {
          ConcatShows(args.value);
        }
      }
    }
  }

  lemma {:induction false} PathShows(ts: seq<Token>, i: nat, e: Expr)
    requires Stream(ts) && i < |ts| && IsPath(e) && Printable(e)
    ensures Shown(Path(ts, i, e))
    decreases |ts| - i
  {
    if ts[i] == Dot && ts[i + 1].TIdent? {
      PathShows(ts, i + 2, Field(e, ts[i + 1].name));
    }
  }

  lemma {:induction false} ItemsShow(ts: seq<Token>, i: nat, items: seq<Item>)
    requires Stream(ts) && Literals(ts) && i < |ts| && Tok(Eof) !in items
    ensures var r := Items(ts, i, items); r.Done? ==> ShowsAll(r.value.exprs)
    decreases |ts| - i, 2, |items|
  {
    if items != [] {
      if items[0].Ex? {
        ParseShows(ts, i, 0);
        var e := Parse(ts, i, 0);
        if e.Done? {
          ItemsShow(ts, e.at, items[1..]);
          OneMoreShows(ts, i, items, e, Items(ts, e.at, items[1..]));
        }
      } else if (items[0].Tok? && ts[i] == items[0].t) || (items[0].Id? && ts[i].TIdent?) {
        ItemsShow(ts, i + 1, items[1..]);
      }
    }
  }

  lemma OneMoreShows(ts: seq<Token>, i: nat, items: seq<Item>, e: Parsed<Expr>, rest: Parsed<Parts>)
    requires Stream(ts) && i < |ts| && Tok(Eof) !in items && items != [] && items[0].Ex?
    requires e == Parse(ts, i, 0) && e.Done? && Shows(e.value) && rest == Items(ts, e.at, items[1..])
    requires rest.Done? ==> ShowsAll(rest.value.exprs)
    ensures var r := Items(ts, i, items); r.Done? ==> ShowsAll(r.value.exprs)
  {
    assert Items(ts, i, items) ==
      if rest.Fail? then Fail else Done(Parts([e.value] + rest.value.exprs, rest.value.ids), rest.at);
  }

  lemma {:induction false} AggregationShows(ts: seq<Token>, i: nat, g: Aggregate)
    requires Stream(ts) && Literals(ts) && i < |ts| && ts[i] == LParen
    ensures Shown(Aggregation(ts, i, g))
    decreases |ts| - i, 2
  {
    ParseShows(ts, i + 1, 0);
    var c := Parse(ts, i + 1, 0);
    if c.Done? && ts[c.at] == Comma {
      SecondShows(ts, i, g, c);
    } else {
      NoAggregation(ts, i, g, c);
    }
  }

  lemma {:induction false} SecondShows(ts: seq<Token>, i: nat, g: Aggregate, c: Parsed<Expr>)
    requires Stream(ts) && Literals(ts) && i < |ts| && ts[i] == LParen
    requires c == Parse(ts, i + 1, 0) && c.Done? && ts[c.at] == Comma && Shows(c.value)
    ensures Shown(Aggregation(ts, i, g))
    decreases |ts| - i, 1
  {
    ParseShows(ts, c.at + 1, 0);
    LambdaShows(ts, c.at + 1);
    AggregatedShows(ts, i, g, c, Parse(ts, c.at + 1, 0), LambdaTail(ts, c.at + 1));
  }

  lemma NoAggregation(ts: seq<Token>, i: nat, g: Aggregate, c: Parsed<Expr>)
    requires Stream(ts) && i < |ts| && ts[i] == LParen && c == Parse(ts, i + 1, 0) && (c.Done? ==> ts[c.at] != Comma)
    ensures Aggregation(ts, i, g).Fail?
  {
  }

  lemma AggregatedShows(ts: seq<Token>, i: nat, g: Aggregate, c: Parsed<Expr>, second: Parsed<Expr>,
      l: Parsed<(string, Expr)>)
    requires Stream(ts) && i < |ts| && ts[i] == LParen && c == Parse(ts, i + 1, 0) && c.Done? && ts[c.at] == Comma &&
      Shows(c.value)
    requires second == Parse(ts, c.at + 1, 0) && Shown(second)
    requires l == LambdaTail(ts, c.at + 1) && (l.Done? ==> Shows(l.value.1))
    ensures Shown(Aggregation(ts, i, g))
  {
    AggregationCases(ts, i, g, c, second, l);
    if second.Done? {
      PairShows(if g.MinOf? then MinOp else MaxOp, c.value, second.value);
    }
    if l.Done? {
      AggregateShows(g, c.value, l.value.0, l.value.1);
    }
  }

  /** The two forms an aggregation has. */
  lemma AggregationCases(ts: seq<Token>, i: nat, g: Aggregate, c: Parsed<Expr>, second: Parsed<Expr>,
      l: Parsed<(string, Expr)>)
    requires Stream(ts) && i < |ts| && ts[i] == LParen && c == Parse(ts, i + 1, 0) && c.Done? && ts[c.at] == Comma
    requires second == Parse(ts, c.at + 1, 0) && l == LambdaTail(ts, c.at + 1)
    ensures var r := Aggregation(ts, i, g);
      r.Done? ==>
        || (second.Done? && r.value == Prim(if g.MinOf? then MinOp else MaxOp, c.value, second.value))
        || (l.Done? && r.value == Desugar(g, c.value, l.value.0, l.value.1))
  {
  }

  lemma {:induction false} LambdaShows(ts: seq<Token>, i: nat)
    requires Stream(ts) && Literals(ts) && i < |ts|
    ensures var r := LambdaTail(ts, i); r.Done? ==> Shows(r.value.1)
    decreases |ts| - i, 2
  {
    if ts[i].TIdent? && ts[i + 1] == FatArrow { ParseShows(ts, i + 2, 0); }
  }

  lemma {:induction false} ArgumentsShow(ts: seq<Token>, i: nat)
    requires Stream(ts) && Literals(ts) && i < |ts|
    ensures var r := Arguments(ts, i); r.Done? ==> ShowsAll(r.value)
    decreases |ts| - i, 3
  {
    if ts[i] != RParen { MoreArgumentsShow(ts, i); }
  }

  lemma {:induction false} MoreArgumentsShow(ts: seq<Token>, i: nat)
    requires Stream(ts) && Literals(ts) && i < |ts|
    ensures var r := MoreArguments(ts, i); r.Done? ==> ShowsAll(r.value)
    decreases |ts| - i, 2
  {
    ParseShows(ts, i, 0);
    var e := Parse(ts, i, 0);
    if e.Done? && ts[e.at] == Comma { MoreArgumentsShow(ts, e.at + 1); }
  }

  lemma {:induction false} FieldsShow(ts: seq<Token>, i: nat)
    requires Stream(ts) && Literals(ts) && i < |ts|
    ensures var r := Fields(ts, i); r.Done? ==> ShowsFields(r.value)
    decreases |ts| - i, 3
  {
    if ts[i].TIdent? && ts[i + 1] == Colon {
      ParseShows(ts, i + 2, 0);
      var e := Parse(ts, i + 2, 0);
      if e.Done? && ts[e.at] == Comma { FieldsShow(ts, e.at + 1); }
    }
  }

  lemma {:induction false} ArmsShow(ts: seq<Token>, i: nat)
    requires Stream(ts) && Literals(ts) && i < |ts|
    ensures ArmsShown(Arms(ts, i))
    decreases |ts| - i, 4
  {
    if ts[i] == Newline {
      ArmsShow(ts, i + 1);
    } else if ts[i] != Dedent {
      OneArmShows(ts, i);
      var arm := OneArm(ts, i);
      if arm.Done? { ArmsShow(ts, arm.at); }
    }
  }

  lemma {:induction false} OneArmShows(ts: seq<Token>, i: nat)
    requires Stream(ts) && Literals(ts) && i < |ts|
    ensures var r := OneArm(ts, i); r.Done? ==> ShowsArm(r.value)
    decreases |ts| - i, 3
  {
    if ts[i].TIdent? {
      ArmBindersShow(ts, i + 1);
      var bs := ArmBinders(ts, i + 1);
      if bs.Done? && ts[bs.at] == FatArrow { ParseShows(ts, bs.at + 1, 0); }
    }
  }

  lemma ArmBindersShow(ts: seq<Token>, i: nat)
    requires Stream(ts) && i < |ts|
    ensures var r := ArmBinders(ts, i); r.Done? ==> BindersShow(r.value)
  {
    if ts[i] == LParen && ts[i + 1] != RParen { MoreBindersShow(ts, i + 1); }
  }

  lemma {:induction false} MoreBindersShow(ts: seq<Token>, i: nat)
    requires Stream(ts) && i < |ts|
    ensures var r := MoreBinders(ts, i); r.Done? ==> BindersShow(r.value)
    decreases |ts| - i
  {
    if ts[i].TIdent? && ts[i + 1] == Comma { MoreBindersShow(ts, i + 2); }
  }

  /** Whatever the parser returns, unless a max fold is in it, is printed as a
      text that parses to the same expression. */
  lemma ParsePrintParse(ts: seq<Token>, i: nat, us: seq<Token>)
    requires Stream(ts) && Literals(ts) && i < |ts| && Parse(ts, i, 0).Done? && !Seeded(Parse(ts, i, 0).value)
    ensures var e := Parse(ts, i, 0).value;
      Printable(e) && (us == Print(e, 0) + [Eof] ==> Stream(us) && Parse(us, 0, 0) == Done(e, |us| - 1))
  {
    ParseShows(ts, i, 0);
    var e := Parse(ts, i, 0).value;
    if us == Print(e, 0) + [Eof] {
      PrintParse(e, us);
    }
  }
}
