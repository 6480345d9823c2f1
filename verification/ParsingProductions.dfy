/** What each builtin looks like, and that its production reads it so. */
module ParsingProductions {
  import opened Int64
  import opened Ast
  import opened Tokens
  import opened Parsing
  import opened ParsingForms
  import opened ParsingShapes

  /** How each builtin is written, after its name; the table of productions is
      not used. */
  function BuiltinTokens(e: Expr, ps: seq<seq<Token>>): seq<Token>
    requires IsBuiltin(e) && |ps| == |Children(e)|
  {
    match e
    case Unary(_, _) => [LParen] + ps[0] + [RParen]
    case Prim(_, _, _) => [LParen] + ps[0] + [Comma] + ps[1] + [RParen]
    case TryByteAt(_, _) => [LParen] + ps[0] + [Comma] + ps[1] + [RParen]
    case Substring(_, _, _) => [LParen] + ps[0] + [Comma] + ps[1] + [Comma] + ps[2] + [RParen]
    case Quantifier(_, _, x, _) => [LParen] + ps[0] + [Comma, TIdent(x), FatArrow] + ps[1] + [RParen]
    case Collect(_, _, x, _) => [LParen] + ps[0] + [Comma, TIdent(x), FatArrow] + ps[1] + [RParen]
    case Fold(_, _, acc, x, _) =>
      [LParen] + ps[0] + [Comma] + ps[1] + [Comma, TIdent(acc), Comma, TIdent(x), FatArrow] + ps[2] + [RParen]
    case FoldBytes(_, _, acc, x, n, _) =>
      [LParen] + ps[0] + [Comma] + ps[1] + [Comma, TIdent(acc), Comma, TIdent(x), Comma, TIdent(n), FatArrow]
      + ps[2] + [RParen]
    case MatchResult(_, x, _, y, _) =>
      [LParen] + ps[0] + [Comma, TIdent(x), FatArrow] + ps[1] + [Comma, TIdent(y), FatArrow] + ps[2] + [RParen]
  }

  // ----- from the end of a production to its start -----

  lemma TokenCons(t: Token, ps: seq<Token>, items: seq<Item>, parts: Parts)
    requires ItemsRead(ps, items, parts)
    ensures ItemsRead([t] + ps, [Tok(t)] + items, parts)
  {
    assert ([Tok(t)] + items)[1..] == items;
    TokenItem(t, ps, [Tok(t)] + items, parts);
  }

  lemma NameCons(x: string, ps: seq<Token>, items: seq<Item>, es: seq<Expr>, xs: seq<string>)
    requires ItemsRead(ps, items, Parts(es, xs))
    ensures ItemsRead([TIdent(x)] + ps, [Id] + items, Parts(es, [x] + xs))
  {
    assert ([Id] + items)[1..] == items && ([x] + xs)[1..] == xs;
    NameItem(ps, [Id] + items, es, [x] + xs);
  }

  lemma ExprCons(p: seq<Token>, e: Expr, ps: seq<Token>, items: seq<Item>, es: seq<Expr>, xs: seq<string>)
    requires Reads(p, e, 0, 0) && ItemsRead(ps, items, Parts(es, xs)) && ps != [] && (ps[0] == Comma || ps[0] == RParen)
    ensures ItemsRead(p + ps, [Ex] + items, Parts([e] + es, xs))
  {
    assert ([Ex] + items)[1..] == items && ([e] + es)[1..] == es;
    ExprItem(p, ps, [Ex] + items, [e] + es, xs);
  }

  /** `p)`. */
  lemma LastRead(p: seq<Token>, e: Expr)
    requires Reads(p, e, 0, 0)
    ensures ItemsRead(p + [RParen], [Ex, Tok(RParen)], Parts([e], []))
  {
    NoItems();
    TokenCons(RParen, [], [], Parts([], []));
    assert [RParen] + [] == [RParen] && [Tok(RParen)] + [] == [Tok(RParen)];
    ExprCons(p, e, [RParen], [Tok(RParen)], [], []);
    assert [Ex] + [Tok(RParen)] == [Ex, Tok(RParen)] && [e] + [] == [e];
  }

  /** `p, rest`. */
  lemma OperandRead(p: seq<Token>, e: Expr, ps: seq<Token>, items: seq<Item>, es: seq<Expr>, xs: seq<string>)
    requires Reads(p, e, 0, 0) && ItemsRead(ps, items, Parts(es, xs))
    ensures ItemsRead(p + [Comma] + ps, [Ex, Tok(Comma)] + items, Parts([e] + es, xs))
  {
    TokenCons(Comma, ps, items, Parts(es, xs));
    ExprCons(p, e, [Comma] + ps, [Tok(Comma)] + items, es, xs);
    assert p + ([Comma] + ps) == p + [Comma] + ps;
    assert [Ex] + ([Tok(Comma)] + items) == [Ex, Tok(Comma)] + items;
  }

  /** `x, rest` or `x => rest`. */
  lemma BinderRead(x: string, t: Token, ps: seq<Token>, items: seq<Item>, es: seq<Expr>, xs: seq<string>)
    requires ItemsRead(ps, items, Parts(es, xs))
    ensures ItemsRead([TIdent(x), t] + ps, [Id, Tok(t)] + items, Parts(es, [x] + xs))
  {
    TokenCons(t, ps, items, Parts(es, xs));
    NameCons(x, [t] + ps, [Tok(t)] + items, es, xs);
    assert [TIdent(x)] + ([t] + ps) == [TIdent(x), t] + ps;
    assert [Id] + ([Tok(t)] + items) == [Id, Tok(t)] + items;
  }

  /** `x => p)`. */
  lemma LambdaRead(x: string, p: seq<Token>, e: Expr)
    requires Reads(p, e, 0, 0)
    ensures ItemsRead([TIdent(x), FatArrow] + (p + [RParen]), [Id, Tok(FatArrow)] + [Ex, Tok(RParen)], Parts([e], [x]))
  {
    LastRead(p, e);
    BinderRead(x, FatArrow, p + [RParen], [Ex, Tok(RParen)], [e], []);
    assert [x] + [] == [x];
  }

  // ----- the seven shapes -----

  ghost predicate AllRead(ps: seq<seq<Token>>, es: seq<Expr>) {
    |ps| == |es| && forall i | 0 <= i < |ps| :: Reads(ps[i], es[i], 0, 0)
  }

  lemma OneRead(ps: seq<seq<Token>>, es: seq<Expr>)
    requires AllRead(ps, es) && |ps| == 1
    ensures ItemsRead([LParen] + ps[0] + [RParen], Parens, Parts(es, []))
  {
    LastRead(ps[0], es[0]);
    TokenCons(LParen, ps[0] + [RParen], [Ex, Tok(RParen)], Parts([es[0]], []));
    assert [Tok(LParen)] + [Ex, Tok(RParen)] == Parens && [es[0]] == es;
    assert [LParen] + (ps[0] + [RParen]) == [LParen] + ps[0] + [RParen];
  }

  lemma TwoRead(ps: seq<seq<Token>>, es: seq<Expr>)
    requires AllRead(ps, es) && |ps| == 2
    ensures ItemsRead([LParen] + ps[0] + [Comma] + ps[1] + [RParen], Two, Parts(es, []))
  {
    var w, items := ps[1] + [RParen], [Ex, Tok(RParen)];
    LastRead(ps[1], es[1]);
    OperandRead(ps[0], es[0], w, items, [es[1]], []);
    assert [es[0]] + [es[1]] == es;
    TokenCons(LParen, ps[0] + [Comma] + w, [Ex, Tok(Comma)] + items, Parts(es, []));
    assert [Tok(LParen)] + ([Ex, Tok(Comma)] + items) == Two;
    assert [LParen] + (ps[0] + [Comma] + w) == [LParen] + ps[0] + [Comma] + ps[1] + [RParen];
  }

  lemma ThreeRead(ps: seq<seq<Token>>, es: seq<Expr>)
    requires AllRead(ps, es) && |ps| == 3
    ensures ItemsRead([LParen] + ps[0] + [Comma] + ps[1] + [Comma] + ps[2] + [RParen], Three, Parts(es, []))
  {
    var w, items := ps[2] + [RParen], [Ex, Tok(RParen)];
    LastRead(ps[2], es[2]);
    TwoThenRead(ps, es, w, items, []);
    assert [Tok(LParen)] + ([Ex, Tok(Comma)] + ([Ex, Tok(Comma)] + items)) == Three;
    assert [LParen] + (ps[0] + [Comma] + (ps[1] + [Comma] + w)) ==
      [LParen] + ps[0] + [Comma] + ps[1] + [Comma] + ps[2] + [RParen];
  }

  /** `(p, q, rest`, where the rest holds the third operand. */
  lemma TwoThenRead(ps: seq<seq<Token>>, es: seq<Expr>, w: seq<Token>, items: seq<Item>, xs: seq<string>)
    requires AllRead(ps, es) && |ps| == 3 && ItemsRead(w, items, Parts([es[2]], xs))
    ensures ItemsRead([LParen] + (ps[0] + [Comma] + (ps[1] + [Comma] + w)),
      [Tok(LParen)] + ([Ex, Tok(Comma)] + ([Ex, Tok(Comma)] + items)), Parts(es, xs))
  {
    OperandRead(ps[1], es[1], w, items, [es[2]], xs);
    OperandRead(ps[0], es[0], ps[1] + [Comma] + w, [Ex, Tok(Comma)] + items, [es[1]] + [es[2]], xs);
    assert [es[0]] + ([es[1]] + [es[2]]) == es;
    TokenCons(LParen, ps[0] + [Comma] + (ps[1] + [Comma] + w), [Ex, Tok(Comma)] + ([Ex, Tok(Comma)] + items),
      Parts(es, xs));
  }

  lemma LambdaFormRead(ps: seq<seq<Token>>, es: seq<Expr>, x: string)
    requires AllRead(ps, es) && |ps| == 2
    ensures ItemsRead([LParen] + ps[0] + [Comma, TIdent(x), FatArrow] + ps[1] + [RParen], Lambda, Parts(es, [x]))
  {
    var w, items := [TIdent(x), FatArrow] + (ps[1] + [RParen]), [Id, Tok(FatArrow)] + [Ex, Tok(RParen)];
    LambdaRead(x, ps[1], es[1]);
    OperandRead(ps[0], es[0], w, items, [es[1]], [x]);
    assert [es[0]] + [es[1]] == es;
    TokenCons(LParen, ps[0] + [Comma] + w, [Ex, Tok(Comma)] + items, Parts(es, [x]));
    assert [Tok(LParen)] + ([Ex, Tok(Comma)] + items) == Lambda;
    assert [LParen] + (ps[0] + [Comma] + w) == [LParen] + ps[0] + [Comma, TIdent(x), FatArrow] + ps[1] + [RParen];
  }

  lemma FoldFormRead(ps: seq<seq<Token>>, es: seq<Expr>, acc: string, x: string)
    requires AllRead(ps, es) && |ps| == 3
    ensures ItemsRead([LParen] + ps[0] + [Comma] + ps[1] + [Comma, TIdent(acc), Comma, TIdent(x), FatArrow] + ps[2]
      + [RParen], FoldItems, Parts(es, [acc, x]))
  {
    var v, items := [TIdent(x), FatArrow] + (ps[2] + [RParen]), [Id, Tok(FatArrow)] + [Ex, Tok(RParen)];
    LambdaRead(x, ps[2], es[2]);
    BinderRead(acc, Comma, v, items, [es[2]], [x]);
    assert [acc] + [x] == [acc, x];
    var w := [TIdent(acc), Comma] + v;
    TwoThenRead(ps, es, w, [Id, Tok(Comma)] + items, [acc, x]);
    assert [Tok(LParen)] + ([Ex, Tok(Comma)] + ([Ex, Tok(Comma)] + ([Id, Tok(Comma)] + items))) == FoldItems;
    assert [LParen] + (ps[0] + [Comma] + (ps[1] + [Comma] + w)) ==
      [LParen] + ps[0] + [Comma] + ps[1] + [Comma, TIdent(acc), Comma, TIdent(x), FatArrow] + ps[2] + [RParen];
  }

  lemma FoldBytesFormRead(ps: seq<seq<Token>>, es: seq<Expr>, acc: string, x: string, n: string)
    requires AllRead(ps, es) && |ps| == 3
    ensures ItemsRead([LParen] + ps[0] + [Comma] + ps[1] + [Comma, TIdent(acc), Comma, TIdent(x), Comma, TIdent(n),
      FatArrow] + ps[2] + [RParen], FoldBytesItems, Parts(es, [acc, x, n]))
  {
    var u, items := [TIdent(n), FatArrow] + (ps[2] + [RParen]), [Id, Tok(FatArrow)] + [Ex, Tok(RParen)];
    LambdaRead(n, ps[2], es[2]);
    BinderRead(x, Comma, u, items, [es[2]], [n]);
    var v, more := [TIdent(x), Comma] + u, [Id, Tok(Comma)] + items;
    BinderRead(acc, Comma, v, more, [es[2]], [x] + [n]);
    assert [acc] + ([x] + [n]) == [acc, x, n];
    var w := [TIdent(acc), Comma] + v;
    TwoThenRead(ps, es, w, [Id, Tok(Comma)] + more, [acc, x, n]);
    assert [Tok(LParen)] + ([Ex, Tok(Comma)] + ([Ex, Tok(Comma)] + ([Id, Tok(Comma)] + more))) == FoldBytesItems;
    assert [LParen] + (ps[0] + [Comma] + (ps[1] + [Comma] + w)) ==
      [LParen] + ps[0] + [Comma] + ps[1] + [Comma, TIdent(acc), Comma, TIdent(x), Comma, TIdent(n), FatArrow]
      + ps[2] + [RParen];
  }

  lemma MatchFormRead(ps: seq<seq<Token>>, es: seq<Expr>, x: string, y: string)
    requires AllRead(ps, es) && |ps| == 3
    ensures ItemsRead([LParen] + ps[0] + [Comma, TIdent(x), FatArrow] + ps[1] + [Comma, TIdent(y), FatArrow] + ps[2]
      + [RParen], MatchItems, Parts(es, [x, y]))
  {
    var u, items := [TIdent(y), FatArrow] + (ps[2] + [RParen]), [Id, Tok(FatArrow)] + [Ex, Tok(RParen)];
    LambdaRead(y, ps[2], es[2]);
    OperandRead(ps[1], es[1], u, items, [es[2]], [y]);
    var v, more := ps[1] + [Comma] + u, [Ex, Tok(Comma)] + items;
    BinderRead(x, FatArrow, v, more, [es[1]] + [es[2]], [y]);
    assert [x] + [y] == [x, y];
    var w, most := [TIdent(x), FatArrow] + v, [Id, Tok(FatArrow)] + more;
    OperandRead(ps[0], es[0], w, most, [es[1]] + [es[2]], [x, y]);
    assert [es[0]] + ([es[1]] + [es[2]]) == es;
    TokenCons(LParen, ps[0] + [Comma] + w, [Ex, Tok(Comma)] + most, Parts(es, [x, y]));
    assert [Tok(LParen)] + ([Ex, Tok(Comma)] + most) == MatchItems;
    assert [LParen] + (ps[0] + [Comma] + w) ==
      [LParen] + ps[0] + [Comma, TIdent(x), FatArrow] + ps[1] + [Comma, TIdent(y), FatArrow] + ps[2] + [RParen];
  }

  // ----- every builtin -----

  /** The production of the builtin reads what is written for it. */
  ghost predicate WrittenReads(e: Expr, ps: seq<seq<Token>>)
    requires IsBuiltin(e) && |ps| == |Children(e)|
  {
    ReadsBack(e) && ItemsRead(BuiltinTokens(e, ps), Production(BuiltinName(e)).value, Parts(Children(e), Ids(e)))
  }

  lemma OperandsRead(e: Expr, ps: seq<seq<Token>>)
    requires IsBuiltin(e) && (e.Unary? || e.Prim? || e.TryByteAt? || e.Substring?) && AllRead(ps, Children(e))
    ensures WrittenReads(e, ps)
  {
    ReadBack(e);
    if e.Unary? {
      UnaryShape(e);
      OneRead(ps, Children(e));
    } else if e.Substring? {
      assert OwnName("substring");
      ThreeRead(ps, Children(e));
    } else {
      PairShape(e);
      TwoRead(ps, Children(e));
    }
  }

  lemma UnaryShape(e: Expr)
    requires IsBuiltin(e) && e.Unary?
    ensures Production(BuiltinName(e)) == Some(Parens)
  {
    assert UnaryOf(UnaryName(e.uop)) == Some(e.uop);
  }

  lemma PairShape(e: Expr)
    requires IsBuiltin(e) && (e.Prim? || e.TryByteAt?)
    ensures Production(BuiltinName(e)) == Some(Two)
  {
    if e.Prim? {
      assert UnaryOf(PrimName(e.pop)) == None && PrimOf(PrimName(e.pop)) == Some(e.pop);
    } else {
      assert OwnName("try_byte_at");
    }
  }

  lemma BindersRead(e: Expr, ps: seq<seq<Token>>)
    requires (e.Quantifier? || e.Collect? || e.Fold? || e.FoldBytes? || e.MatchResult?) && AllRead(ps, Children(e))
    ensures WrittenReads(e, ps)
  {
    ReadBack(e);
    match e
    case Fold(_, _, acc, x, _) =>
      FoldProduction();
      FoldFormRead(ps, Children(e), acc, x);
    case FoldBytes(_, _, acc, x, n, _) =>
      FoldBytesProduction();
      FoldBytesFormRead(ps, Children(e), acc, x, n);
    case MatchResult(_, x, _, y, _) =>
      MatchProduction();
      MatchFormRead(ps, Children(e), x, y);
    case Quantifier(_, _, x, _) =>
      LambdaShape(e);
      LambdaFormRead(ps, Children(e), x);
    case Collect(_, _, x, _) =>
      LambdaShape(e);
      LambdaFormRead(ps, Children(e), x);
  }

  lemma LambdaShape(e: Expr)
    requires e.Quantifier? || e.Collect?
    ensures Production(BuiltinName(e)) == Some(Lambda)
  {
    assert OwnName(BuiltinName(e));
  }

  /** Whatever reads the operands, the written builtin is read as itself. */
  lemma BuiltinRead(e: Expr, ps: seq<seq<Token>>)
    requires IsBuiltin(e) && AllRead(ps, Children(e))
    ensures Reads([TIdent(BuiltinName(e))] + BuiltinTokens(e, ps), e, 7, 7)
  {
    if e.Unary? || e.Prim? || e.TryByteAt? || e.Substring? {
      OperandsRead(e, ps);
    } else {
      BindersRead(e, ps);
    }
    assert BuiltinTokens(e, ps)[0] == LParen;
    BuiltinReads(e, BuiltinName(e), BuiltinTokens(e, ps), Parts(Children(e), Ids(e)));
  }

  lemma BuiltinNoEof(e: Expr, ps: seq<seq<Token>>)
    requires IsBuiltin(e) && |ps| == |Children(e)| && forall i | 0 <= i < |ps| :: Eof !in ps[i]
    ensures Eof !in BuiltinTokens(e, ps)
  {
    if e.Unary? || e.Prim? || e.TryByteAt? || e.Substring? {
    } else if e.Quantifier? || e.Collect? {
    } else {
      BlocksNoEof(e, ps);
    }
  }

  lemma BlocksNoEof(e: Expr, ps: seq<seq<Token>>)
    requires (e.Fold? || e.FoldBytes? || e.MatchResult?) && |ps| == 3 && forall i | 0 <= i < |ps| :: Eof !in ps[i]
    ensures Eof !in BuiltinTokens(e, ps)
  {
    assert Eof !in ps[0] && Eof !in ps[1] && Eof !in ps[2];
  }
}
