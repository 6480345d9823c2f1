/** From the words sum, count, min and max to what they compute. */
module ParsingAggregates {
  import opened Int64
  import opened Ast
  import opened Tokens
  import opened Interp
  import opened Weakening
  import opened FoldSugar
  import opened Parsing
  import opened ParsingForms
  import opened ParsingShapes
  import opened ParsingTrip

  /** A binder, its arrow and a body. */
  function LambdaTokens(x: string, q: seq<Token>): (ts: seq<Token>)
    ensures |ts| == |q| + 2
  {
    [TIdent(x)] + ([FatArrow] + q)
  }

  /** `word(p, x => q)`. */
  function AggregateTokens(word: string, p: seq<Token>, x: string, q: seq<Token>): (ts: seq<Token>)
    ensures |ts| == |p| + |q| + 6
  {
    PairTokens(word, p, LambdaTokens(x, q))
  }

  /** The four words. */
  function Word(g: Aggregate): string {
    match g
    case SumOf => "sum"
    case CountOf => "count"
    case MinOf => "min"
    case MaxOf => "max"
  }

  lemma WordNames(g: Aggregate)
    ensures AggregateOf(Word(g)) == Some(g) && !Reserved(Word(g))
  {
  }

  lemma NameReads(x: string)
    requires !Reserved(x)
    ensures Reads([TIdent(x)], Ident(x), 0, 0)
  {
    PathStarts(x);
    PathEnds([TIdent(x)], x, Ident(x));
    StopEarlier([TIdent(x)], Ident(x), 7, 7, 0);
    ReadsBelow([TIdent(x)], Ident(x), 7, 0);
  }

  lemma ArrowStops()
    ensures Stops(FatArrow, 0)
  {
  }

  /** Where the parts of a printed aggregate stand. */
  lemma AggregateGeometry(ts: seq<Token>, i: nat, word: string, p: seq<Token>, x: string, q: seq<Token>)
    returns (j: nat, k: nat)
    requires Stands(ts, i, AggregateTokens(word, p, x, q))
    ensures j == i + 2 + |p| && k == j + 3 + |q| && k + 1 == i + |AggregateTokens(word, p, x, q)| < |ts|
    ensures ts[i] == TIdent(word) && ts[i + 1] == LParen && ts[j] == Comma && ts[j + 1] == TIdent(x)
    ensures ts[j + 2] == FatArrow && ts[k] == RParen
    ensures Stands(ts, i + 2, p) && Stands(ts, j + 1, [TIdent(x)]) && Stands(ts, j + 3, q)
  {
    j, k := PairGeometry(ts, i, word, p, LambdaTokens(x, q));
    StandsHead(ts, j + 1, TIdent(x), [FatArrow] + q);
    StandsHead(ts, j + 2, FatArrow, q);
    StandsPrefix(ts, j + 1, [TIdent(x)], [FatArrow] + q);
  }

  lemma AggregateParsed(ts: seq<Token>, i: nat, g: Aggregate, coll: Expr, x: string, body: Expr, j: nat, k: nat)
    requires Stream(ts) && i + 2 < j && j + 3 < k && k + 1 < |ts|
    requires ts[i] == TIdent(Word(g)) && ts[i + 1] == LParen && ts[j] == Comma && ts[j + 1] == TIdent(x)
    requires ts[j + 2] == FatArrow && ts[k] == RParen
    requires Parsing.Parse(ts, i + 2, 0) == Done(coll, j) && Parsing.Parse(ts, j + 1, 0) == Done(Ident(x), j + 2)
    requires Parsing.Parse(ts, j + 3, 0) == Done(body, k)
    ensures Parsing.Parse(ts, i, 7) == Done(Desugar(g, coll, x, body), k + 1)
  {
    WordNames(g);
    assert LambdaTail(ts, j + 1) == Done((x, body), k + 1);
    assert Aggregation(ts, i + 1, g) == Done(Desugar(g, coll, x, body), k + 1);
    NamedCall(ts, i, Desugar(g, coll, x, body), Word(g), k + 1);
  }

  lemma AggregateAt(ts: seq<Token>, i: nat, g: Aggregate, p: seq<Token>, coll: Expr, x: string,
      q: seq<Token>, body: Expr)
    requires Reads(p, coll, 0, 0) && Reads(q, body, 0, 0) && Reads([TIdent(x)], Ident(x), 0, 0)
    requires Stream(ts) && Stands(ts, i, AggregateTokens(Word(g), p, x, q))
    ensures Parsing.Parse(ts, i, 7) == Done(Desugar(g, coll, x, body), i + |AggregateTokens(Word(g), p, x, q)|)
  {
    var j, k := AggregateGeometry(ts, i, Word(g), p, x, q);
    ArrowStops();
    assert Parsing.Parse(ts, i + 2, 0) == Done(coll, j) by {
      Part(ts, i + 2, p, coll, 0, 0, j);
    }
    assert Parsing.Parse(ts, j + 1, 0) == Done(Ident(x), j + 2) by {
      Part(ts, j + 1, [TIdent(x)], Ident(x), 0, 0, j + 2);
    }
    assert Parsing.Parse(ts, j + 3, 0) == Done(body, k) by {
      Part(ts, j + 3, q, body, 0, 0, k);
    }
    AggregateParsed(ts, i, g, coll, x, body, j, k);
  }

  /** An aggregate is read as its fold. */
  lemma AggregateReads(g: Aggregate, p: seq<Token>, coll: Expr, x: string, q: seq<Token>, body: Expr)
    requires Reads(p, coll, 0, 0) && Reads(q, body, 0, 0) && !Reserved(x)
    ensures Reads(AggregateTokens(Word(g), p, x, q), Desugar(g, coll, x, body), 7, 7)
  {
    var ps, e := AggregateTokens(Word(g), p, x, q), Desugar(g, coll, x, body);
    NameReads(x);
    forall ts, i: nat
      ensures ReadsAt(ts, i, ps, e, 7, 7)
    {
      if Stream(ts) && Stands(ts, i, ps) {
        AggregateAt(ts, i, g, p, coll, x, q, body);
      }
    }
  }

  /** `word(coll, x => body)` as written, in a stream, before a token that does
      not go on. */
  ghost predicate Written(ts: seq<Token>, i: nat, level: nat, word: string, coll: Expr, x: string, body: Expr) {
    && Stream(ts) && level <= 7 && Printable(coll) && Printable(body) && !Reserved(x)
    && var ps := AggregateTokens(word, Print(coll, 0), x, Print(body, 0));
       Stands(ts, i, ps) && Stops(ts[i + |ps|], level)
  }

  lemma AggregateTrip(ts: seq<Token>, i: nat, level: nat, g: Aggregate, coll: Expr, x: string, body: Expr)
    requires Written(ts, i, level, Word(g), coll, x, body)
    ensures Parsing.Parse(ts, i, level) ==
      Done(Desugar(g, coll, x, body), i + |AggregateTokens(Word(g), Print(coll, 0), x, Print(body, 0))|)
  {
    var ps, e := AggregateTokens(Word(g), Print(coll, 0), x, Print(body, 0)), Desugar(g, coll, x, body);
    Trip(coll, 0);
    Trip(body, 0);
    AggregateReads(g, Print(coll, 0), coll, x, Print(body, 0), body);
    StopEarlier(ps, e, 7, 7, level);
    WordNames(g);
    ReadsBelow(ps, e, 7, level);
    Part(ts, i, ps, e, level, level, i + |ps|);
  }

  // ----- what the written aggregates compute -----

  /** `sum(coll, x => body)` parses, and computes the mathematical sum, or overflows. */
  lemma SumWritten(ts: seq<Token>, i: nat, level: nat, coll: Expr, x: string, body: Expr, c: Ctx, items: seq<Value>,
      ns: seq<int>, env: Env, k: nat)
    requires Written(ts, i, level, "sum", coll, x, body) && !c.sem.wrap && Lacks(body, ACC) && x != ACC
    requires Eval(c, coll, env, k) == Good(VList(items)) && Numbers(c, body, x, items, ns, env, k)
    ensures var r := Parsing.Parse(ts, i, level);
      && r.Done?
      && (PartialSumsFit(ns) ==> Fits(Sum(ns)) && Eval(c, r.value, env, k) == Good(VNumber(Sum(ns))))
      && (!PartialSumsFit(ns) ==> Eval(c, r.value, env, k) == Bad(Overflow))
  {
    AggregateTrip(ts, i, level, SumOf, coll, x, body);
    SumIsSum(c, coll, x, body, items, ns, env, k);
  }

  /** `count(coll, x => body)` computes how many items are accepted. */
  lemma CountWritten(ts: seq<Token>, i: nat, level: nat, coll: Expr, x: string, body: Expr, c: Ctx, items: seq<Value>,
      bs: seq<bool>, env: Env, k: nat)
    requires Written(ts, i, level, "count", coll, x, body) && !c.sem.wrap && Lacks(body, ACC) && x != ACC
    requires |items| <= MAX && Eval(c, coll, env, k) == Good(VList(items)) && Verdicts(c, body, x, items, bs, env, k)
    ensures var r := Parsing.Parse(ts, i, level);
      r.Done? && Fits(Count(bs)) && Eval(c, r.value, env, k) == Good(VNumber(Count(bs)))
  {
    AggregateTrip(ts, i, level, CountOf, coll, x, body);
    CountIsCount(c, coll, x, body, items, bs, env, k);
  }

  /** `min(coll, x => body)` computes the least value, or i64::MAX on no items. */
  lemma MinWritten(ts: seq<Token>, i: nat, level: nat, coll: Expr, x: string, body: Expr, c: Ctx, items: seq<Value>,
      ns: seq<int>, env: Env, k: nat)
    returns (m: i64)
    requires Written(ts, i, level, "min", coll, x, body) && Lacks(body, ACC) && x != ACC
    requires Eval(c, coll, env, k) == Good(VList(items)) && Numbers(c, body, x, items, ns, env, k)
    ensures var r := Parsing.Parse(ts, i, level);
      r.Done? && Eval(c, r.value, env, k) == Good(VNumber(m)) && IsMinimum(ns, m)
  {
    AggregateTrip(ts, i, level, MinOf, coll, x, body);
    m := MinIsMinimum(c, coll, x, body, items, ns, env, k);
  }

  /** `max(coll, x => body)` computes the greatest value, or i64::MIN on no items. */
  lemma MaxWritten(ts: seq<Token>, i: nat, level: nat, coll: Expr, x: string, body: Expr, c: Ctx, items: seq<Value>,
      ns: seq<int>, env: Env, k: nat)
    returns (m: i64)
    requires Written(ts, i, level, "max", coll, x, body) && Lacks(body, ACC) && x != ACC
    requires Eval(c, coll, env, k) == Good(VList(items)) && Numbers(c, body, x, items, ns, env, k)
    ensures var r := Parsing.Parse(ts, i, level);
      r.Done? && Eval(c, r.value, env, k) == Good(VNumber(m)) && IsMaximum(ns, m)
  {
    AggregateTrip(ts, i, level, MaxOf, coll, x, body);
    m := MaxIsMaximum(c, coll, x, body, items, ns, env, k);
  }
}
