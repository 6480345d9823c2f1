/** How each form is read, from how its parts are read. Nothing here knows how
    the parts were printed. */
module ParsingShapes {
  import opened Int64
  import opened Ast
  import opened Tokens
  import opened Parsing
  import opened ParsingForms

  // ----- where a printed form may stand -----

  /** `ps` stands in `ts` at `i`, with something after it. */
  predicate Stands(ts: seq<Token>, i: nat, ps: seq<Token>) {
    i + |ps| < |ts| && ts[i..i + |ps|] == ps
  }

  /** A token that does not continue an expression read at `level`. */
  predicate Stops(t: Token, level: nat) {
    && t !in {Dot, LParen, LBrace, DoubleColon}
    && forall l | level <= l <= 5 :: OperatorAt(t, l).None?
  }

  lemma StandsFirst(ts: seq<Token>, i: nat, ps: seq<Token>)
    requires Stands(ts, i, ps) && ps != []
    ensures ts[i] == ps[0]
  {
    assert ts[i..i + |ps|][0] == ts[i];
  }

  lemma StandsPrefix(ts: seq<Token>, i: nat, a: seq<Token>, b: seq<Token>)
    requires Stands(ts, i, a + b)
    ensures Stands(ts, i, a) && Stands(ts, i + |a|, b)
  {
    var all := a + b;
    assert ts[i..i + |a|] == ts[i..i + |all|][..|a|] && all[..|a|] == a;
    assert ts[i + |a|..i + |a| + |b|] == ts[i..i + |all|][|a|..] && all[|a|..] == b;
  }

  lemma StandsHead(ts: seq<Token>, i: nat, t: Token, b: seq<Token>)
    requires Stands(ts, i, [t] + b)
    ensures ts[i] == t && Stands(ts, i + 1, b)
  {
    StandsPrefix(ts, i, [t], b);
    StandsFirst(ts, i, [t]);
  }

  lemma StandsThree(ts: seq<Token>, i: nat, a: seq<Token>, t: Token, b: seq<Token>)
    requires Stands(ts, i, a + [t] + b)
    ensures Stands(ts, i, a) && ts[i + |a|] == t && Stands(ts, i + |a| + 1, b)
  {
    assert a + [t] + b == a + ([t] + b);
    StandsPrefix(ts, i, a, [t] + b);
    StandsHead(ts, i + |a|, t, b);
  }

  lemma StandsParens(ts: seq<Token>, i: nat, ps: seq<Token>)
    requires Stands(ts, i, Wrapped(ps))
    ensures ts[i] == LParen && Stands(ts, i + 1, ps) && ts[i + 1 + |ps|] == RParen
  {
    StandsHead(ts, i, LParen, ps + [RParen]);
    StandsPrefix(ts, i + 1, ps, [RParen]);
    StandsFirst(ts, i + 1 + |ps|, [RParen]);
  }

  lemma StandsCall(ts: seq<Token>, i: nat, n: string, ps: seq<Token>)
    requires Stands(ts, i, [TIdent(n)] + Wrapped(ps))
    ensures ts[i] == TIdent(n) && ts[i + 1] == LParen && Stands(ts, i + 2, ps) && ts[i + 2 + |ps|] == RParen
  {
    StandsHead(ts, i, TIdent(n), Wrapped(ps));
    StandsParens(ts, i + 1, ps);
  }

  /** Names that start another form. */
  predicate Reserved(name: string) { name in {"if", "match", "not"} }

  lemma StopsHigher(t: Token, level: nat, higher: nat)
    requires Stops(t, level) && level <= higher
    ensures Stops(t, higher)
  {
  }

  // ----- reading a stretch of tokens -----

  /** Wherever `p` stands before a token that stops at level `stop`, it is read
      at `level` as `e`. */
  ghost predicate ReadsAt(ts: seq<Token>, i: nat, p: seq<Token>, e: Expr, level: nat, stop: nat)
    requires level <= 7
  {
    Stream(ts) && Stands(ts, i, p) && Stops(ts[i + |p|], stop) ==> Parse(ts, i, level) == Done(e, i + |p|)
  }

  ghost predicate Reads(p: seq<Token>, e: Expr, level: nat, stop: nat) {
    level <= 7 && p != [] && forall ts, i: nat :: ReadsAt(ts, i, p, e, level, stop)
  }

  lemma Part(ts: seq<Token>, i: nat, p: seq<Token>, e: Expr, level: nat, stop: nat, k: nat)
    requires Stream(ts) && Reads(p, e, level, stop) && Stands(ts, i, p) && k == i + |p| && Stops(ts[k], stop)
    ensures Parse(ts, i, level) == Done(e, k)
  {
    assert ReadsAt(ts, i, p, e, level, stop);
  }

  /** Fewer following tokens are allowed. */
  lemma StopEarlier(p: seq<Token>, e: Expr, level: nat, stop: nat, low: nat)
    requires Reads(p, e, level, stop) && low <= stop
    ensures Reads(p, e, level, low)
  {
    forall ts, i: nat
      ensures ReadsAt(ts, i, p, e, level, low)
    {
      if Stream(ts) && Stands(ts, i, p) && Stops(ts[i + |p|], low) {
        StopsHigher(ts[i + |p|], low, stop);
        Part(ts, i, p, e, level, stop, i + |p|);
      }
    }
  }

  /** A prefix operator would be taken at level 6. */
  predicate NoPrefix(p: seq<Token>) { p != [] && p[0] != TIdent("not") && p[0] != Minus }

  // ----- from one level to the lower ones -----

  lemma {:induction false} Ascend(ts: seq<Token>, i: nat, level: nat, low: nat, e: Expr, k: nat)
    requires Stream(ts) && i < k < |ts| && low <= level <= 7 &&
      (level == 7 ==> ts[i] != TIdent("not") && ts[i] != Minus)
    requires Parse(ts, i, level) == Done(e, k) && Stops(ts[k], low)
    ensures Parse(ts, i, low) == Done(e, k)
    decreases level - low
  {
    if low < level {
      Step(ts, i, level - 1, e, k);
      Ascend(ts, i, level - 1, low, e, k);
    }
  }

  lemma Step(ts: seq<Token>, i: nat, l: nat, e: Expr, k: nat)
    requires Stream(ts) && i < k < |ts| && l <= 6 && (l == 6 ==> ts[i] != TIdent("not") && ts[i] != Minus)
    requires Parse(ts, i, l + 1) == Done(e, k) && Stops(ts[k], l)
    ensures Parse(ts, i, l) == Done(e, k)
  {
    if 1 <= l <= 5 {
      assert OperatorAt(ts[k], l).None?;
    }
  }

  lemma ReadsBelow(p: seq<Token>, e: Expr, level: nat, low: nat)
    requires low <= level && Reads(p, e, level, low) && (level == 7 ==> NoPrefix(p))
    ensures Reads(p, e, low, low)
  {
    forall ts, i: nat
      ensures ReadsAt(ts, i, p, e, low, low)
    {
      if Stream(ts) && Stands(ts, i, p) && Stops(ts[i + |p|], low) {
        Part(ts, i, p, e, level, low, i + |p|);
        StandsFirst(ts, i, p);
        Ascend(ts, i, level, low, e, i + |p|);
      }
    }
  }

  // ----- parentheses and prefix operators -----

  function Wrapped(ps: seq<Token>): (ts: seq<Token>)
    ensures |ts| == |ps| + 2
  {
    [LParen] + (ps + [RParen])
  }

  lemma Parenthesised(ts: seq<Token>, i: nat, e: Expr, k: nat)
    requires Stream(ts) && i + 1 < k < |ts| && ts[i] == LParen && Parse(ts, i + 1, 0) == Done(e, k) && ts[k] == RParen
    ensures k + 1 < |ts| && Parse(ts, i, 7) == Done(e, k + 1)
  {
  }

  lemma ParensRead(p: seq<Token>, e: Expr)
    requires Reads(p, e, 0, 0)
    ensures Reads(Wrapped(p), e, 7, 7)
  {
    forall ts, i: nat
      ensures ReadsAt(ts, i, Wrapped(p), e, 7, 7)
    {
      if Stream(ts) && Stands(ts, i, Wrapped(p)) {
        StandsParens(ts, i, p);
        Part(ts, i + 1, p, e, 0, 0, i + 1 + |p|);
        Parenthesised(ts, i, e, i + 1 + |p|);
      }
    }
  }

  lemma PrefixReads(p: seq<Token>, op: UnOp, a: Expr)
    requires Reads(p, a, 6, 6) && (op.Not? || op.Neg?)
    ensures Reads([if op.Not? then TIdent("not") else Minus] + p, Unary(op, a), 6, 6)
  {
    var t := if op.Not? then TIdent("not") else Minus;
    forall ts, i: nat
      ensures ReadsAt(ts, i, [t] + p, Unary(op, a), 6, 6)
    {
      if Stream(ts) && Stands(ts, i, [t] + p) && Stops(ts[i + 1 + |p|], 6) {
        StandsHead(ts, i, t, p);
        Part(ts, i + 1, p, a, 6, 6, i + 1 + |p|);
      }
    }
  }

  // ----- binary operators -----

  lemma CompareParsed(ts: seq<Token>, i: nat, e: Expr, j: nat, k: nat)
    requires Stream(ts) && e.Binary? && i < j && j + 1 < k < |ts| && OperatorAt(ts[j], 3) == Some(e.op)
    requires Parse(ts, i, 4) == Done(e.left, j) && Parse(ts, j + 1, 4) == Done(e.right, k)
    ensures Parse(ts, i, 3) == Done(e, k)
  {
  }

  /** An operator token ends an operand of its level. */
  predicate Joins(t: Token, op: BinOp, level: nat) {
    1 <= level <= 5 && OperatorAt(t, level) == Some(op) && Stops(t, level + 1)
  }

  lemma CompareReads(p: seq<Token>, a: Expr, t: Token, op: BinOp, q: seq<Token>, b: Expr)
    requires Joins(t, op, 3) && Reads(p, a, 4, 4) && Reads(q, b, 4, 4)
    ensures Reads(p + [t] + q, Binary(op, a, b), 3, 4)
  {
    var ps := p + [t] + q;
    forall ts, i: nat
      ensures ReadsAt(ts, i, ps, Binary(op, a, b), 3, 4)
    {
      if Stream(ts) && Stands(ts, i, ps) && Stops(ts[i + |ps|], 4) {
        CompareAt(ts, i, p, a, t, op, q, b, i + |ps|);
      }
    }
  }

  lemma CompareAt(ts: seq<Token>, i: nat, p: seq<Token>, a: Expr, t: Token, op: BinOp, q: seq<Token>, b: Expr, k: nat)
    requires Joins(t, op, 3) && Reads(p, a, 4, 4) && Reads(q, b, 4, 4) && k == i + |p| + 1 + |q|
    requires Stream(ts) && Stands(ts, i, p + [t] + q) && Stops(ts[k], 4)
    ensures Parse(ts, i, 3) == Done(Binary(op, a, b), k)
  {
    StandsThree(ts, i, p, t, q);
    Part(ts, i, p, a, 4, 4, i + |p|);
    Part(ts, i + |p| + 1, q, b, 4, 4, k);
    CompareParsed(ts, i, Binary(op, a, b), i + |p|, k);
  }

  /** Wherever `p` stands, a chain of `level` goes on after `e`. */
  ghost predicate ChainsAt(ts: seq<Token>, i: nat, p: seq<Token>, e: Expr, level: nat)
    requires 1 <= level <= 5
  {
    Stream(ts) && Stands(ts, i, p) && Stops(ts[i + |p|], level + 1) ==>
      Parse(ts, i, level) == Chain(ts, i + |p|, level, e)
  }

  ghost predicate Chains(p: seq<Token>, e: Expr, level: nat) {
    1 <= level <= 5 && p != [] && forall ts, i: nat :: ChainsAt(ts, i, p, e, level)
  }

  lemma ChainStarts(p: seq<Token>, e: Expr, level: nat)
    requires level in {1, 2, 4, 5} && Reads(p, e, level + 1, level + 1)
    ensures Chains(p, e, level)
  {
    forall ts, i: nat
      ensures ChainsAt(ts, i, p, e, level)
    {
      if Stream(ts) && Stands(ts, i, p) && Stops(ts[i + |p|], level + 1) {
        Part(ts, i, p, e, level + 1, level + 1, i + |p|);
      }
    }
  }

  lemma ChainStep(ts: seq<Token>, j: nat, p: nat, a: Expr, op: BinOp, b: Expr, k: nat)
    requires Stream(ts) && j + 1 < k < |ts| && 1 <= p <= 5 && OperatorAt(ts[j], p) == Some(op) &&
      Parse(ts, j + 1, p + 1) == Done(b, k)
    ensures Chain(ts, j, p, a) == Chain(ts, k, p, Binary(op, a, b))
  {
  }

  lemma ChainGrows(p: seq<Token>, a: Expr, t: Token, op: BinOp, q: seq<Token>, b: Expr, level: nat)
    requires Joins(t, op, level) && Chains(p, a, level) && Reads(q, b, level + 1, level + 1)
    ensures Chains(p + [t] + q, Binary(op, a, b), level)
  {
    var ps := p + [t] + q;
    forall ts, i: nat
      ensures ChainsAt(ts, i, ps, Binary(op, a, b), level)
    {
      if Stream(ts) && Stands(ts, i, ps) && Stops(ts[i + |ps|], level + 1) {
        ChainAt(ts, i, p, a, t, op, q, b, level, i + |ps|);
      }
    }
  }

  lemma ChainAt(ts: seq<Token>, i: nat, p: seq<Token>, a: Expr, t: Token, op: BinOp, q: seq<Token>, b: Expr,
      level: nat, k: nat)
    requires Joins(t, op, level) && Chains(p, a, level) && Reads(q, b, level + 1, level + 1) && k == i + |p| + 1 + |q|
    requires Stream(ts) && Stands(ts, i, p + [t] + q) && Stops(ts[k], level + 1)
    ensures Parse(ts, i, level) == Chain(ts, k, level, Binary(op, a, b))
  {
    StandsThree(ts, i, p, t, q);
    var j := i + |p|;
    ChainStart(ts, i, p, a, level, j);
    Part(ts, j + 1, q, b, level + 1, level + 1, k);
    ChainStep(ts, j, level, a, op, b, k);
  }

  lemma ChainStart(ts: seq<Token>, i: nat, p: seq<Token>, a: Expr, level: nat, j: nat)
    requires Chains(p, a, level) && Stream(ts) && Stands(ts, i, p) && j == i + |p| && Stops(ts[j], level + 1)
    ensures Parse(ts, i, level) == Chain(ts, j, level, a)
  {
    assert ChainsAt(ts, i, p, a, level);
  }

  lemma ChainEnds(p: seq<Token>, e: Expr, level: nat)
    requires Chains(p, e, level)
    ensures Reads(p, e, level, level)
  {
    forall ts, i: nat
      ensures ReadsAt(ts, i, p, e, level, level)
    {
      if Stream(ts) && Stands(ts, i, p) && Stops(ts[i + |p|], level) {
        StopsHigher(ts[i + |p|], level, level + 1);
        assert ChainsAt(ts, i, p, e, level);
        assert OperatorAt(ts[i + |p|], level).None?;
      }
    }
  }

  // ----- conditionals -----

  function IfTokens(q: seq<Token>, a: seq<Token>, b: seq<Token>): (ts: seq<Token>)
    ensures |ts| == |q| + |a| + |b| + 3
  {
    [TIdent("if")] + (q + [TIdent("then")] + (a + [TIdent("else")] + b))
  }

  lemma NothingToSkip(ts: seq<Token>, i: nat)
    requires Stream(ts) && i < |ts| && ts[i] !in {Newline, Indent, Dedent}
    ensures Skip(ts, i, 0) == (i, 0)
  {
  }

  lemma StandsIf(ts: seq<Token>, i: nat, q: seq<Token>, a: seq<Token>, b: seq<Token>)
    requires Stands(ts, i, IfTokens(q, a, b))
    ensures var t := i + 1 + |q|; var l := t + 1 + |a|;
      && ts[i] == TIdent("if") && Stands(ts, i + 1, q) && ts[t] == TIdent("then") && Stands(ts, t + 1, a)
      && ts[l] == TIdent("else") && Stands(ts, l + 1, b)
  {
    var fi, th, el := TIdent("if"), TIdent("then"), TIdent("else");
    StandsHead(ts, i, fi, q + [th] + (a + [el] + b));
    StandsThree(ts, i + 1, q, th, a + [el] + b);
    StandsThree(ts, i + 1 + |q| + 1, a, el, b);
  }

  lemma KeywordsStop()
    ensures Stops(TIdent("then"), 0) && Stops(TIdent("else"), 0)
  {
    assert |"then"| == 4 && |"else"| == 4 && |"or"| == 2 && |"and"| == 3;
  }

  /** A conditional on one line, from what its parts parse to. */
  lemma IfParsed(ts: seq<Token>, i: nat, e: Expr, t: nat, l: nat, k: nat)
    requires Stream(ts) && e.If? && i + 1 < t && t + 1 < l && l + 1 < k < |ts|
    requires ts[i] == TIdent("if") && ts[t] == TIdent("then") && ts[l] == TIdent("else")
    requires Parse(ts, i + 1, 0) == Done(e.cond, t) && Parse(ts, t + 1, 0) == Done(e.yes, l) &&
      Parse(ts, l + 1, 0) == Done(e.no, k)
    requires ts[i + 1] !in {Newline, Indent, Dedent} && ts[t + 1] !in {Newline, Indent, Dedent} &&
      ts[l + 1] !in {Newline, Indent, Dedent}
    ensures Parse(ts, i, 7) == Done(e, k)
  {
    NothingToSkip(ts, i + 1);
    NothingToSkip(ts, t);
    NothingToSkip(ts, t + 1);
    NothingToSkip(ts, l);
    NothingToSkip(ts, l + 1);
    assert Branches(ts, t + 1, 0) == Done((e.yes, e.no), k);
    assert Conditional(ts, i + 1) == Done(e, k);
  }

  /** A token an expression may start with, where layout or a parenthesis could stand. */
  predicate StartsExpr(t: Token) { t !in {RParen, Newline, Indent, Dedent} }

  lemma Started(ts: seq<Token>, i: nat, p: seq<Token>)
    requires Stands(ts, i, p) && p != [] && StartsExpr(p[0])
    ensures ts[i] !in {RParen, Newline, Indent, Dedent}
  {
    StandsFirst(ts, i, p);
  }

  lemma IfReads(e: Expr, q: seq<Token>, a: seq<Token>, b: seq<Token>)
    requires e.If? && Reads(q, e.cond, 0, 0) && Reads(a, e.yes, 0, 0) && Reads(b, e.no, 0, 0)
    requires StartsExpr(q[0]) && StartsExpr(a[0]) && StartsExpr(b[0])
    ensures Reads(IfTokens(q, a, b), e, 7, 0)
  {
    var ps := IfTokens(q, a, b);
    forall ts, i: nat
      ensures ReadsAt(ts, i, ps, e, 7, 0)
    {
      if Stream(ts) && Stands(ts, i, ps) && Stops(ts[i + |ps|], 0) {
        IfAt(ts, i, e, q, a, b);
      }
    }
  }

  lemma IfAt(ts: seq<Token>, i: nat, e: Expr, q: seq<Token>, a: seq<Token>, b: seq<Token>)
    requires e.If? && Reads(q, e.cond, 0, 0) && Reads(a, e.yes, 0, 0) && Reads(b, e.no, 0, 0)
    requires StartsExpr(q[0]) && StartsExpr(a[0]) && StartsExpr(b[0])
    requires Stream(ts) && Stands(ts, i, IfTokens(q, a, b)) && Stops(ts[i + |IfTokens(q, a, b)|], 0)
    ensures Parse(ts, i, 7) == Done(e, i + |IfTokens(q, a, b)|)
  {
    StandsIf(ts, i, q, a, b);
    KeywordsStop();
    var t := i + 1 + |q|;
    var l := t + 1 + |a|;
    IfBranches(ts, i, e, q, a, b, t, l, l + 1 + |b|);
  }

  lemma IfBranches(ts: seq<Token>, i: nat, e: Expr, q: seq<Token>, a: seq<Token>, b: seq<Token>, t: nat, l: nat, k: nat)
    requires e.If? && Reads(q, e.cond, 0, 0) && Reads(a, e.yes, 0, 0) && Reads(b, e.no, 0, 0)
    requires StartsExpr(q[0]) && StartsExpr(a[0]) && StartsExpr(b[0])
    requires t == i + 1 + |q| && l == t + 1 + |a| && k == l + 1 + |b| && k < |ts| && Stream(ts)
    requires ts[i] == TIdent("if") && ts[t] == TIdent("then") && ts[l] == TIdent("else")
    requires Stands(ts, i + 1, q) && Stands(ts, t + 1, a) && Stands(ts, l + 1, b)
    requires Stops(ts[t], 0) && Stops(ts[l], 0) && Stops(ts[k], 0)
    ensures Parse(ts, i, 7) == Done(e, k)
  {
    Branch(ts, i + 1, q, e.cond, t);
    Branch(ts, t + 1, a, e.yes, l);
    Branch(ts, l + 1, b, e.no, k);
    IfParsed(ts, i, e, t, l, k);
  }

  /** One part of a conditional: nothing is skipped before it. */
  lemma Branch(ts: seq<Token>, i: nat, p: seq<Token>, e: Expr, k: nat)
    requires Stream(ts) && Reads(p, e, 0, 0) && StartsExpr(p[0]) && Stands(ts, i, p) && k == i + |p| && Stops(ts[k], 0)
    ensures Parse(ts, i, 0) == Done(e, k) && ts[i] !in {Newline, Indent, Dedent}
  {
    Part(ts, i, p, e, 0, 0, k);
    StandsFirst(ts, i, p);
  }

  // ----- literals and paths -----

  lemma LiteralReads(t: Token, e: Expr)
    requires match t case TNumberLit(n) => e == Number(n) case TString(s) => e == Text(s)
      case TBytesLit(b) => e == BytesLit(b) case _ => false
    ensures Reads([t], e, 7, 7)
  {
    forall ts, i: nat
      ensures ReadsAt(ts, i, [t], e, 7, 7)
    {
      if Stream(ts) && Stands(ts, i, [t]) {
        StandsFirst(ts, i, [t]);
      }
    }
  }

  /** Wherever `p` stands, it is a path from `root` that has reached `e`. */
  ghost predicate PathAt(ts: seq<Token>, i: nat, p: seq<Token>, root: string, e: Expr) {
    Stream(ts) && Stands(ts, i, p) && p != [] ==>
      && ts[i] == TIdent(root) && (|p| > 1 ==> ts[i + 1] == Dot)
      && Path(ts, i + 1, Ident(root)) == Path(ts, i + |p|, e)
  }

  ghost predicate PathReads(p: seq<Token>, root: string, e: Expr) {
    p != [] && forall ts, i: nat :: PathAt(ts, i, p, root, e)
  }

  lemma PathStarts(root: string)
    ensures PathReads([TIdent(root)], root, Ident(root))
  {
    forall ts, i: nat
      ensures PathAt(ts, i, [TIdent(root)], root, Ident(root))
    {
      if Stream(ts) && Stands(ts, i, [TIdent(root)]) {
        StandsFirst(ts, i, [TIdent(root)]);
      }
    }
  }

  lemma PathGrows(p: seq<Token>, root: string, e: Expr, f: string)
    requires PathReads(p, root, e)
    ensures PathReads(p + [Dot] + [TIdent(f)], root, Field(e, f))
  {
    var ps := p + [Dot] + [TIdent(f)];
    forall ts, i: nat
      ensures PathAt(ts, i, ps, root, Field(e, f))
    {
      if Stream(ts) && Stands(ts, i, ps) {
        StandsThree(ts, i, p, Dot, [TIdent(f)]);
        StandsFirst(ts, i + |p| + 1, [TIdent(f)]);
        assert PathAt(ts, i, p, root, e);
        assert Path(ts, i + |p|, e) == Path(ts, i + |p| + 2, Field(e, f));
      }
    }
  }

  lemma PathEnds(p: seq<Token>, root: string, e: Expr)
    requires PathReads(p, root, e) && !Reserved(root)
    ensures Reads(p, e, 7, 7)
  {
    forall ts, i: nat
      ensures ReadsAt(ts, i, p, e, 7, 7)
    {
      if Stream(ts) && Stands(ts, i, p) && Stops(ts[i + |p|], 7) {
        assert PathAt(ts, i, p, root, e);
        assert Named(ts, i + 1, root) == Done(e, i + |p|);
      }
    }
  }

  // ----- calls -----

  /** A call read as the primary it is. */
  lemma NamedCall(ts: seq<Token>, i: nat, e: Expr, name: string, k: nat)
    requires Stream(ts) && i + 1 < k < |ts| && !Reserved(name) && ts[i] == TIdent(name) && ts[i + 1] == LParen
    requires CallOf(ts, i + 1, name) == Done(e, k)
    ensures Parse(ts, i, 7) == Done(e, k)
  {
    assert Named(ts, i + 1, name) == Done(e, k);
  }

  lemma BuiltinCalled(ts: seq<Token>, i: nat, e: Expr, name: string, p: Parts, k: nat)
    requires Stream(ts) && i < k < |ts| && ts[i] == LParen && AggregateOf(name).None? && Production(name).Some?
    requires Items(ts, i, Production(name).value) == Done(p, k) && Build(name, p) == Some(e)
    ensures CallOf(ts, i, name) == Done(e, k)
  {
  }

  /** min or max of two operands. */
  function PairTokens(name: string, p: seq<Token>, q: seq<Token>): (ts: seq<Token>)
    ensures |ts| == |p| + |q| + 4
  {
    [TIdent(name)] + Wrapped(p + [Comma] + q)
  }

  function VariantTokens(v: Option<string>): seq<Token> {
    if v.None? then [] else [DoubleColon, TIdent(v.value)]
  }

  function ConstructTokens(n: string, v: Option<string>, ps: seq<Token>): (ts: seq<Token>)
    ensures |ts| == |ps| + |VariantTokens(v)| + 2
  {
    [TIdent(n)] + (VariantTokens(v) + ([LBrace] + ps))
  }

  function MatchTokens(p: seq<Token>, ps: seq<Token>): (ts: seq<Token>)
    ensures |ts| == |p| + |ps| + 4
  {
    [TIdent("match")] + (p + ([Colon, Newline, Indent] + ps))
  }

  function FieldTokens(name: string, p: seq<Token>, rest: seq<Token>): (ts: seq<Token>)
    ensures |ts| == |p| + |rest| + 3
  {
    [TIdent(name)] + ([Colon] + (p + [Comma] + rest))
  }

  function ArmTokens(variant: string, bs: seq<Token>, p: seq<Token>, rest: seq<Token>): (ts: seq<Token>)
    ensures |ts| == |bs| + |p| + |rest| + 3
  {
    [TIdent(variant)] + (bs + [FatArrow] + (p + [Newline] + rest))
  }

  /** Wherever `ps` stands before a closing parenthesis, it is read as arguments. */
  ghost predicate MoreAt(ts: seq<Token>, j: nat, ps: seq<Token>, es: seq<Expr>) {
    Stream(ts) && Stands(ts, j, ps) && ts[j + |ps|] == RParen && j + |ps| + 1 < |ts| ==>
      MoreArguments(ts, j) == Done(es, j + |ps| + 1)
  }

  ghost predicate MoreRead(ps: seq<Token>, es: seq<Expr>) { ps != [] && forall ts, j: nat :: MoreAt(ts, j, ps, es) }

  lemma LastArgument(ts: seq<Token>, j: nat, e: Expr, k: nat)
    requires Stream(ts) && j < k && k + 1 < |ts| && Parse(ts, j, 0) == Done(e, k) && ts[k] == RParen
    ensures MoreArguments(ts, j) == Done([e], k + 1)
  {
  }

  lemma NextArgument(ts: seq<Token>, j: nat, es: seq<Expr>, k: nat, m: nat)
    requires Stream(ts) && es != [] && j < k && k + 1 < |ts| && Parse(ts, j, 0) == Done(es[0], k) && ts[k] == Comma
    requires MoreArguments(ts, k + 1) == Done(es[1..], m)
    ensures MoreArguments(ts, j) == Done(es, m)
  {
    assert [es[0]] + es[1..] == es;
  }

  lemma OneArgument(p: seq<Token>, e: Expr)
    requires Reads(p, e, 0, 0)
    ensures MoreRead(p, [e])
  {
    forall ts, j: nat
      ensures MoreAt(ts, j, p, [e])
    {
      if Stream(ts) && Stands(ts, j, p) && ts[j + |p|] == RParen && j + |p| + 1 < |ts| {
        Part(ts, j, p, e, 0, 0, j + |p|);
        LastArgument(ts, j, e, j + |p|);
      }
    }
  }

  lemma ArgumentsGrow(es: seq<Expr>, p: seq<Token>, rest: seq<Token>)
    requires es != [] && Reads(p, es[0], 0, 0) && MoreRead(rest, es[1..])
    ensures MoreRead(p + [Comma] + rest, es)
  {
    var ps := p + [Comma] + rest;
    forall ts, j: nat
      ensures MoreAt(ts, j, ps, es)
    {
      if Stream(ts) && Stands(ts, j, ps) && ts[j + |ps|] == RParen && j + |ps| + 1 < |ts| {
        StandsThree(ts, j, p, Comma, rest);
        Part(ts, j, p, es[0], 0, 0, j + |p|);
        assert MoreAt(ts, j + |p| + 1, rest, es[1..]);
        NextArgument(ts, j, es, j + |p|, j + |ps| + 1);
      }
    }
  }

  /** An argument list, empty or starting like an expression. */
  ghost predicate ArgumentsRead(ps: seq<Token>, es: seq<Expr>) {
    if es == [] then ps == [] else MoreRead(ps, es) && StartsExpr(ps[0])
  }

  lemma ArgumentsParsed(ts: seq<Token>, j: nat, ps: seq<Token>, es: seq<Expr>)
    requires Stream(ts) && ArgumentsRead(ps, es) && Stands(ts, j, ps) && ts[j + |ps|] == RParen && j + |ps| + 1 < |ts|
    ensures Arguments(ts, j) == Done(es, j + |ps| + 1)
  {
    if es != [] {
      Started(ts, j, ps);
      assert MoreAt(ts, j, ps, es);
    }
  }

  /** A call that the parser reads as one, not as a builtin. */
  predicate PlainCall(name: string) {
    !Reserved(name) && AggregateOf(name).None? && Production(name).None? && !IsEffect(name) && name != "concat"
  }

  /** What a name with an argument list is: a rule call or a concat. */
  predicate Calls(e: Expr, name: string, es: seq<Expr>) {
    (e == Call(name, es) && PlainCall(name)) || (e == Concat(es) && name == "concat" && es != [])
  }

  lemma CallReads(e: Expr, name: string, es: seq<Expr>, ps: seq<Token>)
    requires Calls(e, name, es) && ArgumentsRead(ps, es)
    ensures Reads([TIdent(name)] + Wrapped(ps), e, 7, 7)
  {
    var all := [TIdent(name)] + Wrapped(ps);
    forall ts, i: nat
      ensures ReadsAt(ts, i, all, e, 7, 7)
    {
      if Stream(ts) && Stands(ts, i, all) {
        StandsCall(ts, i, name, ps);
        ArgumentsParsed(ts, i + 2, ps, es);
        CallParsed(ts, i, e, name, es, i + |all|);
      }
    }
  }

  lemma CallParsed(ts: seq<Token>, i: nat, e: Expr, name: string, es: seq<Expr>, k: nat)
    requires Stream(ts) && Calls(e, name, es) && i + 2 < k < |ts| && ts[i] == TIdent(name) && ts[i + 1] == LParen
    requires Arguments(ts, i + 2) == Done(es, k)
    ensures Parse(ts, i, 7) == Done(e, k)
  {
    if name == "concat" {
      ConcatName();
    }
    assert CallOf(ts, i + 1, name) == Done(e, k);
    NamedCall(ts, i, e, name, k);
  }

  lemma ConcatName()
    ensures AggregateOf("concat").None? && Production("concat").None? && !IsEffect("concat")
  {
    assert OwnName("concat");
  }

  // ----- productions -----

  /** What reading a production from its k-th expression and j-th name gives. */
  ghost predicate ItemsAt(ts: seq<Token>, i: nat, ps: seq<Token>, items: seq<Item>, parts: Parts) {
    Stream(ts) && Stands(ts, i, ps) && Tok(Eof) !in items ==> Items(ts, i, items) == Done(parts, i + |ps|)
  }

  ghost predicate ItemsRead(ps: seq<Token>, items: seq<Item>, parts: Parts) {
    forall ts, i: nat :: ItemsAt(ts, i, ps, items, parts)
  }

  lemma NoItems()
    ensures ItemsRead([], [], Parts([], []))
  {
  }

  lemma TokenItem(t: Token, ps: seq<Token>, items: seq<Item>, parts: Parts)
    requires items != [] && items[0] == Tok(t) && ItemsRead(ps, items[1..], parts)
    ensures ItemsRead([t] + ps, items, parts)
  {
    forall ts, i: nat
      ensures ItemsAt(ts, i, [t] + ps, items, parts)
    {
      if Stream(ts) && Stands(ts, i, [t] + ps) && Tok(Eof) !in items {
        StandsHead(ts, i, t, ps);
        assert ItemsAt(ts, i + 1, ps, items[1..], parts);
      }
    }
  }

  lemma NameItem(ps: seq<Token>, items: seq<Item>, es: seq<Expr>, xs: seq<string>)
    requires xs != [] && items != [] && items[0].Id? && ItemsRead(ps, items[1..], Parts(es, xs[1..]))
    ensures ItemsRead([TIdent(xs[0])] + ps, items, Parts(es, xs))
  {
    var all := [TIdent(xs[0])] + ps;
    forall ts, i: nat
      ensures ItemsAt(ts, i, all, items, Parts(es, xs))
    {
      if Stream(ts) && Stands(ts, i, all) && Tok(Eof) !in items {
        StandsHead(ts, i, TIdent(xs[0]), ps);
        assert ItemsAt(ts, i + 1, ps, items[1..], Parts(es, xs[1..]));
        assert [xs[0]] + xs[1..] == xs;
      }
    }
  }

  lemma ExprItem(p: seq<Token>, ps: seq<Token>, items: seq<Item>, es: seq<Expr>, xs: seq<string>)
    requires es != [] && items != [] && items[0].Ex? && Reads(p, es[0], 0, 0) &&
      ItemsRead(ps, items[1..], Parts(es[1..], xs))
    requires ps != [] && (ps[0] == Comma || ps[0] == RParen)
    ensures ItemsRead(p + ps, items, Parts(es, xs))
  {
    forall ts, i: nat
      ensures ItemsAt(ts, i, p + ps, items, Parts(es, xs))
    {
      if Stream(ts) && Stands(ts, i, p + ps) && Tok(Eof) !in items {
        StandsPrefix(ts, i, p, ps);
        StandsFirst(ts, i + |p|, ps);
        Part(ts, i, p, es[0], 0, 0, i + |p|);
        assert ItemsAt(ts, i + |p|, ps, items[1..], Parts(es[1..], xs));
        assert [es[0]] + es[1..] == es;
      }
    }
  }

  lemma BuiltinReads(e: Expr, name: string, ps: seq<Token>, parts: Parts)
    requires Production(name).Some? && AggregateOf(name).None? && !Reserved(name) && Build(name, parts) == Some(e)
    requires ItemsRead(ps, Production(name).value, parts) && ps != [] && ps[0] == LParen
    ensures Reads([TIdent(name)] + ps, e, 7, 7)
  {
    forall ts, i: nat
      ensures ReadsAt(ts, i, [TIdent(name)] + ps, e, 7, 7)
    {
      if Stream(ts) && Stands(ts, i, [TIdent(name)] + ps) {
        StandsHead(ts, i, TIdent(name), ps);
        StandsFirst(ts, i + 1, ps);
        assert ItemsAt(ts, i + 1, ps, Production(name).value, parts);
        BuiltinCalled(ts, i + 1, e, name, parts, i + 1 + |ps|);
        NamedCall(ts, i, e, name, i + 1 + |ps|);
      }
    }
  }

  // ----- min, max and argument lists -----

  lemma PairGeometry(ts: seq<Token>, i: nat, name: string, p: seq<Token>, q: seq<Token>) returns (j: nat, k: nat)
    requires Stands(ts, i, PairTokens(name, p, q))
    ensures j == i + 2 + |p| && k == j + 1 + |q| && k + 1 == i + |PairTokens(name, p, q)| && k + 1 < |ts|
    ensures ts[i] == TIdent(name) && ts[i + 1] == LParen && ts[j] == Comma && ts[k] == RParen
    ensures Stands(ts, i + 2, p) && Stands(ts, j + 1, q)
  {
    StandsCall(ts, i, name, p + [Comma] + q);
    StandsThree(ts, i + 2, p, Comma, q);
    j := i + 2 + |p|;
    k := j + 1 + |q|;
  }

  lemma PairParsed(ts: seq<Token>, i: nat, e: Expr, j: nat, k: nat)
    requires Stream(ts) && e.Prim? && (e.pop.MinOp? || e.pop.MaxOp?) && i + 2 < j && j + 1 < k && k + 1 < |ts|
    requires ts[i] == TIdent(PrimName(e.pop)) && ts[i + 1] == LParen && ts[j] == Comma && ts[k] == RParen
    requires Parse(ts, i + 2, 0) == Done(e.arg0, j) && Parse(ts, j + 1, 0) == Done(e.arg1, k)
    ensures Parse(ts, i, 7) == Done(e, k + 1)
  {
    var name := PrimName(e.pop);
    assert Aggregation(ts, i + 1, AggregateOf(name).value) == Done(e, k + 1);
    NamedCall(ts, i, e, name, k + 1);
  }

  lemma PairReads(e: Expr, p: seq<Token>, q: seq<Token>)
    requires e.Prim? && (e.pop.MinOp? || e.pop.MaxOp?) && Reads(p, e.arg0, 0, 0) && Reads(q, e.arg1, 0, 0)
    ensures Reads(PairTokens(PrimName(e.pop), p, q), e, 7, 7)
  {
    var ps := PairTokens(PrimName(e.pop), p, q);
    forall ts, i: nat
      ensures ReadsAt(ts, i, ps, e, 7, 7)
    {
      if Stream(ts) && Stands(ts, i, ps) {
        var j, k := PairGeometry(ts, i, PrimName(e.pop), p, q);
        Part(ts, i + 2, p, e.arg0, 0, 0, j);
        Part(ts, j + 1, q, e.arg1, 0, 0, k);
        PairParsed(ts, i, e, j, k);
      }
    }
  }

  // ----- constructions -----

  lemma ConstructGeometry(ts: seq<Token>, i: nat, name: string, v: Option<string>, ps: seq<Token>)
    requires Stands(ts, i, ConstructTokens(name, v, ps))
    ensures var n := |VariantTokens(v)|; ts[i] == TIdent(name) && ts[i + 1 + n] == LBrace && Stands(ts, i + 2 + n, ps)
    ensures v.Some? ==> ts[i + 1] == DoubleColon && ts[i + 2] == TIdent(v.value)
  {
    var w := VariantTokens(v);
    StandsHead(ts, i, TIdent(name), w + ([LBrace] + ps));
    StandsPrefix(ts, i + 1, w, [LBrace] + ps);
    StandsHead(ts, i + 1 + |w|, LBrace, ps);
    if v.Some? {
      assert w == [DoubleColon] + [TIdent(v.value)];
      StandsHead(ts, i + 1, DoubleColon, [TIdent(v.value)]);
      StandsFirst(ts, i + 2, [TIdent(v.value)]);
    }
  }

  lemma ConstructParsed(ts: seq<Token>, i: nat, e: Expr, n: nat, k: nat)
    requires Stream(ts) && e.Construct? && !Reserved(e.concept) && i + 2 + n < k < |ts| && ts[i] == TIdent(e.concept)
    requires n == |VariantTokens(e.variant)| && ts[i + 1 + n] == LBrace && Fields(ts, i + 2 + n) == Done(e.inits, k)
    requires e.variant.Some? ==> ts[i + 1] == DoubleColon && ts[i + 2] == TIdent(e.variant.value)
    ensures Parse(ts, i, 7) == Done(e, k)
  {
    assert Named(ts, i + 1, e.concept) == Done(e, k);
  }

  lemma FieldGeometry(ts: seq<Token>, j: nat, name: string, p: seq<Token>, rest: seq<Token>) returns (k: nat)
    requires Stands(ts, j, FieldTokens(name, p, rest))
    ensures k == j + 2 + |p| && k + 1 + |rest| == j + |FieldTokens(name, p, rest)| < |ts|
    ensures ts[j] == TIdent(name) && ts[j + 1] == Colon && Stands(ts, j + 2, p) && ts[k] == Comma &&
      Stands(ts, k + 1, rest)
  {
    StandsHead(ts, j, TIdent(name), [Colon] + (p + [Comma] + rest));
    StandsHead(ts, j + 1, Colon, p + [Comma] + rest);
    StandsThree(ts, j + 2, p, Comma, rest);
    k := j + 2 + |p|;
  }

  lemma FieldParsed(ts: seq<Token>, j: nat, fs: seq<FieldInit>, k: nat, m: nat)
    requires Stream(ts) && fs != [] && j + 2 < k && k + 1 < |ts| && ts[j] == TIdent(fs[0].name) && ts[j + 1] == Colon
    requires Parse(ts, j + 2, 0) == Done(fs[0].value, k) && ts[k] == Comma && Fields(ts, k + 1) == Done(fs[1..], m)
    ensures Fields(ts, j) == Done(fs, m)
  {
    assert [FieldInit(fs[0].name, fs[0].value)] + fs[1..] == fs;
  }

  ghost predicate FieldsAt(ts: seq<Token>, j: nat, ps: seq<Token>, fs: seq<FieldInit>) {
    Stream(ts) && Stands(ts, j, ps) ==> Fields(ts, j) == Done(fs, j + |ps|)
  }

  ghost predicate FieldsRead(ps: seq<Token>, fs: seq<FieldInit>) {
    ps != [] && forall ts, j: nat :: FieldsAt(ts, j, ps, fs)
  }

  lemma NoFields()
    ensures FieldsRead([RBrace], [])
  {
    forall ts, j: nat
      ensures FieldsAt(ts, j, [RBrace], [])
    {
      if Stream(ts) && Stands(ts, j, [RBrace]) {
        StandsFirst(ts, j, [RBrace]);
      }
    }
  }

  lemma OneField(fs: seq<FieldInit>, p: seq<Token>, rest: seq<Token>)
    requires fs != [] && Reads(p, fs[0].value, 0, 0) && FieldsRead(rest, fs[1..])
    ensures FieldsRead(FieldTokens(fs[0].name, p, rest), fs)
  {
    var ps := FieldTokens(fs[0].name, p, rest);
    forall ts, j: nat
      ensures FieldsAt(ts, j, ps, fs)
    {
      if Stream(ts) && Stands(ts, j, ps) {
        var k := FieldGeometry(ts, j, fs[0].name, p, rest);
        Part(ts, j + 2, p, fs[0].value, 0, 0, k);
        assert FieldsAt(ts, k + 1, rest, fs[1..]);
        FieldParsed(ts, j, fs, k, k + 1 + |rest|);
      }
    }
  }

  lemma ConstructReads(e: Expr, ps: seq<Token>)
    requires e.Construct? && !Reserved(e.concept) && FieldsRead(ps, e.inits)
    ensures Reads(ConstructTokens(e.concept, e.variant, ps), e, 7, 7)
  {
    var all, n := ConstructTokens(e.concept, e.variant, ps), |VariantTokens(e.variant)|;
    forall ts, i: nat
      ensures ReadsAt(ts, i, all, e, 7, 7)
    {
      if Stream(ts) && Stands(ts, i, all) {
        ConstructGeometry(ts, i, e.concept, e.variant, ps);
        assert FieldsAt(ts, i + 2 + n, ps, e.inits);
        ConstructParsed(ts, i, e, n, i + 2 + n + |ps|);
      }
    }
  }

  // ----- match blocks -----

  lemma MatchGeometry(ts: seq<Token>, i: nat, p: seq<Token>, ps: seq<Token>) returns (j: nat)
    requires Stands(ts, i, MatchTokens(p, ps))
    ensures j == i + 1 + |p| && j + 3 + |ps| == i + |MatchTokens(p, ps)| < |ts| && ts[i] == TIdent("match") &&
      Stands(ts, i + 1, p)
    ensures ts[j] == Colon && ts[j + 1] == Newline && ts[j + 2] == Indent && Stands(ts, j + 3, ps)
  {
    StandsHead(ts, i, TIdent("match"), p + ([Colon, Newline, Indent] + ps));
    StandsPrefix(ts, i + 1, p, [Colon, Newline, Indent] + ps);
    j := i + 1 + |p|;
    BlockGeometry(ts, j, ps);
  }

  lemma BlockGeometry(ts: seq<Token>, j: nat, ps: seq<Token>)
    requires Stands(ts, j, [Colon, Newline, Indent] + ps)
    ensures ts[j] == Colon && ts[j + 1] == Newline && ts[j + 2] == Indent && Stands(ts, j + 3, ps)
  {
    StandsPrefix(ts, j, [Colon, Newline, Indent], ps);
    var start: seq<Token> := [Colon, Newline, Indent];
    assert ts[j..j + 3] == start;
    assert ts[j] == ts[j..j + 3][0] && ts[j + 1] == ts[j..j + 3][1] && ts[j + 2] == ts[j..j + 3][2];
  }

  lemma MatchParsed(ts: seq<Token>, i: nat, e: Expr, j: nat, k: nat)
    requires Stream(ts) && e.MatchVariant? && i + 1 < j && j + 3 < k < |ts| && ts[i] == TIdent("match")
    requires ts[j] == Colon && ts[j + 1] == Newline && ts[j + 2] == Indent
    requires Parse(ts, i + 1, 0) == Done(e.scrutinee, j) && Arms(ts, j + 3) == Done(e.arms, k)
    ensures Parse(ts, i, 7) == Done(e, k)
  {
    assert Matching(ts, i + 1) == Done(e, k);
  }

  lemma ArmGeometry(ts: seq<Token>, j: nat, v: string, bs: seq<Token>, p: seq<Token>, rest: seq<Token>)
    returns (k: nat, m: nat)
    requires Stands(ts, j, ArmTokens(v, bs, p, rest))
    ensures k == j + 1 + |bs| && m == k + 1 + |p| && m + 1 + |rest| == j + |ArmTokens(v, bs, p, rest)| < |ts|
    ensures ts[j] == TIdent(v) && Stands(ts, j + 1, bs) && ts[k] == FatArrow
    ensures Stands(ts, k + 1, p) && ts[m] == Newline && Stands(ts, m + 1, rest)
  {
    StandsHead(ts, j, TIdent(v), bs + [FatArrow] + (p + [Newline] + rest));
    StandsThree(ts, j + 1, bs, FatArrow, p + [Newline] + rest);
    k := j + 1 + |bs|;
    StandsThree(ts, k + 1, p, Newline, rest);
    m := k + 1 + |p|;
  }

  lemma OneArmParsed(ts: seq<Token>, j: nat, arm: Arm, k: nat, m: nat)
    requires Stream(ts) && j < k && k + 1 < m && m + 1 < |ts| && ts[j] == TIdent(arm.variant)
    requires ArmBinders(ts, j + 1) == Done(arm.binders, k) && ts[k] == FatArrow
    requires Parse(ts, k + 1, 0) == Done(arm.body, m) && ts[m] == Newline
    ensures OneArm(ts, j) == Done(arm, m + 1)
  {
  }

  lemma ArmParsed(ts: seq<Token>, j: nat, arms: seq<Arm>, m: nat, n: nat)
    requires Stream(ts) && arms != [] && j < m && m + 1 < |ts| && ts[j].TIdent?
    requires OneArm(ts, j) == Done(arms[0], m + 1) && Arms(ts, m + 1) == Done(arms[1..], n)
    ensures Arms(ts, j) == Done(arms, n)
  {
    assert [arms[0]] + arms[1..] == arms;
  }

  lemma BindersTrip(ts: seq<Token>, j: nat, bs: seq<Option<string>>)
    requires Stream(ts) && (forall b | b in bs :: PrintableBinder(b)) && Stands(ts, j, PrintBinders(bs))
    requires ts[j + |PrintBinders(bs)|] == FatArrow
    ensures ArmBinders(ts, j) == Done(bs, j + |PrintBinders(bs)|)
  {
    if bs != [] {
      StandsHead(ts, j, LParen, BinderList(bs));
      MoreBindersTrip(ts, j + 1, bs);
      StandsFirst(ts, j + 1, BinderList(bs));
    }
  }

  lemma {:induction false} MoreBindersTrip(ts: seq<Token>, j: nat, bs: seq<Option<string>>)
    requires Stream(ts) && bs != [] && (forall b | b in bs :: PrintableBinder(b)) && Stands(ts, j, BinderList(bs))
    ensures MoreBinders(ts, j) == Done(bs, j + |BinderList(bs)|)
    decreases |bs|
  {
    assert bs[0] in bs;
    if |bs| == 1 {
      assert BinderList(bs) == [BinderToken(bs[0])] + [RParen];
      StandsHead(ts, j, BinderToken(bs[0]), [RParen]);
      StandsFirst(ts, j + 1, [RParen]);
      assert [bs[0]] == bs;
    } else {
      var rest := BinderList(bs[1..]);
      assert BinderList(bs) == [BinderToken(bs[0])] + ([Comma] + rest);
      StandsHead(ts, j, BinderToken(bs[0]), [Comma] + rest);
      StandsHead(ts, j + 1, Comma, rest);
      MoreBindersTrip(ts, j + 2, bs[1..]);
      assert [bs[0]] + bs[1..] == bs;
    }
  }

  ghost predicate ArmsAt(ts: seq<Token>, j: nat, ps: seq<Token>, arms: seq<Arm>) {
    Stream(ts) && Stands(ts, j, ps) ==> Arms(ts, j) == Done(arms, j + |ps|)
  }

  ghost predicate ArmsRead(ps: seq<Token>, arms: seq<Arm>) { ps != [] && forall ts, j: nat :: ArmsAt(ts, j, ps, arms) }

  lemma NoArms()
    ensures ArmsRead([Dedent], [])
  {
    forall ts, j: nat
      ensures ArmsAt(ts, j, [Dedent], [])
    {
      if Stream(ts) && Stands(ts, j, [Dedent]) {
        StandsFirst(ts, j, [Dedent]);
      }
    }
  }

  lemma OneArmRead(arms: seq<Arm>, p: seq<Token>, rest: seq<Token>)
    requires arms != [] && (forall b | b in arms[0].binders :: PrintableBinder(b))
    requires Reads(p, arms[0].body, 0, 0) && ArmsRead(rest, arms[1..])
    ensures ArmsRead(ArmTokens(arms[0].variant, PrintBinders(arms[0].binders), p, rest), arms)
  {
    var bs := PrintBinders(arms[0].binders);
    var ps := ArmTokens(arms[0].variant, bs, p, rest);
    forall ts, j: nat
      ensures ArmsAt(ts, j, ps, arms)
    {
      if Stream(ts) && Stands(ts, j, ps) {
        var m := OneArmAt(ts, j, arms[0], bs, p, rest);
        assert ArmsAt(ts, m + 1, rest, arms[1..]);
        ArmParsed(ts, j, arms, m, m + 1 + |rest|);
      }
    }
  }

  lemma OneArmAt(ts: seq<Token>, j: nat, arm: Arm, bs: seq<Token>, p: seq<Token>, rest: seq<Token>) returns (m: nat)
    requires Stream(ts) && (forall b | b in arm.binders :: PrintableBinder(b)) && Reads(p, arm.body, 0, 0)
    requires bs == PrintBinders(arm.binders) && Stands(ts, j, ArmTokens(arm.variant, bs, p, rest))
    ensures j < m && m + 1 < |ts| && m + 1 + |rest| == j + |ArmTokens(arm.variant, bs, p, rest)|
    ensures ts[j].TIdent? && OneArm(ts, j) == Done(arm, m + 1) && Stands(ts, m + 1, rest)
  {
    var k;
    k, m := ArmGeometry(ts, j, arm.variant, bs, p, rest);
    BindersTrip(ts, j + 1, arm.binders);
    Part(ts, k + 1, p, arm.body, 0, 0, m);
    OneArmParsed(ts, j, arm, k, m);
  }

  lemma MatchReads(e: Expr, p: seq<Token>, ps: seq<Token>)
    requires e.MatchVariant? && Reads(p, e.scrutinee, 0, 0) && ArmsRead(ps, e.arms)
    ensures Reads(MatchTokens(p, ps), e, 7, 7)
  {
    var all := MatchTokens(p, ps);
    forall ts, i: nat
      ensures ReadsAt(ts, i, all, e, 7, 7)
    {
      if Stream(ts) && Stands(ts, i, all) {
        var j := MatchGeometry(ts, i, p, ps);
        Part(ts, i + 1, p, e.scrutinee, 0, 0, j);
        assert ArmsAt(ts, j + 3, ps, e.arms);
        MatchParsed(ts, i, e, j, j + 3 + |ps|);
      }
    }
  }
}
