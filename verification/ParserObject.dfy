/** The expression parser as an object that moves a cursor. */
module ParserObject {
  import opened Int64
  import opened Ast
  import opened Tokens
  import opened FoldSugar
  import opened Parsing

  /** A result and the cursor after it, against the grammar. */
  predicate Agrees<T(==)>(r: Option<T>, pos: nat, spec: Parsed<T>) {
    match spec
    case Fail => r.None?
    case Done(v, at) => r == Some(v) && pos == at
  }

  class Parser {
    const tokens: seq<Token>
    var pos: nat

    ghost predicate Valid()
      reads this
    {
      Stream(tokens) && pos < |tokens|
    }

    constructor (tokens: seq<Token>)
      requires Stream(tokens)
      ensures Valid() && this.tokens == tokens && pos == 0
    {
      this.tokens, pos := tokens, 0;
    }

    /** One expression level; loops rebuild the left operand. */
    method ParseLevel(level: nat) returns (r: Option<Expr>)
      requires Valid() && level <= 7
      modifies this
      ensures Valid() && pos >= old(pos) && Agrees(r, pos, Parse(tokens, old(pos), level))
      decreases |tokens| - pos, 1, 8 - level
    {
      if level == 0 {
        r := ParseLevel(1);
      } else if level == 7 {
        r := ParsePrimary();
      } else if level == 6 {
        r := ParseUnary();
      } else {
        r := ParseLevel(level + 1);
        if r.Some? {
          if level == 3 {
            r := ParseComparison(r.value);
          } else {
            r := ParseChain(level, r.value);
          }
        }
      }
    }

    method ParseUnary() returns (r: Option<Expr>)
      requires Valid()
      modifies this
      ensures Valid() && pos >= old(pos) && Agrees(r, pos, Parse(tokens, old(pos), 6))
      decreases |tokens| - pos, 1, 1
    {
      var t := tokens[pos];
      if t == TIdent("not") || t == Minus {
        pos := pos + 1;
        r := ParseLevel(6);
        if r.Some? {
          r := Some(Unary(if t == Minus then Neg else Not, r.value));
        }
      } else {
        assert Parse(tokens, pos, 7) == Primary(tokens, pos);
        r := ParsePrimary();
      }
    }

    method ParseComparison(left: Expr) returns (r: Option<Expr>)
      requires Valid()
      modifies this
      ensures Valid() && pos >= old(pos) && Agrees(r, pos, Compare(tokens, old(pos), left))
      decreases |tokens| - pos, 2
    {
      var op := OperatorAt(tokens[pos], 3);
      if op.None? {
        return Some(left);
      }
      pos := pos + 1;
      r := ParseLevel(4);
      if r.Some? {
        r := Some(Binary(op.value, left, r.value));
      }
    }

    method ParseChain(level: nat, first: Expr) returns (r: Option<Expr>)
      requires Valid() && 1 <= level <= 5
      modifies this
      ensures Valid() && pos >= old(pos) && Agrees(r, pos, Chain(tokens, old(pos), level, first))
      decreases |tokens| - pos, 2
    {
      var left := first;
      while OperatorAt(tokens[pos], level).Some?
        invariant Valid() && pos >= old(pos)
        invariant Chain(tokens, pos, level, left) == Chain(tokens, old(pos), level, first)
        decreases |tokens| - pos
      {
        var op := OperatorAt(tokens[pos], level).value;
        pos := pos + 1;
        var right := ParseLevel(level + 1);
        if right.None? {
          return None;
        }
        left := Binary(op, left, right.value);
      }
      return Some(left);
    }

    method ParsePrimary() returns (r: Option<Expr>)
      requires Valid()
      modifies this
      ensures Valid() && pos >= old(pos) && Agrees(r, pos, Primary(tokens, old(pos)))
      decreases |tokens| - pos, 0
    {
      match tokens[pos]
      case TNumberLit(n) => pos := pos + 1; r := Some(Number(n));
      case TString(s) => pos := pos + 1; r := Some(Text(s));
      case TBytesLit(b) => pos := pos + 1; r := Some(BytesLit(b));
      case LParen =>
        pos := pos + 1;
        r := ParseLevel(0);
        if r.Some? {
          if tokens[pos] != RParen {
            return None;
          }
          pos := pos + 1;
        }
      case TIdent(name) =>
        pos := pos + 1;
        if name == "if" {
          r := ParseConditional();
        } else if name == "match" {
          r := ParseMatch();
        } else {
          r := ParseNamed(name);
        }
      case _ => r := None;
    }

    // ----- conditionals -----

    method SkipSeparators(depth: nat) returns (d: nat)
      requires Valid()
      modifies this
      ensures Valid() && (pos, d) == Skip(tokens, old(pos), depth)
    {
      d := depth;
      while tokens[pos] == Newline || tokens[pos] == Indent || (tokens[pos] == Dedent && d > 0)
        invariant Valid() && Skip(tokens, pos, d) == Skip(tokens, old(pos), depth)
        decreases |tokens| - pos
      {
        if tokens[pos] == Indent {
          d := d + 1;
        } else if tokens[pos] == Dedent {
          d := d - 1;
        }
        pos := pos + 1;
      }
    }

    method BalanceBlocks(depth: nat)
      requires Valid()
      modifies this
      ensures Valid() && pos == Balance(tokens, old(pos), depth)
    {
      var d := depth;
      while d > 0 && (tokens[pos] == Newline || tokens[pos] == Dedent)
        invariant Valid() && Balance(tokens, pos, d) == Balance(tokens, old(pos), depth)
        decreases |tokens| - pos
      {
        if tokens[pos] == Dedent {
          d := d - 1;
        }
        pos := pos + 1;
      }
    }

    method ParseConditional() returns (r: Option<Expr>)
      requires Valid()
      modifies this
      ensures Valid() && pos >= old(pos) && Agrees(r, pos, Conditional(tokens, old(pos)))
      decreases |tokens| - pos, 3
    {
      var depth := SkipSeparators(0);
      var condition := ParseLevel(0);
      if condition.None? {
        return None;
      }
      depth := SkipSeparators(depth);
      if tokens[pos] != TIdent("then") {
        return None;
      }
      pos := pos + 1;
      var branches := ParseBranches(depth);
      if branches.None? {
        return None;
      }
      return Some(If(condition.value, branches.value.0, branches.value.1));
    }

    method ParseBranches(start: nat) returns (r: Option<(Expr, Expr)>)
      requires Valid()
      modifies this
      ensures Valid() && pos >= old(pos) && Agrees(r, pos, Branches(tokens, old(pos), start))
      decreases |tokens| - pos, 3
    {
      var depth := SkipSeparators(start);
      var yes := ParseLevel(0);
      if yes.None? {
        return None;
      }
      depth := SkipSeparators(depth);
      if tokens[pos] != TIdent("else") {
        return None;
      }
      pos := pos + 1;
      depth := SkipSeparators(depth);
      var no := ParseLevel(0);
      if no.None? {
        return None;
      }
      BalanceBlocks(depth);
      return Some((yes.value, no.value));
    }

    // ----- matches -----

    method ParseMatch() returns (r: Option<Expr>)
      requires Valid()
      modifies this
      ensures Valid() && pos >= old(pos) && Agrees(r, pos, Matching(tokens, old(pos)))
      decreases |tokens| - pos, 3
    {
      var s := ParseLevel(0);
      if s.None? || tokens[pos] != Colon || tokens[pos + 1] != Newline || tokens[pos + 2] != Indent {
        return None;
      }
      pos := pos + 3;
      var arms := ParseArms();
      if arms.None? {
        return None;
      }
      return Some(MatchVariant(s.value, arms.value));
    }

    method ParseArms() returns (r: Option<seq<Arm>>)
      requires Valid()
      modifies this
      ensures Valid() && pos >= old(pos) && Agrees(r, pos, Arms(tokens, old(pos)))
      decreases |tokens| - pos, 3
    {
      var arms := [];
      ghost var all := Arms(tokens, pos);
      AfterNothing(all);
      while tokens[pos] != Dedent
        invariant Valid() && pos >= old(pos) && all == After(arms, Arms(tokens, pos))
        decreases |tokens| - pos
      {
        if tokens[pos] == Newline {
          pos := pos + 1;
        } else {
          var arm := ParseArm();
          if arm.None? {
            return None;
          }
          AfterStep(arms, arm.value, Arms(tokens, pos));
          arms := arms + [arm.value];
        }
      }
      pos := pos + 1;
      assert arms + [] == arms;
      return Some(arms);
    }

    /** One arm with the NEWLINE that ends it. */
    method ParseArm() returns (r: Option<Arm>)
      requires Valid()
      modifies this
      ensures Valid() && pos >= old(pos) && Agrees(r, pos, OneArm(tokens, old(pos)))
      decreases |tokens| - pos, 2
    {
      var t := tokens[pos];
      if !t.TIdent? {
        return None;
      }
      pos := pos + 1;
      var binders := ParseBinders();
      if binders.None? || tokens[pos] != FatArrow {
        return None;
      }
      pos := pos + 1;
      var body := ParseLevel(0);
      if body.None? || tokens[pos] != Newline {
        return None;
      }
      pos := pos + 1;
      return Some(Arm(t.name, binders.value, body.value));
    }

    method ParseBinders() returns (r: Option<seq<Option<string>>>)
      requires Valid()
      modifies this
      ensures Valid() && pos >= old(pos) && Agrees(r, pos, ArmBinders(tokens, old(pos)))
    {
      if tokens[pos] != LParen {
        return Some([]);
      }
      pos := pos + 1;
      if tokens[pos] == RParen {
        pos := pos + 1;
        return Some([]);
      }
      var binders: seq<Option<string>> := [];
      ghost var all := MoreBinders(tokens, pos);
      AfterNothing(all);
      while true
        invariant Valid() && pos >= old(pos) && all == After(binders, MoreBinders(tokens, pos))
        decreases |tokens| - pos
      {
        if !tokens[pos].TIdent? {
          return None;
        }
        var b := if tokens[pos].name == "_" then None else Some(tokens[pos].name);
        pos := pos + 1;
        if tokens[pos] == Comma {
          pos := pos + 1;
          AfterStep(binders, b, MoreBinders(tokens, pos));
          binders := binders + [b];
        } else if tokens[pos] == RParen {
          pos := pos + 1;
          return Some(binders + [b]);
        } else {
          return None;
        }
      }
    }

    // ----- names, calls and constructions -----

    method ParseNamed(name: string) returns (r: Option<Expr>)
      requires Valid() && pos > 0
      modifies this
      ensures Valid() && pos >= old(pos) && Agrees(r, pos, Named(tokens, old(pos), name))
      decreases |tokens| - pos, 4
    {
      match tokens[pos]
      case DoubleColon =>
        pos := pos + 1;
        r := ParseVariant(name);
      case LBrace =>
        pos := pos + 1;
        var fs := ParseFields();
        if fs.None? {
          return None;
        }
        return Some(Construct(name, None, fs.value));
      case LParen => r := ParseCall(name);
      case _ => r := ParsePath(Ident(name));
    }

    method ParseVariant(name: string) returns (r: Option<Expr>)
      requires Valid()
      modifies this
      ensures Valid() && pos >= old(pos) && Agrees(r, pos, Variant(tokens, old(pos), name))
      decreases |tokens| - pos, 4
    {
      if !tokens[pos].TIdent? {
        return None;
      }
      var variant := tokens[pos].name;
      pos := pos + 1;
      if tokens[pos] != LBrace {
        return Some(Construct(name, Some(variant), []));
      }
      pos := pos + 1;
      var fs := ParseFields();
      return if fs.None? then None else Some(Construct(name, Some(variant), fs.value));
    }

    method ParseCall(name: string) returns (r: Option<Expr>)
      requires Valid() && tokens[pos] == LParen
      modifies this
      ensures Valid() && pos >= old(pos) && Agrees(r, pos, CallOf(tokens, old(pos), name))
      decreases |tokens| - pos, 3
    {
      if AggregateOf(name).Some? {
        r := ParseAggregation(AggregateOf(name).value);
      } else if Production(name).Some? {
        var parts := ParseItems(Production(name).value);
        return if parts.None? then None else Build(name, parts.value);
      } else if IsEffect(name) {
        return None;
      } else {
        pos := pos + 1;
        var args := ParseArguments();
        if args.None? {
          return None;
        }
        if name == "concat" {
          return if args.value == [] then None else Some(Concat(args.value));
        }
        return Some(Call(name, args.value));
      }
    }

    method ParsePath(root: Expr) returns (r: Option<Expr>)
      requires Valid()
      modifies this
      ensures Valid() && pos >= old(pos) && Agrees(r, pos, Path(tokens, old(pos), root))
    {
      var e := root;
      while tokens[pos] == Dot
        invariant Valid() && pos >= old(pos) && Path(tokens, pos, e) == Path(tokens, old(pos), root)
        decreases |tokens| - pos
      {
        pos := pos + 1;
        if !tokens[pos].TIdent? {
          return None;
        }
        e := Field(e, tokens[pos].name);
        pos := pos + 1;
      }
      return Some(e);
    }

    /** A fixed production, item by item. */
    method ParseItems(items: seq<Item>) returns (r: Option<Parts>)
      requires Valid() && Tok(Eof) !in items
      modifies this
      ensures Valid() && pos >= old(pos) && Agrees(r, pos, Items(tokens, old(pos), items))
      decreases |tokens| - pos, 2
    {
      var exprs: seq<Expr>, ids: seq<string> := [], [];
      ghost var all := Items(tokens, pos, items);
      assert items[0..] == items;
      MergeNothing(all);
      for k := 0 to |items|
        invariant Valid() && pos >= old(pos) && all == Merge(Parts(exprs, ids), Items(tokens, pos, items[k..]))
      {
        assert items[k..][0] == items[k] && items[k..][1..] == items[k + 1..] && items[k] in items;
        match items[k]
        case Tok(t) =>
          if tokens[pos] != t {
            return None;
          }
          pos := pos + 1;
        case Id =>
          if !tokens[pos].TIdent? {
            return None;
          }
          MergeId(Parts(exprs, ids), tokens[pos].name, Items(tokens, pos + 1, items[k + 1..]));
          ids := ids + [tokens[pos].name];
          pos := pos + 1;
        case Ex =>
          var e := ParseItem(items[k..]);
          if e.None? {
            return None;
          }
          MergeExpr(Parts(exprs, ids), e.value, Items(tokens, pos, items[k + 1..]));
          exprs := exprs + [e.value];
      }
      assert items[|items|..] == [] && exprs + [] == exprs && ids + [] == ids;
      return Some(Parts(exprs, ids));
    }

    /** The expression that starts a production. */
    method ParseItem(ghost items: seq<Item>) returns (r: Option<Expr>)
      requires Valid() && items != [] && items[0].Ex? && Tok(Eof) !in items
      modifies this
      ensures Valid() && pos >= old(pos)
      ensures r.None? ==> Items(tokens, old(pos), items).Fail?
      ensures r.Some? ==> Items(tokens, old(pos), items) == WithExpr(r.value, Items(tokens, pos, items[1..]))
      decreases |tokens| - pos, 1, 9
    {
      r := ParseLevel(0);
    }

    /** sum, count, min and max; the fold form rewinds and reads its binder. */
    method ParseAggregation(g: Aggregate) returns (r: Option<Expr>)
      requires Valid() && tokens[pos] == LParen
      modifies this
      ensures Valid() && pos >= old(pos) && Agrees(r, pos, Aggregation(tokens, old(pos), g))
      decreases |tokens| - pos, 2
    {
      pos := pos + 1;
      var collection := ParseLevel(0);
      if collection.None? || tokens[pos] != Comma {
        return None;
      }
      pos := pos + 1;
      var secondPos := pos;
      var second := ParseLevel(0);
      if second.None? {
        return None;
      }
      if (g.MinOf? || g.MaxOf?) && tokens[pos] != FatArrow {
        if tokens[pos] != RParen {
          return None;
        }
        pos := pos + 1;
        return Some(Prim(if g.MinOf? then MinOp else MaxOp, collection.value, second.value));
      }
      pos := secondPos;
      var lambda := ParseLambda();
      if lambda.None? {
        return None;
      }
      return Some(Desugar(g, collection.value, lambda.value.0, lambda.value.1));
    }

    method ParseLambda() returns (r: Option<(string, Expr)>)
      requires Valid()
      modifies this
      ensures Valid() && pos >= old(pos) && Agrees(r, pos, LambdaTail(tokens, old(pos)))
      decreases |tokens| - pos, 2
    {
      if !tokens[pos].TIdent? || tokens[pos + 1] != FatArrow {
        return None;
      }
      var x := tokens[pos].name;
      pos := pos + 2;
      var body := ParseLevel(0);
      if body.None? || tokens[pos] != RParen {
        return None;
      }
      pos := pos + 1;
      return Some((x, body.value));
    }

    method ParseArguments() returns (r: Option<seq<Expr>>)
      requires Valid()
      modifies this
      ensures Valid() && pos >= old(pos) && Agrees(r, pos, Arguments(tokens, old(pos)))
      decreases |tokens| - pos, 2
    {
      if tokens[pos] == RParen {
        pos := pos + 1;
        return Some([]);
      }
      var args: seq<Expr> := [];
      ghost var all := MoreArguments(tokens, pos);
      AfterNothing(all);
      while true
        invariant Valid() && pos >= old(pos) && all == After(args, MoreArguments(tokens, pos))
        decreases |tokens| - pos
      {
        var e := ParseLevel(0);
        if e.None? {
          return None;
        }
        if tokens[pos] == Comma {
          pos := pos + 1;
          AfterStep(args, e.value, MoreArguments(tokens, pos));
          args := args + [e.value];
        } else if tokens[pos] == RParen {
          pos := pos + 1;
          return Some(args + [e.value]);
        } else {
          return None;
        }
      }
    }

    method ParseFields() returns (r: Option<seq<FieldInit>>)
      requires Valid()
      modifies this
      ensures Valid() && pos >= old(pos) && Agrees(r, pos, Fields(tokens, old(pos)))
      decreases |tokens| - pos, 2
    {
      var fields: seq<FieldInit> := [];
      ghost var all := Fields(tokens, pos);
      AfterNothing(all);
      while tokens[pos] != RBrace
        invariant Valid() && pos >= old(pos) && all == After(fields, Fields(tokens, pos))
        decreases |tokens| - pos
      {
        if !tokens[pos].TIdent? || tokens[pos + 1] != Colon {
          return None;
        }
        var name := tokens[pos].name;
        pos := pos + 2;
        var e := ParseLevel(0);
        if e.None? {
          return None;
        }
        var f := FieldInit(name, e.value);
        if tokens[pos] == Comma {
          pos := pos + 1;
          AfterStep(fields, f, Fields(tokens, pos));
          fields := fields + [f];
        } else if tokens[pos] == RBrace {
          pos := pos + 1;
          return Some(fields + [f]);
        } else {
          return None;
        }
      }
      pos := pos + 1;
      assert fields + [] == fields;
      return Some(fields);
    }
  }

  // ----- results read so far, before the rest -----

  function After<T>(xs: seq<T>, rest: Parsed<seq<T>>): Parsed<seq<T>> {
    if rest.Fail? then Fail else Done(xs + rest.value, rest.at)
  }

  function Then<T>(x: T, rest: Parsed<seq<T>>): Parsed<seq<T>> {
    if rest.Fail? then Fail else Done([x] + rest.value, rest.at)
  }

  lemma AfterNothing<T>(all: Parsed<seq<T>>)
    ensures all == After([], all)
  {
    if all.Done? { assert [] + all.value == all.value; }
  }

  lemma AfterStep<T>(xs: seq<T>, x: T, rest: Parsed<seq<T>>)
    ensures After(xs, Then(x, rest)) == After(xs + [x], rest)
  {
    if rest.Done? { assert xs + ([x] + rest.value) == xs + [x] + rest.value; }
  }

  function Merge(p: Parts, rest: Parsed<Parts>): Parsed<Parts> {
    if rest.Fail? then Fail else Done(Parts(p.exprs + rest.value.exprs, p.ids + rest.value.ids), rest.at)
  }

  function WithExpr(e: Expr, rest: Parsed<Parts>): Parsed<Parts> {
    if rest.Fail? then Fail else Done(Parts([e] + rest.value.exprs, rest.value.ids), rest.at)
  }

  lemma MergeNothing(all: Parsed<Parts>)
    ensures all == Merge(Parts([], []), all)
  {
    if all.Done? { assert [] + all.value.exprs == all.value.exprs && [] + all.value.ids == all.value.ids; }
  }

  lemma MergeExpr(p: Parts, e: Expr, rest: Parsed<Parts>)
    ensures Merge(p, WithExpr(e, rest)) == Merge(Parts(p.exprs + [e], p.ids), rest)
  {
    if rest.Done? { assert p.exprs + ([e] + rest.value.exprs) == p.exprs + [e] + rest.value.exprs; }
  }

  lemma MergeId(p: Parts, x: string, rest: Parsed<Parts>)
    ensures rest.Done? ==>
      Merge(p, Done(Parts(rest.value.exprs, [x] + rest.value.ids), rest.at)) == Merge(Parts(p.exprs, p.ids + [x]), rest)
  {
    if rest.Done? { assert p.ids + ([x] + rest.value.ids) == p.ids + [x] + rest.value.ids; }
  }
}
