/** An expression never closes a block it did not open. */
module ParsingLayout {
  import opened Ast
  import opened Tokens
  import opened FoldSugar
  import opened Parsing

  /** `hs[i]` is the number of blocks open before position `i`. */
  ghost predicate Heights(ts: seq<Token>, hs: seq<int>) {
    |hs| == |ts| + 1 && forall i | 0 <= i < |ts| :: Rises(ts, hs, i)
  }

  ghost predicate Rises(ts: seq<Token>, hs: seq<int>, i: nat)
    requires i < |ts| && |hs| == |ts| + 1
  {
    hs[i + 1] == hs[i] + Shift(ts[i])
  }

  /** From `i` to `j` at least `base` blocks stay open. */
  ghost predicate Above(hs: seq<int>, i: nat, j: nat, base: int)
    requires i <= j < |hs|
  {
    forall m | i <= m <= j :: hs[m] >= base
  }

  ghost predicate Keeps<T>(hs: seq<int>, i: nat, r: Parsed<T>) {
    r.Done? && i <= r.at < |hs| ==> Above(hs, i, r.at, hs[i])
  }

  lemma {:induction false} HeightIsDepth(ts: seq<Token>, hs: seq<int>, i: nat, j: nat)
    requires Heights(ts, hs) && i <= j <= |ts|
    ensures hs[j] - hs[i] == Depth(ts[i..j])
    decreases j
  {
    if i == j {
      assert ts[i..j] == [];
    } else {
      HeightIsDepth(ts, hs, i, j - 1);
      assert ts[i..j][..j - 1 - i] == ts[i..j - 1];
      assert Rises(ts, hs, j - 1);
    }
  }

  lemma {:induction false} HeightsExist(ts: seq<Token>) returns (hs: seq<int>)
    ensures Heights(ts, hs)
    decreases |ts|
  {
    if ts == [] {
      hs := [0];
    } else {
      var front := ts[..|ts| - 1];
      var gs := HeightsExist(front);
      hs := gs + [gs[|front|] + Shift(ts[|front|])];
      forall i | 0 <= i < |ts|
        ensures Rises(ts, hs, i)
      {
        if i < |front| { assert Rises(front, gs, i); }
      }
    }
  }

  /** One more token that closes no block it must not. */
  lemma StepUp(ts: seq<Token>, hs: seq<int>, i: nat, j: nat, base: int)
    requires Heights(ts, hs) && i <= j < |ts| && Above(hs, i, j, base) && (ts[j] != Dedent || hs[j] > base)
    ensures Above(hs, i, j + 1, base) && hs[j + 1] == hs[j] + Shift(ts[j])
  {
    assert Rises(ts, hs, j);
  }

  // ----- layout inside a conditional -----

  lemma {:induction false} SkipKeeps(ts: seq<Token>, hs: seq<int>, i: nat, d: nat, base: int)
    requires Stream(ts) && Heights(ts, hs) && i < |ts| && hs[i] >= base + d
    ensures var s := Skip(ts, i, d); Above(hs, i, s.0, base) && hs[s.0] >= base + s.1
    decreases |ts| - i
  {
    assert Rises(ts, hs, i);
    match ts[i]
    case Newline => SkipKeeps(ts, hs, i + 1, d, base);
    case Indent => SkipKeeps(ts, hs, i + 1, d + 1, base);
    case Dedent => if d > 0 { SkipKeeps(ts, hs, i + 1, d - 1, base); }
    case _ =>
  }

  lemma {:induction false} BalanceKeeps(ts: seq<Token>, hs: seq<int>, i: nat, d: nat, base: int)
    requires Stream(ts) && Heights(ts, hs) && i < |ts| && hs[i] >= base + d
    ensures Above(hs, i, Balance(ts, i, d), base)
    decreases |ts| - i
  {
    if d > 0 {
      assert Rises(ts, hs, i);
      match ts[i]
      case Newline => BalanceKeeps(ts, hs, i + 1, d, base);
      case Dedent => BalanceKeeps(ts, hs, i + 1, d - 1, base);
      case _ =>
    }
  }

  /** Skipping, then an expression, then what is left open. */
  lemma {:induction false} SkipParseKeeps(ts: seq<Token>, hs: seq<int>, i: nat, d: nat, base: int)
    requires Stream(ts) && Heights(ts, hs) && i < |ts| && hs[i] >= base + d
    ensures var s := Skip(ts, i, d);
      var e := Parse(ts, s.0, 0);
      e.Done? ==> Above(hs, i, e.at, base) && hs[e.at] >= base + s.1
    decreases |ts| - i, 4
  {
    SkipKeeps(ts, hs, i, d, base);
    var s := Skip(ts, i, d);
    ParseKeeps(ts, hs, s.0, 0);
  }

  lemma {:induction false} ConditionalKeeps(ts: seq<Token>, hs: seq<int>, i: nat)
    requires Stream(ts) && Heights(ts, hs) && i < |ts|
    ensures Keeps(hs, i, Conditional(ts, i))
    decreases |ts| - i, 5
  {
    var base := hs[i];
    SkipParseKeeps(ts, hs, i, 0, base);
    var s1 := Skip(ts, i, 0);
    var q := Parse(ts, s1.0, 0);
    if q.Done? {
      SkipKeeps(ts, hs, q.at, s1.1, base);
      var s2 := Skip(ts, q.at, s1.1);
      if ts[s2.0] == TIdent("then") {
        StepUp(ts, hs, i, s2.0, base);
        ThenKeeps(ts, hs, i, s2.0 + 1, s2.1, base);
      }
    }
  }

  lemma {:induction false} ThenKeeps(ts: seq<Token>, hs: seq<int>, i: nat, j: nat, d: nat, base: int)
    requires Stream(ts) && Heights(ts, hs) && i < j < |ts| && Above(hs, i, j, base) && hs[j] >= base + d
    ensures var r := Branches(ts, j, d); r.Done? ==> Above(hs, i, r.at, base)
    decreases |ts| - j, 6
  {
    SkipParseKeeps(ts, hs, j, d, base);
    var s3 := Skip(ts, j, d);
    var a := Parse(ts, s3.0, 0);
    if a.Done? {
      SkipKeeps(ts, hs, a.at, s3.1, base);
      var s4 := Skip(ts, a.at, s3.1);
      if ts[s4.0] == TIdent("else") {
        StepUp(ts, hs, i, s4.0, base);
        ElseKeeps(ts, hs, i, s4.0 + 1, s4.1, base);
      }
    }
  }

  lemma {:induction false} ElseKeeps(ts: seq<Token>, hs: seq<int>, i: nat, j: nat, d: nat, base: int)
    requires Stream(ts) && Heights(ts, hs) && i < j < |ts| && Above(hs, i, j, base) && hs[j] >= base + d
    ensures var s := Skip(ts, j, d);
      var b := Parse(ts, s.0, 0);
      b.Done? ==> Above(hs, i, Balance(ts, b.at, s.1), base)
    decreases |ts| - j, 6
  {
    SkipParseKeeps(ts, hs, j, d, base);
    var s := Skip(ts, j, d);
    var b := Parse(ts, s.0, 0);
    if b.Done? {
      BalanceKeeps(ts, hs, b.at, s.1, base);
    }
  }

  // ----- the grammar -----

  /** An expression read at `j`, after a stretch from `i` that kept its blocks. */
  lemma {:induction false} ThenParse(ts: seq<Token>, hs: seq<int>, i: nat, j: nat, level: nat)
    requires Stream(ts) && Heights(ts, hs) && i <= j < |ts| && level <= 7 && Above(hs, i, j, hs[i])
    ensures var e := Parse(ts, j, level); e.Done? ==> Above(hs, i, e.at, hs[i])
    decreases |ts| - j, 1, 9 - level
  {
    ParseKeeps(ts, hs, j, level);
  }

  lemma {:induction false} ParseKeeps(ts: seq<Token>, hs: seq<int>, i: nat, level: nat)
    requires Stream(ts) && Heights(ts, hs) && i < |ts| && level <= 7
    ensures Keeps(hs, i, Parse(ts, i, level))
    decreases |ts| - i, 1, 8 - level
  {
    if level == 0 {
      ParseKeeps(ts, hs, i, 1);
    } else if level == 7 {
      PrimaryKeeps(ts, hs, i);
    } else if level == 6 {
      if ts[i] == TIdent("not") || ts[i] == Minus {
        StepUp(ts, hs, i, i, hs[i]);
        ThenParse(ts, hs, i, i + 1, 6);
      } else {
        ParseKeeps(ts, hs, i, 7);
      }
    } else {
      ParseKeeps(ts, hs, i, level + 1);
      var a := Parse(ts, i, level + 1);
      if a.Done? {
        if level == 3 {
          CompareKeeps(ts, hs, i, a.at, a.value);
        } else {
          ChainKeeps(ts, hs, i, a.at, level, a.value);
        }
      }
    }
  }

  lemma {:induction false} CompareKeeps(ts: seq<Token>, hs: seq<int>, i: nat, j: nat, left: Expr)
    requires Stream(ts) && Heights(ts, hs) && i <= j < |ts| && Above(hs, i, j, hs[i])
    ensures var r := Compare(ts, j, left); r.Done? ==> Above(hs, i, r.at, hs[i])
    decreases |ts| - j, 2
  {
    if OperatorAt(ts[j], 3).Some? {
      StepUp(ts, hs, i, j, hs[i]);
      ThenParse(ts, hs, i, j + 1, 4);
    }
  }

  lemma {:induction false} ChainKeeps(ts: seq<Token>, hs: seq<int>, i: nat, j: nat, level: nat, left: Expr)
    requires Stream(ts) && Heights(ts, hs) && i <= j < |ts| && 1 <= level <= 5 && Above(hs, i, j, hs[i])
    ensures var r := Chain(ts, j, level, left); r.Done? ==> Above(hs, i, r.at, hs[i])
    decreases |ts| - j, 2
  {
    var op := OperatorAt(ts[j], level);
    if op.Some? {
      StepUp(ts, hs, i, j, hs[i]);
      ThenParse(ts, hs, i, j + 1, level + 1);
      var b := Parse(ts, j + 1, level + 1);
      if b.Done? {
        ChainKeeps(ts, hs, i, b.at, level, Binary(op.value, left, b.value));
      }
    }
  }

  lemma {:induction false} PrimaryKeeps(ts: seq<Token>, hs: seq<int>, i: nat)
    requires Stream(ts) && Heights(ts, hs) && i < |ts|
    ensures Keeps(hs, i, Primary(ts, i))
    decreases |ts| - i, 0
  {
    var base := hs[i];
    if ts[i] != Dedent { StepUp(ts, hs, i, i, base); }
    match ts[i]
    case LParen =>
      ThenParse(ts, hs, i, i + 1, 0);
      var e := Parse(ts, i + 1, 0);
      if e.Done? { Close(ts, hs, i, e.at, base); }
    case TIdent(name) =>
      if name == "if" {
        ConditionalKeeps(ts, hs, i + 1);
      } else if name == "match" {
        MatchKeeps(ts, hs, i, i + 1);
      } else {
        NamedKeeps(ts, hs, i, i + 1, name);
      }
    case _ =>
  }

  lemma {:induction false} MatchKeeps(ts: seq<Token>, hs: seq<int>, i: nat, j: nat)
    requires Stream(ts) && Heights(ts, hs) && i < j < |ts| && Above(hs, i, j, hs[i])
    ensures var r := Matching(ts, j); r.Done? ==> Above(hs, i, r.at, hs[i])
    decreases |ts| - j, 3
  {
    var base := hs[i];
    ThenParse(ts, hs, i, j, 0);
    var s := Parse(ts, j, 0);
    if s.Done? && ts[s.at] == Colon && ts[s.at + 1] == Newline && ts[s.at + 2] == Indent {
      StepUp(ts, hs, i, s.at, base);
      StepUp(ts, hs, i, s.at + 1, base);
      StepUp(ts, hs, i, s.at + 2, base);
      ArmsKeep(ts, hs, i, s.at + 3, base);
    }
  }

  /** Inside a match block the arms stay above its INDENT. */
  lemma {:induction false} ArmsKeep(ts: seq<Token>, hs: seq<int>, i: nat, j: nat, base: int)
    requires Stream(ts) && Heights(ts, hs) && i < j < |ts| && Above(hs, i, j, base) && hs[j] >= base + 1
    ensures var r := Arms(ts, j); r.Done? ==> Above(hs, i, r.at, base)
    decreases |ts| - j, 4
  {
    if ts[j] == Dedent {
      StepUp(ts, hs, i, j, base);
    } else if ts[j] == Newline {
      StepUp(ts, hs, i, j, base);
      ArmsKeep(ts, hs, i, j + 1, base);
    } else {
      OneArmKeeps(ts, hs, i, j, base);
      var arm := OneArm(ts, j);
      if arm.Done? { ArmsKeep(ts, hs, i, arm.at, base); }
    }
  }

  lemma {:induction false} OneArmKeeps(ts: seq<Token>, hs: seq<int>, i: nat, j: nat, base: int)
    requires Stream(ts) && Heights(ts, hs) && i < j < |ts| && Above(hs, i, j, base) && hs[j] >= base + 1
    ensures var r := OneArm(ts, j); r.Done? ==> Above(hs, i, r.at, base) && hs[r.at] >= base + 1
    decreases |ts| - j, 3
  {
    if ts[j].TIdent? {
      StepUp(ts, hs, i, j, base);
      ArmBindersFlat(ts, hs, j + 1, i, base);
      var bs := ArmBinders(ts, j + 1);
      if bs.Done? && ts[bs.at] == FatArrow {
        ArmBodyKeeps(ts, hs, i, bs.at, base);
      }
    }
  }

  lemma {:induction false} ArmBodyKeeps(ts: seq<Token>, hs: seq<int>, i: nat, j: nat, base: int)
    requires Stream(ts) && Heights(ts, hs) && i < j < |ts| && Above(hs, i, j, base) && hs[j] >= base + 1 &&
      ts[j] == FatArrow
    ensures j + 1 < |ts|
    ensures var b := Parse(ts, j + 1, 0);
      b.Done? && ts[b.at] == Newline ==> b.at + 1 < |ts| && Above(hs, i, b.at + 1, base) && hs[b.at + 1] >= base + 1
    decreases |ts| - j, 2
  {
    StepUp(ts, hs, i, j, base);
    ParseKeeps(ts, hs, j + 1, 0);
    var b := Parse(ts, j + 1, 0);
    if b.Done? && ts[b.at] == Newline {
      StepUp(ts, hs, i, b.at, base);
    }
  }

  lemma ArmBindersFlat(ts: seq<Token>, hs: seq<int>, j: nat, i: nat, base: int)
    requires Stream(ts) && Heights(ts, hs) && i <= j < |ts| && Above(hs, i, j, base)
    ensures var r := ArmBinders(ts, j); r.Done? ==> Above(hs, i, r.at, base) && hs[r.at] == hs[j]
  {
    if ts[j] == LParen {
      StepUp(ts, hs, i, j, base);
      BindersFlat(ts, hs, j + 1, i, base);
    }
  }

  lemma {:induction false} BindersFlat(ts: seq<Token>, hs: seq<int>, j: nat, i: nat, base: int)
    requires Stream(ts) && Heights(ts, hs) && i <= j < |ts| && Above(hs, i, j, base)
    ensures var r := Binders(ts, j); r.Done? ==> Above(hs, i, r.at, base) && hs[r.at] == hs[j]
    decreases |ts| - j, 1
  {
    if ts[j] == RParen {
      StepUp(ts, hs, i, j, base);
    } else {
      MoreBindersFlat(ts, hs, j, i, base);
    }
  }

  lemma {:induction false} MoreBindersFlat(ts: seq<Token>, hs: seq<int>, j: nat, i: nat, base: int)
    requires Stream(ts) && Heights(ts, hs) && i <= j < |ts| && Above(hs, i, j, base)
    ensures var r := MoreBinders(ts, j); r.Done? ==> Above(hs, i, r.at, base) && hs[r.at] == hs[j]
    decreases |ts| - j, 0
  {
    if ts[j].TIdent? {
      StepUp(ts, hs, i, j, base);
      if ts[j + 1] == Comma {
        StepUp(ts, hs, i, j + 1, base);
        MoreBindersFlat(ts, hs, j + 2, i, base);
      } else if ts[j + 1] == RParen {
        StepUp(ts, hs, i, j + 1, base);
      }
    }
  }

  // ----- calls and constructions -----

  lemma {:induction false} NamedKeeps(ts: seq<Token>, hs: seq<int>, i: nat, j: nat, name: string)
    requires Stream(ts) && Heights(ts, hs) && i < j < |ts| && Above(hs, i, j, hs[i])
    ensures var r := Named(ts, j, name); r.Done? ==> Above(hs, i, r.at, hs[i])
    decreases |ts| - j, 4
  {
    var base := hs[i];
    match ts[j]
    case DoubleColon =>
      StepUp(ts, hs, i, j, base);
      VariantKeeps(ts, hs, i, j + 1, name);
    case LBrace =>
      StepUp(ts, hs, i, j, base);
      FieldsKeep(ts, hs, i, j + 1);
    case LParen => CallKeeps(ts, hs, i, j, name);
    case _ => PathKeeps(ts, hs, i, j, Ident(name));
  }

  lemma {:induction false} VariantKeeps(ts: seq<Token>, hs: seq<int>, i: nat, j: nat, name: string)
    requires Stream(ts) && Heights(ts, hs) && i < j < |ts| && Above(hs, i, j, hs[i])
    ensures var r := Variant(ts, j, name); r.Done? ==> Above(hs, i, r.at, hs[i])
    decreases |ts| - j, 4
  {
    if ts[j].TIdent? {
      StepUp(ts, hs, i, j, hs[i]);
      if ts[j + 1] == LBrace {
        StepUp(ts, hs, i, j + 1, hs[i]);
        FieldsKeep(ts, hs, i, j + 2);
      }
    }
  }

  lemma {:induction false} CallKeeps(ts: seq<Token>, hs: seq<int>, i: nat, j: nat, name: string)
    requires Stream(ts) && Heights(ts, hs) && i < j < |ts| && ts[j] == LParen && Above(hs, i, j, hs[i])
    ensures var r := CallOf(ts, j, name); r.Done? ==> Above(hs, i, r.at, hs[i])
    decreases |ts| - j, 3
  {
    if AggregateOf(name).Some? {
      AggregationKeeps(ts, hs, i, j, AggregateOf(name).value);
    } else if Production(name).Some? {
      ItemsKeep(ts, hs, i, j, Production(name).value);
    } else {
      StepUp(ts, hs, i, j, hs[i]);
      ArgumentsKeep(ts, hs, i, j + 1);
    }
  }

  lemma {:induction false} PathKeeps(ts: seq<Token>, hs: seq<int>, i: nat, j: nat, e: Expr)
    requires Stream(ts) && Heights(ts, hs) && i <= j < |ts| && Above(hs, i, j, hs[i])
    ensures var r := Path(ts, j, e); r.Done? ==> Above(hs, i, r.at, hs[i])
    decreases |ts| - j, 0
  {
    if ts[j] == Dot && ts[j + 1].TIdent? {
      StepUp(ts, hs, i, j, hs[i]);
      StepUp(ts, hs, i, j + 1, hs[i]);
      PathKeeps(ts, hs, i, j + 2, Field(e, ts[j + 1].name));
    }
  }

  lemma {:induction false} ItemsKeep(ts: seq<Token>, hs: seq<int>, i: nat, j: nat, items: seq<Item>)
    requires Stream(ts) && Heights(ts, hs) && i <= j < |ts| && Above(hs, i, j, hs[i]) && Tok(Eof) !in items &&
      Tok(Dedent) !in items
    ensures var r := Items(ts, j, items); r.Done? ==> Above(hs, i, r.at, hs[i])
    decreases |ts| - j, 2, |items|
  {
    if items != [] {
      var rest := items[1..];
      match items[0]
      case Tok(t) => if ts[j] == t { StepUp(ts, hs, i, j, hs[i]); ItemsKeep(ts, hs, i, j + 1, rest); }
      case Id => if ts[j].TIdent? { StepUp(ts, hs, i, j, hs[i]); ItemsKeep(ts, hs, i, j + 1, rest); }
      case Ex =>
        ThenParse(ts, hs, i, j, 0);
        var e := Parse(ts, j, 0);
        if e.Done? { ItemsKeep(ts, hs, i, e.at, rest); }
    }
  }

  lemma {:induction false} AggregationKeeps(ts: seq<Token>, hs: seq<int>, i: nat, j: nat, g: Aggregate)
    requires Stream(ts) && Heights(ts, hs) && i <= j < |ts| && ts[j] == LParen && Above(hs, i, j, hs[i])
    ensures var r := Aggregation(ts, j, g); r.Done? ==> Above(hs, i, r.at, hs[i])
    decreases |ts| - j, 2
  {
    var base := hs[i];
    StepUp(ts, hs, i, j, base);
    ThenParse(ts, hs, i, j + 1, 0);
    var c := Parse(ts, j + 1, 0);
    if c.Done? && ts[c.at] == Comma {
      StepUp(ts, hs, i, c.at, base);
      ThenParse(ts, hs, i, c.at + 1, 0);
      var second := Parse(ts, c.at + 1, 0);
      if second.Done? {
        Close(ts, hs, i, second.at, base);
        LambdaKeeps(ts, hs, i, c.at + 1);
      }
    }
  }

  lemma {:induction false} LambdaKeeps(ts: seq<Token>, hs: seq<int>, i: nat, j: nat)
    requires Stream(ts) && Heights(ts, hs) && i <= j < |ts| && Above(hs, i, j, hs[i])
    ensures var r := LambdaTail(ts, j); r.Done? ==> Above(hs, i, r.at, hs[i])
    decreases |ts| - j, 2
  {
    var base := hs[i];
    if ts[j].TIdent? && ts[j + 1] == FatArrow {
      StepUp(ts, hs, i, j, base);
      StepUp(ts, hs, i, j + 1, base);
      ThenParse(ts, hs, i, j + 2, 0);
      var b := Parse(ts, j + 2, 0);
      if b.Done? { Close(ts, hs, i, b.at, base); }
    }
  }

  /** A closing parenthesis, if one follows. */
  lemma Close(ts: seq<Token>, hs: seq<int>, i: nat, j: nat, base: int)
    requires Heights(ts, hs) && i <= j < |ts| && Above(hs, i, j, base)
    ensures ts[j] == RParen ==> Above(hs, i, j + 1, base)
  {
    if ts[j] == RParen { StepUp(ts, hs, i, j, base); }
  }

  lemma {:induction false} ArgumentsKeep(ts: seq<Token>, hs: seq<int>, i: nat, j: nat)
    requires Stream(ts) && Heights(ts, hs) && i <= j < |ts| && Above(hs, i, j, hs[i])
    ensures var r := Arguments(ts, j); r.Done? ==> Above(hs, i, r.at, hs[i])
    decreases |ts| - j, 3
  {
    Close(ts, hs, i, j, hs[i]);
    if ts[j] != RParen { MoreArgumentsKeep(ts, hs, i, j); }
  }

  lemma {:induction false} MoreArgumentsKeep(ts: seq<Token>, hs: seq<int>, i: nat, j: nat)
    requires Stream(ts) && Heights(ts, hs) && i <= j < |ts| && Above(hs, i, j, hs[i])
    ensures var r := MoreArguments(ts, j); r.Done? ==> Above(hs, i, r.at, hs[i])
    decreases |ts| - j, 2
  {
    ThenParse(ts, hs, i, j, 0);
    var e := Parse(ts, j, 0);
    if e.Done? {
      Close(ts, hs, i, e.at, hs[i]);
      if ts[e.at] == Comma {
        StepUp(ts, hs, i, e.at, hs[i]);
        MoreArgumentsKeep(ts, hs, i, e.at + 1);
      }
    }
  }

  lemma {:induction false} FieldsKeep(ts: seq<Token>, hs: seq<int>, i: nat, j: nat)
    requires Stream(ts) && Heights(ts, hs) && i <= j < |ts| && Above(hs, i, j, hs[i])
    ensures var r := Fields(ts, j); r.Done? ==> Above(hs, i, r.at, hs[i])
    decreases |ts| - j, 3
  {
    var base := hs[i];
    if ts[j] == RBrace {
      StepUp(ts, hs, i, j, base);
    } else if ts[j].TIdent? && ts[j + 1] == Colon {
      StepUp(ts, hs, i, j, base);
      StepUp(ts, hs, i, j + 1, base);
      ThenParse(ts, hs, i, j + 2, 0);
      var e := Parse(ts, j + 2, 0);
      if e.Done? {
        if ts[e.at] == Comma {
          StepUp(ts, hs, i, e.at, base);
          FieldsKeep(ts, hs, i, e.at + 1);
        } else if ts[e.at] == RBrace {
          StepUp(ts, hs, i, e.at, base);
        }
      }
    }
  }

  /** For every stream and position: at no point has the expression read there
      consumed more DEDENTs than INDENTs. */
  lemma LayoutDiscipline(ts: seq<Token>, i: nat, m: nat)
    requires Stream(ts) && i < |ts|
    ensures var r := Parse(ts, i, 0); r.Done? && i <= m <= r.at ==> Depth(ts[i..m]) >= 0
  {
    var hs := HeightsExist(ts);
    ParseKeeps(ts, hs, i, 0);
    var r := Parse(ts, i, 0);
    if r.Done? && i <= m <= r.at {
      HeightIsDepth(ts, hs, i, m);
    }
  }
}
