/** What each form of the language means, said of whole expressions and without
    the evaluator's own recursion. */
module EvalLaws {
  import opened Int64
  import opened Ast
  import opened TextOps
  import opened Interp
  import opened IntervalArith
  import opened Refinement
  import opened ScalarLaws

  // ----- one node over evaluated operands -----

  lemma PrimRun(c: Ctx, op: PrimOp, a: Expr, b: Expr, v: Value, w: Value, env: Env, k: nat)
    requires Eval(c, a, env, k) == Good(v) && Eval(c, b, env, k) == Good(w)
    ensures Eval(c, Prim(op, a, b), env, k) == ApplyPrim(c.sem, op, v, w)
  {
  }

  lemma TableRun(c: Ctx, t: Expr, env: Env, k: nat)
    requires IsTable(t)
    ensures Eval(c, t, env, k) == Good(if t.Text? then VText(Table(t)) else VBytes(Table(t)))
  {
  }

  lemma FieldRun(c: Ctx, e: Expr, m: map<string, Value>, f: string, env: Env, k: nat)
    requires Eval(c, e, env, k) == Good(VRecord(m)) && f in m
    ensures Eval(c, Field(e, f), env, k) == Good(m[f])
  {
  }

  lemma RecordRun(c: Ctx, n: string, fs: seq<FieldInit>, m: map<string, Value>, env: Env, k: nat)
    requires !c.sem.monitor.Types? && EvalInits(c, fs, env, map[], k) == Good(m)
    ensures Eval(c, Construct(n, None, fs), env, k) == Good(VRecord(m))
  {
  }

  // ----- all and any -----

  /** The body at one item. */
  function At(c: Ctx, body: Expr, x: string, item: Value, env: Env, k: nat): Res<Value> {
    Eval(c, body, env[x := item], k)
  }

  /** The first j items leave the answer open: each gives the boolean `all`. */
  ghost predicate Open(c: Ctx, all: bool, body: Expr, x: string, items: seq<Value>, j: nat, env: Env, k: nat) {
    j <= |items| && forall i | 0 <= i < j :: At(c, body, x, items[i], env, k) == Good(MkBool(c.sem, all))
  }

  lemma BoolBack(m: Sem, b: bool)
    ensures AsBool(m, MkBool(m, b)) == Some(b)
  {
  }

  lemma {:induction false} QuantifierSkips(c: Ctx, all: bool, body: Expr, x: string, items: seq<Value>, j: nat,
      env: Env, k: nat)
    requires Open(c, all, body, x, items, j, env, k)
    ensures EvalQuantifier(c, all, body, x, items, env, k) == EvalQuantifier(c, all, body, x, items[j..], env, k)
    decreases j
  {
    if j == 0 {
      assert items[0..] == items;
    } else {
      assert At(c, body, x, items[0], env, k) == Good(MkBool(c.sem, all));
      BoolBack(c.sem, all);
      forall i | 0 <= i < j - 1
        ensures At(c, body, x, items[1..][i], env, k) == Good(MkBool(c.sem, all))
      {
        assert items[1..][i] == items[i + 1];
      }
      QuantifierSkips(c, all, body, x, items[1..], j - 1, env, k);
      assert items[1..][j - 1..] == items[j..];
    }
  }

  /** Where the first j items leave the answer open: with no item left the answer
      is `all`; a failing item gives its failure; an item that answers the
      opposite decides; anything but a boolean is stuck. */
  lemma QuantifierDecides(c: Ctx, all: bool, coll: Expr, x: string, body: Expr, items: seq<Value>, j: nat,
      env: Env, k: nat)
    requires Eval(c, coll, env, k) == Good(VList(items)) && Open(c, all, body, x, items, j, env, k)
    ensures var r := Eval(c, Quantifier(all, coll, x, body), env, k);
      if j == |items| then r == Good(MkBool(c.sem, all))
      else
        var v := At(c, body, x, items[j], env, k);
        && (v.Bad? ==> r == v)
        && (v == Good(MkBool(c.sem, !all)) ==> r == v)
        && (v.Good? && AsBool(c.sem, v.value).None? ==> r == Bad(Stuck))
  {
    QuantifierSkips(c, all, body, x, items, j, env, k);
    BoolBack(c.sem, !all);
    QuantifierRun(c, all, coll, x, body, env, k, Good(VList(items)));
    if j < |items| {
      assert items[j..][0] == items[j];
    }
  }

  /** The body gives the boolean bs[i] at each item. */
  ghost predicate Answers(c: Ctx, body: Expr, x: string, items: seq<Value>, bs: seq<bool>, env: Env, k: nat) {
    |bs| == |items| && forall i | 0 <= i < |items| :: At(c, body, x, items[i], env, k) == Good(MkBool(c.sem, bs[i]))
  }

  lemma {:induction false} FirstOther(bs: seq<bool>, b: bool) returns (j: nat)
    ensures j <= |bs| && (forall i | 0 <= i < j :: bs[i] == b) && (j < |bs| ==> bs[j] != b)
    decreases |bs|
  {
    if bs == [] || bs[0] != b {
      j := 0;
    } else {
      var n := FirstOther(bs[1..], b);
      j := n + 1;
      forall i | 0 <= i < j
        ensures bs[i] == b
      {
        assert i > 0 ==> bs[i] == bs[1..][i - 1];
      }
      assert n < |bs[1..]| ==> bs[1..][n] == bs[j];
    }
  }

  /** `all` is true exactly when every item is accepted. */
  lemma AllIsEvery(c: Ctx, coll: Expr, x: string, body: Expr, items: seq<Value>, bs: seq<bool>, env: Env, k: nat)
    requires Eval(c, coll, env, k) == Good(VList(items)) && Answers(c, body, x, items, bs, env, k)
    ensures Eval(c, Quantifier(true, coll, x, body), env, k) ==
      Good(MkBool(c.sem, forall i | 0 <= i < |bs| :: bs[i]))
  {
    var j := FirstOther(bs, true);
    QuantifierDecides(c, true, coll, x, body, items, j, env, k);
    assert j < |bs| ==> !bs[j];
  }

  /** `any` is true exactly when some item is accepted. */
  lemma AnyIsSome(c: Ctx, coll: Expr, x: string, body: Expr, items: seq<Value>, bs: seq<bool>, env: Env, k: nat)
    requires Eval(c, coll, env, k) == Good(VList(items)) && Answers(c, body, x, items, bs, env, k)
    ensures Eval(c, Quantifier(false, coll, x, body), env, k) ==
      Good(MkBool(c.sem, exists i | 0 <= i < |bs| :: bs[i]))
  {
    var j := FirstOther(bs, false);
    QuantifierDecides(c, false, coll, x, body, items, j, env, k);
    assert j < |bs| ==> bs[j];
  }

  // ----- map and filter -----

  /** `map` is pointwise. */
  lemma MapIsPointwise(c: Ctx, coll: Expr, x: string, body: Expr, items: seq<Value>, ws: seq<Value>, env: Env, k: nat)
    requires Eval(c, coll, env, k) == Good(VList(items)) && |ws| == |items|
    requires forall i | 0 <= i < |items| :: At(c, body, x, items[i], env, k) == Good(ws[i])
    ensures Eval(c, Collect(false, coll, x, body), env, k) == Good(VList(ws))
  {
    MapItems(c, x, body, items, ws, env, k);
    CollectRun(c, false, coll, x, body, env, k, Good(VList(items)));
  }

  lemma {:induction false} MapItems(c: Ctx, x: string, body: Expr, items: seq<Value>, ws: seq<Value>, env: Env, k: nat)
    requires |ws| == |items| && forall i | 0 <= i < |items| :: At(c, body, x, items[i], env, k) == Good(ws[i])
    ensures EvalCollect(c, false, body, x, items, env, k) == Good(ws)
    decreases |items|
  {
    if items != [] {
      assert At(c, body, x, items[0], env, k) == Good(ws[0]);
      MapItems(c, x, body, items[1..], ws[1..], env, k);
      assert [ws[0]] + ws[1..] == ws;
    }
  }

  /** How many of the first i answers are true. */
  function Accepted(bs: seq<bool>, i: nat): nat
    requires i <= |bs|
  {
    if i == 0 then 0 else Accepted(bs, i - 1) + if bs[i - 1] then 1 else 0
  }

  /** `out` holds exactly the accepted items, in their order: as many as are
      accepted, and the i-th item, if accepted, after those accepted before it. */
  ghost predicate Keeps(items: seq<Value>, bs: seq<bool>, out: seq<Value>) {
    && |items| == |bs| && |out| == Accepted(bs, |bs|)
    && forall i | 0 <= i < |bs| && bs[i] :: Accepted(bs, i) < |out| && out[Accepted(bs, i)] == items[i]
  }

  lemma {:induction false} AcceptedTail(bs: seq<bool>, i: nat)
    requires bs != [] && i < |bs|
    ensures Accepted(bs, i + 1) == Accepted(bs[1..], i) + if bs[0] then 1 else 0
  {
    if i == 0 {
      assert Accepted(bs, 0) == 0 && Accepted(bs[1..], 0) == 0;
    } else {
      AcceptedTail(bs, i - 1);
    }
  }

  lemma KeepsTail(items: seq<Value>, bs: seq<bool>, out: seq<Value>)
    requires items != [] && |items| == |bs| && Keeps(items[1..], bs[1..], out)
    ensures Keeps(items, bs, (if bs[0] then [items[0]] else []) + out)
  {
    var all := (if bs[0] then [items[0]] else []) + out;
    AcceptedTail(bs, |bs| - 1);
    forall i | 0 <= i < |bs| && bs[i]
      ensures Accepted(bs, i) < |all| && all[Accepted(bs, i)] == items[i]
    {
      if i > 0 {
        AcceptedTail(bs, i - 1);
        assert bs[1..][i - 1] && items[1..][i - 1] == items[i];
      }
    }
  }

  /** `filter` keeps exactly the accepted items, in order. */
  lemma FilterKeeps(c: Ctx, coll: Expr, x: string, body: Expr, items: seq<Value>, bs: seq<bool>, env: Env, k: nat)
    requires Eval(c, coll, env, k) == Good(VList(items)) && Answers(c, body, x, items, bs, env, k)
    ensures var r := Eval(c, Collect(true, coll, x, body), env, k);
      r.Good? && r.value.VList? && Keeps(items, bs, r.value.items)
  {
    FilterItems(c, x, body, items, bs, env, k);
    CollectRun(c, true, coll, x, body, env, k, Good(VList(items)));
  }

  lemma {:induction false} FilterItems(c: Ctx, x: string, body: Expr, items: seq<Value>, bs: seq<bool>, env: Env,
      k: nat)
    requires Answers(c, body, x, items, bs, env, k)
    ensures var r := EvalCollect(c, true, body, x, items, env, k); r.Good? && Keeps(items, bs, r.value)
    decreases |items|
  {
    if items != [] {
      assert At(c, body, x, items[0], env, k) == Good(MkBool(c.sem, bs[0]));
      BoolBack(c.sem, bs[0]);
      FilterItems(c, x, body, items[1..], bs[1..], env, k);
      KeepsTail(items, bs, EvalCollect(c, true, body, x, items[1..], env, k).value);
    }
  }

  /** The first item that fails gives `map` and `filter` its failure. */
  lemma CollectFails(c: Ctx, keep: bool, coll: Expr, x: string, body: Expr, items: seq<Value>, j: nat, env: Env, k: nat)
    requires Eval(c, coll, env, k) == Good(VList(items)) && j < |items| && At(c, body, x, items[j], env, k).Bad?
    requires forall i | 0 <= i < j :: var v := At(c, body, x, items[i], env, k);
      v.Good? && (keep ==> AsBool(c.sem, v.value).Some?)
    ensures Eval(c, Collect(keep, coll, x, body), env, k) == At(c, body, x, items[j], env, k)
  {
    CollectStops(c, keep, x, body, items, j, env, k);
    CollectRun(c, keep, coll, x, body, env, k, Good(VList(items)));
  }

  lemma {:induction false} CollectStops(c: Ctx, keep: bool, x: string, body: Expr, items: seq<Value>, j: nat,
      env: Env, k: nat)
    requires j < |items| && At(c, body, x, items[j], env, k).Bad?
    requires forall i | 0 <= i < j :: var v := At(c, body, x, items[i], env, k);
      v.Good? && (keep ==> AsBool(c.sem, v.value).Some?)
    ensures var r := EvalCollect(c, keep, body, x, items, env, k);
      r.Bad? && r.fault == At(c, body, x, items[j], env, k).fault
    decreases j
  {
    if j > 0 {
      assert At(c, body, x, items[0], env, k).Good?;
      forall i | 0 <= i < j - 1
        ensures var v := At(c, body, x, items[1..][i], env, k); v.Good? && (keep ==> AsBool(c.sem, v.value).Some?)
      {
        assert items[1..][i] == items[i + 1];
      }
      CollectStops(c, keep, x, body, items[1..], j - 1, env, k);
    }
  }

  // ----- folds -----

  /** `fold` threads its accumulator through the items. */
  lemma FoldThreads(c: Ctx, coll: Expr, init: Expr, acc: string, x: string, body: Expr, items: seq<Value>,
      accs: seq<Value>, env: Env, k: nat)
    requires Eval(c, coll, env, k) == Good(VList(items)) && |accs| == |items| + 1 &&
      Eval(c, init, env, k) == Good(accs[0])
    requires forall i | 0 <= i < |items| ::
      Eval(c, body, env[acc := accs[i]][x := items[i]], k) == Good(accs[i + 1])
    ensures Eval(c, Fold(coll, init, acc, x, body), env, k) == Good(accs[|items|])
  {
    FoldItemsThread(c, body, acc, x, items, accs, env, k);
    FoldRun(c, coll, init, acc, x, body, env, k, Good(VList(items)), Good(accs[0]));
  }

  lemma {:induction false} FoldItemsThread(c: Ctx, body: Expr, acc: string, x: string, items: seq<Value>,
      accs: seq<Value>, env: Env, k: nat)
    requires |accs| == |items| + 1
    requires forall i | 0 <= i < |items| ::
      Eval(c, body, env[acc := accs[i]][x := items[i]], k) == Good(accs[i + 1])
    ensures EvalFold(c, body, acc, x, accs[0], items, env, k) == Good(accs[|items|])
    decreases |items|
  {
    if items != [] {
      assert Eval(c, body, env[acc := accs[0]][x := items[0]], k) == Good(accs[0 + 1]);
      forall i | 0 <= i < |items[1..]|
        ensures Eval(c, body, env[acc := accs[1..][i]][x := items[1..][i]], k) == Good(accs[1..][i + 1])
      {
        assert accs[1..][i] == accs[i + 1] && items[1..][i] == items[i + 1] && accs[1..][i + 1] == accs[i + 1 + 1];
      }
      FoldItemsThread(c, body, acc, x, items[1..], accs[1..], env, k);
    }
  }

  /** One step of a fold over bytes: the byte and its index are in scope. */
  function ByteStep(c: Ctx, e: Expr, a: i64, s: Bytes, i: nat, env: Env, k: nat): Res<Value>
    requires e.FoldBytes? && i < |s| && Fits(i)
  {
    Eval(c, e.body, env[e.acc := VNumber(a)][e.byte := VNumber(s[i])][e.idx := VNumber(i)], k)
  }

  /** `fold_bytes` threads a number through the bytes of a text. */
  lemma FoldBytesThreads(c: Ctx, e: Expr, s: Bytes, accs: seq<i64>, env: Env, k: nat)
    requires e.FoldBytes? && Fits(|s|) && |accs| == |s| + 1
    requires Eval(c, e.text, env, k) == Good(VText(s)) && Eval(c, e.init, env, k) == Good(VNumber(accs[0]))
    requires forall i | 0 <= i < |s| :: ByteStep(c, e, accs[i], s, i, env, k) == Good(VNumber(accs[i + 1]))
    ensures Eval(c, e, env, k) == Good(VNumber(accs[|s|]))
  {
    BytesThread(c, e, s, accs, 0, env, k);
  }

  lemma {:induction false} BytesThread(c: Ctx, e: Expr, s: Bytes, accs: seq<i64>, i: nat, env: Env, k: nat)
    requires e.FoldBytes? && Fits(|s|) && |accs| == |s| + 1 && i <= |s|
    requires forall i | 0 <= i < |s| :: ByteStep(c, e, accs[i], s, i, env, k) == Good(VNumber(accs[i + 1]))
    ensures EvalFoldBytes(c, e, VNumber(accs[i]), s, i, env, k) == Good(VNumber(accs[|s|]))
    decreases |s| - i
  {
    if i < |s| {
      assert ByteStep(c, e, accs[i], s, i, env, k) == Good(VNumber(accs[i + 1]));
      BytesThread(c, e, s, accs, i + 1, env, k);
    }
  }

  // ----- operators -----

  /** `and` and `or` are the connectives, and skip an operand that cannot matter. */
  lemma Connectives(c: Ctx, a: Expr, b: Expr, x: bool, env: Env, k: nat)
    requires Eval(c, a, env, k) == Good(MkBool(c.sem, x))
    ensures !x ==> Eval(c, Binary(And, a, b), env, k) == Good(MkBool(c.sem, false))
    ensures x ==> Eval(c, Binary(Or, a, b), env, k) == Good(MkBool(c.sem, true))
    ensures forall y :: Eval(c, b, env, k) == Good(MkBool(c.sem, y)) ==>
      && Eval(c, Binary(And, a, b), env, k) == Good(MkBool(c.sem, x && y))
      && Eval(c, Binary(Or, a, b), env, k) == Good(MkBool(c.sem, x || y))
  {
    BoolBack(c.sem, x);
    forall y { BoolBack(c.sem, y); }
  }

  /** Division rounds toward zero and faults exactly on zero and on MIN / -1. */
  ghost predicate Divides(x: i64, y: i64, q: Res<Value>, r: Res<Value>) {
    if y == 0 then q == Bad(DivZero) && r == Bad(DivZero)
    else if x == MIN && y == -1 then q == Bad(MinDiv) && r == Bad(MinDiv)
    else
      && q.Good? && r.Good? && q.value.VNumber? && r.value.VNumber? && x == q.value.n * y + r.value.n
      && Int64.Abs(r.value.n) < Int64.Abs(y) && (x >= 0 ==> r.value.n >= 0) && (x <= 0 ==> r.value.n <= 0)
  }

  lemma NumbersDivide(m: Sem, x: i64, y: i64)
    ensures Divides(x, y, ApplyNumbers(m, Div, x, y), ApplyNumbers(m, Mod, x, y))
  {
    if y != 0 {
      TruncDivMod(x, y);
      if x != MIN || y != -1 {
        QuotientFits(x, y);
      }
    }
  }

  lemma QuotientFits(x: i64, y: i64)
    requires y != 0 && (x != MIN || y != -1)
    ensures Fits(TruncDiv(x, y)) && Fits(TruncMod(x, y))
  {
    DivShrinks(x, y);
    TruncDivMod(x, y);
  }

  lemma DivisionLaw(c: Ctx, a: Expr, b: Expr, x: i64, y: i64, env: Env, k: nat)
    requires Eval(c, a, env, k) == Good(VNumber(x)) && Eval(c, b, env, k) == Good(VNumber(y))
    ensures Divides(x, y, Eval(c, Binary(Div, a, b), env, k), Eval(c, Binary(Mod, a, b), env, k))
  {
    NumbersDivide(c.sem, x, y);
    assert Eval(c, Binary(Div, a, b), env, k) == ApplyNumbers(c.sem, Div, x, y);
    assert Eval(c, Binary(Mod, a, b), env, k) == ApplyNumbers(c.sem, Mod, x, y);
  }

  /** `band`, `bor`, `bxor` and `bnot`, bit by bit. */
  lemma BitLaws(c: Ctx, a: Expr, b: Expr, x: i64, y: i64, env: Env, k: nat, i: nat)
    requires Eval(c, a, env, k) == Good(VNumber(x)) && Eval(c, b, env, k) == Good(VNumber(y)) && i < 64
    ensures BitIs(Eval(c, Prim(PrimOp.BitAnd, a, b), env, k), i, Bit(x, i) && Bit(y, i))
    ensures BitIs(Eval(c, Prim(PrimOp.BitOr, a, b), env, k), i, Bit(x, i) || Bit(y, i))
    ensures BitIs(Eval(c, Prim(PrimOp.BitXor, a, b), env, k), i, Bit(x, i) != Bit(y, i))
  {
    BitRun(c, BAnd, PrimOp.BitAnd, a, b, x, y, env, k, i);
    BitRun(c, BOr, PrimOp.BitOr, a, b, x, y, env, k, i);
    BitRun(c, BXor, PrimOp.BitXor, a, b, x, y, env, k, i);
  }

  lemma BitRun(c: Ctx, bit: BitOp, op: PrimOp, a: Expr, b: Expr, x: i64, y: i64, env: Env, k: nat, i: nat)
    requires Eval(c, a, env, k) == Good(VNumber(x)) && Eval(c, b, env, k) == Good(VNumber(y)) && i < 64
    requires op == match bit case BAnd => PrimOp.BitAnd case BOr => PrimOp.BitOr case BXor => PrimOp.BitXor
    ensures BitIs(Eval(c, Prim(op, a, b), env, k), i, BitOne(bit, Bit(x, i), Bit(y, i)))
  {
    BitI64Bits(bit, x, y, i);
    BitApplied(c, bit, op, a, b, x, y, env, k, BitI64(bit, x, y));
  }

  lemma BitApplied(c: Ctx, bit: BitOp, op: PrimOp, a: Expr, b: Expr, x: i64, y: i64, env: Env, k: nat, r: i64)
    requires Eval(c, a, env, k) == Good(VNumber(x)) && Eval(c, b, env, k) == Good(VNumber(y)) && r == BitI64(bit, x, y)
    requires op == match bit case BAnd => PrimOp.BitAnd case BOr => PrimOp.BitOr case BXor => PrimOp.BitXor
    ensures Eval(c, Prim(op, a, b), env, k) == Good(VNumber(r))
  {
    PrimRun(c, op, a, b, VNumber(x), VNumber(y), env, k);
  }

  lemma BitNotLaw(c: Ctx, a: Expr, x: i64, env: Env, k: nat, i: nat)
    requires Eval(c, a, env, k) == Good(VNumber(x))
    ensures BitIs(Eval(c, Unary(BitNot, a), env, k), i, !Bit(x, i))
  {
    BitNotBits(x, i);
  }

  ghost predicate BitIs(r: Res<Value>, i: nat, b: bool) { r.Good? && r.value.VNumber? && Bit(r.value.n, i) == b }

  /** The bytes of `le32` and `le64`, lowest first, are the number modulo 2^32 and 2^64. */
  lemma LeLaws(c: Ctx, a: Expr, n: i64, env: Env, k: nat)
    requires Eval(c, a, env, k) == Good(VNumber(n))
    ensures var r := Eval(c, Unary(Le32, a), env, k);
      r.Good? && r.value.VBytes? && |r.value.bs| == 4 && Weighted(r.value.bs) == n % 0x1_0000_0000
    ensures var r := Eval(c, Unary(Le64, a), env, k);
      r.Good? && r.value.VBytes? && |r.value.bs| == 8 && Weighted(r.value.bs) == n % MODULUS
  {
    LittleEndianModulo(n);
  }

  // ----- text -----

  /** `starts_with`, `ends_with` and `contains` say how the text can be split. */
  lemma TextTests(c: Ctx, a: Expr, b: Expr, h: Bytes, n: Bytes, env: Env, k: nat)
    requires Eval(c, a, env, k) == Good(VText(h)) && Eval(c, b, env, k) == Good(VText(n))
    ensures Eval(c, Prim(StartsWith, a, b), env, k) == Good(MkBool(c.sem, exists t: Bytes :: h == n + t))
    ensures Eval(c, Prim(EndsWith, a, b), env, k) == Good(MkBool(c.sem, exists t: Bytes :: h == t + n))
    ensures Eval(c, Prim(Contains, a, b), env, k) ==
      Good(MkBool(c.sem, exists t: Bytes, u: Bytes :: h == t + n + u))
  {
    PrefixSplits(h, n);
    SuffixSplits(h, n);
    InfixSplits(h, n);
    PrimRun(c, StartsWith, a, b, VText(h), VText(n), env, k);
    PrimRun(c, EndsWith, a, b, VText(h), VText(n), env, k);
    PrimRun(c, Contains, a, b, VText(h), VText(n), env, k);
  }

  /** `substring` cuts out what stands between its bounds. */
  lemma SubstringCuts(c: Ctx, t: Expr, a: Expr, b: Expr, u: Bytes, m: Bytes, w: Bytes, env: Env, k: nat)
    requires Fits(|u| + |m|) && Eval(c, t, env, k) == Good(VText(u + m + w))
    requires Eval(c, a, env, k) == Good(VNumber(|u|)) && Eval(c, b, env, k) == Good(VNumber(|u| + |m|))
    ensures Eval(c, Substring(t, a, b), env, k) == Good(VText(m))
  {
    assert (u + m + w)[|u|..|u| + |m|] == m;
  }

  /** Bounds that are no part of the text fault. */
  lemma SubstringOutside(c: Ctx, t: Expr, a: Expr, b: Expr, s: Bytes, i: i64, j: i64, env: Env, k: nat)
    requires Eval(c, t, env, k) == Good(VText(s)) && !(0 <= i <= j <= |s|)
    requires Eval(c, a, env, k) == Good(VNumber(i)) && Eval(c, b, env, k) == Good(VNumber(j))
    ensures Eval(c, Substring(t, a, b), env, k) == Bad(Range)
  {
  }

  /** `byte_at` and `try_byte_at` give the byte that stands after so many others. */
  lemma ByteThere(c: Ctx, t: Expr, a: Expr, u: Bytes, b: Byte, w: Bytes, env: Env, k: nat)
    requires IsTable(t) && Table(t) == u + [b] + w && Fits(|u|) && Eval(c, a, env, k) == Good(VNumber(|u|))
    ensures Eval(c, Prim(ByteAt, t, a), env, k) == Good(VNumber(b))
    ensures Eval(c, TryByteAt(t, a), env, k) == Good(VOk(VNumber(b)))
  {
    assert (u + [b] + w)[|u|] == b;
    TableRun(c, t, env, k);
    PrimRun(c, ByteAt, t, a, if t.Text? then VText(Table(t)) else VBytes(Table(t)), VNumber(|u|), env, k);
  }

  /** Outside the table one faults and the other returns the bounds error. */
  lemma ByteOutside(c: Ctx, t: Expr, a: Expr, i: i64, env: Env, k: nat)
    requires IsTable(t) && !(0 <= i < |Table(t)|) && Eval(c, a, env, k) == Good(VNumber(i))
    ensures Eval(c, Prim(ByteAt, t, a), env, k) == Bad(Range)
    ensures Eval(c, TryByteAt(t, a), env, k) == Good(VErr(VBounds))
  {
    TableRun(c, t, env, k);
    PrimRun(c, ByteAt, t, a, if t.Text? then VText(Table(t)) else VBytes(Table(t)), VNumber(i), env, k);
  }

  /** A number printed by `concat` is read back by `parse_int`. */
  lemma ParseOfConcat(c: Ctx, a: Expr, n: i64, env: Env, k: nat)
    requires Eval(c, a, env, k) == Good(VNumber(n))
    ensures Eval(c, Unary(ParseInt, Concat([a])), env, k) == Good(VNumber(n))
  {
    DecimalParses(n);
    ConcatOne(c, a, VNumber(n), Decimal(n), env, k);
  }

  lemma ConcatOne(c: Ctx, a: Expr, v: Value, s: Bytes, env: Env, k: nat)
    requires Eval(c, a, env, k) == Good(v) && !v.VBytes? && Show(c.sem, v) == Good(s)
    ensures Eval(c, Concat([a]), env, k) == Good(VText(s))
  {
    assert [a][1..] == [] && EvalAll(c, [a][1..], env, k) == Good([]);
    assert EvalAll(c, [a], env, k) == Good([v] + []) && [v] + [] == [v];
    assert [v][1..] == [] && JoinText(c.sem, [v][1..]) == Good([]) && s + [] == s;
    assert JoinText(c.sem, [v]) == Good(s);
  }

  // ----- records and variants -----

  /** The initializers give the values vs. */
  ghost predicate Initial(c: Ctx, fs: seq<FieldInit>, vs: seq<Value>, env: Env, k: nat) {
    |vs| == |fs| && forall i | 0 <= i < |fs| :: Eval(c, fs[i].value, env, k) == Good(vs[i])
  }

  /** The last initializer of a name. */
  ghost predicate LastOf(fs: seq<FieldInit>, i: nat) {
    i < |fs| && forall j | i < j < |fs| :: fs[j].name != fs[i].name
  }

  /** The map of a record: the last initializer of each name, over what was there. */
  ghost predicate Filled(fs: seq<FieldInit>, vs: seq<Value>, m: map<string, Value>, out: map<string, Value>)
    requires |vs| == |fs|
  {
    && (forall i: nat | LastOf(fs, i) :: fs[i].name in out && out[fs[i].name] == vs[i])
    && (forall f | f in m && Unset(fs, f) :: f in out && out[f] == m[f])
  }

  ghost predicate Unset(fs: seq<FieldInit>, f: string) { forall j | 0 <= j < |fs| :: fs[j].name != f }

  lemma {:induction false} InitsLast(c: Ctx, fs: seq<FieldInit>, vs: seq<Value>, env: Env, m: map<string, Value>,
      k: nat)
    requires Initial(c, fs, vs, env, k)
    ensures var r := EvalInits(c, fs, env, m, k); r.Good? && Filled(fs, vs, m, r.value)
    decreases |fs|
  {
    if fs != [] {
      assert Eval(c, fs[0].value, env, k) == Good(vs[0]);
      forall i | 0 <= i < |fs[1..]|
        ensures Eval(c, fs[1..][i].value, env, k) == Good(vs[1..][i])
      {
        assert fs[1..][i] == fs[i + 1] && vs[1..][i] == vs[i + 1];
      }
      var m' := m[fs[0].name := vs[0]];
      InitsLast(c, fs[1..], vs[1..], env, m', k);
      FilledStep(fs, vs, m, EvalInits(c, fs[1..], env, m', k).value);
    }
  }

  lemma FilledStep(fs: seq<FieldInit>, vs: seq<Value>, m: map<string, Value>, out: map<string, Value>)
    requires |vs| == |fs| > 0 && Filled(fs[1..], vs[1..], m[fs[0].name := vs[0]], out)
    ensures Filled(fs, vs, m, out)
  {
    forall i: nat | LastOf(fs, i)
      ensures fs[i].name in out && out[fs[i].name] == vs[i]
    {
      LastInTail(fs, i);
      if i == 0 {
        assert Unset(fs[1..], fs[0].name);
      }
    }
    forall f | f in m && Unset(fs, f)
      ensures f in out && out[f] == m[f]
    {
      assert fs[0].name != f && Unset(fs[1..], f);
    }
  }

  lemma LastInTail(fs: seq<FieldInit>, i: nat)
    requires LastOf(fs, i)
    ensures i > 0 ==> LastOf(fs[1..], i - 1) && fs[1..][i - 1] == fs[i]
    ensures i == 0 ==> forall j | 0 <= j < |fs[1..]| :: fs[1..][j].name != fs[0].name
  {
  }

  /** A field of a record is the value its last initializer had. */
  lemma RecordReads(c: Ctx, n: string, fs: seq<FieldInit>, vs: seq<Value>, i: nat, env: Env, k: nat)
    requires !c.sem.monitor.Types? && Initial(c, fs, vs, env, k) && LastOf(fs, i)
    ensures Eval(c, Field(Construct(n, None, fs), fs[i].name), env, k) == Good(vs[i])
  {
    InitsLast(c, fs, vs, env, map[], k);
    var m := EvalInits(c, fs, env, map[], k).value;
    RecordRun(c, n, fs, m, env, k);
    FieldRun(c, Construct(n, None, fs), m, fs[i].name, env, k);
  }

  /** A match on a variant binds its payload fields, in declared order, and runs
      the first arm of its name. */
  lemma MatchBinds(c: Ctx, t: Expr, arms: seq<Arm>, v: Value, i: nat, d: VariantDecl, env: Env, k: nat)
    requires Eval(c, t, env, k) == Good(v) && v.VVariant? && v.concept in c.prog.concepts
    requires i < |arms| && arms[i].variant == v.variant && forall j | 0 <= j < i :: arms[j].variant != v.variant
    requires FindVariant(c.prog.concepts[v.concept].variants, v.variant) == Some(d)
    requires |arms[i].binders| == |d.fields| && forall f | f in d.fields :: f.name in v.fields
    requires forall a, b | 0 <= a < b < |d.fields| && arms[i].binders[a].Some? ::
      arms[i].binders[a] != arms[i].binders[b]
    ensures exists inner: Env ::
      && Eval(c, MatchVariant(t, arms), env, k) == Eval(c, arms[i].body, inner, k)
      && (forall a | 0 <= a < |d.fields| && arms[i].binders[a].Some? ::
            arms[i].binders[a].value in inner && inner[arms[i].binders[a].value] == v.fields[d.fields[a].name])
      && (forall y | Some(y) !in arms[i].binders :: (y in inner <==> y in env) && (y in env ==> inner[y] == env[y]))
  {
    FirstArm(arms, v.variant, i);
    BindsAll(arms[i].binders, d.fields, v.fields, env);
    var inner := BindArm(arms[i].binders, d.fields, v.fields, env).value;
    Selected(c, arms, v, i, d, env, inner);
    MatchRun(c, t, arms, v, i, inner, env, k);
  }

  lemma Selected(c: Ctx, arms: seq<Arm>, v: Value, i: nat, d: VariantDecl, env: Env, inner: Env)
    requires v.VVariant? && v.concept in c.prog.concepts && i < |arms| && FindArm(arms, v.variant) == Some(i)
    requires FindVariant(c.prog.concepts[v.concept].variants, v.variant) == Some(d)
    requires |arms[i].binders| == |d.fields| && BindArm(arms[i].binders, d.fields, v.fields, env) == Good(inner)
    ensures SelectArm(c, arms, v, env) == Good((i, inner))
  {
  }

  lemma MatchRun(c: Ctx, t: Expr, arms: seq<Arm>, v: Value, i: nat, inner: Env, env: Env, k: nat)
    requires Eval(c, t, env, k) == Good(v) && SelectArm(c, arms, v, env) == Good((i, inner))
    ensures Eval(c, MatchVariant(t, arms), env, k) == Eval(c, arms[i].body, inner, k)
  {
  }

  lemma {:induction false} FirstArm(arms: seq<Arm>, name: string, i: nat)
    requires i < |arms| && arms[i].variant == name && forall j | 0 <= j < i :: arms[j].variant != name
    ensures FindArm(arms, name) == Some(i)
    decreases i
  {
    if i > 0 {
      assert arms[0].variant != name;
      forall j | 0 <= j < i - 1
        ensures arms[1..][j].variant != name
      {
        assert arms[1..][j] == arms[j + 1];
      }
      FirstArm(arms[1..], name, i - 1);
    }
  }

  lemma {:induction false} BindsAll(bs: seq<Option<string>>, ds: seq<FieldDecl>, m: map<string, Value>, env: Env)
    requires |bs| == |ds| && forall f | f in ds :: f.name in m
    requires forall a, b | 0 <= a < b < |ds| && bs[a].Some? :: bs[a] != bs[b]
    ensures var r := BindArm(bs, ds, m, env);
      && r.Good?
      && (forall a | 0 <= a < |ds| && bs[a].Some? :: bs[a].value in r.value && r.value[bs[a].value] == m[ds[a].name])
      && (forall y | Some(y) !in bs :: (y in r.value <==> y in env) && (y in env ==> r.value[y] == env[y]))
    decreases |bs|
  {
    if bs != [] {
      assert ds[0] in ds;
      var env' := if bs[0].Some? then env[bs[0].value := m[ds[0].name]] else env;
      assert forall f | f in ds[1..] :: f in ds;
      BindsAll(bs[1..], ds[1..], m, env');
      var r := BindArm(bs, ds, m, env);
      assert r == BindArm(bs[1..], ds[1..], m, env');
      BindsTail(bs, ds, m, env, env', r.value);
    }
  }

  lemma BindsTail(bs: seq<Option<string>>, ds: seq<FieldDecl>, m: map<string, Value>, env: Env, env': Env, out: Env)
    requires |bs| == |ds| > 0 && forall f | f in ds :: f.name in m
    requires forall a, b | 0 <= a < b < |ds| && bs[a].Some? :: bs[a] != bs[b]
    requires env' == (assert ds[0] in ds; if bs[0].Some? then env[bs[0].value := m[ds[0].name]] else env)
    requires forall a | 0 <= a < |ds| - 1 && bs[1..][a].Some? ::
      ds[1..][a] in ds && bs[1..][a].value in out && out[bs[1..][a].value] == m[ds[1..][a].name]
    requires forall y | Some(y) !in bs[1..] :: (y in out <==> y in env') && (y in env' ==> out[y] == env'[y])
    ensures forall a | 0 <= a < |ds| && bs[a].Some? ::
      ds[a] in ds && bs[a].value in out && out[bs[a].value] == m[ds[a].name]
    ensures forall y | Some(y) !in bs :: (y in out <==> y in env) && (y in env ==> out[y] == env[y])
  {
    forall a | 0 <= a < |ds| && bs[a].Some?
      ensures ds[a] in ds && bs[a].value in out && out[bs[a].value] == m[ds[a].name]
    {
      if a > 0 {
        assert bs[1..][a - 1] == bs[a] && ds[1..][a - 1] == ds[a];
      } else {
        assert Some(bs[0].value) !in bs[1..];
      }
    }
  }

  // ----- the rest -----

  /** `shl` and `shr` move the bits by the count modulo 64 and fill with zeros. */
  lemma ShiftLaws(c: Ctx, a: Expr, b: Expr, x: i64, n: i64, env: Env, k: nat, i: nat)
    requires Eval(c, a, env, k) == Good(VNumber(x)) && Eval(c, b, env, k) == Good(VNumber(n)) && i < 64
    ensures BitIs(Eval(c, Prim(PrimOp.Shl, a, b), env, k), i, n % 64 <= i && Bit(x, i - n % 64))
    ensures BitIs(Eval(c, Prim(PrimOp.Shr, a, b), env, k), i, i + n % 64 < 64 && Bit(x, i + n % 64))
  {
    PrimRun(c, PrimOp.Shl, a, b, VNumber(x), VNumber(n), env, k);
    PrimRun(c, PrimOp.Shr, a, b, VNumber(x), VNumber(n), env, k);
    ShlBits(x, n, i);
    ShrBits(x, n, i);
  }

  /** `match_result` undoes `ok` and `err`. */
  lemma ResultLaws(c: Ctx, a: Expr, v: Value, x: string, p: Expr, y: string, q: Expr, env: Env, k: nat)
    requires Eval(c, a, env, k) == Good(v)
    ensures Eval(c, MatchResult(Unary(MkOk, a), x, p, y, q), env, k) == Eval(c, p, env[x := v], k)
    ensures Eval(c, MatchResult(Unary(MkErr, a), x, p, y, q), env, k) == Eval(c, q, env[y := v], k)
  {
    assert Eval(c, Unary(MkOk, a), env, k) == Good(VOk(v));
    assert Eval(c, Unary(MkErr, a), env, k) == Good(VErr(v));
  }

  /** The orderings: `<` is that of the numbers and the others follow from it. */
  lemma OrderLaws(c: Ctx, a: Expr, b: Expr, x: i64, y: i64, env: Env, k: nat)
    requires Eval(c, a, env, k) == Good(VNumber(x)) && Eval(c, b, env, k) == Good(VNumber(y))
    ensures Eval(c, Binary(Lt, a, b), env, k) == Good(MkBool(c.sem, x < y)) == Eval(c, Binary(Gt, b, a), env, k)
    ensures Eval(c, Binary(LtEq, a, b), env, k) == Eval(c, Unary(Not, Binary(Lt, b, a)), env, k)
    ensures Eval(c, Binary(GtEq, a, b), env, k) == Eval(c, Binary(LtEq, b, a), env, k)
  {
    ComparisonRun(c, Lt, a, b, x, y, env, k);
    ComparisonRun(c, Gt, b, a, y, x, env, k);
    ComparisonRun(c, LtEq, a, b, x, y, env, k);
    ComparisonRun(c, Lt, b, a, y, x, env, k);
    ComparisonRun(c, GtEq, a, b, x, y, env, k);
    ComparisonRun(c, LtEq, b, a, y, x, env, k);
    NotRun(c, Binary(Lt, b, a), y < x, env, k);
  }

  /** Equality of numbers, and its negation. */
  lemma EqualityLaws(c: Ctx, a: Expr, b: Expr, x: i64, y: i64, env: Env, k: nat)
    requires Eval(c, a, env, k) == Good(VNumber(x)) && Eval(c, b, env, k) == Good(VNumber(y))
    ensures Eval(c, Binary(Eq, a, b), env, k) == Good(MkBool(c.sem, x == y))
    ensures Eval(c, Binary(NotEq, a, b), env, k) == Eval(c, Unary(Not, Binary(Eq, a, b)), env, k)
  {
    ComparisonRun(c, Eq, a, b, x, y, env, k);
    ComparisonRun(c, NotEq, a, b, x, y, env, k);
    NotRun(c, Binary(Eq, a, b), x == y, env, k);
  }

  lemma ComparisonRun(c: Ctx, op: BinOp, a: Expr, b: Expr, x: i64, y: i64, env: Env, k: nat)
    requires IsComparison(op) && Eval(c, a, env, k) == Good(VNumber(x)) && Eval(c, b, env, k) == Good(VNumber(y))
    ensures Eval(c, Binary(op, a, b), env, k) == Good(MkBool(c.sem, Compare(op, x, y)))
  {
  }

  lemma NotRun(c: Ctx, a: Expr, b: bool, env: Env, k: nat)
    requires Eval(c, a, env, k) == Good(MkBool(c.sem, b))
    ensures Eval(c, Unary(Not, a), env, k) == Good(MkBool(c.sem, !b))
  {
    BoolBack(c.sem, b);
  }

  /** A conditional takes its first arm on true and its second on false. */
  lemma ConditionalLaw(c: Ctx, q: Expr, a: Expr, b: Expr, t: bool, env: Env, k: nat)
    requires Eval(c, q, env, k) == Good(MkBool(c.sem, t))
    ensures Eval(c, If(q, a, b), env, k) == Eval(c, if t then a else b, env, k)
  {
    BoolBack(c.sem, t);
  }

  /** `min` and `max` are the bounds of their operands; `abs` is the distance to
      zero, except that the least number has none. */
  lemma BoundLaws(c: Ctx, a: Expr, b: Expr, x: i64, y: i64, env: Env, k: nat)
    requires Eval(c, a, env, k) == Good(VNumber(x)) && Eval(c, b, env, k) == Good(VNumber(y))
    ensures Eval(c, Prim(MinOp, a, b), env, k) == Good(VNumber(if x <= y then x else y))
    ensures Eval(c, Prim(MaxOp, a, b), env, k) == Good(VNumber(if x <= y then y else x))
    ensures Eval(c, Unary(UnOp.Abs, a), env, k) == Good(VNumber(if x >= 0 || x == MIN then x else 0 - x))
  {
    PrimRun(c, MinOp, a, b, VNumber(x), VNumber(y), env, k);
    PrimRun(c, MaxOp, a, b, VNumber(x), VNumber(y), env, k);
    if x == MIN {
      assert Wrap(0 - MIN) == MIN;
    }
  }

  /** The texts of values, one after the other, a bool as its name. */
  function Printed(vs: seq<Value>): Bytes
    requires forall v | v in vs :: v.VText? || v.VNumber? || v.VBool?
  {
    if vs == [] then []
    else
      var v := vs[0];
      (if v.VText? then v.s else if v.VNumber? then Decimal(v.n) else if v.b then Chars("true") else Chars("false"))
      + Printed(vs[1..])
  }

  lemma {:induction false} PrintedJoins(m: Sem, vs: seq<Value>)
    requires !m.monitor.Lowering? && forall v | v in vs :: v.VText? || v.VNumber? || v.VBool?
    ensures JoinText(m, vs) == Good(Printed(vs))
  {
    if vs != [] {
      PrintedJoins(m, vs[1..]);
      assert Chars("true") == [116, 114, 117, 101] && Chars("false") == [102, 97, 108, 115, 101];
    }
  }

  lemma {:induction false} AllRun(c: Ctx, es: seq<Expr>, vs: seq<Value>, env: Env, k: nat)
    requires |es| == |vs| && forall i | 0 <= i < |es| :: Eval(c, es[i], env, k) == Good(vs[i])
    ensures EvalAll(c, es, env, k) == Good(vs)
  {
    if es != [] {
      assert Eval(c, es[0], env, k) == Good(vs[0]);
      forall i | 0 <= i < |es[1..]|
        ensures Eval(c, es[1..][i], env, k) == Good(vs[1..][i])
      {
        assert es[1..][i] == es[i + 1] && vs[1..][i] == vs[i + 1];
      }
      AllRun(c, es[1..], vs[1..], env, k);
      assert vs == [vs[0]] + vs[1..];
    }
  }

  /** `concat` prints its operands one after the other, and its length is theirs. */
  lemma ConcatLaw(c: Ctx, es: seq<Expr>, vs: seq<Value>, env: Env, k: nat)
    requires |es| == |vs| && (forall i | 0 <= i < |es| :: Eval(c, es[i], env, k) == Good(vs[i]))
    requires !c.sem.monitor.Lowering? && forall v | v in vs :: v.VText? || v.VNumber? || v.VBool?
    ensures Eval(c, Concat(es), env, k) == Good(VText(Printed(vs)))
    ensures Fits(|Printed(vs)|) ==> Eval(c, Unary(Length, Concat(es)), env, k) == Good(VNumber(|Printed(vs)|))
  {
    AllRun(c, es, vs, env, k);
    ConcatRun(c, es, vs, env, k);
    ConcatPrints(c.sem, vs);
    LengthRun(c, Concat(es), Printed(vs), env, k);
  }

  lemma ConcatRun(c: Ctx, es: seq<Expr>, vs: seq<Value>, env: Env, k: nat)
    requires EvalAll(c, es, env, k) == Good(vs)
    ensures Eval(c, Concat(es), env, k) == ApplyConcat(c.sem, vs)
  {
  }

  lemma ConcatPrints(m: Sem, vs: seq<Value>)
    requires !m.monitor.Lowering? && forall v | v in vs :: v.VText? || v.VNumber? || v.VBool?
    ensures ApplyConcat(m, vs) == Good(VText(Printed(vs)))
  {
    PrintedJoins(m, vs);
  }

  lemma LengthRun(c: Ctx, a: Expr, s: Bytes, env: Env, k: nat)
    requires Eval(c, a, env, k) == Good(VText(s))
    ensures Fits(|s|) ==> Eval(c, Unary(Length, a), env, k) == Good(VNumber(|s|))
  {
  }
}
