/** sum, count, min and max over a collection, which the parser rewrites to fold. */
module FoldSugar {
  import opened Int64
  import opened Ast
  import opened TextOps
  import opened Interp
  import opened Refinement
  import opened Weakening

  datatype Aggregate = SumOf | CountOf | MinOf | MaxOf

  const ACC := "__acc"

  function Initial(a: Aggregate): i64 {
    match a
    case MinOf => MAX
    case MaxOf => MIN
    case _ => 0
  }

  function FoldBody(a: Aggregate, body: Expr): Expr {
    var acc := Ident(ACC);
    match a
    case SumOf => Binary(Add, acc, body)
    case CountOf => Binary(Add, acc, If(body, Number(1), Number(0)))
    case MinOf => If(Binary(Lt, body, acc), body, acc)
    case MaxOf => If(Binary(Gt, body, acc), body, acc)
  }

  /** What the parser builds for `sum(coll, x => body)` and its kin. */
  function Desugar(a: Aggregate, coll: Expr, x: string, body: Expr): Expr {
    Fold(coll, Number(Initial(a)), ACC, x, FoldBody(a, body))
  }

  // ----- what the aggregates mean -----

  function Sum(ns: seq<int>): int {
    if ns == [] then 0 else Sum(ns[..|ns| - 1]) + ns[|ns| - 1]
  }

  ghost predicate IsMinimum(ns: seq<int>, m: int) {
    if ns == [] then m == MAX else m in ns && forall n | n in ns :: m <= n
  }

  ghost predicate IsMaximum(ns: seq<int>, m: int) {
    if ns == [] then m == MIN else m in ns && forall n | n in ns :: m >= n
  }

  /** No partial sum leaves i64. */
  ghost predicate PartialSumsFit(ns: seq<int>) {
    forall i | 0 <= i <= |ns| :: Fits(Sum(ns[..i]))
  }

  /** The body gives each item the number `ns` holds for it. */
  ghost predicate Numbers(c: Ctx, body: Expr, x: string, items: seq<Value>, ns: seq<int>, env: Env, k: nat) {
    |ns| == |items| && forall i | 0 <= i < |items| ::
      Fits(ns[i]) && Eval(c, body, env[x := items[i]], k) == Good(VNumber(ns[i]))
  }

  ghost predicate Verdicts(c: Ctx, body: Expr, x: string, items: seq<Value>, bs: seq<bool>, env: Env, k: nat) {
    |bs| == |items| && forall i | 0 <= i < |items| :: Eval(c, body, env[x := items[i]], k) == Good(MkBool(c.sem, bs[i]))
  }

  function Bits(bs: seq<bool>): (ns: seq<int>)
    ensures |ns| == |bs| && forall i | 0 <= i < |bs| :: ns[i] == if bs[i] then 1 else 0
  {
    if bs == [] then [] else [if bs[0] then 1 else 0] + Bits(bs[1..])
  }

  function Count(bs: seq<bool>): nat {
    if bs == [] then 0 else Count(bs[..|bs| - 1]) + if bs[|bs| - 1] then 1 else 0
  }

  // ----- one step of each fold -----

  lemma BodyUnderAcc(c: Ctx, body: Expr, x: string, a: Value, v: Value, env: Env, k: nat)
    requires Lacks(body, ACC) && x != ACC
    ensures Eval(c, body, env[ACC := a][x := v], k) == Eval(c, body, env[x := v], k)
  {
    assert env[ACC := a][x := v] == env[x := v][ACC := a];
    Rebinding(c, body, ACC, env[x := v], a, k);
  }

  lemma SumStep(c: Ctx, body: Expr, x: string, a: i64, v: Value, n: i64, env: Env, k: nat)
    requires Lacks(body, ACC) && x != ACC && Eval(c, body, env[x := v], k) == Good(VNumber(n))
    ensures Eval(c, FoldBody(SumOf, body), env[ACC := VNumber(a)][x := v], k) == Arith(c.sem, a + n)
  {
    BodyUnderAcc(c, body, x, VNumber(a), v, env, k);
  }

  lemma IfRun(c: Ctx, q: Expr, a: Expr, b: Expr, env: Env, k: nat, t: bool)
    requires Eval(c, q, env, k) == Good(MkBool(c.sem, t))
    ensures Eval(c, If(q, a, b), env, k) == if t then Eval(c, a, env, k) else Eval(c, b, env, k)
  {
    assert AsBool(c.sem, MkBool(c.sem, t)) == Some(t);
  }

  lemma CountStep(c: Ctx, body: Expr, x: string, a: i64, v: Value, b: bool, env: Env, k: nat)
    requires Lacks(body, ACC) && x != ACC && Eval(c, body, env[x := v], k) == Good(MkBool(c.sem, b))
    ensures Eval(c, FoldBody(CountOf, body), env[ACC := VNumber(a)][x := v], k) == Arith(c.sem, a + if b then 1 else 0)
  {
    BodyUnderAcc(c, body, x, VNumber(a), v, env, k);
    var inner := env[ACC := VNumber(a)][x := v];
    IfRun(c, body, Number(1), Number(0), inner, k, b);
    assert Eval(c, Ident(ACC), inner, k) == Good(VNumber(a));
  }

  /** The better of the accumulator and the new value. */
  function Better(a: Aggregate, acc: i64, n: i64): i64 {
    if a.MinOf? then (if n < acc then n else acc) else (if n > acc then n else acc)
  }

  lemma ExtremeStep(c: Ctx, g: Aggregate, body: Expr, x: string, a: i64, v: Value, n: i64, env: Env, k: nat)
    requires (g.MinOf? || g.MaxOf?) && Lacks(body, ACC) && x != ACC && Eval(c, body, env[x := v], k) == Good(VNumber(n))
    ensures Eval(c, FoldBody(g, body), env[ACC := VNumber(a)][x := v], k) == Good(VNumber(Better(g, a, n)))
  {
    BodyUnderAcc(c, body, x, VNumber(a), v, env, k);
    var inner, op := env[ACC := VNumber(a)][x := v], if g.MinOf? then Lt else Gt;
    assert Eval(c, Ident(ACC), inner, k) == Good(VNumber(a));
    var better := if g.MinOf? then n < a else n > a;
    assert Eval(c, Binary(op, body, Ident(ACC)), inner, k) == Good(MkBool(c.sem, better));
    IfRun(c, Binary(op, body, Ident(ACC)), body, Ident(ACC), inner, k, better);
  }

  // ----- whole folds -----

  /** Adding `ns` to `a` one by one. */
  function Accumulate(m: Sem, a: i64, ns: seq<int>): Res<Value>
    decreases |ns|
  {
    if ns == [] then Good(VNumber(a))
    else
      var r :- Arith(m, a + ns[0]);
      if r.VNumber? then Accumulate(m, r.n, ns[1..]) else Bad(Stuck)
  }

  ghost predicate AddsAt(c: Ctx, f: Expr, x: string, v: Value, n: int, env: Env, k: nat, a: i64) {
    Eval(c, f, env[ACC := VNumber(a)][x := v], k) == Arith(c.sem, a + n)
  }

  /** The fold body adds the numbers `ns`, whatever the accumulator. */
  ghost predicate Adds(c: Ctx, f: Expr, x: string, items: seq<Value>, ns: seq<int>, env: Env, k: nat) {
    |ns| == |items| && forall i, a | 0 <= i < |items| :: AddsAt(c, f, x, items[i], ns[i], env, k, a)
  }

  lemma {:induction false} SumFold(c: Ctx, f: Expr, x: string, a: i64, items: seq<Value>, ns: seq<int>, env: Env,
      k: nat)
    requires Adds(c, f, x, items, ns, env, k)
    ensures EvalFold(c, f, ACC, x, VNumber(a), items, env, k) == Accumulate(c.sem, a, ns)
    decreases |items|
  {
    if items != [] {
      assert AddsAt(c, f, x, items[0], ns[0], env, k, a);
      var r := Arith(c.sem, a + ns[0]);
      FoldStep(c, f, ACC, x, VNumber(a), items, env, k, r);
      if r.Good? {
        SumFold(c, f, x, r.value.n, items[1..], ns[1..], env, k);
      }
    }
  }

  lemma {:induction false} SumSplit(ns: seq<int>)
    requires ns != []
    ensures Sum(ns) == ns[0] + Sum(ns[1..])
    decreases |ns|
  {
    if |ns| > 1 {
      SumSplit(ns[..|ns| - 1]);
      assert ns[..|ns| - 1][1..] == ns[1..][..|ns| - 2];
    }
  }

  /** No total leaves i64 while `ns` is added to `a`. */
  predicate TotalsFit(a: int, ns: seq<int>)
    decreases |ns|
  {
    Fits(a) && (ns == [] || TotalsFit(a + ns[0], ns[1..]))
  }

  /** Where every total fits, accumulating is adding up; otherwise it overflows. */
  lemma {:induction false} AccumulateSums(m: Sem, a: i64, ns: seq<int>)
    requires !m.wrap
    ensures TotalsFit(a, ns) ==> Fits(a + Sum(ns)) && Accumulate(m, a, ns) == Good(VNumber(a + Sum(ns)))
    ensures !TotalsFit(a, ns) ==> Accumulate(m, a, ns) == Bad(Overflow)
    decreases |ns|
  {
    if ns != [] {
      SumSplit(ns);
      if Fits(a + ns[0]) {
        AccumulateSums(m, a + ns[0], ns[1..]);
      } else {
        assert !TotalsFit(a + ns[0], ns[1..]);
      }
    }
  }

  lemma {:induction false} TotalsArePartialSums(a: int, ns: seq<int>)
    ensures TotalsFit(a, ns) <==> forall i | 0 <= i <= |ns| :: Fits(a + Sum(ns[..i]))
    decreases |ns|
  {
    assert ns[..0] == [] && ns[..|ns|] == ns;
    if ns != [] {
      var b, rest := a + ns[0], ns[1..];
      TotalsArePartialSums(b, rest);
      forall i | 0 <= i <= |rest|
        ensures a + Sum(ns[..i + 1]) == b + Sum(rest[..i])
      {
        SumSplit(ns[..i + 1]);
        assert ns[..i + 1][1..] == rest[..i];
      }
      if TotalsFit(a, ns) {
        forall i | 0 <= i <= |ns|
          ensures Fits(a + Sum(ns[..i]))
        {
          if i > 0 { assert a + Sum(ns[..i]) == b + Sum(rest[..i - 1]); }
        }
      } else if Fits(a) {
        var i :| 0 <= i <= |rest| && !Fits(b + Sum(rest[..i]));
        assert !Fits(a + Sum(ns[..i + 1]));
      } else {
        assert !Fits(a + Sum(ns[..0]));
      }
    }
  }

  lemma PartialSumsAreTotals(ns: seq<int>)
    ensures PartialSumsFit(ns) <==> TotalsFit(0, ns)
  {
    TotalsArePartialSums(0, ns);
    assert forall i | 0 <= i <= |ns| :: 0 + Sum(ns[..i]) == Sum(ns[..i]);
  }

  ghost predicate ImprovesAt(c: Ctx, g: Aggregate, f: Expr, x: string, v: Value, n: int, env: Env, k: nat, a: i64) {
    Fits(n) && Eval(c, f, env[ACC := VNumber(a)][x := v], k) == Good(VNumber(Better(g, a, n)))
  }

  /** The fold body keeps the better of the accumulator and the numbers `ns`. */
  ghost predicate Improves(c: Ctx, g: Aggregate, f: Expr, x: string, items: seq<Value>, ns: seq<int>, env: Env,
      k: nat) {
    |ns| == |items| && forall i, a | 0 <= i < |items| :: ImprovesAt(c, g, f, x, items[i], ns[i], env, k, a)
  }

  function Best(g: Aggregate, a: int, ns: seq<int>): int
    decreases |ns|
  {
    if ns == [] then a else Best(g, if g.MinOf? then Int64.Min(ns[0], a) else Int64.Max(ns[0], a), ns[1..])
  }

  lemma {:induction false} BestIsBest(g: Aggregate, a: int, ns: seq<int>)
    ensures var m := Best(g, a, ns);
      (m == a || m in ns) && (if g.MinOf? then m <= a else m >= a) &&
      forall n | n in ns :: if g.MinOf? then m <= n else m >= n
    decreases |ns|
  {
    if ns != [] {
      assert ns == [ns[0]] + ns[1..];
      BestIsBest(g, if g.MinOf? then Int64.Min(ns[0], a) else Int64.Max(ns[0], a), ns[1..]);
    }
  }

  lemma {:induction false} ExtremeFold(c: Ctx, g: Aggregate, f: Expr, x: string, a: i64, items: seq<Value>,
      ns: seq<int>, env: Env, k: nat)
    requires Improves(c, g, f, x, items, ns, env, k)
    ensures Fits(Best(g, a, ns)) && EvalFold(c, f, ACC, x, VNumber(a), items, env, k) == Good(VNumber(Best(g, a, ns)))
    decreases |items|
  {
    if items != [] {
      assert ImprovesAt(c, g, f, x, items[0], ns[0], env, k, a);
      var b := Better(g, a, ns[0]);
      FoldStep(c, f, ACC, x, VNumber(a), items, env, k, Good(VNumber(b)));
      ExtremeFold(c, g, f, x, b, items[1..], ns[1..], env, k);
    }
  }

  // ----- main results -----

  lemma SumAdds(c: Ctx, x: string, body: Expr, items: seq<Value>, ns: seq<int>, env: Env, k: nat)
    requires Lacks(body, ACC) && x != ACC && Numbers(c, body, x, items, ns, env, k)
    ensures Adds(c, FoldBody(SumOf, body), x, items, ns, env, k)
  {
    forall i, a | 0 <= i < |items|
      ensures AddsAt(c, FoldBody(SumOf, body), x, items[i], ns[i], env, k, a)
    {
      SumStep(c, body, x, a, items[i], ns[i], env, k);
    }
  }

  lemma ExtremeImproves(c: Ctx, g: Aggregate, x: string, body: Expr, items: seq<Value>, ns: seq<int>, env: Env, k: nat)
    requires (g.MinOf? || g.MaxOf?) && Lacks(body, ACC) && x != ACC && Numbers(c, body, x, items, ns, env, k)
    ensures Improves(c, g, FoldBody(g, body), x, items, ns, env, k) && forall i | 0 <= i < |ns| :: Fits(ns[i])
  {
    forall i, a | 0 <= i < |items|
      ensures ImprovesAt(c, g, FoldBody(g, body), x, items[i], ns[i], env, k, a)
    {
      ExtremeStep(c, g, body, x, a, items[i], ns[i], env, k);
    }
  }

  lemma BestOfAll(g: Aggregate, ns: seq<int>)
    requires (g.MinOf? || g.MaxOf?) && forall i | 0 <= i < |ns| :: Fits(ns[i])
    ensures if g.MinOf? then IsMinimum(ns, Best(g, MAX, ns)) else IsMaximum(ns, Best(g, MIN, ns))
  {
    BestIsBest(g, if g.MinOf? then MAX else MIN, ns);
    assert ns != [] ==> ns[0] in ns && Fits(ns[0]);
  }

  /** sum is the mathematical sum when no partial sum overflows, and an overflow otherwise. */
  lemma SumIsSum(c: Ctx, coll: Expr, x: string, body: Expr, items: seq<Value>, ns: seq<int>, env: Env, k: nat)
    requires !c.sem.wrap && Lacks(body, ACC) && x != ACC
    requires Eval(c, coll, env, k) == Good(VList(items)) && Numbers(c, body, x, items, ns, env, k)
    ensures PartialSumsFit(ns) ==>
      Fits(Sum(ns)) && Eval(c, Desugar(SumOf, coll, x, body), env, k) == Good(VNumber(Sum(ns)))
    ensures !PartialSumsFit(ns) ==> Eval(c, Desugar(SumOf, coll, x, body), env, k) == Bad(Overflow)
  {
    SumRun(c, coll, x, body, items, ns, env, k);
    AccumulateSums(c.sem, 0, ns);
    PartialSumsAreTotals(ns);
  }

  lemma SumRun(c: Ctx, coll: Expr, x: string, body: Expr, items: seq<Value>, ns: seq<int>, env: Env, k: nat)
    requires Lacks(body, ACC) && x != ACC
    requires Eval(c, coll, env, k) == Good(VList(items)) && Numbers(c, body, x, items, ns, env, k)
    ensures Eval(c, Desugar(SumOf, coll, x, body), env, k) == Accumulate(c.sem, 0, ns)
  {
    SumAdds(c, x, body, items, ns, env, k);
    SumFold(c, FoldBody(SumOf, body), x, 0, items, ns, env, k);
    FoldRun(c, coll, Number(0), ACC, x, FoldBody(SumOf, body), env, k, Good(VList(items)), Good(VNumber(0)));
  }

  lemma {:induction false} CountSums(bs: seq<bool>)
    ensures Sum(Bits(bs)) == Count(bs) <= |bs|
    decreases |bs|
  {
    if bs != [] {
      CountSums(bs[..|bs| - 1]);
      assert Bits(bs)[..|bs| - 1] == Bits(bs[..|bs| - 1]);
    }
  }

  lemma BitsFit(bs: seq<bool>)
    requires |bs| <= MAX
    ensures PartialSumsFit(Bits(bs))
  {
    forall i | 0 <= i <= |bs|
      ensures Fits(Sum(Bits(bs)[..i]))
    {
      CountSums(bs[..i]);
      assert Bits(bs)[..i] == Bits(bs[..i]);
    }
  }

  lemma CountAdds(c: Ctx, x: string, body: Expr, items: seq<Value>, bs: seq<bool>, env: Env, k: nat)
    requires Lacks(body, ACC) && x != ACC && Verdicts(c, body, x, items, bs, env, k)
    ensures Adds(c, FoldBody(CountOf, body), x, items, Bits(bs), env, k)
  {
    forall i, a | 0 <= i < |items|
      ensures AddsAt(c, FoldBody(CountOf, body), x, items[i], Bits(bs)[i], env, k, a)
    {
      CountStep(c, body, x, a, items[i], bs[i], env, k);
    }
  }

  lemma AccumulateFits(m: Sem, ns: seq<int>)
    requires !m.wrap && PartialSumsFit(ns)
    ensures Fits(Sum(ns)) && Accumulate(m, 0, ns) == Good(VNumber(Sum(ns)))
  {
    PartialSumsAreTotals(ns);
    AccumulateSums(m, 0, ns);
  }

  /** count is the number of items the predicate accepts. */
  lemma CountIsCount(c: Ctx, coll: Expr, x: string, body: Expr, items: seq<Value>, bs: seq<bool>, env: Env, k: nat)
    requires !c.sem.wrap && Lacks(body, ACC) && x != ACC && |items| <= MAX
    requires Eval(c, coll, env, k) == Good(VList(items)) && Verdicts(c, body, x, items, bs, env, k)
    ensures Fits(Count(bs)) && Eval(c, Desugar(CountOf, coll, x, body), env, k) == Good(VNumber(Count(bs)))
  {
    var ns := Bits(bs);
    CountAdds(c, x, body, items, bs, env, k);
    SumFold(c, FoldBody(CountOf, body), x, 0, items, ns, env, k);
    CountSums(bs);
    BitsFit(bs);
    AccumulateFits(c.sem, ns);
    FoldRun(c, coll, Number(0), ACC, x, FoldBody(CountOf, body), env, k, Good(VList(items)), Good(VNumber(0)));
  }

  /** min is the least value of the body, or the greatest number on no items. */
  lemma MinIsMinimum(c: Ctx, coll: Expr, x: string, body: Expr, items: seq<Value>, ns: seq<int>, env: Env, k: nat)
    returns (m: i64)
    requires Lacks(body, ACC) && x != ACC
    requires Eval(c, coll, env, k) == Good(VList(items)) && Numbers(c, body, x, items, ns, env, k)
    ensures Eval(c, Desugar(MinOf, coll, x, body), env, k) == Good(VNumber(m)) && IsMinimum(ns, m)
  {
    var f := FoldBody(MinOf, body);
    ExtremeImproves(c, MinOf, x, body, items, ns, env, k);
    ExtremeFold(c, MinOf, f, x, MAX, items, ns, env, k);
    BestOfAll(MinOf, ns);
    m := Best(MinOf, MAX, ns);
    FoldRun(c, coll, Number(MAX), ACC, x, f, env, k, Good(VList(items)), Good(VNumber(MAX)));
  }

  /** max is the greatest value of the body, or the least number on no items. */
  lemma MaxIsMaximum(c: Ctx, coll: Expr, x: string, body: Expr, items: seq<Value>, ns: seq<int>, env: Env, k: nat)
    returns (m: i64)
    requires Lacks(body, ACC) && x != ACC
    requires Eval(c, coll, env, k) == Good(VList(items)) && Numbers(c, body, x, items, ns, env, k)
    ensures Eval(c, Desugar(MaxOf, coll, x, body), env, k) == Good(VNumber(m)) && IsMaximum(ns, m)
  {
    var f := FoldBody(MaxOf, body);
    ExtremeImproves(c, MaxOf, x, body, items, ns, env, k);
    ExtremeFold(c, MaxOf, f, x, MIN, items, ns, env, k);
    BestOfAll(MaxOf, ns);
    m := Best(MaxOf, MIN, ns);
    FoldRun(c, coll, Number(MIN), ACC, x, f, env, k, Good(VList(items)), Good(VNumber(MIN)));
  }

  /** The rewritten form does not itself use the accumulator's name, so aggregates nest. */
  lemma AggregatesNest(a: Aggregate, coll: Expr, x: string, body: Expr)
    requires Lacks(coll, ACC)
    ensures Lacks(Desugar(a, coll, x, body), ACC)
  {
  }
}
