/** When two expressions mean the same. A transformation is either strict, and
    keeps every run, or lax, and may give a run that goes wrong any meaning. */
module Refinement {
  import opened Int64
  import opened Ast
  import opened TextOps
  import opened Interp

  predicate GoesWrong<T>(r: Res<T>) { r.Bad? && (r.fault.Stuck? || r.fault.IllFormed?) }

  /** `s` means what `r` means, failures included; a lax reading excuses an `r`
      that goes wrong. */
  predicate Refines<T(==)>(lax: bool, r: Res<T>, s: Res<T>) { (lax && GoesWrong(r)) || r == s }

  /** The same semantics; in the lax reading the second may drop the first one's monitor. */
  predicate Freer(lax: bool, m: Sem, n: Sem) {
    m.wrap == n.wrap && m.lowered == n.lowered && (m.monitor == n.monitor || (lax && n.monitor.Off?))
  }

  /** Two contexts that read the same concepts in the same way. */
  predicate Alike(lax: bool, c: Ctx, d: Ctx) { Freer(lax, c.sem, d.sem) && c.prog.concepts == d.prog.concepts }

  // ----- loops whose bodies refine -----

  ghost predicate ItemRefines(lax: bool, c: Ctx, d: Ctx, e: Expr, f: Expr, x: string, env: Env, env': Env, k: nat,
      v: Value) {
    Refines(lax, Eval(c, e, env[x := v], k), Eval(d, f, env'[x := v], k))
  }

  ghost predicate BodyRefines(lax: bool, c: Ctx, d: Ctx, e: Expr, f: Expr, x: string, env: Env, env': Env, k: nat) {
    forall v :: ItemRefines(lax, c, d, e, f, x, env, env', k, v)
  }

  lemma {:induction false} QuantifierRefines(lax: bool, c: Ctx, d: Ctx, all: bool, e: Expr, f: Expr, x: string,
      items: seq<Value>, env: Env, env': Env, k: nat)
    requires Freer(lax, c.sem, d.sem) && BodyRefines(lax, c, d, e, f, x, env, env', k)
    ensures Refines(lax, EvalQuantifier(c, all, e, x, items, env, k), EvalQuantifier(d, all, f, x, items, env', k))
    decreases |items|
  {
    if items != [] {
      assert ItemRefines(lax, c, d, e, f, x, env, env', k, items[0]);
      QuantifierRefines(lax, c, d, all, e, f, x, items[1..], env, env', k);
    }
  }

  lemma {:induction false} CollectRefines(lax: bool, c: Ctx, d: Ctx, keep: bool, e: Expr, f: Expr, x: string,
      items: seq<Value>, env: Env, env': Env, k: nat)
    requires Freer(lax, c.sem, d.sem) && BodyRefines(lax, c, d, e, f, x, env, env', k)
    ensures Refines(lax, EvalCollect(c, keep, e, x, items, env, k), EvalCollect(d, keep, f, x, items, env', k))
    decreases |items|
  {
    if items != [] {
      assert ItemRefines(lax, c, d, e, f, x, env, env', k, items[0]);
      CollectRefines(lax, c, d, keep, e, f, x, items[1..], env, env', k);
    }
  }

  ghost predicate StepRefines(lax: bool, c: Ctx, d: Ctx, e: Expr, f: Expr, acc: string, x: string, env: Env, env': Env,
      k: nat, a: Value, v: Value) {
    Refines(lax, Eval(c, e, env[acc := a][x := v], k), Eval(d, f, env'[acc := a][x := v], k))
  }

  ghost predicate StepsRefine(lax: bool, c: Ctx, d: Ctx, e: Expr, f: Expr, acc: string, x: string, env: Env, env': Env,
      k: nat) {
    forall a, v :: StepRefines(lax, c, d, e, f, acc, x, env, env', k, a, v)
  }

  lemma FoldStep(c: Ctx, e: Expr, acc: string, x: string, a: Value, items: seq<Value>, env: Env, k: nat, r: Res<Value>)
    requires items != [] && r == Eval(c, e, env[acc := a][x := items[0]], k)
    ensures EvalFold(c, e, acc, x, a, items, env, k) ==
            if r.Bad? then r else EvalFold(c, e, acc, x, r.value, items[1..], env, k)
  {
  }

  lemma FoldStepRefines(lax: bool, c: Ctx, d: Ctx, e: Expr, f: Expr, acc: string, x: string, a: Value,
      items: seq<Value>, env: Env, env': Env, k: nat, r: Res<Value>, r': Res<Value>)
    requires items != [] && Refines(lax, r, r')
    requires r == Eval(c, e, env[acc := a][x := items[0]], k) && r' == Eval(d, f, env'[acc := a][x := items[0]], k)
    requires r.Good? ==> Refines(lax, EvalFold(c, e, acc, x, r.value, items[1..], env, k),
      EvalFold(d, f, acc, x, r.value, items[1..], env', k))
    ensures Refines(lax, EvalFold(c, e, acc, x, a, items, env, k), EvalFold(d, f, acc, x, a, items, env', k))
  {
    FoldStep(c, e, acc, x, a, items, env, k, r);
    FoldStep(d, f, acc, x, a, items, env', k, r');
  }

  lemma {:induction false} FoldRefines(lax: bool, c: Ctx, d: Ctx, e: Expr, f: Expr, acc: string, x: string, a: Value,
      items: seq<Value>, env: Env, env': Env, k: nat)
    requires StepsRefine(lax, c, d, e, f, acc, x, env, env', k)
    ensures Refines(lax, EvalFold(c, e, acc, x, a, items, env, k), EvalFold(d, f, acc, x, a, items, env', k))
    decreases |items|
  {
    if items != [] {
      assert StepRefines(lax, c, d, e, f, acc, x, env, env', k, a, items[0]);
      var r, r' := Eval(c, e, env[acc := a][x := items[0]], k), Eval(d, f, env'[acc := a][x := items[0]], k);
      if r.Good? {
        FoldRefines(lax, c, d, e, f, acc, x, r.value, items[1..], env, env', k);
      }
      FoldStepRefines(lax, c, d, e, f, acc, x, a, items, env, env', k, r, r');
    }
  }

  ghost predicate ByteRefines(lax: bool, c: Ctx, d: Ctx, e: Expr, f: Expr, env: Env, env': Env, k: nat, a: Value,
      b: Value, n: Value)
    requires e.FoldBytes? && f.FoldBytes?
  {
    Refines(lax, Eval(c, e.body, env[e.acc := a][e.byte := b][e.idx := n], k),
            Eval(d, f.body, env'[e.acc := a][e.byte := b][e.idx := n], k))
  }

  lemma {:induction false} FoldBytesRefines(lax: bool, c: Ctx, d: Ctx, e: Expr, f: Expr, a: Value, s: Bytes, i: nat,
      env: Env, env': Env, k: nat)
    requires e.FoldBytes? && f.FoldBytes? && i <= |s|
    requires f.acc == e.acc && f.byte == e.byte && f.idx == e.idx
    requires forall a, b, n :: ByteRefines(lax, c, d, e, f, env, env', k, a, b, n)
    ensures Refines(lax, EvalFoldBytes(c, e, a, s, i, env, k), EvalFoldBytes(d, f, a, s, i, env', k))
    decreases |s| - i
  {
    if i < |s| {
      var b, n := VNumber(s[i]), VNumber(Wrap(i));
      assert ByteRefines(lax, c, d, e, f, env, env', k, a, b, n);
      var r := Eval(c, e.body, env[e.acc := a][e.byte := b][e.idx := n], k);
      if r.Good? && r.value.VNumber? {
        FoldBytesRefines(lax, c, d, e, f, r.value, s, i + 1, env, env', k);
      }
    }
  }

  // ----- one expression form at a time -----


  ghost predicate ExprRefines(lax: bool, c: Ctx, d: Ctx, e: Expr, f: Expr, env: Env, env': Env, k: nat) {
    Refines(lax, Eval(c, e, env, k), Eval(d, f, env', k))
  }

  lemma FieldCong(lax: bool, c: Ctx, d: Ctx, e: Expr, f: Expr, name: string, env: Env, env': Env, k: nat)
    requires ExprRefines(lax, c, d, e, f, env, env', k)
    ensures ExprRefines(lax, c, d, Field(e, name), Field(f, name), env, env', k)
  {
  }

  lemma UnaryCong(lax: bool, c: Ctx, d: Ctx, op: UnOp, e: Expr, f: Expr, env: Env, env': Env, k: nat)
    requires Alike(lax, c, d) && ExprRefines(lax, c, d, e, f, env, env', k)
    ensures ExprRefines(lax, c, d, Unary(op, e), Unary(op, f), env, env', k)
  {
  }

  lemma BinaryCong(lax: bool, c: Ctx, d: Ctx, op: BinOp, e0: Expr, f0: Expr, e1: Expr, f1: Expr, env: Env, env': Env,
      k: nat)
    requires Alike(lax, c, d) && ExprRefines(lax, c, d, e0, f0, env, env', k) &&
      ExprRefines(lax, c, d, e1, f1, env, env', k)
    ensures ExprRefines(lax, c, d, Binary(op, e0, e1), Binary(op, f0, f1), env, env', k)
  {
  }

  lemma PrimCong(lax: bool, c: Ctx, d: Ctx, op: PrimOp, e0: Expr, f0: Expr, e1: Expr, f1: Expr, env: Env, env': Env,
      k: nat)
    requires Alike(lax, c, d) && ExprRefines(lax, c, d, e0, f0, env, env', k) &&
      ExprRefines(lax, c, d, e1, f1, env, env', k)
    ensures ExprRefines(lax, c, d, Prim(op, e0, e1), Prim(op, f0, f1), env, env', k)
  {
  }

  /** A table that is already a literal is not rewritten; strictly, no other
      expression becomes one. */
  lemma TryByteCong(lax: bool, c: Ctx, d: Ctx, t: Expr, u: Expr, e: Expr, f: Expr, env: Env, env': Env, k: nat)
    requires (IsTable(t) ==> u == t) && (lax || (IsTable(u) ==> u == t)) && ExprRefines(lax, c, d, e, f, env, env', k)
    ensures ExprRefines(lax, c, d, TryByteAt(t, e), TryByteAt(u, f), env, env', k)
  {
  }

  lemma SubstringCong(lax: bool, c: Ctx, d: Ctx, e0: Expr, f0: Expr, e1: Expr, f1: Expr, e2: Expr, f2: Expr, env: Env,
      env': Env, k: nat)
    requires ExprRefines(lax, c, d, e0, f0, env, env', k) && ExprRefines(lax, c, d, e1, f1, env, env', k) &&
      ExprRefines(lax, c, d, e2, f2, env, env', k)
    ensures ExprRefines(lax, c, d, Substring(e0, e1, e2), Substring(f0, f1, f2), env, env', k)
  {
  }

  lemma IfCong(lax: bool, c: Ctx, d: Ctx, e0: Expr, f0: Expr, e1: Expr, f1: Expr, e2: Expr, f2: Expr, env: Env,
      env': Env, k: nat)
    requires Alike(lax, c, d)
    requires ExprRefines(lax, c, d, e0, f0, env, env', k) && ExprRefines(lax, c, d, e1, f1, env, env', k) &&
      ExprRefines(lax, c, d, e2, f2, env, env', k)
    ensures ExprRefines(lax, c, d, If(e0, e1, e2), If(f0, f1, f2), env, env', k)
  {
  }

  // A run of each binding form, given the run of what it iterates or matches.

  lemma MatchResultRun(c: Ctx, t: Expr, x: string, e: Expr, y: string, e': Expr, env: Env, k: nat, v: Res<Value>)
    requires v == Eval(c, t, env, k)
    ensures Eval(c, MatchResult(t, x, e, y, e'), env, k) ==
            if v.Bad? then v
            else if v.value.VOk? then Eval(c, e, env[x := v.value.inner], k)
            else if v.value.VErr? then Eval(c, e', env[y := v.value.inner], k)
            else Bad(Stuck)
  {
  }

  lemma QuantifierRun(c: Ctx, all: bool, t: Expr, x: string, e: Expr, env: Env, k: nat, v: Res<Value>)
    requires v == Eval(c, t, env, k)
    ensures Eval(c, Quantifier(all, t, x, e), env, k) ==
            if v.Bad? then v
            else if v.value.VList? then EvalQuantifier(c, all, e, x, v.value.items, env, k)
            else Bad(Stuck)
  {
  }

  function Listed(r: Res<seq<Value>>): Res<Value> {
    if r.Bad? then Bad(r.fault) else Good(VList(r.value))
  }

  lemma CollectRun(c: Ctx, keep: bool, t: Expr, x: string, e: Expr, env: Env, k: nat, v: Res<Value>)
    requires v == Eval(c, t, env, k)
    ensures Eval(c, Collect(keep, t, x, e), env, k) ==
            if v.Bad? then v
            else if v.value.VList? then Listed(EvalCollect(c, keep, e, x, v.value.items, env, k))
            else Bad(Stuck)
  {
  }

  lemma FoldRun(c: Ctx, t: Expr, i: Expr, acc: string, x: string, e: Expr, env: Env, k: nat, v: Res<Value>,
      a: Res<Value>)
    requires v == Eval(c, t, env, k) && a == Eval(c, i, env, k)
    ensures Eval(c, Fold(t, i, acc, x, e), env, k) ==
            if v.Bad? then v
            else if !v.value.VList? then Bad(Stuck)
            else if a.Bad? then a
            else EvalFold(c, e, acc, x, a.value, v.value.items, env, k)
  {
  }

  lemma MatchResultCong(lax: bool, c: Ctx, d: Ctx, t: Expr, u: Expr, x: string, e: Expr, f: Expr, y: string, e': Expr,
      f': Expr, env: Env, env': Env, k: nat)
    requires ExprRefines(lax, c, d, t, u, env, env', k)
    requires BodyRefines(lax, c, d, e, f, x, env, env', k) && BodyRefines(lax, c, d, e', f', y, env, env', k)
    ensures ExprRefines(lax, c, d, MatchResult(t, x, e, y, e'), MatchResult(u, x, f, y, f'), env, env', k)
  {
    var v := Eval(c, t, env, k);
    MatchResultRun(c, t, x, e, y, e', env, k, v);
    MatchResultRun(d, u, x, f, y, f', env', k, Eval(d, u, env', k));
    if v.Good? && v.value.VOk? {
      assert ItemRefines(lax, c, d, e, f, x, env, env', k, v.value.inner);
    } else if v.Good? && v.value.VErr? {
      assert ItemRefines(lax, c, d, e', f', y, env, env', k, v.value.inner);
    }
  }

  lemma {:induction false} JoinTextFreer(lax: bool, m: Sem, n: Sem, vs: seq<Value>)
    requires Freer(lax, m, n)
    ensures Refines(lax, JoinText(m, vs), JoinText(n, vs))
  {
    if vs != [] {
      JoinTextFreer(lax, m, n, vs[1..]);
    }
  }

  lemma ConcatCong(lax: bool, c: Ctx, d: Ctx, es: seq<Expr>, fs: seq<Expr>, env: Env, env': Env, k: nat)
    requires Alike(lax, c, d) && Refines(lax, EvalAll(c, es, env, k), EvalAll(d, fs, env', k))
    ensures ExprRefines(lax, c, d, Concat(es), Concat(fs), env, env', k)
  {
    var vs := EvalAll(c, es, env, k);
    if vs.Good? {
      JoinTextFreer(lax, c.sem, d.sem, vs.value);
    }
  }

  lemma ConstructCong(lax: bool, c: Ctx, d: Ctx, n: string, v: Option<string>, es: seq<FieldInit>, fs: seq<FieldInit>,
      env: Env, env': Env, k: nat)
    requires Alike(lax, c, d) && Refines(lax, EvalInits(c, es, env, map[], k), EvalInits(d, fs, env', map[], k))
    ensures ExprRefines(lax, c, d, Construct(n, v, es), Construct(n, v, fs), env, env', k)
  {
  }

  lemma QuantifierCong(lax: bool, c: Ctx, d: Ctx, all: bool, t: Expr, u: Expr, x: string, e: Expr, f: Expr, env: Env,
      env': Env, k: nat)
    requires Alike(lax, c, d) && ExprRefines(lax, c, d, t, u, env, env', k) &&
      BodyRefines(lax, c, d, e, f, x, env, env', k)
    ensures ExprRefines(lax, c, d, Quantifier(all, t, x, e), Quantifier(all, u, x, f), env, env', k)
  {
    var v := Eval(c, t, env, k);
    QuantifierRun(c, all, t, x, e, env, k, v);
    QuantifierRun(d, all, u, x, f, env', k, Eval(d, u, env', k));
    if v.Good? && v.value.VList? {
      QuantifierRefines(lax, c, d, all, e, f, x, v.value.items, env, env', k);
    }
  }

  lemma CollectCong(lax: bool, c: Ctx, d: Ctx, keep: bool, t: Expr, u: Expr, x: string, e: Expr, f: Expr, env: Env,
      env': Env, k: nat)
    requires Alike(lax, c, d) && ExprRefines(lax, c, d, t, u, env, env', k) &&
      BodyRefines(lax, c, d, e, f, x, env, env', k)
    ensures ExprRefines(lax, c, d, Collect(keep, t, x, e), Collect(keep, u, x, f), env, env', k)
  {
    var v := Eval(c, t, env, k);
    CollectRun(c, keep, t, x, e, env, k, v);
    CollectRun(d, keep, u, x, f, env', k, Eval(d, u, env', k));
    if v.Good? && v.value.VList? {
      CollectRefines(lax, c, d, keep, e, f, x, v.value.items, env, env', k);
    }
  }

  lemma FoldCong(lax: bool, c: Ctx, d: Ctx, t: Expr, u: Expr, i: Expr, j: Expr, acc: string, x: string, e: Expr,
      f: Expr, env: Env, env': Env, k: nat)
    requires Alike(lax, c, d) && ExprRefines(lax, c, d, t, u, env, env', k) &&
      ExprRefines(lax, c, d, i, j, env, env', k)
    requires StepsRefine(lax, c, d, e, f, acc, x, env, env', k)
    ensures ExprRefines(lax, c, d, Fold(t, i, acc, x, e), Fold(u, j, acc, x, f), env, env', k)
  {
    var v, a := Eval(c, t, env, k), Eval(c, i, env, k);
    FoldRun(c, t, i, acc, x, e, env, k, v, a);
    FoldRun(d, u, j, acc, x, f, env', k, Eval(d, u, env', k), Eval(d, j, env', k));
    if v.Good? && v.value.VList? && a.Good? {
      FoldRefines(lax, c, d, e, f, acc, x, a.value, v.value.items, env, env', k);
    }
  }

  lemma FoldBytesCong(lax: bool, c: Ctx, d: Ctx, e: Expr, f: Expr, env: Env, env': Env, k: nat)
    requires Alike(lax, c, d) && e.FoldBytes? && f.FoldBytes? && f.acc == e.acc && f.byte == e.byte && f.idx == e.idx
    requires ExprRefines(lax, c, d, e.text, f.text, env, env', k) &&
      ExprRefines(lax, c, d, e.init, f.init, env, env', k)
    requires forall a, b, n :: ByteRefines(lax, c, d, e, f, env, env', k, a, b, n)
    ensures ExprRefines(lax, c, d, e, f, env, env', k)
  {
    var v, a := Eval(c, e.text, env, k), Eval(c, e.init, env, k);
    if v.Good? && v.value.VText? && a.Good? {
      FoldBytesRefines(lax, c, d, e, f, a.value, v.value.s, 0, env, env', k);
    }
  }

  /** What two matches need of the arms a value selects. */
  ghost predicate ArmsRefine(lax: bool, c: Ctx, d: Ctx, es: seq<Arm>, fs: seq<Arm>, v: Value, env: Env, env': Env,
      k: nat) {
    var r, s := SelectArm(c, es, v, env), SelectArm(d, fs, v, env');
    && r.Good? == s.Good? && (r.Bad? ==> r == s)
    && (r.Good? ==> Refines(lax, Eval(c, es[r.value.0].body, r.value.1, k), Eval(d, fs[s.value.0].body, s.value.1, k)))
  }

  lemma MatchVariantCong(lax: bool, c: Ctx, d: Ctx, t: Expr, u: Expr, es: seq<Arm>, fs: seq<Arm>, env: Env, env': Env,
      k: nat)
    requires ExprRefines(lax, c, d, t, u, env, env', k)
    requires forall v :: ArmsRefine(lax, c, d, es, fs, v, env, env', k)
    ensures ExprRefines(lax, c, d, MatchVariant(t, es), MatchVariant(u, fs), env, env', k)
  {
    var v := Eval(c, t, env, k);
    if v.Good? {
      assert ArmsRefine(lax, c, d, es, fs, v.value, env, env', k);
    }
  }
}
