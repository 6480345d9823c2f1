/** Inlining of lets that bind a text literal. */
module Inlining {
  import opened Int64
  import opened Ast
  import opened TextOps
  import opened Interp
  import opened Refinement
  import opened Substitution

  datatype Alias = Alias(name: string, text: Bytes)

  /** Applies the substitutions in order. */
  function ApplySubs(e: Expr, subs: seq<Alias>): Expr
    decreases |subs|
  {
    if subs == [] then e else ApplySubs(Subst(e, subs[0].name, Text(subs[0].text)), subs[1..])
  }

  function Retain(subs: seq<Alias>, name: string): seq<Alias> {
    if subs == [] then [] else (if subs[0].name != name then [subs[0]] else []) + Retain(subs[1..], name)
  }

  /** The kept lets and the literals still visible after them. */
  function InlineLets(bs: seq<Binding>, subs: seq<Alias>): (seq<Binding>, seq<Alias>)
    decreases |bs|
  {
    if bs == [] then ([], subs)
    else
      var e := ApplySubs(bs[0].value, subs);
      var rest := Retain(subs, bs[0].name);
      if e.Text? then InlineLets(bs[1..], rest + [Alias(bs[0].name, e.s)])
      else
        var (kept, out) := InlineLets(bs[1..], rest);
        ([Binding(bs[0].name, e)] + kept, out)
  }

  function Inlined(r: Rule): Rule {
    var (kept, subs) := InlineLets(r.bindings, []);
    r.(bindings := kept, value := ApplySubs(r.value, subs))
  }

  /** The loop over the lets, with its two growing lists. */
  method InlineTextLets(bs: seq<Binding>, logic: Expr) returns (kept: seq<Binding>, rewritten: Expr)
    ensures (kept, rewritten) == (InlineLets(bs, []).0, ApplySubs(logic, InlineLets(bs, []).1))
  {
    kept := [];
    var substitutions: seq<Alias> := [];
    for i := 0 to |bs|
      invariant var (k, s) := InlineLets(bs[i..], substitutions);
        InlineLets(bs, []).0 == kept + k && InlineLets(bs, []).1 == s
    {
      assert bs[i..][1..] == bs[i + 1..];
      var e := ApplySubs(bs[i].value, substitutions);
      substitutions := Retain(substitutions, bs[i].name);
      if e.Text? {
        substitutions := substitutions + [Alias(bs[i].name, e.s)];
      } else {
        ghost var (k, s) := InlineLets(bs[i + 1..], substitutions);
        assert kept + ([Binding(bs[i].name, e)] + k) == (kept + [Binding(bs[i].name, e)]) + k;
        kept := kept + [Binding(bs[i].name, e)];
      }
    }
    assert kept + [] == kept;
    rewritten := ApplySubs(logic, substitutions);
  }

  /** No let that is left binds a text literal. */
  lemma {:induction false} NoTextLeft(bs: seq<Binding>, subs: seq<Alias>)
    ensures forall b | b in InlineLets(bs, subs).0 :: !b.value.Text?
    decreases |bs|
  {
    if bs != [] {
      var e, rest := ApplySubs(bs[0].value, subs), Retain(subs, bs[0].name);
      NoTextLeft(bs[1..], if e.Text? then rest + [Alias(bs[0].name, e.s)] else rest);
    }
  }

  // ----- meaning -----

  /** The environment the original lets would have built over `env`. */
  function Overlay(env: Env, subs: seq<Alias>): Env {
    if subs == [] then env else Overlay(env, subs[1..])[subs[0].name := VText(subs[0].text)]
  }

  lemma {:induction false} SubsEval(lax: bool, c: Ctx, e: Expr, subs: seq<Alias>, env: Env, k: nat)
    requires lax || NoNamedTable(e)
    ensures ExprRefines(lax, c, c, e, ApplySubs(e, subs), Overlay(env, subs), env, k)
    decreases |subs|
  {
    if subs != [] {
      SubstEval(lax, c, e, subs[0].name, subs[0].text, Overlay(env, subs[1..]), k);
      if !lax {
        SubstTables(e, subs[0].name, subs[0].text);
      }
      SubsEval(lax, c, Subst(e, subs[0].name, Text(subs[0].text)), subs[1..], env, k);
    }
  }

  /** A later binding hides every earlier substitution of its name. */
  lemma {:induction false} OverlayRebind(env: Env, subs: seq<Alias>, x: string, v: Value)
    ensures Overlay(env[x := v], Retain(subs, x)) == Overlay(env, subs)[x := v]
    decreases |subs|
  {
    if subs != [] {
      OverlayRebind(env, subs[1..], x, v);
      var y, t := subs[0].name, VText(subs[0].text);
      if y != x {
        var rest := Retain(subs[1..], x);
        assert ([subs[0]] + rest)[1..] == rest;
        assert Overlay(env, subs[1..])[x := v][y := t] == Overlay(env, subs[1..])[y := t][x := v];
      } else {
        assert [] + Retain(subs[1..], x) == Retain(subs[1..], x);
      }
    }
  }

  lemma {:induction false} OverlaySnoc(env: Env, subs: seq<Alias>, x: string, t: Bytes)
    ensures Overlay(env, subs + [Alias(x, t)]) == Overlay(env[x := VText(t)], subs)
    decreases |subs|
  {
    if subs == [] {
      assert subs + [Alias(x, t)] == [Alias(x, t)];
      assert Overlay(env, [Alias(x, t)][1..]) == env;
    } else {
      assert (subs + [Alias(x, t)])[1..] == subs[1..] + [Alias(x, t)];
      OverlaySnoc(env, subs[1..], x, t);
    }
  }

  /** What the two let lists build: the same failure, or environments that
      differ by the visible literals only. */
  ghost predicate LetsRefine(lax: bool, r: Res<Env>, s: Res<Env>, subs: seq<Alias>) {
    || (lax && GoesWrong(r))
    || (r.Bad? && r == s)
    || (r.Good? && s.Good? && r.value == Overlay(s.value, subs))
  }

  predicate LetsNameNoTable(bs: seq<Binding>) { forall b | b in bs :: NoNamedTable(b.value) }

  /** No try_byte_at anywhere in the rule has a name as its table. */
  predicate NamesNoTable(r: Rule) { LetsNameNoTable(r.bindings) && NoNamedTable(r.value) }

  lemma {:induction false} InlineLetsEval(lax: bool, c: Ctx, bs: seq<Binding>, subs: seq<Alias>, env: Env, k: nat)
    requires lax || LetsNameNoTable(bs)
    ensures var (kept, out) := InlineLets(bs, subs);
      LetsRefine(lax, EvalLets(c, bs, Overlay(env, subs), k), EvalLets(c, kept, env, k), out)
    decreases |bs|
  {
    if bs != [] {
      var x, rhs := bs[0].name, bs[0].value;
      var e, rest := ApplySubs(rhs, subs), Retain(subs, x);
      SubsEval(lax, c, rhs, subs, env, k);
      var v := Eval(c, rhs, Overlay(env, subs), k);
      if v.Good? {
        OverlayRebind(env, subs, x, v.value);
        if e.Text? {
          OverlaySnoc(env, rest, x, e.s);
          InlineLetsEval(lax, c, bs[1..], rest + [Alias(x, e.s)], env, k);
        } else {
          InlineLetsEval(lax, c, bs[1..], rest, env[x := v.value], k);
        }
      }
      if !e.Text? {
        var kept := InlineLets(bs[1..], rest).0;
        assert ([Binding(x, e)] + kept)[1..] == kept;
      }
    }
  }

  /** Inlining keeps the meaning of a rule on every input, through rebinding,
      self-reference and failing lets. */
  lemma InlinedRefines(lax: bool, c: Ctx, r: Rule, v: Value, k: nat)
    requires lax || NamesNoTable(r)
    ensures Refines(lax, EvalRule(c, r, v, k), EvalRule(c, Inlined(r), v, k))
  {
    var env: Env := map[r.input := v];
    InlineLetsEval(lax, c, r.bindings, [], env, k);
    var (kept, subs) := InlineLets(r.bindings, []);
    var e, e' := EvalLets(c, r.bindings, env, k), EvalLets(c, kept, env, k);
    if e.Good? && e'.Good? {
      SubsEval(lax, c, r.value, subs, e'.value, k);
    }
  }

  /** Where no table is a name, inlining changes no outcome: not a value, and
      not the failure of a let that is overwritten later or never used. */
  lemma InlinedEqual(c: Ctx, r: Rule, v: Value, k: nat)
    requires NamesNoTable(r)
    ensures EvalRule(c, r, v, k) == EvalRule(c, Inlined(r), v, k)
  {
    InlinedRefines(false, c, r, v, k);
  }

  // ----- why a table must not be a name -----

  const NamedTable := Rule("f", "i", TNumber, false, TResult(TNumber, TBoundsError), None,
                           [Binding("t", Text([97]))], TryByteAt(Ident("t"), Number(0)), None)

  /** `let t = "a"` then `try_byte_at(t, 0)`: a name is no table, so the rule is
      stuck, and the inlined rule reads the byte. */
  lemma NamedTableDiffers(c: Ctx, v: Value, k: nat)
    requires c.guarded == {} && c.sem.monitor.Off?
    ensures !NamesNoTable(NamedTable)
    ensures EvalRule(c, NamedTable, v, k) == Bad(Stuck)
    ensures EvalRule(c, Inlined(NamedTable), v, k) == Good(VOk(VNumber(97)))
  {
    var bs := NamedTable.bindings;
    assert bs[1..] == [] && Retain([], "t") == [] && [] + [Alias("t", [97])] == [Alias("t", [97])];
    assert InlineLets(bs[1..], [Alias("t", [97])]) == ([], [Alias("t", [97])]);
    assert ApplySubs(Text([97]), []) == Text([97]);
    assert InlineLets(bs, []) == ([], [Alias("t", [97])]);
    assert [Alias("t", [97])][1..] == [];
    assert ApplySubs(NamedTable.value, [Alias("t", [97])]) == TryByteAt(Text([97]), Number(0));
    var env: Env := map["i" := v];
    assert Eval(c, bs[0].value, env, k) == Good(VText([97]));
    assert EvalLets(c, bs, env, k) == Good(env["t" := VText([97])]);
    assert Eval(c, Number(0), env, k) == Good(VNumber(0));
  }
}
