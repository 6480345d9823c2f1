/** The tokens the parser reads. */
module Tokens {
  import opened Int64
  import opened Ast

  datatype Token =
    | TIdent(name: string) | TNumberLit(n: i64) | TString(s: Bytes) | TBytesLit(b: Bytes) | TAttribute(name: string)
    | Colon | DoubleColon | Comma | Dot
    | LBracket | RBracket | LParen | RParen | LBrace | RBrace
    | Equal | EqualEqual | FatArrow | NotEqual | Greater | Less | GreaterEqual | LessEqual
    | Plus | Minus | Star | Slash | Percent
    | Indent | Dedent | Newline | Eof

  /** No literal is negative; a sign is a token of its own. */
  predicate Unsigned(t: Token) { t.TNumberLit? ==> t.n >= 0 }

  ghost predicate Literals(ts: seq<Token>) { forall i | 0 <= i < |ts| :: Unsigned(ts[i]) }

  /** INDENTs minus DEDENTs. */
  function Depth(ts: seq<Token>): int {
    if ts == [] then 0
    else Depth(ts[..|ts| - 1]) + Shift(ts[|ts| - 1])
  }

  function Shift(t: Token): int {
    match t
    case Indent => 1
    case Dedent => -1
    case _ => 0
  }

  lemma {:induction false} DepthConcat(ts: seq<Token>, us: seq<Token>)
    ensures Depth(ts + us) == Depth(ts) + Depth(us)
    decreases |us|
  {
    if us == [] {
      assert ts + us == ts;
    } else {
      var front, last := us[..|us| - 1], us[|us| - 1];
      DepthConcat(ts, front);
      assert (ts + us)[..|ts + us| - 1] == ts + front;
    }
  }

  /** The tokens leave `d` blocks open, and no prefix closes more than it opened. */
  predicate Disciplined(ts: seq<Token>, d: int) {
    if ts == [] then d == 0
    else d >= 0 && Disciplined(ts[..|ts| - 1], d - Shift(ts[|ts| - 1]))
  }

  lemma DisciplinedAppend(ts: seq<Token>, d: int, t: Token)
    requires Disciplined(ts, d) && d + Shift(t) >= 0
    ensures Disciplined(ts + [t], d + Shift(t))
  {
    assert (ts + [t])[..|ts|] == ts;
  }

  /** The discipline, in terms of INDENTs and DEDENTs of every prefix. */
  lemma {:induction false} DisciplinedMeaning(ts: seq<Token>, d: int)
    ensures Disciplined(ts, d) <==> Depth(ts) == d && forall i | 0 <= i <= |ts| :: Depth(ts[..i]) >= 0
    decreases |ts|
  {
    if ts == [] {
      assert ts[..0] == [];
    } else {
      var front := ts[..|ts| - 1];
      DisciplinedMeaning(front, d - Shift(ts[|ts| - 1]));
      assert forall i | 0 <= i <= |front| :: front[..i] == ts[..i];
      assert ts[..|ts|] == ts;
      if forall i | 0 <= i <= |ts| :: Depth(ts[..i]) >= 0 {
        assert Depth(ts[..|ts|]) >= 0;
        forall i | 0 <= i <= |front|
          ensures Depth(front[..i]) >= 0
        {
          assert Depth(ts[..i]) >= 0;
        }
      }
    }
  }
}
