/** The lexer: a cursor over the source, a stack of indentation widths and the
    tokens emitted so far. */
module Lexer {
  import opened Int64
  import opened Ast
  import opened TextOps
  import opened Escaping
  import opened Tokens

  const SPACE: Byte := 32
  const TAB: Byte := 9
  const DASH: Byte := 45

  predicate IsAlpha(b: Byte) { 65 <= b <= 90 || 97 <= b <= 122 }
  predicate IsIdentStart(b: Byte) { IsAlpha(b) || b == 95 }
  predicate IsIdentContinue(b: Byte) { IsIdentStart(b) || IsDigit(b) }

  function ToName(s: Bytes): string {
    if s == [] then "" else [s[0] as char] + ToName(s[1..])
  }

  function Peek(src: Bytes, i: nat): Option<Byte> { if i < |src| then Some(src[i]) else None }

  /** Punctuation by its first byte and the next one, and how many bytes it takes. */
  function Punctuation(c: Byte, next: Option<Byte>): (r: Option<(Token, nat)>)
    ensures r.Some? ==> 1 <= r.value.1 <= (if next.Some? then 2 else 1) && Plain(r.value.0)
  {
    if c == 58 then Some(if next == Some(58) then (DoubleColon, 2) else (Colon, 1))
    else if c == 44 then Some((Comma, 1))
    else if c == 91 then Some((LBracket, 1))
    else if c == 93 then Some((RBracket, 1))
    else if c == 40 then Some((LParen, 1))
    else if c == 41 then Some((RParen, 1))
    else if c == 123 then Some((LBrace, 1))
    else if c == 125 then Some((RBrace, 1))
    else if c == 61 then
      Some(if next == Some(61) then (EqualEqual, 2) else if next == Some(62) then (FatArrow, 2) else (Equal, 1))
    else if c == 33 then (if next == Some(61) then Some((NotEqual, 2)) else None)
    else if c == 62 then Some(if next == Some(61) then (GreaterEqual, 2) else (Greater, 1))
    else if c == 60 then Some(if next == Some(61) then (LessEqual, 2) else (Less, 1))
    else if c == 46 then Some((Dot, 1))
    else if c == 43 then Some((Plus, 1))
    else if c == DASH then Some((Minus, 1))
    else if c == 42 then Some((Star, 1))
    else if c == 47 then Some((Slash, 1))
    else if c == 37 then Some((Percent, 1))
    else None
  }

  function Nesting(t: Token): int {
    match t
    case LBracket => 1
    case LParen => 1
    case LBrace => 1
    case RBracket => -1
    case RParen => -1
    case RBrace => -1
    case _ => 0
  }

  /** Tokens that carry no layout. */
  predicate Plain(t: Token) { !t.Indent? && !t.Dedent? && !t.Newline? && !t.Eof? && Unsigned(t) }

  // ----- one token -----

  /** The end of a run of identifier bytes, or of digits. */
  function RunEnd(src: Bytes, pos: nat, digits: bool): (n: nat)
    requires pos <= |src|
    ensures pos <= n <= |src|
    ensures pos < |src| && (if digits then IsDigit(src[pos]) else IsIdentContinue(src[pos])) ==> n > pos
    decreases |src| - pos
  {
    if pos < |src| && (if digits then IsDigit(src[pos]) else IsIdentContinue(src[pos]))
    then RunEnd(src, pos + 1, digits)
    else pos
  }

  function NumberToken(s: Bytes): Option<Token> {
    match DigitsValue(s) case Some(n) => (if Fits(n) then Some(TNumberLit(n)) else None) case None => None
  }

  /** The token at `pos` and the position after it. */
  function Scan(src: Bytes, pos: nat): (r: Option<(Token, nat)>)
    requires pos < |src|
    ensures r.Some? ==> pos < r.value.1 <= |src| && Plain(r.value.0)
  {
    var c := src[pos];
    if c == 64 then
      var end := RunEnd(src, pos + 1, false);
      if end == pos + 1 then None else Some((TAttribute(ToName(src[pos + 1..end])), end))
    else if c == QUOTE then
      match Literal(src, pos + 1, false) case None => None case Some((s, end)) => Some((TString(s), end))
    else if IsDigit(c) then
      var end := RunEnd(src, pos, true);
      match NumberToken(src[pos..end]) case None => None case Some(t) => Some((t, end))
    else if c == 98 && Peek(src, pos + 1) == Some(QUOTE) then
      match Literal(src, pos + 2, true) case None => None case Some((s, end)) => Some((TBytesLit(s), end))
    else if IsIdentStart(c) then
      var end := RunEnd(src, pos, false);
      Some((TIdent(ToName(src[pos..end])), end))
    else
      match Punctuation(c, Peek(src, pos + 1)) case None => None case Some((t, n)) => Some((t, pos + n))
  }

  // ----- indentation -----

  /** The number of spaces from `pos` on. */
  function Spaces(src: Bytes, pos: nat): (n: nat)
    requires pos <= |src|
    ensures pos + n <= |src|
    decreases |src| - pos
  {
    if pos < |src| && src[pos] == SPACE then 1 + Spaces(src, pos + 1) else 0
  }

  predicate IsComment(src: Bytes, i: nat) { Peek(src, i) == Some(DASH) && Peek(src, i + 1) == Some(DASH) }

  /** Nothing but layout on the rest of the line. */
  predicate IsBlank(src: Bytes, i: nat) { i >= |src| || src[i] == NEWLINE || IsComment(src, i) }

  ghost predicate Increasing(ws: seq<nat>) { forall i, j | 0 <= i < j < |ws| :: ws[i] < ws[j] }

  ghost predicate Stack(ws: seq<nat>) { |ws| > 0 && ws[0] == 0 && Increasing(ws) }

  /** The tokens followed by `n` DEDENTs. */
  function Dedented(ts: seq<Token>, n: nat): (r: seq<Token>)
    ensures |r| == |ts| + n
  {
    if n == 0 then ts else Dedented(ts, n - 1) + [Dedent]
  }

  /** Stack and tokens after the start of a line of width `w`; None is inconsistent. */
  function Settle(ws: seq<nat>, ts: seq<Token>, w: nat): (r: Option<(seq<nat>, seq<Token>)>)
    requires |ws| > 0
    ensures r.Some? ==> |r.value.0| > 0
  {
    if w > ws[|ws| - 1] then Some((ws + [w], ts + [Indent]))
    else if exists j | 0 <= j < |ws| :: ws[j] == w then
      Some((Close(ws, w), Dedented(ts, |ws| - |Close(ws, w)|)))
    else None
  }

  /** Drops the widths above `w` from the top. */
  function Close(ws: seq<nat>, w: nat): (r: seq<nat>)
    ensures |r| <= |ws| && r == ws[..|r|]
    ensures r != [] ==> r[|r| - 1] <= w
    ensures forall i | |r| <= i < |ws| :: ws[i] > w
  {
    if ws != [] && ws[|ws| - 1] > w then Close(ws[..|ws| - 1], w) else ws
  }

  // ----- the whole source -----

  datatype State = State(pos: nat, indents: seq<nat>, tokens: seq<Token>, atLineStart: bool, parens: int)

  /** The first position from `pos` on that ends the line. */
  function LineEnd(src: Bytes, pos: nat): (n: nat)
    requires pos <= |src|
    ensures pos <= n <= |src| && (pos < |src| && src[pos] != NEWLINE ==> n > pos)
    decreases |src| - pos
  {
    if pos < |src| && src[pos] != NEWLINE then LineEnd(src, pos + 1) else pos
  }

  /** The tokens after the end of a line. */
  function Ended(ts: seq<Token>): seq<Token> {
    if ts != [] && !ts[|ts| - 1].Newline? && !ts[|ts| - 1].Indent? && !ts[|ts| - 1].Dedent? then ts + [Newline] else ts
  }

  /** The start of a line outside brackets. */
  function LineStart(src: Bytes, s: State): (r: Option<State>)
    requires s.pos <= |src| && |s.indents| > 0
    ensures r.Some? ==> s.pos <= r.value.pos <= |src| && !r.value.atLineStart && |r.value.indents| > 0
  {
    var w := Spaces(src, s.pos);
    var t := s.(pos := s.pos + w, atLineStart := false);
    if Peek(src, t.pos) == Some(TAB) then None
    else if IsBlank(src, t.pos) then Some(t)
    else
      match Settle(s.indents, s.tokens, w)
      case None => None
      case Some((ws, ts)) => Some(t.(indents := ws, tokens := ts))
  }

  /** Everything else, at a position inside a line. */
  function Step(src: Bytes, s: State): (r: Option<State>)
    requires s.pos < |src| && |s.indents| > 0
    ensures r.Some? ==> s.pos < r.value.pos <= |src| && |r.value.indents| > 0
  {
    var c := src[s.pos];
    if IsComment(src, s.pos) then Some(s.(pos := LineEnd(src, s.pos)))
    else if c == NEWLINE then
      var t := s.(pos := s.pos + 1);
      Some(if s.parens == 0 then t.(tokens := Ended(s.tokens), atLineStart := true) else t)
    else if c == SPACE || c == TAB then Some(s.(pos := s.pos + 1))
    else
      match Scan(src, s.pos)
      case None => None
      case Some((t, n)) =>
        var parens := s.parens + Nesting(t);
        if parens < 0 then None else Some(s.(pos := n, tokens := s.tokens + [t], parens := parens))
  }

  /** The end of the source: a last NEWLINE, the open blocks closed, EOF. */
  function Finish(s: State): seq<Token>
    requires |s.indents| > 0
  {
    var ts := if s.tokens != [] && !s.tokens[|s.tokens| - 1].Newline? then s.tokens + [Newline] else s.tokens;
    Dedented(ts, |s.indents| - 1) + [Eof]
  }

  function Lex(src: Bytes, s: State): Option<seq<Token>>
    requires s.pos <= |src| && |s.indents| > 0
    decreases |src| - s.pos, if s.atLineStart then 1 else 0
  {
    if s.pos == |src| then Some(Finish(s))
    else
      match (if s.atLineStart && s.parens == 0 then LineStart(src, s) else Step(src, s))
      case None => None
      case Some(t) => Lex(src, t)
  }

  const Begin := State(0, [0], [], true, 0)

  // ----- the object -----

  class Lexer {
    const src: Bytes
    var pos: nat
    var indents: seq<nat>
    var tokens: seq<Token>
    var atLineStart: bool
    var parens: int

    /** The stack is strictly increasing from 0, and its depth is the number of
        blocks the tokens leave open; no prefix of them closes too many. */
    ghost predicate Valid()
      reads this
    {
      && pos <= |src| && parens >= 0
      && Stack(indents)
      && Disciplined(tokens, |indents| - 1)
      && Eof !in tokens && Literals(tokens)
    }

    function Here(): State
      reads this
    {
      State(pos, indents, tokens, atLineStart, parens)
    }

    constructor (src: Bytes)
      ensures Valid() && this.src == src && Here() == Begin
    {
      this.src, pos, indents, tokens, atLineStart, parens := src, 0, [0], [], true, 0;
    }

    method Emit(t: Token, ghost depth: int)
      requires Disciplined(tokens, depth) && depth + Shift(t) >= 0
      modifies this`tokens
      ensures tokens == old(tokens) + [t] && Disciplined(tokens, depth + Shift(t))
    {
      DisciplinedAppend(tokens, depth, t);
      tokens := tokens + [t];
    }

    method Run(digits: bool)
      requires pos <= |src|
      modifies this`pos
      ensures pos == RunEnd(src, old(pos), digits)
    {
      while pos < |src| && (if digits then IsDigit(src[pos]) else IsIdentContinue(src[pos]))
        invariant pos <= |src| && RunEnd(src, pos, digits) == RunEnd(src, old(pos), digits)
        decreases |src| - pos
      {
        pos := pos + 1;
      }
    }

    /** Reads one token; an unmatched closing bracket is refused. */
    method ReadToken() returns (ok: bool)
      requires Valid() && pos < |src|
      modifies this`pos, this`tokens, this`parens
      ensures var t := Scan(src, old(pos));
        && (ok <==> t.Some? && old(parens) + Nesting(t.value.0) >= 0)
        && (ok ==>
              && Valid() && tokens == old(tokens) + [t.value.0] && pos == t.value.1
              && parens == old(parens) + Nesting(t.value.0))
    {
      var t := Take();
      if t.None? || parens + Nesting(t.value) < 0 {
        return false;
      }
      parens := parens + Nesting(t.value);
      Emit(t.value, |indents| - 1);
      ok := true;
    }

    /** The token at the cursor, which moves past it. */
    method Take() returns (t: Option<Token>)
      requires pos < |src|
      modifies this`pos
      ensures match Scan(src, old(pos)) case None => t.None? case Some((token, n)) => t == Some(token) && pos == n
    {
      var start, c := pos, src[pos];
      if c == 64 {
        pos := pos + 1;
        Run(false);
        return if start + 1 == pos then None else Some(TAttribute(ToName(src[start + 1..pos])));
      } else if c == QUOTE {
        var s := ReadLiteral(src, pos + 1, false);
        if s.None? {
          return None;
        }
        pos := s.value.1;
        return Some(TString(s.value.0));
      } else if IsDigit(c) {
        Run(true);
        return NumberToken(src[start..pos]);
      } else if c == 98 && Peek(src, pos + 1) == Some(QUOTE) {
        var s := ReadLiteral(src, pos + 2, true);
        if s.None? {
          return None;
        }
        pos := s.value.1;
        return Some(TBytesLit(s.value.0));
      } else if IsIdentStart(c) {
        Run(false);
        return Some(TIdent(ToName(src[start..pos])));
      } else {
        var p := Punctuation(c, Peek(src, pos + 1));
        if p.None? {
          return None;
        }
        pos := pos + p.value.1;
        return Some(p.value.0);
      }
    }

    /** Measures the indentation and opens or closes blocks. */
    method HandleLineStart() returns (ok: bool)
      requires Valid()
      modifies this
      ensures Valid() && LineStart(src, old(Here())) == if ok then Some(Here()) else None
    {
      var width := MeasureIndent();
      if pos < |src| && src[pos] == TAB {
        return false;
      }
      atLineStart := false;
      if IsBlank(src, pos) {
        return true;
      }
      if width > indents[|indents| - 1] {
        Open(width);
        return true;
      }
      ok := CloseTo(width);
    }

    method Open(width: nat)
      requires Valid() && width > indents[|indents| - 1]
      modifies this`indents, this`tokens
      ensures Valid() && Settle(old(indents), old(tokens), width) == Some((indents, tokens))
    {
      Emit(Indent, |indents| - 1);
      Pushed(indents, width);
      indents := indents + [width];
    }

    method MeasureIndent() returns (width: nat)
      requires pos <= |src|
      modifies this`pos
      ensures width == Spaces(src, old(pos)) && pos == old(pos) + width
    {
      width := 0;
      while pos < |src| && src[pos] == SPACE
        invariant pos <= |src| && pos == old(pos) + width
        invariant width + Spaces(src, pos) == Spaces(src, old(pos))
        decreases |src| - pos
      {
        width, pos := width + 1, pos + 1;
      }
    }

    /** Pops the stack down to `width`, one DEDENT each. */
    method CloseTo(width: nat) returns (ok: bool)
      requires Valid() && width <= indents[|indents| - 1]
      modifies this`indents, this`tokens
      ensures Valid()
      ensures ok <==> Settle(old(indents), old(tokens), width).Some?
      ensures ok ==> (indents, tokens) == Settle(old(indents), old(tokens), width).value
    {
      ghost var before, start := indents, tokens;
      ghost var n := PopAbove(width);
      ok := indents[|indents| - 1] == width;
      SettleIs(before, start, n, width);
      DedentsClose(start, |before| - 1, |before| - n);
      DedentsPlain(start, |before| - n);
    }

    method PopAbove(width: nat) returns (ghost n: nat)
      requires |indents| > 0 && indents[0] == 0
      modifies this`indents, this`tokens
      ensures 0 < n <= |old(indents)| && indents == old(indents)[..n] && indents[n - 1] <= width
      ensures forall i | n <= i < |old(indents)| :: old(indents)[i] > width
      ensures tokens == Dedented(old(tokens), |old(indents)| - n)
    {
      ghost var before, start := indents, tokens;
      n := |indents|;
      assert indents[..n] == indents;
      while indents[|indents| - 1] > width
        invariant 0 < n <= |before| && indents == before[..n]
        invariant forall i | n <= i < |before| :: before[i] > width
        invariant tokens == Dedented(start, |before| - n)
        decreases n
      {
        n := n - 1;
        assert before[..n + 1][..n] == before[..n];
        indents := indents[..|indents| - 1];
        tokens := tokens + [Dedent];
      }
    }

    /** The end of a line; a NEWLINE is emitted unless the line held no token. */
    method EndLine()
      requires Valid() && pos < |src|
      modifies this`pos, this`tokens, this`atLineStart
      ensures Valid() && pos == old(pos) + 1
      ensures tokens == if parens == 0 then Ended(old(tokens)) else old(tokens)
      ensures atLineStart == (parens == 0 || old(atLineStart))
    {
      pos := pos + 1;
      if parens == 0 {
        if tokens != [] {
          var last := tokens[|tokens| - 1];
          if !last.Newline? && !last.Indent? && !last.Dedent? {
            Emit(Newline, |indents| - 1);
          }
        }
        atLineStart := true;
      }
    }

    method SkipComment()
      requires Valid() && pos < |src|
      modifies this`pos
      ensures Valid() && pos == LineEnd(src, old(pos))
    {
      while pos < |src| && src[pos] != NEWLINE
        invariant old(pos) <= pos <= |src| && LineEnd(src, pos) == LineEnd(src, old(pos))
        decreases |src| - pos
      {
        pos := pos + 1;
      }
    }

    /** The whole source. The stream of a successful run closes every block it
        opens, in order, and ends in its only EOF. */
    method Tokenize() returns (r: Option<seq<Token>>)
      requires Valid()
      modifies this
      ensures r == Lex(src, old(Here()))
      ensures r.Some? ==> Balanced(r.value)
    {
      while pos < |src|
        invariant Valid() && Lex(src, Here()) == Lex(src, old(Here()))
        decreases |src| - pos
      {
        if atLineStart && parens == 0 {
          var ok := HandleLineStart();
          if !ok {
            return None;
          }
          if pos == |src| {
            break;
          }
        }
        var ok := Advance();
        if !ok {
          return None;
        }
      }
      r := End();
    }

    /** One step inside a line. */
    method Advance() returns (ok: bool)
      requires Valid() && pos < |src|
      modifies this
      ensures Step(src, old(Here())) == if ok then Some(Here()) else None
      ensures ok ==> Valid()
    {
      var c := src[pos];
      ok := true;
      if IsComment(src, pos) {
        SkipComment();
      } else if c == NEWLINE {
        EndLine();
      } else if c == SPACE || c == TAB {
        pos := pos + 1;
      } else {
        ok := ReadToken();
      }
    }

    method End() returns (r: Option<seq<Token>>)
      requires Valid()
      modifies this
      ensures r == Some(Finish(old(Here()))) && Balanced(r.value)
    {
      if tokens != [] && !tokens[|tokens| - 1].Newline? {
        Emit(Newline, |indents| - 1);
      }
      CloseAll();
      EndBalances(tokens);
      tokens := tokens + [Eof];
      return Some(tokens);
    }

    method CloseAll()
      requires Valid()
      modifies this`tokens, this`indents
      ensures Valid() && |indents| == 1 && tokens == Dedented(old(tokens), old(|indents|) - 1)
    {
      while |indents| > 1
        invariant Valid() && |indents| <= old(|indents|) && tokens == Dedented(old(tokens), old(|indents|) - |indents|)
        decreases |indents|
      {
        Emit(Dedent, |indents| - 1);
        indents := indents[..|indents| - 1];
      }
    }
  }

  /** What a token stream promises the parser. */
  ghost predicate Balanced(ts: seq<Token>) {
    && Disciplined(ts, 0) && Literals(ts)
    && ts != [] && ts[|ts| - 1] == Eof && Eof !in ts[..|ts| - 1]
  }

  lemma EndBalances(ts: seq<Token>)
    requires Disciplined(ts, 0) && Eof !in ts && Literals(ts)
    ensures Balanced(ts + [Eof])
  {
    DisciplinedAppend(ts, 0, Eof);
    assert (ts + [Eof])[..|ts|] == ts;
  }

  lemma Pushed(ws: seq<nat>, w: nat)
    requires Stack(ws) && w > ws[|ws| - 1]
    ensures Stack(ws + [w])
  {
  }

  lemma {:induction false} DedentsClose(ts: seq<Token>, d: nat, n: nat)
    requires Disciplined(ts, d) && n <= d
    ensures Disciplined(Dedented(ts, n), d - n)
  {
    if n > 0 {
      DedentsClose(ts, d, n - 1);
      OneDedent(Dedented(ts, n - 1), d - n);
    }
  }

  lemma OneDedent(ts: seq<Token>, d: nat)
    requires Disciplined(ts, d + 1)
    ensures Disciplined(ts + [Dedent], d)
  {
    DisciplinedAppend(ts, d + 1, Dedent);
  }

  lemma {:induction false} DedentsPlain(ts: seq<Token>, n: nat)
    requires Eof !in ts && Literals(ts)
    ensures Eof !in Dedented(ts, n) && Literals(Dedented(ts, n))
  {
    if n > 0 {
      DedentsPlain(ts, n - 1);
    }
  }

  lemma {:induction false} CloseIs(ws: seq<nat>, n: nat, w: nat)
    requires 0 < n <= |ws| && ws[n - 1] <= w && forall i | n <= i < |ws| :: ws[i] > w
    ensures Close(ws, w) == ws[..n]
    decreases |ws|
  {
    if n < |ws| {
      CloseIs(ws[..|ws| - 1], n, w);
      assert ws[..|ws| - 1][..n] == ws[..n];
    } else {
      assert ws[..n] == ws;
    }
  }

  lemma SettleIs(ws: seq<nat>, ts: seq<Token>, n: nat, w: nat)
    requires Stack(ws) && 0 < n <= |ws| && ws[n - 1] <= w <= ws[|ws| - 1] && forall i | n <= i < |ws| :: ws[i] > w
    ensures Stack(ws[..n])
    ensures Settle(ws, ts, w) == if ws[n - 1] == w then Some((ws[..n], Dedented(ts, |ws| - n))) else None
  {
    CloseIs(ws, n, w);
    if j :| 0 <= j < |ws| && ws[j] == w {
      assert j < n;
      assert ws[j] <= ws[n - 1];
    }
  }
}
