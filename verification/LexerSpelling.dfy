/** How tokens are spelled, and that the lexer reads spellings back. Nothing of
    the lexer is used to spell. */
module LexerSpelling {
  import opened Int64
  import opened Ast
  import opened TextOps
  import opened Escaping
  import opened Tokens
  import opened ScalarLaws
  import opened Lexer

  // ----- spelling -----

  /** A number in decimal, without leading zeros. */
  function NumberText(n: nat): (s: string)
    ensures |s| > 0
  {
    if n < 10 then ["0123456789"[n]] else NumberText(n / 10) + ["0123456789"[n % 10]]
  }

  /** One byte of a text, escaped where it could not stand by itself. */
  function TextByte(b: Byte): Bytes {
    if b == CharByte('"') then Chars("\\\"")
    else if b == CharByte('\\') then Chars("\\\\")
    else if b == CharByte('\n') then Chars("\\n")
    else if b == CharByte('\t') then Chars("\\t")
    else if b == CharByte('\r') then Chars("\\r")
    else [b]
  }

  function HexDigit(n: nat): Byte
    requires n < 16
  {
    CharByte("0123456789abcdef"[n])
  }

  /** One byte of a byte string, as two hexadecimal digits. */
  function HexByte(b: Byte): Bytes { Chars("\\x") + [HexDigit(b / 16), HexDigit(b % 16)] }

  /** The pieces of a literal and its closing quote. */
  function Glue(ps: seq<Bytes>): Bytes { if ps == [] then Chars("\"") else ps[0] + Glue(ps[1..]) }

  function TextPieces(s: Bytes): (ps: seq<Bytes>)
    ensures |ps| == |s|
  {
    seq(|s|, i requires 0 <= i < |s| => TextByte(s[i]))
  }

  function BytePieces(s: Bytes): (ps: seq<Bytes>)
    ensures |ps| == |s|
  {
    seq(|s|, i requires 0 <= i < |s| => HexByte(s[i]))
  }

  function Mark(t: Token): string {
    match t
    case Colon => ":"
    case DoubleColon => "::"
    case Comma => ","
    case Dot => "."
    case LBracket => "["
    case RBracket => "]"
    case LParen => "("
    case RParen => ")"
    case LBrace => "{"
    case RBrace => "}"
    case Equal => "="
    case EqualEqual => "=="
    case FatArrow => "=>"
    case NotEqual => "!="
    case Greater => ">"
    case Less => "<"
    case GreaterEqual => ">="
    case LessEqual => "<="
    case Plus => "+"
    case Minus => "-"
    case Star => "*"
    case Slash => "/"
    case Percent => "%"
    case _ => ""
  }

  /** What a token looks like in a program. */
  function Spell(t: Token): Bytes {
    match t
    case TIdent(x) => Chars(x)
    case TNumberLit(n) => if n >= 0 then Chars(NumberText(n)) else []
    case TString(s) => Chars("\"") + Glue(TextPieces(s))
    case TBytesLit(b) => Chars("b\"") + Glue(BytePieces(b))
    case TAttribute(x) => Chars("@") + Chars(x)
    case _ => Chars(Mark(t))
  }

  predicate Letter(c: char) { 'a' <= c <= 'z' || 'A' <= c <= 'Z' || c == '_' }

  predicate LetterOrDigit(c: char) { Letter(c) || '0' <= c <= '9' }

  predicate Word(x: string) { x != "" && forall i | 0 <= i < |x| :: LetterOrDigit(x[i]) }

  /** A token that has a spelling: no layout, names of letters and digits. */
  predicate Spellable(t: Token) {
    match t
    case TIdent(x) => Word(x) && Letter(x[0])
    case TAttribute(x) => Word(x)
    case TNumberLit(n) => n >= 0
    case TString(_) => true
    case TBytesLit(_) => true
    case _ => Mark(t) != ""
  }

  /** Words with one space between. */
  function Spread(ws: seq<Bytes>): Bytes {
    if ws == [] then []
    else if |ws| == 1 then ws[0]
    else ws[0] + (Chars(" ") + Spread(ws[1..]))
  }

  function Spellings(ts: seq<Token>): (ws: seq<Bytes>)
    ensures |ws| == |ts| && forall i | 0 <= i < |ts| :: ws[i] == Spell(ts[i])
  {
    seq(|ts|, i requires 0 <= i < |ts| => Spell(ts[i]))
  }

  /** A line of tokens as it is written. */
  function Spaced(ts: seq<Token>): Bytes { Spread(Spellings(ts)) }

  /** Opening brackets minus closing ones. */
  function Opened(ts: seq<Token>, n: nat): int
    requires n <= |ts|
  {
    if n == 0 then 0
    else
      Opened(ts, n - 1) + (if ts[n - 1] in {LParen, LBracket, LBrace} then 1 else 0)
      - (if ts[n - 1] in {RParen, RBracket, RBrace} then 1 else 0)
  }

  /** No bracket closes before one opens. */
  ghost predicate Nested(ts: seq<Token>) { forall n | 0 <= n <= |ts| :: Opened(ts, n) >= 0 }

  // ----- one token -----

  /** `w` stands in `src` at `pos`, before a space, a line feed or the end. */
  ghost predicate Standing(src: Bytes, pos: nat, w: Bytes) {
    && pos + |w| <= |src| && src[pos..pos + |w|] == w
    && (pos + |w| < |src| ==> src[pos + |w|] in {SPACE, NEWLINE})
  }

  lemma StandingAt(src: Bytes, pos: nat, w: Bytes, i: nat)
    requires Standing(src, pos, w) && i < |w|
    ensures src[pos + i] == w[i]
  {
    assert src[pos..pos + |w|][i] == src[pos + i];
  }

  /** One or two bytes that are the punctuation `t` before a space, a line feed or the end. */
  ghost predicate IsMark(w: Bytes, t: Token) {
    && 1 <= |w| <= 2 && w[0] !in {32, 9, 10, 34, 64, 98} && !IsDigit(w[0]) && !IsIdentStart(w[0])
    && (|w| == 2 ==> w[1] != DASH && Punctuation(w[0], Some(w[1])) == Some((t, 2)))
    && (|w| == 1 ==>
          Punctuation(w[0], None) == Punctuation(w[0], Some(SPACE)) == Punctuation(w[0], Some(NEWLINE)) == Some((t, 1)))
  }

  lemma OneChar(c: char)
    ensures Chars([c]) == [CharByte(c)]
  {
  }

  lemma TwoChars(c: char, d: char)
    ensures Chars([c, d]) == [CharByte(c), CharByte(d)]
  {
  }

  lemma MarkBytes(t: Token)
    requires Mark(t) != ""
    ensures IsMark(Chars(Mark(t)), t)
  {
    var m := Mark(t);
    if |m| == 1 {
      OneChar(m[0]);
      assert m == [m[0]];
      if t in {LBracket, RBracket, LParen, RParen, LBrace, RBrace} {
        BracketIs(t, m[0]);
      } else {
        SingleIs(t, m[0]);
      }
    } else {
      TwoChars(m[0], m[1]);
      assert m == [m[0], m[1]];
      DoubleIs(t, m[0], m[1]);
    }
  }

  lemma BracketIs(t: Token, c: char)
    requires t in {LBracket, RBracket, LParen, RParen, LBrace, RBrace} && Mark(t) == [c]
    ensures IsMark([CharByte(c)], t)
  {
  }

  lemma SingleIs(t: Token, c: char)
    requires t !in {LBracket, RBracket, LParen, RParen, LBrace, RBrace} && Mark(t) == [c]
    ensures IsMark([CharByte(c)], t)
  {
  }

  lemma DoubleIs(t: Token, c: char, d: char)
    requires Mark(t) == [c, d]
    ensures IsMark([CharByte(c), CharByte(d)], t)
  {
  }

  /** What scanning a spelled token must give. */
  ghost predicate Scanned(src: Bytes, pos: nat, t: Token) {
    pos < |src| && src[pos] !in {SPACE, TAB, NEWLINE} && !IsComment(src, pos)
    && Scan(src, pos) == Some((t, pos + |Spell(t)|))
  }

  lemma MarkScans(src: Bytes, pos: nat, t: Token)
    requires Spell(t) == Chars(Mark(t)) && Mark(t) != "" && Standing(src, pos, Spell(t))
    ensures Scanned(src, pos, t)
  {
    MarkBytes(t);
    PunctuationScans(src, pos, t, Spell(t));
  }

  lemma PunctuationScans(src: Bytes, pos: nat, t: Token, w: Bytes)
    requires Standing(src, pos, w) && IsMark(w, t)
    ensures pos < |src| && src[pos] !in {SPACE, TAB, NEWLINE} && !IsComment(src, pos)
    ensures Scan(src, pos) == Some((t, pos + |w|))
  {
    StandingAt(src, pos, w, 0);
    if |w| == 2 {
      StandingAt(src, pos, w, 1);
    }
  }

  // ----- names and numbers -----

  /** Every byte of `w` goes on with the run. */
  ghost predicate Runs(w: Bytes, digits: bool) {
    forall i | 0 <= i < |w| :: if digits then IsDigit(w[i]) else IsIdentContinue(w[i])
  }

  lemma {:induction false} RunStops(src: Bytes, pos: nat, w: Bytes, digits: bool)
    requires Standing(src, pos, w) && Runs(w, digits)
    ensures RunEnd(src, pos, digits) == pos + |w|
    decreases |w|
  {
    if w != [] {
      StandingAt(src, pos, w, 0);
      assert src[pos + 1..pos + 1 + |w[1..]|] == src[pos..pos + |w|][1..];
      RunStops(src, pos + 1, w[1..], digits);
    }
  }

  lemma {:induction false} NameBack(x: string)
    requires forall i | 0 <= i < |x| :: LetterOrDigit(x[i])
    ensures ToName(Chars(x)) == x && Runs(Chars(x), false)
  {
    if x != "" {
      NameBack(x[1..]);
      assert Chars(x)[1..] == Chars(x[1..]);
      assert CharByte(x[0]) as char == x[0];
      assert [x[0]] + x[1..] == x;
      forall i | 0 <= i < |x|
        ensures IsIdentContinue(Chars(x)[i])
      {
        assert LetterOrDigit(x[i]);
      }
    }
  }

  lemma NameScans(src: Bytes, pos: nat, t: Token)
    requires t.TIdent? && Spellable(t) && Standing(src, pos, Spell(t))
    ensures Scanned(src, pos, t)
  {
    var w := Chars(t.name);
    NameBack(t.name);
    RunStops(src, pos, w, false);
    StandingAt(src, pos, w, 0);
    assert Letter(t.name[0]) && IsIdentStart(w[0]);
    if |w| > 1 {
      StandingAt(src, pos, w, 1);
      assert IsIdentContinue(w[1]);
    }
  }

  lemma AttributeScans(src: Bytes, pos: nat, t: Token)
    requires t.TAttribute? && Spellable(t) && Standing(src, pos, Spell(t))
    ensures Scanned(src, pos, t)
  {
    var w := Chars(t.name);
    NameBack(t.name);
    assert Spell(t) == Chars("@") + w && Chars("@") == [64];
    StandingAt(src, pos, Spell(t), 0);
    assert src[pos + 1..pos + 1 + |w|] == src[pos..pos + |Spell(t)|][1..] && Spell(t)[1..] == w;
    RunStops(src, pos + 1, w, false);
  }

  lemma {:induction false} NumberBytes(n: nat)
    ensures Chars(NumberText(n)) == Digits(n)
  {
    if n >= 10 {
      NumberBytes(n / 10);
      var s := NumberText(n / 10);
      assert Chars(s + ["0123456789"[n % 10]]) == Chars(s) + [CharByte("0123456789"[n % 10])];
    }
  }

  lemma NumberScans(src: Bytes, pos: nat, t: Token)
    requires t.TNumberLit? && Spellable(t) && Standing(src, pos, Spell(t))
    ensures Scanned(src, pos, t)
  {
    NumberBytes(t.n);
    DigitsRead(t.n);
    var w := Digits(t.n);
    RunStops(src, pos, w, true);
    StandingAt(src, pos, w, 0);
    assert IsDigit(w[0]);
  }

  // ----- literals -----

  /** `w` stands in `src` at `pos`, whatever follows. */
  ghost predicate Begins(src: Bytes, pos: nat, w: Bytes) { pos + |w| <= |src| && src[pos..pos + |w|] == w }

  lemma BeginsParts(src: Bytes, pos: nat, a: Bytes, b: Bytes)
    requires Begins(src, pos, a + b)
    ensures Begins(src, pos, a) && Begins(src, pos + |a|, b)
    ensures forall i | 0 <= i < |a| :: src[pos + i] == a[i]
  {
    var all := src[pos..pos + |a + b|];
    assert src[pos..pos + |a|] == all[..|a|] && (a + b)[..|a|] == a;
    assert src[pos + |a|..pos + |a| + |b|] == all[|a|..] && (a + b)[|a|..] == b;
    forall i | 0 <= i < |a|
      ensures src[pos + i] == a[i]
    {
      assert all[i] == src[pos + i];
    }
  }

  /** `w` is a way to write the byte `b` in a literal: as itself, after a
      backslash, or in a byte string as two hexadecimal digits. */
  ghost predicate Writes(w: Bytes, b: Byte, raw: bool) {
    || (w == [b] && b !in {QUOTE, NEWLINE, BACKSLASH})
    || (|w| == 2 && w[0] == BACKSLASH && LiteralEscape(w[1]) == Some(b))
    || (raw && |w| == 4 && w[0] == BACKSLASH && w[1] == 0x78 && HexVal(w[2]).Some? && HexVal(w[3]).Some?
        && b == 16 * HexVal(w[2]).value + HexVal(w[3]).value)
  }

  lemma TextWrites(b: Byte)
    ensures Writes(TextByte(b), b, false)
  {
  }

  lemma HexValue(n: nat)
    requires n < 16
    ensures HexVal(HexDigit(n)) == Some(n)
  {
  }

  lemma HexWrites(b: Byte)
    ensures Writes(HexByte(b), b, true)
  {
    assert Chars("\\x") == [BACKSLASH, 0x78];
    HexValue(b / 16);
    HexValue(b % 16);
  }

  lemma WrittenReads(src: Bytes, pos: nat, w: Bytes, b: Byte, raw: bool, rest: Option<(Bytes, nat)>)
    requires Begins(src, pos, w) && Writes(w, b, raw) && rest == Literal(src, pos + |w|, raw)
    ensures Literal(src, pos, raw) == Continue(b, rest)
  {
    var all := src[pos..pos + |w|];
    assert all[0] == src[pos];
    if |w| > 1 {
      assert all[1] == src[pos + 1];
      assert LiteralEscape(0x78) == None;
      if |w| == 4 {
        assert all[2] == src[pos + 2] && all[3] == src[pos + 3];
      }
      assert EscapeAt(src, pos + 1, raw) == Some((b, |w| - 1));
    }
  }

  lemma {:induction false} GlueReads(src: Bytes, pos: nat, ps: seq<Bytes>, s: Bytes, raw: bool)
    requires |ps| == |s| && (forall i | 0 <= i < |s| :: Writes(ps[i], s[i], raw)) && Begins(src, pos, Glue(ps))
    ensures Literal(src, pos, raw) == Some((s, pos + |Glue(ps)|))
    decreases |s|
  {
    if s == [] {
      QuoteEnds(src, pos, raw);
    } else {
      assert Writes(ps[0], s[0], raw);
      BeginsParts(src, pos, ps[0], Glue(ps[1..]));
      GlueReads(src, pos + |ps[0]|, ps[1..], s[1..], raw);
      WrittenReads(src, pos, ps[0], s[0], raw, Literal(src, pos + |ps[0]|, raw));
      assert [s[0]] + s[1..] == s;
    }
  }

  lemma QuoteEnds(src: Bytes, pos: nat, raw: bool)
    requires Begins(src, pos, Chars("\""))
    ensures Literal(src, pos, raw) == Some(([], pos + 1))
  {
    assert Chars("\"") == [QUOTE];
    assert src[pos..pos + 1][0] == src[pos];
  }

  lemma TextScans(src: Bytes, pos: nat, ps: seq<Bytes>, s: Bytes)
    requires |ps| == |s| && (forall i | 0 <= i < |s| :: Writes(ps[i], s[i], false))
    requires Begins(src, pos, Chars("\"") + Glue(ps))
    ensures src[pos] == QUOTE && Scan(src, pos) == Some((TString(s), pos + 1 + |Glue(ps)|))
  {
    var q := Chars("\"");
    assert q == [QUOTE];
    BeginsParts(src, pos, q, Glue(ps));
    assert src[pos + 0] == q[0];
    GlueReads(src, pos + 1, ps, s, false);
  }

  lemma BytesScan(src: Bytes, pos: nat, ps: seq<Bytes>, s: Bytes)
    requires |ps| == |s| && (forall i | 0 <= i < |s| :: Writes(ps[i], s[i], true))
    requires Begins(src, pos, Chars("b\"") + Glue(ps))
    ensures src[pos] == 98 && Scan(src, pos) == Some((TBytesLit(s), pos + 2 + |Glue(ps)|))
  {
    var q := Chars("b\"");
    assert q == [98, QUOTE];
    BeginsParts(src, pos, q, Glue(ps));
    assert src[pos + 0] == q[0] && src[pos + 1] == q[1];
    GlueReads(src, pos + 2, ps, s, true);
  }

  lemma TextSpelled(src: Bytes, pos: nat, t: Token)
    requires t.TString? && Standing(src, pos, Spell(t))
    ensures Scanned(src, pos, t)
  {
    forall i | 0 <= i < |t.s| { TextWrites(t.s[i]); }
    TextScans(src, pos, TextPieces(t.s), t.s);
  }

  lemma BytesSpelled(src: Bytes, pos: nat, t: Token)
    requires t.TBytesLit? && Standing(src, pos, Spell(t))
    ensures Scanned(src, pos, t)
  {
    BytesSpelling(t);
    BytesFound(src, pos, t.b, Spell(t));
    NoDash(src, pos);
  }

  lemma BytesFound(src: Bytes, pos: nat, s: Bytes, w: Bytes)
    requires Standing(src, pos, w) && w == Chars("b\"") + Glue(BytePieces(s))
    ensures pos < |src| && src[pos] == 98 && Scan(src, pos) == Some((TBytesLit(s), pos + |w|))
  {
    BytesWritten(s);
    BytesStand(src, pos, s, BytePieces(s), w);
  }

  lemma BytesSpelling(t: Token)
    requires t.TBytesLit?
    ensures Spell(t) == Chars("b\"") + Glue(BytePieces(t.b))
  {
  }

  lemma BytesStand(src: Bytes, pos: nat, s: Bytes, ps: seq<Bytes>, w: Bytes)
    requires Standing(src, pos, w) && w == Chars("b\"") + Glue(ps)
    requires |ps| == |s| && (forall i | 0 <= i < |s| :: Writes(ps[i], s[i], true))
    ensures pos < |src| && src[pos] == 98 && Scan(src, pos) == Some((TBytesLit(s), pos + |w|))
  {
    BytesScan(src, pos, ps, s);
  }

  lemma NoDash(src: Bytes, pos: nat)
    requires pos < |src| && src[pos] == 98
    ensures src[pos] !in {SPACE, TAB, NEWLINE} && !IsComment(src, pos)
  {
  }

  lemma BytesWritten(b: Bytes)
    ensures forall i | 0 <= i < |b| :: Writes(BytePieces(b)[i], b[i], true)
  {
    forall i | 0 <= i < |b|
      ensures Writes(BytePieces(b)[i], b[i], true)
    {
      HexWrites(b[i]);
    }
  }

  /** Every spelled token is scanned as itself, up to its last byte. */
  lemma SpelledScans(src: Bytes, pos: nat, t: Token)
    requires Spellable(t) && Standing(src, pos, Spell(t))
    ensures Scanned(src, pos, t) && Spell(t) != []
  {
    match t
    case TIdent(_) => NameScans(src, pos, t);
    case TNumberLit(_) => NumberScans(src, pos, t);
    case TString(_) => TextSpelled(src, pos, t);
    case TBytesLit(_) => BytesSpelled(src, pos, t);
    case TAttribute(_) => AttributeScans(src, pos, t);
    case _ => MarkScans(src, pos, t);
  }

  // ----- a line of tokens -----

  lemma OpenedNesting(ts: seq<Token>, n: nat)
    requires n < |ts|
    ensures Opened(ts, n + 1) == Opened(ts, n) + Nesting(ts[n])
  {
  }

  /** The state after the first n tokens of a line, with what came before it. */
  ghost predicate Inside(base: seq<Token>, widths: seq<nat>, ts: seq<Token>, n: nat, s: State) {
    && n <= |ts| && s.indents == widths && |widths| > 0 && s.tokens == base + ts[..n]
    && !s.atLineStart && s.parens == Opened(ts, n)
  }

  /** What may follow a line. */
  predicate Cut(tail: Bytes) { tail != [] ==> tail[0] in {SPACE, NEWLINE} }

  lemma SpreadSplits(ws: seq<Bytes>, src: Bytes, pos: nat, tail: Bytes)
    requires ws != [] && pos <= |src| && src[pos..] == Spread(ws) + tail && Cut(tail)
    ensures Standing(src, pos, ws[0])
    ensures var end := pos + |ws[0]|;
      if |ws| == 1 then src[end..] == tail
      else end < |src| && src[end] == SPACE && src[end + 1..] == Spread(ws[1..]) + tail
  {
    var w := ws[0];
    if |ws| == 1 {
      CutAt(src, pos, w, tail);
    } else {
      SpreadCons(ws, tail);
      WordThenSpace(src, pos, w, Spread(ws[1..]) + tail);
    }
  }

  lemma SpreadCons(ws: seq<Bytes>, tail: Bytes)
    requires |ws| > 1
    ensures Spread(ws) + tail == ws[0] + ([SPACE] + (Spread(ws[1..]) + tail))
  {
    var rest := Spread(ws[1..]);
    assert Chars(" ") == [SPACE];
    assert Spread(ws) == ws[0] + ([SPACE] + rest);
    Regroup(ws[0], [SPACE], rest, tail);
  }

  lemma Regroup(a: Bytes, b: Bytes, c: Bytes, d: Bytes)
    ensures (a + (b + c)) + d == a + (b + (c + d))
  {
  }

  lemma WordThenSpace(src: Bytes, pos: nat, w: Bytes, rest: Bytes)
    requires pos <= |src| && src[pos..] == w + ([SPACE] + rest)
    ensures Standing(src, pos, w) && pos + |w| < |src| && src[pos + |w|] == SPACE && src[pos + |w| + 1..] == rest
  {
    CutAt(src, pos, w, [SPACE] + rest);
    CutAt(src, pos + |w|, [SPACE], rest);
  }

  lemma CutAt(src: Bytes, pos: nat, w: Bytes, tail: Bytes)
    requires pos <= |src| && src[pos..] == w + tail
    ensures pos + |w| <= |src| && src[pos..pos + |w|] == w && src[pos + |w|..] == tail
    ensures forall i | 0 <= i < |w| :: src[pos + i] == w[i]
    ensures |src| == pos + |w| + |tail| && (tail != [] ==> src[pos + |w|] == tail[0])
  {
    var rest := src[pos..];
    assert src[pos..pos + |w|] == rest[..|w|] && src[pos + |w|..] == rest[|w|..];
    assert rest[..|w|] == w && rest[|w|..] == tail;
    forall i | 0 <= i < |w|
      ensures src[pos + i] == w[i]
    {
      assert rest[i] == src[pos + i];
    }
    if tail != [] {
      assert rest[|w|] == src[pos + |w|];
    }
  }

  lemma StepToken(src: Bytes, s: State, t: Token)
    requires Scanned(src, s.pos, t) && |s.indents| > 0 && s.parens + Nesting(t) >= 0
    ensures Step(src, s) ==
      Some(s.(pos := s.pos + |Spell(t)|, tokens := s.tokens + [t], parens := s.parens + Nesting(t)))
  {
  }

  lemma LexStep(src: Bytes, s: State)
    requires s.pos < |src| && |s.indents| > 0 && !s.atLineStart && Step(src, s).Some?
    ensures Lex(src, s) == Lex(src, Step(src, s).value)
  {
  }

  /** The state after one more token. */
  lemma LexToken(src: Bytes, base: seq<Token>, widths: seq<nat>, ts: seq<Token>, n: nat, s: State) returns (s': State)
    requires n < |ts| && Spellable(ts[n]) && Nested(ts) && Inside(base, widths, ts, n, s)
    requires Standing(src, s.pos, Spell(ts[n]))
    ensures s'.pos == s.pos + |Spell(ts[n])| && Inside(base, widths, ts, n + 1, s') && Lex(src, s) == Lex(src, s')
    ensures s.pos < s'.pos <= |src|
  {
    var t := ts[n];
    SpelledScans(src, s.pos, t);
    OpenedNesting(ts, n);
    assert Opened(ts, n + 1) >= 0;
    StepToken(src, s, t);
    s' := Step(src, s).value;
    LexStep(src, s);
    assert base + ts[..n + 1] == base + ts[..n] + [t];
  }

  lemma LexSpace(src: Bytes, s: State)
    requires s.pos < |src| && src[s.pos] == SPACE && |s.indents| > 0 && !s.atLineStart
    ensures Lex(src, s) == Lex(src, s.(pos := s.pos + 1))
  {
    StepSpace(src, s);
    LexStep(src, s);
  }

  lemma StepSpace(src: Bytes, s: State)
    requires s.pos < |src| && src[s.pos] == SPACE && |s.indents| > 0
    ensures Step(src, s) == Some(s.(pos := s.pos + 1))
  {
  }

  /** The spellings of the tokens from the n-th on. */
  ghost predicate Words(ws: seq<Bytes>, ts: seq<Token>, n: nat) {
    n + |ws| == |ts| && forall i | n <= i < |ts| :: ws[i - n] == Spell(ts[i])
  }

  lemma WordsTail(ws: seq<Bytes>, ts: seq<Token>, n: nat)
    requires Words(ws, ts, n) && ws != []
    ensures ws[0] == Spell(ts[n]) && Words(ws[1..], ts, n + 1)
  {
    assert ws[n - n] == Spell(ts[n]);
  }

  /** One word, and the space after it if it is not the last. */
  lemma LexWord(src: Bytes, base: seq<Token>, widths: seq<nat>, ts: seq<Token>, ws: seq<Bytes>, n: nat, s: State,
      tail: Bytes) returns (s': State)
    requires n < |ts| && Spellable(ts[n]) && Nested(ts) && Inside(base, widths, ts, n, s) && Cut(tail)
    requires ws != [] && ws[0] == Spell(ts[n]) && s.pos <= |src| && src[s.pos..] == Spread(ws) + tail
    ensures s'.pos <= |src| && Inside(base, widths, ts, n + 1, s') && Lex(src, s) == Lex(src, s')
    ensures src[s'.pos..] == if |ws| == 1 then tail else Spread(ws[1..]) + tail
  {
    SpreadSplits(ws, src, s.pos, tail);
    s' := LexToken(src, base, widths, ts, n, s);
    if |ws| > 1 {
      LexSpace(src, s');
      s' := s'.(pos := s'.pos + 1);
    }
  }

  /** The rest of a line of tokens, up to what follows it. */
  lemma {:induction false} LexLine(src: Bytes, base: seq<Token>, widths: seq<nat>, ts: seq<Token>, ws: seq<Bytes>,
      n: nat, s: State, tail: Bytes) returns (s': State)
    requires (forall i | 0 <= i < |ts| :: Spellable(ts[i])) && Nested(ts) && Inside(base, widths, ts, n, s) && n < |ts|
    requires Words(ws, ts, n) && s.pos <= |src| && src[s.pos..] == Spread(ws) + tail && Cut(tail)
    ensures s'.pos <= |src| && Inside(base, widths, ts, |ts|, s') && src[s'.pos..] == tail
    ensures Lex(src, s) == Lex(src, s')
    decreases |ts| - n
  {
    WordsTail(ws, ts, n);
    s' := LexWord(src, base, widths, ts, ws, n, s, tail);
    if n + 1 < |ts| {
      s' := LexLine(src, base, widths, ts, ws[1..], n + 1, s', tail);
    }
  }

  lemma LexEnd(src: Bytes, ts: seq<Token>, s: State)
    requires ts != [] && Spellable(ts[|ts| - 1]) && s.pos == |src| && s.indents == [0] && s.tokens == ts
    ensures Lex(src, s) == Some(ts + [Newline, Eof])
  {
    assert Dedented(ts + [Newline], 0) + [Eof] == ts + [Newline, Eof];
  }

  /** Tokens with well-nested brackets, spelled with spaces between them, are
      lexed as those tokens, a NEWLINE and the EOF. */
  lemma SpellTrip(ts: seq<Token>)
    requires (forall i | 0 <= i < |ts| :: Spellable(ts[i])) && Nested(ts)
    ensures Lex(Spaced(ts), Begin) == Some(if ts == [] then [Eof] else ts + [Newline, Eof])
  {
    var src := Spaced(ts);
    if ts == [] {
      assert Finish(Begin) == [Eof];
    } else {
      var ws := Spellings(ts);
      assert src[0..] == src == Spread(ws) + [] && [] + ts[..0] == [];
      SpreadSplits(ws, src, 0, []);
      assert Spellable(ts[0]);
      SpelledScans(src, 0, ts[0]);
      FirstLine(src);
      var s := LexLine(src, [], [0], ts, ws, 0, Begin.(atLineStart := false), []);
      assert [] + ts[..|ts|] == ts;
      LexEnd(src, ts, s);
    }
  }

  lemma FirstLine(src: Bytes)
    requires |src| > 0 && src[0] !in {SPACE, TAB, NEWLINE} && !IsComment(src, 0)
    ensures Lex(src, Begin) == Lex(src, Begin.(atLineStart := false))
  {
    assert Spaces(src, 0) == 0;
    assert Close([0], 0) == [0] && Dedented([], 0) == [];
    assert Begin.indents[0] == 0;
    assert Settle(Begin.indents, Begin.tokens, 0) == Some(([0], []));
    assert LineStart(src, Begin) == Some(Begin.(atLineStart := false));
  }
}
