/** Blocks written with indentation and comments, and that the lexer gives them
    back: one INDENT and one DEDENT around each block, a NEWLINE after each line. */
module LexerLayout {
  import opened Ast
  import opened TextOps
  import opened Escaping
  import opened Tokens
  import opened Lexer
  import opened LexerSpelling

  /** A line of tokens, a comment, and the block it opens. */
  datatype Entry = Entry(tokens: seq<Token>, note: Option<Bytes>, body: seq<Entry>)

  // ----- writing -----

  function Margin(depth: nat): Bytes { if depth == 0 then [] else Chars("  ") + Margin(depth - 1) }

  function Note(note: Option<Bytes>): Bytes {
    match note case None => [] case Some(b) => Chars(" --") + b
  }

  function Row(e: Entry): Bytes { Spaced(e.tokens) + (Note(e.note) + Chars("\n")) }

  /** A block whose lines are written by `row`. */
  function Written(row: Entry -> Bytes, es: seq<Entry>, depth: nat): Bytes {
    if es == [] then []
    else Margin(depth) + (row(es[0]) + (Written(row, es[0].body, depth + 1) + Written(row, es[1..], depth)))
  }

  function Text(es: seq<Entry>): Bytes { Written(e => Row(e), es, 0) }

  /** The tokens of a block. */
  function Flat(es: seq<Entry>): seq<Token>
    decreases es, 0
  {
    if es == [] then []
    else
      es[0].tokens + [Newline] + Inner(es[0].body) + Flat(es[1..])
  }

  /** The tokens of the block a line opens. */
  function Inner(body: seq<Entry>): seq<Token>
    decreases body, 1
  {
    if body == [] then [] else [Indent] + Flat(body) + [Dedent]
  }

  /** A nonempty line of spelled tokens that closes every bracket it opens. */
  ghost predicate GoodRow(e: Entry) {
    && e.tokens != [] && (forall i | 0 <= i < |e.tokens| :: Spellable(e.tokens[i]))
    && Nested(e.tokens) && Opened(e.tokens, |e.tokens|) == 0
    && (e.note.Some? ==> forall i | 0 <= i < |e.note.value| :: e.note.value[i] as char != '\n')
  }

  ghost predicate WritesRows(row: Entry -> Bytes) { forall e {:trigger Row(e)} :: row(e) == Row(e) }

  /** Every line of a block is good, at every depth. */
  predicate Good(good: Entry -> bool, es: seq<Entry>) {
    forall i | 0 <= i < |es| :: good(es[i]) && Good(good, es[i].body)
  }

  ghost predicate PassesRows(good: Entry -> bool) { forall e {:trigger GoodRow(e)} :: good(e) ==> GoodRow(e) }

  // ----- margins -----

  lemma {:induction false} MarginSpaces(src: Bytes, pos: nat, depth: nat, rest: Bytes)
    requires pos <= |src| && src[pos..] == Margin(depth) + rest && (rest != [] ==> rest[0] != SPACE)
    ensures Spaces(src, pos) == 2 * depth && pos + 2 * depth <= |src| && src[pos + 2 * depth..] == rest
    decreases depth
  {
    if depth == 0 {
      assert [] + rest == rest;
    } else {
      var two := Chars("  ");
      assert two == [SPACE, SPACE];
      assert Margin(depth) + rest == two + (Margin(depth - 1) + rest);
      CutAt(src, pos, two, Margin(depth - 1) + rest);
      assert src[pos + 0] == two[0] && src[pos + 1] == two[1];
      MarginSpaces(src, pos + 2, depth - 1, rest);
      assert Spaces(src, pos + 1) == 1 + Spaces(src, pos + 2);
    }
  }

  lemma {:induction false} MarginLength(d: nat)
    ensures |Margin(d)| == 2 * d
  {
    if d > 0 {
      MarginLength(d - 1);
    }
  }

  function Widths(n: nat): (ws: seq<nat>)
    ensures |ws| == n + 1
  {
    seq(n + 1, i requires 0 <= i < n + 1 => 2 * i)
  }

  lemma {:induction false} CloseWidths(n: nat, d: nat)
    requires d <= n
    ensures Close(Widths(n), 2 * d) == Widths(d)
    decreases n
  {
    if d < n {
      assert Widths(n)[..n] == Widths(n - 1);
      CloseWidths(n - 1, d);
    }
  }

  /** The tokens once a line at depth `d` has begun under a stack of depth `n`. */
  function Begun(ts: seq<Token>, n: nat, d: nat): seq<Token>
    requires d <= n + 1
  {
    if d == n + 1 then ts + [Indent] else Dedented(ts, n - d)
  }

  lemma SettleWidths(n: nat, ts: seq<Token>, d: nat)
    requires d <= n + 1
    ensures Settle(Widths(n), ts, 2 * d) == Some((Widths(d), Begun(ts, n, d)))
  {
    if d == n + 1 {
      assert Widths(n) + [2 * d] == Widths(d);
    } else {
      CloseWidths(n, d);
      assert Widths(n)[d] == 2 * d;
    }
  }

  // ----- one line -----

  /** At the start of a line, under `n` open blocks. */
  predicate Starts(s: State, n: nat) { s.indents == Widths(n) && s.atLineStart && s.parens == 0 }

  lemma LineBegins(src: Bytes, s: State, n: nat, d: nat, rest: Bytes) returns (s': State)
    requires Starts(s, n) && d <= n + 1 && s.pos <= |src| && src[s.pos..] == Margin(d) + rest
    requires var at := s.pos + 2 * d; at < |src| && src[at] !in {SPACE, TAB, NEWLINE} && !IsComment(src, at)
    ensures s'.pos <= |src| && src[s'.pos..] == rest && Inside(Begun(s.tokens, n, d), Widths(d), [], 0, s')
    ensures Lex(src, s) == Lex(src, s')
  {
    var at := s.pos + 2 * d;
    MarginLength(d);
    CutAt(src, s.pos, Margin(d), rest);
    assert rest[0] == src[at];
    MarginSpaces(src, s.pos, d, rest);
    SettleWidths(n, s.tokens, d);
    s' := s.(pos := at, indents := Widths(d), tokens := Begun(s.tokens, n, d), atLineStart := false);
    assert LineStart(src, s) == Some(s');
    assert s'.tokens == Begun(s.tokens, n, d) + [][..0];
  }

  lemma {:induction false} LineEndAt(src: Bytes, pos: nat, b: Bytes, rest: Bytes)
    requires pos <= |src| && src[pos..] == b + ([NEWLINE] + rest) && forall i | 0 <= i < |b| :: b[i] != NEWLINE
    ensures LineEnd(src, pos) == pos + |b| < |src|
    decreases |b|
  {
    if b == [] {
      assert [] + ([NEWLINE] + rest) == [NEWLINE] + rest;
      assert src[pos] == src[pos..][0];
    } else {
      assert b + ([NEWLINE] + rest) == [b[0]] + (b[1..] + ([NEWLINE] + rest));
      CutAt(src, pos, [b[0]], b[1..] + ([NEWLINE] + rest));
      assert src[pos + 0] == [b[0]][0];
      LineEndAt(src, pos + 1, b[1..], rest);
    }
  }

  lemma LexFeed(src: Bytes, s: State) returns (s': State)
    requires s.pos < |src| && src[s.pos] == NEWLINE && |s.indents| > 0 && !s.atLineStart && s.parens == 0
    ensures s' == s.(pos := s.pos + 1, tokens := Ended(s.tokens), atLineStart := true)
    ensures Lex(src, s) == Lex(src, s')
  {
    s' := s.(pos := s.pos + 1, tokens := Ended(s.tokens), atLineStart := true);
    assert Step(src, s) == Some(s');
    LexStep(src, s);
  }

  /** A comment is passed over, up to the end of its line. */
  lemma LexNote(src: Bytes, s: State, note: Option<Bytes>, rest: Bytes) returns (s': State)
    requires |s.indents| > 0 && !s.atLineStart && s.pos <= |src| && src[s.pos..] == Note(note) + ([NEWLINE] + rest)
    requires note.Some? ==> forall i | 0 <= i < |note.value| :: note.value[i] != NEWLINE
    ensures s'.pos <= |src| && src[s'.pos..] == [NEWLINE] + rest && s' == s.(pos := s'.pos)
    ensures Lex(src, s) == Lex(src, s')
  {
    s' := s;
    if note.None? {
      assert [] + ([NEWLINE] + rest) == [NEWLINE] + rest;
    } else {
      NoteStands(src, s.pos, note.value, rest);
      LexSpace(src, s);
      LineEndAt(src, s.pos + 3, note.value, rest);
      s' := PassComment(src, s.(pos := s.pos + 1));
      CutAt(src, s.pos + 3, note.value, [NEWLINE] + rest);
    }
  }

  lemma NoteStands(src: Bytes, pos: nat, b: Bytes, rest: Bytes)
    requires pos <= |src| && src[pos..] == Note(Some(b)) + ([NEWLINE] + rest)
    ensures pos + 3 <= |src| && src[pos] == SPACE && src[pos + 1] == DASH && src[pos + 2] == DASH
    ensures src[pos + 3..] == b + ([NEWLINE] + rest)
  {
    var lead := Chars(" --");
    assert lead == [SPACE, DASH, DASH];
    assert Note(Some(b)) + ([NEWLINE] + rest) == lead + (b + ([NEWLINE] + rest));
    CutAt(src, pos, lead, b + ([NEWLINE] + rest));
    assert src[pos + 0] == lead[0] && src[pos + 1] == lead[1] && src[pos + 2] == lead[2];
  }

  lemma PassComment(src: Bytes, s: State) returns (s': State)
    requires s.pos + 2 <= |src| && src[s.pos] == DASH && src[s.pos + 1] == DASH && |s.indents| > 0 && !s.atLineStart
    ensures s' == s.(pos := LineEnd(src, s.pos + 2)) && Lex(src, s) == Lex(src, s')
  {
    s' := s.(pos := LineEnd(src, s.pos + 2));
    assert LineEnd(src, s.pos) == LineEnd(src, s.pos + 1) == LineEnd(src, s.pos + 2);
    assert Step(src, s) == Some(s');
    LexStep(src, s);
  }

  /** The line itself, from its first token to the start of the next line. */
  lemma LexRow(src: Bytes, s: State, n: nat, d: nat, e: Entry, rest: Bytes) returns (s': State)
    requires Starts(s, n) && d <= n + 1 && GoodRow(e) && s.pos <= |src| && src[s.pos..] == Margin(d) + (Row(e) + rest)
    ensures s'.pos <= |src| && src[s'.pos..] == rest && Starts(s', d)
    ensures s'.tokens == Begun(s.tokens, n, d) + e.tokens + [Newline] && Lex(src, s) == Lex(src, s')
  {
    var ts, tail := e.tokens, Note(e.note) + ([NEWLINE] + rest);
    RowText(e, rest);
    FirstStands(src, s.pos, d, ts, tail);
    var t := LineBegins(src, s, n, d, Spaced(ts) + tail);
    t := LexTokens(src, Begun(s.tokens, n, d), d, ts, t, tail);
    s' := RowEnds(src, Begun(s.tokens, n, d), d, e, t, rest);
  }

  lemma LexTokens(src: Bytes, base: seq<Token>, d: nat, ts: seq<Token>, s: State, tail: Bytes) returns (s': State)
    requires ts != [] && (forall i | 0 <= i < |ts| :: Spellable(ts[i])) && Nested(ts) && Opened(ts, |ts|) == 0
    requires Cut(tail)
    requires Inside(base, Widths(d), [], 0, s) && s.pos <= |src| && src[s.pos..] == Spaced(ts) + tail
    ensures s'.indents == Widths(d) && !s'.atLineStart && s'.parens == 0 && s'.tokens == base + ts
    ensures s'.pos <= |src| && src[s'.pos..] == tail && Lex(src, s) == Lex(src, s')
  {
    assert Inside(base, Widths(d), ts, 0, s) by {
      assert base + [][..0] == base + ts[..0];
    }
    s' := LexLine(src, base, Widths(d), ts, Spellings(ts), 0, s, tail);
    assert base + ts[..|ts|] == base + ts;
  }

  lemma RowEnds(src: Bytes, base: seq<Token>, d: nat, e: Entry, s: State, rest: Bytes) returns (s': State)
    requires GoodRow(e) && s.indents == Widths(d) && !s.atLineStart && s.parens == 0 && s.tokens == base + e.tokens
    requires s.pos <= |src| && src[s.pos..] == Note(e.note) + ([NEWLINE] + rest)
    ensures s'.pos <= |src| && src[s'.pos..] == rest && Starts(s', d)
    ensures s'.tokens == base + e.tokens + [Newline] && Lex(src, s) == Lex(src, s')
  {
    var t := LexNote(src, s, e.note, rest);
    assert src[t.pos] == src[t.pos..][0];
    EndedRow(base, e.tokens);
    s' := LexFeed(src, t);
    CutAt(src, t.pos, [NEWLINE], rest);
  }

  lemma RowText(e: Entry, rest: Bytes)
    ensures Row(e) + rest == Spaced(e.tokens) + (Note(e.note) + ([NEWLINE] + rest))
    ensures Cut(Note(e.note) + ([NEWLINE] + rest))
  {
    assert Chars("\n") == [NEWLINE];
    Regroup(Spaced(e.tokens), Note(e.note), [NEWLINE], rest);
    if e.note.Some? {
      assert Chars(" --")[0] == SPACE;
    }
  }

  lemma EndedRow(base: seq<Token>, ts: seq<Token>)
    requires ts != [] && Spellable(ts[|ts| - 1])
    ensures Ended(base + ts) == base + ts + [Newline]
  {
  }

  /** The first token of a line stands after the margin. */
  lemma FirstStands(src: Bytes, pos: nat, d: nat, ts: seq<Token>, tail: Bytes)
    requires pos <= |src| && src[pos..] == Margin(d) + (Spaced(ts) + tail) && ts != [] && Spellable(ts[0]) && Cut(tail)
    ensures var at := pos + 2 * d; at < |src| && src[at] !in {SPACE, TAB, NEWLINE} && !IsComment(src, at)
  {
    MarginLength(d);
    CutAt(src, pos, Margin(d), Spaced(ts) + tail);
    SpreadSplits(Spellings(ts), src, pos + 2 * d, tail);
    SpelledScans(src, pos + 2 * d, ts[0]);
  }

  // ----- blocks -----

  /** Nothing yet, or a line just ended. */
  predicate LineEnded(ts: seq<Token>) { ts != [] ==> ts[|ts| - 1] == Newline }

  lemma LexRowOf(row: Entry -> Bytes, good: Entry -> bool, src: Bytes, s: State, n: nat, d: nat, e: Entry,
      rest: Bytes) returns (s': State)
    requires WritesRows(row) && PassesRows(good) && good(e) && Starts(s, n) && d <= n + 1
    requires s.pos <= |src| && src[s.pos..] == Margin(d) + (row(e) + rest)
    ensures s'.pos <= |src| && src[s'.pos..] == rest && Starts(s', d) && LineEnded(s'.tokens)
    ensures s'.tokens == Begun(s.tokens, n, d) + e.tokens + [Newline] && Lex(src, s) == Lex(src, s')
  {
    assert row(e) == Row(e) && (good(e) ==> GoodRow(e));
    s' := LexRow(src, s, n, d, e, rest);
  }

  /** After a block the deeper blocks are still open; closing them down to its own
      depth gives the tokens of the block. */
  lemma {:induction false} LexBlock(row: Entry -> Bytes, good: Entry -> bool, src: Bytes, s: State, n: nat,
      d: nat, es: seq<Entry>, rest: Bytes) returns (s': State, m: nat)
    requires WritesRows(row) && PassesRows(good) && Good(good, es)
    requires Starts(s, n) && LineEnded(s.tokens) && d <= n + 1 && (es == [] ==> d <= n)
    requires s.pos <= |src| && src[s.pos..] == Written(row, es, d) + rest
    ensures s'.pos <= |src| && src[s'.pos..] == rest && d <= m && Starts(s', m) && Lex(src, s) == Lex(src, s')
    ensures LineEnded(s'.tokens)
    ensures Dedented(s'.tokens, m - d) == Begun(s.tokens, n, d) + Flat(es)
    decreases es, 0
  {
    s', m := s, n;
    if es == [] {
      assert [] + rest == rest;
    } else {
      var e, body, more := es[0], Written(row, es[0].body, d + 1), Written(row, es[1..], d);
      WrittenSplits(row, es, d, rest);
      assert good(es[0]) && Good(good, es[0].body);
      s' := LexRowOf(row, good, src, s, n, d, e, body + (more + rest));
      s', m := LexBody(row, good, src, s', d, e.body, more + rest);
      assert Good(good, es[1..]);
      s', m := LexBlock(row, good, src, s', m, d, es[1..], rest);
      FlatSplits(es, Begun(s.tokens, n, d));
    }
  }

  lemma WrittenSplits(row: Entry -> Bytes, es: seq<Entry>, d: nat, rest: Bytes)
    requires es != []
    ensures Written(row, es, d) + rest ==
      Margin(d) + (row(es[0]) + (Written(row, es[0].body, d + 1) + (Written(row, es[1..], d) + rest)))
  {
    var a, b, c, e := Margin(d), row(es[0]), Written(row, es[0].body, d + 1), Written(row, es[1..], d);
    assert Written(row, es, d) == a + (b + (c + e));
    Regroup(a, b, c + e, rest);
    assert (c + e) + rest == c + (e + rest);
  }

  lemma FlatSplits(es: seq<Entry>, base: seq<Token>)
    requires es != []
    ensures base + Flat(es) == (base + es[0].tokens + [Newline] + Inner(es[0].body)) + Flat(es[1..])
  {
    RegroupTokens(base, es[0].tokens, Inner(es[0].body), Flat(es[1..]));
  }

  lemma RegroupTokens(base: seq<Token>, a: seq<Token>, b: seq<Token>, c: seq<Token>)
    ensures base + (a + [Newline] + b + c) == (base + a + [Newline] + b) + c
  {
  }

  /** The block a line opens, if it opens one. */
  lemma {:induction false} LexBody(row: Entry -> Bytes, good: Entry -> bool, src: Bytes, s: State, d: nat,
      body: seq<Entry>, rest: Bytes) returns (s': State, m: nat)
    requires WritesRows(row) && PassesRows(good) && Good(good, body) && Starts(s, d) && LineEnded(s.tokens)
    requires s.pos <= |src| && src[s.pos..] == Written(row, body, d + 1) + rest
    ensures s'.pos <= |src| && src[s'.pos..] == rest && d <= m && Starts(s', m) && Lex(src, s) == Lex(src, s')
    ensures LineEnded(s'.tokens) && Dedented(s'.tokens, m - d) == s.tokens + Inner(body)
    decreases body, 1
  {
    if body == [] {
      s', m := s, d;
      NoBody(s.tokens, rest);
    } else {
      s', m := LexBlock(row, good, src, s, d, d + 1, body, rest);
      OneDedent(s'.tokens, m - d, s.tokens, Flat(body));
    }
  }

  lemma NoBody(ts: seq<Token>, rest: Bytes)
    ensures [] + rest == rest && Dedented(ts, 0) == ts + Inner([])
  {
  }

  lemma OneDedent(ts: seq<Token>, n: nat, base: seq<Token>, block: seq<Token>)
    requires n > 0 && Dedented(ts, n - 1) == base + [Indent] + block
    ensures Dedented(ts, n) == base + ([Indent] + block + [Dedent])
  {
  }

  /** Blocks of any depth, written with two spaces of margin for each level and
      with comments, are lexed as their tokens, NEWLINEs, INDENTs and DEDENTs. */
  lemma LayoutTrip(es: seq<Entry>)
    requires Good(e => GoodRow(e), es)
    ensures Lex(Text(es), Begin) == Some(Flat(es) + [Eof])
  {
    var row, good := (e: Entry) => Row(e), (e: Entry) => GoodRow(e);
    WholeText(Text(es));
    LexToEnd(row, good, Text(es), Begin, 0, 0, es);
    assert Dedented(Begun([], 0, 0) + Flat(es), 0) == Flat(es) by {
      assert Begun([], 0, 0) == [] && [] + Flat(es) == Flat(es);
    }
  }

  /** A block up to the end of the source, at any depth. */
  lemma LexToEnd(row: Entry -> Bytes, good: Entry -> bool, src: Bytes, s: State, n: nat, d: nat, es: seq<Entry>)
    requires WritesRows(row) && PassesRows(good) && Good(good, es)
    requires Starts(s, n) && LineEnded(s.tokens) && d <= n + 1 && (es == [] ==> d <= n)
    requires s.pos <= |src| && src[s.pos..] == Written(row, es, d) + []
    ensures Lex(src, s) == Some(Dedented(Begun(s.tokens, n, d) + Flat(es), d) + [Eof])
  {
    var t, m := LexBlock(row, good, src, s, n, d, es, []);
    AtEnd(src, s, t, m, d, Begun(s.tokens, n, d) + Flat(es));
  }

  lemma AtEnd(src: Bytes, s: State, t: State, m: nat, d: nat, ts: seq<Token>)
    requires s.pos <= |src| && |s.indents| > 0 && t.pos <= |src| && src[t.pos..] == [] && d <= m && Starts(t, m)
    requires Lex(src, s) == Lex(src, t) && LineEnded(t.tokens) && Dedented(t.tokens, m - d) == ts
    ensures Lex(src, s) == Some(Dedented(ts, d) + [Eof])
  {
    DedentedTwice(t.tokens, m - d, d);
    LayoutEnds(src, t, m, Dedented(t.tokens, m));
  }

  lemma {:induction false} DedentedTwice(ts: seq<Token>, n: nat, d: nat)
    ensures Dedented(Dedented(ts, n), d) == Dedented(ts, n + d)
    decreases d
  {
    if d > 0 {
      DedentedTwice(ts, n, d - 1);
    }
  }

  lemma WholeText(src: Bytes)
    ensures Starts(Begin, 0) && src[Begin.pos..] == src + []
  {
    assert Widths(0) == [0];
  }

  lemma LayoutEnds(src: Bytes, s: State, m: nat, ts: seq<Token>)
    requires s.pos <= |src| && src[s.pos..] == [] && Starts(s, m) && LineEnded(s.tokens)
    requires Dedented(s.tokens, m) == ts
    ensures Lex(src, s) == Some(ts + [Eof])
  {
  }
}
