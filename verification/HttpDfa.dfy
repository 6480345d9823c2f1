/** The request-framing automaton: its transition function, and the in-place
    construction of its table. Entries are 16-bit words, a row number with action
    flags above it; row 0 rejects. */
module HttpDfa {
  import opened Ast

  const DONE := 1
  const START := 2
  const HEADERS := 3
  const END_LF := 4
  const NAME := 5
  const VALUE := 6
  const VALUE_LF := 7
  const LEADING := 8
  const DIGITS := 9
  const TRAILING := 10
  const TARGET_START := 48
  const TARGET := 49
  const VERSION := 50
  const VERSION_CR := 58
  const VERSION_LF := 59
  const METHOD := 59
  const ROWS := 68

  const DIGIT_FLAG := 0x8000
  const LENGTH_FLAG := 0x4000
  const TARGET_FLAG := 0x2000
  const STATE_SIZE := 0x2000

  predicate Alnum(b: int) { 48 <= b <= 57 || 65 <= b <= 90 || 97 <= b <= 122 }

  /** RFC 9110 section 5.6.2. */
  predicate Token(b: int) {
    Alnum(b) || b in {33, 35, 36, 37, 38, 39, 42, 43, 45, 46, 94, 95, 96, 124, 126}
  }

  predicate FieldChar(b: int) { b == 9 || (b >= 32 && b != 127) }

  predicate Blank(b: int) { b == 32 || b == 9 }

  predicate Digit(b: int) { 48 <= b <= 57 }

  predicate TargetChar(b: int) { 33 <= b <= 126 && b != 35 }

  function Upper(b: int): int { if 97 <= b <= 122 then b - 32 else b }

  function Lower(b: int): int { if 65 <= b <= 90 then b + 32 else b }

  /** A recognised header name, the row before its first own row, and where its
      colon leads. */
  datatype Header = Header(name: seq<int>, base: nat, colon: int)

  // "content-length", "transfer-encoding", "expect"
  const CONTENT_LENGTH: seq<int> := [99, 111, 110, 116, 101, 110, 116, 45, 108, 101, 110, 103, 116, 104]
  const TRANSFER_ENCODING: seq<int> := [116, 114, 97, 110, 115, 102, 101, 114, 45, 101, 110, 99, 111, 100, 105, 110,
    103]
  const EXPECT: seq<int> := [101, 120, 112, 101, 99, 116]
  // "HTTP/1."
  const HTTP1: seq<int> := [72, 84, 84, 80, 47, 49, 46]

  function Known(i: nat): Header
    requires i < 3
  {
    if i == 0 then Header(CONTENT_LENGTH, 10, LEADING + LENGTH_FLAG)
    else if i == 1 then Header(TRANSFER_ENCODING, 24, 0)
    else Header(EXPECT, 41, 0)
  }

  /** The generic header-name row. */
  function NameRow(b: Byte): int { if Token(b) then NAME else if b == 58 then VALUE else 0 }

  /** Row `h.base + k`, reached after the first k letters of a known name. */
  function TrieRow(h: Header, k: nat, b: Byte): int {
    if k < |h.name| && Lower(b) == h.name[k] then h.base + k + 1
    else if k == |h.name| && b == 58 then h.colon
    else NameRow(b)
  }

  function HeadersRow(b: Byte): int {
    if b == 13 then END_LF
    else if Lower(b) == 99 then 11
    else if Lower(b) == 116 then 25
    else if Lower(b) == 101 then 42
    else if Token(b) then NAME
    else 0
  }

  function VersionRow(k: nat, b: Byte): int
    requires k <= 7
  {
    if k < 7 then (if b == HTTP1[k] then VERSION + k + 1 else 0)
    else if b == 48 || b == 49 then VERSION_CR
    else 0
  }

  function MethodRow(k: nat, b: Byte): int {
    if k < 8 && Token(b) then METHOD + k + 1 else if k > 0 && b == 32 then TARGET_START else 0
  }

  /** The transition function of the finished table. */
  function Delta(s: nat, b: Byte): int {
    if s == START then MethodRow(0, b)
    else if s == HEADERS then HeadersRow(b)
    else if s == END_LF then (if b == 10 then DONE else 0)
    else if s == NAME then NameRow(b)
    else if s == VALUE then (if b == 13 then VALUE_LF else if FieldChar(b) then VALUE else 0)
    else if s == VALUE_LF then (if b == 10 then HEADERS else 0)
    else if s == LEADING then (if Blank(b) then LEADING else if Digit(b) then DIGITS + DIGIT_FLAG else 0)
    else if s == DIGITS then
      (if Digit(b) then DIGITS + DIGIT_FLAG else if Blank(b) then TRAILING else if b == 13 then VALUE_LF else 0)
    else if s == TRAILING then (if Blank(b) then TRAILING else if b == 13 then VALUE_LF else 0)
    else if 10 < s <= 24 then TrieRow(Known(0), s - 10, b)
    else if 24 < s <= 41 then TrieRow(Known(1), s - 24, b)
    else if 41 < s <= 47 then TrieRow(Known(2), s - 41, b)
    else if s == TARGET_START then (if b == 47 then TARGET + TARGET_FLAG else 0)
    else if s == TARGET then (if TargetChar(b) then TARGET + TARGET_FLAG else if b == 32 then VERSION else 0)
    else if VERSION <= s <= 57 then VersionRow(s - VERSION, b)
    else if s == VERSION_CR then (if b == 13 then VERSION_LF else 0)
    else if s == VERSION_LF then (if b == 10 then HEADERS else 0)
    else if METHOD < s < ROWS then MethodRow(s - METHOD, b)
    else 0
  }

  // ----- construction -----

  type Row = r: seq<int> | |r| == 256 witness seq(256, _ => 0)
  type Table = seq<Row>

  function ZeroRow(): Row { seq(256, _ => 0) }

  function Edge(t: Table, s: nat, b: Byte, next: int): (u: Table)
    requires s < |t|
    ensures |u| == |t|
    ensures forall i: nat, x: Byte {:trigger u[i][x]} | i < |t| :: u[i][x] == if i == s && x == b then next else t[i][x]
  {
    t[s := t[s][b := next]]
  }

  predicate Final(t: Table, s: nat) {
    s < |t| && forall b: Byte :: t[s][b] == Delta(s, b)
  }

  predicate FinalUpTo(t: Table, lo: nat, hi: nat) {
    hi <= |t| && forall s, b: Byte | lo <= s < hi :: t[s][b] == Delta(s, b)
  }

  predicate Unchanged(t: Table, u: Table) {
    |t| <= |u| && forall s, b: Byte | 0 <= s < |t| :: u[s][b] == t[s][b]
  }

  /** Rows 0 to 7; the header row still lacks the known names. */
  method HeaderRows() returns (t: Table)
    ensures |t| == 8
    ensures forall b: Byte :: t[0][b] == t[1][b] == t[2][b] == 0
    ensures forall b: Byte :: t[HEADERS][b] == if Token(b) then NAME else if b == 13 then END_LF else 0
    ensures FinalUpTo(t, 4, 8)
  {
    t := [ZeroRow(), ZeroRow(), ZeroRow()];
    t := t + [ZeroRow()] + [ZeroRow()];
    t := Edge(t, HEADERS, 13, END_LF);
    t := Edge(t, END_LF, 10, DONE);
    t := t + [ZeroRow()] + [ZeroRow()] + [ZeroRow()];
    for b := 0 to 256
      invariant |t| == 8
      invariant forall x: Byte :: t[0][x] == t[1][x] == t[2][x] == t[VALUE_LF][x] == 0
      invariant forall x: Byte :: t[HEADERS][x] == if Token(x) && x < b then NAME else if x == 13 then END_LF else 0
      invariant forall x: Byte :: t[END_LF][x] == if x == 10 then DONE else 0
      invariant forall x: Byte :: t[NAME][x] == if Token(x) && x < b then NAME else 0
      invariant forall x: Byte :: t[VALUE][x] == if FieldChar(x) && x < b then VALUE else 0
    {
      if Token(b) {
        t := Edge(t, HEADERS, b, NAME);
        t := Edge(t, NAME, b, NAME);
      }
      if FieldChar(b) {
        t := Edge(t, VALUE, b, VALUE);
      }
    }
    t := Edge(t, NAME, 58, VALUE);
    t := Edge(t, VALUE, 13, VALUE_LF);
    t := Edge(t, VALUE_LF, 10, HEADERS);
  }

  /** Rows 8 to 10: the Content-Length value. */
  method LengthRows(t0: Table) returns (t: Table)
    requires |t0| == 8
    ensures |t| == 11 && Unchanged(t0, t) && FinalUpTo(t, 8, 11)
  {
    t := t0 + [ZeroRow()] + [ZeroRow()] + [ZeroRow()];
    t := Edge(t, LEADING, 32, LEADING);
    t := Edge(t, LEADING, 9, LEADING);
    t := Edge(t, TRAILING, 32, TRAILING);
    t := Edge(t, TRAILING, 9, TRAILING);
    for b := 48 to 58
      invariant |t| == 11 && Unchanged(t0, t)
      invariant forall x: Byte :: t[LEADING][x] == if Blank(x) then LEADING
        else if 48 <= x < b then DIGITS + DIGIT_FLAG else 0
      invariant forall x: Byte :: t[DIGITS][x] == if 48 <= x < b then DIGITS + DIGIT_FLAG else 0
      invariant forall x: Byte :: t[TRAILING][x] == if Blank(x) then TRAILING else 0
    {
      t := Edge(t, LEADING, b, DIGITS + DIGIT_FLAG);
      t := Edge(t, DIGITS, b, DIGITS + DIGIT_FLAG);
    }
    t := Edge(t, DIGITS, 32, TRAILING);
    t := Edge(t, DIGITS, 9, TRAILING);
    t := Edge(t, DIGITS, 13, VALUE_LF);
    t := Edge(t, TRAILING, 13, VALUE_LF);
  }

  predicate LowerName(name: seq<int>) {
    name != [] && forall i | 0 <= i < |name| :: 97 <= name[i] <= 122 || name[i] == 45
  }

  lemma CaseFold(c: int, x: int)
    requires 97 <= c <= 122 || c == 45
    ensures Lower(x) == c <==> x == c || x == Upper(c)
  {
  }

  /** One known name: a chain of fresh rows, each a copy of the generic name row
      with an edge, in both cases, to the next. */
  method AddName(t0: Table, h: Header) returns (t: Table)
    requires LowerName(h.name) && h.base + 1 == |t0| && |t0| > 10
    requires forall b: Byte :: t0[NAME][b] == NameRow(b)
    requires forall b: Byte | Lower(b) == h.name[0] :: t0[HEADERS][b] == NAME
    ensures |t| == |t0| + |h.name|
    ensures forall s, b: Byte | 0 <= s < |t0| && s != HEADERS :: t[s][b] == t0[s][b]
    ensures forall b: Byte :: t[HEADERS][b] == if Lower(b) == h.name[0] then h.base + 1 else t0[HEADERS][b]
    ensures forall k, b: Byte | 1 <= k <= |h.name| :: t[h.base + k][b] == TrieRow(h, k, b)
  {
    t := t0;
    var s := HEADERS;
    for i := 0 to |h.name|
      invariant |t| == |t0| + i && s == (if i == 0 then HEADERS else h.base + i)
      invariant forall j, x: Byte | 0 <= j < |t0| && j != HEADERS :: t[j][x] == t0[j][x]
      invariant forall x: Byte :: t[HEADERS][x] == if i > 0 && Lower(x) == h.name[0] then h.base + 1 else t0[HEADERS][x]
      invariant forall k, x: Byte | 1 <= k < i :: t[h.base + k][x] == TrieRow(h, k, x)
      invariant i > 0 ==> forall x: Byte :: t[h.base + i][x] == NameRow(x)
    {
      var b: Byte := h.name[i];
      forall x: Byte { CaseFold(b, x); }
      assert Lower(b) == b && Token(b);
      var existing := t[s][b];
      assert i == 0 ==> t0[HEADERS][b] == NAME;
      assert i == 0 ==> t[HEADERS][b] == NAME;
      assert i > 0 ==> t[h.base + i][b] == NameRow(b);
      assert existing == NAME;
      var next := existing;
      if !(existing != NAME && existing != 0) {
        next := |t|;
        t := t + [t[NAME]];
        t := Edge(t, s, b, next);
        t := Edge(t, s, Upper(b), next);
      }
      s := next;
    }
    t := Edge(t, s, 58, h.colon);
  }

  method TrieRows(t0: Table) returns (t: Table)
    requires |t0| == 11 && FinalUpTo(t0, 4, 11)
    requires forall b: Byte :: t0[0][b] == t0[1][b] == t0[2][b] == 0
    requires forall b: Byte :: t0[HEADERS][b] == if Token(b) then NAME else if b == 13 then END_LF else 0
    ensures |t| == 48 && FinalUpTo(t, 3, 48)
    ensures forall b: Byte :: t[0][b] == t[1][b] == t[2][b] == 0
  {
    assert forall b: Byte :: t0[NAME][b] == Delta(NAME, b);
    t := AddName(t0, Known(0));
    t := AddName(t, Known(1));
    t := AddName(t, Known(2));
    forall s, b: Byte | 3 <= s < 48
      ensures t[s][b] == Delta(s, b)
    {
      if 10 < s <= 24 {
        assert t[10 + (s - 10)][b] == TrieRow(Known(0), s - 10, b);
      } else if 24 < s <= 41 {
        assert t[24 + (s - 24)][b] == TrieRow(Known(1), s - 24, b);
      } else if 41 < s {
        assert t[41 + (s - 41)][b] == TrieRow(Known(2), s - 41, b);
      }
    }
  }

  /** Rows 48 to 59: target and version. */
  method TargetRows(t0: Table) returns (t: Table)
    requires |t0| == 48
    ensures |t| == 60 && Unchanged(t0, t) && FinalUpTo(t, 48, 60)
  {
    t := t0 + [ZeroRow()] + [ZeroRow()];
    t := Edge(t, TARGET_START, 47, TARGET + TARGET_FLAG);
    for b := 33 to 127
      invariant |t| == 50 && Unchanged(t0, t)
      invariant forall x: Byte :: t[TARGET_START][x] == if x == 47 then TARGET + TARGET_FLAG else 0
      invariant forall x: Byte :: t[TARGET][x] == if TargetChar(x) && x < b then TARGET + TARGET_FLAG else 0
    {
      if b != 35 {
        t := Edge(t, TARGET, b, TARGET + TARGET_FLAG);
      }
    }
    t := t + [ZeroRow()];
    t := Edge(t, TARGET, 32, VERSION);
    var s := VERSION;
    for i := 0 to 7
      invariant |t| == 51 + i && s == VERSION + i && Unchanged(t0, t) && FinalUpTo(t, 48, VERSION + i)
      invariant forall x: Byte :: t[s][x] == 0
    {
      t := t + [ZeroRow()];
      t := Edge(t, s, HTTP1[i], |t| - 1);
      s := |t| - 1;
    }
    t := t + [ZeroRow()] + [ZeroRow()];
    t := Edge(t, s, 48, VERSION_CR);
    t := Edge(t, s, 49, VERSION_CR);
    t := Edge(t, VERSION_CR, 13, VERSION_LF);
    t := Edge(t, VERSION_LF, 10, HEADERS);
  }

  /** Row 2 and rows 60 to 67: a method of one to eight token bytes. */
  method MethodRows(t0: Table) returns (t: Table)
    requires |t0| == 60 && forall b: Byte :: t0[START][b] == 0
    ensures |t| == ROWS
    ensures forall s, b: Byte | 0 <= s < 60 && s != START :: t[s][b] == t0[s][b]
    ensures Final(t, START) && FinalUpTo(t, 60, ROWS)
  {
    t := t0;
    var s := START;
    for count := 0 to 8
      invariant |t| == 60 + count && s == (if count == 0 then START else METHOD + count)
      invariant forall j: nat, x: Byte {:trigger t[j][x]} | j < 60 && j != START :: t[j][x] == t0[j][x]
      invariant count > 0 ==> Final(t, START)
      invariant FinalUpTo(t, 60, METHOD + count) || count == 0
      invariant forall x: Byte :: t[s][x] == 0
    {
      ghost var t1 := t;
      if count > 0 {
        t := Edge(t, s, 32, TARGET_START);
      }
      t := t + [ZeroRow()];
      t := FillTokens(t, s, |t| - 1);
      s := |t| - 1;
    }
    t := Edge(t, s, 32, TARGET_START);
  }

  /** An edge for every token byte. */
  method FillTokens(t0: Table, s: nat, next: int) returns (t: Table)
    requires s < |t0|
    ensures |t| == |t0|
    ensures forall j: nat, x: Byte {:trigger t[j][x]} | j < |t0| ::
      t[j][x] == if j == s && Token(x) then next else t0[j][x]
  {
    t := t0;
    for b := 0 to 256
      invariant |t| == |t0|
      invariant forall j: nat, x: Byte {:trigger t[j][x]} | j < |t0| ::
        t[j][x] == if j == s && Token(x) && x < b then next else t0[j][x]
    {
      if Token(b) {
        t := Edge(t, s, b, next);
      }
    }
  }

  /** The constructed table is the transition function. */
  method BuildTable() returns (t: Table)
    ensures |t| == ROWS && forall s, b: Byte | 0 <= s < ROWS :: t[s][b] == Delta(s, b)
  {
    t := HeaderRows();
    t := LengthRows(t);
    t := TrieRows(t);
    t := TargetRows(t);
    t := MethodRows(t);
  }
}
