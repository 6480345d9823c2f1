/** What a request looks like on the wire, written from the standard's grammar
    (RFC 9112 sections 2 to 5, RFC 9110 section 5.6.2) in characters, and the
    proof that framing completes on exactly such requests. */
module HttpGrammar {
  import opened Ast
  import opened TextOps
  import HttpDfa
  import opened HttpDriver
  import opened HttpReference
  import HttpRefines

  // ----- the grammar -----

  predicate TokenChar(b: Byte) {
    var c := b as char;
    'a' <= c <= 'z' || 'A' <= c <= 'Z' || '0' <= c <= '9' || c in "!#$%&'*+-.^_`|~"
  }

  /** Visible characters, blanks, and the bytes beyond ASCII. */
  predicate FieldByte(b: Byte) {
    var c := b as char;
    c == '\t' || ' ' <= c <= '~' || b >= 0x80
  }

  predicate TargetByte(b: Byte) {
    var c := b as char;
    '!' <= c <= '~' && c != '#'
  }

  predicate DigitByte(b: Byte) { '0' <= b as char <= '9' }

  predicate BlankByte(b: Byte) { b as char == ' ' || b as char == '\t' }

  /** The name in any letter case, its two cases spelled out. */
  predicate AnyCase(name: Bytes, lower: string, upper: string) {
    && |name| == |lower| == |upper|
    && forall i | 0 <= i < |name| :: name[i] as char == lower[i] || name[i] as char == upper[i]
  }

  predicate IsLength(name: Bytes) { AnyCase(name, "content-length", "CONTENT-LENGTH") }

  predicate IsTransfer(name: Bytes) { AnyCase(name, "transfer-encoding", "TRANSFER-ENCODING") }

  predicate IsExpect(name: Bytes) { AnyCase(name, "expect", "EXPECT") }

  datatype Line = Line(name: Bytes, value: Bytes)

  datatype Request = Request(verb: Bytes, target: Bytes, version: Bytes, fields: seq<Line>)

  const EOL: Bytes := Chars("\r\n")

  function WrittenLine(f: Line): Bytes { f.name + Chars(":") + f.value }

  function WrittenFields(fs: seq<Line>): Bytes {
    if fs == [] then [] else WrittenLine(fs[0]) + EOL + WrittenFields(fs[1..])
  }

  function RequestLine(r: Request): Bytes { r.verb + Chars(" ") + r.target + Chars(" ") + r.version }

  /** The head of the request, up to and including the blank line. */
  function Written(r: Request): Bytes { RequestLine(r) + EOL + WrittenFields(r.fields) + EOL }

  predicate GoodLine(r: Request) {
    && 1 <= |r.verb| <= 8 && (forall i | 0 <= i < |r.verb| :: TokenChar(r.verb[i]))
    && 1 <= |r.target| <= 256 && r.target[0] as char == '/'
    && (forall i | 0 <= i < |r.target| :: TargetByte(r.target[i]))
    && (r.version == Chars("HTTP/1.0") || r.version == Chars("HTTP/1.1"))
  }

  predicate GoodField(f: Line) {
    && f.name != [] && (forall i | 0 <= i < |f.name| :: TokenChar(f.name[i]))
    && (forall i | 0 <= i < |f.value| :: FieldByte(f.value[i]))
    && !IsTransfer(f.name) && !IsExpect(f.name)
  }

  function Weight(ds: Bytes): nat
    requires forall i | 0 <= i < |ds| :: DigitByte(ds[i])
  {
    if ds == [] then 0
    else
      assert DigitByte(ds[|ds| - 1]);
      10 * Weight(ds[..|ds| - 1]) + (ds[|ds| - 1] as char as int - '0' as int)
  }

  /** The value is the decimal `n`, blanks around it aside. */
  predicate Declares(value: Bytes, n: nat) {
    exists i: nat, j: nat | i < j <= |value| :: DeclaresAt(value, i, j, n)
  }

  predicate DeclaresAt(value: Bytes, i: nat, j: nat, n: nat)
    requires i < j <= |value|
  {
    && (forall k | 0 <= k < i :: BlankByte(value[k])) && (forall k | j <= k < |value| :: BlankByte(value[k]))
    && (forall k | i <= k < j :: DigitByte(value[k]))
    && Weight(value[i..j]) == n
  }

  /** The body length the fields declare: none, or what the one field says. */
  predicate BodyLength(fs: seq<Line>, n: nat) {
    || (n == 0 && forall i | 0 <= i < |fs| :: !IsLength(fs[i].name))
    || (exists i | 0 <= i < |fs| :: OnlyLength(fs, i) && Declares(fs[i].value, n))
  }

  predicate OnlyLength(fs: seq<Line>, i: nat)
    requires i < |fs|
  {
    forall j | 0 <= j < |fs| :: IsLength(fs[j].name) <==> j == i
  }

  predicate GoodRequest(r: Request, n: nat) {
    GoodLine(r) && (forall i | 0 <= i < |r.fields| :: GoodField(r.fields[i])) && BodyLength(r.fields, n)
  }

  // ----- characters -----

  lemma TokenIsTokenChar(b: Byte)
    ensures HttpDfa.Token(b) <==> TokenChar(b)
  {
    var s := "!#$%&'*+-.^_`|~";
    assert s[0] == '!' && s[1] == '#' && s[2] == '$' && s[3] == '%' && s[4] == '&' && s[5] == '\'' && s[6] == '*'
      && s[7] == '+' && s[8] == '-' && s[9] == '.' && s[10] == '^' && s[11] == '_' && s[12] == '`' && s[13] == '|'
      && s[14] == '~';
  }

  lemma Classes(b: Byte)
    ensures HttpDfa.FieldChar(b) <==> FieldByte(b)
    ensures HttpDfa.TargetChar(b) <==> TargetByte(b)
    ensures HttpDfa.Digit(b) <==> DigitByte(b)
    ensures HttpDfa.Blank(b) <==> BlankByte(b)
  {
  }

  /** The known names, as the table has them, in either case. */
  lemma KnownNames(name: Bytes)
    ensures SameName(name, HttpDfa.CONTENT_LENGTH) <==> IsLength(name)
    ensures SameName(name, HttpDfa.TRANSFER_ENCODING) <==> IsTransfer(name)
    ensures SameName(name, HttpDfa.EXPECT) <==> IsExpect(name)
  {
    CaseAgrees(name, HttpDfa.CONTENT_LENGTH, "content-length", "CONTENT-LENGTH");
    CaseAgrees(name, HttpDfa.TRANSFER_ENCODING, "transfer-encoding", "TRANSFER-ENCODING");
    CaseAgrees(name, HttpDfa.EXPECT, "expect", "EXPECT");
  }

  lemma CaseAgrees(name: Bytes, known: seq<int>, lower: string, upper: string)
    requires |known| == |lower| == |upper|
    requires forall i | 0 <= i < |known| :: known[i] == lower[i] as int && CasePair(lower[i], upper[i])
    ensures SameName(name, known) <==> AnyCase(name, lower, upper)
  {
    if |name| == |known| {
      forall i | 0 <= i < |name|
        ensures HttpDfa.Lower(name[i]) == known[i] <==> name[i] as char == lower[i] || name[i] as char == upper[i]
      {
        assert CasePair(lower[i], upper[i]);
      }
    }
  }

  /** A letter and its capital, or twice the same other character. */
  predicate CasePair(l: char, u: char) {
    ('a' <= l <= 'z' && l as int == u as int + 32) || (l == u && !('a' <= l <= 'z') && !('A' <= l <= 'Z'))
  }

  // ----- lines -----

  /** No carriage return and no line feed. */
  predicate NoBreak(s: Bytes) { forall i | 0 <= i < |s| :: s[i] != 13 && s[i] != 10 }

  predicate NoSuch(s: Bytes, b: Byte) { forall i | 0 <= i < |s| :: s[i] != b }

  lemma Ends()
    ensures EOL == [13, 10] == CRLF && Chars(":") == [58] && Chars(" ") == [32]
  {
  }

  /** The first line feed of a line followed by anything. */
  lemma FirstLine(l: Bytes, s: Bytes)
    requires NoBreak(l)
    ensures IndexOf(l + EOL + s, 10) == |l| + 1
    ensures (l + EOL + s)[..|l| + 2] == l + EOL && (l + EOL + s)[|l| + 2..] == s
    ensures StripCrlf(l + EOL) == Some(l)
  {
    Ends();
    var w := l + EOL + s;
    assert w[|l| + 1] == 10;
    assert forall i | 0 <= i < |l| :: w[i] == l[i];
    assert w[|l|] == 13;
  }

  /** A blank line either closes this line or lies beyond it. */
  lemma BlankAfter(l: Bytes, s: Bytes, j: nat)
    requires NoBreak(l) && BlankAt(l + EOL + s, j)
    ensures (j == |l| && |s| >= 2 && s[..2] == EOL) || (j >= |l| + 2 && BlankAt(s, j - |l| - 2))
  {
    Ends();
    var w := l + EOL + s;
    assert w[j] == w[j..j + 4][0] && w[j + 1] == w[j..j + 4][1] && w[j + 2] == w[j..j + 4][2];
    assert w[j + 3] == w[j..j + 4][3];
    assert w[|l| + 1] == 10 && forall i | 0 <= i < |l| :: w[i] == l[i];
    if j == |l| {
      assert w[j + 2] == s[0] && w[j + 3] == s[1];
    } else if j >= |l| + 2 {
      assert w[j..j + 4] == s[j - |l| - 2..j - |l| + 2];
    }
  }

  /** What is written ends at its first blank line. */
  lemma {:induction false} FieldsBlank(fs: seq<Line>, rest: Bytes, j: nat)
    requires Plain(fs) && fs != [] && BlankAt(WrittenFields(fs) + EOL + rest, j)
    ensures j + 2 >= |WrittenFields(fs)|
  {
    var l, more := WrittenLine(fs[0]), WrittenFields(fs[1..]) + EOL + rest;
    assert WrittenFields(fs) + EOL + rest == l + EOL + more;
    PlainLine(fs[0]);
    BlankAfter(l, more, j);
    if fs[1..] != [] {
      NotBlankStart(fs[1..], rest);
      if j >= |l| + 2 {
        FieldsBlank(fs[1..], rest, j - |l| - 2);
      }
    }
  }

  /** Field names without a colon, and no line break anywhere. */
  predicate Plain(fs: seq<Line>) { forall i | 0 <= i < |fs| :: PlainField(fs[i]) }

  predicate PlainField(f: Line) { f.name != [] && NoSuch(f.name, 58) && NoBreak(f.name) && NoBreak(f.value) }

  lemma PlainLine(f: Line)
    requires PlainField(f)
    ensures NoBreak(WrittenLine(f)) && |WrittenLine(f)| == |f.name| + 1 + |f.value|
    ensures WrittenLine(f)[..|f.name|] == f.name && WrittenLine(f)[|f.name| + 1..] == f.value
    ensures IndexOf(WrittenLine(f), 58) == |f.name|
  {
    Ends();
    var l := WrittenLine(f);
    assert l[|f.name|] == 58;
    assert forall i | 0 <= i < |f.name| :: l[i] == f.name[i];
  }

  lemma NotBlankStart(fs: seq<Line>, rest: Bytes)
    requires Plain(fs) && fs != []
    ensures var s := WrittenFields(fs) + EOL + rest; |s| >= 2 && s[..2] != EOL
  {
    Ends();
    PlainLine(fs[0]);
    var s := WrittenFields(fs) + EOL + rest;
    assert s[0] == fs[0].name[0];
  }

  /** The first blank line after the head of a request closes it. */
  lemma HeadEnds(r: Request, data: Bytes)
    requires NoBreak(RequestLine(r)) && Plain(r.fields) && Written(r) <= data
    ensures FindEnd(data, 0) == Some(|Written(r)|)
  {
    var w := Written(r);
    HeadCloses(r);
    assert BlankAt(data, |w| - 4) by { assert data[|w| - 4..|w|] == w[|w| - 4..]; }
    assert data == w + data[|w|..];
    forall j: nat | j < |w| - 4
      ensures !BlankAt(data, j)
    {
      if BlankAt(w + data[|w|..], j) {
        BlankBefore(r, data[|w|..], j);
      }
    }
    FirstBlank(data, |w|);
  }

  lemma FirstBlank(data: Bytes, end: nat)
    requires end >= 4 && BlankAt(data, end - 4) && forall j: nat | j < end - 4 :: !BlankAt(data, j)
    ensures FindEnd(data, 0) == Some(end)
  {
  }

  lemma HeadCloses(r: Request)
    ensures |Written(r)| >= 4 && Written(r)[|Written(r)| - 4..] == CRLF + CRLF
  {
    Ends();
    if r.fields != [] {
      FieldsClose(r.fields);
    }
  }

  lemma {:induction false} FieldsClose(fs: seq<Line>)
    requires fs != []
    ensures var s := WrittenFields(fs); |s| >= 2 && s[|s| - 2..] == EOL
  {
    if fs[1..] != [] {
      FieldsClose(fs[1..]);
    }
  }

  lemma BlankBefore(r: Request, rest: Bytes, j: nat)
    requires NoBreak(RequestLine(r)) && Plain(r.fields) && BlankAt(Written(r) + rest, j)
    ensures j + 4 >= |Written(r)|
  {
    var l, more := RequestLine(r), WrittenFields(r.fields) + EOL + rest;
    assert Written(r) + rest == l + EOL + more;
    BlankAfter(l, more, j);
    if r.fields != [] {
      NotBlankStart(r.fields, rest);
      FieldsBlank(r.fields, rest, j - |l| - 2);
    }
  }

  // ----- the declared length -----

  /** A digit at a time: the accumulated number, unless it passes the capacity. */
  lemma {:induction false} DecimalSnoc(s: Bytes, b: Byte, n: nat, capacity: nat)
    ensures HttpReference.Decimal(s + [b], n, capacity) ==
      match HttpReference.Decimal(s, n, capacity)
      case None => None
      case Some(m) => if DigitByte(b) && 10 * m + (b - 48) <= capacity then Some(10 * m + (b - 48)) else None
    decreases |s|
  {
    if s == [] {
      assert s + [b] == [b] && [b][1..] == [];
    } else {
      assert (s + [b])[1..] == s[1..] + [b];
      if HttpDfa.Digit(s[0]) && 10 * n + (s[0] - 48) <= capacity {
        DecimalSnoc(s[1..], b, 10 * n + (s[0] - 48), capacity);
      }
    }
  }

  lemma {:induction false} DecimalIsWeight(s: Bytes, capacity: nat)
    ensures HttpReference.Decimal(s, 0, capacity) ==
      if AllDigits(s) && Weight(s) <= capacity then Some(Weight(s)) else None
  {
    if s != [] {
      var t, b := s[..|s| - 1], s[|s| - 1];
      assert s == t + [b];
      DecimalIsWeight(t, capacity);
      DecimalSnoc(t, b, 0, capacity);
    }
  }

  predicate AllDigits(s: Bytes) { forall i | 0 <= i < |s| :: DigitByte(s[i]) }

  /** Trimming removes exactly the blanks at both ends. */
  lemma {:induction false} TrimmedStart(v: Bytes, i: nat)
    requires i <= |v| && (forall k | 0 <= k < i :: AsciiSpace(v[k])) && (i < |v| ==> !AsciiSpace(v[i]))
    ensures TrimStart(v) == v[i..]
    decreases i
  {
    if i > 0 {
      TrimmedStart(v[1..], i - 1);
      assert v[1..][i - 1..] == v[i..];
    }
  }

  lemma {:induction false} TrimmedEnd(v: Bytes, j: nat)
    requires j <= |v| && (forall k | j <= k < |v| :: AsciiSpace(v[k])) && (j > 0 ==> !AsciiSpace(v[j - 1]))
    ensures TrimEnd(v) == v[..j]
    decreases |v| - j
  {
    if j < |v| {
      var t := v[..|v| - 1];
      TrimmedEnd(t, j);
      assert t[..j] == v[..j];
    } else {
      assert v[..j] == v;
    }
  }

  lemma {:induction false} StartOf(v: Bytes) returns (i: nat)
    ensures i <= |v| && (forall k | 0 <= k < i :: AsciiSpace(v[k])) && (i < |v| ==> !AsciiSpace(v[i]))
  {
    if v == [] || !AsciiSpace(v[0]) {
      i := 0;
    } else {
      i := StartOf(v[1..]);
      i := i + 1;
      forall k | 0 <= k < i
        ensures AsciiSpace(v[k])
      {
        if k > 0 { assert v[k] == v[1..][k - 1]; }
      }
    }
  }

  lemma {:induction false} EndOf(v: Bytes) returns (j: nat)
    ensures j <= |v| && (forall k | j <= k < |v| :: AsciiSpace(v[k])) && (j > 0 ==> !AsciiSpace(v[j - 1]))
  {
    if v == [] || !AsciiSpace(v[|v| - 1]) {
      j := |v|;
    } else {
      j := EndOf(v[..|v| - 1]);
    }
  }

  /** Reading a length value is reading the decimal it declares. */
  lemma LengthMeans(value: Bytes, capacity: nat, n: nat)
    requires forall i | 0 <= i < |value| :: FieldByte(value[i])
    ensures ParseLength(value, capacity) == Some(n) <==> Declares(value, n) && n <= capacity
  {
    if Declares(value, n) && n <= capacity {
      var i: nat, j: nat :| i < j <= |value| && DeclaresAt(value, i, j, n);
      DeclaredReads(value, i, j, n, capacity);
    } else if ParseLength(value, capacity) == Some(n) {
      ReadDeclares(value, n, capacity);
    }
  }

  lemma DeclaredReads(value: Bytes, i: nat, j: nat, n: nat, capacity: nat)
    requires i < j <= |value| && DeclaresAt(value, i, j, n) && n <= capacity
    ensures ParseLength(value, capacity) == Some(n)
  {
    assert DigitByte(value[i]) && DigitByte(value[j - 1]);
    assert forall k | 0 <= k < i :: AsciiSpace(value[k]);
    TrimmedStart(value, i);
    var v := value[i..];
    assert forall k | j - i <= k < |v| :: v[k] == value[i + k] && BlankByte(v[k]);
    TrimmedEnd(v, j - i);
    assert v[..j - i] == value[i..j];
    DecimalIsWeight(value[i..j], capacity);
  }

  lemma ReadDeclares(value: Bytes, n: nat, capacity: nat)
    requires (forall i | 0 <= i < |value| :: FieldByte(value[i])) && ParseLength(value, capacity) == Some(n)
    ensures Declares(value, n) && n <= capacity
  {
    var i, j := TrimBounds(value);
    DecimalIsWeight(value[i..j], capacity);
    forall k | i <= k < j
      ensures DigitByte(value[k])
    {
      assert value[k] == value[i..j][k - i];
    }
    forall k | 0 <= k < i || j <= k < |value|
      ensures BlankByte(value[k])
    {
      assert FieldByte(value[k]);
    }
    assert DeclaresAt(value, i, j, n);
  }

  lemma TrimBounds(value: Bytes) returns (i: nat, j: nat)
    ensures i <= j <= |value| && TrimEnd(TrimStart(value)) == value[i..j]
    ensures forall k | 0 <= k < i || j <= k < |value| :: AsciiSpace(value[k])
  {
    i := StartOf(value);
    TrimmedStart(value, i);
    var v := value[i..];
    var m := EndOf(v);
    TrimmedEnd(v, m);
    j := i + m;
    assert v[..m] == value[i..j];
    assert forall k | j <= k < |value| :: value[k] == v[k - i];
  }

  // ----- fields -----

  lemma GoodIsPlain(f: Line)
    requires GoodField(f)
    ensures PlainField(f)
  {
  }

  /** One written line, read back. */
  lemma LineReads(f: Line, length: Option<nat>, capacity: nat)
    requires PlainField(f)
    ensures HeaderLine(WrittenLine(f), length, capacity) ==
      if !GoodField(f) then None
      else if !IsLength(f.name) then Some(length)
      else if length.Some? then None
      else (match ParseLength(f.value, capacity) case None => None case Some(n) => Some(Some(n)))
  {
    PlainLine(f);
    KnownNames(f.name);
    assert All(f.name, HttpDfa.Token) <==> forall i | 0 <= i < |f.name| :: TokenChar(f.name[i]) by {
      forall b: Byte { TokenIsTokenChar(b); }
    }
    assert All(f.value, HttpDfa.FieldChar) <==> forall i | 0 <= i < |f.value| :: FieldByte(f.value[i]) by {
      forall b: Byte { Classes(b); }
    }
  }

  lemma FieldsStep(fs: seq<Line>, before: Option<nat>, capacity: nat)
    requires Plain(fs) && fs != []
    ensures HeaderLines(WrittenFields(fs), before, capacity) ==
      match HeaderLine(WrittenLine(fs[0]), before, capacity)
      case None => None
      case Some(length) => HeaderLines(WrittenFields(fs[1..]), length, capacity)
  {
    PlainLine(fs[0]);
    FirstLine(WrittenLine(fs[0]), WrittenFields(fs[1..]));
  }

  predicate AllGood(fs: seq<Line>) { forall i | 0 <= i < |fs| :: GoodField(fs[i]) }

  predicate NoLength(fs: seq<Line>) { forall i | 0 <= i < |fs| :: !IsLength(fs[i].name) }

  predicate OneLength(fs: seq<Line>, n: nat) {
    exists i | 0 <= i < |fs| :: OnlyLength(fs, i) && Declares(fs[i].value, n)
  }

  /** How the fields change the length declared before them. */
  predicate Carries(fs: seq<Line>, before: Option<nat>, after: Option<nat>, capacity: nat) {
    if before.Some? || after.None? then after == before && NoLength(fs)
    else after.value <= capacity && OneLength(fs, after.value)
  }

  lemma {:induction false} FieldsRead(fs: seq<Line>, before: Option<nat>, after: Option<nat>, capacity: nat)
    requires Plain(fs)
    ensures HeaderLines(WrittenFields(fs), before, capacity) == Some(after) <==>
            AllGood(fs) && Carries(fs, before, after, capacity)
  {
    if fs != [] {
      FieldsStep(fs, before, capacity);
      LineReads(fs[0], before, capacity);
      GoodCons(fs);
      if GoodField(fs[0]) && !IsLength(fs[0].name) {
        FieldsRead(fs[1..], before, after, capacity);
        CarriesPast(fs, before, after, capacity);
      } else if GoodField(fs[0]) && before.None? {
        var n := ParseLength(fs[0].value, capacity);
        if n.Some? {
          FieldsRead(fs[1..], n, after, capacity);
        }
        CarriesLength(fs, n, after, capacity);
      }
    }
  }

  lemma GoodCons(fs: seq<Line>)
    requires fs != []
    ensures AllGood(fs) <==> GoodField(fs[0]) && AllGood(fs[1..])
    ensures NoLength(fs) <==> !IsLength(fs[0].name) && NoLength(fs[1..])
  {
    assert fs == [fs[0]] + fs[1..];
  }

  /** A field that is no length changes nothing. */
  lemma CarriesPast(fs: seq<Line>, before: Option<nat>, after: Option<nat>, capacity: nat)
    requires fs != [] && !IsLength(fs[0].name)
    ensures Carries(fs, before, after, capacity) <==> Carries(fs[1..], before, after, capacity)
  {
    GoodCons(fs);
    if after.Some? {
      if OneLength(fs, after.value) {
        var i :| 0 <= i < |fs| && OnlyLength(fs, i) && Declares(fs[i].value, after.value);
        assert fs[1..][i - 1] == fs[i];
        assert OnlyLength(fs[1..], i - 1);
      }
      if OneLength(fs[1..], after.value) {
        var i :| 0 <= i < |fs[1..]| && OnlyLength(fs[1..], i) && Declares(fs[1..][i].value, after.value);
        assert OnlyLength(fs, i + 1) by {
          forall j | 0 < j < |fs|
            ensures IsLength(fs[j].name) <==> j == i + 1
          {
            assert fs[j] == fs[1..][j - 1];
          }
        }
      }
    }
  }

  /** A length field: no other may follow. */
  lemma CarriesLength(fs: seq<Line>, n: Option<nat>, after: Option<nat>, capacity: nat)
    requires fs != [] && GoodField(fs[0]) && IsLength(fs[0].name) && n == ParseLength(fs[0].value, capacity)
    ensures Carries(fs, None, after, capacity) <==> n.Some? && after == n && NoLength(fs[1..])
  {
    GoodCons(fs);
    if after.Some? {
      LengthMeans(fs[0].value, capacity, after.value);
    }
    if Carries(fs, None, after, capacity) {
      var i :| 0 <= i < |fs| && OnlyLength(fs, i) && Declares(fs[i].value, after.value);
      assert i == 0;
      assert forall j | 0 <= j < |fs[1..]| :: fs[1..][j] == fs[j + 1];
    }
    if n.Some? && after == n && NoLength(fs[1..]) {
      assert forall j | 0 < j < |fs| :: fs[j] == fs[1..][j - 1];
      assert OnlyLength(fs, 0);
    }
  }

  lemma BodyCarried(fs: seq<Line>, n: nat, capacity: nat)
    ensures BodyLength(fs, n) && n <= capacity <==>
            (n == 0 && Carries(fs, None, None, capacity)) || Carries(fs, None, Some(n), capacity)
  {
  }

  // ----- the request line -----

  lemma {:induction false} SplitOne(s: Bytes, b: Byte)
    requires NoSuch(s, b)
    ensures Split(s, b) == [s]
  {
  }

  lemma SplitOff(s: Bytes, b: Byte, rest: Bytes)
    requires NoSuch(s, b)
    ensures Split(s + [b] + rest, b) == [s] + Split(rest, b)
  {
    var w := s + [b] + rest;
    assert w[|s|] == b && forall i | 0 <= i < |s| :: w[i] == s[i];
    assert IndexOf(w, b) == |s|;
    assert w[..|s|] == s && w[|s| + 1..] == rest;
  }

  predicate NoSpaces(r: Request) { NoSuch(r.verb, 32) && NoSuch(r.target, 32) && NoSuch(r.version, 32) }

  lemma RequestSplits(r: Request)
    requires NoSpaces(r)
    ensures Split(RequestLine(r), 32) == [r.verb, r.target, r.version]
  {
    Ends();
    assert RequestLine(r) == r.verb + [32] + (r.target + [32] + r.version);
    SplitOff(r.verb, 32, r.target + [32] + r.version);
    SplitOff(r.target, 32, r.version);
    SplitOne(r.version, 32);
  }

  lemma RequestMeans(r: Request)
    requires NoSpaces(r)
    ensures RequestOk(RequestLine(r)) <==> GoodLine(r)
  {
    RequestSplits(r);
    assert All(r.verb, HttpDfa.Token) <==> forall i | 0 <= i < |r.verb| :: TokenChar(r.verb[i]) by {
      forall b: Byte { TokenIsTokenChar(b); }
    }
    assert All(r.target, HttpDfa.TargetChar) <==> forall i | 0 <= i < |r.target| :: TargetByte(r.target[i]) by {
      forall b: Byte { Classes(b); }
    }
    Versions();
  }

  lemma Versions()
    ensures HTTP10 == Chars("HTTP/1.0") && HTTP11 == Chars("HTTP/1.1")
  {
  }

  lemma GoodLinePlain(r: Request)
    requires GoodLine(r)
    ensures NoSpaces(r) && NoBreak(RequestLine(r))
  {
    VerbPlain(r.verb);
    TargetPlain(r.target);
    VersionPlain(r.version);
    LineBytes(r);
  }

  lemma VerbPlain(s: Bytes)
    requires forall i | 0 <= i < |s| :: TokenChar(s[i])
    ensures NoBreak(s) && NoSuch(s, 32)
  {
  }

  lemma TargetPlain(s: Bytes)
    requires forall i | 0 <= i < |s| :: TargetByte(s[i])
    ensures NoBreak(s) && NoSuch(s, 32)
  {
  }

  lemma VersionPlain(s: Bytes)
    requires s == Chars("HTTP/1.0") || s == Chars("HTTP/1.1")
    ensures NoBreak(s) && NoSuch(s, 32)
  {
    Versions();
  }

  lemma LineBytes(r: Request)
    requires NoBreak(r.verb) && NoBreak(r.target) && NoBreak(r.version)
    ensures NoBreak(RequestLine(r))
  {
    Ends();
  }

  // ----- heads -----

  /** A written request line and fields are read as themselves. */
  lemma HeadReads(r: Request, after: Option<nat>, capacity: nat)
    requires NoSpaces(r) && NoBreak(RequestLine(r)) && Plain(r.fields)
    ensures Head(RequestLine(r) + EOL + WrittenFields(r.fields), capacity) == Some(after) <==>
            GoodLine(r) && AllGood(r.fields) && Carries(r.fields, None, after, capacity)
  {
    FirstLine(RequestLine(r), WrittenFields(r.fields));
    RequestMeans(r);
    FieldsRead(r.fields, None, after, capacity);
  }

  lemma {:induction false} SplitJoins(s: Bytes, b: Byte)
    ensures var p := Split(s, b); NoSuch(p[0], b) && (|p| == 1 ==> s == p[0])
    ensures var p := Split(s, b); |p| > 1 ==>
      |p[0]| < |s| && s == p[0] + [b] + s[|p[0]| + 1..] && p[1..] == Split(s[|p[0]| + 1..], b)
  {
    var i := IndexOf(s, b);
    if i < |s| {
      assert s == s[..i] + [b] + s[i + 1..];
    }
  }

  lemma ThreeParts(s: Bytes, b: Byte)
    requires |Split(s, b)| == 3
    ensures var p := Split(s, b);
      s == p[0] + [b] + (p[1] + [b] + p[2]) && NoSuch(p[0], b) && NoSuch(p[1], b) && NoSuch(p[2], b)
  {
    var p := Split(s, b);
    SplitJoins(s, b);
    var rest := s[|p[0]| + 1..];
    SplitJoins(rest, b);
    assert Split(rest, b)[0] == p[1];
    SplitJoins(rest[|p[1]| + 1..], b);
  }

  /** A request line that is accepted was written from its three parts. */
  lemma RequestParts(line: Bytes) returns (r: Request)
    requires RequestOk(line)
    ensures r.fields == [] && NoSpaces(r) && RequestLine(r) == line && GoodLine(r)
  {
    Ends();
    var p := Split(line, 32);
    r := Request(p[0], p[1], p[2], []);
    ThreeParts(line, 32);
    LineJoined(r, line);
    RequestMeans(r);
  }

  lemma LineJoined(r: Request, line: Bytes)
    requires line == r.verb + [32] + (r.target + [32] + r.version)
    ensures RequestLine(r) == line
  {
    Ends();
  }

  /** A header line that is accepted was written from a field. */
  lemma LineParts(line: Bytes, before: Option<nat>, capacity: nat) returns (f: Line)
    requires HeaderLine(line, before, capacity).Some?
    ensures PlainField(f) && WrittenLine(f) == line
  {
    Ends();
    var colon := IndexOf(line, 58);
    f := Line(line[..colon], line[colon + 1..]);
    assert line == f.name + [58] + f.value;
    forall b: Byte { TokenIsTokenChar(b); }
  }

  lemma LineEnd(s: Bytes)
    requires s != []
    requires var n := IndexOf(s, 10); StripCrlf(if n < |s| then s[..n + 1] else s).Some?
    ensures var n := IndexOf(s, 10); 0 < n < |s| && s == s[..n - 1] + EOL + s[n + 1..]
    ensures var n := IndexOf(s, 10); StripCrlf(s[..n + 1]) == Some(s[..n - 1])
  {
    Ends();
    var n := IndexOf(s, 10);
    LastFeed(s);
    assert s[..n + 1][n - 1..] == CRLF;
    assert s[..n + 1] == s[..n - 1] + CRLF;
    assert s[..n + 1][..n - 1] == s[..n - 1];
  }

  lemma LastFeed(s: Bytes)
    ensures StripCrlf(s).Some? ==> IndexOf(s, 10) < |s|
  {
    Ends();
    if StripCrlf(s).Some? {
      assert s[|s| - 2..][1] == s[|s| - 1];
    }
  }

  /** Header lines that are accepted were written from fields. */
  lemma {:induction false} FieldsParts(s: Bytes, before: Option<nat>, capacity: nat) returns (fs: seq<Line>)
    requires HeaderLines(s, before, capacity).Some?
    ensures Plain(fs) && WrittenFields(fs) == s
    decreases |s|
  {
    if s == [] {
      fs := [];
    } else {
      LineEnd(s);
      var n := IndexOf(s, 10);
      var line := s[..n - 1];
      assert |s[..n + 1]| == n + 1;
      var f := LineParts(line, before, capacity);
      var more := FieldsParts(s[n + 1..], HeaderLine(line, before, capacity).value, capacity);
      fs := [f] + more;
      assert fs[1..] == more;
    }
  }

  /** A head that is accepted was written from a request. */
  lemma HeadParts(s: Bytes, capacity: nat) returns (r: Request)
    requires s != [] && Head(s, capacity).Some?
    ensures NoSpaces(r) && NoBreak(RequestLine(r)) && Plain(r.fields)
    ensures s == RequestLine(r) + EOL + WrittenFields(r.fields)
  {
    LineEnd(s);
    var n := IndexOf(s, 10);
    r := RequestParts(s[..n - 1]);
    GoodLinePlain(r);
    var fs := FieldsParts(s[n + 1..], None, capacity);
    r := r.(fields := fs);
  }

  // ----- exactly the requests -----

  /** The data begins with the head of a request whose body has `n` bytes. */
  ghost predicate Begins(data: Bytes, r: Request, n: nat) { GoodRequest(r, n) && Written(r) <= data }

  /** Nothing in a request looks like the punctuation around it. */
  predicate Tidy(r: Request) { NoSpaces(r) && NoBreak(RequestLine(r)) && Plain(r.fields) }

  lemma GoodIsTidy(r: Request, n: nat)
    requires GoodRequest(r, n)
    ensures Tidy(r)
  {
    GoodLinePlain(r);
    forall i | 0 <= i < |r.fields|
      ensures PlainField(r.fields[i])
    {
      GoodIsPlain(r.fields[i]);
    }
  }

  /** The head without its blank line, as the parser is given it. */
  function Unclosed(r: Request): Bytes { RequestLine(r) + EOL + WrittenFields(r.fields) }

  /** What the parser makes of the head of a request. */
  lemma GoodHead(r: Request, n: nat, capacity: nat)
    requires GoodRequest(r, n)
    ensures var h := Head(Unclosed(r), capacity);
      if n > capacity then h.None?
      else h.Some? && n == (if h.value.Some? then h.value.value else 0)
  {
    GoodIsTidy(r, n);
    var h := Head(Unclosed(r), capacity);
    if n <= capacity {
      BodyCarried(r.fields, n, capacity);
      HeadReads(r, None, capacity);
      HeadReads(r, Some(n), capacity);
    } else if h.Some? {
      HeadReads(r, h.value, capacity);
      OneBody(r.fields, n, h.value, capacity);
    }
  }

  lemma OneBody(fs: seq<Line>, n: nat, after: Option<nat>, capacity: nat)
    requires AllGood(fs) && BodyLength(fs, n) && Carries(fs, None, after, capacity)
    ensures n == (if after.Some? then after.value else 0) <= capacity
  {
    if after.Some? {
      var i :| 0 <= i < |fs| && OnlyLength(fs, i) && Declares(fs[i].value, after.value);
      assert IsLength(fs[i].name);
      assert OneLength(fs, n);
      DeclaredOnce(fs, n, after.value);
    }
  }

  /** Fields declare one length at most. */
  lemma DeclaredOnce(fs: seq<Line>, n: nat, m: nat)
    requires AllGood(fs) && OneLength(fs, n) && OneLength(fs, m)
    ensures n == m
  {
    var i :| 0 <= i < |fs| && OnlyLength(fs, i) && Declares(fs[i].value, m);
    var j :| 0 <= j < |fs| && OnlyLength(fs, j) && Declares(fs[j].value, n);
    assert i == j by { assert IsLength(fs[i].name); }
    assert GoodField(fs[i]);
    LengthMeans(fs[i].value, n + m, n);
    LengthMeans(fs[i].value, n + m, m);
  }

  lemma GivenHead(r: Request, data: Bytes)
    requires Tidy(r) && Written(r) <= data
    ensures FindEnd(data, 0) == Some(|Written(r)|) && data[..|Written(r)| - 2] == Unclosed(r)
  {
    HeadEnds(r, data);
    Ends();
    var w := Written(r);
    assert data[..|w| - 2] == w[..|w| - 2];
  }

  /** A request followed by anything: what the parser says of it. */
  lemma RequestVerdict(data: Bytes, r: Request, n: nat, capacity: nat)
    requires Begins(data, r, n)
    ensures var total := |Written(r)| + n;
      Reference(data, capacity) ==
      if total > capacity then Invalid else if |data| < total then More else Complete(total)
  {
    GoodIsTidy(r, n);
    GivenHead(r, data);
    GoodVerdict(data, r, n, |Written(r)|, capacity);
  }

  lemma GoodVerdict(data: Bytes, r: Request, n: nat, end: nat, capacity: nat)
    requires GoodRequest(r, n) && FindEnd(data, 0) == Some(end) && data[..end - 2] == Unclosed(r)
    ensures Reference(data, capacity) ==
      if end + n > capacity then Invalid else if |data| < end + n then More else Complete(end + n)
  {
    GoodHead(r, n, capacity);
    EndedVerdict(data, end, capacity);
    TotalVerdict(Head(data[..end - 2], capacity), end, n, |data|, capacity);
  }

  lemma TotalVerdict(h: Option<Option<nat>>, end: nat, n: nat, have: nat, capacity: nat)
    requires if n > capacity then h.None? else h.Some? && n == (if h.value.Some? then h.value.value else 0)
    ensures (if end > capacity then Invalid else HeadVerdict(h, end, have, capacity)) ==
      if end + n > capacity then Invalid else if have < end + n then More else Complete(end + n)
  {
  }

  lemma EndedVerdict(data: Bytes, end: nat, capacity: nat)
    requires FindEnd(data, 0) == Some(end)
    ensures Reference(data, capacity) ==
      if end > capacity then Invalid else HeadVerdict(Head(data[..end - 2], capacity), end, |data|, capacity)
  {
  }

  /** What the parser accepts begins with a request. */
  lemma AcceptedBegins(data: Bytes, capacity: nat, end: nat) returns (r: Request, n: nat)
    requires FindEnd(data, 0) == Some(end) && Head(data[..end - 2], capacity).Some?
    ensures Begins(data, r, n) && n <= capacity && |Written(r)| == end
  {
    r, n := AcceptedRequest(data[..end - 2], capacity);
    Closed(data, end, r);
  }

  lemma AcceptedRequest(s: Bytes, capacity: nat) returns (r: Request, n: nat)
    requires s != [] && Head(s, capacity).Some?
    ensures s == Unclosed(r) && GoodRequest(r, n) && n <= capacity
  {
    r := HeadParts(s, capacity);
    var after := Head(s, capacity).value;
    n := if after.Some? then after.value else 0;
    GoodOf(r, after, capacity);
  }

  lemma GoodOf(r: Request, after: Option<nat>, capacity: nat)
    requires Tidy(r) && Head(Unclosed(r), capacity) == Some(after)
    ensures var n := if after.Some? then after.value else 0; GoodRequest(r, n) && n <= capacity
  {
    HeadReads(r, after, capacity);
    BodyCarried(r.fields, if after.Some? then after.value else 0, capacity);
  }

  lemma Closed(data: Bytes, end: nat, r: Request)
    requires 4 <= end <= |data| && BlankAt(data, end - 4) && data[..end - 2] == Unclosed(r)
    ensures Written(r) <= data && |Written(r)| == end
  {
    Ends();
    assert data[end - 2..end] == data[end - 4..end][2..];
    assert data[..end] == data[..end - 2] + data[end - 2..end];
  }

  /** Framing completes on exactly the requests of the grammar: with a total of
      `t` bytes if and only if the data begins with one whose head and body take
      `t` bytes, all of them received and within the capacity. */
  lemma CompletesExactly(data: Bytes, capacity: nat, t: nat)
    ensures Reference(data, capacity) == Complete(t) <==>
            t <= capacity && t <= |data| && exists r: Request, n: nat :: Begins(data, r, n) && t == |Written(r)| + n
  {
    if Reference(data, capacity) == Complete(t) {
      var end := FindEnd(data, 0).value;
      EndedVerdict(data, end, capacity);
      var r, n := AcceptedBegins(data, capacity, end);
      RequestVerdict(data, r, n, capacity);
    } else if exists r: Request, n: nat :: Begins(data, r, n) && t == |Written(r)| + n {
      var r: Request, n: nat :| Begins(data, r, n) && t == |Written(r)| + n;
      RequestVerdict(data, r, n, capacity);
    }
  }

  /** More is awaited exactly when room is left and no blank line has come, or a
      request has whose body fits and is not all here. */
  lemma AwaitsExactly(data: Bytes, capacity: nat)
    ensures Reference(data, capacity) == More <==>
            || (|data| < capacity && forall j: nat :: !BlankAt(data, j))
            || exists r: Request, n: nat :: Begins(data, r, n) && |data| < |Written(r)| + n <= capacity
  {
    if exists r: Request, n: nat :: Begins(data, r, n) && |data| < |Written(r)| + n <= capacity {
      var r: Request, n: nat :| Begins(data, r, n) && |data| < |Written(r)| + n <= capacity;
      RequestVerdict(data, r, n, capacity);
    }
    if Reference(data, capacity) == More && FindEnd(data, 0).Some? {
      var end := FindEnd(data, 0).value;
      EndedVerdict(data, end, capacity);
      var r, n := AcceptedBegins(data, capacity, end);
      RequestVerdict(data, r, n, capacity);
    }
  }

  // ----- the receiver -----

  /** However a request is cut into receives, the receiver completes on exactly
      the requests of the grammar. */
  lemma ReceivesExactly(chunks: seq<Bytes>, capacity: nat, t: nat)
    requires forall i | 0 <= i < |chunks| :: chunks[i] != []
    ensures var data := Joined(chunks);
      Session([], chunks, capacity) == Complete(t) <==>
      t <= capacity && t <= |data| && exists r: Request, n: nat :: Begins(data, r, n) && t == |Written(r)| + n
  {
    HttpRefines.PiecesCompleteAlike(chunks, capacity, t);
    CompletesExactly(Joined(chunks), capacity, t);
  }

  /** A line of the head that starts at `i` carries the name. */
  predicate Named(data: Bytes, i: nat, name: Bytes) {
    i + |name| < |data| && data[i..i + |name|] == name && data[i + |name|] as char == ':'
  }

  predicate Bare(name: Bytes) { name != [] && NoBreak(name) && NoSuch(name, 58) }

  /** A name beyond a line is a name of what follows the line. */
  lemma NameBeyond(l: Bytes, s: Bytes, i: nat, name: Bytes)
    requires NoBreak(l) && Named(l + EOL + s, i, name) && i > 0 && (l + EOL + s)[i - 1] == 10
    ensures i >= |l| + 2 && Named(s, i - |l| - 2, name)
    ensures i > |l| + 2 ==> s[i - |l| - 3] == 10
  {
    NotInLine(l, s, i);
    var m := i - |l| - 2;
    assert (l + EOL + s)[i..i + |name|] == s[m..m + |name|];
  }

  lemma NotInLine(l: Bytes, s: Bytes, i: nat)
    requires NoBreak(l) && 0 < i <= |l + EOL + s| && (l + EOL + s)[i - 1] == 10
    ensures i >= |l| + 2
  {
    Ends();
    var w := l + EOL + s;
    assert w[|l|] == 13 && forall k | 0 <= k < |l| :: w[k] == l[k];
  }

  lemma {:induction false} FieldNamed(fs: seq<Line>, rest: Bytes, i: nat, name: Bytes)
    requires var s := WrittenFields(fs) + EOL + rest;
      Plain(fs) && i < |WrittenFields(fs)| && Bare(name) && Named(s, i, name) && (i > 0 ==> s[i - 1] == 10)
    ensures exists j | 0 <= j < |fs| :: fs[j].name == name
  {
    var l, more := WrittenLine(fs[0]), WrittenFields(fs[1..]) + EOL + rest;
    assert WrittenFields(fs) + EOL + rest == l + EOL + more;
    PlainLine(fs[0]);
    if i == 0 {
      assert l + EOL + more == l + (EOL + more);
      FirstName(fs[0], EOL + more, name);
    } else {
      NameBeyond(l, more, i, name);
      FieldNamed(fs[1..], rest, i - |l| - 2, name);
      var j :| 0 <= j < |fs[1..]| && fs[1..][j].name == name;
      assert fs[j + 1].name == name;
    }
  }

  lemma FirstName(f: Line, rest: Bytes, name: Bytes)
    requires PlainField(f) && Bare(name) && Named(WrittenLine(f) + rest, 0, name)
    ensures f.name == name
  {
    Ends();
    PlainLine(f);
    var s := WrittenLine(f) + rest;
    assert s[|f.name|] == 58 && forall i | 0 <= i < |f.name| :: s[i] == f.name[i];
    assert forall i | 0 <= i < |name| :: s[i] == name[i];
    assert s[..|f.name|] == f.name;
  }

  /** A header line of that name starts at `i`, in the head. */
  predicate Announces(data: Bytes, i: nat, name: Bytes) {
    && 2 <= i <= |data| && data[i - 2..i] == EOL && Named(data, i, name)
    && forall j: nat | j + 4 <= i :: !BlankAt(data, j)
  }

  /** A name announced in a request is the name of one of its fields. */
  lemma HeadNamed(r: Request, data: Bytes, i: nat, name: Bytes)
    requires Tidy(r) && Written(r) <= data && Bare(name) && Announces(data, i, name)
    ensures exists j | 0 <= j < |r.fields| :: r.fields[j].name == name
  {
    var l, s, rest := LaidOut(r, data);
    BeforeEnd(r, data, i);
    AfterFeed(data, i, name);
    NamedBeyond(l, r.fields, s, rest, i, name);
  }

  lemma AfterFeed(data: Bytes, i: nat, name: Bytes)
    requires Announces(data, i, name)
    ensures data[i - 1] == 10
  {
    Ends();
    assert data[i - 1] == data[i - 2..i][1];
  }

  lemma NamedBeyond(l: Bytes, fs: seq<Line>, s: Bytes, rest: Bytes, i: nat, name: Bytes)
    requires NoBreak(l) && Plain(fs) && Bare(name) && s == WrittenFields(fs) + EOL + rest
    requires 0 < i < |l| + 2 + |WrittenFields(fs)| + 2 && Named(l + EOL + s, i, name) && (l + EOL + s)[i - 1] == 10
    ensures exists j | 0 <= j < |fs| :: fs[j].name == name
  {
    NameBeyond(l, s, i, name);
    InFields(fs, s, rest, i - |l| - 2, name);
    FieldNamed(fs, rest, i - |l| - 2, name);
  }

  lemma LaidOut(r: Request, data: Bytes) returns (l: Bytes, s: Bytes, rest: Bytes)
    requires Tidy(r) && Written(r) <= data
    ensures NoBreak(l) && data == l + EOL + s && s == WrittenFields(r.fields) + EOL + rest
    ensures |Written(r)| == |l| + 2 + |WrittenFields(r.fields)| + 2
  {
    Ends();
    l, rest := RequestLine(r), data[|Written(r)|..];
    s := WrittenFields(r.fields) + EOL + rest;
    assert data == Written(r) + rest;
  }

  lemma BeforeEnd(r: Request, data: Bytes, i: nat)
    requires Tidy(r) && Written(r) <= data && forall j: nat | j + 4 <= i :: !BlankAt(data, j)
    ensures i < |Written(r)|
  {
    HeadEnds(r, data);
    assert BlankAt(data, |Written(r)| - 4);
  }

  lemma InFields(fs: seq<Line>, s: Bytes, rest: Bytes, m: nat, name: Bytes)
    requires s == WrittenFields(fs) + EOL + rest && Named(s, m, name) && Bare(name)
    requires m < |WrittenFields(fs)| + 2
    ensures m < |WrittenFields(fs)|
  {
    Ends();
    assert s[m] == s[m..m + |name|][0];
  }

  lemma BareNames(name: Bytes)
    requires IsTransfer(name) || IsExpect(name)
    ensures Bare(name)
  {
    var known := if IsTransfer(name) then HttpDfa.TRANSFER_ENCODING else HttpDfa.EXPECT;
    KnownNames(name);
    forall i | 0 <= i < |name|
      ensures name[i] != 58 && name[i] != 13 && name[i] != 10
    {
      assert HttpDfa.Lower(name[i]) == known[i];
    }
  }

  /** A request that announces a transfer coding or an expectation, in any letter
      case and whatever else it holds, never completes for either side. */
  lemma AnnouncedRefused(data: Bytes, i: nat, name: Bytes, capacity: nat)
    requires Announces(data, i, name) && (IsTransfer(name) || IsExpect(name))
    ensures !Reference(data, capacity).Complete? && !Drive(data, capacity).Complete?
  {
    forall r: Request, n: nat
      ensures !Begins(data, r, n)
    {
      if Begins(data, r, n) {
        BareNames(name);
        GoodIsTidy(r, n);
        HeadNamed(r, data, i, name);
      }
    }
    forall t: nat
      ensures Reference(data, capacity) != Complete(t) && Drive(data, capacity) != Complete(t)
    {
      CompletesExactly(data, capacity, t);
      HttpRefines.CompletesAlike(data, capacity, t);
    }
  }
}
