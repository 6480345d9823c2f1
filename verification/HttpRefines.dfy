/** Main result: on every byte string and capacity, the table-driven receiver
    completes exactly when the line-based parser does, with the same total. */
module HttpRefines {
  import opened Ast
  import opened HttpDfa
  import opened HttpDriver
  import opened HttpReference
  import opened HttpSound
  import opened HttpLines

  // ----- what the last bytes must have been -----

  predicate EndsWith(s: Bytes, t: Bytes) { |t| <= |s| && s[|s| - |t|..] == t }

  predicate Trail(s: Bytes, row: nat) {
    && (row == HEADERS ==> EndsWith(s, CRLF))
    && (row == END_LF ==> EndsWith(s, CRLF + [13]))
    && (row == DONE ==> EndsWith(s, CRLF + CRLF))
    && (row == VALUE_LF || row == VERSION_LF ==> EndsWith(s, [13]))
  }

  lemma DeltaShape(s: nat, b: Byte)
    ensures var e := Delta(s, b);
      0 <= e < ROWS || e == DIGITS + DIGIT_FLAG || e == LEADING + LENGTH_FLAG || e == TARGET + TARGET_FLAG
  {
  }

  lemma DeltaEntered(s: nat, b: Byte)
    ensures Delta(s, b) == HEADERS ==> b == 10 && (s == VALUE_LF || s == VERSION_LF)
    ensures Delta(s, b) == END_LF ==> b == 13 && s == HEADERS
    ensures Delta(s, b) == DONE ==> b == 10 && s == END_LF
    ensures Delta(s, b) == VALUE_LF || Delta(s, b) == VERSION_LF ==> b == 13
  {
  }

  /** The rows that end lines are entered by their own bytes only. */
  lemma RowEntered(d: Scanner, b: Byte, capacity: nat)
    requires Step(d, b, capacity).Some?
    ensures var row := Step(d, b, capacity).value.row;
      && (row == HEADERS ==> b == 10 && (d.row == VALUE_LF || d.row == VERSION_LF))
      && (row == END_LF ==> b == 13 && d.row == HEADERS)
      && (row == DONE ==> b == 10 && d.row == END_LF)
      && (row == VALUE_LF || row == VERSION_LF ==> b == 13)
  {
    DeltaShape(d.row, b);
    DeltaEntered(d.row, b);
    ApplyRow(d, Delta(d.row, b), b, capacity);
  }

  lemma ApplyRow(d: Scanner, e: nat, b: Byte, capacity: nat)
    requires Apply(d, e, b, capacity).Some?
    requires e < ROWS || e == DIGITS + DIGIT_FLAG || e == LEADING + LENGTH_FLAG || e == TARGET + TARGET_FLAG
    ensures var row := Apply(d, e, b, capacity).value.row; row == e || row in {DIGITS, LEADING, TARGET}
  {
  }

  lemma RunSnoc(d: Option<Scanner>, s: Bytes, b: Byte, capacity: nat)
    ensures Run(d, s + [b], capacity) ==
            (match Run(d, s, capacity) case None => None case Some(e) => Step(e, b, capacity))
  {
    RunAppend(d, s, [b], capacity);
    var e := Run(d, s, capacity);
    if e.Some? {
      assert Run(e, [b], capacity) == Run(Step(e.value, b, capacity), [b][1..], capacity);
    }
  }

  lemma {:induction false} RunTrail(s: Bytes, capacity: nat)
    ensures var e := Run(Some(FRESH), s, capacity); e.Some? ==> Trail(s, e.value.row)
    decreases |s|
  {
    if s != [] {
      var p, b := s[..|s| - 1], s[|s| - 1];
      assert s == p + [b];
      RunSnoc(Some(FRESH), p, b, capacity);
      RunTrail(p, capacity);
      var e := Run(Some(FRESH), p, capacity);
      if e.Some? && Step(e.value, b, capacity).Some? {
        RowEntered(e.value, b, capacity);
      }
    }
  }

  /** A line feed not preceded by a carriage return is rejected. */
  lemma BareLf(d: Scanner, s: Bytes, capacity: nat)
    requires d.row == HEADERS || d.row == START
    requires s == [] || s[|s| - 1] != 13
    ensures Run(Some(d), s + [10], capacity) == None
  {
    RunSnoc(Some(d), s, 10, capacity);
    if s != [] {
      var p, b := s[..|s| - 1], s[|s| - 1];
      assert s == p + [b];
      RunSnoc(Some(d), p, b, capacity);
      var e := Run(Some(d), p, capacity);
      if e.Some? && Step(e.value, b, capacity).Some? {
        NotAfterCr(e.value, b, capacity);
      }
    }
  }

  lemma NotAfterCr(d: Scanner, b: Byte, capacity: nat)
    requires b != 13 && Step(d, b, capacity).Some?
    ensures Step(Step(d, b, capacity).value, 10, capacity) == None
  {
    RowEntered(d, b, capacity);
    LfRows(Step(d, b, capacity).value, capacity);
  }

  lemma LfRows(d: Scanner, capacity: nat)
    requires d.row != END_LF && d.row != VALUE_LF && d.row != VERSION_LF
    ensures Step(d, 10, capacity) == None
  {
  }

  // ----- lines -----

  /** One line of input, whichever way it ends. */
  lemma LineRun(d: Scanner, line: Bytes, capacity: nat)
    requires line != [] && line[|line| - 1] == 10 && (d.row == HEADERS || d.row == START)
    ensures StripCrlf(line).None? ==> Run(Some(d), line, capacity) == None
    ensures StripCrlf(line).Some? ==> line == StripCrlf(line).value + CRLF
  {
    var p := line[..|line| - 1];
    assert line == p + [10];
    if StripCrlf(line).None? {
      BareLf(d, p, capacity);
    }
  }

  /** A point of the request where a header line starts, `end` being the end of
      its first blank line. */
  predicate LineStart(data: Bytes, i: nat, end: nat) {
    && 2 <= i <= end - 2 && end >= 4 && BlankAt(data, end - 4) && data[i - 2..i] == CRLF
    && forall j: nat | j < end - 4 :: !BlankAt(data, j)
  }

  lemma TwoCrlf(data: Bytes, i: nat)
    requires 2 <= i <= |data| - 2 && data[i - 2..i] == CRLF && data[i..i + 2] == CRLF
    ensures BlankAt(data, i - 2)
  {
    assert data[i - 2..i + 2] == data[i - 2..i] + data[i..i + 2];
  }

  /** The next line of such a request: it is not blank, and another line start follows it. */
  lemma NextLine(data: Bytes, i: nat, end: nat) returns (n: nat)
    requires LineStart(data, i, end) && i < end - 2
    ensures n == IndexOf(data[i..end - 2], 10) && i + n + 1 <= end - 2 <= |data|
    ensures var l := StripCrlf(data[i..i + n + 1]); l.Some? ==> l.value != [] && LineStart(data, i + n + 1, end)
  {
    LastByte(data, i, end);
    n := LineFeedIn(data[i..end - 2]);
    if StripCrlf(data[i..i + n + 1]).Some? {
      NextStart(data, i, i + n + 1, end, data[i..i + n + 1]);
    }
  }

  lemma LineFeedIn(s: Bytes) returns (n: nat)
    requires s != [] && s[|s| - 1] == 10
    ensures n == IndexOf(s, 10) && n < |s|
  {
    n := IndexOf(s, 10);
  }

  /** After a line that ends in CRLF, and is not blank, another line starts. */
  lemma NextStart(data: Bytes, i: nat, m: nat, end: nat, line: Bytes)
    requires LineStart(data, i, end) && i < m <= end - 2 && line == data[i..m] && StripCrlf(line).Some?
    ensures StripCrlf(line).value != [] && LineStart(data, m, end)
  {
    LineEnds(data, i, m, line);
    if m == i + 2 {
      TwoCrlf(data, i);
    }
  }

  lemma LastByte(data: Bytes, i: nat, end: nat)
    requires end >= 4 && i < end - 2 && BlankAt(data, end - 4)
    ensures end <= |data| && var s := data[i..end - 2]; s != [] && s[|s| - 1] == 10
  {
    assert data[end - 4..end][1] == 10;
    assert data[end - 3] == 10;
  }

  lemma Slices(data: Bytes, i: nat, j: nat, n: nat)
    requires i + n <= j <= |data|
    ensures data[i..j][..n] == data[i..i + n] && data[i..j][n..] == data[i + n..j]
  {
  }

  lemma LineEnds(data: Bytes, i: nat, m: nat, line: Bytes)
    requires i < m <= |data| && line == data[i..m] && StripCrlf(line).Some?
    ensures m >= i + 2 && data[m - 2..m] == CRLF && (StripCrlf(line).value == [] <==> m == i + 2)
  {
    var n := m - i;
    assert |line| == n && line[n - 2..] == CRLF;
    assert data[m - 2..m] == line[n - 2..];
  }

  lemma OneLine(d: Scanner, s: Bytes, n: nat, capacity: nat)
    requires Ready(d, capacity) && n == IndexOf(s, 10) && n < |s|
    requires StripCrlf(s[..n + 1]).Some? ==> StripCrlf(s[..n + 1]).value != []
    ensures var l := StripCrlf(s[..n + 1]);
      Run(Some(d), s, capacity) ==
        if l.None? then None else Run(After(d, HeaderLine(l.value, Declared(d), capacity)), s[n + 1..], capacity)
  {
    var line, rest := s[..n + 1], s[n + 1..];
    assert s == line + rest;
    RunAppend(Some(d), line, rest, capacity);
    LineRun(d, line, capacity);
    if StripCrlf(line).Some? {
      assert NoLf(StripCrlf(line).value);
      HeaderRun(d, StripCrlf(line).value, capacity);
    }
  }

  /** One line and a tail on which the two readings agree. */
  lemma LineAndTail(d: Scanner, s: Bytes, n: nat, capacity: nat)
    requires Ready(d, capacity) && n == IndexOf(s, 10) && n < |s|
    requires LineThen(StripCrlf(s[..n + 1]), true)
    requires var l := StripCrlf(s[..n + 1]);
      l.Some? ==>
        var e := After(d, HeaderLine(l.value, Declared(d), capacity));
        e.Some? ==> Run(e, s[n + 1..], capacity) == After(e.value, HeaderLines(s[n + 1..], Declared(e.value), capacity))
    ensures Run(Some(d), s, capacity) == After(d, HeaderLines(s, Declared(d), capacity))
  {
    OneLine(d, s, n, capacity);
    HeaderLinesStep(s, n, Declared(d), capacity);
    var l := StripCrlf(s[..n + 1]);
    if l.Some? && HeaderLine(l.value, Declared(d), capacity).Some? {
      ReadyAfter(d, l.value, capacity);
    }
  }

  lemma HeaderLinesStep(s: Bytes, n: nat, length: Option<nat>, capacity: nat)
    requires n == IndexOf(s, 10) && n < |s|
    ensures var l := StripCrlf(s[..n + 1]);
      HeaderLines(s, length, capacity) ==
        if l.None? then None
        else
          var r := HeaderLine(l.value, length, capacity);
          if r.None? then None else HeaderLines(s[n + 1..], r.value, capacity)
  {
  }

  /** Whole lines, none of them blank as long as they all end in CRLF. */
  predicate WholeLines(s: Bytes)
    decreases |s|, 1
  {
    s == [] || WholeFrom(s, IndexOf(s, 10))
  }

  /** The first line ends at `n`, and whole lines follow it. */
  predicate WholeFrom(s: Bytes, n: nat)
    decreases |s|, 0
  {
    n < |s| && LineThen(StripCrlf(s[..n + 1]), WholeLines(s[n + 1..]))
  }

  predicate LineThen(l: Option<Bytes>, rest: bool) { l.Some? ==> l.value != [] && rest }

  lemma {:induction false} LinesFrom(data: Bytes, i: nat, end: nat)
    requires LineStart(data, i, end)
    ensures WholeLines(data[i..end - 2])
    decreases end - i
  {
    if i < end - 2 {
      var n := NextLine(data, i, end);
      Slices(data, i, end - 2, n + 1);
      if StripCrlf(data[i..i + n + 1]).Some? {
        LinesFrom(data, i + n + 1, end);
      }
      WholeStep(data[i..end - 2], n, data[i..i + n + 1], data[i + n + 1..end - 2]);
    }
  }

  lemma WholeStep(s: Bytes, n: nat, line: Bytes, rest: Bytes)
    requires n < |s| && IndexOf(s, 10) == n && s[..n + 1] == line && s[n + 1..] == rest
    requires LineThen(StripCrlf(line), WholeLines(rest))
    ensures WholeLines(s)
  {
  }

  /** All header lines: automaton and parser accept alike and declare alike. */
  lemma {:induction false} HeadersRun(s: Bytes, d: Scanner, capacity: nat)
    requires WholeLines(s) && Ready(d, capacity)
    ensures Run(Some(d), s, capacity) == After(d, HeaderLines(s, Declared(d), capacity))
    decreases |s|, 1
  {
    if s != [] {
      var n := IndexOf(s, 10);
      assert WholeFrom(s, n);
      TailRun(s, n, d, capacity);
      LineAndTail(d, s, n, capacity);
    }
  }

  /** The lines after the first, from where the first one leaves the scanner. */
  lemma {:induction false} TailRun(s: Bytes, n: nat, d: Scanner, capacity: nat)
    requires WholeFrom(s, n) && Ready(d, capacity)
    ensures var l := StripCrlf(s[..n + 1]);
      l.Some? ==>
        var e := After(d, HeaderLine(l.value, Declared(d), capacity));
        e.Some? ==> Run(e, s[n + 1..], capacity) == After(e.value, HeaderLines(s[n + 1..], Declared(e.value), capacity))
    decreases |s|, 0
  {
    var l := StripCrlf(s[..n + 1]);
    if l.Some? {
      var r := HeaderLine(l.value, Declared(d), capacity);
      if r.Some? {
        ReadyAfter(d, l.value, capacity);
        HeadersRun(s[n + 1..], After(d, r).value, capacity);
      }
    }
  }

  lemma ReadyAfter(d: Scanner, l: Bytes, capacity: nat)
    requires Ready(d, capacity) && HeaderLine(l, Declared(d), capacity).Some?
    ensures var r := HeaderLine(l, Declared(d), capacity);
      Ready(After(d, r).value, capacity) && Declared(After(d, r).value) == r.value
  {
    var colon := IndexOf(l, 58);
    DecimalBound(TrimEnd(TrimStart(l[colon + 1..])), 0, capacity);
  }

  lemma DecimalBound(s: Bytes, n: nat, capacity: nat)
    requires n <= capacity
    ensures var r := Decimal(s, n, capacity); r.Some? ==> r.value <= capacity
    decreases |s|
  {
  }

  lemma FirstLine(s: Bytes, n: nat, capacity: nat)
    requires n == IndexOf(s, 10) && n < |s|
    ensures var l := StripCrlf(s[..n + 1]);
      Run(Some(FRESH), s, capacity) ==
        if l.None? || !RequestOk(l.value) then None
        else Run(Some(Scanner(HEADERS, false, 0, |Split(l.value, 32)[1]|)), s[n + 1..], capacity)
  {
    var line, rest := s[..n + 1], s[n + 1..];
    assert s == line + rest;
    RunAppend(Some(FRESH), line, rest, capacity);
    LineRun(FRESH, line, capacity);
    if StripCrlf(line).Some? {
      assert NoLf(StripCrlf(line).value);
      RequestRun(StripCrlf(line).value, capacity);
    }
  }

  /** Request line and headers together, up to the blank line. */
  lemma HeadRun(data: Bytes, end: nat, capacity: nat) returns (path: nat)
    requires end >= 4 && BlankAt(data, end - 4) && forall j: nat | j < end - 4 :: !BlankAt(data, j)
    ensures Run(Some(FRESH), data[..end - 2], capacity) == After(FRESH.(path := path), Head(data[..end - 2], capacity))
    ensures path <= PATH_LIMIT
  {
    var s := data[..end - 2];
    assert s == data[0..end - 2];
    LastByte(data, 0, end);
    var n := LineFeedIn(s);
    FirstLine(s, n, capacity);
    HeadStep(s, n, capacity);
    path := 0;
    var l := StripCrlf(s[..n + 1]);
    if l.Some? && RequestOk(l.value) {
      path := |Split(l.value, 32)[1]|;
      HeadRest(data, n, end, path, capacity);
    }
  }

  /** The header lines, after a request line that ends at `n`. */
  lemma HeadRest(data: Bytes, n: nat, end: nat, path: nat, capacity: nat)
    requires end >= 4 && BlankAt(data, end - 4) && forall j: nat | j < end - 4 :: !BlankAt(data, j)
    requires n < end - 2 && StripCrlf(data[..end - 2][..n + 1]).Some? && path <= PATH_LIMIT
    ensures var d, rest := Scanner(HEADERS, false, 0, path), data[..end - 2][n + 1..];
      Run(Some(d), rest, capacity) == After(d, HeaderLines(rest, None, capacity))
  {
    SecondLine(data, n, end);
    LinesFrom(data, n + 1, end);
    HeadersRun(data[n + 1..end - 2], Scanner(HEADERS, false, 0, path), capacity);
  }

  lemma HeadStep(s: Bytes, n: nat, capacity: nat)
    requires n == IndexOf(s, 10) && n < |s|
    ensures var l := StripCrlf(s[..n + 1]);
      Head(s, capacity) == if l.None? || !RequestOk(l.value) then None else HeaderLines(s[n + 1..], None, capacity)
  {
  }

  lemma SecondLine(data: Bytes, n: nat, end: nat)
    requires end >= 4 && BlankAt(data, end - 4) && (forall j: nat | j < end - 4 :: !BlankAt(data, j))
    requires n < end - 2 && StripCrlf(data[..end - 2][..n + 1]).Some?
    ensures LineStart(data, n + 1, end) && data[..end - 2][n + 1..] == data[n + 1..end - 2]
  {
    var line := data[..end - 2][..n + 1];
    assert line[n - 1..] == CRLF && data[n - 1..n + 1] == line[n - 1..];
  }

  /** The blank line itself finishes the scan. */
  lemma Finish(d: Scanner, capacity: nat)
    requires d.row == HEADERS && Sane(d, capacity)
    ensures Run(Some(d), CRLF, capacity) == Some(d.(row := DONE))
  {
    RunCrlf(d, capacity);
    PlainStep(d, 13, capacity);
    PlainStep(d.(row := END_LF), 10, capacity);
  }

  lemma HeaderLineBound(l: Bytes, length: Option<nat>, capacity: nat)
    requires length.Some? ==> length.value <= capacity
    ensures var r := HeaderLine(l, length, capacity); r.Some? && r.value.Some? ==> r.value.value <= capacity
  {
    if HeaderLine(l, length, capacity).Some? {
      DecimalBound(TrimEnd(TrimStart(l[IndexOf(l, 58) + 1..])), 0, capacity);
    }
  }

  lemma {:induction false} HeaderLinesBound(s: Bytes, length: Option<nat>, capacity: nat)
    requires length.Some? ==> length.value <= capacity
    ensures var r := HeaderLines(s, length, capacity); r.Some? && r.value.Some? ==> r.value.value <= capacity
    decreases |s|
  {
    if s != [] {
      var n := IndexOf(s, 10);
      var line := if n < |s| then s[..n + 1] else s;
      if StripCrlf(line).Some? {
        var l := StripCrlf(line).value;
        var r := HeaderLine(l, length, capacity);
        if r.Some? {
          HeaderLineBound(l, length, capacity);
          HeaderLinesBound(s[|line|..], r.value, capacity);
        }
      }
    }
  }

  lemma HeadBound(s: Bytes, capacity: nat)
    ensures var r := Head(s, capacity); r.Some? && r.value.Some? ==> r.value.value <= capacity
  {
    var n := IndexOf(s, 10);
    var line := if n < |s| then s[..n + 1] else s;
    HeaderLinesBound(s[|line|..], None, capacity);
  }

  /** The run over everything up to and including the first blank line. */
  lemma BlankRun(data: Bytes, end: nat, capacity: nat)
    requires end >= 4 && BlankAt(data, end - 4) && forall j: nat | j < end - 4 :: !BlankAt(data, j)
    ensures var r, h := Run(Some(FRESH), data[..end], capacity), Head(data[..end - 2], capacity);
      if h.None? then r == None
      else r.Some? && r.value.row == DONE && r.value.length == (if h.value.Some? then h.value.value else 0)
  {
    var path := HeadRun(data, end, capacity);
    var head := data[..end - 2];
    assert data[..end] == head + CRLF by {
      assert data[end - 2..end] == data[end - 4..end][2..];
    }
    RunAppend(Some(FRESH), head, CRLF, capacity);
    HeadBound(head, capacity);
    var d := After(FRESH.(path := path), Head(head, capacity));
    if d.Some? {
      Finish(d.value, capacity);
    }
  }

  // ----- verdicts -----

  /** A run that finishes has just read a blank line. */
  lemma DoneMeansBlank(s: Bytes, n: nat, capacity: nat)
    requires n <= |s|
    requires var r := Run(Some(FRESH), s[0..n], capacity); r.Some? && r.value.row == DONE
    ensures n >= 4 && BlankAt(s, n - 4)
  {
    RunTrail(s[0..n], capacity);
    assert s[n - 4..n] == s[0..n][n - 4..];
  }

  /** Without a blank line the scan never finishes. */
  lemma OpenScan(s: Bytes, capacity: nat)
    requires forall j: nat :: !BlankAt(s, j)
    ensures var (d, n) := Scan(Some(FRESH), s, 0, capacity); d.Some? ==> d.value.row != DONE
  {
    var (d, n) := Scan(Some(FRESH), s, 0, capacity);
    ScanIsRun(Some(FRESH), s, 0, capacity);
    if d.Some? && d.value.row == DONE {
      DoneMeansBlank(s, n, capacity);
    }
  }

  /** With a first blank line the scan stops there, or rejects by then. */
  lemma BlankScan(s: Bytes, end: nat, capacity: nat)
    requires end >= 4 && BlankAt(s, end - 4) && forall j: nat | j < end - 4 :: !BlankAt(s, j)
    ensures var (d, n) := Scan(Some(FRESH), s, 0, capacity); var h := Head(s[..end - 2], capacity);
      if h.None? then d == None
      else d.Some? && d.value.row == DONE && n == end && d.value.length == (if h.value.Some? then h.value.value else 0)
  {
    var (d, n) := Scan(Some(FRESH), s, 0, capacity);
    ScanIsRun(Some(FRESH), s, 0, capacity);
    BlankRun(s, end, capacity);
    if d.None? {
      RejectedBefore(s, end, capacity);
    } else if d.value.row != DONE {
      assert s[0..n] == s;
      PastBlank(s, end, |s|, capacity);
    } else {
      DoneMeansBlank(s, n, capacity);
      assert s[0..n] == s[..n];
      PastBlank(s, end, n, capacity);
    }
  }

  /** A run accepted at or after the blank line ends at it, and is finished. */
  lemma PastBlank(s: Bytes, end: nat, n: nat, capacity: nat)
    requires end <= n <= |s|
    requires var r := Run(Some(FRESH), s[..end], capacity); r.Some? ==> r.value.row == DONE
    ensures Run(Some(FRESH), s[..n], capacity).Some? ==> n == end
  {
    if n > end {
      assert s[..end] + s[end..n] == s[..n];
      RunAppend(Some(FRESH), s[..end], s[end..n], capacity);
      var r := Run(Some(FRESH), s[..end], capacity);
      if r.Some? {
        DoneIsFinal(r.value, s[end..n], capacity);
      }
    }
  }

  /** A rejecting scan rejected some prefix, so no longer prefix is accepted. */
  lemma RejectedBefore(s: Bytes, end: nat, capacity: nat)
    requires end <= |s| && Scan(Some(FRESH), s, 0, capacity).0 == None
    requires end >= 4 && BlankAt(s, end - 4) && forall j: nat | j < end - 4 :: !BlankAt(s, j)
    ensures Run(Some(FRESH), s[..end], capacity) == None
  {
    var r := Run(Some(FRESH), s[..end], capacity);
    if r.Some? {
      BlankRun(s, end, capacity);
      assert s[..end] == s[0..end];
      ScanReaches(Some(FRESH), s, 0, end, capacity);
      assert false;
    }
  }

  /** A run that finishes at `end` is found by the scan no later than there. */
  lemma {:induction false} ScanReaches(d: Option<Scanner>, s: Bytes, i: nat, end: nat, capacity: nat)
    requires i <= end <= |s|
    requires var r := Run(d, s[i..end], capacity); r.Some? && r.value.row == DONE
    ensures Scan(d, s, i, capacity).0.Some?
    decreases end - i
  {
    if i < end && d.value.row != DONE {
      assert s[i..end][1..] == s[i + 1..end];
      ScanReaches(Step(d.value, s[i], capacity), s, i + 1, end, capacity);
    }
  }

  /** The receiver and the parser, on the bytes the receiver can hold. */
  lemma DriveIsReference(s: Bytes, capacity: nat)
    requires |s| <= capacity
    ensures FindEnd(s, 0).Some? ==> Drive(s, capacity) == Reference(s, capacity)
    ensures FindEnd(s, 0).None? ==> Drive(s, capacity) == Reference(s, capacity) || Drive(s, capacity) == Invalid
  {
    var e := FindEnd(s, 0);
    if e.Some? {
      BlankVerdict(s, e.value, capacity);
    } else {
      OpenVerdict(s, capacity);
    }
  }

  lemma BlankVerdict(s: Bytes, end: nat, capacity: nat)
    requires |s| <= capacity && FindEnd(s, 0) == Some(end)
    ensures Drive(s, capacity) == Reference(s, capacity)
  {
    BlankScan(s, end, capacity);
    var (d, n) := Scan(Some(FRESH), s, 0, capacity);
    VerdictAgrees(d, n, Head(s[..end - 2], capacity), end, |s|, capacity);
  }

  lemma VerdictAgrees(d: Option<Scanner>, n: nat, h: Option<Option<nat>>, end: nat, have: nat, capacity: nat)
    requires if h.None? then d == None
      else d.Some? && d.value.row == DONE && n == end && d.value.length == (if h.value.Some? then h.value.value else 0)
    ensures Verdict(d, n, have, capacity) == HeadVerdict(h, end, have, capacity)
  {
  }

  lemma OpenVerdict(s: Bytes, capacity: nat)
    requires |s| <= capacity && FindEnd(s, 0) == None
    ensures Drive(s, capacity) == Reference(s, capacity) || Drive(s, capacity) == Invalid
  {
    OpenScan(s, capacity);
  }

  /** Completion, with its total, is the same for both, on every input. */
  lemma CompletesAlike(data: Bytes, capacity: nat, n: nat)
    ensures Drive(data, capacity) == Complete(n) <==> Reference(data, capacity) == Complete(n)
  {
    var s := Received(data, capacity);
    DriveIsReference(s, capacity);
    assert Drive(data, capacity) == Drive(s, capacity);
    TruncatedReference(data, capacity);
  }

  lemma BlankInPrefix(data: Bytes, n: nat, j: nat)
    requires n <= |data|
    ensures BlankAt(data[..n], j) <==> j + 4 <= n && BlankAt(data, j)
  {
    if j + 4 <= n {
      assert data[..n][j..j + 4] == data[j..j + 4];
    }
  }

  lemma EndInPrefix(data: Bytes, n: nat)
    requires n <= |data|
    ensures var e := FindEnd(data, 0); FindEnd(data[..n], 0) == if e.Some? && e.value <= n then e else None
  {
    forall j: nat { BlankInPrefix(data, n, j); }
  }

  /** Bytes beyond the capacity decide nothing. */
  lemma TruncatedReference(data: Bytes, capacity: nat)
    ensures Reference(data, capacity) == Reference(Received(data, capacity), capacity)
  {
    if |data| > capacity {
      EndInPrefix(data, capacity);
      var e := FindEnd(data, 0);
      if e.Some? && e.value <= capacity {
        assert data[..e.value - 2] == data[..capacity][..e.value - 2];
      }
    }
  }

  /** A refusal by the parser is a refusal by the receiver, which may only come
      to it earlier: it never waits for more where the parser would not. */
  lemma RefusesAtLeast(data: Bytes, capacity: nat)
    ensures Reference(data, capacity) == Invalid ==> Drive(data, capacity) == Invalid
    ensures Drive(data, capacity) == More ==> Reference(data, capacity) == More
  {
    var s := Received(data, capacity);
    DriveIsReference(s, capacity);
    assert Drive(data, capacity) == Drive(s, capacity);
    TruncatedReference(data, capacity);
    if FindEnd(s, 0).None? {
      OpenScan(s, capacity);
    }
  }

  /** Early refusal is final: once the automaton rejects, no continuation of the
      input is ever complete for either. */
  lemma RejectionIsFinal(data: Bytes, more: Bytes, capacity: nat)
    requires Scan(Some(FRESH), Received(data, capacity), 0, capacity).0 == None
    ensures !Drive(data + more, capacity).Complete? && !Reference(data + more, capacity).Complete?
  {
    VerdictStays(data, more, capacity);
    if Reference(data + more, capacity).Complete? {
      CompletesAlike(data + more, capacity, Reference(data + more, capacity).total);
    }
  }

  /** A request received in any pieces completes exactly when the parser
      completes on its bytes, and with the same length. */
  lemma PiecesCompleteAlike(chunks: seq<Bytes>, capacity: nat, n: nat)
    requires forall i | 0 <= i < |chunks| :: chunks[i] != []
    ensures Session([], chunks, capacity) == Complete(n) <==> Reference(Joined(chunks), capacity) == Complete(n)
  {
    AnySplit([], chunks, capacity);
    assert [] + Joined(chunks) == Joined(chunks);
    CompletesAlike(Joined(chunks), capacity, n);
  }
}
