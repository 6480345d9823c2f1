/** The automaton with its actions agrees with the line-based parser. */
module HttpSound {
  import opened Ast
  import opened HttpDfa
  import opened HttpDriver
  import opened HttpReference

  predicate NoLf(s: Bytes) { forall i | 0 <= i < |s| :: s[i] != 10 }

  lemma RunCons(d: Scanner, s: Bytes, t: Bytes, capacity: nat)
    requires s != []
    ensures Run(Some(d), s + t, capacity) == Run(Step(d, s[0], capacity), s[1..] + t, capacity)
  {
    assert (s + t)[1..] == s[1..] + t;
  }

  lemma RunCrlf(d: Scanner, capacity: nat)
    ensures Run(Some(d), CRLF, capacity) ==
            (match Step(d, 13, capacity) case None => None case Some(e) => Step(e, 10, capacity))
  {
    assert CRLF[1..] == [10] && [10][1..] == [];
    var e := Step(d, 13, capacity);
    if e.Some? {
      assert Run(e, [10], capacity) == Run(Step(e.value, 10, capacity), [], capacity);
    }
  }

  /** After an unexpected carriage return, only a line feed could follow. */
  lemma StrayCr(d: Scanner, s: Bytes, capacity: nat)
    requires d.row == VALUE_LF || d.row == END_LF || d.row == VERSION_LF
    requires NoLf(s) && d.length <= capacity && d.path <= PATH_LIMIT
    ensures s != [] ==> Run(Some(d), s + CRLF, capacity) == None
    ensures s == [] ==> Run(Some(d), s + CRLF, capacity) == None
  {
    var t := s + CRLF;
    assert t[0] != 10;
    assert Step(d, t[0], capacity) == None;
  }

  // ----- header values -----

  predicate Sane(d: Scanner, capacity: nat) { d.length <= capacity && d.path <= PATH_LIMIT }

  lemma {:induction false} ValueRun(d: Scanner, v: Bytes, capacity: nat)
    requires d.row == VALUE && NoLf(v) && Sane(d, capacity)
    ensures Run(Some(d), v + CRLF, capacity) == if All(v, FieldChar) then Some(d.(row := HEADERS)) else None
    decreases |v|
  {
    if v == [] {
      assert v + CRLF == CRLF;
      RunCrlf(d, capacity);
    } else {
      RunCons(d, v, CRLF, capacity);
      if v[0] == 13 {
        StrayCr(d.(row := VALUE_LF), v[1..], capacity);
      } else if FieldChar(v[0]) {
        ValueRun(d, v[1..], capacity);
        assert All(v, FieldChar) <==> All(v[1..], FieldChar);
      }
    }
  }

  lemma {:induction false} TrailRun(d: Scanner, v: Bytes, capacity: nat)
    requires d.row == TRAILING && NoLf(v) && Sane(d, capacity)
    ensures Run(Some(d), v + CRLF, capacity) == if All(v, Blank) then Some(d.(row := HEADERS)) else None
    decreases |v|
  {
    if v == [] {
      assert v + CRLF == CRLF;
      RunCrlf(d, capacity);
    } else {
      RunCons(d, v, CRLF, capacity);
      if v[0] == 13 {
        StrayCr(d.(row := VALUE_LF), v[1..], capacity);
      } else if Blank(v[0]) {
        TrailRun(d, v[1..], capacity);
        assert All(v, Blank) <==> All(v[1..], Blank);
      }
    }
  }

  /** Digits, then blanks to the end. */
  function DigitTail(v: Bytes, n: nat, capacity: nat): Option<nat> {
    if v == [] then Some(n)
    else if Digit(v[0]) then
      (if 10 * n + (v[0] - 48) > capacity then None else DigitTail(v[1..], 10 * n + (v[0] - 48), capacity))
    else if All(v, Blank) then Some(n)
    else None
  }

  lemma DigitStep(d: Scanner, b: Byte, capacity: nat)
    requires (d.row == DIGITS || d.row == LEADING) && Sane(d, capacity) && Digit(b)
    ensures var n := 10 * d.length + (b - 48);
      Step(d, b, capacity) == if n > capacity then None else Some(d.(row := DIGITS, length := n))
  {
  }

  lemma BlankStep(d: Scanner, b: Byte, capacity: nat)
    requires (d.row == DIGITS || d.row == LEADING) && Sane(d, capacity) && Blank(b)
    ensures Step(d, b, capacity) == Some(d.(row := if d.row == DIGITS then TRAILING else LEADING))
  {
  }

  lemma OtherStep(d: Scanner, b: Byte, capacity: nat)
    requires (d.row == DIGITS || d.row == LEADING) && Sane(d, capacity) && !Blank(b) && !Digit(b)
    ensures Step(d, b, capacity) == if d.row == DIGITS && b == 13 then Some(d.(row := VALUE_LF)) else None
  {
  }

  lemma DigitTailCases(v: Bytes, n: nat, capacity: nat)
    requires v != [] && !Digit(v[0])
    ensures DigitTail(v, n, capacity) == if Blank(v[0]) && All(v[1..], Blank) then Some(n) else None
  {
    assert All(v, Blank) <==> Blank(v[0]) && All(v[1..], Blank) by {
      if Blank(v[0]) && All(v[1..], Blank) {
        forall i | 0 <= i < |v| ensures Blank(v[i]) { if i > 0 { assert v[i] == v[1..][i - 1]; } }
      }
      if All(v, Blank) {
        forall i | 0 <= i < |v[1..]| ensures Blank(v[1..][i]) { assert v[1..][i] == v[i + 1]; }
      }
    }
  }

  lemma DigitEnd(d: Scanner, v: Bytes, capacity: nat)
    requires d.row == DIGITS && NoLf(v) && Sane(d, capacity) && v != [] && !Digit(v[0])
    ensures Run(Some(d), v + CRLF, capacity) ==
            (match DigitTail(v, d.length, capacity)
             case None => None
             case Some(n) => Some(d.(row := HEADERS, length := n)))
  {
    RunCons(d, v, CRLF, capacity);
    DigitTailCases(v, d.length, capacity);
    if Blank(v[0]) {
      BlankStep(d, v[0], capacity);
      TrailRun(d.(row := TRAILING), v[1..], capacity);
    } else {
      OtherStep(d, v[0], capacity);
      StrayCr(d.(row := VALUE_LF), v[1..], capacity);
    }
  }

  lemma {:induction false} DigitRun(d: Scanner, v: Bytes, capacity: nat)
    requires d.row == DIGITS && NoLf(v) && Sane(d, capacity)
    ensures Run(Some(d), v + CRLF, capacity) == DigitResult(d, DigitTail(v, d.length, capacity))
    decreases |v|
  {
    if v == [] {
      DigitsOver(d, capacity);
      assert v + CRLF == CRLF;
    } else if !Digit(v[0]) {
      DigitEnd(d, v, capacity);
    } else {
      RunCons(d, v, CRLF, capacity);
      DigitStep(d, v[0], capacity);
      var n := 10 * d.length + (v[0] - 48);
      if n <= capacity {
        DigitRun(d.(length := n), v[1..], capacity);
      }
    }
  }

  function DigitResult(d: Scanner, r: Option<nat>): Option<Scanner> {
    match r case None => None case Some(n) => Some(d.(row := HEADERS, length := n))
  }

  lemma DigitsOver(d: Scanner, capacity: nat)
    requires d.row == DIGITS && Sane(d, capacity)
    ensures Run(Some(d), CRLF, capacity) == DigitResult(d, DigitTail([], d.length, capacity))
  {
    RunCrlf(d, capacity);
    OtherStep(d, 13, capacity);
  }

  /** Blanks, then at least one digit. */
  function LeadTail(v: Bytes, capacity: nat): Option<nat> {
    if v == [] then None
    else if Blank(v[0]) then LeadTail(v[1..], capacity)
    else if Digit(v[0]) then DigitTail(v, 0, capacity)
    else None
  }

  lemma {:induction false} LeadRun(d: Scanner, v: Bytes, capacity: nat)
    requires d.row == LEADING && NoLf(v) && Sane(d, capacity) && d.length == 0
    ensures Run(Some(d), v + CRLF, capacity) ==
            (match LeadTail(v, capacity) case None => None case Some(n) => Some(d.(row := HEADERS, length := n)))
    decreases |v|
  {
    if v == [] {
      assert v + CRLF == CRLF;
      RunCrlf(d, capacity);
    } else {
      RunCons(d, v, CRLF, capacity);
      if Blank(v[0]) {
        BlankStep(d, v[0], capacity);
        LeadRun(d, v[1..], capacity);
      } else if Digit(v[0]) {
        DigitStep(d, v[0], capacity);
        if v[0] - 48 <= capacity {
          DigitRun(d.(row := DIGITS, length := v[0] - 48), v[1..], capacity);
        }
      } else {
        OtherStep(d, v[0], capacity);
      }
    }
  }

  // ----- the two readings of a Content-Length value -----

  lemma TrimEndBlank(v: Bytes)
    requires All(v, Blank)
    ensures TrimEnd(v) == []
    decreases |v|
  {
    if v != [] {
      TrimEndBlank(v[..|v| - 1]);
    }
  }

  /** Trimming the end of a nonblank value keeps its first byte. */
  lemma {:induction false} TrimEndCons(v: Bytes)
    requires v != [] && (!AsciiSpace(v[0]) || exists i | 0 <= i < |v| :: !AsciiSpace(v[i]))
    ensures TrimEnd(v) != [] && TrimEnd(v)[0] == v[0]
    ensures TrimEnd(v) == [v[0]] + TrimEnd(v[1..])
    decreases |v|
  {
    if !AsciiSpace(v[|v| - 1]) {
      if |v| == 1 {
      } else {
        assert v[1..][|v| - 2] == v[|v| - 1];
      }
    } else {
      var w := v[..|v| - 1];
      if |v| > 1 {
        assert w[0] == v[0];
        if AsciiSpace(v[0]) {
          var i :| 0 <= i < |v| && !AsciiSpace(v[i]);
          assert w[i] == v[i];
        }
        TrimEndCons(w);
        assert v[1..][..|v| - 2] == w[1..];
      }
    }
  }

  lemma {:induction false} DigitTailIsDecimal(v: Bytes, n: nat, capacity: nat)
    requires All(v, FieldChar)
    ensures DigitTail(v, n, capacity) == Decimal(TrimEnd(v), n, capacity)
    decreases |v|
  {
    if v == [] {
    } else if All(v, Blank) {
      TrimEndBlank(v);
    } else {
      var i :| 0 <= i < |v| && !Blank(v[i]);
      assert !AsciiSpace(v[i]);
      TrimEndCons(v);
      assert All(v[1..], FieldChar);
      assert TrimEnd(v)[1..] == TrimEnd(v[1..]);
      if Digit(v[0]) && 10 * n + (v[0] - 48) <= capacity {
        DigitTailIsDecimal(v[1..], 10 * n + (v[0] - 48), capacity);
      }
    }
  }

  lemma {:induction false} LeadTailIsParse(v: Bytes, capacity: nat)
    requires All(v, FieldChar)
    ensures LeadTail(v, capacity) == ParseLength(v, capacity)
    decreases |v|
  {
    if v == [] {
    } else if Blank(v[0]) {
      assert All(v[1..], FieldChar);
      LeadTailIsParse(v[1..], capacity);
    } else {
      assert !AsciiSpace(v[0]) && TrimStart(v) == v;
      TrimEndCons(v);
      DigitTailIsDecimal(v, 0, capacity);
    }
  }

  lemma {:induction false} LeadTailClean(v: Bytes, capacity: nat)
    requires LeadTail(v, capacity).Some?
    ensures All(v, FieldChar)
    decreases |v|
  {
    if Blank(v[0]) {
      LeadTailClean(v[1..], capacity);
    } else {
      DigitTailClean(v, 0, capacity);
    }
  }

  lemma {:induction false} DigitTailClean(v: Bytes, n: nat, capacity: nat)
    requires DigitTail(v, n, capacity).Some?
    ensures All(v, FieldChar)
    decreases |v|
  {
    if v != [] && Digit(v[0]) {
      DigitTailClean(v[1..], 10 * n + (v[0] - 48), capacity);
    }
  }
}
