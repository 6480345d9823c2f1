/** Header names, whole header lines and the request line, read by the automaton. */
module HttpLines {
  import opened Ast
  import opened HttpDfa
  import opened HttpDriver
  import opened HttpReference
  import opened HttpSound

  // ----- header names -----

  predicate PrefixOf(name: Bytes, known: seq<int>) {
    |name| <= |known| && forall i | 0 <= i < |name| :: Lower(name[i]) == known[i]
  }

  /** The row reached after a nonempty run of token bytes. */
  function NameState(name: Bytes): nat {
    if PrefixOf(name, CONTENT_LENGTH) then 10 + |name|
    else if PrefixOf(name, TRANSFER_ENCODING) then 24 + |name|
    else if PrefixOf(name, EXPECT) then 41 + |name|
    else NAME
  }

  lemma PrefixSnoc(name: Bytes, b: Byte, known: seq<int>)
    ensures PrefixOf(name + [b], known) <==> PrefixOf(name, known) && |name| < |known| && Lower(b) == known[|name|]
  {
    var n := name + [b];
    if PrefixOf(n, known) {
      assert forall i | 0 <= i < |name| :: n[i] == name[i];
      assert n[|name|] == b;
    }
  }

  /** Distinct first letters keep the three names apart. */
  lemma NamesApart(name: Bytes)
    requires name != []
    ensures PrefixOf(name, CONTENT_LENGTH) ==> !PrefixOf(name, TRANSFER_ENCODING) && !PrefixOf(name, EXPECT)
    ensures PrefixOf(name, TRANSFER_ENCODING) ==> !PrefixOf(name, EXPECT)
  {
    assert PrefixOf(name, CONTENT_LENGTH) ==> Lower(name[0]) == 99;
    assert PrefixOf(name, TRANSFER_ENCODING) ==> Lower(name[0]) == 116;
    assert PrefixOf(name, EXPECT) ==> Lower(name[0]) == 101;
  }

  function KnownIndex(name: Bytes): (r: Option<nat>)
    ensures r.Some? ==> r.value < 3
  {
    if PrefixOf(name, CONTENT_LENGTH) then Some(0)
    else if PrefixOf(name, TRANSFER_ENCODING) then Some(1)
    else if PrefixOf(name, EXPECT) then Some(2)
    else None
  }

  lemma NameStateRow(name: Bytes, b: Byte)
    requires name != []
    ensures Delta(NameState(name), b) ==
            (match KnownIndex(name) case None => NameRow(b) case Some(i) => TrieRow(Known(i), |name|, b))
  {
  }

  lemma NameStep(name: Bytes, b: Byte)
    requires name != [] && Token(b)
    ensures Delta(NameState(name), b) == NameState(name + [b])
  {
    NameStateRow(name, b);
    PrefixSnoc(name, b, CONTENT_LENGTH);
    PrefixSnoc(name, b, TRANSFER_ENCODING);
    PrefixSnoc(name, b, EXPECT);
    NamesApart(name);
  }

  lemma NameStart(b: Byte)
    requires Token(b)
    ensures Delta(HEADERS, b) == NameState([b])
  {
    PrefixSnoc([], b, CONTENT_LENGTH);
    PrefixSnoc([], b, TRANSFER_ENCODING);
    PrefixSnoc([], b, EXPECT);
    assert [] + [b] == [b];
  }

  lemma NameReject(name: Bytes, b: Byte)
    requires name != [] && !Token(b) && b != 58
    ensures Delta(NameState(name), b) == 0
  {
    NameStateRow(name, b);
    var i := KnownIndex(name);
    if i.Some? && |name| < |Known(i.value).name| && Lower(b) == Known(i.value).name[|name|] {
      TokenNames(i.value, |name|, b);
    }
  }

  /** Known names are made of token bytes only. */
  lemma TokenNames(i: nat, k: nat, b: Byte)
    requires i < 3 && k < |Known(i).name| && Lower(b) == Known(i).name[k]
    ensures Token(b)
  {
    assert LowerName(Known(i).name);
  }

  lemma NameColon(name: Bytes)
    requires name != []
    ensures Delta(NameState(name), 58) ==
            if SameName(name, CONTENT_LENGTH) then LEADING + LENGTH_FLAG
            else if SameName(name, TRANSFER_ENCODING) || SameName(name, EXPECT) then 0
            else VALUE
  {
    NameStateRow(name, 58);
    NamesApart(name);
    var i := KnownIndex(name);
    if i.Some? && |name| < |Known(i.value).name| && Lower(58) == Known(i.value).name[|name|] {
      TokenNames(i.value, |name|, 58);
    }
  }

  lemma PlainStep(d: Scanner, b: Byte, capacity: nat)
    requires Sane(d, capacity)
    ensures var e := Delta(d.row, b); 0 < e < STATE_SIZE ==> Step(d, b, capacity) == Some(d.(row := e))
  {
  }

  lemma {:induction false} NameScan(d: Scanner, done: Bytes, rest: Bytes, capacity: nat)
    requires done != [] && d.row == NameState(done) && Sane(d, capacity)
    requires forall i | 0 <= i < |rest| :: rest[i] != 58
    ensures Run(Some(d), rest, capacity) == if All(rest, Token) then Some(d.(row := NameState(done + rest))) else None
    decreases |rest|
  {
    if rest == [] {
      assert done + rest == done;
    } else if Token(rest[0]) {
      NameStep(done, rest[0]);
      PlainStep(d, rest[0], capacity);
      var done' := done + [rest[0]];
      NameScan(d.(row := NameState(done')), done', rest[1..], capacity);
      assert done' + rest[1..] == done + rest;
      AllCons(rest, Token);
    } else {
      NameReject(done, rest[0]);
    }
  }

  lemma AllCons(s: Bytes, p: int -> bool)
    requires s != []
    ensures All(s, p) <==> p(s[0]) && All(s[1..], p)
  {
    if p(s[0]) && All(s[1..], p) {
      forall i | 0 <= i < |s|
        ensures p(s[i])
      {
        if i > 0 { assert s[i] == s[1..][i - 1]; }
      }
    }
    if All(s, p) {
      forall i | 0 <= i < |s[1..]|
        ensures p(s[1..][i])
      {
        assert s[1..][i] == s[i + 1];
      }
    }
  }

  /** A whole header name from the start of a line. */
  lemma NameRun(d: Scanner, name: Bytes, capacity: nat)
    requires d.row == HEADERS && name != [] && name[0] != 13 && Sane(d, capacity)
    requires forall i | 0 <= i < |name| :: name[i] != 58
    ensures Run(Some(d), name, capacity) == if All(name, Token) then Some(d.(row := NameState(name))) else None
  {
    AllCons(name, Token);
    if Token(name[0]) {
      NameStart(name[0]);
      PlainStep(d, name[0], capacity);
      NameScan(d.(row := NameState([name[0]])), [name[0]], name[1..], capacity);
      assert [name[0]] + name[1..] == name;
    } else {
      assert Delta(HEADERS, name[0]) == 0;
    }
  }

  // ----- header lines -----

  function Declared(d: Scanner): Option<nat> { if d.seen then Some(d.length) else None }

  predicate Ready(d: Scanner, capacity: nat) {
    d.row == HEADERS && Sane(d, capacity) && (!d.seen ==> d.length == 0)
  }

  function After(d: Scanner, r: Option<Option<nat>>): Option<Scanner> {
    match r
    case None => None
    case Some(l) => Some(Scanner(HEADERS, l.Some?, if l.Some? then l.value else 0, d.path))
  }

  lemma ColonStep(d: Scanner, name: Bytes, capacity: nat)
    requires name != [] && d.row == NameState(name) && Sane(d, capacity)
    ensures Step(d, 58, capacity) ==
            if SameName(name, CONTENT_LENGTH) then (if d.seen then None else Some(d.(row := LEADING, seen := true)))
            else if SameName(name, TRANSFER_ENCODING) || SameName(name, EXPECT) then None
            else Some(d.(row := VALUE))
  {
    NameColon(name);
    LengthStep(d, 58, capacity);
  }

  lemma LengthStep(d: Scanner, b: Byte, capacity: nat)
    requires Sane(d, capacity)
    ensures Delta(d.row, b) == LEADING + LENGTH_FLAG ==>
              Step(d, b, capacity) == if d.seen then None else Some(d.(row := LEADING, seen := true))
  {
  }

  lemma {:induction false} AfterName(d: Scanner, name: Bytes, value: Bytes, capacity: nat)
    requires name != [] && d.row == NameState(name) && Sane(d, capacity) && (!d.seen ==> d.length == 0) && NoLf(value)
    ensures Run(Some(d), [58] + value + CRLF, capacity) ==
      if !All(value, FieldChar) || SameName(name, TRANSFER_ENCODING) || SameName(name, EXPECT) then None
      else if !SameName(name, CONTENT_LENGTH) then Some(d.(row := HEADERS))
      else if d.seen || ParseLength(value, capacity).None? then None
      else Some(d.(row := HEADERS, seen := true, length := ParseLength(value, capacity).value))
  {
    var s := [58] + value + CRLF;
    assert s[0] == 58 && s[1..] == value + CRLF;
    ColonStep(d, name, capacity);
    NamesApart(name);
    if SameName(name, CONTENT_LENGTH) {
      if !d.seen {
        LeadRun(d.(row := LEADING, seen := true), value, capacity);
        if LeadTail(value, capacity).Some? {
          LeadTailClean(value, capacity);
        }
        if All(value, FieldChar) {
          LeadTailIsParse(value, capacity);
        }
      }
    } else if !SameName(name, TRANSFER_ENCODING) && !SameName(name, EXPECT) {
      ValueRun(d.(row := VALUE), value, capacity);
    }
  }

  /** One header line: automaton and parser accept alike and declare alike. */
  lemma HeaderRun(d: Scanner, line: Bytes, capacity: nat)
    requires Ready(d, capacity) && line != [] && NoLf(line)
    ensures Run(Some(d), line + CRLF, capacity) == After(d, HeaderLine(line, Declared(d), capacity))
  {
    var colon := IndexOf(line, 58);
    if line[0] == 13 {
      RunCons(d, line, CRLF, capacity);
      PlainStep(d, 13, capacity);
      StrayCr(d.(row := END_LF), line[1..], capacity);
      assert line[..colon] == [] || line[..colon][0] == 13;
    } else if colon == |line| {
      NoColon(d, line, capacity);
    } else if colon == 0 {
      RunCons(d, line, CRLF, capacity);
      assert Delta(HEADERS, 58) == 0;
    } else {
      NamedLine(d, line, colon, capacity);
    }
  }

  lemma NoColon(d: Scanner, line: Bytes, capacity: nat)
    requires Ready(d, capacity) && line != [] && line[0] != 13 && IndexOf(line, 58) == |line|
    ensures Run(Some(d), line + CRLF, capacity) == None
  {
    NameRun(d, line, capacity);
    RunAppend(Some(d), line, CRLF, capacity);
    if All(line, Token) {
      RunCrlf(d.(row := NameState(line)), capacity);
      NameReject(line, 13);
    }
  }

  lemma NamedLine(d: Scanner, line: Bytes, colon: nat, capacity: nat)
    requires Ready(d, capacity) && line != [] && line[0] != 13 && NoLf(line)
    requires colon == IndexOf(line, 58) && 0 < colon < |line|
    ensures Run(Some(d), line + CRLF, capacity) == After(d, HeaderLine(line, Declared(d), capacity))
  {
    var name, value := line[..colon], line[colon + 1..];
    assert line + CRLF == name + ([58] + value + CRLF);
    RunAppend(Some(d), name, [58] + value + CRLF, capacity);
    NameRun(d, name, capacity);
    if All(name, Token) {
      AfterName(d.(row := NameState(name)), name, value, capacity);
    }
  }

  // ----- the request line -----

  predicate NoSpace(s: Bytes) { forall i | 0 <= i < |s| :: s[i] != 32 }

  /** k method bytes have been read. */
  function MethodState(k: nat): nat { if k == 0 then START else METHOD + k }

  lemma {:induction false} MethodRun(d: Scanner, k: nat, m: Bytes, capacity: nat)
    requires k <= 8 && d.row == MethodState(k) && Sane(d, capacity) && NoSpace(m)
    ensures Run(Some(d), m, capacity) ==
            if All(m, Token) && k + |m| <= 8 then Some(d.(row := MethodState(k + |m|))) else None
    decreases |m|
  {
    if m != [] {
      AllCons(m, Token);
      assert Delta(d.row, m[0]) == MethodRow(k, m[0]);
      if Token(m[0]) && k < 8 {
        PlainStep(d, m[0], capacity);
        MethodRun(d.(row := MethodState(k + 1)), k + 1, m[1..], capacity);
      }
    }
  }

  lemma TargetStep(d: Scanner, b: Byte, capacity: nat)
    requires Sane(d, capacity) && b != 32
    requires d.row == TARGET || d.row == TARGET_START
    ensures Step(d, b, capacity) ==
            if (if d.row == TARGET then TargetChar(b) else b == 47) && d.path < PATH_LIMIT
            then Some(d.(row := TARGET, path := d.path + 1)) else None
  {
  }

  lemma {:induction false} TargetRun(d: Scanner, t: Bytes, capacity: nat)
    requires d.row == TARGET && Sane(d, capacity) && NoSpace(t)
    ensures Run(Some(d), t, capacity) ==
            if All(t, TargetChar) && d.path + |t| <= PATH_LIMIT then Some(d.(path := d.path + |t|)) else None
    decreases |t|
  {
    if t != [] {
      AllCons(t, TargetChar);
      TargetStep(d, t[0], capacity);
      if TargetChar(t[0]) && d.path < PATH_LIMIT {
        TargetRun(d.(path := d.path + 1), t[1..], capacity);
      }
    }
  }

  /** A whole target field. */
  lemma TargetField(d: Scanner, t: Bytes, capacity: nat)
    requires d.row == TARGET_START && Sane(d, capacity) && d.path == 0 && NoSpace(t)
    ensures Run(Some(d), t, capacity) ==
            if t == [] then Some(d) else if TargetOk(t) then Some(d.(row := TARGET, path := |t|)) else None
  {
    if t != [] {
      AllCons(t, TargetChar);
      TargetStep(d, t[0], capacity);
      if t[0] == 47 {
        TargetRun(d.(row := TARGET, path := 1), t[1..], capacity);
      }
    }
  }

  /** What remains of a version after k bytes of it. */
  predicate VersionTail(k: nat, v: Bytes)
    requires k <= 7
  {
    |v| == 8 - k && (forall i | 0 <= i < 7 - k :: v[i] == HTTP1[k + i]) && (v[7 - k] == 48 || v[7 - k] == 49)
  }

  lemma {:induction false} VersionRun(d: Scanner, k: nat, v: Bytes, capacity: nat)
    requires k <= 7 && d.row == VERSION + k && Sane(d, capacity) && NoLf(v)
    ensures Run(Some(d), v + CRLF, capacity) == if VersionTail(k, v) then Some(d.(row := HEADERS)) else None
    decreases 8 - k
  {
    if v == [] {
      assert v + CRLF == CRLF;
      RunCrlf(d, capacity);
      assert Delta(d.row, 13) == VersionRow(k, 13) == 0;
    } else {
      RunCons(d, v, CRLF, capacity);
      assert Delta(d.row, v[0]) == VersionRow(k, v[0]);
      PlainStep(d, v[0], capacity);
      if k == 7 {
        if v[0] == 48 || v[0] == 49 {
          VersionEnd(d.(row := VERSION_CR), v[1..], capacity);
        }
      } else if v[0] == HTTP1[k] {
        VersionRun(d.(row := VERSION + k + 1), k + 1, v[1..], capacity);
        VersionTailCons(k, v);
      }
    }
  }

  lemma VersionTailCons(k: nat, v: Bytes)
    requires k < 7 && v != [] && v[0] == HTTP1[k]
    ensures VersionTail(k, v) <==> VersionTail(k + 1, v[1..])
  {
    if VersionTail(k + 1, v[1..]) {
      forall i | 0 <= i < 7 - k
        ensures v[i] == HTTP1[k + i]
      {
        if i > 0 { assert v[1..][i - 1] == HTTP1[k + 1 + (i - 1)]; }
      }
    }
    if VersionTail(k, v) {
      forall i | 0 <= i < 6 - k
        ensures v[1..][i] == HTTP1[k + 1 + i]
      {
        assert v[i + 1] == HTTP1[k + (i + 1)];
      }
    }
  }

  lemma VersionEnd(d: Scanner, v: Bytes, capacity: nat)
    requires d.row == VERSION_CR && Sane(d, capacity) && NoLf(v)
    ensures Run(Some(d), v + CRLF, capacity) == if v == [] then Some(d.(row := HEADERS)) else None
  {
    if v == [] {
      assert v + CRLF == CRLF;
      RunCrlf(d, capacity);
    } else {
      RunCons(d, v, CRLF, capacity);
      if v[0] == 13 {
        PlainStep(d, 13, capacity);
        StrayCr(d.(row := VERSION_LF), v[1..], capacity);
      }
    }
  }

  lemma VersionTailIsOk(v: Bytes)
    ensures VersionTail(0, v) <==> VersionOk(v)
  {
    if VersionTail(0, v) {
      assert v == if v[7] == 48 then HTTP10 else HTTP11;
    }
  }

  /** A field of the request line that no space ends. */
  lemma Unended(d: Scanner, capacity: nat)
    requires d.row == START || METHOD < d.row < ROWS || d.row == TARGET || d.row == TARGET_START
    ensures Run(Some(d), CRLF, capacity) == None
  {
    RunCrlf(d, capacity);
    assert Delta(d.row, 13) == 0;
  }

  /** The rest of a request line, after its method and one space. */
  lemma AfterMethod(d: Scanner, rest: Bytes, capacity: nat)
    requires d.row == TARGET_START && Sane(d, capacity) && d.path == 0 && NoLf(rest)
    ensures var f := Split(rest, 32);
      Run(Some(d), rest + CRLF, capacity) ==
        if |f| == 2 && TargetOk(f[0]) && VersionOk(f[1]) then Some(d.(row := HEADERS, path := |f[0]|)) else None
  {
    var j := IndexOf(rest, 32);
    var target := rest[..j];
    TargetField(d, target, capacity);
    if j == |rest| {
      assert rest == target;
      RunAppend(Some(d), rest, CRLF, capacity);
      if rest == [] {
        Unended(d, capacity);
      } else if TargetOk(rest) {
        Unended(d.(row := TARGET, path := |target|), capacity);
      }
    } else {
      var version := rest[j + 1..];
      assert rest + CRLF == target + ([32] + version + CRLF);
      RunAppend(Some(d), target, [32] + version + CRLF, capacity);
      if target == [] {
        SpaceStep(d, version, capacity);
      } else if TargetOk(target) {
        SpaceStep(d.(row := TARGET, path := |target|), version, capacity);
        VersionRun(d.(row := VERSION, path := |target|), 0, version, capacity);
        VersionTailIsOk(version);
        VersionAlone(version);
      }
    }
  }

  lemma SpaceStep(d: Scanner, s: Bytes, capacity: nat)
    requires Sane(d, capacity)
    ensures d.row == TARGET ==>
      Run(Some(d), [32] + s + CRLF, capacity) == Run(Some(d.(row := VERSION)), s + CRLF, capacity)
    ensures d.row == TARGET_START || d.row == START ==> Run(Some(d), [32] + s + CRLF, capacity) == None
    ensures METHOD < d.row < ROWS ==>
              Run(Some(d), [32] + s + CRLF, capacity) == Run(Some(d.(row := TARGET_START)), s + CRLF, capacity)
  {
    var t := [32] + s + CRLF;
    assert t[0] == 32 && t[1..] == s + CRLF;
    PlainStep(d, 32, capacity);
    if METHOD < d.row < ROWS {
      assert Delta(d.row, 32) == MethodRow(d.row - METHOD, 32);
    }
  }

  /** A well-formed version contains no space, so it is the last field. */
  lemma VersionAlone(v: Bytes)
    ensures VersionOk(v) ==> Split(v, 32) == [v]
    ensures |Split(v, 32)| == 1 ==> Split(v, 32) == [v]
  {
    if VersionOk(v) {
      assert forall i | 0 <= i < |v| :: v[i] != 32;
    }
  }

  /** The request line: automaton and parser accept alike. */
  lemma RequestRun(line: Bytes, capacity: nat)
    requires NoLf(line)
    ensures RequestOk(line) ==>
      Run(Some(FRESH), line + CRLF, capacity) == Some(Scanner(HEADERS, false, 0, |Split(line, 32)[1]|))
    ensures !RequestOk(line) ==> Run(Some(FRESH), line + CRLF, capacity) == None
  {
    var i := IndexOf(line, 32);
    var m := line[..i];
    MethodRun(FRESH, 0, m, capacity);
    if i == |line| {
      assert line == m;
      RunAppend(Some(FRESH), line, CRLF, capacity);
      if All(m, Token) && |m| <= 8 {
        Unended(FRESH.(row := MethodState(|m|)), capacity);
      }
    } else {
      var rest := line[i + 1..];
      assert line + CRLF == m + ([32] + rest + CRLF);
      RunAppend(Some(FRESH), m, [32] + rest + CRLF, capacity);
      if All(m, Token) && |m| <= 8 {
        SpaceStep(FRESH.(row := MethodState(|m|)), rest, capacity);
        AfterMethod(FRESH.(row := TARGET_START), rest, capacity);
      }
    }
  }
}
