/** The independent line-based parser, without tables or action flags. */
module HttpReference {
  import opened Ast
  import opened HttpDfa
  import opened HttpDriver

  const CRLF: Bytes := [13, 10]

  predicate BlankAt(data: Bytes, j: nat) { j + 4 <= |data| && data[j..j + 4] == CRLF + CRLF }

  /** The end of the first blank line at or after `i`. */
  function FindEnd(data: Bytes, i: nat): (r: Option<nat>)
    ensures r.Some? ==> i + 4 <= r.value && BlankAt(data, r.value - 4)
    ensures r.Some? ==> forall j: nat | i <= j < r.value - 4 :: !BlankAt(data, j)
    ensures r.None? ==> forall j: nat | i <= j :: !BlankAt(data, j)
    decreases |data| - i
  {
    if i + 4 > |data| then None
    else if BlankAt(data, i) then Some(i + 4)
    else FindEnd(data, i + 1)
  }

  /** The first index of a byte, or the length. */
  function IndexOf(s: Bytes, b: Byte): (i: nat)
    ensures i <= |s| && (i < |s| ==> s[i] == b)
    ensures forall j | 0 <= j < i :: s[j] != b
  {
    IndexFrom(s, b, 0)
  }

  function IndexFrom(s: Bytes, b: Byte, k: nat): (i: nat)
    requires k <= |s|
    ensures k <= i <= |s| && (i < |s| ==> s[i] == b)
    ensures forall j | k <= j < i :: s[j] != b
    decreases |s| - k
  {
    if k == |s| || s[k] == b then k else IndexFrom(s, b, k + 1)
  }

  function Split(s: Bytes, b: Byte): (r: seq<Bytes>)
    ensures r != []
    decreases |s|
  {
    var i := IndexOf(s, b);
    if i == |s| then [s] else [s[..i]] + Split(s[i + 1..], b)
  }

  function StripCrlf(line: Bytes): Option<Bytes> {
    if |line| >= 2 && line[|line| - 2..] == CRLF then Some(line[..|line| - 2]) else None
  }

  predicate All(s: Bytes, p: int -> bool) { forall i | 0 <= i < |s| :: p(s[i]) }

  const HTTP10: Bytes := [72, 84, 84, 80, 47, 49, 46, 48]
  const HTTP11: Bytes := [72, 84, 84, 80, 47, 49, 46, 49]

  predicate MethodOk(f: Bytes) { 0 < |f| <= 8 && All(f, Token) }

  predicate TargetOk(f: Bytes) { f != [] && f[0] == 47 && |f| <= PATH_LIMIT && All(f, TargetChar) }

  predicate VersionOk(f: Bytes) { f == HTTP10 || f == HTTP11 }

  predicate RequestOk(line: Bytes) {
    var f := Split(line, 32);
    |f| == 3 && MethodOk(f[0]) && TargetOk(f[1]) && VersionOk(f[2])
  }

  predicate AsciiSpace(b: int) { b in {9, 10, 12, 13, 32} }

  function TrimStart(s: Bytes): Bytes { if s != [] && AsciiSpace(s[0]) then TrimStart(s[1..]) else s }

  function TrimEnd(s: Bytes): Bytes { if s != [] && AsciiSpace(s[|s| - 1]) then TrimEnd(s[..|s| - 1]) else s }

  /** Decimal accumulation, checked against the capacity at every digit. */
  function Decimal(s: Bytes, n: nat, capacity: nat): Option<nat> {
    if s == [] then Some(n)
    else if !Digit(s[0]) || 10 * n + (s[0] - 48) > capacity then None
    else Decimal(s[1..], 10 * n + (s[0] - 48), capacity)
  }

  function ParseLength(value: Bytes, capacity: nat): Option<nat> {
    var v := TrimEnd(TrimStart(value));
    if v == [] then None else Decimal(v, 0, capacity)
  }

  predicate SameName(name: Bytes, known: seq<int>) {
    |name| == |known| && forall i | 0 <= i < |name| :: Lower(name[i]) == known[i]
  }

  /** One header line, given the length declared so far; None when invalid. */
  function HeaderLine(line: Bytes, length: Option<nat>, capacity: nat): Option<Option<nat>> {
    var colon := IndexOf(line, 58);
    if colon == |line| then None
    else
      var name, value := line[..colon], line[colon + 1..];
      if name == [] || !All(name, Token) || !All(value, FieldChar) then None
      else if SameName(name, TRANSFER_ENCODING) || SameName(name, EXPECT) then None
      else if SameName(name, CONTENT_LENGTH) then
        if length.Some? then None
        else (match ParseLength(value, capacity) case None => None case Some(n) => Some(Some(n)))
      else Some(length)
  }

  /** All header lines of `s`, each ended by a line feed. */
  function HeaderLines(s: Bytes, length: Option<nat>, capacity: nat): Option<Option<nat>>
    decreases |s|
  {
    if s == [] then Some(length)
    else
      var n := IndexOf(s, 10);
      var line := if n < |s| then s[..n + 1] else s;
      match StripCrlf(line)
      case None => None
      case Some(l) =>
        match HeaderLine(l, length, capacity)
        case None => None
        case Some(length') => HeaderLines(s[|line|..], length', capacity)
  }

  /** The request line and headers; None when invalid. */
  function Head(s: Bytes, capacity: nat): Option<Option<nat>> {
    var n := IndexOf(s, 10);
    var line := if n < |s| then s[..n + 1] else s;
    match StripCrlf(line)
    case None => None
    case Some(l) => if RequestOk(l) then HeaderLines(s[|line|..], None, capacity) else None
  }

  /** The verdict once the head, ending at `end`, has been read. */
  function HeadVerdict(head: Option<Option<nat>>, end: nat, have: nat, capacity: nat): Frame {
    match head
    case None => Invalid
    case Some(length) =>
      var total := end + (if length.Some? then length.value else 0);
      if total > capacity then Invalid else if have < total then More else Complete(total)
  }

  function Reference(data: Bytes, capacity: nat): Frame {
    match FindEnd(data, 0)
    case None => if |data| >= capacity then Invalid else More
    case Some(end) =>
      if end > capacity then Invalid else HeadVerdict(Head(data[..end - 2], capacity), end, |data|, capacity)
  }

  // ----- the loops -----

  method DecimalLoop(value: Bytes, capacity: nat) returns (r: Option<nat>)
    ensures r == Decimal(value, 0, capacity)
  {
    var n: nat := 0;
    for i := 0 to |value|
      invariant Decimal(value[i..], n, capacity) == Decimal(value, 0, capacity)
    {
      var b := value[i];
      assert value[i..][1..] == value[i + 1..];
      if !Digit(b) {
        return None;
      }
      var next := 10 * n + (b - 48);
      if next > capacity {
        return None;
      }
      n := next;
    }
    r := Some(n);
  }

  method HeaderLoop(s: Bytes, capacity: nat) returns (r: Option<Option<nat>>)
    ensures r == HeaderLines(s, None, capacity)
  {
    var length: Option<nat> := None;
    var rest := s;
    while rest != []
      invariant HeaderLines(rest, length, capacity) == HeaderLines(s, None, capacity)
      decreases |rest|
    {
      var n := IndexOf(rest, 10);
      var line := if n < |rest| then rest[..n + 1] else rest;
      var stripped := StripCrlf(line);
      if stripped.None? {
        return None;
      }
      var next := HeaderLine(stripped.value, length, capacity);
      if next.None? {
        return None;
      }
      length, rest := next.value, rest[|line|..];
    }
    r := Some(length);
  }

  /** The whole parser with its loops. */
  method Parse(data: Bytes, capacity: nat) returns (f: Frame)
    ensures f == Reference(data, capacity)
  {
    var end := FindEnd(data, 0);
    if end.None? {
      return if |data| >= capacity then Invalid else More;
    }
    if end.value > capacity {
      return Invalid;
    }
    var head := HeadLoop(data[..end.value - 2], capacity);
    f := HeadVerdict(head, end.value, |data|, capacity);
  }

  method HeadLoop(s: Bytes, capacity: nat) returns (r: Option<Option<nat>>)
    ensures r == Head(s, capacity)
  {
    var n := IndexOf(s, 10);
    var line := if n < |s| then s[..n + 1] else s;
    var request := StripCrlf(line);
    if request.None? || !RequestOk(request.value) {
      return None;
    }
    r := HeaderLoop(s[|line|..], capacity);
  }
}
