/** Text builtins on byte strings. */
module TextOps {
  import opened Int64
  import opened Ast

  function CharByte(c: char): Byte { (c as int) % 256 }

  /** The bytes of a text written in ASCII. */
  function Chars(s: string): (b: Bytes)
    ensures |b| == |s|
  {
    seq(|s|, i requires 0 <= i < |s| => CharByte(s[i]))
  }

  function Digits(n: nat): (s: Bytes)
    ensures |s| > 0
  {
    if n < 10 then [48 + n] else Digits(n / 10) + [48 + n % 10]
  }

  /** Signed decimal without leading zeros. */
  function Decimal(n: int): Bytes {
    if n < 0 then [45] + Digits(-n) else Digits(n)
  }

  predicate IsDigit(b: int) { 48 <= b <= 57 }

  function DigitsValue(s: Bytes): Option<nat> {
    if s == [] then Some(0)
    else
      var last := s[|s| - 1];
      match DigitsValue(s[..|s| - 1])
      case None => None
      case Some(n) => if IsDigit(last) then Some(10 * n + (last - 48)) else None
  }

  predicate IsSpace(b: int) { b == 32 || 9 <= b <= 13 }

  function Trim(s: Bytes): Bytes
    decreases |s|
  {
    if s == [] then []
    else if IsSpace(s[0]) then Trim(s[1..])
    else if IsSpace(s[|s| - 1]) then Trim(s[..|s| - 1])
    else s
  }

  /** `str::trim` followed by `i64::from_str`, on ASCII text. */
  function ParseI64(text: Bytes): Option<i64> {
    var s := Trim(text);
    var signed := s != [] && (s[0] == 45 || s[0] == 43);
    var digits := if signed then s[1..] else s;
    if digits == [] then None
    else
      match DigitsValue(digits)
      case None => None
      case Some(n) =>
        var m: int := if signed && s[0] == 45 then 0 - n else n;
        if Fits(m) then Some(m) else None
  }

  /** `json_escape` of one byte; bytes above 127 are widened to the two-byte
      UTF-8 form of the code point they are cast to. */
  function EscapeByte(b: Byte): (r: Bytes)
    ensures 1 <= |r| <= 2
  {
    if b == 0x22 then [0x5C, 0x22]
    else if b == 0x5C then [0x5C, 0x5C]
    else if b == 0x0A then [0x5C, 0x6E]
    else if b == 0x0D then [0x5C, 0x72]
    else if b == 0x09 then [0x5C, 0x74]
    else if b < 128 then [b]
    else [192 + b / 64, 128 + b % 64]
  }

  function Escape(s: Bytes): Bytes {
    if s == [] then [] else EscapeByte(s[0]) + Escape(s[1..])
  }

  function LittleEndian(x: nat, width: nat): (s: Bytes)
    ensures |s| == width
  {
    if width == 0 then [] else [x % 256] + LittleEndian(x / 256, width - 1)
  }

  predicate HasPrefix(h: Bytes, n: Bytes) { |n| <= |h| && h[..|n|] == n }

  predicate HasSuffix(h: Bytes, n: Bytes) { |n| <= |h| && h[|h| - |n|..] == n }

  predicate HasInfix(h: Bytes, n: Bytes) {
    exists i | 0 <= i <= |h| :: HasPrefix(h[i..], n)
  }
}
