/** Escaping text for output and reading it back, by the JSON input decoder and
    by the source lexer's string literals. */
module Escaping {
  import opened Ast
  import opened TextOps

  const QUOTE: Byte := 0x22
  const BACKSLASH: Byte := 0x5C
  const NEWLINE: Byte := 0x0A

  /** The escape loop. */
  method EscapeJson(s: Bytes) returns (out: Bytes)
    ensures out == Escape(s)
  {
    out := [];
    assert s[0..] == s;
    for i := 0 to |s|
      invariant Escape(s) == out + Escape(s[i..])
    {
      assert s[i..][0] == s[i] && s[i..][1..] == s[i + 1..];
      assert out + (EscapeByte(s[i]) + Escape(s[i + 1..])) == out + EscapeByte(s[i]) + Escape(s[i + 1..]);
      out := out + EscapeByte(s[i]);
    }
    assert s[|s|..] == [] && out + [] == out;
  }

  // ----- JSON input -----

  /** What `\` followed by `b` stands for; an unknown pair stands for itself. */
  function Decoded(b: Byte): Bytes {
    if b == 0x6E then [0x0A]
    else if b == 0x74 then [0x09]
    else if b == 0x72 then [0x0D]
    else if b == BACKSLASH || b == QUOTE || b == 0x2F then [b]
    else [BACKSLASH, b]
  }

  function Unescape(s: Bytes): Bytes
    decreases |s|
  {
    if s == [] then []
    else if s[0] != BACKSLASH then [s[0]] + Unescape(s[1..])
    else if |s| == 1 then [BACKSLASH]
    else Decoded(s[1]) + Unescape(s[2..])
  }

  lemma {:induction false} NothingToUnescape(s: Bytes)
    requires BACKSLASH !in s
    ensures Unescape(s) == s
  {
    if s != [] {
      NothingToUnescape(s[1..]);
    }
  }

  /** The decoding loop, with its shortcut for text without a backslash. */
  method UnescapeJson(s: Bytes) returns (out: Bytes)
    ensures out == Unescape(s)
  {
    if BACKSLASH !in s {
      NothingToUnescape(s);
      return s;
    }
    out := [];
    var i := 0;
    assert s[0..] == s;
    while i < |s|
      invariant i <= |s|
      invariant Unescape(s) == out + Unescape(s[i..])
    {
      UnescapeStep(s, i, out);
      if s[i] != BACKSLASH {
        out := out + [s[i]];
        i := i + 1;
      } else if i + 1 < |s| {
        out := out + Decoded(s[i + 1]);
        i := i + 2;
      } else {
        out := out + [BACKSLASH];
        i := i + 1;
      }
    }
    assert s[|s|..] == [] && out + [] == out;
  }

  lemma UnescapeStep(s: Bytes, i: nat, out: Bytes)
    requires i < |s|
    ensures s[i] != BACKSLASH ==> out + Unescape(s[i..]) == out + [s[i]] + Unescape(s[i + 1..])
    ensures s[i] == BACKSLASH && i + 1 < |s| ==>
      out + Unescape(s[i..]) == out + Decoded(s[i + 1]) + Unescape(s[i + 2..])
    ensures s[i] == BACKSLASH && i + 1 == |s| ==> out + Unescape(s[i..]) == out + [BACKSLASH] + Unescape(s[i + 1..])
  {
    assert s[i..][0] == s[i] && s[i..][1..] == s[i + 1..];
    if i + 1 < |s| {
      assert s[i..][1] == s[i + 1] && s[i..][2..] == s[i + 2..];
    }
  }

  // ----- string literals -----

  /** The closed set of escapes a literal may use. */
  function LiteralEscape(b: Byte): Option<Byte> {
    if b == 0x6E then Some(0x0A)
    else if b == 0x74 then Some(0x09)
    else if b == 0x72 then Some(0x0D)
    else if b == BACKSLASH || b == QUOTE then Some(b)
    else None
  }

  function HexVal(b: Byte): Option<Byte> {
    if IsDigit(b) then Some(b - 48)
    else if 97 <= b <= 102 then Some(b - 87)
    else if 65 <= b <= 70 then Some(b - 55)
    else None
  }

  /** The byte an escape at `pos`, after its backslash, stands for, and its length;
      byte strings also have `xNN`. */
  function EscapeAt(src: Bytes, pos: nat, raw: bool): (r: Option<(Byte, nat)>)
    requires pos < |src|
    ensures r.Some? ==> 1 <= r.value.1 && pos + r.value.1 <= |src|
  {
    if LiteralEscape(src[pos]).Some? then Some((LiteralEscape(src[pos]).value, 1))
    else if raw && (src[pos] == 0x78 || src[pos] == 0x58) && pos + 2 < |src| &&
            HexVal(src[pos + 1]).Some? && HexVal(src[pos + 2]).Some? then
      Some((16 * HexVal(src[pos + 1]).value + HexVal(src[pos + 2]).value, 3))
    else None
  }

  /** The literal whose text starts at `pos`, and the position after its closing
      quote; `raw` selects byte strings. */
  function Literal(src: Bytes, pos: nat, raw: bool): (r: Option<(Bytes, nat)>)
    requires pos <= |src|
    ensures r.Some? ==> pos < r.value.1 <= |src|
    decreases |src| - pos
  {
    if pos == |src| then None
    else if src[pos] == QUOTE then Some(([], pos + 1))
    else if src[pos] == NEWLINE then None
    else if src[pos] == BACKSLASH then
      if pos + 1 == |src| then None
      else
        match EscapeAt(src, pos + 1, raw)
        case None => None
        case Some((b, n)) => Continue(b, Literal(src, pos + 1 + n, raw))
    else Continue(src[pos], Literal(src, pos + 1, raw))
  }

  function Continue(b: Byte, rest: Option<(Bytes, nat)>): Option<(Bytes, nat)> {
    match rest case None => None case Some((s, n)) => Some(([b] + s, n))
  }

  /** The reading loop, from just after the opening quote. */
  method ReadLiteral(src: Bytes, start: nat, raw: bool) returns (r: Option<(Bytes, nat)>)
    requires start <= |src|
    ensures r == Literal(src, start, raw)
  {
    var pos, bytes := start, [];
    ghost var all := Literal(src, start, raw);
    assert all.Some? ==> [] + all.value.0 == all.value.0;
    while pos < |src| && src[pos] != QUOTE
      invariant start <= pos <= |src|
      invariant all == After(bytes, Literal(src, pos, raw))
      decreases |src| - pos
    {
      var ch := src[pos];
      if ch == NEWLINE {
        return None;
      }
      pos := pos + 1;
      if ch == BACKSLASH {
        if pos == |src| {
          return None;
        }
        var escaped := EscapeAt(src, pos, raw);
        if escaped.None? {
          return None;
        }
        ch := escaped.value.0;
        pos := pos + escaped.value.1;
      }
      AfterStep(bytes, ch, Literal(src, pos, raw));
      bytes := bytes + [ch];
    }
    if pos == |src| {
      return None;
    }
    assert bytes + [] == bytes;
    return Some((bytes, pos + 1));
  }

  function After(bytes: Bytes, rest: Option<(Bytes, nat)>): Option<(Bytes, nat)> {
    match rest case None => None case Some((s, n)) => Some((bytes + s, n))
  }

  lemma AfterStep(bytes: Bytes, b: Byte, rest: Option<(Bytes, nat)>)
    ensures After(bytes, Continue(b, rest)) == After(bytes + [b], rest)
  {
    if rest.Some? {
      assert bytes + ([b] + rest.value.0) == bytes + [b] + rest.value.0;
    }
  }

  // ----- round trips -----

  /** A byte above 127 becomes the two bytes of the code point it is cast to. */
  function WidenByte(b: Byte): Bytes { if b < 128 then [b] else [192 + b / 64, 128 + b % 64] }

  function Widen(s: Bytes): Bytes {
    if s == [] then [] else WidenByte(s[0]) + Widen(s[1..])
  }

  predicate Ascii(s: Bytes) { forall i | 0 <= i < |s| :: s[i] < 128 }

  lemma {:induction false} WidenLength(s: Bytes)
    ensures |Widen(s)| >= |s| && (|Widen(s)| == |s| <==> Ascii(s))
  {
    if s != [] {
      WidenLength(s[1..]);
      assert Ascii(s) <==> s[0] < 128 && Ascii(s[1..]) by {
        if s[0] < 128 && Ascii(s[1..]) {
          forall i | 0 <= i < |s|
            ensures s[i] < 128
          {
            if i > 0 { assert s[1..][i - 1] < 128; }
          }
        }
      }
    }
  }

  lemma {:induction false} WidenIsIdentity(s: Bytes)
    ensures Widen(s) == s <==> Ascii(s)
  {
    WidenLength(s);
    if s != [] && Ascii(s) {
      WidenIsIdentity(s[1..]);
    }
  }

  /** One escaped byte, decoded with whatever follows it. */
  lemma UnescapeByte(b: Byte, rest: Bytes)
    ensures Unescape(EscapeByte(b) + rest) == WidenByte(b) + Unescape(rest)
  {
    var e := EscapeByte(b);
    var all := e + rest;
    if |e| == 1 {
      assert all[1..] == rest;
    } else if e[0] == BACKSLASH {
      assert all[1] == e[1] && all[2..] == rest;
    } else {
      assert all[1..] == [e[1]] + rest && all[1..][1..] == rest;
      assert Unescape(all[1..]) == [e[1]] + Unescape(rest);
      assert [e[0]] + ([e[1]] + Unescape(rest)) == e + Unescape(rest);
    }
  }

  lemma {:induction false} UnescapeEscape(s: Bytes)
    ensures Unescape(Escape(s)) == Widen(s)
  {
    if s != [] {
      UnescapeByte(s[0], Escape(s[1..]));
      UnescapeEscape(s[1..]);
    }
  }

  /** The input decoder recovers exactly the ASCII texts. */
  lemma JsonRoundTrip(s: Bytes)
    ensures Unescape(Escape(s)) == s <==> Ascii(s)
  {
    UnescapeEscape(s);
    WidenIsIdentity(s);
  }

  lemma LiteralByte(src: Bytes, pos: nat, b: Byte, e: Bytes, raw: bool)
    requires e == EscapeByte(b) && pos + |e| <= |src| && src[pos] == e[0] && (|e| == 2 ==> src[pos + 1] == e[1])
    ensures Literal(src, pos, raw) == After(WidenByte(b), Literal(src, pos + |e|, raw))
  {
    if b >= 128 {
      WideByte(src, pos, b, raw);
    }
  }

  lemma WideByte(src: Bytes, pos: nat, b: Byte, raw: bool)
    requires b >= 128 && pos + 2 <= |src| && src[pos] == 192 + b / 64 && src[pos + 1] == 128 + b % 64
    ensures Literal(src, pos, raw) == After(WidenByte(b), Literal(src, pos + 2, raw))
  {
    var x, y := src[pos], src[pos + 1];
    assert Literal(src, pos + 1, raw) == Continue(y, Literal(src, pos + 2, raw));
    assert Literal(src, pos, raw) == Continue(x, Literal(src, pos + 1, raw));
    var rest := Literal(src, pos + 2, raw);
    if rest.Some? { assert [x] + ([y] + rest.value.0) == [x, y] + rest.value.0; }
  }

  lemma {:induction false} LiteralEscaped(pre: Bytes, s: Bytes, rest: Bytes, raw: bool)
    ensures Literal(pre + Escape(s) + [QUOTE] + rest, |pre|, raw) == Some((Widen(s), |pre| + |Escape(s)| + 1))
    decreases |s|
  {
    var src := pre + Escape(s) + [QUOTE] + rest;
    if s == [] {
      assert src[|pre|] == QUOTE;
    } else {
      var e, tail := EscapeByte(s[0]), Escape(s[1..]) + [QUOTE] + rest;
      assert src == pre + e + tail;
      LiteralByte(src, |pre|, s[0], e, raw);
      LiteralEscaped(pre + e, s[1..], rest, raw);
      assert src == (pre + e) + Escape(s[1..]) + [QUOTE] + rest;
    }
  }

  /** The lexer stops exactly at the closing quote, and recovers exactly the ASCII texts. */
  lemma LiteralRoundTrip(pre: Bytes, s: Bytes, rest: Bytes, raw: bool)
    ensures var r := Literal(pre + Escape(s) + [QUOTE] + rest, |pre|, raw);
      r.Some? && r.value.1 == |pre + Escape(s)| + 1 && (r.value.0 == s <==> Ascii(s))
  {
    LiteralEscaped(pre, s, rest, raw);
    WidenIsIdentity(s);
  }
}
