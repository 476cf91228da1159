// JSON strings (RFC 8259, section 7): which bytes may stand between quotes, where a string
// ends, what it spells, and the encoder's quoting.

module JsonStrings {
  import opened Wrappers
  import opened Octets

  const LOWER_U: byte := 117

  predicate IsHex(c: byte) {
    48 <= c <= 57 || 65 <= c <= 70 || 97 <= c <= 102
  }

  function HexVal(c: byte): (v: int)
    requires IsHex(c)
    ensures 0 <= v < 16
  {
    if c <= 57 then c as int - 48 else if c <= 70 then c as int - 55 else c as int - 87
  }

  /** The one-letter escapes: the quote, the backslash, the slash, b, f, n, r and t. */
  predicate IsShort(c: byte) {
    c == QUOTE || c == BACKSLASH || c == 47 || c == 98 || c == 102 || c == 110 || c == 114 || c == 116
  }

  function ShortVal(c: byte): byte
    requires IsShort(c)
  {
    if c == 98 then 8 else if c == 102 then 12 else if c == 110 then 10
    else if c == 114 then 13 else if c == 116 then 9 else c
  }

  /** Four hexadecimal digits after a backslash and u. */
  predicate IsUnicode(s: Bytes) {
    |s| >= 6 && s[0] == BACKSLASH && s[1] == LOWER_U &&
    IsHex(s[2]) && IsHex(s[3]) && IsHex(s[4]) && IsHex(s[5])
  }

  function UnicodeVal(s: Bytes): (v: int)
    requires IsUnicode(s)
    ensures 0 <= v < 0x10000
  {
    HexVal(s[2]) * 4096 + HexVal(s[3]) * 256 + HexVal(s[4]) * 16 + HexVal(s[5])
  }

  /** How many bytes the character at the head of s takes, or 0 when s has no legal head. */
  function Head(s: Bytes): (n: nat)
    ensures n <= |s|
  {
    if s == [] then 0
    else if s[0] == BACKSLASH then
      if |s| >= 2 && IsShort(s[1]) then 2 else if IsUnicode(s) then 6 else 0
    else if s[0] == QUOTE || s[0] < 32 then 0
    else 1
  }

  /** Bytes that may stand between the quotes of a string. */
  predicate Chars(raw: Bytes) {
    raw == [] || (Head(raw) > 0 && Chars(raw[Head(raw)..]))
  }

  /** The length of the string body at the head of s, if a closing quote follows it. */
  function ScanString(s: Bytes): (r: Option<nat>)
    ensures r.Some? ==> r.value < |s| && s[r.value] == QUOTE && Chars(s[..r.value])
  {
    if s != [] && s[0] == QUOTE then Some(0)
    else if Head(s) == 0 then None
    else
      var h := Head(s);
      match ScanString(s[h..])
      case None => None
      case Some(n) =>
        assert s[..h + n][h..] == s[h..][..n];
        assert Head(s[..h + n]) == h;
        Some(h + n)
  }

  lemma {:induction false} ScanStringExact(raw: Bytes, rest: Bytes)
    requires Chars(raw)
    ensures ScanString(raw + ([QUOTE] + rest)) == Some(|raw|)
  {
    var s := raw + ([QUOTE] + rest);
    if raw != [] {
      var h := Head(raw);
      HeadLocal(raw, [QUOTE] + rest);
      assert s[h..] == raw[h..] + ([QUOTE] + rest);
      ScanStringExact(raw[h..], rest);
    }
  }

  lemma HeadLocal(raw: Bytes, rest: Bytes)
    requires Head(raw) > 0
    ensures Head(raw + rest) == Head(raw)
  {
    assert forall i | 0 <= i < |raw| :: (raw + rest)[i] == raw[i];
  }

  // ---------- what a string spells ----------

  const REPLACEMENT: int := 0xFFFD

  function Utf8(code: int): Bytes
    requires 0 <= code < 0x110000
  {
    if code < 0x80 then [code as byte]
    else if code < 0x800 then [(192 + code / 64) as byte, (128 + code % 64) as byte]
    else if code < 0x10000 then
      [(224 + code / 4096) as byte, (128 + code / 64 % 64) as byte, (128 + code % 64) as byte]
    else
      [(240 + code / 262144) as byte, (128 + code / 4096 % 64) as byte,
       (128 + code / 64 % 64) as byte, (128 + code % 64) as byte]
  }

  predicate IsHigh(v: int) { 0xD800 <= v < 0xDC00 }

  predicate IsLow(v: int) { 0xDC00 <= v < 0xE000 }

  /** A surrogate pair at the head of s. */
  predicate IsPair(s: Bytes) {
    |s| >= 12 && IsUnicode(s) && IsUnicode(s[6..]) && IsHigh(UnicodeVal(s)) && IsLow(UnicodeVal(s[6..]))
  }

  /** How many bytes of s spell its first character. */
  function Width(s: Bytes): (n: nat)
    requires Head(s) > 0
    ensures 0 < n <= |s|
  {
    if IsPair(s) then 12 else Head(s)
  }

  /** What the first character of s spells: an escape undone, a surrogate pair joined, a lone
      surrogate replaced. */
  function Spelled(s: Bytes): Bytes
    requires Head(s) > 0
  {
    if Head(s) == 1 then [s[0]]
    else if Head(s) == 2 then [ShortVal(s[1])]
    else
      var v := UnicodeVal(s);
      if IsPair(s) then Utf8(0x10000 + (v - 0xD800) * 1024 + (UnicodeVal(s[6..]) - 0xDC00))
      else if IsHigh(v) || IsLow(v) then Utf8(REPLACEMENT)
      else Utf8(v)
  }

  /** The bytes a string body spells. */
  function Unescape(raw: Bytes): Bytes {
    if Head(raw) == 0 then [] else Spelled(raw) + Unescape(raw[Width(raw)..])
  }

  /** Bytes that spell themselves. */
  predicate Plain(s: Bytes) {
    forall i | 0 <= i < |s| :: s[i] >= 32 && s[i] != QUOTE && s[i] != BACKSLASH
  }

  lemma {:induction false} PlainSpellsItself(s: Bytes)
    requires Plain(s)
    ensures Chars(s) && Unescape(s) == s
  {
    if s != [] {
      PlainSpellsItself(s[1..]);
      assert s == [s[0]] + s[1..];
    }
  }

  // ---------- the encoder's quoting ----------

  /** LINE SEPARATOR and PARAGRAPH SEPARATOR in UTF-8. */
  predicate IsSeparator(s: Bytes) {
    |s| >= 3 && s[0] == 226 && s[1] == 128 && (s[2] == 168 || s[2] == 169)
  }

  function HexDigit(v: int): (c: byte)
    requires 0 <= v < 16
    ensures IsHex(c) && HexVal(c) == v
  {
    if v < 10 then (48 + v) as byte else (87 + v) as byte
  }

  /** How the encoder writes the character at the head of s. */
  function Escaped(s: Bytes, html: bool): (r: Bytes)
    requires s != []
    ensures |r| == 1 || |r| == 2 || |r| == 6
  {
    var c := s[0];
    if c == QUOTE || c == BACKSLASH then [BACKSLASH, c]
    else if c == 8 then [BACKSLASH, 98]
    else if c == 12 then [BACKSLASH, 102]
    else if c == 10 then [BACKSLASH, 110]
    else if c == 13 then [BACKSLASH, 114]
    else if c == 9 then [BACKSLASH, 116]
    else if c < 32 || (html && (c == 60 || c == 62 || c == 38)) then
      [BACKSLASH, LOWER_U, ZERO, ZERO, HexDigit(c as int / 16), HexDigit(c as int % 16)]
    else if IsSeparator(s) then
      [BACKSLASH, LOWER_U, 50, ZERO, 50, HexDigit(s[2] as int - 160)]
    else [c]
  }

  /** A string body for s, with the characters <, > and & escaped too when html is set. */
  function Escape(s: Bytes, html: bool): Bytes {
    if s == [] then []
    else Escaped(s, html) + Escape(s[Taken(s, html)..], html)
  }

  function Quote(s: Bytes, html: bool): Bytes {
    [QUOTE] + Escape(s, html) + [QUOTE]
  }

  /** Undoing one six-byte escape that is not a surrogate. */
  lemma UnescapeUnicode(raw: Bytes, rest: Bytes)
    requires |raw| == 6 && IsUnicode(raw) && UnicodeVal(raw) < 0xD800
    ensures Unescape(raw + rest) == Utf8(UnicodeVal(raw)) + Unescape(rest)
    ensures Chars(raw + rest) == Chars(rest)
  {
    assert forall i | 0 <= i < 6 :: (raw + rest)[i] == raw[i];
    assert (raw + rest)[6..] == rest;
  }

  /** How many bytes of s the encoder writes at once. */
  function Taken(s: Bytes, html: bool): (n: nat)
    requires s != []
    ensures 0 < n <= |s|
  {
    if Escaped(s, html)[0] == BACKSLASH && IsSeparator(s) then 3 else 1
  }

  /** Undoing what the encoder writes for one character. */
  lemma UnescapeEscaped(s: Bytes, html: bool, tail: Bytes)
    requires s != []
    ensures Unescape(Escaped(s, html) + tail) == s[..Taken(s, html)] + Unescape(tail)
    ensures Chars(Escaped(s, html) + tail) == Chars(tail)
  {
    var e := Escaped(s, html);
    var x := e + tail;
    if |e| == 6 {
      UnescapeUnicode(e, tail);
      EscapedCode(s, html);
    } else if |e| == 2 {
      assert x[0] == e[0] && x[1] == e[1] && x[2..] == tail;
      assert [ShortVal(e[1])] == s[..1];
    } else {
      assert x[0] == e[0] && x[1..] == tail;
      assert e == s[..1];
    }
  }

  lemma EscapedCode(s: Bytes, html: bool)
    requires s != [] && |Escaped(s, html)| == 6
    ensures IsUnicode(Escaped(s, html)) && UnicodeVal(Escaped(s, html)) < 0xD800
    ensures Utf8(UnicodeVal(Escaped(s, html))) == s[..Taken(s, html)]
  {
    var e := Escaped(s, html);
    if e[2] == ZERO {
      assert UnicodeVal(e) == s[0] as int;
    } else {
      assert UnicodeVal(e) == 0x2000 + 0x20 + (s[2] as int - 160);
      assert s[..3] == [s[0], s[1], s[2]];
    }
  }

  lemma EscapeStep(s: Bytes, html: bool)
    ensures Escape(s, html) == if s == [] then [] else Escaped(s, html) + Escape(s[Taken(s, html)..], html)
    ensures Chars([]) && Unescape([]) == []
  {
  }

  /** Round trip: decoding what the encoder quotes gives the string back. */
  lemma {:induction false} UnescapeEscape(s: Bytes, html: bool)
    ensures Chars(Escape(s, html))
    ensures Unescape(Escape(s, html)) == s
  {
    hide *;
    EscapeStep(s, html);
    if s != [] {
      var n := Taken(s, html);
      UnescapeEscape(s[n..], html);
      UnescapeEscaped(s, html, Escape(s[n..], html));
      assert s == s[..n] + s[n..];
    }
  }
}
