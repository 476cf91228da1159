// Bytes as the gateway sees them, the few JSON punctuation bytes, and white space
// (RFC 8259, section 2).

module Wrappers {
  datatype Option<+T> = None | Some(value: T)
}

module Octets {
  newtype byte = x: int | 0 <= x < 256

  type Bytes = seq<byte>

  const QUOTE: byte := 34
  const PLUS: byte := 43
  const COMMA: byte := 44
  const MINUS: byte := 45
  const DOT: byte := 46
  const ZERO: byte := 48
  const COLON: byte := 58
  const OPEN_ARRAY: byte := 91
  const BACKSLASH: byte := 92
  const CLOSE_ARRAY: byte := 93
  const OPEN_OBJECT: byte := 123
  const CLOSE_OBJECT: byte := 125

  /** The bytes of an ASCII string literal. */
  function Ascii(s: string): (r: Bytes)
    requires forall i | 0 <= i < |s| :: s[i] < 128 as char
    ensures |r| == |s|
    ensures forall i | 0 <= i < |s| :: r[i] == s[i] as int as byte
  {
    seq(|s|, i requires 0 <= i < |s| => s[i] as int as byte)
  }

  lemma AsciiJoins(s: string, t: string)
    requires forall i | 0 <= i < |s| :: s[i] < 128 as char
    requires forall i | 0 <= i < |t| :: t[i] < 128 as char
    ensures Ascii(s + t) == Ascii(s) + Ascii(t)
  {
  }

  /** The characters Unicode calls white space. */
  predicate SpaceCode(v: int) {
    || 9 <= v <= 13 || v == 32 || v == 0x85 || v == 0xA0 || v == 0x1680 || 0x2000 <= v <= 0x200A
    || v == 0x2028 || v == 0x2029 || v == 0x202F || v == 0x205F || v == 0x3000
  }

  predicate IsWs(c: byte) {
    c == 32 || c == 10 || c == 9 || c == 13
  }

  predicate AllWs(s: Bytes) {
    forall i | 0 <= i < |s| :: IsWs(s[i])
  }

  /** The length of the longest prefix of white space. */
  function WsLen(s: Bytes): (n: nat)
    ensures n <= |s| && AllWs(s[..n])
    ensures n < |s| ==> !IsWs(s[n])
  {
    if s != [] && IsWs(s[0]) then 1 + WsLen(s[1..]) else 0
  }

  /** s without its leading white space. */
  function Trim(s: Bytes): (r: Bytes)
    ensures |r| <= |s|
    ensures r != [] ==> !IsWs(r[0])
  {
    s[WsLen(s)..]
  }

  /** What trimming a suffix t off s leaves in front of it. */
  function Before(s: Bytes, t: Bytes): (r: Bytes)
    requires |t| <= |s|
    ensures |r| == |s| - |t|
  {
    s[..|s| - |t|]
  }

  lemma TrimSplits(s: Bytes)
    ensures AllWs(Before(s, Trim(s)))
    ensures s == Before(s, Trim(s)) + Trim(s)
  {
  }

  /** Leading white space ends exactly where the first other byte begins. */
  lemma {:induction false} TrimExact(pad: Bytes, rest: Bytes)
    requires AllWs(pad)
    requires rest == [] || !IsWs(rest[0])
    ensures Trim(pad + rest) == rest
    ensures Before(pad + rest, rest) == pad
  {
    if pad == [] {
      assert pad + rest == rest;
    } else {
      assert (pad + rest)[1..] == pad[1..] + rest;
      TrimExact(pad[1..], rest);
    }
  }

  /** Trimming does not depend on white space put in front. */
  lemma TrimSkips(pad: Bytes, rest: Bytes)
    requires AllWs(pad)
    ensures Trim(pad + rest) == Trim(rest)
  {
    TrimSplits(rest);
    var lead := Before(rest, Trim(rest));
    assert pad + rest == (pad + lead) + Trim(rest);
    TrimExact(pad + lead, Trim(rest));
  }

  lemma Rejoin(a: Bytes, b: Bytes, c: Bytes)
    ensures a + (b + c) == (a + b) + c
  {
  }

  /** The head and tail of a sequence built from its first byte. */
  lemma Cons(c: byte, s: Bytes)
    ensures ([c] + s)[0] == c && ([c] + s)[1..] == s
  {
  }
}
