// What a line of an event stream shows, in its bytes.

module Lines {
  import opened Wrappers
  import opened Octets
  import opened Gate
  import JsonStrings

  // ---------- white space ----------

  /** The bytes the gate takes for a space are the UTF-8 of one of these characters, and the other way
      round. */
  lemma SpaceCodes(c: Bytes)
    ensures IsSpace(c) <==> exists v | SpaceCode(v) :: c == JsonStrings.Utf8(v)
  {
    hide IsSpace, JsonStrings.Utf8;
    if IsSpace(c) {
      var v := SpaceIs(c);
    }
    forall v | SpaceCode(v) && c == JsonStrings.Utf8(v) ensures IsSpace(c) {
      CodeIsSpace(v);
    }
  }

  lemma SpaceIs(c: Bytes) returns (v: int)
    requires IsSpace(c)
    ensures SpaceCode(v) && c == JsonStrings.Utf8(v)
  {
    v := if |c| == 1 then c[0] as int else if |c| == 2 then c[1] as int
         else (c[0] as int - 224) * 4096 + (c[1] as int - 128) * 64 + (c[2] as int - 128);
  }

  lemma CodeIsSpace(v: int)
    requires SpaceCode(v)
    ensures IsSpace(JsonStrings.Utf8(v))
  {
  }

  /** Space characters only. */
  predicate Blank(s: Bytes) {
    s == [] || (SpaceAhead(s) > 0 && Blank(s[SpaceAhead(s)..]))
  }

  /** No space character at either end. */
  predicate Bare(s: Bytes) {
    SpaceAhead(s) == 0 && SpaceBehind(s) == 0
  }

  predicate LineEnd(s: Bytes) {
    forall i | 0 <= i < |s| :: s[i] == 10 || s[i] == 13
  }

  /** Bytes a space character may begin with. */
  predicate Starts(c: byte) {
    9 <= c <= 13 || c == 32 || c == 0xC2 || 0xE1 <= c <= 0xE3
  }

  lemma SpaceShape(c: Bytes)
    requires IsSpace(c)
    ensures 1 <= |c| <= 3 && Starts(c[0]) && forall i | 0 < i < |c| :: 0x80 <= c[i] < 0xC0
    ensures |c| > 1 ==> !IsSpace(c[|c| - 1..]) && !IsSpace(c[..1])
    ensures |c| == 3 ==> !IsSpace(c[1..]) && !IsSpace(c[..2])
  {
  }

  /** A space character at the head is seen whatever follows it. */
  lemma AheadLocal(s: Bytes, x: Bytes)
    requires SpaceAhead(s) > 0
    ensures SpaceAhead(s + x) == SpaceAhead(s)
  {
    hide IsSpace;
    assert (s + x)[..1] == s[..1];
    assert |s| >= 2 ==> (s + x)[..2] == s[..2];
    assert |s| >= 3 ==> (s + x)[..3] == s[..3];
  }

  lemma BehindLocal(x: Bytes, s: Bytes)
    requires SpaceBehind(s) > 0
    ensures SpaceBehind(x + s) == SpaceBehind(s)
  {
    hide IsSpace;
    var y := x + s;
    assert y[|y| - 1..] == s[|s| - 1..];
    assert |s| >= 2 ==> y[|y| - 2..] == s[|s| - 2..];
    assert |s| >= 3 ==> y[|y| - 3..] == s[|s| - 3..];
  }

  lemma {:induction false} BlankJoins(a: Bytes, b: Bytes)
    requires Blank(a) && Blank(b)
    ensures Blank(a + b)
  {
    hide IsSpace;
    if a == [] {
      assert a + b == b;
    } else {
      var n := SpaceAhead(a);
      AheadLocal(a, b);
      assert (a + b)[n..] == a[n..] + b;
      BlankJoins(a[n..], b);
    }
  }

  lemma WholeSpace(c: Bytes)
    requires IsSpace(c)
    ensures SpaceBehind(c) == |c| && SpaceAhead(c) == |c|
  {
    hide IsSpace;
    SpaceShape(c);
    assert c[..|c|] == c && c[0..] == c;
  }

  lemma AheadIsSpace(s: Bytes)
    requires SpaceAhead(s) > 0
    ensures IsSpace(s[..SpaceAhead(s)])
  {
  }

  /** Blanks end with a space character, and are blanks without it. */
  lemma {:induction false} BlankBehind(b: Bytes)
    requires Blank(b) && b != []
    ensures SpaceBehind(b) > 0 && Blank(b[..|b| - SpaceBehind(b)])
  {
    hide IsSpace, SpaceBehind;
    var n := SpaceAhead(b);
    AheadIsSpace(b);
    WholeSpace(b[..n]);
    if n == |b| {
      assert b[..n] == b;
      assert b[..0] == [];
    } else {
      var r := b[n..];
      BlankBehind(r);
      var m := SpaceBehind(r);
      assert b == b[..n] + r;
      BehindLocal(b[..n], r);
      assert b[..|b| - m] == b[..n] + r[..|r| - m];
      BlankChar(b[..n]);
      BlankJoins(b[..n], r[..|r| - m]);
    }
  }

  lemma BlankChar(c: Bytes)
    requires SpaceAhead(c) == |c|
    ensures Blank(c)
  {
    assert c[|c|..] == [];
  }

  /** A space character never straddles the end of bare text and the blanks after it. */
  lemma NoneAhead(d: Bytes, b: Bytes)
    requires d != [] && SpaceAhead(d) == 0 && Blank(b)
    ensures SpaceAhead(d + b) == 0
  {
    hide IsSpace;
    if b == [] {
      assert d + b == d;
    } else {
      var s := d + b;
      AheadIsSpace(b);
      SpaceShape(b[..SpaceAhead(b)]);
      forall k | 1 <= k <= 3 && k <= |s| ensures !IsSpace(s[..k]) {
        if k <= |d| {
          assert s[..k] == d[..k];
        } else {
          assert s[..k][|d|] == b[0];
          NotInside(s[..k], |d|);
        }
      }
    }
  }

  lemma NotInside(c: Bytes, i: nat)
    requires 0 < i < |c| && Starts(c[i])
    ensures !IsSpace(c)
  {
  }

  // ---------- trimming ----------

  lemma {:induction false} TrimAhead(a: Bytes, x: Bytes)
    requires Blank(a)
    ensures TrimSpace(a + x) == TrimSpace(x)
  {
    hide IsSpace, SpaceAhead, SpaceBehind;
    if a == [] {
      assert a + x == x;
    } else {
      var n := SpaceAhead(a);
      AheadLocal(a, x);
      assert (a + x)[n..] == a[n..] + x;
      TrimAhead(a[n..], x);
    }
  }

  lemma {:induction false} TrimBehind(d: Bytes, b: Bytes)
    requires d != [] && Bare(d) && Blank(b)
    ensures TrimSpace(d + b) == d
    decreases |b|
  {
    hide IsSpace, SpaceAhead, SpaceBehind, Blank;
    NoneAhead(d, b);
    if b == [] {
      assert d + b == d;
    } else {
      BlankBehind(b);
      BehindLocal(d, b);
      var n := SpaceBehind(b);
      assert (d + b)[..|d + b| - n] == d + b[..|b| - n];
      TrimBehind(d, b[..|b| - n]);
    }
  }

  lemma TrimNothing()
    ensures TrimSpace([]) == []
  {
  }

  /** Trimming takes off all white space at the ends and nothing else. */
  lemma TrimMeans(a: Bytes, d: Bytes, b: Bytes)
    requires Blank(a) && Bare(d) && Blank(b)
    ensures TrimSpace(a + d + b) == d
  {
    hide TrimSpace, Blank;
    assert a + d + b == a + (d + b);
    TrimAhead(a, d + b);
    if d == [] {
      assert d + b == b && b == b + [];
      TrimAhead(b, []);
      TrimNothing();
    } else {
      TrimBehind(d, b);
    }
  }

  lemma {:induction false} ChopEnd(x: Bytes, e: Bytes)
    requires LineEnd(e)
    ensures Chop(x + e) == Chop(x)
  {
    if e == [] {
      assert x + e == x;
    } else {
      assert (x + e)[..|x + e| - 1] == x + e[..|e| - 1];
      ChopEnd(x, e[..|e| - 1]);
    }
  }

  lemma ShortBlank(b: Bytes)
    requires Blank(b) && b != [] && (b[|b| - 1] == 10 || b[|b| - 1] == 13)
    ensures Blank(b[..|b| - 1])
  {
    BlankBehind(b);
    assert b[|b| - 1..] == [b[|b| - 1]];
    assert IsSpace(b[|b| - 1..]);
  }

  /** What is left of a text and blanks once trailing line ends are gone. */
  lemma {:induction false} ChopBlank(y: Bytes, b: Bytes) returns (b': Bytes)
    requires y != [] && y[|y| - 1] != 10 && y[|y| - 1] != 13 && Blank(b)
    ensures Blank(b') && Chop(y + b) == y + b'
    decreases |b|
  {
    hide Blank;
    var s := y + b;
    if b != [] && (b[|b| - 1] == 10 || b[|b| - 1] == 13) {
      ShortBlank(b);
      assert s[..|s| - 1] == y + b[..|b| - 1];
      b' := ChopBlank(y, b[..|b| - 1]);
    } else {
      b' := b;
    }
  }

  // ---------- the content of a line ----------

  const HEAD: Bytes := [100, 97, 116, 97, 58]          // data:
  const STOP: Bytes := [91, 68, 79, 78, 69, 93]        // [DONE]

  lemma MarksSpelled()
    ensures DATA == HEAD && DONE == STOP
  {
  }

  lemma HeadStays(y: Bytes)
    ensures Begins(HEAD + y, HEAD) && (HEAD + y)[|HEAD|..] == y
  {
  }

  lemma BareEnd(d: Bytes)
    requires d != [] && SpaceBehind(d) == 0
    ensures d[|d| - 1] != 10 && d[|d| - 1] != 13
  {
    assert d[|d| - 1..] == [d[|d| - 1]];
  }

  lemma HeadFirst(a: Bytes, d: Bytes, b: Bytes)
    ensures HEAD + a + d + b == HEAD + (a + d + b)
  {
  }

  /** For every line that begins with data: and goes on with white space, text that has none at its ends,
      white space and line ends: its content is that text, if there is any and it is not [DONE]. */
  lemma ContentMeans(a: Bytes, d: Bytes, b: Bytes, e: Bytes)
    requires Blank(a) && Bare(d) && Blank(b) && LineEnd(e)
    ensures Content(HEAD + a + d + b + e) == if d == [] || d == STOP then None else Some(d)
  {
    hide Blank, Chop, TrimSpace, SpaceAhead, SpaceBehind, Begins;
    MarksSpelled();
    ChopEnd(HEAD + a + d + b, e);
    if d == [] {
      BlankJoins(a, b);
      assert HEAD + a + d + b == HEAD + (a + b);
      var c := ChopBlank(HEAD, a + b);
      HeadStays(c);
      BareNothing();
      BlankNothing();
      TrimMeans(c, [], []);
      assert c + [] + [] == c;
    } else {
      BareEnd(d);
      var c := ChopBlank(HEAD + a + d, b);
      HeadFirst(a, d, c);
      HeadStays(a + d + c);
      TrimMeans(a, d, c);
    }
  }

  lemma BareNothing()
    ensures Bare([])
  {
  }

  lemma BlankNothing()
    ensures Blank([])
  {
  }

  lemma {:induction false} ChopPrefix(s: Bytes)
    ensures Chop(s) <= s
  {
    if s != [] && (s[|s| - 1] == 10 || s[|s| - 1] == 13) {
      ChopPrefix(s[..|s| - 1]);
    }
  }

  /** A line that does not begin with data: has no content. */
  lemma ContentNeedsData(line: Bytes)
    requires !(HEAD <= line)
    ensures Content(line) == None
  {
    hide Chop, TrimSpace;
    MarksSpelled();
    ChopPrefix(line);
    if |Chop(line)| >= 5 {
      assert Chop(line)[..5] == line[..5];
    }
  }

  /** Every text is white space, text that has none at its ends, and white space: so the two lemmas above
      tell the content of every line. */
  lemma {:induction false} Trimmed(x: Bytes) returns (a: Bytes, d: Bytes, b: Bytes)
    ensures x == a + d + b && Blank(a) && Bare(d) && Blank(b)
    decreases |x|
  {
    hide IsSpace, SpaceAhead, SpaceBehind, Blank;
    if SpaceAhead(x) > 0 {
      var n := SpaceAhead(x);
      AheadIsSpace(x);
      WholeSpace(x[..n]);
      BlankChar(x[..n]);
      a, d, b := Trimmed(x[n..]);
      Front(x, n, a, d, b);
      BlankJoins(x[..n], a);
      a := x[..n] + a;
    } else if SpaceBehind(x) > 0 {
      var n := |x| - SpaceBehind(x);
      BehindIsSpace(x);
      WholeSpace(x[n..]);
      BlankChar(x[n..]);
      a, d, b := Trimmed(x[..n]);
      Rear(x, n, a, d, b);
      BlankJoins(b, x[n..]);
      b := b + x[n..];
    } else {
      BlankNothing();
      a, d, b := [], x, [];
      assert [] + x + [] == x;
    }
  }

  lemma Front(x: Bytes, n: nat, a: Bytes, d: Bytes, b: Bytes)
    requires n <= |x| && x[n..] == a + d + b
    ensures x == x[..n] + a + d + b
  {
    assert x == x[..n] + x[n..];
  }

  lemma Rear(x: Bytes, n: nat, a: Bytes, d: Bytes, b: Bytes)
    requires n <= |x| && x[..n] == a + d + b
    ensures x == a + d + (b + x[n..])
  {
    assert x == x[..n] + x[n..];
  }

  lemma BehindIsSpace(s: Bytes)
    requires SpaceBehind(s) > 0
    ensures IsSpace(s[|s| - SpaceBehind(s)..])
  {
  }
}
