// What the texts of the grammar mean: numbers, escapes, and the names of fields.

module Grammar {
  import opened Octets
  import opened JsonStrings
  import opened Json
  import opened Numbers
  import opened Usage
  import Body

  // ---------- numbers ----------

  predicate IsSign(s: Bytes) {
    s == [] || s == [MINUS]
  }

  /** Digits without a leading zero, unless it is the only one. */
  predicate IsWhole(s: Bytes) {
    s != [] && AllDigits(s) && (s[0] == 48 ==> |s| == 1)
  }

  predicate IsPoint(s: Bytes) {
    s == [] || (s[0] == 46 && |s| > 1 && AllDigits(s[1..]))
  }

  predicate IsPower(s: Bytes) {
    s == [] || ((s[0] == 101 || s[0] == 69) && |s| > 1
                && (AllDigits(s[1..]) || ((s[1] == 43 || s[1] == 45) && |s| > 2 && AllDigits(s[2..]))))
  }

  lemma {:induction false} DigitsExact(a: Bytes, b: Bytes)
    requires AllDigits(a) && (b == [] || !IsDigit(b[0]))
    ensures Digits(a + b) == |a|
  {
    if a == [] {
      assert a + b == b;
    } else {
      assert (a + b)[1..] == a[1..] + b;
      DigitsExact(a[1..], b);
    }
  }

  lemma {:induction false} DigitsPrefix(s: Bytes)
    ensures AllDigits(s[..Digits(s)]) && (Digits(s) < |s| ==> !IsDigit(s[Digits(s)]))
  {
    if s != [] && IsDigit(s[0]) {
      DigitsPrefix(s[1..]);
      assert s[..Digits(s)] == [s[0]] + s[1..][..Digits(s[1..])];
    }
  }

  lemma WholeDigits(s: Bytes)
    requires AllDigits(s)
    ensures Digits(s) == |s|
  {
    assert s + [] == s;
    DigitsExact(s, []);
  }

  lemma DigitsOnly(s: Bytes)
    ensures AllDigits(s) <==> Digits(s) == |s|
  {
    hide Digits;
    if AllDigits(s) {
      WholeDigits(s);
    }
    DigitsPrefix(s);
    assert s[..|s|] == s;
  }

  lemma PowerLegal(s: Bytes)
    ensures IsExponent(s) <==> IsPower(s)
  {
    hide Digits;
    if |s| > 1 {
      DigitsOnly(s[1..]);
      DigitsOnly(s[2..]);
      assert s[1..][0] == s[1];
    }
  }

  lemma FractionLegal(point: Bytes, power: Bytes)
    requires IsPoint(point) && IsPower(power)
    ensures IsFraction(point + power) && (point + power == [] || !IsDigit((point + power)[0]))
  {
    hide Digits, IsExponent;
    PowerLegal(power);
    if point == [] {
      assert point + power == power;
    } else {
      assert (point + power)[1..] == point[1..] + power;
      DigitsExact(point[1..], power);
      assert (point + power)[1 + |point[1..]|..] == power;
    }
  }

  lemma FractionParts(f: Bytes) returns (point: Bytes, power: Bytes)
    requires IsFraction(f)
    ensures f == point + power && IsPoint(point) && IsPower(power)
  {
    hide Digits, IsExponent;
    if f != [] && f[0] == DOT {
      var m := Digits(f[1..]);
      DigitsPrefix(f[1..]);
      point, power := f[..1 + m], f[1 + m..];
      assert point[1..] == f[1..][..m];
    } else {
      point, power := [], f;
      assert f == [] + f;
    }
    PowerLegal(power);
  }

  lemma SignFirst(sign: Bytes, u: Bytes)
    requires IsSign(sign) && u != [] && u[0] != MINUS
    ensures var s := sign + u; (if s[0] == MINUS then s[1..] else s) == u
  {
    if sign == [] {
      assert sign + u == u;
    } else {
      assert (sign + u)[1..] == u;
    }
  }

  /** A number is a sign, a whole part without needless zeros, perhaps a fraction, and perhaps an exponent:
      whatever is put together so is a number of the grammar. */
  lemma NumberLegal(sign: Bytes, whole: Bytes, point: Bytes, power: Bytes)
    requires IsSign(sign) && IsWhole(whole) && IsPoint(point) && IsPower(power)
    ensures IsNumber(sign + (whole + (point + power)))
  {
    hide Digits, IsFraction, IsPoint, IsPower;
    var f := point + power;
    var u := whole + f;
    FractionLegal(point, power);
    assert u[0] == whole[0] && IsDigit(whole[0]);
    SignFirst(sign, u);
    DigitsExact(whole, f);
    assert u[|whole|..] == f;
  }

  /** And every number of the grammar is put together so. */
  lemma NumberParts(s: Bytes) returns (sign: Bytes, whole: Bytes, point: Bytes, power: Bytes)
    requires IsNumber(s)
    ensures s == sign + (whole + (point + power))
    ensures IsSign(sign) && IsWhole(whole) && IsPoint(point) && IsPower(power)
  {
    hide Digits, IsFraction, IsPoint, IsPower;
    NoDigits();
    var u := if s[0] == MINUS then s[1..] else s;
    sign := if s[0] == MINUS then [MINUS] else [];
    assert s == sign + u;
    var n := Digits(u);
    DigitsPrefix(u);
    whole := u[..n];
    assert whole[0] == u[0];
    assert u == whole + u[n..];
    point, power := FractionParts(u[n..]);
  }

  lemma NoDigits()
    ensures Digits([]) == 0
  {
  }

  // ---------- escapes ----------

  /** What the one-letter escapes stand for. */
  lemma ShortEscapes(c: byte, rest: Bytes)
    requires IsShort(c)
    ensures Unescape([92, c] + rest)
            == [if c == 98 then 8 else if c == 102 then 12 else if c == 110 then 10 else if c == 114 then 13 else if c == 116 then 9 else c]
               + Unescape(rest)
    ensures c == 34 || c == 92 || c == 47 || c == 98 || c == 102 || c == 110 || c == 114 || c == 116
  {
    assert ([92, c] + rest)[2..] == rest;
  }

  /** A code in four hexadecimal digits stands for its character in UTF-8: one, two or three bytes. */
  lemma CodeEscapes()
    ensures Unescape([92, 117, 48, 48, 52, 49]) == [65]
    ensures Unescape([92, 117, 48, 48, 101, 57]) == [0xC3, 0xA9]
    ensures Unescape([92, 117, 50, 48, 65, 67]) == [0xE2, 0x82, 0xAC]
  {
    hide Unescape;
    UnescapeNothing();
    OneCode([92, 117, 48, 48, 52, 49]);
    OneCode([92, 117, 48, 48, 101, 57]);
    OneCode([92, 117, 50, 48, 65, 67]);
  }

  lemma UnescapeNothing()
    ensures Unescape([]) == []
  {
  }

  lemma OneCode(s: Bytes)
    requires |s| == 6 && IsUnicode(s) && UnicodeVal(s) < 0xD800
    ensures Unescape(s) == Utf8(UnicodeVal(s))
  {
    hide Utf8;
    UnescapeUnicode(s, []);
    UnescapeNothing();
    assert s + [] == s && Utf8(UnicodeVal(s)) + [] == Utf8(UnicodeVal(s));
  }

  /** A surrogate pair stands for one character of four bytes, and a lone surrogate for the replacement
      character. */
  lemma PairEscapes()
    ensures Unescape([92, 117, 100, 56, 51, 100, 92, 117, 100, 101, 48, 48]) == [0xF0, 0x9F, 0x98, 0x80]
    ensures Unescape([92, 117, 100, 56, 51, 100]) == [0xEF, 0xBF, 0xBD]
  {
    var s := [92, 117, 100, 56, 51, 100, 92, 117, 100, 101, 48, 48];
    assert s[6..] == [92, 117, 100, 101, 48, 48] && UnicodeVal(s) == 0xD83D && UnicodeVal(s[6..]) == 0xDE00;
    assert s[12..] == [];
    var t := [92, 117, 100, 56, 51, 100];
    assert UnicodeVal(t) == 0xD83D && t[6..] == [];
  }

  /** A whole number is in range exactly below the least that rounds past the largest 64-bit float. */
  lemma NumeralFits(n: nat)
    ensures Fits(Numeral(n)) <==> n < Pow2(1024) - Pow2(970)
  {
    hide Pow2, Natural, Numeral, Digits, IsNumber, IsScalar;
    NumeralReads(n);
    var s := Numeral(n);
    WholeDigits(s);
    assert IsDigit(s[0]);
    assert s[..|s|] == s && s[|s|..] == [];
    RoomBelow();
  }

  lemma RoomBelow()
    ensures Pow2(1024) - Pow2(970) > 0
  {
    Pow2Grows(971, 1024);
    Pow2Grows(970, 970);
    assert Pow2(971) == 2 * Pow2(970);
  }

  // ---------- names, letter case aside ----------

  /** c spells the small letter l: as it is, as a capital, or as the long s or the Kelvin sign. */
  predicate Letter(c: Bytes, l: byte) {
    c == [l] || (97 <= l <= 122 && c == [l - 32]) || (l == 115 && c == [0xC5, 0xBF]) || (l == 107 && c == [0xE2, 0x84, 0xAA])
  }

  /** s spells the name n letter by letter. */
  ghost predicate SpellsOut(s: Bytes, n: Bytes)
    decreases |n|
  {
    if n == [] then s == []
    else exists k :: 1 <= k <= |s| && Letter(s[..k], n[0]) && SpellsOut(s[k..], n[1..])
  }

  /** How many bytes the first character takes that folding looks at, and what it folds to. */
  lemma FoldStep(s: Bytes) returns (k: nat, l: byte)
    requires s != []
    ensures 1 <= k <= |s| && Body.Fold(s) == [l] + Body.Fold(s[k..])
    ensures 95 <= l <= 122 ==> Letter(s[..k], l)
    ensures forall j, m: byte | 1 <= j <= |s| && 95 <= m <= 122 && Letter(s[..j], m) :: j == k && m == l
  {
    if 65 <= s[0] <= 90 {
      k, l := 1, s[0] + 32;
    } else if |s| >= 2 && s[0] == 197 && s[1] == 191 {
      k, l := 2, 115;
    } else if |s| >= 3 && s[0] == 226 && s[1] == 132 && s[2] == 170 {
      k, l := 3, 107;
    } else {
      k, l := 1, s[0];
    }
    LetterShape(s);
  }

  lemma LetterShape(s: Bytes)
    requires s != []
    ensures forall j, m: byte | 1 <= j <= |s| && Letter(s[..j], m) ::
              || (j == 1 && (s[0] == m || (97 <= m <= 122 && s[0] == m - 32)))
              || (j == 2 && s[0] == 0xC5 && s[1] == 0xBF && m == 115)
              || (j == 3 && s[0] == 0xE2 && s[1] == 0x84 && s[2] == 0xAA && m == 107)
  {
    forall j, m: byte | 1 <= j <= |s| && Letter(s[..j], m)
      ensures || (j == 1 && (s[0] == m || (97 <= m <= 122 && s[0] == m - 32)))
              || (j == 2 && s[0] == 0xC5 && s[1] == 0xBF && m == 115)
              || (j == 3 && s[0] == 0xE2 && s[1] == 0x84 && s[2] == 0xAA && m == 107)
    {
      assert s[..j][0] == s[0];
      assert j >= 2 ==> s[..j][1] == s[1];
      assert j >= 3 ==> s[..j][2] == s[2];
    }
  }

  /** A member's name matches a field of the gateway exactly when it spells it, letter case aside. */
  lemma {:induction false} FoldMatches(s: Bytes, n: Bytes)
    requires Lower(n)
    ensures Body.Fold(s) == n <==> SpellsOut(s, n)
    decreases |s|
  {
    if s == [] {
      NothingFolds();
    } else {
      var k, l := FoldStep(s);
      hide Body.Fold, Letter;
      if n != [] {
        FoldMatches(s[k..], n[1..]);
        assert n == [n[0]] + n[1..];
        assert ([l] + Body.Fold(s[k..]))[1..] == Body.Fold(s[k..]);
      }
    }
  }

  lemma NothingFolds()
    ensures Body.Fold([]) == []
  {
  }
}
