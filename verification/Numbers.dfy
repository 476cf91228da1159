// Numbers as the token reader converts them: a JSON number is an error when it lies outside the
// range of a 64-bit float (IEEE 754 binary64).

module Numbers {
  import opened Octets
  import opened Json

  /** The value of a string of digits. */
  function Natural(s: Bytes): nat {
    if s == [] then 0
    else
      var c := s[|s| - 1];
      10 * Natural(s[..|s| - 1]) + (if IsDigit(c) then c as int - 48 else 0)
  }

  function Pow2(n: nat): nat {
    if n == 0 then 1 else 2 * Pow2(n - 1)
  }

  function Pow10(n: nat): nat {
    if n == 0 then 1 else 10 * Pow10(n - 1)
  }

  /** The least magnitude that rounds beyond the largest finite number. */
  function Limit(): int {
    Pow2(1024) - Pow2(970)
  }

  /** An exponent's digits, read on until five of them are significant. */
  function Exponent(s: Bytes, e: nat): nat {
    if s == [] then e
    else Exponent(s[1..], if e < 10000 && IsDigit(s[0]) then 10 * e + (s[0] as int - 48) else e)
  }

  // A number taken apart: its digits without the point, how many follow the point, the exponent.
  datatype Decimal = Decimal(digits: Bytes, places: nat, exp: int)

  function ExponentOf(s: Bytes): int {
    if s == [] then 0
    else if 1 < |s| && s[1] == MINUS then 0 - Exponent(s[2..], 0)
    else if 1 < |s| && s[1] == PLUS then Exponent(s[2..], 0)
    else Exponent(s[1..], 0)
  }

  function DecimalOf(word: Bytes): Decimal {
    var u := if word != [] && word[0] == MINUS then word[1..] else word;
    var whole, rest := u[..Digits(u)], u[Digits(u)..];
    if rest != [] && rest[0] == DOT then
      var n := Digits(rest[1..]);
      Decimal(whole + rest[1..1 + n], n, ExponentOf(rest[1 + n..]))
    else Decimal(whole, 0, ExponentOf(rest))
  }

  /** Whether the magnitude m times ten to the p stays below the limit. */
  predicate Below(m: nat, p: int) {
    m == 0 || (if p >= 0 then m * Pow10(p) < Limit() else m < Limit() * Pow10(-p))
  }

  /** The three literal names, and the numbers a float can hold. */
  predicate Fits(word: Bytes) {
    word == TRUE || word == FALSE || word == NULL ||
    var d := DecimalOf(word); Below(Natural(d.digits), d.exp - d.places)
  }

  /** Every number in the value fits. */
  predicate InRange(j: Json) {
    match j
    case Scalar(word) => Fits(word)
    case Array(items) => ItemsInRange(items)
    case Object(ms) => MembersInRange(ms)
    case _ => true
  }

  predicate ItemsInRange(items: Items) {
    InRange(items.val) && (items.MoreItems? ==> ItemsInRange(items.rest))
  }

  predicate MembersInRange(ms: Members) {
    InRange(ms.m.val) && (ms.MoreMembers? ==> MembersInRange(ms.rest))
  }

  // ---------- one that does not fit ----------

  lemma {:induction false} Pow2Grows(m: nat, n: nat)
    requires m <= n
    ensures 0 < Pow2(m) <= Pow2(n)
  {
    if m < n {
      Pow2Grows(m, n - 1);
    } else if m > 0 {
      Pow2Grows(m - 1, n - 1);
    }
  }

  lemma {:induction false} Pow10Grows(n: nat)
    ensures Pow10(n) >= Pow2(3 * n)
  {
    if n > 0 {
      Pow10Grows(n - 1);
      var k := 3 * (n - 1);
      assert Pow2(k + 3) == 2 * Pow2(k + 2) && Pow2(k + 2) == 2 * Pow2(k + 1) && Pow2(k + 1) == 2 * Pow2(k);
    }
  }

  /** The number 1e999. */
  const HUGE: Bytes := [49, 101, 57, 57, 57]

  lemma HugeTails()
    ensures HUGE[1..] == [101, 57, 57, 57] && [101, 57, 57, 57][1..] == [57, 57, 57]
    ensures [57, 57, 57][1..] == [57, 57] && [57, 57][1..] == [57] && [57][1..] == []
    ensures HUGE[..1] == [49] && [49][..0] == []
  {
  }

  lemma HugeDecimal()
    ensures DecimalOf(HUGE) == Decimal([49], 0, 999) && Natural([49]) == 1
  {
    HugeTails();
    assert Digits([101, 57, 57, 57]) == 0 && Digits(HUGE) == 1;
    assert Exponent([57, 57, 57], 0) == Exponent([57, 57], 9) == Exponent([57], 99) == Exponent([], 999) == 999;
  }

  lemma HugeScalar()
    ensures IsScalar(HUGE)
  {
    HugeTails();
    assert Digits([57]) == 1 && Digits([57, 57]) == 2 && Digits([57, 57, 57]) == 3;
    assert Digits([101, 57, 57, 57]) == 0 && Digits(HUGE) == 1;
  }

  lemma HugeDoesNotFit()
    ensures IsScalar(HUGE) && !Fits(HUGE)
  {
    hide Pow2, Pow10, Digits, DecimalOf, IsScalar;
    HugeDecimal();
    HugeScalar();
    Pow10Grows(999);
    Pow2Grows(1024, 2997);
    Pow2Grows(970, 1024);
    assert |HUGE| == 5;
    assert 1 * Pow10(999) == Pow10(999);
  }
}
