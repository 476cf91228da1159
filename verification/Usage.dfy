// What an upstream reply says of itself: an error, or what it cost.

module Usage {
  import opened Wrappers
  import opened Octets
  import opened JsonStrings
  import opened Json
  import opened Ledger
  import opened Numbers
  import Body

  const ERROR: Bytes := Ascii("error")
  const USAGE: Bytes := Ascii("usage")
  const PROMPT: Bytes := Ascii("prompt_tokens")
  const COMPLETION: Bytes := Ascii("completion_tokens")
  const TOTAL: Bytes := Ascii("total_tokens")
  const MAX_INT: int := 0x8000_0000_0000_0000

  // ---------- integers ----------

  predicate AllDigits(s: Bytes) {
    forall i | 0 <= i < |s| :: IsDigit(s[i])
  }

  /** A number spelled as an integer that fits 64 bits. */
  function IntOf(word: Bytes): Option<int> {
    var minus := word != [] && word[0] == MINUS;
    var u := if minus then word[1..] else word;
    if u == [] || !AllDigits(u) then None
    else
      var v: int := if minus then 0 - Natural(u) else Natural(u);
      if -MAX_INT <= v < MAX_INT then Some(v) else None
  }

  // ---------- usage ----------

  /** A count: null leaves what there was, and nothing but an integer will do otherwise. */
  function CountOr(j: Json, was: int): Option<int> {
    if j.Scalar? then if j.word == NULL then Some(was) else IntOf(j.word) else None
  }

  function TakeCount(s: Spend, m: Member): Option<Spend> {
    var n := Body.Fold(Name(m));
    if n == PROMPT then
      match CountOr(m.val, s.input) case None => None case Some(v) => Some(s.(input := v))
    else if n == COMPLETION then
      match CountOr(m.val, s.output) case None => None case Some(v) => Some(s.(output := v))
    else if n == TOTAL then
      match CountOr(m.val, s.total) case None => None case Some(v) => Some(s.(total := v))
    else Some(s)
  }

  function TakeCounts(s: Spend, ms: Members): Option<Spend>
    decreases ms
  {
    match TakeCount(s, ms.m)
    case None => None
    case Some(t) => if ms.MoreMembers? then TakeCounts(t, ms.rest) else Some(t)
  }

  /** An object decoded into the counts there were. */
  function TakeSpend(was: Spend, j: Json): Option<Spend> {
    match j
    case EmptyObject(_) => Some(was)
    case Object(ms) => TakeCounts(was, ms)
    case _ => None
  }

  /** A missing total filled in from its parts. */
  function Fill(s: Spend): Spend {
    if s.total == 0 then s.(total := s.input + s.output) else s
  }

  /** The usage object that text is. */
  function SpendIn(text: Bytes): Option<Spend> {
    match Parse(text)
    case None => None
    case Some(d) => TakeSpend(NO_SPEND, d.root)
  }

  // ---------- the verdict ----------

  datatype Answer = Answer(error: bool, usage: Option<Spend>)

  function TakeAnswer(a: Answer, m: Member): Option<Answer> {
    var n := Body.Fold(Name(m));
    if n == ERROR then Some(a.(error := m.val != Scalar(NULL)))
    else if n == USAGE then
      if m.val == Scalar(NULL) then Some(a.(usage := None))
      else
        match TakeSpend(if a.usage.Some? then a.usage.value else NO_SPEND, m.val)
        case None => None
        case Some(s) => Some(a.(usage := Some(s)))
    else Some(a)
  }

  function TakeAnswers(a: Answer, ms: Members): Option<Answer>
    decreases ms
  {
    match TakeAnswer(a, ms.m)
    case None => None
    case Some(b) => if ms.MoreMembers? then TakeAnswers(b, ms.rest) else Some(b)
  }

  // An error to report; or none, with the usage if it is told.
  datatype Verdict = Erroneous | Fine(usage: Option<Spend>)

  /** Text that is no object, or one whose usage is mistyped, is taken at face value. */
  function VerdictOf(text: Bytes): Verdict {
    match Parse(text)
    case None => Fine(None)
    case Some(d) =>
      if !d.root.Object? then Fine(None)
      else
        match TakeAnswers(Answer(false, None), d.root.members)
        case None => Fine(None)
        case Some(a) =>
          if a.error then Erroneous
          else Fine(match a.usage case None => None case Some(s) => Some(Fill(s)))
  }

  predicate Carries(text: Bytes) {
    VerdictOf(text).Erroneous?
  }

  // ---------- what the verdict means ----------

  predicate IsCount(j: Json) {
    j.Scalar? && (j.word == NULL || IntOf(j.word).Some?)
  }

  predicate CountsOk(ms: Members) {
    && (Body.Named(ms.m, PROMPT) || Body.Named(ms.m, COMPLETION) || Body.Named(ms.m, TOTAL) ==> IsCount(ms.m.val))
    && (ms.MoreMembers? ==> CountsOk(ms.rest))
  }

  predicate UsageOk(j: Json) {
    j == Scalar(NULL) || j.EmptyObject? || (j.Object? && CountsOk(j.members))
  }

  /** Every usage is null or an object of integers. */
  predicate WellTyped(ms: Members) {
    (Body.Named(ms.m, [117, 115, 97, 103, 101]) ==> UsageOk(ms.m.val)) && (ms.MoreMembers? ==> WellTyped(ms.rest))
  }

  lemma NamesDiffer()
    ensures PROMPT != COMPLETION && PROMPT != TOTAL && COMPLETION != TOTAL
    ensures ERROR == [101, 114, 114, 111, 114] && USAGE == [117, 115, 97, 103, 101] && ERROR != USAGE
  {
    assert PROMPT[0] == 112 && COMPLETION[0] == 99 && TOTAL[0] == 116;
    assert ERROR[0] == 101 && USAGE[0] == 117;
  }

  lemma {:induction false} CountsTyped(s: Spend, ms: Members)
    ensures TakeCounts(s, ms).Some? <==> CountsOk(ms)
    decreases ms
  {
    hide IntOf, Body.Fold, Unescape;
    var t := TakeCount(s, ms.m);
    if t.Some? && ms.MoreMembers? {
      CountsTyped(t.value, ms.rest);
    }
  }

  lemma {:induction false} AnswersTyped(a: Answer, ms: Members)
    ensures TakeAnswers(a, ms).Some? <==> WellTyped(ms)
    ensures TakeAnswers(a, ms).Some? ==>
              (TakeAnswers(a, ms).value.error
               <==> match Body.LastNamed(ms, ERROR) case None => a.error case Some(v) => v != Scalar(NULL))
    decreases ms
  {
    hide CountsOk, TakeCounts, Body.Fold, Unescape;
    NamesDiffer();
    if ms.m.val.Object? {
      CountsTyped(if a.usage.Some? then a.usage.value else NO_SPEND, ms.m.val.members);
    }
    var b := TakeAnswer(a, ms.m);
    if b.Some? && ms.MoreMembers? {
      AnswersTyped(b.value, ms.rest);
    }
  }

  /** A reply is refused for an error if and only if it is an object whose last error member is not
      null and whose every usage is null or an object of integers. */
  lemma VerdictMeans(text: Bytes)
    ensures Carries(text) <==>
              Parse(text).Some? && Parse(text).value.root.Object?
              && var ms := Parse(text).value.root.members;
                 var error := Body.LastNamed(ms, [101, 114, 114, 111, 114]);
                 WellTyped(ms) && error.Some? && error.value != Scalar([110, 117, 108, 108])
  {
    hide Parse, WellTyped, Body.LastNamed, TakeAnswers;
    NamesDiffer();
    if Parse(text).Some? && Parse(text).value.root.Object? {
      AnswersTyped(Answer(false, None), Parse(text).value.root.members);
    }
  }

  // ---------- counts are read back ----------

  function Numeral(n: nat): (s: Bytes)
    ensures s != []
  {
    if n < 10 then [(48 + n) as byte] else Numeral(n / 10) + [(48 + n % 10) as byte]
  }

  lemma {:induction false} NumeralReads(n: nat)
    ensures AllDigits(Numeral(n)) && Natural(Numeral(n)) == n
    ensures Numeral(n)[0] == ZERO ==> n == 0
  {
    if n < 10 {
      assert [(48 + n) as byte][..0] == [];
    } else {
      NumeralReads(n / 10);
      var s := Numeral(n / 10);
      assert (s + [(48 + n % 10) as byte])[..|s|] == s;
    }
  }

  lemma {:induction false} DigitsAll(s: Bytes)
    requires AllDigits(s)
    ensures Digits(s) == |s|
  {
    if s != [] {
      DigitsAll(s[1..]);
    }
  }

  lemma NumeralScalar(n: nat)
    ensures IsScalar(Numeral(n)) && Numeral(n) != NULL
    ensures n < MAX_INT ==> IntOf(Numeral(n)) == Some(n)
  {
    hide Natural;
    NumeralReads(n);
    var s := Numeral(n);
    DigitsAll(s);
    assert IsDigit(s[0]);
    assert s[|s|..] == [];
    assert n == 0 ==> s == [48];
  }

  function CountMember(name: Bytes, n: nat): Member {
    Member([], name, [], [], Scalar(Numeral(n)), [])
  }

  /** The usage object a provider sends. */
  function Told(s: Spend): Json
    requires Small(s)
  {
    Object(MoreMembers(CountMember(PROMPT, s.input),
           MoreMembers(CountMember(COMPLETION, s.output),
           LastMember(CountMember(TOTAL, s.total)))))
  }

  predicate Small(s: Spend) {
    0 <= s.input < MAX_INT && 0 <= s.output < MAX_INT && 0 <= s.total < MAX_INT
  }

  /** Small letters and underscores. */
  predicate Lower(s: Bytes) {
    forall i | 0 <= i < |s| :: 95 <= s[i] < 123
  }

  lemma CountsLower()
    ensures Lower(PROMPT) && Lower(COMPLETION) && Lower(TOTAL)
  {
    assert Lower(PROMPT) by {
      LowerText("prompt_tokens");
    }
    assert Lower(COMPLETION) by {
      LowerText("completion_tokens");
    }
    assert Lower(TOTAL) by {
      LowerText("total_tokens");
    }
  }

  lemma LowerText(s: string)
    requires forall i | 0 <= i < |s| :: '_' <= s[i] <= 'z'
    ensures Lower(Ascii(s))
  {
  }

  lemma CountNames(name: Bytes)
    requires name == PROMPT || name == COMPLETION || name == TOTAL
    ensures Chars(name) && Unescape(name) == name && Body.Fold(name) == name
  {
    hide Chars, Unescape, Body.Fold, Ascii, Lower;
    CountsLower();
    LowerSpells(name);
  }

  lemma LowerSpells(name: Bytes)
    requires Lower(name)
    ensures Chars(name) && Unescape(name) == name && Body.Fold(name) == name
  {
    hide Chars, Unescape, Body.Fold;
    PlainSpellsItself(name);
    Body.FoldLower(name);
  }

  lemma CountMemberReads(name: Bytes, n: nat, s: Spend)
    requires (name == PROMPT || name == COMPLETION || name == TOTAL) && n < MAX_INT
    ensures WfMember(CountMember(name, n))
    ensures TakeCount(s, CountMember(name, n))
            == Some(if name == PROMPT then s.(input := n) else if name == COMPLETION then s.(output := n) else s.(total := n))
  {
    hide Chars, Unescape, Body.Fold, IsScalar, Numeral, IntOf;
    NamesDiffer();
    CountNames(name);
    NumeralScalar(n);
  }

  /** Round trip: counts below 2^63, spelled as a usage object, are read back. */
  lemma UsageReads(s: Spend)
    requires Small(s)
    ensures SpendIn(Text(Told(s))) == Some(s)
  {
    hide Parse, TakeCount, CountMember, WfMember, Spell;
    var a, b, c := CountMember(PROMPT, s.input), CountMember(COMPLETION, s.output), CountMember(TOTAL, s.total);
    NamesDiffer();
    var s1 := NO_SPEND.(input := s.input);
    var s2 := s1.(output := s.output);
    CountMemberReads(PROMPT, s.input, NO_SPEND);
    CountMemberReads(COMPLETION, s.output, s1);
    CountMemberReads(TOTAL, s.total, s2);
    assert WfMembers(LastMember(c));
    assert WfMembers(MoreMembers(b, LastMember(c)));
    var d := Doc([], Told(s), []);
    ParseText(d);
    assert DocText(d) == [] + Text(Told(s)) == Text(Told(s));
    assert TakeCounts(s2, LastMember(c)) == Some(s);
    assert TakeCounts(s1, MoreMembers(b, LastMember(c))) == Some(s);
  }

  /** A usage object that tells no total. */
  function Untotalled(input: nat, output: nat): Json {
    Object(MoreMembers(CountMember(PROMPT, input), LastMember(CountMember(COMPLETION, output))))
  }

  /** A provider that tells no total is charged the sum of the two parts it tells, and one that tells
      a total other than 0 that total. */
  lemma TotalCharged(input: nat, output: nat, total: nat)
    requires Small(Spend(input, output, total))
    ensures SpendIn(Text(Untotalled(input, output))).Some? && SpendIn(Text(Told(Spend(input, output, total)))).Some?
    ensures Fill(SpendIn(Text(Untotalled(input, output))).value) == Spend(input, output, input + output)
    ensures total != 0 ==> Fill(SpendIn(Text(Told(Spend(input, output, total)))).value) == Spend(input, output, total)
  {
    hide Parse, TakeCount, CountMember, WfMember, Spell, SpendIn;
    UsageReads(Spend(input, output, total));
    UntotalledReads(input, output);
  }

  lemma UntotalledReads(input: nat, output: nat)
    requires input < MAX_INT && output < MAX_INT
    ensures SpendIn(Text(Untotalled(input, output))) == Some(Spend(input, output, 0))
  {
    hide Parse, TakeCount, CountMember, WfMember, Spell;
    NamesDiffer();
    var s1 := NO_SPEND.(input := input);
    CountMemberReads(PROMPT, input, NO_SPEND);
    CountMemberReads(COMPLETION, output, s1);
    var b := LastMember(CountMember(COMPLETION, output));
    assert WfMembers(b);
    var d := Doc([], Untotalled(input, output), []);
    ParseText(d);
    assert DocText(d) == [] + Text(Untotalled(input, output)) == Text(Untotalled(input, output));
    assert TakeCounts(s1, b) == Some(Spend(input, output, 0));
  }

  predicate NoBraces(s: Bytes) {
    forall i | 0 <= i < |s| :: s[i] != OPEN_OBJECT && s[i] != CLOSE_OBJECT
  }

  /** A count member up to what follows its number. */
  function CountText(name: Bytes, n: nat): Bytes {
    [QUOTE] + name + [QUOTE, COLON] + Numeral(n)
  }

  /** What stands between the braces of a usage object. */
  function Between(s: Spend): Bytes
    requires Small(s)
  {
    CountText(PROMPT, s.input) + ([COMMA] + (CountText(COMPLETION, s.output) + ([COMMA] + CountText(TOTAL, s.total))))
  }

  lemma CountSpells(name: Bytes, n: nat, k: Bytes)
    ensures SpellHead(CountMember(name, n), Spell(Scalar(Numeral(n)), [] + k)) == CountText(name, n) + k
  {
    hide Numeral;
    assert [] + k == k;
  }

  lemma CountFlat(name: Bytes, n: nat)
    requires name == PROMPT || name == COMPLETION || name == TOTAL
    ensures NoBraces(CountText(name, n))
  {
    hide Numeral, Ascii;
    NumeralReads(n);
    CountsLower();
  }

  lemma ToldText(s: Spend)
    requires Small(s)
    ensures Text(Told(s)) == [OPEN_OBJECT] + Between(s) + [CLOSE_OBJECT] && NoBraces(Between(s))
  {
    hide CountText, SpellHead, Numeral, NoBraces;
    var c := LastMember(CountMember(TOTAL, s.total));
    var b := MoreMembers(CountMember(COMPLETION, s.output), c);
    var end := [CLOSE_OBJECT] + [];
    CountSpells(TOTAL, s.total, end);
    var z := CountText(TOTAL, s.total);
    assert SpellMembers(c, []) == z + end;
    var y := CountText(COMPLETION, s.output);
    CountSpells(COMPLETION, s.output, [COMMA] + SpellMembers(c, []));
    assert SpellMembers(b, []) == y + ([COMMA] + (z + end));
    var x := CountText(PROMPT, s.input);
    CountSpells(PROMPT, s.input, [COMMA] + SpellMembers(b, []));
    assert SpellMembers(MoreMembers(CountMember(PROMPT, s.input), b), []) == x + ([COMMA] + (y + ([COMMA] + (z + end))));
    assert Told(s) == Object(MoreMembers(CountMember(PROMPT, s.input), b));
    assert Text(Told(s)) == [OPEN_OBJECT] + (x + ([COMMA] + (y + ([COMMA] + (z + end)))));
    Regroup(x, y, z);
    CountFlat(PROMPT, s.input);
    CountFlat(COMPLETION, s.output);
    CountFlat(TOTAL, s.total);
    FlatJoins(y, z);
    FlatJoins(x, y + ([COMMA] + z));
  }

  lemma FlatJoins(a: Bytes, b: Bytes)
    requires NoBraces(a) && NoBraces(b)
    ensures NoBraces(a + ([COMMA] + b))
  {
  }

  lemma Regroup(x: Bytes, y: Bytes, z: Bytes)
    ensures [OPEN_OBJECT] + (x + ([COMMA] + (y + ([COMMA] + (z + ([CLOSE_OBJECT] + []))))))
            == [OPEN_OBJECT] + (x + ([COMMA] + (y + ([COMMA] + z)))) + [CLOSE_OBJECT]
  {
  }
}
