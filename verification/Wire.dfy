// Texts as they go over the wire, byte for byte: what the gateway reads from a body and from a reply,
// and what it sends.

module Wire {
  import opened Wrappers
  import opened Octets
  import opened JsonStrings
  import opened Json
  import opened Ledger
  import opened Numbers
  import opened Usage
  import Body
  import Locating
  import Gate
  import Lines
  import Sniff
  import Splice
  import Stream

  predicate IsAscii(s: string) {
    forall i | 0 <= i < |s| :: s[i] < 128 as char
  }

  lemma Joined(a: string, b: string, c: string)
    requires IsAscii(a) && IsAscii(b) && IsAscii(c)
    ensures IsAscii(a + b + c) && Ascii(a + b + c) == Ascii(a) + Ascii(b) + Ascii(c)
  {
    AsciiJoins(a, b);
    AsciiJoins(a + b, c);
  }

  // ---------- usage ----------

  /** A usage object as providers write it. */
  function UsageText(input: nat, output: nat, total: nat): Bytes {
    Ascii("{\"prompt_tokens\":") + Numeral(input)
    + Ascii(",\"completion_tokens\":") + Numeral(output)
    + Ascii(",\"total_tokens\":") + Numeral(total) + Ascii("}")
  }

  lemma Cited(open: string, name: string)
    requires IsAscii(open) && IsAscii(name)
    ensures IsAscii(open + name + "\":") && Ascii(open + name + "\":") == Ascii(open) + Ascii(name) + [34, 58]
  {
    hide Ascii;
    Punctuation();
    Joined(open, name, "\":");
  }

  lemma PromptHead()
    ensures Ascii("{\"prompt_tokens\":") == [123, 34] + PROMPT + [34, 58]
  {
    hide Ascii;
    assert "{\"prompt_tokens\":" == "{\"" + "prompt_tokens" + "\":";
    Punctuation();
    Cited("{\"", "prompt_tokens");
  }

  lemma CompletionHead()
    ensures Ascii(",\"completion_tokens\":") == [44, 34] + COMPLETION + [34, 58]
  {
    hide Ascii;
    assert ",\"completion_tokens\":" == ",\"" + "completion_tokens" + "\":";
    Punctuation();
    Cited(",\"", "completion_tokens");
  }

  lemma TotalHead()
    ensures Ascii(",\"total_tokens\":") == [44, 34] + TOTAL + [34, 58]
  {
    hide Ascii;
    assert ",\"total_tokens\":" == ",\"" + "total_tokens" + "\":";
    Punctuation();
    Cited(",\"", "total_tokens");
  }

  lemma Punctuation()
    ensures Ascii("{\"") == [123, 34] && Ascii(",\"") == [44, 34] && Ascii("\":") == [34, 58] && Ascii("}") == [125]
  {
  }

  lemma UsageTextTold(s: Spend)
    requires Small(s)
    ensures UsageText(s.input, s.output, s.total) == Text(Told(s))
  {
    hide Numeral, Text, Told, Ascii;
    PromptHead();
    CompletionHead();
    TotalHead();
    Punctuation();
    ToldText(s);
    Flattened(PROMPT, Numeral(s.input), COMPLETION, Numeral(s.output), TOTAL, Numeral(s.total));
  }

  lemma Flattened(a: Bytes, x: Bytes, b: Bytes, y: Bytes, c: Bytes, z: Bytes)
    ensures [123] + ([34] + a + [34, 58] + x + ([44] + ([34] + b + [34, 58] + y + ([44] + ([34] + c + [34, 58] + z))))) + [125]
            == [123, 34] + a + [34, 58] + x + ([44, 34] + b + [34, 58]) + y + ([44, 34] + c + [34, 58]) + z + [125]
  {
  }

  /** Round trip: three counts below 2^63, written as a provider writes them, are read back, each where it
      belongs. */
  lemma UsageTextReads(input: nat, output: nat, total: nat)
    requires input < 9_223_372_036_854_775_808 && output < 9_223_372_036_854_775_808 && total < 9_223_372_036_854_775_808
    ensures SpendIn(UsageText(input, output, total)) == Some(Spend(input, output, total))
  {
    hide SpendIn, Told, UsageText;
    UsageTextTold(Spend(input, output, total));
    UsageReads(Spend(input, output, total));
  }

  /** The name usage, in quotes and with a colon, stands here. */
  predicate NamedAt(w: Bytes, j: nat) {
    j + 8 <= |w| && w[j..j + 8] == [34, 117, 115, 97, 103, 101, 34, 58]
  }

  /** The counts of a reply, whatever came before and after them, are what the last 512 bytes charge. */
  lemma UsageTextCounted(pre: Bytes, pad: Bytes, input: nat, output: nat, total: nat, post: Bytes)
    requires input < 9_223_372_036_854_775_808 && output < 9_223_372_036_854_775_808 && total < 9_223_372_036_854_775_808
    requires forall i | 0 <= i < |pad| :: pad[i] == 32 || pad[i] == 9
    requires var w := pre + (Ascii("\"usage\":") + (pad + (UsageText(input, output, total) + post)));
             |w| <= 512 && forall j: nat | NamedAt(w, j) :: j <= |pre|
    ensures var w := pre + (Ascii("\"usage\":") + (pad + (UsageText(input, output, total) + post)));
            Sniff.CountOf(Sniff.Tail(w, Sniff.WINDOW), SpendIn)
            == Some(Spend(input, output, if total == 0 then input + output else total))
  {
    hide SpendIn, Told, UsageText, Sniff.CountOf;
    var s := Spend(input, output, total);
    UsageTextTold(s);
    MarkSpelled();
    var w := pre + (Sniff.MARK + (pad + (Text(Told(s)) + post)));
    assert forall j: nat :: Sniff.MarkAt(w, j) ==> NamedAt(w, j);
    Sniff.LastUsageCounted(pre, pad, s, post);
  }

  lemma MarkSpelled()
    ensures Sniff.MARK == Ascii("\"usage\":") == [34, 117, 115, 97, 103, 101, 34, 58]
    ensures Sniff.WINDOW == 512
  {
  }

  /** A count told by a value, or what there was. */
  function Counted(j: Option<Json>, was: int): int {
    if j.Some? && j.value.Scalar? && IntOf(j.value.word).Some? then IntOf(j.value.word).value else was
  }

  lemma {:induction false} TakeCountsMeans(s: Spend, ms: Members)
    requires TakeCounts(s, ms).Some?
    ensures TakeCounts(s, ms).value.input == Counted(Body.LastSet(ms, PROMPT), s.input)
    ensures TakeCounts(s, ms).value.output == Counted(Body.LastSet(ms, COMPLETION), s.output)
    ensures TakeCounts(s, ms).value.total == Counted(Body.LastSet(ms, TOTAL), s.total)
    ensures forall n | n == PROMPT || n == COMPLETION || n == TOTAL ::
              var j := Body.LastSet(ms, n); j.Some? ==> j.value.Scalar? && IntOf(j.value.word).Some?
    decreases ms
  {
    hide IntOf, Body.Fold, Name;
    NamesDiffer();
    if ms.MoreMembers? {
      TakeCountsMeans(TakeCount(s, ms.m).value, ms.rest);
    }
  }

  /** What is read from any usage object: each count is the last integer told under its name, letter case and
      null aside, or 0; and the object is read exactly when each of its counts is an integer or null. */
  lemma SpendMeans(text: Bytes)
    requires Parse(text).Some? && Parse(text).value.root.Object?
    ensures var ms := Parse(text).value.root.members;
            && (SpendIn(text).Some? <==> CountsOk(ms))
            && (SpendIn(text).Some? ==>
                  SpendIn(text).value == Spend(Counted(Body.LastSet(ms, Ascii("prompt_tokens")), 0),
                                               Counted(Body.LastSet(ms, Ascii("completion_tokens")), 0),
                                               Counted(Body.LastSet(ms, Ascii("total_tokens")), 0)))
  {
    hide Parse, TakeCounts, CountsOk, Counted, Body.LastSet, Ascii;
    CountsTyped(NO_SPEND, Parse(text).value.root.members);
    if SpendIn(text).Some? {
      TakeCountsMeans(NO_SPEND, Parse(text).value.root.members);
    }
  }

  /** Which numbers are integers, and which they are: digits alone, or after a minus sign, from -2^63 up to
      2^63 - 1. */
  lemma IntegersRead(w: Bytes)
    requires w != [] && AllDigits(w)
    ensures IntOf(w).Some? <==> Natural(w) < 9_223_372_036_854_775_808
    ensures IntOf(w).Some? ==> IntOf(w).value == Natural(w)
    ensures IntOf([45] + w).Some? <==> Natural(w) <= 9_223_372_036_854_775_808
    ensures IntOf([45] + w).Some? ==> IntOf([45] + w).value + Natural(w) == 0
  {
    hide Natural;
    assert IsDigit(w[0]);
    assert ([45] + w)[1..] == w;
  }

  lemma OnlyIntegers(w: Bytes)
    requires IntOf(w).Some?
    ensures w != [] && var u := if w[0] == 45 then w[1..] else w; u != [] && AllDigits(u)
  {
    hide Natural;
  }

  // ---------- the verdict ----------

  /** An object with one member, written without white space. */
  function Solo(name: string, v: Json): Bytes
    requires IsAscii(name)
  {
    Ascii("{\"") + Ascii(name) + Ascii("\":") + Text(v) + Ascii("}")
  }

  lemma SoloRead(name: string, v: Json)
    requires IsAscii(name) && Plain(Ascii(name)) && Wf(v)
    ensures Parse(Solo(name, v)) == Some(Doc([], Splice.Lone(Ascii(name), v), []))
  {
    hide Wf, Text, Ascii, Plain, Parse, Splice.Lone;
    Punctuation();
    Splice.LoneText(Ascii(name), v);
    var d := Doc([], Splice.Lone(Ascii(name), v), []);
    ParseText(d);
    assert DocText(d) == Text(Splice.Lone(Ascii(name), v)) by {
      LoneDoc(d.root);
    }
  }

  lemma LoneDoc(j: Json)
    ensures DocText(Doc([], j, [])) == Text(j)
  {
    assert [] + Text(j) == Text(j);
  }

  lemma SoloVerdict(name: string, v: Json)
    requires IsAscii(name) && Lower(Ascii(name)) && Wf(v)
    ensures VerdictOf(Solo(name, v)) ==
              if Ascii(name) == ERROR then if v == Scalar(NULL) then Fine(None) else Erroneous
              else if Ascii(name) != USAGE || v == Scalar(NULL) then Fine(None)
              else match TakeSpend(NO_SPEND, v) case None => Fine(None) case Some(s) => Fine(Some(Fill(s)))
  {
    hide Chars, Unescape, Body.Fold, Ascii, TakeSpend, Fill, Parse, Solo, Wf;
    LowerPlain(Ascii(name));
    LowerSpells(Ascii(name));
    SoloRead(name, v);
    NamesDiffer();
  }

  lemma LowerPlain(s: Bytes)
    requires Lower(s)
    ensures Plain(s)
  {
  }

  /** A reply that carries an error, whatever the error is; a null one is none. */
  lemma ErrorTold(v: Json)
    requires Wf(v)
    ensures VerdictOf(Solo("error", v)) == if v == Scalar([110, 117, 108, 108]) then Fine(None) else Erroneous
  {
    hide Solo, VerdictOf, TakeSpend, Ascii, Wf;
    LowerText("error");
    SoloVerdict("error", v);
  }

  /** A reply that tells its usage is charged that, the total filled in if it is missing. */
  lemma UsageTold(input: nat, output: nat, total: nat)
    requires input < 9_223_372_036_854_775_808 && output < 9_223_372_036_854_775_808 && total < 9_223_372_036_854_775_808
    ensures VerdictOf(Ascii("{\"usage\":") + UsageText(input, output, total) + Ascii("}"))
            == Fine(Some(Spend(input, output, if total == 0 then input + output else total)))
  {
    hide VerdictOf, TakeSpend, Ascii, UsageText, Told, Text, Parse, Lower;
    var s := Spend(input, output, total);
    UsageTextTold(s);
    ToldWf(s);
    LowerText("usage");
    SoloVerdict("usage", Told(s));
    ToldIs(s);
    UsageReads(s);
    SpendRead(s);
    assert "{\"usage\":" == "{\"" + "usage" + "\":";
    Joined("{\"", "usage", "\":");
    NamesDiffer();
  }

  lemma ToldIs(s: Spend)
    requires Small(s)
    ensures Told(s).Object?
  {
  }

  lemma SpendRead(s: Spend)
    requires Small(s) && SpendIn(Text(Told(s))) == Some(s)
    ensures TakeSpend(NO_SPEND, Told(s)) == Some(s)
  {
    hide TakeSpend, Told, Parse, Text;
    ToldWf(s);
    ParseText(Doc([], Told(s), []));
    LoneDoc(Told(s));
  }

  lemma ToldWf(s: Spend)
    requires Small(s)
    ensures Wf(Told(s))
  {
    hide WfMember, CountMember;
    var a, b, c := CountMember(PROMPT, s.input), CountMember(COMPLETION, s.output), CountMember(TOTAL, s.total);
    CountMemberReads(PROMPT, s.input, NO_SPEND);
    CountMemberReads(COMPLETION, s.output, NO_SPEND);
    CountMemberReads(TOTAL, s.total, NO_SPEND);
    assert WfMembers(LastMember(c));
    assert WfMembers(MoreMembers(b, LastMember(c)));
  }

  lemma {:induction false} AnswersUsage(a: Answer, ms: Members)
    requires TakeAnswers(a, ms).Some?
    ensures TakeAnswers(a, ms).value.usage.None?
            <==> match Body.LastNamed(ms, USAGE) case None => a.usage.None? case Some(j) => j == Scalar(NULL)
    decreases ms
  {
    hide TakeSpend, Body.Fold, Name;
    NamesDiffer();
    if ms.MoreMembers? {
      AnswersUsage(TakeAnswer(a, ms.m).value, ms.rest);
    }
  }

  /** A reply that is fine tells its cost exactly if it is an object whose every usage is null or an object
      of integers, and whose last usage is not null. */
  lemma CostTold(text: Bytes)
    requires !Usage.Carries(text)
    ensures VerdictOf(text).usage.Some? <==>
              Parse(text).Some? && Parse(text).value.root.Object?
              && var ms := Parse(text).value.root.members;
                 var usage := Body.LastNamed(ms, Ascii("usage"));
                 WellTyped(ms) && usage.Some? && usage.value != Scalar([110, 117, 108, 108])
  {
    hide Parse, WellTyped, Body.LastNamed, TakeAnswers, Ascii;
    if Parse(text).Some? && Parse(text).value.root.Object? {
      AnswersTyped(Answer(false, None), Parse(text).value.root.members);
      if WellTyped(Parse(text).value.root.members) {
        AnswersUsage(Answer(false, None), Parse(text).value.root.members);
      }
    }
  }

  // ---------- a stream ----------

  /** A comment line, and then an error in the first data. */
  function PingThenError(): Bytes {
    Ascii(": ping") + [10] + (Ascii("data: {\"error\":{}}") + [10])
  }

  lemma ErrorData()
    ensures Ascii("data: {\"error\":{}}") == Lines.HEAD + [32] + Solo("error", EmptyObject([]))
    ensures Usage.Carries(Solo("error", EmptyObject([])))
  {
    hide Ascii, VerdictOf;
    EmptySpelled();
    ErrorTold(EmptyObject([]));
    ErrorSpelled();
  }

  lemma EmptySpelled()
    ensures Wf(EmptyObject([])) && Text(EmptyObject([])) == [123, 125]
  {
  }

  lemma ErrorSpelled()
    ensures Ascii("data: {\"error\":{}}") == Lines.HEAD + [32] + Solo("error", EmptyObject([]))
  {
    hide Text, Ascii;
    EmptySpelled();
    Punctuation();
    ErrorParts();
    Joined("data: {\"", "error", "\":{}}");
    Spread(Ascii("error"));
  }

  lemma ErrorParts()
    ensures "data: {\"error\":{}}" == "data: {\"" + "error" + "\":{}}"
    ensures Ascii("data: {\"") == [100, 97, 116, 97, 58, 32, 123, 34] && Ascii("\":{}}") == [34, 58, 123, 125, 125]
  {
  }

  lemma Spread(x: Bytes)
    ensures [100, 97, 116, 97, 58, 32, 123, 34] + x + [34, 58, 123, 125, 125]
            == [100, 97, 116, 97, 58] + [32] + ([123, 34] + x + [34, 58] + [123, 125] + [125])
  {
  }

  lemma OneLine(t: string)
    requires IsAscii(t) && forall i | 0 <= i < |t| :: t[i] >= ' '
    ensures forall i | 0 <= i < |t| :: Ascii(t)[i] != 10
  {
  }

  lemma PingLines(e: Stream.End)
    ensures var s := PingThenError();
            && |s| == 26 && s[7..|s|] == Ascii("data: {\"error\":{}}") + [10] && !(Lines.HEAD <= s[0..7])
            && Gate.Reads(s, 0, 7, Stream.Line, e) && Gate.Reads(s, 7, |s|, Stream.Line, e)
  {
    var s := PingThenError();
    OneLine(": ping");
    OneLine("data: {\"error\":{}}");
    assert s[..6] == Ascii(": ping") && s[6] == 10;
    assert s[0..7][0] == 58;
    assert s[7..] == Ascii("data: {\"error\":{}}") + [10];
    forall k | 7 <= k < |s| - 1 ensures s[k] != 10 {
      assert s[k] == Ascii("data: {\"error\":{}}")[k - 7];
    }
    forall k | 0 <= k < 6 ensures s[k] != 10 {
      assert s[k] == Ascii(": ping")[k];
    }
  }

  lemma Braced(d: Bytes)
    requires |d| >= 2 && d[0] == 123 && d[|d| - 1] == 125
    ensures Lines.Bare(d) && d != [] && d != Lines.STOP
  {
  }

  lemma Blanks()
    ensures Lines.Blank([32]) && Lines.Blank([]) && Lines.LineEnd([10])
  {
    Lines.WholeSpace([32]);
    Lines.BlankChar([32]);
  }

  lemma SoloEdges(name: string, v: Json)
    requires IsAscii(name)
    ensures var d := Solo(name, v); |d| >= 2 && d[0] == 123 && d[|d| - 1] == 125
  {
    hide Ascii, Text;
    Punctuation();
  }

  lemma NothingAfter(h: Bytes, d: Bytes)
    ensures h + d + [10] == h + d + [] + [10]
  {
    assert h + d + [] == h + d;
  }

  /** A stream that opens with a comment and then tells an error is refused, never committed. */
  lemma PingRefused(e: Stream.End)
    ensures Gate.Decide(PingThenError(), e, Usage.Carries, 0) == Gate.Errored
  {
    hide Gate.Content, Usage.Carries, Gate.Decide, Gate.Reads, PingThenError, Solo, Ascii, Lines.Bare, Lines.Blank, Lines.LineEnd;
    var s, d := PingThenError(), Solo("error", EmptyObject([]));
    ErrorData();
    PingLines(e);
    SoloEdges("error", EmptyObject([]));
    Braced(d);
    Blanks();
    NothingAfter(Lines.HEAD + [32], d);
    Lines.ContentMeans([32], d, [], [10]);
    Lines.ContentNeedsData(s[0..7]);
    Gate.ReadOn(s, e, Usage.Carries, 0, 7, Stream.Line);
    Gate.ReadOn(s, e, Usage.Carries, 7, |s|, Stream.Line);
  }

  // ---------- a request ----------

  function Pair(n1: Bytes, v1: Json, n2: Bytes, v2: Json): Members {
    MoreMembers(Member([], n1, [], [], v1, []), LastMember(Member([], n2, [], [], v2, [])))
  }

  lemma PairText(n1: Bytes, v1: Json, n2: Bytes, v2: Json)
    ensures Text(Object(Pair(n1, v1, n2, v2)))
            == [123, 34] + n1 + [34, 58] + Text(v1) + [44, 34] + n2 + [34, 58] + Text(v2) + [125]
  {
    hide Spell, Text;
    var b := Member([], n2, [], [], v2, []);
    Splice.ObjectText(Pair(n1, v1, n2, v2));
    SpellSplits(v2, [125]);
    Splice.LoneHead(n2, v2, Spell(v2, [125]));
    assert [] + ([CLOSE_OBJECT] + []) == [125];
    var y := SpellMembers(LastMember(b), []);
    assert y == [34] + n2 + [34, 58] + (Text(v2) + [125]);
    SpellSplits(v1, [44] + y);
    Splice.LoneHead(n1, v1, Spell(v1, [44] + y));
    assert [] + ([COMMA] + y) == [44] + y;
    assert SpellMembers(Pair(n1, v1, n2, v2), []) == [34] + n1 + [34, 58] + (Text(v1) + ([44] + y));
    PairJoins(n1, Text(v1), n2, Text(v2));
  }

  lemma PairJoins(n1: Bytes, x: Bytes, n2: Bytes, y: Bytes)
    ensures [123] + ([34] + n1 + [34, 58] + (x + ([44] + ([34] + n2 + [34, 58] + (y + [125])))))
            == [123, 34] + n1 + [34, 58] + x + [44, 34] + n2 + [34, 58] + y + [125]
  {
  }

  lemma PairParsed(n1: Bytes, v1: Json, n2: Bytes, v2: Json)
    requires Plain(n1) && Plain(n2) && Wf(v1) && Wf(v2)
    ensures Parse(Text(Object(Pair(n1, v1, n2, v2)))) == Some(Doc([], Object(Pair(n1, v1, n2, v2)), []))
    ensures Name(Pair(n1, v1, n2, v2).m) == n1 && Name(Pair(n1, v1, n2, v2).rest.m) == n2
  {
    hide Wf, Text, Parse, Chars, Unescape;
    PlainSpellsItself(n1);
    PlainSpellsItself(n2);
    var ms := Pair(n1, v1, n2, v2);
    assert WfMember(ms.m) && WfMember(ms.rest.m) && WfMembers(ms.rest) && WfMembers(ms);
    Splice.ObjectWf(ms);
    ParseText(Doc([], Object(ms), []));
    LoneDoc(Object(ms));
  }

  /** What is read from an object with a model and one more member, both told by name. */
  lemma PairRead(model: Bytes, n2: Bytes, v2: Json)
    requires Plain(model) && Plain(n2) && Wf(v2) && (v2 == Scalar(TRUE) || v2 == Scalar(FALSE))
    requires Body.Fold(n2) == Body.STREAM
    ensures var b := Text(Object(Pair(Ascii("model"), Str(model), n2, v2)));
            Body.ReadBody(b).Some? && Body.ReadBody(b).value.want == Body.Want(model, v2 == Scalar(TRUE), None)
  {
    hide Wf, Text, Parse, Chars, Unescape, Body.Fold, Plain, Ascii;
    Body.NamesSpelled();
    Body.WordsDiffer();
    ModelName();
    Splice.FoldedModel();
    Splice.FieldsDiffer();
    PlainSpellsItself(model);
    PlainWf(model);
    PairParsed(Ascii("model"), Str(model), n2, v2);
    var ms := Pair(Ascii("model"), Str(model), n2, v2);
    var w := Body.Take(Body.NOTHING, ms.m).value;
    assert Body.Take(w, ms.rest.m) == Some(w.(stream := v2 == Scalar(TRUE)));
    assert Body.TakeAll(w, ms.rest) == Body.Take(w, ms.rest.m);
  }

  lemma PlainWf(s: Bytes)
    requires Chars(s)
    ensures Wf(Str(s))
  {
  }

  lemma ModelName()
    ensures Ascii("model") == Locating.MODEL && Plain(Ascii("model"))
  {
  }

  lemma TruthText()
    ensures Wf(Scalar(TRUE)) && Text(Scalar(TRUE)) == [116, 114, 117, 101]
    ensures Wf(Scalar(FALSE)) && Text(Scalar(FALSE)) == [102, 97, 108, 115, 101]
    ensures Text(Str([97])) == [34, 97, 34]
  {
  }

  lemma StreamName()
    ensures Ascii("stream") == Body.STREAM && Plain(Ascii("stream")) && Body.Fold(Ascii("stream")) == Body.STREAM
    ensures Plain([97])
  {
    hide Body.Fold;
    Body.FoldLower(Ascii("stream"));
  }

  /** The request {"model":"a","stream":true}. */
  function StreamBody(): Bytes {
    Ascii("{\"") + Ascii("model") + Ascii("\":\"a\",\"") + Ascii("stream") + Ascii("\":true}")
  }

  lemma StreamSpelled()
    ensures StreamBody() == Text(Object(Pair(Ascii("model"), Str([97]), Ascii("stream"), Scalar(TRUE))))
  {
    hide Text;
    TruthText();
    PairText(Ascii("model"), Str([97]), Ascii("stream"), Scalar(TRUE));
    assert Ascii("{\"") == [123, 34] && Ascii("\":\"a\",\"") == [34, 58, 34, 97, 34, 44, 34];
    assert Ascii("\":true}") == [34, 58, 116, 114, 117, 101, 125];
    hide Ascii;
    StreamJoins(Ascii("model"), Ascii("stream"));
  }

  lemma StreamJoins(m: Bytes, n: Bytes)
    ensures [123, 34] + m + [34, 58, 34, 97, 34, 44, 34] + n + [34, 58, 116, 114, 117, 101, 125]
            == [123, 34] + m + [34, 58] + [34, 97, 34] + [44, 34] + n + [34, 58] + [116, 114, 117, 101] + [125]
  {
  }

  /** A request that asks for a stream is read as one. */
  lemma StreamRead()
    ensures Body.ReadBody(StreamBody()).Some?
    ensures Body.ReadBody(StreamBody()).value.want == Body.Want([97], true, None)
  {
    hide Wf, Text, Plain, Ascii, Body.ReadBody, Body.Fold, StreamBody;
    StreamSpelled();
    StreamName();
    TruthText();
    PairRead([97], Ascii("stream"), Scalar(TRUE));
  }

  // ---------- what is sent ----------

  lemma NamesInText()
    ensures Locating.MODEL == Ascii("model") && Body.OPTIONS == Ascii("stream_options") && Splice.USAGE == Ascii("include_usage")
    ensures Body.INJECT == Ascii(",\"stream_options\":") + Ascii("{\"include_usage\":true}")
  {
  }

  /** The bytes upstream is sent for a body. */
  function Sent(b: Bytes, model: Bytes, meter: bool): Option<Bytes> {
    match Body.ReadBody(b)
    case None => None
    case Some(p) => match Body.Send(p, model, meter) case None => None case Some(s) => Some(Body.Concat(s.pieces))
  }

  /** The caller's fields with a new model and, when metering and they have no stream_options, a request
      for usage. */
  function Fielded(f: map<Bytes, Value>, model: Bytes, meter: bool): map<Bytes, Value> {
    var g := f[Ascii("model") := String(model)];
    if meter && Ascii("stream_options") !in f
    then g[Ascii("stream_options") := Dict(map[Ascii("include_usage") := Bool(true)])] else g
  }

  /** These bytes are valid JSON that means the object with fields f. */
  predicate SentAs(sent: Option<Bytes>, f: map<Bytes, Value>) {
    sent.Some? && Parse(sent.value).Some? && Meaning(Parse(sent.value).value.root) == Dict(f)
  }

  /** Unless it is sent as it is, upstream gets valid JSON that means the caller's object with model set to
      the new name and, exactly when metering and no member is named stream_options, with stream_options
      set to an object whose include_usage is true. */
  lemma SentMeans(b: Bytes, model: Bytes, meter: bool)
    requires Splice.IsObject(b) && Body.ReadBody(b).Some? && Splice.Agreeable(b)
    requires !Splice.Verbatim(Body.ReadBody(b).value.want, model, meter)
    ensures SentAs(Sent(b, model, meter), Fielded(Fields(Splice.Top(b)), model, meter))
  {
    hide *;
    var f := Fields(Splice.Top(b));
    Splice.SendMeans(b, model, meter);
    Splice.FieldNames(Splice.Top(b));
    SentIs(b, model, meter);
    WantedMeans(f, model, meter, Body.Concat(Body.Send(Body.ReadBody(b).value, model, meter).value.pieces));
  }

  lemma SentIs(b: Bytes, model: Bytes, meter: bool)
    requires Body.ReadBody(b).Some? && Body.Spliceable(Body.ReadBody(b).value) && Body.Send(Body.ReadBody(b).value, model, meter).Some?
    ensures Sent(b, model, meter) == Some(Body.Concat(Body.Send(Body.ReadBody(b).value, model, meter).value.pieces))
  {
    hide Body.ReadBody, Body.Send, Body.Concat;
  }

  lemma WantedMeans(f: map<Bytes, Value>, model: Bytes, meter: bool, sent: Bytes)
    requires Splice.ObjectIs(sent, Splice.Wanted(f, model, meter && Body.OPTIONS !in f))
    ensures SentAs(Some(sent), Fielded(f, model, meter))
  {
    hide Parse, Meaning, Ascii;
    NamesInText();
  }
}
