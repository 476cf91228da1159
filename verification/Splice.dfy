// The fast path means what the slow path means: the original object with the model replaced,
// and stream_options added exactly when metering and the caller gave none.

module Splice {
  import opened Wrappers
  import opened Octets
  import opened JsonStrings
  import opened Json
  import opened Encoding
  import opened Locating
  import opened Body
  import opened Numbers

  // ---------- the fields of edited members ----------

  /** How many members are named model. */
  function Count(ms: Members): nat {
    (if Name(ms.m) == MODEL then 1 else 0) + (if ms.MoreMembers? then Count(ms.rest) else 0)
  }

  function Names(ms: Members): set<Bytes> {
    {Name(ms.m)} + (if ms.MoreMembers? then Names(ms.rest) else {})
  }

  lemma {:induction false} FieldNames(ms: Members)
    ensures Fields(ms).Keys == Names(ms)
    ensures HasModel(ms) <==> Count(ms) > 0
    ensures MODEL in Names(ms) <==> Count(ms) > 0
    decreases ms
  {
    hide Unescape, Meaning;
    if ms.MoreMembers? {
      FieldNames(ms.rest);
    }
  }

  /** Replacing the first model value replaces the field when there is only one such member. */
  lemma {:induction false} PutFields(ms: Members, v: Json)
    requires Count(ms) > 0 && HasModel(ms)
    ensures Count(ms) == 1 ==> Fields(Put(ms, v)) == Fields(ms)[MODEL := Meaning(v)]
    ensures Count(ms) > 1 ==> Fields(Put(ms, v)) == Fields(ms)
    decreases ms
  {
    hide Name, Meaning, Put, HasModel;
    var n, own := Name(ms.m), Meaning(ms.m.val);
    if n != MODEL {
      ModelLater(ms);
      PutFields(ms.rest, v);
      PutLater(ms, v);
      SetAfter(n, own, Fields(ms.rest), Meaning(v));
    } else {
      PutHere(ms, v);
      if ms.MoreMembers? {
        FieldNames(ms.rest);
        SetFirst(own, Fields(ms.rest), Meaning(v));
      } else {
        SetFirst(own, map[], Meaning(v));
      }
    }
  }

  lemma ModelLater(ms: Members)
    requires HasModel(ms) && Name(ms.m) != MODEL
    ensures ms.MoreMembers? && HasModel(ms.rest)
  {
  }

  lemma SetAfter(n: Bytes, own: Value, f: map<Bytes, Value>, v: Value)
    requires n != MODEL
    ensures map[n := own] + f[MODEL := v] == (map[n := own] + f)[MODEL := v]
  {
  }

  lemma SetFirst(own: Value, f: map<Bytes, Value>, v: Value)
    ensures map[MODEL := own][MODEL := v] == map[MODEL := v]
    ensures MODEL in f ==> map[MODEL := v] + f == map[MODEL := own] + f
    ensures MODEL !in f ==> map[MODEL := v] + f == (map[MODEL := own] + f)[MODEL := v]
  {
  }

  lemma PutLater(ms: Members, v: Json)
    requires ms.MoreMembers? && Name(ms.m) != MODEL && HasModel(ms.rest)
    ensures Fields(Put(ms, v)) == map[Name(ms.m) := Meaning(ms.m.val)] + Fields(Put(ms.rest, v))
  {
    hide Name, Meaning;
  }

  lemma PutHere(ms: Members, v: Json)
    requires Name(ms.m) == MODEL
    ensures var own := map[MODEL := Meaning(v)];
            Fields(Put(ms, v)) == if ms.MoreMembers? then own + Fields(ms.rest) else own
  {
    hide Unescape, Meaning;
    assert Name(ms.m.(val := v)) == MODEL;
  }

  lemma {:induction false} AppendFields(ms: Members, m: Member)
    ensures Fields(Append(ms, m)) == Fields(ms)[Name(m) := Meaning(m.val)]
    decreases ms
  {
    hide Unescape, Meaning;
    if ms.MoreMembers? {
      AppendFields(ms.rest, m);
    }
  }

  /** A raw message that means v. */
  ghost predicate Denotes(raw: Bytes, v: Value) {
    IsRaw(raw) && Meaning(Tree(raw)) == v
  }

  ghost predicate MapMeans(m: map<Bytes, Bytes>, f: map<Bytes, Value>) {
    m.Keys == f.Keys && forall n | n in m :: Denotes(m[n], f[n])
  }

  lemma TextDenotes(j: Json)
    requires Wf(j)
    ensures Denotes(Text(j), Meaning(j))
  {
    TreeOf(j);
  }

  lemma RawMapMeans(m: map<Bytes, Bytes>, f: map<Bytes, Value>)
    requires MapMeans(m, f)
    ensures RawMap(m) && RawMeaning(m) == f
  {
    hide Meaning, Tree, IsRaw;
    assert forall n | n in m :: Denotes(m[n], f[n]) && IsRaw(m[n]);
  }

  /** The decoded map means the object's fields. */
  lemma {:induction false} RawFieldsMean(ms: Members)
    requires WfMembers(ms)
    ensures MapMeans(RawFields(ms), Fields(ms))
    decreases ms
  {
    hide Unescape, Meaning, Denotes, Text;
    TextDenotes(ms.m.val);
    if ms.MoreMembers? {
      RawFieldsMean(ms.rest);
    }
  }

  // ---------- the constants ----------

  const USAGE: Bytes := Ascii("include_usage")

  /** An object with one member and no white space. */
  function Lone(name: Bytes, v: Json): Json {
    Object(LastMember(Member([], name, [], [], v, [])))
  }

  lemma LoneText(name: Bytes, v: Json)
    requires Plain(name) && Wf(v)
    ensures Wf(Lone(name, v)) && Text(Lone(name, v)) == [OPEN_OBJECT, QUOTE] + name + [QUOTE, COLON] + Text(v) + [CLOSE_OBJECT]
    ensures Meaning(Lone(name, v)) == Dict(map[name := Meaning(v)])
  {
    hide Chars, Unescape, Meaning;
    PlainSpellsItself(name);
    SpellSplits(v, [CLOSE_OBJECT]);
    assert WfMember(Member([], name, [], [], v, []));
    assert WfMembers(LastMember(Member([], name, [], [], v, [])));
    LoneSpells(name, v);
    ObjectMeans(LastMember(Member([], name, [], [], v, [])));
  }

  lemma LoneSpells(name: Bytes, v: Json)
    ensures Text(Lone(name, v)) == [OPEN_OBJECT, QUOTE] + name + [QUOTE, COLON] + Spell(v, [CLOSE_OBJECT])
  {
    hide Spell;
    var x := Spell(v, [CLOSE_OBJECT]);
    assert [] + ([CLOSE_OBJECT] + []) == [CLOSE_OBJECT];
    LoneHead(name, v, x);
    var m := Member([], name, [], [], v, []);
    assert SpellMembers(LastMember(m), []) == SpellHead(m, x);
    assert Text(Lone(name, v)) == [OPEN_OBJECT] + SpellMembers(LastMember(m), []) by {
      ObjectText(LastMember(m));
    }
  }

  lemma ObjectText(ms: Members)
    ensures Text(Object(ms)) == [OPEN_OBJECT] + SpellMembers(ms, [])
  {
  }

  lemma LoneHead(name: Bytes, v: Json, x: Bytes)
    ensures SpellHead(Member([], name, [], [], v, []), x) == [QUOTE] + name + [QUOTE, COLON] + x
  {
    assert [] + ([COLON] + ([] + x)) == [COLON] + x;
  }

  lemma UsagePlain()
    ensures Plain(USAGE)
  {
  }

  lemma UsageBytes()
    ensures COUNTED == [OPEN_OBJECT, QUOTE] + USAGE + [QUOTE, COLON] + TRUE + [CLOSE_OBJECT]
  {
    CountedParts();
    AsciiJoins("{\"", "include_usage");
    AsciiJoins("{\"" + "include_usage", "\":true}");
    assert Ascii("{\"") == [OPEN_OBJECT, QUOTE];
    assert Ascii("\":true}") == [QUOTE, COLON] + TRUE + [CLOSE_OBJECT];
    Rejoin([OPEN_OBJECT, QUOTE] + USAGE, [QUOTE, COLON] + TRUE, [CLOSE_OBJECT]);
    Rejoin([OPEN_OBJECT, QUOTE] + USAGE, [QUOTE, COLON], TRUE);
  }

  lemma CountedParts()
    ensures "{\"include_usage\":true}" == "{\"" + "include_usage" + "\":true}"
  {
  }

  lemma OptionsBytes()
    ensures Plain(OPTIONS) && MODEL != OPTIONS
    ensures INJECT == [COMMA, QUOTE] + OPTIONS + [QUOTE, COLON] + COUNTED
  {
    assert Ascii(",\"stream_options\":") == [COMMA, QUOTE] + OPTIONS + [QUOTE, COLON];
  }

  function CountedTree(): Json {
    Lone(USAGE, Scalar(TRUE))
  }

  function CountedValue(): Value {
    Dict(map[USAGE := Bool(true)])
  }

  function OptionsMember(): Member {
    Member([], OPTIONS, [], [], CountedTree(), [])
  }

  lemma CountedMeans()
    ensures Wf(CountedTree()) && Text(CountedTree()) == COUNTED && Meaning(CountedTree()) == CountedValue()
  {
    hide Lone;
    UsagePlain();
    UsageBytes();
    ScalarTrue();
    LoneText(USAGE, Scalar(TRUE));
  }

  lemma ScalarTrue()
    ensures Wf(Scalar(TRUE)) && Text(Scalar(TRUE)) == TRUE && Meaning(Scalar(TRUE)) == Bool(true)
  {
  }

  lemma MemberText(name: Bytes, v: Json)
    ensures [COMMA] + Inner(LastMember(Member([], name, [], [], v, []))) == [COMMA, QUOTE] + name + [QUOTE, COLON] + Text(v)
  {
  }

  /** What is injected is a comma and the member stream_options. */
  lemma InjectMeans()
    ensures WfMember(OptionsMember()) && Name(OptionsMember()) == OPTIONS
    ensures [COMMA] + Inner(LastMember(OptionsMember())) == INJECT
    ensures Meaning(OptionsMember().val) == CountedValue()
  {
    hide Meaning, Wf, CountedTree, Inner, Text;
    CountedMeans();
    OptionsBytes();
    PlainSpellsItself(OPTIONS);
    MemberText(OPTIONS, CountedTree());
  }

  // ---------- what the two paths produce ----------

  /** The object a request body is. */
  ghost predicate IsObject(b: Bytes) {
    Parse(b).Some? && Parse(b).value.root.Object?
  }

  function Top(b: Bytes): Members
    requires IsObject(b)
  {
    Parse(b).value.root.members
  }

  /** b is valid JSON and means the object with fields f. */
  ghost predicate ObjectIs(b: Bytes, f: map<Bytes, Value>) {
    Parse(b).Some? && Meaning(Parse(b).value.root) == Dict(f)
  }

  /** The fields with the model replaced and, if asked, stream_options set. */
  function Wanted(f: map<Bytes, Value>, model: Bytes, add: bool): map<Bytes, Value> {
    var g := f[MODEL := String(model)];
    if add then g[OPTIONS := CountedValue()] else g
  }

  predicate Verbatim(want: Want, model: Bytes, meter: bool) {
    model == want.model && !(meter && want.options.None?)
  }

  lemma TopMeans(b: Bytes)
    requires IsObject(b)
    ensures ObjectIs(b, Fields(Top(b)))
    ensures WfMembers(Top(b))
  {
    hide Parse, Fields;
    ParseSound(b);
    ObjectMeans(Top(b));
  }

  /** The slow path yields the fields with the model replaced, and stream_options set when
      metering and no member has that name. */
  lemma SwapMeans(b: Bytes, model: Bytes, asked: Want, meter: bool)
    requires IsObject(b) && !Verbatim(asked, model, meter)
    ensures Swapped(b, model, asked, meter).Some?
    ensures ObjectIs(Swapped(b, model, asked, meter).value,
                     Wanted(Fields(Top(b)), model, meter && OPTIONS !in Names(Top(b))))
  {
    hide Encode, Meaning, Fields, Names, RawSwapped, Parse, Wanted;
    var m := RawSwapped(Top(b), model, meter);
    TopMeans(b);
    SwappedEncodes(b, model, asked, meter);
    RawSwappedMeans(Top(b), model, meter);
    RawMapMeans(m, Wanted(Fields(Top(b)), model, meter && OPTIONS !in Names(Top(b))));
    EncodeMeans(m);
  }

  /** The map the slow path encodes. */
  function RawSwapped(ms: Members, model: Bytes, meter: bool): map<Bytes, Bytes> {
    var m := RawFields(ms)[MODEL := Quote(model, true)];
    if meter && OPTIONS !in m then m[OPTIONS := COUNTED] else m
  }

  lemma SwappedEncodes(b: Bytes, model: Bytes, asked: Want, meter: bool)
    requires IsObject(b) && !Verbatim(asked, model, meter)
    ensures Swapped(b, model, asked, meter) == Some(Encode(RawSwapped(Top(b), model, meter)))
  {
    hide Parse, Encode, Quote, RawFields;
  }

  lemma RawSwappedMeans(ms: Members, model: Bytes, meter: bool)
    requires WfMembers(ms)
    ensures MODEL in RawSwapped(ms, model, meter)
    ensures MapMeans(RawSwapped(ms, model, meter), Wanted(Fields(ms), model, meter && OPTIONS !in Names(ms)))
  {
    hide Fields, Names, Quote, Denotes, RawFields, MapMeans, CountedValue, WfMembers;
    RawFieldsMean(ms);
    FieldNames(ms);
    QuotedDenotes(model);
    CountedDenotes();
    OptionsBytes();
    var m := RawFields(ms)[MODEL := Quote(model, true)];
    MapMeansUpdate(RawFields(ms), Fields(ms), MODEL, Quote(model, true), String(model));
    MapMeansUpdate(m, Fields(ms)[MODEL := String(model)], OPTIONS, COUNTED, CountedValue());
  }

  lemma MapMeansUpdate(m: map<Bytes, Bytes>, f: map<Bytes, Value>, n: Bytes, raw: Bytes, v: Value)
    requires MapMeans(m, f) && Denotes(raw, v)
    ensures MapMeans(m[n := raw], f[n := v]) && m.Keys == f.Keys
  {
    hide Denotes;
  }

  lemma QuotedDenotes(model: Bytes)
    ensures Wf(Str(Escape(model, true))) && Text(Str(Escape(model, true))) == Quote(model, true)
    ensures Meaning(Str(Escape(model, true))) == String(model)
    ensures Denotes(Quote(model, true), String(model))
  {
    hide Denotes, Escape, Chars, Unescape;
    UnescapeEscape(model, true);
    TextDenotes(Str(Escape(model, true)));
  }

  lemma CountedDenotes()
    ensures Denotes(COUNTED, CountedValue())
  {
    hide Denotes;
    CountedMeans();
    TextDenotes(CountedTree());
  }

  /** The members the fast path leaves. */
  function Edited(ms: Members, model: Bytes, add: bool): Members
    requires HasModel(ms)
  {
    var put := Put(ms, Str(Escape(model, true)));
    if add then Append(put, OptionsMember()) else put
  }

  lemma EditedMeans(ms: Members, model: Bytes, add: bool)
    requires HasModel(ms)
    ensures Count(ms) == 1 ==> Fields(Edited(ms, model, add)) == Wanted(Fields(ms), model, add)
    ensures Count(ms) > 1 && !add ==> Fields(Edited(ms, model, add)) == Fields(ms)
  {
    hide Meaning, Put, Append, Fields, Quote, Name, Escape;
    FieldNames(ms);
    QuotedDenotes(model);
    PutFields(ms, Str(Escape(model, true)));
    InjectMeans();
    AppendFields(Put(ms, Str(Escape(model, true))), OptionsMember());
  }

  lemma PutText(ms: Members, v: Json)
    requires HasModel(ms) && WfMembers(ms) && Wf(v)
    ensures WfMembers(Put(ms, v)) && Inner(Put(ms, v)) == Lead(ms) + (Text(v) + After(ms))
  {
    hide Put, Inner, Lead, After, Found, WfMembers, Wf, Text, HasModel;
    PutWf(ms, v);
    PutKeepsRest(ms, v);
    InnerSplits(Put(ms, v));
  }

  lemma EditedText(ms: Members, model: Bytes, add: bool)
    requires HasModel(ms) && WfMembers(ms)
    ensures WfMembers(Edited(ms, model, add))
    ensures Inner(Edited(ms, model, add))
            == Lead(ms) + (Quote(model, true) + (After(ms) + (if add then INJECT else [])))
  {
    hide Put, Append, Quote, Escape, Inner, Lead, After, Found, Wf, WfMembers, WfMember, Text, HasModel, OptionsMember;
    var v := Str(Escape(model, true));
    QuotedDenotes(model);
    PutText(ms, v);
    InjectMeans();
    AppendSpells(Put(ms, v), OptionsMember());
    Associate(Lead(ms), Quote(model, true), After(ms), INJECT);
  }

  lemma Associate(a: Bytes, n: Bytes, c: Bytes, x: Bytes)
    ensures a + (n + c) + x == a + (n + (c + x)) && a + (n + (c + [])) == a + (n + c)
  {
    assert c + [] == c;
  }

  /** The bytes of the fast path: the body with the model value replaced and, if metering asks,
      the injection before the closing brace; every other byte unchanged. */
  lemma SpliceBytes(b: Bytes, model: Bytes, meter: bool)
    requires ReadBody(b).Some? && Located(b).hi > 0
    requires !Verbatim(ReadBody(b).value.want, model, meter)
    ensures var p := ReadBody(b).value;
            Send(p, model, meter).Some?
            && Concat(Send(p, model, meter).value.pieces)
               == b[..p.span.lo] + (Quote(model, true) + (b[p.span.hi..p.span.end]
                  + ((if meter && p.want.options.None? then INJECT else []) + b[p.span.end..])))
  {
    hide Located, Quote, Swapped, Concat;
    var p := ReadBody(b).value;
    var name := Quote(model, true);
    if meter && p.want.options.None? {
      Concat5(b[..p.span.lo], name, b[p.span.hi..p.span.end], INJECT, b[p.span.end..]);
    } else {
      Concat3(b[..p.span.lo], name, b[p.span.hi..]);
      assert b[p.span.hi..] == b[p.span.hi..p.span.end] + ([] + b[p.span.end..]);
    }
  }

  /** The fast path yields valid JSON: the edited members. */
  lemma SpliceMeans(b: Bytes, model: Bytes, meter: bool)
    requires IsObject(b) && ReadBody(b).Some? && Reached(Top(b))
    requires !Verbatim(ReadBody(b).value.want, model, meter)
    ensures HasModel(Top(b))
    ensures var p := ReadBody(b).value;
            Send(p, model, meter).Some?
            && ObjectIs(Concat(Send(p, model, meter).value.pieces),
                        Fields(Edited(Top(b), model, meter && p.want.options.None?)))
  {
    hide Parse, Located, Quote, Concat, Edited, Inner, Lead, After, Found, WfMembers, Fields, Send, Text, HasModel, Reached, SpellMembers;
    var d := Parse(b).value;
    var ms := Top(b);
    var p := ReadBody(b).value;
    var add := meter && p.want.options.None?;
    TopMeans(b);
    ParseSound(b);
    LocateSpan(b);
    SpliceBytes(b, model, meter);
    EditedText(ms, model, add);
    var e := Edited(ms, model, add);
    InnerSpells(e, d.trail);
    var out := Doc(d.lead, Object(e), d.trail);
    var x := if add then INJECT else [];
    Reassociate(d.lead, Lead(ms), Quote(model, true), After(ms), x, [CLOSE_OBJECT] + d.trail);
    ParseText(out);
    ObjectMeans(e);
  }

  lemma Reassociate(lead: Bytes, a: Bytes, n: Bytes, c: Bytes, x: Bytes, last: Bytes)
    ensures lead + ([OPEN_OBJECT] + (a + (n + (c + x)) + last)) == (lead + ([OPEN_OBJECT] + a)) + (n + (c + (x + last)))
  {
  }

  // ---------- when the two paths agree ----------

  /** Some member's name matches stream_options, letter case aside. */
  predicate HasOptions(ms: Members) {
    Fold(Name(ms.m)) == OPTIONS || (ms.MoreMembers? && HasOptions(ms.rest))
  }

  /** Reading a body notes the caller's stream_options exactly when a name matches. */
  lemma {:induction false} TakeAllOptions(w: Want, ms: Members)
    requires TakeAll(w, ms).Some?
    ensures TakeAll(w, ms).value.options.Some? <==> w.options.Some? || HasOptions(ms)
    decreases ms
  {
    hide Fold, Unescape, Text;
    FieldsDiffer();
    if ms.MoreMembers? {
      TakeAllOptions(Take(w, ms.m).value, ms.rest);
    }
  }

  lemma FieldsDiffer()
    ensures OPTIONS != MODEL && OPTIONS != STREAM && MODEL != STREAM
  {
  }

  lemma {:induction false} OptionsMatch(ms: Members)
    requires OPTIONS in Names(ms)
    ensures HasOptions(ms)
    decreases ms
  {
    hide Fold, Unescape;
    FoldLower(OPTIONS);
    if Name(ms.m) != OPTIONS {
      OptionsMatch(ms.rest);
    }
  }

  /** What a caller can check before the call: the search for a member named model finds none, for
      want of one or because a number before it is out of range; or there is exactly one, and a name
      that matches stream_options is spelled exactly so somewhere. */
  ghost predicate Agreeable(b: Bytes)
    requires IsObject(b)
  {
    var ms := Top(b);
    !Reached(ms) || (Count(ms) == 1 && (HasOptions(ms) ==> OPTIONS in Names(ms)))
  }

  /** Both paths yield valid JSON that means the same. */
  ghost predicate Same(b: Bytes, model: Bytes, meter: bool)
    requires ReadBody(b).Some?
  {
    var p := ReadBody(b).value;
    var fast, slow := Send(p, model, meter), Swapped(b, model, p.want, meter);
    fast.Some? && slow.Some? &&
    exists f :: ObjectIs(Concat(fast.value.pieces), f) && ObjectIs(slow.value, f)
  }

  lemma ReadObject(b: Bytes)
    requires IsObject(b) && ReadBody(b).Some?
    ensures ReadBody(b).value.want.options.Some? <==> HasOptions(Top(b))
    ensures Located(b).hi > 0 <==> Reached(Top(b))
    ensures Reached(Top(b)) ==> HasModel(Top(b))
  {
    hide Parse, Located, TakeAll, HasOptions, HasModel, Reached, Lead, After, Found, Text;
    TakeAllOptions(NOTHING, Top(b));
    LocateSpan(b);
  }

  lemma ObjectIsOne(b: Bytes, f: map<Bytes, Value>, g: map<Bytes, Value>)
    requires ObjectIs(b, f) && ObjectIs(b, g)
    ensures f == g
  {
  }

  lemma SameBy(b: Bytes, model: Bytes, meter: bool, f: map<Bytes, Value>)
    requires ReadBody(b).Some?
    requires Send(ReadBody(b).value, model, meter).Some? && Swapped(b, model, ReadBody(b).value.want, meter).Some?
    requires ObjectIs(Concat(Send(ReadBody(b).value, model, meter).value.pieces), f)
    requires ObjectIs(Swapped(b, model, ReadBody(b).value.want, meter).value, f)
    ensures Same(b, model, meter)
  {
  }

  lemma AgreeSplice(b: Bytes, model: Bytes, meter: bool)
    requires IsObject(b) && ReadBody(b).Some? && Agreeable(b)
    requires Reached(Top(b)) && !Verbatim(ReadBody(b).value.want, model, meter)
    ensures Same(b, model, meter)
  {
    hide ObjectIs, Concat, Send, Swapped, Fields, Edited, ReadBody, HasModel, Reached, Names, HasOptions, Wanted, Quote, Same, Parse;
    var want := ReadBody(b).value.want;
    var ms := Top(b);
    ReadObject(b);
    FieldNames(ms);
    if OPTIONS in Names(ms) {
      OptionsMatch(ms);
    }
    SwapMeans(b, model, want, meter);
    SpliceMeans(b, model, meter);
    EditedMeans(ms, model, meter && want.options.None?);
    SameBy(b, model, meter, Wanted(Fields(ms), model, meter && want.options.None?));
  }

  lemma AgreeVerbatim(b: Bytes, model: Bytes, meter: bool)
    requires IsObject(b) && ReadBody(b).Some? && Verbatim(ReadBody(b).value.want, model, meter)
    ensures Same(b, model, meter)
  {
    hide *;
    var p := ReadBody(b).value;
    TopMeans(b);
    ReadPlan(b);
    SentVerbatim(p, model, meter);
    SwappedVerbatim(b, model, p.want, meter);
    Concat1(b);
    SameBy(b, model, meter, Fields(Top(b)));
  }

  lemma AgreeSlow(b: Bytes, model: Bytes, meter: bool)
    requires IsObject(b) && ReadBody(b).Some? && !Reached(Top(b)) && !Verbatim(ReadBody(b).value.want, model, meter)
    ensures Same(b, model, meter)
  {
    hide *;
    var p := ReadBody(b).value;
    ReadObject(b);
    ReadPlan(b);
    SwapMeans(b, model, p.want, meter);
    SentSlow(p, model, meter);
    Concat1(Swapped(b, model, p.want, meter).value);
    SameBy(b, model, meter, Wanted(Fields(Top(b)), model, meter && OPTIONS !in Names(Top(b))));
  }

  lemma AgreeWhen(b: Bytes, model: Bytes, meter: bool)
    requires IsObject(b) && ReadBody(b).Some? && Agreeable(b)
    ensures Same(b, model, meter)
  {
    hide *;
    if Verbatim(ReadBody(b).value.want, model, meter) {
      AgreeVerbatim(b, model, meter);
    } else if Reached(Top(b)) {
      AgreeSplice(b, model, meter);
    } else {
      AgreeSlow(b, model, meter);
    }
  }

  lemma ReadPlan(b: Bytes)
    requires ReadBody(b).Some?
    ensures ReadBody(b).value.body == b && ReadBody(b).value.span == Located(b) && Spliceable(ReadBody(b).value)
  {
  }

  lemma SentVerbatim(p: Plan, model: Bytes, meter: bool)
    requires Spliceable(p) && Verbatim(p.want, model, meter)
    ensures Send(p, model, meter) == Some(Sent([p.body], |p.body|))
  {
  }

  lemma SwappedVerbatim(b: Bytes, model: Bytes, asked: Want, meter: bool)
    requires Verbatim(asked, model, meter)
    ensures Swapped(b, model, asked, meter) == Some(b)
  {
  }

  lemma SentSlow(p: Plan, model: Bytes, meter: bool)
    requires Spliceable(p) && !Verbatim(p.want, model, meter) && p.span.hi == 0
    ensures Send(p, model, meter).Some? <==> Swapped(p.body, model, p.want, meter).Some?
    ensures Send(p, model, meter).Some? ==> Send(p, model, meter).value.pieces == [Swapped(p.body, model, p.want, meter).value]
  {
  }

  /** A name longer than both given. */
  function Longer(a: Bytes, v: Value): (r: Bytes)
    ensures r != a && String(r) != v
  {
    seq(|a| + (if v.String? then |v.s| else 0) + 1, _ => ZERO)
  }

  lemma SameMeans(b: Bytes, model: Bytes, meter: bool, f: map<Bytes, Value>, g: map<Bytes, Value>)
    requires ReadBody(b).Some? && Same(b, model, meter)
    requires ObjectIs(Concat(Send(ReadBody(b).value, model, meter).value.pieces), f)
    requires ObjectIs(Swapped(b, model, ReadBody(b).value.want, meter).value, g)
    ensures f == g
  {
    hide ObjectIs, Concat, Send, Swapped, ReadBody;
    var fast, slow := Concat(Send(ReadBody(b).value, model, meter).value.pieces), Swapped(b, model, ReadBody(b).value.want, meter).value;
    var h :| ObjectIs(fast, h) && ObjectIs(slow, h);
    ObjectIsOne(fast, f, h);
    ObjectIsOne(slow, g, h);
  }

  /** Two members named model: the splice edits the first, but the last one counts. */
  lemma DifferTwoModels(b: Bytes)
    requires IsObject(b) && ReadBody(b).Some? && Count(Top(b)) > 1 && Reached(Top(b))
    ensures exists model :: !Same(b, model, false)
  {
    hide ObjectIs, Concat, Swapped, Fields, Edited, ReadBody, Send, HasModel, Reached, Names, Parse, Same;
    var want := ReadBody(b).value.want;
    var ms := Top(b);
    FieldNames(ms);
    var model := Longer(want.model, Fields(ms)[MODEL]);
    SwapMeans(b, model, want, false);
    SpliceMeans(b, model, false);
    EditedMeans(ms, model, false);
    if Same(b, model, false) {
      SameMeans(b, model, false, Fields(ms), Wanted(Fields(ms), model, false));
    }
  }

  /** A caller's stream_options in other letter case: the splice keeps it as the caller's, the
      map rewrite adds the exact name. */
  lemma DifferOptions(b: Bytes)
    requires IsObject(b) && ReadBody(b).Some?
    requires Count(Top(b)) == 1 && Reached(Top(b)) && HasOptions(Top(b)) && OPTIONS !in Names(Top(b))
    ensures exists model :: !Same(b, model, true)
  {
    hide ObjectIs, Concat, Swapped, Fields, Edited, ReadBody, Send, HasModel, Reached, Names, Parse, HasOptions, Wanted, Same;
    var want := ReadBody(b).value.want;
    var ms := Top(b);
    FieldNames(ms);
    ReadObject(b);
    var model := Longer(want.model, Null);
    SwapMeans(b, model, want, true);
    SpliceMeans(b, model, true);
    EditedMeans(ms, model, false);
    WantedDiffer(Fields(ms), model);
    if Same(b, model, true) {
      SameMeans(b, model, true, Wanted(Fields(ms), model, false), Wanted(Fields(ms), model, true));
    }
  }

  lemma WantedDiffer(f: map<Bytes, Value>, model: Bytes)
    requires OPTIONS !in f
    ensures Wanted(f, model, false) != Wanted(f, model, true)
  {
    FieldsDiffer();
    assert OPTIONS in Wanted(f, model, true);
  }

  /** For every JSON object the gateway accepts: the fast path and the slow path mean the same
      for all model names and meter settings if and only if the body is agreeable. */
  lemma SpliceAgreesWithSwap(b: Bytes)
    requires IsObject(b) && ReadBody(b).Some?
    ensures (forall model, meter :: Same(b, model, meter)) <==> Agreeable(b)
  {
    hide Same, Parse, ReadBody, Names, Reached, HasModel;
    ReachedHas(Top(b));
    FieldNames(Top(b));
    if Agreeable(b) {
      forall model, meter ensures Same(b, model, meter) {
        AgreeWhen(b, model, meter);
      }
    } else if Count(Top(b)) > 1 {
      DifferTwoModels(b);
    } else {
      DifferOptions(b);
    }
  }

  /** The object {"model":"a","model":"b"}. */
  function TwoModels(): Doc {
    Doc([], Object(MoreMembers(Member([], MODEL, [], [], Str([97]), []), LastMember(Member([], MODEL, [], [], Str([98]), [])))), [])
  }

  lemma TwoModelsRead()
    ensures WfDoc(TwoModels()) && TwoModels().root.Object?
    ensures var ms := TwoModels().root.members; TakeAll(NOTHING, ms).Some? && Count(ms) == 2 && Reached(ms)
  {
    hide Chars, Unescape, Fold;
    var ms := TwoModels().root.members;
    PlainSpellsItself(MODEL);
    PlainSpellsItself([97]);
    PlainSpellsItself([98]);
    FoldedModel();
    assert Wf(Str([97])) && Wf(Str([98]));
    assert WfMember(ms.m) && WfMember(ms.rest.m) && WfMembers(ms.rest);
    var w := Take(NOTHING, ms.m).value;
    assert Take(w, ms.rest.m).Some? && TakeAll(w, ms.rest).Some?;
    assert Name(ms.m) == MODEL && Name(ms.rest.m) == MODEL && Count(ms.rest) == 1;
  }

  /** A concrete body on which the two paths differ. */
  lemma TwoModelsDiffer()
    ensures var b := DocText(TwoModels());
            IsObject(b) && ReadBody(b).Some? && !Agreeable(b) && exists model :: !Same(b, model, false)
  {
    hide DocText, Same, TakeAll, Count, Parse, WfDoc, HasOptions, Names, Reached;
    TwoModelsRead();
    ParseText(TwoModels());
    DifferTwoModels(DocText(TwoModels()));
  }

  /** The object {"x":1e999,"model":"a","model":"b"}. */
  function HugeFirst(): Doc {
    Doc([], Object(MoreMembers(Member([], [120], [], [], Scalar(HUGE), []), TwoModels().root.members)), [])
  }

  /** A concrete body with two models on which the paths agree: the number before them is out of
      range, so the search gives up and the slow path is taken. */
  lemma HugeFirstAgrees()
    ensures var b := DocText(HugeFirst());
            IsObject(b) && ReadBody(b).Some? && Count(Top(b)) == 2 && Agreeable(b) && Located(b) == NOWHERE
  {
    hide Parse, TakeAll, Fold, Unescape, Chars, IsScalar, Fits, DocText, HasOptions, Names, Located, TwoModels, HUGE, WfDoc;
    TwoModelsRead();
    HugeDoesNotFit();
    ShortName();
    var ms := HugeFirst().root.members;
    PlainSpellsItself([120]);
    HugeFirstWf();
    ParseText(HugeFirst());
    TakeOther(ms);
    LocateSpan(DocText(HugeFirst()));
  }

  lemma HugeFirstWf()
    ensures WfDoc(HugeFirst())
  {
    hide Chars, IsScalar, TakeAll, Fits, Fold, Unescape, HUGE;
    TwoModelsRead();
    HugeDoesNotFit();
    ShortName();
    PlainSpellsItself([120]);
    var ms := HugeFirst().root.members;
    assert Wf(Scalar(HUGE)) && WfMember(ms.m);
    assert WfMembers(ms.rest);
  }

  /** A first member of another name leaves what was read as it was. */
  lemma TakeOther(ms: Members)
    requires ms.MoreMembers? && Fold(Name(ms.m)) != MODEL && Fold(Name(ms.m)) != STREAM && Fold(Name(ms.m)) != OPTIONS
    ensures TakeAll(NOTHING, ms) == TakeAll(NOTHING, ms.rest)
  {
    hide Fold, Unescape;
  }

  /** The object {"model":"a"} with one more member. */
  function ModelAnd(name: Bytes, v: Json): Doc {
    Doc([], Object(MoreMembers(Member([], MODEL, [], [], Str([97]), []), LastMember(Member([], name, [], [], v, [])))), [])
  }

  lemma ModelAndRead(name: Bytes, v: Json)
    requires Plain(name) && Wf(v) && Fold(name) != MODEL && Fold(name) != STREAM && name != MODEL
    ensures var b := DocText(ModelAnd(name, v));
            && IsObject(b) && Top(b) == ModelAnd(name, v).root.members && Count(Top(b)) == 1 && Reached(Top(b))
            && ReadBody(b).Some? && ReadBody(b).value.want.model == [97]
            && (HasOptions(Top(b)) <==> Fold(name) == OPTIONS) && (OPTIONS in Names(Top(b)) <==> name == OPTIONS)
  {
    hide Chars, Unescape, Fold, Parse, DocText, Wf;
    PlainSpellsItself(name);
    PlainSpellsItself(MODEL);
    PlainSpellsItself([97]);
    FoldedModel();
    FieldsDiffer();
    var d := ModelAnd(name, v);
    var ms := d.root.members;
    StrWf([97]);
    assert WfMember(ms.m) && WfMember(ms.rest.m) && WfMembers(ms.rest) && WfMembers(ms);
    ObjectWf(ms);
    ParseText(d);
    assert Name(ms.m) == MODEL && Name(ms.rest.m) == name;
    assert Count(ms.rest) == 0;
    var w := Take(NOTHING, ms.m).value;
    assert w.model == [97] && Take(w, ms.rest.m).Some? && TakeAll(w, ms.rest).Some?;
  }

  lemma StrWf(raw: Bytes)
    requires Chars(raw)
    ensures Wf(Str(raw))
  {
  }

  lemma ObjectWf(ms: Members)
    ensures Wf(Object(ms)) <==> WfMembers(ms)
  {
  }

  /** An agreeable body. */
  lemma AgreeableExists()
    ensures var b := DocText(ModelAnd([120], Scalar(TRUE))); IsObject(b) && ReadBody(b).Some? && Agreeable(b)
  {
    hide DocText, Parse, ReadBody, Fold, Plain, HasOptions, Names, IsObject, Top, ModelAnd, Reached;
    ScalarTrue();
    ShortName();
    ModelAndRead([120], Scalar(TRUE));
  }

  /** A concrete body on which the two paths differ because of the letter case of its
      stream_options. */
  lemma OtherCaseDiffers()
    ensures var b := DocText(ModelAnd(Ascii("Stream_options"), Scalar(TRUE)));
            IsObject(b) && ReadBody(b).Some? && !Agreeable(b) && exists model :: !Same(b, model, true)
  {
    hide DocText, Same, Parse, ReadBody, Fold, Plain, HasOptions, Names, IsObject, Top, ModelAnd, Reached;
    var odd := Ascii("Stream_options");
    ScalarTrue();
    OddNames();
    ShortName();
    ModelAndRead(odd, Scalar(TRUE));
    DifferOptions(DocText(ModelAnd(odd, Scalar(TRUE))));
  }

  lemma FoldCapital(c: byte, s: Bytes)
    requires 65 <= c <= 90
    ensures Fold([c] + s) == [c + 32] + Fold(s)
  {
    assert ([c] + s)[1..] == s;
  }

  lemma OddSpelled()
    ensures Ascii("Stream_options") == [83] + Ascii("tream_options") && OPTIONS == [115] + Ascii("tream_options")
    ensures Plain(Ascii("Stream_options"))
  {
    hide Fold;
  }

  lemma OddNames()
    ensures var odd := Ascii("Stream_options"); Plain(odd) && odd != OPTIONS && odd != MODEL && Fold(odd) == OPTIONS
  {
    hide Fold;
    var odd, rest := Ascii("Stream_options"), Ascii("tream_options");
    OddSpelled();
    assert odd[0] == 83 && OPTIONS[0] == 115 && |odd| == 14 && |MODEL| == 5;
    FoldCapital(83, rest);
    FoldLower(rest);
  }

  lemma ShortName()
    ensures Plain([120]) && Fold([120]) == [120] && [120] != OPTIONS && [120] != MODEL && [120] != STREAM
    ensures OPTIONS != MODEL && OPTIONS != STREAM
  {
    assert [120][1..] == [];
    assert |OPTIONS| == 14 && |STREAM| == 6 && |MODEL| == 5;
  }

  // ---------- what upstream is sent ----------

  /** Names that match model or stream_options are spelled exactly. */
  predicate SpelledExactly(ms: Members) {
    && (Fold(Name(ms.m)) == MODEL ==> Name(ms.m) == MODEL)
    && (Fold(Name(ms.m)) == OPTIONS ==> Name(ms.m) == OPTIONS)
    && (ms.MoreMembers? ==> SpelledExactly(ms.rest))
  }

  lemma {:induction false} SpelledOptions(ms: Members)
    requires SpelledExactly(ms)
    ensures HasOptions(ms) ==> OPTIONS in Names(ms)
    decreases ms
  {
    hide Fold, Unescape;
    if ms.MoreMembers? {
      SpelledOptions(ms.rest);
    }
  }

  /** The model the gateway reads is the value of the one member named model. */
  lemma {:induction false} TakeAllModel(w: Want, ms: Members)
    requires TakeAll(w, ms).Some? && SpelledExactly(ms) && Count(ms) <= 1
    ensures var v := TakeAll(w, ms).value;
            v.model == w.model || (Count(ms) == 1 && MODEL in Fields(ms) && Fields(ms)[MODEL] == String(v.model))
    decreases ms
  {
    hide Fold, Unescape, Text;
    FieldsDiffer();
    FieldNames(ms);
    FoldedModel();
    if ms.MoreMembers? {
      FieldNames(ms.rest);
      TakeAllModel(Take(w, ms.m).value, ms.rest);
    }
  }

  lemma FoldedModel()
    ensures Fold(MODEL) == MODEL
  {
    FoldLower(MODEL);
  }

  /** For every agreeable object, on whatever path: an unchanged model without an injection sends
      the body as it is; otherwise upstream gets valid JSON that means the original with the model
      replaced, and stream_options added exactly when metering and no member has that name. */
  lemma SendMeans(b: Bytes, model: Bytes, meter: bool)
    requires IsObject(b) && ReadBody(b).Some? && Agreeable(b)
    ensures Send(ReadBody(b).value, model, meter).Some?
    ensures var sent := Concat(Send(ReadBody(b).value, model, meter).value.pieces);
            if Verbatim(ReadBody(b).value.want, model, meter) then sent == b
            else ObjectIs(sent, Wanted(Fields(Top(b)), model, meter && OPTIONS !in Names(Top(b))))
  {
    hide ObjectIs, Concat, Swapped, Send, Fields, Names, ReadBody, Agreeable, Parse, Wanted;
    var p := ReadBody(b).value;
    AgreeWhen(b, model, meter);
    ReadPlan(b);
    if Verbatim(p.want, model, meter) {
      SentVerbatim(p, model, meter);
      Concat1(b);
    } else {
      SwapMeans(b, model, p.want, meter);
      var fast, slow := Concat(Send(p, model, meter).value.pieces), Swapped(b, model, p.want, meter).value;
      var f :| ObjectIs(fast, f) && ObjectIs(slow, f);
      ObjectIsOne(slow, f, Wanted(Fields(Top(b)), model, meter && OPTIONS !in Names(Top(b))));
    }
  }

  lemma ReadTakes(b: Bytes)
    requires IsObject(b) && ReadBody(b).Some?
    ensures TakeAll(NOTHING, Top(b)) == Some(ReadBody(b).value.want)
    ensures NOTHING.model == []
  {
    hide Parse, TakeAll, Located;
  }

  /** With the names spelled exactly and one model, the body sent as it is already means that. */
  lemma VerbatimMeans(b: Bytes, model: Bytes, meter: bool)
    requires IsObject(b) && ReadBody(b).Some? && ReadBody(b).value.want.model != []
    requires Count(Top(b)) == 1 && SpelledExactly(Top(b)) && Verbatim(ReadBody(b).value.want, model, meter)
    ensures ObjectIs(b, Wanted(Fields(Top(b)), model, meter && OPTIONS !in Names(Top(b))))
  {
    hide ObjectIs, HasModel, HasOptions, Parse, Fields, Names, TakeAll, SpelledExactly, ReadBody, IsObject, Top, Count;
    var ms := Top(b);
    ReadObject(b);
    ReadTakes(b);
    FieldNames(ms);
    SpelledOptions(ms);
    if OPTIONS in Names(ms) {
      OptionsMatch(ms);
    }
    TopMeans(b);
    TakeAllModel(NOTHING, ms);
    assert Wanted(Fields(ms), model, false) == Fields(ms);
  }
}
