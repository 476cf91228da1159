// The JSON grammar of RFC 8259 as concrete syntax trees that keep every byte of the text,
// a recursive-descent parser for it, and what a text means.

module Json {
  import opened Wrappers
  import opened Octets
  import opened JsonStrings

  // A value with its exact spelling. Text below writes the spelling back.
  datatype Json =
    | Scalar(word: Bytes)             // a number or true, false, null
    | Str(raw: Bytes)                 // the bytes between the quotes, escapes kept
    | EmptyArray(pad: Bytes)
    | Array(items: Items)
    | EmptyObject(pad: Bytes)
    | Object(members: Members)

  datatype Items =
    | LastItem(pre: Bytes, val: Json, post: Bytes)
    | MoreItems(pre: Bytes, val: Json, post: Bytes, rest: Items)

  datatype Member = Member(pre: Bytes, key: Bytes, mid: Bytes, gap: Bytes, val: Json, post: Bytes)

  datatype Members =
    | LastMember(m: Member)
    | MoreMembers(m: Member, rest: Members)

  // A whole text: one value with white space around it.
  datatype Doc = Doc(lead: Bytes, root: Json, trail: Bytes)

  // ---------- spelling ----------

  /** The bytes of j, followed by k. */
  function Spell(j: Json, k: Bytes): Bytes {
    match j
    case Scalar(word) => word + k
    case Str(raw) => [QUOTE] + (raw + ([QUOTE] + k))
    case EmptyArray(pad) => [OPEN_ARRAY] + (pad + ([CLOSE_ARRAY] + k))
    case Array(items) => [OPEN_ARRAY] + SpellItems(items, k)
    case EmptyObject(pad) => [OPEN_OBJECT] + (pad + ([CLOSE_OBJECT] + k))
    case Object(members) => [OPEN_OBJECT] + SpellMembers(members, k)
  }

  /** The items, the closing bracket, then k. */
  function SpellItems(items: Items, k: Bytes): Bytes {
    match items
    case LastItem(pre, val, post) => pre + Spell(val, post + ([CLOSE_ARRAY] + k))
    case MoreItems(pre, val, post, rest) => pre + Spell(val, post + ([COMMA] + SpellItems(rest, k)))
  }

  /** A member up to the first byte of its value, then k. */
  function SpellHead(m: Member, k: Bytes): Bytes {
    m.pre + ([QUOTE] + (m.key + ([QUOTE] + (m.mid + ([COLON] + (m.gap + k))))))
  }

  /** The members, the closing brace, then k. */
  function SpellMembers(ms: Members, k: Bytes): Bytes {
    match ms
    case LastMember(m) => SpellHead(m, Spell(m.val, m.post + ([CLOSE_OBJECT] + k)))
    case MoreMembers(m, rest) => SpellHead(m, Spell(m.val, m.post + ([COMMA] + SpellMembers(rest, k))))
  }

  function Text(j: Json): Bytes {
    Spell(j, [])
  }

  function DocText(d: Doc): Bytes {
    d.lead + Spell(d.root, d.trail)
  }

  /** What follows an item. */
  function AfterItem(items: Items, k: Bytes): Bytes {
    if items.LastItem? then [CLOSE_ARRAY] + k else [COMMA] + SpellItems(items.rest, k)
  }

  function AfterMember(ms: Members, k: Bytes): Bytes {
    if ms.LastMember? then [CLOSE_OBJECT] + k else [COMMA] + SpellMembers(ms.rest, k)
  }

  /** A spelling is the text of the value and then what follows. */
  lemma {:induction false} SpellSplits(j: Json, k: Bytes)
    ensures Spell(j, k) == Text(j) + k
    decreases j, 0
  {
    match j
    case Scalar(_) =>
    case Str(_) =>
    case EmptyArray(_) =>
    case EmptyObject(_) =>
    case Array(items) => ItemsSplit(items, k);
    case Object(ms) => MembersSplit(ms, k);
  }

  lemma {:induction false} ItemsSplit(items: Items, k: Bytes)
    ensures SpellItems(items, k) == SpellItems(items, []) + k
    decreases items, 0
  {
    var w, w0 := AfterItem(items, k), AfterItem(items, []);
    assert w == w0 + k by {
      hide Spell;
      if items.MoreItems? {
        ItemsSplit(items.rest, k);
        Rejoin([COMMA], SpellItems(items.rest, []), k);
      }
    }
    SpellSplits(items.val, items.post + w);
    SpellSplits(items.val, items.post + w0);
    hide Spell, Text, AfterItem;
    SpellAfter(items, k);
    SpellAfter(items, []);
    Flanked(items.pre, Text(items.val), items.post, w0, k);
  }

  lemma SpellAfter(items: Items, k: Bytes)
    ensures SpellItems(items, k) == items.pre + Spell(items.val, items.post + AfterItem(items, k))
  {
  }

  lemma Flanked(pre: Bytes, text: Bytes, post: Bytes, w: Bytes, k: Bytes)
    ensures pre + (text + (post + (w + k))) == pre + (text + (post + w)) + k
  {
  }

  lemma HeadSplits(m: Member, x: Bytes)
    ensures SpellHead(m, x) == SpellHead(m, []) + x
  {
  }

  lemma {:induction false} MembersSplit(ms: Members, k: Bytes)
    ensures SpellMembers(ms, k) == SpellMembers(ms, []) + k
    decreases ms, 0
  {
    var w, w0 := AfterMember(ms, k), AfterMember(ms, []);
    assert w == w0 + k by {
      hide Spell, SpellHead;
      if ms.MoreMembers? {
        MembersSplit(ms.rest, k);
        Rejoin([COMMA], SpellMembers(ms.rest, []), k);
      }
    }
    SpellSplits(ms.m.val, ms.m.post + w);
    SpellSplits(ms.m.val, ms.m.post + w0);
    hide Spell, SpellHead, Text, AfterMember;
    SpellAfterMember(ms, k);
    SpellAfterMember(ms, []);
    HeadSplits(ms.m, Spell(ms.m.val, ms.m.post + w));
    HeadSplits(ms.m, Spell(ms.m.val, ms.m.post + w0));
    Flanked(SpellHead(ms.m, []), Text(ms.m.val), ms.m.post, w0, k);
  }

  lemma SpellAfterMember(ms: Members, k: Bytes)
    ensures SpellMembers(ms, k) == SpellHead(ms.m, Spell(ms.m.val, ms.m.post + AfterMember(ms, k)))
  {
  }

  // ---------- well-formedness ----------

  /** Bytes that end a number or a literal name. */
  predicate Breaks(c: byte) {
    IsWs(c) || c == COMMA || c == COLON || c == QUOTE ||
    c == OPEN_ARRAY || c == CLOSE_ARRAY || c == OPEN_OBJECT || c == CLOSE_OBJECT
  }

  predicate IsDigit(c: byte) {
    48 <= c <= 57
  }

  function Digits(s: Bytes): (n: nat)
    ensures n <= |s|
  {
    if s != [] && IsDigit(s[0]) then 1 + Digits(s[1..]) else 0
  }

  predicate IsExponent(s: Bytes) {
    s == [] ||
    ((s[0] == 101 || s[0] == 69) &&
     var t := if 1 < |s| && (s[1] == PLUS || s[1] == MINUS) then s[2..] else s[1..];
     t != [] && Digits(t) == |t|)
  }

  predicate IsFraction(s: Bytes) {
    if s != [] && s[0] == DOT
    then Digits(s[1..]) > 0 && IsExponent(s[1 + Digits(s[1..])..])
    else IsExponent(s)
  }

  /** RFC 8259, section 6. */
  predicate IsNumber(s: Bytes) {
    var u := if s != [] && s[0] == MINUS then s[1..] else s;
    var n := Digits(u);
    n > 0 && (u[0] != ZERO || n == 1) && IsFraction(u[n..])
  }

  const TRUE: Bytes := [116, 114, 117, 101]
  const FALSE: Bytes := [102, 97, 108, 115, 101]
  const NULL: Bytes := [110, 117, 108, 108]

  predicate IsScalar(s: Bytes) {
    && s != []
    && (forall i | 0 <= i < |s| :: !Breaks(s[i]))
    && (s == TRUE || s == FALSE || s == NULL || IsNumber(s))
  }

  predicate Wf(j: Json) {
    match j
    case Scalar(word) => IsScalar(word)
    case Str(raw) => Chars(raw)
    case EmptyArray(pad) => AllWs(pad)
    case Array(items) => WfItems(items)
    case EmptyObject(pad) => AllWs(pad)
    case Object(members) => WfMembers(members)
  }

  predicate WfItems(items: Items) {
    AllWs(items.pre) && Wf(items.val) && AllWs(items.post) && (items.MoreItems? ==> WfItems(items.rest))
  }

  predicate WfMember(m: Member) {
    AllWs(m.pre) && Chars(m.key) && AllWs(m.mid) && AllWs(m.gap) && Wf(m.val) && AllWs(m.post)
  }

  predicate WfMembers(ms: Members) {
    WfMember(ms.m) && (ms.MoreMembers? ==> WfMembers(ms.rest))
  }

  predicate WfDoc(d: Doc) {
    AllWs(d.lead) && Wf(d.root) && AllWs(d.trail)
  }

  // ---------- meaning ----------

  datatype Value =
    | Null
    | Bool(b: bool)
    | Number(word: Bytes)
    | String(s: Bytes)
    | List(vs: seq<Value>)
    | Dict(fields: map<Bytes, Value>)

  function Meaning(j: Json): Value {
    match j
    case Scalar(word) =>
      if word == NULL then Null
      else if word == TRUE then Bool(true)
      else if word == FALSE then Bool(false)
      else Number(word)
    case Str(raw) => String(Unescape(raw))
    case EmptyArray(_) => List([])
    case Array(items) => List(ItemsMeaning(items))
    case EmptyObject(_) => Dict(map[])
    case Object(members) => Dict(Fields(members))
  }

  function ItemsMeaning(items: Items): seq<Value> {
    match items
    case LastItem(_, val, _) => [Meaning(val)]
    case MoreItems(_, val, _, rest) => [Meaning(val)] + ItemsMeaning(rest)
  }

  function Name(m: Member): Bytes {
    Unescape(m.key)
  }

  /** The fields of an object; of several members with one name the last counts. */
  function Fields(ms: Members): map<Bytes, Value> {
    match ms
    case LastMember(m) => map[Name(m) := Meaning(m.val)]
    case MoreMembers(m, rest) => map[Name(m) := Meaning(m.val)] + Fields(rest)
  }

  // ---------- parser ----------

  // What was read and the bytes after it.
  datatype Parsed<+T> = Parsed(val: T, rest: Bytes)

  function WordLen(s: Bytes): (n: nat)
    ensures n <= |s|
    ensures forall i | 0 <= i < n :: !Breaks(s[i])
    ensures n < |s| ==> Breaks(s[n])
  {
    if s != [] && !Breaks(s[0]) then 1 + WordLen(s[1..]) else 0
  }

  /** One value at the very start of s. */
  function ParseValue(s: Bytes): (r: Option<Parsed<Json>>)
    ensures r.Some? ==> |r.value.rest| < |s|
    decreases |s|, 0
  {
    if s == [] then None
    else if s[0] == QUOTE then ParseString(s[1..])
    else if s[0] == OPEN_ARRAY then ParseArray(s[1..])
    else if s[0] == OPEN_OBJECT then ParseObject(s[1..])
    else ParseWord(s)
  }

  function ParseWord(s: Bytes): (r: Option<Parsed<Json>>)
    ensures r.Some? ==> r.value.val.Scalar? && |r.value.rest| < |s|
  {
    var n := WordLen(s);
    if IsScalar(s[..n]) then Some(Parsed(Scalar(s[..n]), s[n..])) else None
  }

  /** A string, past its opening quote. */
  function ParseString(s: Bytes): (r: Option<Parsed<Json>>)
    ensures r.Some? ==> r.value.val.Str? && |r.value.rest| < |s|
  {
    match ScanString(s)
    case None => None
    case Some(n) => Some(Parsed(Str(s[..n]), s[n..][1..]))
  }

  /** An array, past its opening bracket. */
  function ParseArray(s: Bytes): (r: Option<Parsed<Json>>)
    ensures r.Some? ==> |r.value.rest| < |s|
    decreases |s|, 2
  {
    var t := Trim(s);
    if t != [] && t[0] == CLOSE_ARRAY then Some(Parsed(EmptyArray(Before(s, t)), t[1..]))
    else
      match ParseItems(s)
      case None => None
      case Some(p) => Some(Parsed(Array(p.val), p.rest))
  }

  /** An object, past its opening brace. */
  function ParseObject(s: Bytes): (r: Option<Parsed<Json>>)
    ensures r.Some? ==> |r.value.rest| < |s|
    decreases |s|, 3
  {
    var t := Trim(s);
    if t != [] && t[0] == CLOSE_OBJECT then Some(Parsed(EmptyObject(Before(s, t)), t[1..]))
    else
      match ParseMembers(s)
      case None => None
      case Some(p) => Some(Parsed(Object(p.val), p.rest))
  }

  /** The rest of a non-empty array, its closing bracket included. */
  function ParseItems(s: Bytes): (r: Option<Parsed<Items>>)
    ensures r.Some? ==> |r.value.rest| < |s|
    decreases |s|, 1
  {
    var t := Trim(s);
    match ParseValue(t)
    case None => None
    case Some(Parsed(val, u)) =>
      var w := Trim(u);
      if w == [] then None
      else if w[0] == CLOSE_ARRAY then Some(Parsed(LastItem(Before(s, t), val, Before(u, w)), w[1..]))
      else if w[0] == COMMA then
        match ParseItems(w[1..])
        case None => None
        case Some(p) => Some(Parsed(MoreItems(Before(s, t), val, Before(u, w), p.val), p.rest))
      else None
  }

  /** A member's name and colon, up to the first byte of its value. */
  function ParseHead(s: Bytes): (r: Option<Parsed<Member>>)
    ensures r.Some? ==> |r.value.rest| < |s|
  {
    var t := Trim(s);
    if t == [] || t[0] != QUOTE then None else
    match ParseString(t[1..])
    case None => None
    case Some(Parsed(key, u)) => ParseColon(Before(s, t), key.raw, u)
  }

  function ParseColon(pre: Bytes, key: Bytes, u: Bytes): (r: Option<Parsed<Member>>)
    ensures r.Some? ==> |r.value.rest| < |u|
  {
    var w := Trim(u);
    if w == [] || w[0] != COLON then None else
    var x := Trim(w[1..]);
    Some(Parsed(Member(pre, key, Before(u, w), Before(w[1..], x), Scalar(NULL), []), x))
  }

  /** A whole member, with the white space after its value. */
  function ParseMember(s: Bytes): (r: Option<Parsed<Member>>)
    ensures r.Some? ==> |r.value.rest| < |s|
    decreases |s|, 1
  {
    match ParseHead(s)
    case None => None
    case Some(head) =>
      match ParseValue(head.rest)
      case None => None
      case Some(p) =>
        var w := Trim(p.rest);
        Some(Parsed(head.val.(val := p.val, post := Before(p.rest, w)), w))
  }

  /** The rest of a non-empty object, its closing brace included. */
  function ParseMembers(s: Bytes): (r: Option<Parsed<Members>>)
    ensures r.Some? ==> |r.value.rest| < |s|
    decreases |s|, 2
  {
    match ParseMember(s)
    case None => None
    case Some(Parsed(m, w)) =>
      if w == [] then None
      else if w[0] == CLOSE_OBJECT then Some(Parsed(LastMember(m), w[1..]))
      else if w[0] == COMMA then
        match ParseMembers(w[1..])
        case None => None
        case Some(p) => Some(Parsed(MoreMembers(m, p.val), p.rest))
      else None
  }

  /** A whole JSON text. */
  function Parse(b: Bytes): Option<Doc> {
    var t := Trim(b);
    match ParseValue(t)
    case None => None
    case Some(p) => if Trim(p.rest) != [] then None else Some(Doc(Before(b, t), p.val, p.rest))
  }

  // ---------- whatever parses is spelled exactly by its tree ----------

  lemma Uncons(s: Bytes)
    requires s != []
    ensures s == [s[0]] + s[1..]
  {
  }

  lemma ParseWordSound(s: Bytes)
    requires ParseWord(s).Some?
    ensures Wf(ParseWord(s).value.val)
    ensures s == Spell(ParseWord(s).value.val, ParseWord(s).value.rest)
  {
  }

  lemma ParseStringSound(s: Bytes)
    requires ParseString(s).Some?
    ensures Chars(ParseString(s).value.val.raw)
    ensures s == ParseString(s).value.val.raw + ([QUOTE] + ParseString(s).value.rest)
  {
    var n := ScanString(s).value;
    Uncons(s[n..]);
  }

  lemma {:induction false} ParseValueSound(s: Bytes)
    requires ParseValue(s).Some?
    ensures Wf(ParseValue(s).value.val)
    ensures s == Spell(ParseValue(s).value.val, ParseValue(s).value.rest)
    decreases |s|, 0
  {
    Uncons(s);
    if s[0] == QUOTE {
      ParseStringSound(s[1..]);
    } else if s[0] == OPEN_ARRAY {
      ParseArraySound(s[1..]);
    } else if s[0] == OPEN_OBJECT {
      ParseObjectSound(s[1..]);
    } else {
      ParseWordSound(s);
    }
  }

  lemma {:induction false} ParseArraySound(s: Bytes)
    requires ParseArray(s).Some?
    ensures Wf(ParseArray(s).value.val)
    ensures [OPEN_ARRAY] + s == Spell(ParseArray(s).value.val, ParseArray(s).value.rest)
    decreases |s|, 2
  {
    var t := Trim(s);
    TrimSplits(s);
    if t != [] && t[0] == CLOSE_ARRAY {
      Uncons(t);
    } else {
      ParseItemsSound(s);
    }
  }

  lemma {:induction false} ParseObjectSound(s: Bytes)
    requires ParseObject(s).Some?
    ensures Wf(ParseObject(s).value.val)
    ensures [OPEN_OBJECT] + s == Spell(ParseObject(s).value.val, ParseObject(s).value.rest)
    decreases |s|, 3
  {
    var t := Trim(s);
    TrimSplits(s);
    if t != [] && t[0] == CLOSE_OBJECT {
      Uncons(t);
    } else {
      ParseMembersSound(s);
    }
  }

  lemma {:induction false} ParseItemsSound(s: Bytes)
    requires ParseItems(s).Some?
    ensures WfItems(ParseItems(s).value.val)
    ensures s == SpellItems(ParseItems(s).value.val, ParseItems(s).value.rest)
    decreases |s|, 1
  {
    hide Trim, Before, ParseValue, Wf, Spell;
    TrimSplits(s);
    ParseValueSound(Trim(s));
    var u := ParseValue(Trim(s)).value.rest;
    TrimSplits(u);
    var w := Trim(u);
    assert w == [w[0]] + w[1..];
    if w[0] == COMMA {
      ParseItemsSound(w[1..]);
    }
  }

  lemma ParseColonSound(pre: Bytes, key: Bytes, u: Bytes)
    requires ParseColon(pre, key, u).Some? && AllWs(pre) && Chars(key)
    ensures WfMember(ParseColon(pre, key, u).value.val)
    ensures pre + ([QUOTE] + (key + ([QUOTE] + u)))
            == SpellHead(ParseColon(pre, key, u).value.val, ParseColon(pre, key, u).value.rest)
  {
    var w := Trim(u);
    TrimSplits(u);
    Uncons(w);
    TrimSplits(w[1..]);
    NullIsScalar();
  }

  lemma ParseHeadSound(s: Bytes)
    requires ParseHead(s).Some?
    ensures WfMember(ParseHead(s).value.val)
    ensures s == SpellHead(ParseHead(s).value.val, ParseHead(s).value.rest)
  {
    var t := Trim(s);
    TrimSplits(s);
    Uncons(t);
    ParseStringSound(t[1..]);
    var p := ParseString(t[1..]).value;
    ParseColonSound(Before(s, t), p.val.raw, p.rest);
  }

  lemma {:induction false} ParseMemberSound(s: Bytes)
    requires ParseMember(s).Some?
    ensures WfMember(ParseMember(s).value.val)
    ensures var p := ParseMember(s).value;
            s == SpellHead(p.val, Spell(p.val.val, p.val.post + p.rest))
    decreases |s|, 1
  {
    ParseHeadSound(s);
    var p := ParseHead(s).value;
    ParseValueSound(p.rest);
    TrimSplits(ParseValue(p.rest).value.rest);
  }

  lemma {:induction false} ParseMembersSound(s: Bytes)
    requires ParseMembers(s).Some?
    ensures WfMembers(ParseMembers(s).value.val)
    ensures s == SpellMembers(ParseMembers(s).value.val, ParseMembers(s).value.rest)
    decreases |s|, 2
  {
    ParseMemberSound(s);
    var w := ParseMember(s).value.rest;
    Uncons(w);
    if w[0] == COMMA {
      ParseMembersSound(w[1..]);
    }
  }

  lemma ParseSound(b: Bytes)
    requires Parse(b).Some?
    ensures WfDoc(Parse(b).value) && b == DocText(Parse(b).value)
  {
    TrimSplits(b);
    ParseValueSound(Trim(b));
    TrimSplits(ParseValue(Trim(b)).value.rest);
  }

  lemma NullIsScalar()
    ensures IsScalar(NULL)
  {
  }

  // ---------- the parser accepts every spelling the grammar gives ----------

  lemma {:induction false} WordLenExact(word: Bytes, rest: Bytes)
    requires forall i | 0 <= i < |word| :: !Breaks(word[i])
    requires rest == [] || Breaks(rest[0])
    ensures WordLen(word + rest) == |word|
  {
    if word == [] {
      assert word + rest == rest;
    } else {
      assert (word + rest)[1..] == word[1..] + rest;
      WordLenExact(word[1..], rest);
    }
  }

  /** A value starts with a byte that is neither white space nor punctuation between values. */
  lemma FirstByte(j: Json, k: Bytes)
    requires Wf(j)
    ensures var s := Spell(j, k);
            s != [] && !IsWs(s[0]) && s[0] != CLOSE_ARRAY && s[0] != CLOSE_OBJECT && s[0] != COMMA && s[0] != COLON
  {
    if j.Scalar? {
      assert Spell(j, k)[0] == j.word[0];
    }
  }

  lemma ParseStringText(raw: Bytes, k: Bytes)
    requires Chars(raw)
    ensures ParseString(raw + ([QUOTE] + k)) == Some(Parsed(Str(raw), k))
  {
    var s := raw + ([QUOTE] + k);
    ScanStringExact(raw, k);
    assert s[..|raw|] == raw && s[|raw|..] == [QUOTE] + k;
    Cons(QUOTE, k);
  }

  lemma ParseWordText(word: Bytes, k: Bytes)
    requires IsScalar(word)
    requires k == [] || Breaks(k[0])
    ensures ParseValue(word + k) == Some(Parsed(Scalar(word), k))
  {
    assert !Breaks((word + k)[0]);
    assert ParseValue(word + k) == ParseWord(word + k);
    WordLenExact(word, k);
    assert (word + k)[..|word|] == word && (word + k)[|word|..] == k;
  }

  lemma {:induction false} ParseValueText(j: Json, k: Bytes)
    requires Wf(j)
    requires k == [] || Breaks(k[0])
    ensures ParseValue(Spell(j, k)) == Some(Parsed(j, k))
    decreases j, 0
  {
    match j
    case Scalar(word) => ParseWordText(word, k);
    case Str(raw) => ParseStringText(raw, k); ByFirstByte(raw + ([QUOTE] + k));
    case EmptyArray(pad) => ParseEmptyText(pad, k);
    case EmptyObject(pad) => ParseEmptyText(pad, k);
    case Array(items) => ParseArrayText(items, k);
    case Object(members) => ParseObjectText(members, k);
  }

  /** The first byte tells what kind of value it is. */
  lemma ByFirstByte(s: Bytes)
    ensures ParseValue([QUOTE] + s) == ParseString(s)
    ensures ParseValue([OPEN_ARRAY] + s) == ParseArray(s)
    ensures ParseValue([OPEN_OBJECT] + s) == ParseObject(s)
  {
    Cons(QUOTE, s);
    Cons(OPEN_ARRAY, s);
    Cons(OPEN_OBJECT, s);
  }

  lemma ParseEmptyText(pad: Bytes, k: Bytes)
    requires AllWs(pad)
    ensures ParseValue(Spell(EmptyArray(pad), k)) == Some(Parsed(EmptyArray(pad), k))
    ensures ParseValue(Spell(EmptyObject(pad), k)) == Some(Parsed(EmptyObject(pad), k))
  {
    TrimExact(pad, [CLOSE_ARRAY] + k);
    Cons(CLOSE_ARRAY, k);
    ByFirstByte(pad + ([CLOSE_ARRAY] + k));
    TrimExact(pad, [CLOSE_OBJECT] + k);
    Cons(CLOSE_OBJECT, k);
    ByFirstByte(pad + ([CLOSE_OBJECT] + k));
  }

  lemma {:induction false} ParseArrayText(items: Items, k: Bytes)
    requires WfItems(items)
    ensures ParseValue(Spell(Array(items), k)) == Some(Parsed(Array(items), k))
    decreases items, 1
  {
    ItemsFirst(items, k);
    ParseItemsText(items, k);
    ByFirstByte(SpellItems(items, k));
  }

  lemma {:induction false} ParseObjectText(ms: Members, k: Bytes)
    requires WfMembers(ms)
    ensures ParseValue(Spell(Object(ms), k)) == Some(Parsed(Object(ms), k))
    decreases ms, 1
  {
    MembersFirst(ms, k);
    ParseMembersText(ms, k);
    ByFirstByte(SpellMembers(ms, k));
  }

  lemma ItemsFirst(items: Items, k: Bytes)
    requires WfItems(items)
    ensures Trim(SpellItems(items, k)) == Spell(items.val, items.post + AfterItem(items, k))
    ensures Before(SpellItems(items, k), Trim(SpellItems(items, k))) == items.pre
    ensures Trim(SpellItems(items, k)) != [] && Trim(SpellItems(items, k))[0] != CLOSE_ARRAY
  {
    var x := Spell(items.val, items.post + AfterItem(items, k));
    FirstByte(items.val, items.post + AfterItem(items, k));
    TrimExact(items.pre, x);
    assert SpellItems(items, k) == items.pre + x;
  }

  lemma MembersFirst(ms: Members, k: Bytes)
    requires WfMembers(ms)
    ensures Trim(SpellMembers(ms, k)) != [] && Trim(SpellMembers(ms, k))[0] == QUOTE
    ensures SpellMembers(ms, k) == SpellHead(ms.m, Spell(ms.m.val, ms.m.post + AfterMember(ms, k)))
  {
    var x := Spell(ms.m.val, ms.m.post + AfterMember(ms, k));
    TrimExact(ms.m.pre, [QUOTE] + (ms.m.key + ([QUOTE] + (ms.m.mid + ([COLON] + (ms.m.gap + x))))));
  }

  /** White space and then a comma or a closing bracket end a value. */
  lemma PadBreaks(pad: Bytes, c: byte, k: Bytes)
    requires AllWs(pad) && Breaks(c)
    ensures pad + ([c] + k) != [] && Breaks((pad + ([c] + k))[0])
  {
  }

  lemma {:induction false} ParseItemsText(items: Items, k: Bytes)
    requires WfItems(items)
    ensures ParseItems(SpellItems(items, k)) == Some(Parsed(items, k))
    decreases items, 0
  {
    var w := AfterItem(items, k);
    ItemsFirst(items, k);
    assert w == [w[0]] + w[1..];
    PadBreaks(items.post, w[0], w[1..]);
    ParseValueText(items.val, items.post + w);
    TrimExact(items.post, w);
    if items.MoreItems? {
      Cons(COMMA, SpellItems(items.rest, k));
      ParseItemsText(items.rest, k);
    } else {
      Cons(CLOSE_ARRAY, k);
    }
  }

  lemma ParseHeadText(m: Member, k: Bytes)
    requires WfMember(m)
    requires k == [] || !IsWs(k[0])
    ensures ParseHead(SpellHead(m, k)) == Some(Parsed(m.(val := Scalar(NULL), post := []), k))
  {
    hide Trim, Before, ParseString, AllWs, Chars, Wf;
    var x := m.gap + k;
    var u := m.mid + ([COLON] + x);
    var t := [QUOTE] + (m.key + ([QUOTE] + u));
    TrimExact(m.pre, t);
    Cons(QUOTE, m.key + ([QUOTE] + u));
    ParseStringText(m.key, u);
    TrimExact(m.mid, [COLON] + x);
    Cons(COLON, x);
    TrimExact(m.gap, k);
  }

  lemma {:induction false} ParseMemberText(m: Member, w: Bytes)
    requires WfMember(m)
    requires w != [] && !IsWs(w[0]) && Breaks(w[0])
    ensures ParseMember(SpellHead(m, Spell(m.val, m.post + w))) == Some(Parsed(m, w))
    decreases m, 1
  {
    FirstByte(m.val, m.post + w);
    ParseHeadText(m, Spell(m.val, m.post + w));
    Uncons(w);
    PadBreaks(m.post, w[0], w[1..]);
    ParseValueText(m.val, m.post + w);
    TrimExact(m.post, w);
  }

  lemma {:induction false} ParseMembersText(ms: Members, k: Bytes)
    requires WfMembers(ms)
    ensures ParseMembers(SpellMembers(ms, k)) == Some(Parsed(ms, k))
    decreases ms, 0
  {
    ParseMemberText(ms.m, AfterMember(ms, k));
    if ms.MoreMembers? {
      Cons(COMMA, SpellMembers(ms.rest, k));
      ParseMembersText(ms.rest, k);
    } else {
      Cons(CLOSE_OBJECT, k);
    }
  }

  /** Round trip: every tree the grammar allows is what the parser finds in its spelling,
      so the grammar is unambiguous. */
  lemma ParseText(d: Doc)
    requires WfDoc(d)
    ensures Parse(DocText(d)) == Some(d)
  {
    FirstByte(d.root, d.trail);
    TrimExact(d.lead, Spell(d.root, d.trail));
    ParseValueText(d.root, d.trail);
    TrimExact(d.trail, []);
    assert d.trail + [] == d.trail;
  }
}
