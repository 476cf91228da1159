// The encoder's output for a map of raw messages: sorted quoted names, each value compacted.

module Encoding {
  import opened Octets
  import opened JsonStrings
  import opened Json
  import Sorting

  function ByteRank(b: byte): int {
    b as int
  }

  /** Drop white space outside strings. */
  function Compact(s: Bytes, inString: bool): Bytes {
    if s == [] then []
    else if inString then
      if s[0] == BACKSLASH && |s| >= 2 then [s[0]] + ([s[1]] + Compact(s[2..], true))
      else [s[0]] + Compact(s[1..], s[0] != QUOTE)
    else if IsWs(s[0]) then Compact(s[1..], false)
    else [s[0]] + Compact(s[1..], s[0] == QUOTE)
  }

  /** A value without white space between its tokens. */
  function Tight(j: Json): Json {
    match j
    case Scalar(_) => j
    case Str(_) => j
    case EmptyArray(_) => EmptyArray([])
    case EmptyObject(_) => EmptyObject([])
    case Array(items) => Array(TightItems(items))
    case Object(ms) => Object(TightMembers(ms))
  }

  function TightItems(items: Items): Items {
    match items
    case LastItem(_, val, _) => LastItem([], Tight(val), [])
    case MoreItems(_, val, _, rest) => MoreItems([], Tight(val), [], TightItems(rest))
  }

  function TightMember(m: Member): Member {
    Member([], m.key, [], [], Tight(m.val), [])
  }

  function TightMembers(ms: Members): Members {
    match ms
    case LastMember(m) => LastMember(TightMember(m))
    case MoreMembers(m, rest) => MoreMembers(TightMember(m), TightMembers(rest))
  }

  lemma {:induction false} CompactPad(pad: Bytes, k: Bytes)
    requires AllWs(pad)
    ensures Compact(pad + k, false) == Compact(k, false)
  {
    if pad == [] {
      assert pad + k == k;
    } else {
      assert (pad + k)[1..] == pad[1..] + k;
      CompactPad(pad[1..], k);
    }
  }

  lemma CompactByte(c: byte, k: Bytes)
    requires !IsWs(c)
    ensures Compact([c] + k, false) == [c] + Compact(k, c == QUOTE)
  {
    Cons(c, k);
  }

  lemma {:induction false} CompactWord(word: Bytes, k: Bytes)
    requires forall i | 0 <= i < |word| :: !Breaks(word[i])
    ensures Compact(word + k, false) == word + Compact(k, false)
  {
    if word == [] {
      assert word + k == k;
    } else {
      assert (word + k)[1..] == word[1..] + k;
      CompactWord(word[1..], k);
      assert !Breaks(word[0]);
      assert word == [word[0]] + word[1..];
    }
  }

  /** Bytes without quotes or backslashes are kept inside a string. */
  lemma {:induction false} CompactKept(s: Bytes, k: Bytes)
    requires forall i | 0 <= i < |s| :: s[i] != QUOTE && s[i] != BACKSLASH
    ensures Compact(s + k, true) == s + Compact(k, true)
  {
    if s == [] {
      assert s + k == k;
    } else {
      assert (s + k)[1..] == s[1..] + k;
      CompactKept(s[1..], k);
      assert s == [s[0]] + s[1..];
    }
  }

  lemma CompactHead(raw: Bytes, k: Bytes)
    requires Head(raw) > 0
    ensures Compact(raw + k, true) == raw[..Head(raw)] + Compact(raw[Head(raw)..] + k, true)
  {
    var h := Head(raw);
    var s := raw + k;
    if h == 1 {
      assert s[1..] == raw[1..] + k;
      assert raw[..1] == [raw[0]];
    } else {
      assert s[2..] == raw[2..] + k;
      assert Compact(s, true) == [raw[0]] + ([raw[1]] + Compact(raw[2..] + k, true));
      assert raw[2..] == raw[2..h] + raw[h..];
      assert raw[2..] + k == raw[2..h] + (raw[h..] + k);
      CompactKept(raw[2..h], raw[h..] + k);
      assert raw[..h] == [raw[0]] + ([raw[1]] + raw[2..h]);
    }
  }

  lemma CompactTail(raw: Bytes, k: Bytes)
    requires raw != [] && Chars(raw)
    ensures Compact(raw + ([QUOTE] + k), true) == raw + ([QUOTE] + Compact(k, false))
    decreases |raw|, 0
  {
    assert Head(raw) > 0 && Chars(raw[Head(raw)..]);
    hide *;
    var h := Head(raw);
    CompactHead(raw, [QUOTE] + k);
    CompactString(raw[h..], k);
    Rejoin(raw[..h], raw[h..], [QUOTE] + Compact(k, false));
    assert raw == raw[..h] + raw[h..];
  }

  lemma {:induction false} CompactString(raw: Bytes, k: Bytes)
    requires Chars(raw)
    ensures Compact(raw + ([QUOTE] + k), true) == raw + ([QUOTE] + Compact(k, false))
    decreases |raw|, 1
  {
    if raw == [] {
      Cons(QUOTE, k);
      assert raw + ([QUOTE] + k) == [QUOTE] + k;
      assert raw + ([QUOTE] + Compact(k, false)) == [QUOTE] + Compact(k, false);
    } else {
      CompactTail(raw, k);
    }
  }

  /** Compacting a spelling spells the tight tree. */
  lemma {:induction false} CompactSpell(j: Json, k: Bytes)
    requires Wf(j)
    ensures Compact(Spell(j, k), false) == Spell(Tight(j), Compact(k, false))
    decreases j, 0
  {
    hide Compact, Chars;
    match j
    case Scalar(word) => CompactWord(word, k);
    case Str(raw) =>
      CompactByte(QUOTE, raw + ([QUOTE] + k));
      CompactString(raw, k);
    case EmptyArray(pad) =>
      CompactByte(OPEN_ARRAY, pad + ([CLOSE_ARRAY] + k));
      CompactSeparated(pad, CLOSE_ARRAY, k);
    case EmptyObject(pad) =>
      CompactByte(OPEN_OBJECT, pad + ([CLOSE_OBJECT] + k));
      CompactSeparated(pad, CLOSE_OBJECT, k);
    case Array(items) =>
      CompactByte(OPEN_ARRAY, SpellItems(items, k));
      CompactItems(items, k);
    case Object(ms) =>
      CompactByte(OPEN_OBJECT, SpellMembers(ms, k));
      CompactMembers(ms, k);
  }

  lemma CompactSeparated(pad: Bytes, c: byte, k: Bytes)
    requires AllWs(pad) && !IsWs(c) && c != QUOTE
    ensures Compact(pad + ([c] + k), false) == [] + ([c] + Compact(k, false))
  {
    CompactPad(pad, [c] + k);
    CompactByte(c, k);
  }

  lemma {:induction false} CompactItems(items: Items, k: Bytes)
    requires WfItems(items)
    ensures Compact(SpellItems(items, k), false) == SpellItems(TightItems(items), Compact(k, false))
    decreases items, 0
  {
    hide Compact;
    var w := AfterItem(items, k);
    CompactPad(items.pre, Spell(items.val, items.post + w));
    CompactSpell(items.val, items.post + w);
    if items.LastItem? {
      CompactSeparated(items.post, CLOSE_ARRAY, k);
    } else {
      CompactSeparated(items.post, COMMA, SpellItems(items.rest, k));
      CompactItems(items.rest, k);
    }
  }

  lemma CompactName(m: Member, x: Bytes)
    requires WfMember(m)
    ensures Compact(SpellHead(m, x), false) == SpellHead(TightMember(m), Compact(x, false))
  {
    hide Compact, Chars, Tight;
    var u := m.mid + ([COLON] + (m.gap + x));
    CompactPad(m.pre, [QUOTE] + (m.key + ([QUOTE] + u)));
    CompactByte(QUOTE, m.key + ([QUOTE] + u));
    CompactString(m.key, u);
    CompactSeparated(m.mid, COLON, m.gap + x);
    CompactPad(m.gap, x);
  }

  lemma {:induction false} CompactMembers(ms: Members, k: Bytes)
    requires WfMembers(ms)
    ensures Compact(SpellMembers(ms, k), false) == SpellMembers(TightMembers(ms), Compact(k, false))
    decreases ms, 0
  {
    hide Compact, SpellHead;
    var w := AfterMember(ms, k);
    CompactName(ms.m, Spell(ms.m.val, ms.m.post + w));
    CompactSpell(ms.m.val, ms.m.post + w);
    HeadTight(ms.m);
    if ms.LastMember? {
      CompactSeparated(ms.m.post, CLOSE_OBJECT, k);
    } else {
      CompactSeparated(ms.m.post, COMMA, SpellMembers(ms.rest, k));
      CompactMembers(ms.rest, k);
    }
  }

  lemma HeadTight(m: Member)
    ensures TightMember(m).val == Tight(m.val) && TightMember(m).post == []
  {
  }

  /** Compaction keeps a value well formed and keeps its meaning. */
  lemma {:induction false} TightMeans(j: Json)
    requires Wf(j)
    ensures Wf(Tight(j)) && Meaning(Tight(j)) == Meaning(j)
    decreases j, 0
  {
    match j
    case Scalar(_) =>
    case Str(_) =>
    case EmptyArray(_) =>
    case EmptyObject(_) =>
    case Array(items) => TightItemsMean(items);
    case Object(ms) => TightMembersMean(ms);
  }

  lemma {:induction false} TightItemsMean(items: Items)
    requires WfItems(items)
    ensures WfItems(TightItems(items)) && ItemsMeaning(TightItems(items)) == ItemsMeaning(items)
    decreases items, 0
  {
    TightMeans(items.val);
    if items.MoreItems? {
      TightItemsMean(items.rest);
    }
  }

  lemma {:induction false} TightMembersMean(ms: Members)
    requires WfMembers(ms)
    ensures WfMembers(TightMembers(ms)) && Fields(TightMembers(ms)) == Fields(ms)
    decreases ms, 0
  {
    TightMeans(ms.m.val);
    if ms.MoreMembers? {
      TightMembersMean(ms.rest);
    }
  }

  // ---------- encoding a map of raw messages ----------

  function EncodeFields(names: seq<Bytes>, m: map<Bytes, Bytes>): Bytes
    requires forall n | n in names :: n in m
  {
    if names == [] then []
    else Quote(names[0], false) + [COLON] + Compact(m[names[0]], false)
         + (if |names| == 1 then [] else [COMMA] + EncodeFields(names[1..], m))
  }

  const NEWLINE: byte := 10

  function Encode(m: map<Bytes, Bytes>): Bytes {
    [OPEN_OBJECT] + EncodeFields(Sorting.Sorted(m.Keys, ByteRank), m) + [CLOSE_OBJECT, NEWLINE]
  }

  /** A raw message: the exact text of one value. */
  ghost predicate IsRaw(raw: Bytes) {
    exists j :: Wf(j) && raw == Text(j)
  }

  function Tree(raw: Bytes): (j: Json)
    requires IsRaw(raw)
    ensures Wf(j) && raw == Text(j)
  {
    ghost var w :| Wf(w) && raw == Text(w);
    ParseValueText(w, []);
    ParseValue(raw).value.val
  }

  lemma TreeOf(j: Json)
    requires Wf(j)
    ensures IsRaw(Text(j)) && Tree(Text(j)) == j
  {
    ParseValueText(j, []);
  }

  ghost predicate RawMap(m: map<Bytes, Bytes>) {
    forall n | n in m :: IsRaw(m[n])
  }

  function RawMeaning(m: map<Bytes, Bytes>): map<Bytes, Value>
    requires RawMap(m)
  {
    map n | n in m :: Meaning(Tree(m[n]))
  }

  /** The member the encoder writes for name n and message raw. */
  function WrittenMember(n: Bytes, raw: Bytes): Member
    requires IsRaw(raw)
  {
    Member([], Escape(n, false), [], [], Tight(Tree(raw)), [])
  }

  function Written(names: seq<Bytes>, m: map<Bytes, Bytes>): Members
    requires names != [] && RawMap(m) && forall n | n in names :: n in m
  {
    var f := WrittenMember(names[0], m[names[0]]);
    if |names| == 1 then LastMember(f) else MoreMembers(f, Written(names[1..], m))
  }

  lemma WrittenMeans(n: Bytes, raw: Bytes)
    requires IsRaw(raw)
    ensures var f := WrittenMember(n, raw);
            WfMember(f) && Name(f) == n && f.post == [] && Meaning(f.val) == Meaning(Tree(raw))
  {
    hide Escape, Tight, Wf, Meaning, Tree, Chars, Unescape;
    UnescapeEscape(n, false);
    TightMeans(Tree(raw));
  }

  lemma WrittenSpells(n: Bytes, raw: Bytes, k: Bytes)
    requires IsRaw(raw)
    ensures var f := WrittenMember(n, raw);
            SpellHead(f, Spell(f.val, f.post + k)) == Quote(n, false) + [COLON] + Compact(raw, false) + k
  {
    hide Escape, Compact, Tight, Spell, Wf, Tree;
    CompactSpell(Tree(raw), []);
    CompactNothing();
    SpellSplits(Tight(Tree(raw)), k);
    assert [] + k == k;
  }

  lemma CompactNothing()
    ensures Compact([], false) == []
  {
  }

  lemma {:induction false} EncodeSpells(names: seq<Bytes>, m: map<Bytes, Bytes>, k: Bytes)
    requires names != [] && RawMap(m) && forall n | n in names :: n in m
    ensures WfMembers(Written(names, m))
    ensures SpellMembers(Written(names, m), k) == EncodeFields(names, m) + ([CLOSE_OBJECT] + k)
  {
    hide SpellHead, Spell, Compact, Wf, WrittenMember, Quote;
    WrittenMeans(names[0], m[names[0]]);
    if |names| > 1 {
      WrittenSpells(names[0], m[names[0]], [COMMA] + SpellMembers(Written(names[1..], m), k));
      EncodeSpells(names[1..], m, k);
    } else {
      WrittenSpells(names[0], m[names[0]], [CLOSE_OBJECT] + k);
    }
  }

  /** The part of r under the given names. */
  function Under(names: seq<Bytes>, r: map<Bytes, Value>): map<Bytes, Value>
    requires forall n | n in names :: n in r
  {
    map n | n in names :: r[n]
  }

  lemma UnderFirst(names: seq<Bytes>, r: map<Bytes, Value>)
    requires names != [] && forall n | n in names :: n in r
    ensures Under(names, r) == map[names[0] := r[names[0]]] + Under(names[1..], r)
  {
    assert forall n :: n in names <==> n == names[0] || n in names[1..];
  }

  lemma UnderNone(r: map<Bytes, Value>)
    ensures Under([], r) == map[]
  {
  }

  lemma RawKeys(m: map<Bytes, Bytes>)
    requires RawMap(m)
    ensures RawMeaning(m).Keys == m.Keys
  {
  }

  lemma UnderAll(names: seq<Bytes>, r: map<Bytes, Value>)
    requires forall n :: n in names <==> n in r
    ensures Under(names, r) == r
  {
  }

  lemma WrittenFields(names: seq<Bytes>, m: map<Bytes, Bytes>)
    requires names != [] && RawMap(m) && forall n | n in names :: n in m
    ensures var own := map[names[0] := RawMeaning(m)[names[0]]];
            Fields(Written(names, m)) == if |names| == 1 then own else own + Fields(Written(names[1..], m))
  {
    hide Tree, WrittenMember, Name, Wf;
    WrittenMeans(names[0], m[names[0]]);
  }

  lemma {:induction false} EncodeFieldsMean(names: seq<Bytes>, m: map<Bytes, Bytes>)
    requires names != [] && RawMap(m) && forall n | n in names :: n in m
    ensures RawMeaning(m).Keys == m.Keys && Fields(Written(names, m)) == Under(names, RawMeaning(m))
  {
    hide *;
    WrittenFields(names, m);
    RawKeys(m);
    UnderFirst(names, RawMeaning(m));
    if |names| > 1 {
      EncodeFieldsMean(names[1..], m);
    } else {
      assert names[1..] == [];
      UnderNone(RawMeaning(m));
    }
  }

  /** The tree of the encoder's whole output. */
  function EncodedDoc(m: map<Bytes, Bytes>): Doc
    requires RawMap(m) && m != map[]
  {
    SomeName(m);
    Doc([], Object(Written(Sorting.Sorted(m.Keys, ByteRank), m)), [NEWLINE])
  }

  lemma SomeName(m: map<Bytes, Bytes>)
    requires m != map[]
    ensures Sorting.Sorted(m.Keys, ByteRank) != []
  {
    var n :| n in m.Keys;
    assert n in Sorting.Sorted(m.Keys, ByteRank);
  }

  lemma EncodedDocText(m: map<Bytes, Bytes>)
    requires RawMap(m) && m != map[]
    ensures WfDoc(EncodedDoc(m)) && DocText(EncodedDoc(m)) == Encode(m)
  {
    hide Written, EncodeFields, SpellMembers, WfMembers, RawMap, Sorting.Sorted;
    SomeName(m);
    EncodeSpells(Sorting.Sorted(m.Keys, ByteRank), m, [NEWLINE]);
  }

  /** What the encoder writes parses back to the map's meaning. */
  lemma EncodeMeans(m: map<Bytes, Bytes>)
    requires RawMap(m) && m != map[]
    ensures Parse(Encode(m)).Some?
    ensures Meaning(Parse(Encode(m)).value.root) == Dict(RawMeaning(m))
  {
    hide Written, DocText, WfDoc, Parse, Encode, Fields, Under, Sorting.Sorted;
    SomeName(m);
    EncodedDocText(m);
    ParseText(EncodedDoc(m));
    var names := Sorting.Sorted(m.Keys, ByteRank);
    EncodeFieldsMean(names, m);
    UnderAll(names, RawMeaning(m));
  }

  lemma ObjectMeans(ms: Members)
    ensures Meaning(Object(ms)) == Dict(Fields(ms))
  {
  }
}
