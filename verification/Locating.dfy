// Finding the model value of a request body: the byte span of the first top-level member
// named model and the index of the closing brace.

module Locating {
  import opened Wrappers
  import opened Octets
  import opened JsonStrings
  import opened Json
  import opened Decoder
  import opened Numbers

  const MODEL: Bytes := Ascii("model")

  // The model value is text[lo..hi]; text[end] closes the object. All zero means not found.
  datatype Span = Span(lo: nat, hi: nat, end: nat)

  const NOWHERE := Span(0, 0, 0)

  /** b without trailing white space. */
  function TrimEnd(b: Bytes): (r: Bytes)
    ensures |r| <= |b| && r == b[..|r|]
  {
    if b != [] && IsWs(b[|b| - 1]) then TrimEnd(b[..|b| - 1]) else b
  }

  /** The raw value of the first member named model, and the cursor after it. */
  function Hunt(c: Cursor): (r: Option<(Bytes, Cursor)>)
    ensures r.Some? ==> |r.value.0| + |r.value.1.rest| <= |c.rest|
    decreases |c.rest|
  {
    if !More(c) then None else
    match Next(c)
    case None => None
    case Some(r) =>
      if r.tok == Word(MODEL) then Decode(r.next)
      else
        match Skip(r.next)
        case None => None
        case Some(d) => Hunt(d)
  }

  /** The span of a raw value that ends at at, once the text there is found to be that value. */
  function Placed(b: Bytes, raw: Bytes, at: nat, e: nat): (s: Span)
    requires at <= |b| && e < |b|
    ensures s != NOWHERE ==> s.lo <= s.hi <= |b| && s.end < |b|
  {
    if at < |raw| || b[at - |raw|..at] != raw then NOWHERE else Span(at - |raw|, at, e)
  }

  function Located(b: Bytes): (s: Span)
    ensures s != NOWHERE ==> s.lo <= s.hi <= |b| && s.end < |b|
  {
    var e := |TrimEnd(b)| - 1;
    if e <= 0 || b[e] != CLOSE_OBJECT then NOWHERE else
    match Next(Cursor(b, Top, []))
    case None => NOWHERE
    case Some(r) =>
      if r.tok != Delim(OPEN_OBJECT) then NOWHERE else
      match Hunt(r.next)
      case None => NOWHERE
      case Some((raw, c)) =>
        Placed(b, raw, |b| - |c.rest|, e)
  }

  /** Skip one value by counting brackets, without copying it. */
  method Step(d: JsonDecoder) returns (ok: bool)
    requires d.Valid()
    modifies d
    ensures d.Valid()
    ensures ok <==> Skip(old(d.Cur())).Some?
    ensures ok ==> d.Cur() == Skip(old(d.Cur())).value
  {
    hide Next;
    var t := d.Token();
    if t.None? {
      return false;
    }
    if !IsOpen(t.value) {
      return true;
    }
    var depth: nat := 1;
    while depth > 0
      invariant d.Valid()
      invariant Drain(d.Cur(), depth) == Skip(old(d.Cur()))
      decreases |d.text| - d.at
    {
      ghost var here := d.Cur();
      t := d.Token();
      if t.None? {
        return false;
      }
      assert |d.Cur().rest| < |here.rest|;
      if IsOpen(t.value) {
        depth := depth + 1;
      } else if IsClose(t.value) {
        depth := depth - 1;
      }
    }
    return true;
  }

  /** Walk the members of an object up to the value of the first one named model. */
  method Find(d: JsonDecoder) returns (raw: Option<Bytes>)
    requires d.Valid()
    modifies d
    ensures d.Valid()
    ensures raw.Some? <==> Hunt(old(d.Cur())).Some?
    ensures raw.Some? ==> (raw.value, d.Cur()) == Hunt(old(d.Cur())).value
  {
    hide Next, Trim, Skip, Decode;
    while true
      invariant d.Valid() && Hunt(d.Cur()) == Hunt(old(d.Cur()))
      decreases |d.text| - d.at
    {
      ghost var here := d.Cur();
      var more := d.HasMore();
      if !more {
        return None;
      }
      NextTrimmed(here, d.Cur());
      var k := d.Token();
      if k.None? {
        return None;
      }
      ghost var past := d.Cur();
      if k.value == Word(MODEL) {
        raw := d.DecodeRaw();
        return;
      }
      var ok := Step(d);
      if !ok {
        return None;
      }
      assert |d.Cur().rest| < |past.rest| < |here.rest|;
    }
  }

  /** The index of the last byte that is not white space, or -1. */
  method LastByte(b: Bytes) returns (end: int)
    ensures end == |TrimEnd(b)| - 1
  {
    end := |b| - 1;
    assert b[..end + 1] == b;
    while end >= 0 && IsWs(b[end])
      invariant -1 <= end < |b| && TrimEnd(b) == TrimEnd(b[..end + 1])
    {
      assert b[..end + 1][..end] == b[..end];
      end := end - 1;
    }
  }

  method Locate(b: Bytes) returns (s: Span)
    ensures s == Located(b)
  {
    hide Next, Hunt, TrimEnd, Placed;
    var end := LastByte(b);
    if end <= 0 || b[end] != CLOSE_OBJECT {
      return NOWHERE;
    }
    var d := new JsonDecoder(b);
    var t := d.Token();
    if t != Some(Delim(OPEN_OBJECT)) {
      return NOWHERE;
    }
    var raw := Find(d);
    if raw.None? {
      return NOWHERE;
    }
    // The offsets are checked before they are trusted.
    return Placed(b, raw.value, d.at, end);
  }

  lemma NextTrimmed(c: Cursor, d: Cursor)
    requires Trim(c.rest) == Trim(d.rest) && c.st == d.st && c.stack == d.stack
    ensures Next(c) == Next(d)
  {
  }

  // ---------- the text around the model value ----------

  predicate HasModel(ms: Members) {
    Name(ms.m) == MODEL || (ms.MoreMembers? && HasModel(ms.rest))
  }

  /** A member is named model, and no number before it is out of range. */
  predicate Reached(ms: Members) {
    Name(ms.m) == MODEL || (InRange(ms.m.val) && ms.MoreMembers? && Reached(ms.rest))
  }

  lemma {:induction false} ReachedHas(ms: Members)
    ensures Reached(ms) ==> HasModel(ms)
    ensures HasModel(ms) && MembersInRange(ms) ==> Reached(ms)
    decreases ms
  {
    hide InRange, Unescape;
    if ms.MoreMembers? {
      ReachedHas(ms.rest);
    }
  }

  /** The text of the members, without the closing brace. */
  function Inner(ms: Members): Bytes {
    match ms
    case LastMember(m) => SpellHead(m, Spell(m.val, m.post))
    case MoreMembers(m, rest) => SpellHead(m, Spell(m.val, m.post + ([COMMA] + Inner(rest))))
  }

  /** The text of the members before, at and after the first model value. */
  function Lead(ms: Members): Bytes
    requires HasModel(ms)
    decreases ms
  {
    if Name(ms.m) == MODEL then SpellHead(ms.m, [])
    else SpellHead(ms.m, Spell(ms.m.val, ms.m.post + ([COMMA] + Lead(ms.rest))))
  }

  function Found(ms: Members): Json
    requires HasModel(ms)
    decreases ms
  {
    if Name(ms.m) == MODEL then ms.m.val else Found(ms.rest)
  }

  function After(ms: Members): Bytes
    requires HasModel(ms)
    decreases ms
  {
    if Name(ms.m) != MODEL then After(ms.rest)
    else if ms.LastMember? then ms.m.post
    else ms.m.post + ([COMMA] + Inner(ms.rest))
  }

  lemma {:induction false} InnerSpells(ms: Members, k: Bytes)
    ensures SpellMembers(ms, k) == Inner(ms) + ([CLOSE_OBJECT] + k)
    decreases ms
  {
    hide SpellHead, Spell;
    var x := [CLOSE_OBJECT] + k;
    if ms.LastMember? {
      MemberSplits(ms.m, ms.m.post, x);
    } else {
      InnerSpells(ms.rest, k);
      MemberSplits(ms.m, ms.m.post + ([COMMA] + Inner(ms.rest)), x);
      assert ms.m.post + ([COMMA] + SpellMembers(ms.rest, k)) == ms.m.post + ([COMMA] + Inner(ms.rest)) + x;
    }
  }

  lemma MemberSplits(m: Member, y: Bytes, x: Bytes)
    ensures SpellHead(m, Spell(m.val, y + x)) == SpellHead(m, Spell(m.val, y)) + x
  {
    hide SpellHead, Spell;
    SpellSplits(m.val, y + x);
    SpellSplits(m.val, y);
    assert Text(m.val) + (y + x) == Text(m.val) + y + x;
    HeadSplits(m, Spell(m.val, y + x));
    HeadSplits(m, Spell(m.val, y));
  }

  /** The members' text is what precedes the model value, the value, and what follows it. */
  lemma {:induction false} InnerSplits(ms: Members)
    requires HasModel(ms)
    ensures Inner(ms) == Lead(ms) + (Text(Found(ms)) + After(ms))
    decreases ms
  {
    hide SpellHead, Spell, Text;
    if Name(ms.m) == MODEL {
      HeadSplits(ms.m, Spell(ms.m.val, After(ms)));
      SpellSplits(ms.m.val, After(ms));
    } else {
      InnerSplits(ms.rest);
      var y := Text(Found(ms)) + After(ms);
      MemberSplits(ms.m, ms.m.post + ([COMMA] + Lead(ms.rest)), y);
      assert ms.m.post + ([COMMA] + Inner(ms.rest)) == ms.m.post + ([COMMA] + Lead(ms.rest)) + y;
    }
  }

  // ---------- locating finds exactly that value ----------

  lemma HuntSame(c: Cursor, d: Cursor)
    requires Next(c) == Next(d) && More(c) == More(d)
    ensures Hunt(c) == Hunt(d)
  {
  }

  lemma PreparedColon(m: Member, x: Bytes, stack: seq<State>)
    requires WfMember(m)
    ensures Prepared(Cursor(m.mid + ([COLON] + (m.gap + x)), ObjectColon, stack)) == Cursor(m.gap + x, ObjectValue, stack)
  {
    TrimExact(m.mid, [COLON] + (m.gap + x));
    Cons(COLON, m.gap + x);
  }

  lemma BeforeText(j: Json, k: Bytes)
    ensures |k| <= |Spell(j, k)| && Before(Spell(j, k), k) == Text(j)
  {
    SpellSplits(j, k);
  }

  lemma DecodeValue(m: Member, w: Bytes, stack: seq<State>)
    requires WfMember(m) && w != [] && Breaks(w[0])
    ensures Decode(Cursor(m.mid + ([COLON] + (m.gap + Spell(m.val, m.post + w))), ObjectColon, stack))
            == Some((Text(m.val), Cursor(m.post + w, ObjectComma, stack)))
  {
    hide ParseValue, Spell, Text, Prepared, Trim;
    var x := Spell(m.val, m.post + w);
    PreparedColon(m, x, stack);
    FirstByte(m.val, m.post + w);
    TrimExact(m.gap, x);
    Uncons(w);
    PadBreaks(m.post, w[0], w[1..]);
    ParseValueText(m.val, m.post + w);
    BeforeText(m.val, m.post + w);
  }

  lemma SkipMember(m: Member, w: Bytes, stack: seq<State>)
    requires WfMember(m) && w != [] && Breaks(w[0])
    ensures Skip(Cursor(m.mid + ([COLON] + (m.gap + Spell(m.val, m.post + w))), ObjectColon, stack))
            == if InRange(m.val) then Some(Cursor(m.post + w, ObjectComma, stack)) else None
  {
    hide Next, Spell, Drain, InRange;
    var x := Spell(m.val, m.post + w);
    Uncons(w);
    PadBreaks(m.post, w[0], w[1..]);
    NextColon(m, x, stack);
    assert [] + x == x;
    SkipValue([], m.val, m.post + w, ObjectValue, stack);
  }

  lemma MoreAtName(m: Member, x: Bytes, st: State, stack: seq<State>)
    requires WfMember(m)
    ensures More(Cursor(SpellHead(m, x), st, stack))
  {
    TrimExact(m.pre, [QUOTE] + (m.key + ([QUOTE] + (m.mid + ([COLON] + (m.gap + x))))));
  }

  lemma {:induction false} HuntFinds(ms: Members, k: Bytes, st: State, stack: seq<State>)
    requires WfMembers(ms) && (st.ObjectStart? || st.ObjectKey?)
    ensures var h := Hunt(Cursor(SpellMembers(ms, k), st, stack));
            if Reached(ms)
            then HasModel(ms) && h == Some((Text(Found(ms)), Cursor(After(ms) + ([CLOSE_OBJECT] + k), ObjectComma, stack)))
            else h == None
    decreases ms
  {
    hide Next, SpellHead, Spell, Skip, Decode, Unescape, Text, Trim, InRange;
    var w := AfterMember(ms, k);
    var x := Spell(ms.m.val, ms.m.post + w);
    MoreAtName(ms.m, x, st, stack);
    NextName(ms.m, x, st, stack);
    if Name(ms.m) == MODEL {
      DecodeValue(ms.m, w, stack);
      if ms.MoreMembers? {
        InnerSpells(ms.rest, k);
        assert ms.m.post + w == After(ms) + ([CLOSE_OBJECT] + k);
      }
    } else {
      SkipMember(ms.m, w, stack);
      HuntOn(ms.m.post, w, stack);
      if ms.MoreMembers? {
        MoreAtName(ms.rest.m, Spell(ms.rest.m.val, ms.rest.m.post + AfterMember(ms.rest, k)), ObjectKey, stack);
        HuntSame(Cursor(ms.m.post + w, ObjectComma, stack), Cursor(SpellMembers(ms.rest, k), ObjectKey, stack));
        HuntFinds(ms.rest, k, ObjectKey, stack);
      }
    }
  }

  /** After a member: a comma leads to the next name, the closing brace ends the search. */
  lemma HuntOn(post: Bytes, w: Bytes, stack: seq<State>)
    requires AllWs(post) && w != [] && (w[0] == COMMA || w[0] == CLOSE_OBJECT)
    ensures w[0] == CLOSE_OBJECT ==> Hunt(Cursor(post + w, ObjectComma, stack)) == None
    ensures w[0] == COMMA ==> More(Cursor(post + w, ObjectComma, stack))
    ensures w[0] == COMMA ==> Next(Cursor(post + w, ObjectComma, stack)) == Next(Cursor(w[1..], ObjectKey, stack))
  {
    hide Next;
    TrimExact(post, w);
    NextSkips(post, w, ObjectComma, stack);
    if w[0] == COMMA {
      Uncons(w);
      NextSeparated(COMMA, w[1..], ObjectComma, stack);
    }
  }

  lemma {:induction false} TrimEndExact(x: Bytes, pad: Bytes)
    requires AllWs(pad) && x != [] && !IsWs(x[|x| - 1])
    ensures TrimEnd(x + pad) == x
  {
    if pad == [] {
      assert x + pad == x;
    } else {
      assert (x + pad)[..|x + pad| - 1] == x + pad[..|pad| - 1];
      TrimEndExact(x, pad[..|pad| - 1]);
    }
  }

  /** The parts a found model value cuts the body into. */
  ghost predicate Cuts(s: Span, b: Bytes, head: Bytes, val: Bytes, mid: Bytes, last: Bytes) {
    && s.lo == |head| && s.hi == |head| + |val| && s.end == |head| + |val| + |mid| < |b|
    && b[..s.lo] == head && b[s.lo..s.hi] == val && b[s.hi..s.end] == mid && b[s.end..] == last
  }

  lemma CutsConcat(s: Span, b: Bytes, head: Bytes, val: Bytes, mid: Bytes, last: Bytes)
    requires b == head + (val + (mid + last)) && last != []
    requires s == Span(|head|, |head| + |val|, |head| + |val| + |mid|)
    ensures Cuts(s, b, head, val, mid, last)
  {
  }

  /** The text of an object, cut at the start of the members and at the closing brace. */
  lemma ObjectCuts(b: Bytes)
    requires Parse(b).Some? && Parse(b).value.root.Object?
    ensures var d := Parse(b).value;
            WfDoc(d) && b == d.lead + ([OPEN_OBJECT] + (Inner(d.root.members) + ([CLOSE_OBJECT] + d.trail)))
    ensures TrimEnd(b) == Before(b, Parse(b).value.trail)
    ensures |TrimEnd(b)| > 1 && b[|TrimEnd(b)| - 1] == CLOSE_OBJECT
  {
    hide Inner, WfMembers;
    ParseSound(b);
    var d := Parse(b).value;
    InnerSpells(d.root.members, d.trail);
    var x := d.lead + ([OPEN_OBJECT] + (Inner(d.root.members) + [CLOSE_OBJECT]));
    assert b == x + d.trail;
    TrimEndExact(x, d.trail);
    assert Before(b, d.trail) == x;
  }

  /** Opening an object. */
  lemma OpenDoc(lead: Bytes, x: Bytes)
    requires AllWs(lead)
    ensures Next(Cursor(lead + ([OPEN_OBJECT] + x), Top, [])) == Some(Read(Delim(OPEN_OBJECT), Cursor(x, ObjectStart, [Top])))
  {
    hide Next;
    NextSkips(lead, [OPEN_OBJECT] + x, Top, []);
    NextOpen(OPEN_OBJECT, x, Top, []);
    assert [Top] + [] == [Top];
  }

  ghost predicate Begun(b: Bytes, c: Cursor) {
    && |TrimEnd(b)| > 1 && b[|TrimEnd(b)| - 1] == CLOSE_OBJECT
    && Next(Cursor(b, Top, [])) == Some(Read(Delim(OPEN_OBJECT), c))
  }

  lemma LocatedNone(b: Bytes, c: Cursor)
    requires Begun(b, c) && Hunt(c).None?
    ensures Located(b) == NOWHERE
  {
  }

  lemma LocatedSome(b: Bytes, c: Cursor, s: Span, head: Bytes, val: Bytes, mid: Bytes, last: Bytes, d: Cursor)
    requires Begun(b, c) && Hunt(c) == Some((val, d))
    requires Cuts(s, b, head, val, mid, last) && s.end == |TrimEnd(b)| - 1 && |d.rest| == |b| - s.hi
    ensures Located(b) == s
  {
    hide Next, Hunt, TrimEnd;
  }

  /** Locating an object's model value gives exactly the span of the first top-level one and the
      index of the closing brace; and nothing when there is none, or a number before it is out of
      range. */
  lemma LocateSpan(b: Bytes)
    requires Parse(b).Some? && Parse(b).value.root.Object?
    ensures var d := Parse(b).value; var ms := d.root.members;
            if Reached(ms)
            then HasModel(ms) && Cuts(Located(b), b, d.lead + ([OPEN_OBJECT] + Lead(ms)), Text(Found(ms)), After(ms), [CLOSE_OBJECT] + d.trail)
                 && Located(b).lo < Located(b).hi
            else Located(b) == NOWHERE
  {
    hide Next, Hunt, Inner, Lead, Found, After, HasModel, Reached, Parse, WfMembers, TrimEnd, Cuts, Text, Located;
    ObjectCuts(b);
    var d := Parse(b).value;
    var ms := d.root.members;
    var x := SpellMembers(ms, d.trail);
    InnerSpells(ms, d.trail);
    OpenDoc(d.lead, x);
    HuntFinds(ms, d.trail, ObjectStart, [Top]);
    if Reached(ms) {
      InnerSplits(ms);
      var head, val, mid, last := d.lead + ([OPEN_OBJECT] + Lead(ms)), Text(Found(ms)), After(ms), [CLOSE_OBJECT] + d.trail;
      assert b == head + (val + (mid + last));
      var s := Span(|head|, |head| + |val|, |head| + |val| + |mid|);
      CutsConcat(s, b, head, val, mid, last);
      FoundText(ms);
      LocatedSome(b, Cursor(x, ObjectStart, [Top]), s, head, val, mid, last, Cursor(mid + last, ObjectComma, [Top]));
    } else {
      LocatedNone(b, Cursor(x, ObjectStart, [Top]));
    }
  }

  lemma {:induction false} FoundText(ms: Members)
    requires HasModel(ms) && WfMembers(ms)
    ensures Wf(Found(ms)) && Text(Found(ms)) != []
    decreases ms
  {
    hide Unescape;
    if Name(ms.m) != MODEL {
      FoundText(ms.rest);
    } else {
      FirstByte(ms.m.val, []);
    }
  }

  /** Nothing is found in a body that is the empty object, a scalar or null. */
  lemma LocateNothing(b: Bytes)
    requires Parse(b).Some? && (Parse(b).value.root.EmptyObject? || Parse(b).value.root.Scalar?)
    ensures Located(b) == NOWHERE
  {
    hide Next, Parse, TrimEnd;
    ParseSound(b);
    var d := Parse(b).value;
    if d.root.EmptyObject? {
      var x := d.root.pad + ([CLOSE_OBJECT] + d.trail);
      OpenDoc(d.lead, x);
      TrimExact(d.root.pad, [CLOSE_OBJECT] + d.trail);
      assert Hunt(Cursor(x, ObjectStart, [Top])) == None;
    } else {
      var x := d.lead + d.root.word;
      assert b == x + d.trail;
      assert x[|x| - 1] == d.root.word[|d.root.word| - 1];
      assert !Breaks(x[|x| - 1]);
      TrimEndExact(x, d.trail);
    }
  }
}
