// The streaming JSON decoder the gateway walks a body with: a cursor over the unread bytes,
// a token state and a stack of enclosing states. Tokens follow RFC 8259; a number a 64-bit float
// cannot hold is an error.

module Decoder {
  import opened Wrappers
  import opened Octets
  import opened JsonStrings
  import opened Json
  import opened Numbers

  datatype State =
    | Top
    | ArrayStart | ArrayValue | ArrayComma
    | ObjectStart | ObjectKey | ObjectColon | ObjectValue | ObjectComma

  datatype Token = Delim(c: byte) | Word(s: Bytes) | Atom(word: Bytes)

  // The unread bytes and where in the grammar they stand.
  datatype Cursor = Cursor(rest: Bytes, st: State, stack: seq<State>)

  datatype Read = Read(tok: Token, next: Cursor)

  /** States in which a value may come. */
  predicate Allowed(st: State) {
    st.Top? || st.ArrayStart? || st.ArrayValue? || st.ObjectValue?
  }

  /** The state once a value has ended. */
  function Ended(st: State): State {
    match st
    case ArrayStart => ArrayComma
    case ArrayValue => ArrayComma
    case ObjectValue => ObjectComma
    case _ => st
  }

  /** The token at the head of s, which is not white space, a comma or a colon. */
  function Lex(s: Bytes, st: State, stack: seq<State>): (r: Option<Read>)
    requires s != []
    ensures r.Some? ==> |r.value.next.rest| < |s|
  {
    var c := s[0];
    if c == OPEN_ARRAY then
      if Allowed(st) then Some(Read(Delim(c), Cursor(s[1..], ArrayStart, [st] + stack))) else None
    else if c == OPEN_OBJECT then
      if Allowed(st) then Some(Read(Delim(c), Cursor(s[1..], ObjectStart, [st] + stack))) else None
    else if c == CLOSE_ARRAY then
      if (st.ArrayStart? || st.ArrayComma?) && stack != []
      then Some(Read(Delim(c), Cursor(s[1..], Ended(stack[0]), stack[1..]))) else None
    else if c == CLOSE_OBJECT then
      if (st.ObjectStart? || st.ObjectComma?) && stack != []
      then Some(Read(Delim(c), Cursor(s[1..], Ended(stack[0]), stack[1..]))) else None
    else if c == QUOTE then
      match ParseString(s[1..])
      case None => None
      case Some(p) =>
        if st.ObjectStart? || st.ObjectKey? then
          Some(Read(Word(Unescape(p.val.raw)), Cursor(p.rest, ObjectColon, stack)))
        else if Allowed(st) then
          Some(Read(Word(Unescape(p.val.raw)), Cursor(p.rest, Ended(st), stack)))
        else None
    else
      match ParseWord(s)
      case None => None
      case Some(p) =>
        if Allowed(st) && Fits(p.val.word) then Some(Read(Atom(p.val.word), Cursor(p.rest, Ended(st), stack))) else None
  }

  /** The state after a comma or colon that may stand here. */
  function Separated(c: byte, st: State): Option<State> {
    if c == COLON && st.ObjectColon? then Some(ObjectValue)
    else if c == COMMA && st.ArrayComma? then Some(ArrayValue)
    else if c == COMMA && st.ObjectComma? then Some(ObjectKey)
    else None
  }

  /** The next token, if the text is well formed that far. */
  function Next(c: Cursor): (r: Option<Read>)
    ensures r.Some? ==> |r.value.next.rest| < |c.rest|
    decreases |c.rest|
  {
    var s := Trim(c.rest);
    if s == [] then None
    else if s[0] == COMMA || s[0] == COLON then
      match Separated(s[0], c.st)
      case None => None
      case Some(st) => Next(Cursor(s[1..], st, c.stack))
    else Lex(s, c.st, c.stack)
  }

  /** Whether the array or object being read has another element. */
  predicate More(c: Cursor) {
    var s := Trim(c.rest);
    s != [] && s[0] != CLOSE_ARRAY && s[0] != CLOSE_OBJECT
  }

  /** The cursor past a comma or colon a value may follow. */
  function Prepared(c: Cursor): (d: Cursor)
    ensures |d.rest| <= |c.rest|
  {
    var t := Trim(c.rest);
    if t != [] && (c.st.ArrayComma? || c.st.ObjectColon?) && Separated(t[0], c.st).Some?
    then Cursor(t[1..], Separated(t[0], c.st).value, c.stack) else c
  }

  /** The next value as raw bytes. */
  function Decode(c: Cursor): (r: Option<(Bytes, Cursor)>)
    ensures r.Some? ==> |r.value.1.rest| < |c.rest| && |r.value.0| + |r.value.1.rest| <= |c.rest|
  {
    var d := Prepared(c);
    if !Allowed(d.st) then None else
    var s := Trim(d.rest);
    match ParseValue(s)
    case None => None
    case Some(p) => Some((Before(s, p.rest), Cursor(p.rest, Ended(d.st), d.stack)))
  }

  predicate IsOpen(t: Token) {
    t == Delim(OPEN_ARRAY) || t == Delim(OPEN_OBJECT)
  }

  predicate IsClose(t: Token) {
    t == Delim(CLOSE_ARRAY) || t == Delim(CLOSE_OBJECT)
  }

  /** Read tokens until depth enclosing values have closed. */
  function Drain(c: Cursor, depth: nat): (r: Option<Cursor>)
    ensures r.Some? ==> |r.value.rest| <= |c.rest|
    decreases |c.rest|
  {
    if depth == 0 then Some(c) else
    match Next(c)
    case None => None
    case Some(r) =>
      if IsOpen(r.tok) then Drain(r.next, depth + 1)
      else if IsClose(r.tok) then Drain(r.next, depth - 1)
      else Drain(r.next, depth)
  }

  /** Skip one value by counting brackets. */
  function Skip(c: Cursor): (r: Option<Cursor>)
    ensures r.Some? ==> |r.value.rest| < |c.rest|
  {
    match Next(c)
    case None => None
    case Some(r) => if IsOpen(r.tok) then Drain(r.next, 1) else Some(r.next)
  }

  // ---------- the decoder as an object ----------

  class JsonDecoder {
    const text: Bytes
    var at: nat
    var st: State
    var stack: seq<State>

    constructor (text: Bytes)
      ensures Valid() && this.text == text
      ensures Cur() == Cursor(text, Top, [])
    {
      this.text := text;
      at, st, stack := 0, Top, [];
    }

    ghost predicate Valid()
      reads this
    {
      at <= |text|
    }

    ghost function Cur(): Cursor
      requires Valid()
      reads this
    {
      Cursor(text[at..], st, stack)
    }

    /** Drop white space and tell the byte the cursor stands on. */
    method Peek() returns (c: Option<byte>)
      requires Valid()
      modifies this`at
      ensures Valid() && text[at..] == Trim(old(text[at..]))
      ensures c == if at == |text| then None else Some(text[at])
    {
      ghost var was := text[at..];
      while at < |text| && IsWs(text[at])
        invariant Valid() && Trim(text[at..]) == Trim(was)
      {
        Uncons(text[at..]);
        TrimSkips([text[at]], text[at..][1..]);
        assert text[at..][1..] == text[at + 1..];
        at := at + 1;
      }
      TrimExact([], text[at..]);
      assert [] + text[at..] == text[at..];
      c := if at == |text| then None else Some(text[at]);
    }

    method Token() returns (t: Option<Token>)
      requires Valid()
      modifies this
      ensures Valid()
      ensures t.Some? <==> Next(old(Cur())).Some?
      ensures t.Some? ==> Read(t.value, Cur()) == Next(old(Cur())).value
    {
      hide Next, Lex, Trim;
      while true
        invariant Valid() && Next(Cur()) == Next(old(Cur()))
        decreases |text| - at
      {
        ghost var here := Cur();
        var p := Peek();
        NextCases(here);
        if p.None? {
          return None;
        }
        if p.value == COMMA || p.value == COLON {
          var nxt := Separated(p.value, st);
          if nxt.None? {
            return None;
          }
          assert text[at..][1..] == text[at + 1..];
          at, st := at + 1, nxt.value;
        } else {
          var r := Lex(text[at..], st, stack);
          if r.None? {
            return None;
          }
          t := Some(r.value.tok);
          LexSuffix(text[at..], st, stack);
          SuffixOf(text, at, r.value.next.rest);
          at, st, stack := |text| - |r.value.next.rest|, r.value.next.st, r.value.next.stack;
          return;
        }
      }
    }

    method HasMore() returns (m: bool)
      requires Valid()
      modifies this`at
      ensures Valid() && m == More(old(Cur()))
      ensures Trim(text[at..]) == Trim(old(text[at..]))
    {
      ghost var was := text[at..];
      var c := Peek();
      TrimIdempotent(was);
      m := c.Some? && c.value != CLOSE_ARRAY && c.value != CLOSE_OBJECT;
    }

    /** Pass the comma or colon a value may follow. */
    method Prepare()
      requires Valid()
      modifies this
      ensures Valid() && st == Prepared(old(Cur())).st && stack == Prepared(old(Cur())).stack
      ensures Trim(text[at..]) == Trim(Prepared(old(Cur())).rest)
    {
      hide Trim;
      var p := Peek();
      TrimIdempotent(old(text[at..]));
      if p.Some? && (st.ArrayComma? || st.ObjectColon?) {
        var nxt := Separated(p.value, st);
        if nxt.Some? {
          assert text[at..][1..] == text[at + 1..];
          at, st := at + 1, nxt.value;
        }
      }
    }

    method DecodeRaw() returns (raw: Option<Bytes>)
      requires Valid()
      modifies this
      ensures Valid()
      ensures raw.Some? <==> Decode(old(Cur())).Some?
      ensures raw.Some? ==> (raw.value, Cur()) == Decode(old(Cur())).value
    {
      hide ParseValue, Trim, Text, Prepared;
      Prepare();
      if !Allowed(st) {
        return None;
      }
      var p := Peek();
      var v := ParseValue(text[at..]);
      if v.None? {
        return None;
      }
      ParseValueSuffix(text[at..]);
      SuffixOf(text, at, v.value.rest);
      raw := Some(Before(text[at..], v.value.rest));
      at, st := |text| - |v.value.rest|, Ended(st);
    }
  }

  lemma SuffixOf(text: Bytes, at: nat, rest: Bytes)
    requires at <= |text| && |rest| <= |text| - at
    requires rest == text[at..][|text| - at - |rest|..]
    ensures text[|text| - |rest|..] == rest
  {
  }

  /** The three ways a token is found. */
  lemma NextCases(c: Cursor)
    ensures var s := Trim(c.rest);
            Next(c) == if s == [] then None
                       else if s[0] != COMMA && s[0] != COLON then Lex(s, c.st, c.stack)
                       else if Separated(s[0], c.st).None? then None
                       else Next(Cursor(s[1..], Separated(s[0], c.st).value, c.stack))
  {
  }

  lemma TrimIdempotent(s: Bytes)
    ensures Trim(Trim(s)) == Trim(s)
  {
    TrimExact([], Trim(s));
    assert [] + Trim(s) == Trim(s);
  }

  lemma LexSuffix(s: Bytes, st: State, stack: seq<State>)
    requires s != [] && Lex(s, st, stack).Some?
    ensures var rest := Lex(s, st, stack).value.next.rest; rest == s[|s| - |rest|..]
  {
    hide ParseString, ParseWord;
    if s[0] == QUOTE {
      ParseStringSound(s[1..]);
      var p := ParseString(s[1..]).value;
      Suffix(s, [s[0]] + p.val.raw + [QUOTE], p.rest);
    } else if ParseWord(s).Some? {
      ParseWordSound(s);
      var p := ParseWord(s).value;
      Suffix(s, p.val.word, p.rest);
    }
  }

  lemma Suffix(s: Bytes, a: Bytes, b: Bytes)
    requires s == a + b
    ensures b == s[|s| - |b|..]
  {
  }

  lemma ParseValueSuffix(s: Bytes)
    requires ParseValue(s).Some?
    ensures var p := ParseValue(s).value;
            p.rest == s[|s| - |p.rest|..] && Before(s, p.rest) == Text(p.val)
  {
    ParseValueSound(s);
    var p := ParseValue(s).value;
    SpellSplits(p.val, p.rest);
  }

  // ---------- skipping consumes exactly one value ----------

  /** White space before a token does not matter. */
  lemma NextSkips(pad: Bytes, x: Bytes, st: State, stack: seq<State>)
    requires AllWs(pad)
    ensures Next(Cursor(pad + x, st, stack)) == Next(Cursor(x, st, stack))
  {
    TrimSkips(pad, x);
  }

  /** A separator that may stand here is passed over. */
  lemma NextSeparated(c: byte, x: Bytes, st: State, stack: seq<State>)
    requires Separated(c, st).Some?
    ensures Next(Cursor([c] + x, st, stack)) == Next(Cursor(x, Separated(c, st).value, stack))
  {
    hide Trim, Lex;
    TrimExact([], [c] + x);
    assert [] + ([c] + x) == [c] + x;
    Cons(c, x);
    NextCases(Cursor([c] + x, st, stack));
  }

  lemma NextLex(c: byte, x: Bytes, st: State, stack: seq<State>)
    requires !IsWs(c) && c != COMMA && c != COLON
    ensures Next(Cursor([c] + x, st, stack)) == Lex([c] + x, st, stack)
  {
    TrimExact([], [c] + x);
    assert [] + ([c] + x) == [c] + x;
  }

  lemma DrainSame(c: Cursor, d: Cursor, depth: nat)
    requires Next(c) == Next(d) && depth > 0
    ensures Drain(c, depth) == Drain(d, depth)
  {
  }

  /** Past a separator and white space, draining goes on. */
  lemma DrainSeparated(pad: Bytes, c: byte, x: Bytes, st: State, stack: seq<State>, depth: nat)
    requires AllWs(pad) && Separated(c, st).Some? && depth > 0
    ensures Drain(Cursor(pad + ([c] + x), st, stack), depth) == Drain(Cursor(x, Separated(c, st).value, stack), depth)
  {
    NextSkips(pad, [c] + x, st, stack);
    NextSeparated(c, x, st, stack);
    DrainSame(Cursor(pad + ([c] + x), st, stack), Cursor(x, Separated(c, st).value, stack), depth);
  }

  predicate Closes(c: byte, st: State) {
    (c == CLOSE_ARRAY && (st.ArrayStart? || st.ArrayComma?)) || (c == CLOSE_OBJECT && (st.ObjectStart? || st.ObjectComma?))
  }

  lemma LexClose(c: byte, x: Bytes, st: State, outer: State, stack: seq<State>)
    requires Closes(c, st)
    ensures Lex([c] + x, st, [outer] + stack) == Some(Read(Delim(c), Cursor(x, Ended(outer), stack)))
  {
    Cons(c, x);
    assert ([outer] + stack)[1..] == stack;
  }

  /** A closing bracket ends the value it closes. */
  lemma DrainClose(pad: Bytes, c: byte, x: Bytes, st: State, outer: State, stack: seq<State>, depth: nat)
    requires AllWs(pad) && depth > 0 && Closes(c, st)
    ensures Drain(Cursor(pad + ([c] + x), st, [outer] + stack), depth) == Drain(Cursor(x, Ended(outer), stack), depth - 1)
  {
    hide Next, Lex;
    NextSkips(pad, [c] + x, st, [outer] + stack);
    NextLex(c, x, st, [outer] + stack);
    LexClose(c, x, st, outer, stack);
  }

  /** A bracket opens a value. */
  lemma NextOpen(c: byte, x: Bytes, st: State, stack: seq<State>)
    requires Allowed(st) && (c == OPEN_ARRAY || c == OPEN_OBJECT)
    ensures Next(Cursor([c] + x, st, stack))
            == Some(Read(Delim(c), Cursor(x, if c == OPEN_ARRAY then ArrayStart else ObjectStart, [st] + stack)))
  {
    NextLex(c, x, st, stack);
    Cons(c, x);
  }

  /** A string or a scalar is one token, unless it is a number out of range. */
  lemma NextLeaf(j: Json, k: Bytes, st: State, stack: seq<State>)
    requires Wf(j) && Allowed(st) && (j.Scalar? || j.Str?)
    requires k == [] || Breaks(k[0])
    ensures var t := if j.Str? then Word(Unescape(j.raw)) else Atom(j.word);
            Next(Cursor(Spell(j, k), st, stack)) == if InRange(j) then Some(Read(t, Cursor(k, Ended(st), stack))) else None
  {
    hide Fits;
    var s := Spell(j, k);
    FirstByte(j, k);
    Uncons(s);
    NextLex(s[0], s[1..], st, stack);
    if j.Str? {
      Cons(QUOTE, j.raw + ([QUOTE] + k));
      ParseStringText(j.raw, k);
    } else {
      LexWord(j.word, k, st, stack);
    }
  }

  lemma LexWord(word: Bytes, k: Bytes, st: State, stack: seq<State>)
    requires IsScalar(word) && Allowed(st)
    requires k == [] || Breaks(k[0])
    ensures Lex(word + k, st, stack) == if Fits(word) then Some(Read(Atom(word), Cursor(k, Ended(st), stack))) else None
  {
    hide Fits;
    ParseWordText(word, k);
    assert !Breaks((word + k)[0]);
    assert ParseValue(word + k) == ParseWord(word + k);
  }

  lemma {:induction false} DrainValue(j: Json, k: Bytes, st: State, stack: seq<State>, depth: nat)
    requires Wf(j) && Allowed(st) && depth > 0
    requires k == [] || Breaks(k[0])
    ensures Drain(Cursor(Spell(j, k), st, stack), depth) == if InRange(j) then Drain(Cursor(k, Ended(st), stack), depth) else None
    decreases j, 1
  {
    hide Next, Spell, InRange;
    if j.Scalar? || j.Str? {
      NextLeaf(j, k, st, stack);
    } else {
      DrainOpened(j, k, st, stack, depth + 1);
      DrainOpen(j, k, st, stack, depth);
    }
  }

  /** The bytes of an array or object past its opening bracket, then k. */
  function Inside(j: Json, k: Bytes): Bytes
    requires !j.Scalar? && !j.Str?
  {
    match j
    case EmptyArray(pad) => pad + ([CLOSE_ARRAY] + k)
    case EmptyObject(pad) => pad + ([CLOSE_OBJECT] + k)
    case Array(items) => SpellItems(items, k)
    case Object(ms) => SpellMembers(ms, k)
  }

  function Opened(j: Json): State {
    if j.EmptyArray? || j.Array? then ArrayStart else ObjectStart
  }

  function Bracket(j: Json): byte {
    if j.EmptyArray? || j.Array? then OPEN_ARRAY else OPEN_OBJECT
  }

  lemma SpellInside(j: Json, k: Bytes)
    requires !j.Scalar? && !j.Str?
    ensures Spell(j, k) == [Bracket(j)] + Inside(j, k)
  {
  }

  /** The first token of an array or object only deepens the count. */
  lemma DrainOpen(j: Json, k: Bytes, st: State, stack: seq<State>, depth: nat)
    requires Allowed(st) && depth > 0 && !j.Scalar? && !j.Str?
    ensures Drain(Cursor(Spell(j, k), st, stack), depth) == Drain(Cursor(Inside(j, k), Opened(j), [st] + stack), depth + 1)
    ensures Skip(Cursor(Spell(j, k), st, stack)) == Drain(Cursor(Inside(j, k), Opened(j), [st] + stack), 1)
  {
    SpellInside(j, k);
    NextOpen(Bracket(j), Inside(j, k), st, stack);
  }

  lemma {:induction false} DrainOpened(j: Json, k: Bytes, outer: State, stack: seq<State>, depth: nat)
    requires Wf(j) && depth > 0 && !j.Scalar? && !j.Str?
    ensures Drain(Cursor(Inside(j, k), Opened(j), [outer] + stack), depth)
            == if InRange(j) then Drain(Cursor(k, Ended(outer), stack), depth - 1) else None
    decreases j, 0
  {
    match j
    case EmptyArray(pad) => DrainClose(pad, CLOSE_ARRAY, k, ArrayStart, outer, stack, depth);
    case EmptyObject(pad) => DrainClose(pad, CLOSE_OBJECT, k, ObjectStart, outer, stack, depth);
    case Array(items) => DrainItems(items, k, ArrayStart, outer, stack, depth);
    case Object(ms) => DrainMembers(ms, k, ObjectStart, outer, stack, depth);
  }

  lemma {:induction false} DrainItems(items: Items, k: Bytes, st: State, outer: State, stack: seq<State>, depth: nat)
    requires WfItems(items) && (st.ArrayStart? || st.ArrayValue?) && depth > 0
    ensures Drain(Cursor(SpellItems(items, k), st, [outer] + stack), depth)
            == if ItemsInRange(items) then Drain(Cursor(k, Ended(outer), stack), depth - 1) else None
    decreases items, 0
  {
    hide InRange;
    var inner := [outer] + stack;
    var w := AfterItem(items, k);
    var x := Spell(items.val, items.post + w);
    Uncons(w);
    PadBreaks(items.post, w[0], w[1..]);
    assert SpellItems(items, k) == items.pre + x;
    NextSkips(items.pre, x, st, inner);
    DrainSame(Cursor(items.pre + x, st, inner), Cursor(x, st, inner), depth);
    DrainValue(items.val, items.post + w, st, inner, depth);
    if items.LastItem? {
      DrainClose(items.post, CLOSE_ARRAY, k, ArrayComma, outer, stack, depth);
    } else {
      DrainSeparated(items.post, COMMA, SpellItems(items.rest, k), ArrayComma, inner, depth);
      DrainItems(items.rest, k, ArrayValue, outer, stack, depth);
    }
  }

  /** Reading a member's name. */
  lemma NextName(m: Member, x: Bytes, st: State, stack: seq<State>)
    requires WfMember(m) && (st.ObjectStart? || st.ObjectKey?)
    ensures Next(Cursor(SpellHead(m, x), st, stack))
            == Some(Read(Word(Name(m)), Cursor(m.mid + ([COLON] + (m.gap + x)), ObjectColon, stack)))
  {
    var u := m.mid + ([COLON] + (m.gap + x));
    var t := m.key + ([QUOTE] + u);
    NextSkips(m.pre, [QUOTE] + t, st, stack);
    NextLex(QUOTE, t, st, stack);
    Cons(QUOTE, t);
    ParseStringText(m.key, u);
  }

  /** From a member's name on, the next token is that of its value. */
  lemma NextColon(m: Member, x: Bytes, stack: seq<State>)
    requires WfMember(m)
    ensures Next(Cursor(m.mid + ([COLON] + (m.gap + x)), ObjectColon, stack)) == Next(Cursor(x, ObjectValue, stack))
  {
    NextSkips(m.mid, [COLON] + (m.gap + x), ObjectColon, stack);
    NextSeparated(COLON, m.gap + x, ObjectColon, stack);
    NextSkips(m.gap, x, ObjectValue, stack);
  }

  /** A member up to the separator after its value leaves the count as it was. */
  lemma {:induction false} DrainMember(m: Member, w: Bytes, st: State, stack: seq<State>, depth: nat)
    requires WfMember(m) && (st.ObjectStart? || st.ObjectKey?) && depth > 0
    requires w != [] && Breaks(w[0])
    ensures Drain(Cursor(SpellHead(m, Spell(m.val, m.post + w)), st, stack), depth)
            == if InRange(m.val) then Drain(Cursor(m.post + w, ObjectComma, stack), depth) else None
    decreases m, 1
  {
    hide Next, Spell, SpellHead, Lex, InRange;
    var x := Spell(m.val, m.post + w);
    Uncons(w);
    PadBreaks(m.post, w[0], w[1..]);
    NextName(m, x, st, stack);
    NextColon(m, x, stack);
    DrainSame(Cursor(m.mid + ([COLON] + (m.gap + x)), ObjectColon, stack), Cursor(x, ObjectValue, stack), depth);
    DrainValue(m.val, m.post + w, ObjectValue, stack, depth);
  }

  lemma {:induction false} DrainMembers(ms: Members, k: Bytes, st: State, outer: State, stack: seq<State>, depth: nat)
    requires WfMembers(ms) && (st.ObjectStart? || st.ObjectKey?) && depth > 0
    ensures Drain(Cursor(SpellMembers(ms, k), st, [outer] + stack), depth)
            == if MembersInRange(ms) then Drain(Cursor(k, Ended(outer), stack), depth - 1) else None
    decreases ms, 0
  {
    hide InRange;
    var inner := [outer] + stack;
    DrainMember(ms.m, AfterMember(ms, k), st, inner, depth);
    if ms.LastMember? {
      DrainClose(ms.m.post, CLOSE_OBJECT, k, ObjectComma, outer, stack, depth);
    } else {
      DrainSeparated(ms.m.post, COMMA, SpellMembers(ms.rest, k), ObjectComma, inner, depth);
      DrainMembers(ms.rest, k, ObjectKey, outer, stack, depth);
    }
  }

  /** Skipping consumes exactly one value, however deeply it nests, and fails exactly when a number
      in it is out of range. */
  lemma SkipValue(pad: Bytes, j: Json, k: Bytes, st: State, stack: seq<State>)
    requires AllWs(pad) && Wf(j) && Allowed(st)
    requires k == [] || Breaks(k[0])
    ensures Skip(Cursor(pad + Spell(j, k), st, stack)) == if InRange(j) then Some(Cursor(k, Ended(st), stack)) else None
  {
    hide Next, Spell, InRange;
    NextSkips(pad, Spell(j, k), st, stack);
    if j.Scalar? || j.Str? {
      NextLeaf(j, k, st, stack);
    } else {
      DrainOpen(j, k, st, stack, 1);
      DrainOpened(j, k, st, stack, 1);
    }
  }
}
