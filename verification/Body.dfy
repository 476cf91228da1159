// Rewriting a request body: the fast path splices bytes around the model value, the slow path
// decodes the object into a map and encodes it again.

module Body {
  import opened Wrappers
  import opened Octets
  import opened JsonStrings
  import opened Json
  import opened Locating
  import opened Encoding

  const STREAM: Bytes := Ascii("stream")
  const OPTIONS: Bytes := Ascii("stream_options")
  const COUNTED: Bytes := Ascii("{\"include_usage\":true}")
  const INJECT: Bytes := Ascii(",\"stream_options\":") + COUNTED

  // ---------- what the gateway reads from a body ----------

  datatype Want = Want(model: Bytes, stream: bool, options: Option<Bytes>)

  const NOTHING := Want([], false, None)

  /** Letter case folded the way field names are matched: ASCII capitals, the long s and the
      Kelvin sign. */
  function Fold(s: Bytes): Bytes {
    if s == [] then []
    else if 65 <= s[0] <= 90 then [s[0] + 32] + Fold(s[1..])
    else if |s| >= 2 && s[0] == 197 && s[1] == 191 then [115] + Fold(s[2..])
    else if |s| >= 3 && s[0] == 226 && s[1] == 132 && s[2] == 170 then [107] + Fold(s[3..])
    else [s[0]] + Fold(s[1..])
  }

  lemma {:induction false} FoldLower(s: Bytes)
    requires forall i | 0 <= i < |s| :: 90 < s[i] < 128
    ensures Fold(s) == s
  {
    if s != [] {
      FoldLower(s[1..]);
      assert s == [s[0]] + s[1..];
    }
  }

  /** One member decoded into w, unless its value has the wrong type. */
  function Take(w: Want, m: Member): Option<Want> {
    var n := Fold(Name(m));
    if n == MODEL then
      if m.val.Str? then Some(w.(model := Unescape(m.val.raw)))
      else if m.val == Scalar(NULL) then Some(w) else None
    else if n == STREAM then
      if m.val == Scalar(TRUE) then Some(w.(stream := true))
      else if m.val == Scalar(FALSE) then Some(w.(stream := false))
      else if m.val == Scalar(NULL) then Some(w) else None
    else if n == OPTIONS then Some(w.(options := Some(Text(m.val))))
    else Some(w)
  }

  function TakeAll(w: Want, ms: Members): Option<Want>
    decreases ms
  {
    match Take(w, ms.m)
    case None => None
    case Some(v) => if ms.MoreMembers? then TakeAll(v, ms.rest) else Some(v)
  }

  function Peek(b: Bytes): Option<Want> {
    match Parse(b)
    case None => None
    case Some(d) =>
      match d.root
      case Object(ms) => TakeAll(NOTHING, ms)
      case EmptyObject(_) => Some(NOTHING)
      case Scalar(word) => if word == NULL then Some(NOTHING) else None
      case _ => None
  }

  // ---------- what was read ----------

  predicate Named(m: Member, name: Bytes) {
    Fold(Name(m)) == name
  }

  /** The value of the last member with this name, letter case aside. */
  function LastNamed(ms: Members, name: Bytes): Option<Json> {
    var later := if ms.MoreMembers? then LastNamed(ms.rest, name) else None;
    if later.Some? then later else if Named(ms.m, name) then Some(ms.m.val) else None
  }

  /** The same, not counting null. */
  function LastSet(ms: Members, name: Bytes): Option<Json> {
    var later := if ms.MoreMembers? then LastSet(ms.rest, name) else None;
    if later.Some? then later
    else if Named(ms.m, name) && ms.m.val != Scalar(NULL) then Some(ms.m.val) else None
  }

  /** The name of the model is a string, and whether to stream is a boolean, unless they are null. */
  predicate Readable(ms: Members) {
    && (Named(ms.m, [109, 111, 100, 101, 108]) ==> ms.m.val.Str? || ms.m.val == Scalar(NULL))
    && (Named(ms.m, [115, 116, 114, 101, 97, 109]) ==>
          ms.m.val == Scalar(NULL) || ms.m.val == Scalar(TRUE) || ms.m.val == Scalar(FALSE))
    && (ms.MoreMembers? ==> Readable(ms.rest))
  }

  lemma NamesSpelled()
    ensures MODEL == [109, 111, 100, 101, 108] && STREAM == [115, 116, 114, 101, 97, 109]
    ensures OPTIONS == [115, 116, 114, 101, 97, 109, 95, 111, 112, 116, 105, 111, 110, 115]
  {
  }

  lemma WordsDiffer()
    ensures TRUE != FALSE && TRUE != NULL && FALSE != NULL
  {
    assert TRUE[0] == 116 && FALSE[0] == 102 && NULL[0] == 110;
  }

  lemma {:induction false} TakeAllMeans(w: Want, ms: Members)
    ensures TakeAll(w, ms).Some? <==> Readable(ms)
    ensures TakeAll(w, ms).Some? ==>
              var v := TakeAll(w, ms).value;
              && v.model == (match LastSet(ms, MODEL) case None => w.model case Some(j) => if j.Str? then Unescape(j.raw) else [])
              && v.stream == (match LastSet(ms, STREAM) case None => w.stream case Some(j) => j == Scalar(TRUE))
              && v.options == (match LastNamed(ms, OPTIONS) case None => w.options case Some(j) => Some(Text(j)))
    decreases ms
  {
    hide Fold, Unescape, Text, Name;
    NamesSpelled();
    WordsDiffer();
    var t := Take(w, ms.m);
    if t.Some? && ms.MoreMembers? {
      TakeAllMeans(t.value, ms.rest);
    }
  }

  /** What the gateway reads from a body, for every body. It accepts an object whose every model is a
      string or null and whose every stream is a boolean or null, the empty object, and null. The model
      is the last such string, the request streams exactly if the last such boolean is true, and the
      caller's stream_options are the text of the last member named so. */
  lemma ReadMeans(b: Bytes)
    ensures ReadBody(b).Some? <==>
              Parse(b).Some? && match Parse(b).value.root
                                case Object(ms) => Readable(ms)
                                case EmptyObject(_) => true
                                case Scalar(word) => word == [110, 117, 108, 108]
                                case _ => false
    ensures ReadBody(b).Some? && Parse(b).value.root.Object? ==>
              var w, ms := ReadBody(b).value.want, Parse(b).value.root.members;
              var model := LastSet(ms, [109, 111, 100, 101, 108]);
              var options := LastNamed(ms, [115, 116, 114, 101, 97, 109, 95, 111, 112, 116, 105, 111, 110, 115]);
              && (if model.Some? then model.value.Str? && w.model == Unescape(model.value.raw) else w.model == [])
              && (w.stream <==> LastSet(ms, [115, 116, 114, 101, 97, 109]) == Some(Scalar([116, 114, 117, 101])))
              && (if options.Some? then w.options == Some(Text(options.value)) else w.options == None)
    ensures ReadBody(b).Some? && !Parse(b).value.root.Object? ==> ReadBody(b).value.want == Want([], false, None)
  {
    hide Parse, TakeAll, Readable, LastSet, LastNamed, Text, Located;
    NamesSpelled();
    if Parse(b).Some? && Parse(b).value.root.Object? {
      TakeAllMeans(NOTHING, Parse(b).value.root.members);
      if Readable(Parse(b).value.root.members) {
        ModelIsString(Parse(b).value.root.members);
      }
    }
  }

  lemma {:induction false} ModelIsString(ms: Members)
    requires Readable(ms)
    ensures LastSet(ms, [109, 111, 100, 101, 108]).Some? ==> LastSet(ms, [109, 111, 100, 101, 108]).value.Str?
    decreases ms
  {
    hide Fold, Name;
    if ms.MoreMembers? {
      ModelIsString(ms.rest);
    }
  }

  // ---------- sending ----------

  datatype Plan = Plan(body: Bytes, want: Want, span: Span)

  /** A span as the plan needs it: inside the body, ending no later than the closing brace. */
  predicate Spliceable(p: Plan) {
    p.span.hi == 0 || p.span.lo <= p.span.hi <= p.span.end < |p.body|
  }

  function ReadBody(b: Bytes): (p: Option<Plan>)
    ensures p.Some? ==> p.value.body == b && p.value.span == Located(b) && Spliceable(p.value)
  {
    match Peek(b)
    case None => None
    case Some(w) =>
      LocatedInside(b);
      Some(Plan(b, w, Located(b)))
  }

  /** The decoded object as raw messages; of several members with one name the last counts. */
  function RawFields(ms: Members): map<Bytes, Bytes> {
    match ms
    case LastMember(m) => map[Name(m) := Text(m.val)]
    case MoreMembers(m, rest) => map[Name(m) := Text(m.val)] + RawFields(rest)
  }

  /** A body decoded into a map, if it is an object. */
  function Unmarshal(b: Bytes): Option<map<Bytes, Bytes>> {
    match Parse(b)
    case None => None
    case Some(d) =>
      match d.root
      case Object(ms) => Some(RawFields(ms))
      case EmptyObject(_) => Some(map[])
      case _ => None
  }

  /** The slow path. */
  function Swapped(b: Bytes, model: Bytes, asked: Want, meter: bool): Option<Bytes> {
    if model == asked.model && (!meter || asked.options.Some?) then Some(b) else
    match Unmarshal(b)
    case None => None
    case Some(m) =>
      var m' := m[MODEL := Quote(model, true)];
      Some(Encode(if meter && OPTIONS !in m' then m'[OPTIONS := COUNTED] else m'))
  }

  method Swap(b: Bytes, model: Bytes, asked: Want, meter: bool) returns (r: Option<Bytes>)
    ensures r == Swapped(b, model, asked, meter)
  {
    hide Encode, Unmarshal, Quote;
    if model == asked.model && (!meter || asked.options.Some?) {
      return Some(b);
    }
    var u := Unmarshal(b);
    if u.None? {
      return None;
    }
    var m := u.value;
    m := m[MODEL := Quote(model, true)];
    if meter && OPTIONS !in m {
      m := m[OPTIONS := COUNTED];
    }
    r := Some(Encode(m));
  }

  // The readers an upstream request body is read from, and the length announced for it.
  datatype Sent = Sent(pieces: seq<Bytes>, n: int)

  function Concat(pieces: seq<Bytes>): Bytes {
    if pieces == [] then [] else pieces[0] + Concat(pieces[1..])
  }

  /** The fast path, or the slow one when no model value was found. */
  function Send(p: Plan, model: Bytes, meter: bool): Option<Sent>
    requires Spliceable(p)
  {
    var add := meter && p.want.options.None?;
    if model == p.want.model && !add then Some(Sent([p.body], |p.body|))
    else if p.span.hi == 0 then
      match Swapped(p.body, model, p.want, meter)
      case None => None
      case Some(b) => Some(Sent([b], |b|))
    else
      var name := Quote(model, true);
      var head, tail := p.body[..p.span.lo], p.body[p.span.hi..];
      if !add then Some(Sent([head, name, tail], |head| + |name| + |tail|))
      else
        var mid, last := p.body[p.span.hi..p.span.end], p.body[p.span.end..];
        Some(Sent([head, name, mid, INJECT, last], |head| + |name| + |mid| + |INJECT| + |last|))
  }

  /** The announced length is the number of bytes produced. */
  lemma LengthIsTold(p: Plan, model: Bytes, meter: bool)
    requires Spliceable(p) && Send(p, model, meter).Some?
    ensures |Concat(Send(p, model, meter).value.pieces)| == Send(p, model, meter).value.n
  {
    hide Swapped, Quote;
    var s := Send(p, model, meter).value;
    if |s.pieces| == 1 {
      Concat1(s.pieces[0]);
    } else if |s.pieces| == 3 {
      Concat3(s.pieces[0], s.pieces[1], s.pieces[2]);
    } else {
      Concat5(s.pieces[0], s.pieces[1], s.pieces[2], s.pieces[3], s.pieces[4]);
    }
  }

  lemma Concat1(a: Bytes)
    ensures Concat([a]) == a
  {
  }

  lemma Concat3(a: Bytes, b: Bytes, c: Bytes)
    ensures Concat([a, b, c]) == a + (b + c)
  {
    assert [a, b, c][1..] == [b, c] && [b, c][1..] == [c];
    Concat1(c);
  }

  lemma Concat5(a: Bytes, b: Bytes, c: Bytes, d: Bytes, e: Bytes)
    ensures Concat([a, b, c, d, e]) == a + (b + (c + (d + e)))
  {
    assert [a, b, c, d, e][1..] == [b, c, d, e] && [b, c, d, e][1..] == [c, d, e];
    Concat3(c, d, e);
  }

  lemma LocatedInside(b: Bytes)
    requires Peek(b).Some?
    ensures Located(b).hi == 0 || Located(b).lo <= Located(b).hi <= Located(b).end < |b|
  {
    hide Located, Parse, Lead, Found, After, Text;
    if Parse(b).value.root.Object? {
      LocateSpan(b);
    } else {
      LocateNothing(b);
    }
  }

  /** The members with the first model value replaced. */
  function Put(ms: Members, v: Json): Members
    requires HasModel(ms)
    decreases ms
  {
    if Name(ms.m) != MODEL then MoreMembers(ms.m, Put(ms.rest, v))
    else if ms.LastMember? then LastMember(ms.m.(val := v))
    else MoreMembers(ms.m.(val := v), ms.rest)
  }

  function Append(ms: Members, m: Member): Members {
    match ms
    case LastMember(f) => MoreMembers(f, LastMember(m))
    case MoreMembers(f, rest) => MoreMembers(f, Append(rest, m))
  }

  lemma {:induction false} PutKeepsRest(ms: Members, v: Json)
    requires HasModel(ms)
    ensures HasModel(Put(ms, v)) && Found(Put(ms, v)) == v
    ensures Lead(Put(ms, v)) == Lead(ms) && After(Put(ms, v)) == After(ms)
    decreases ms
  {
    hide Spell, Unescape;
    if Name(ms.m) != MODEL {
      PutKeepsRest(ms.rest, v);
    }
  }

  lemma {:induction false} PutWf(ms: Members, v: Json)
    requires HasModel(ms) && WfMembers(ms) && Wf(v)
    ensures WfMembers(Put(ms, v))
    decreases ms
  {
    hide Unescape;
    if Name(ms.m) != MODEL {
      PutWf(ms.rest, v);
      assert Put(ms, v).MoreMembers? && Put(ms, v).m == ms.m && Put(ms, v).rest == Put(ms.rest, v);
    } else {
      assert WfMember(ms.m.(val := v));
    }
  }

  lemma {:induction false} AppendSpells(ms: Members, m: Member)
    ensures Inner(Append(ms, m)) == Inner(ms) + ([COMMA] + Inner(LastMember(m)))
    ensures WfMembers(ms) && WfMember(m) ==> WfMembers(Append(ms, m))
    decreases ms
  {
    hide SpellHead, Spell, Wf, Chars;
    var x := [COMMA] + Inner(LastMember(m));
    if ms.LastMember? {
      MemberSplits(ms.m, ms.m.post, x);
    } else {
      AppendSpells(ms.rest, m);
      MemberSplits(ms.m, ms.m.post + ([COMMA] + Inner(ms.rest)), x);
      assert ms.m.post + ([COMMA] + Inner(Append(ms.rest, m))) == ms.m.post + ([COMMA] + Inner(ms.rest)) + x;
    }
  }
}
