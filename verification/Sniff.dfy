// The tail of a stream, kept to read its usage from.

module Sniff {
  import opened Wrappers
  import opened Octets
  import opened Ledger
  import opened Usage

  const WINDOW: nat := 512
  const MARK: Bytes := Ascii("\"usage\":")

  /** The last k bytes of s, or all of it. */
  function Tail(s: Bytes, k: nat): (r: Bytes)
    ensures |r| == if |s| < k then |s| else k
  {
    if |s| < k then s else s[|s| - k..]
  }

  lemma TailTail(s: Bytes, p: Bytes, k: nat)
    ensures Tail(Tail(s, k) + p, k) == Tail(s + p, k)
  {
  }

  lemma TailLong(w: Bytes, p: Bytes, k: nat)
    requires |p| >= k
    ensures Tail(w + p, k) == p[|p| - k..]
  {
  }

  lemma TailShift(w: Bytes, p: Bytes, k: nat)
    requires |w| <= k && |p| < k
    ensures Tail(w + p, k) == (if |w| + |p| > k then w[|w| + |p| - k..] else w) + p
  {
  }

  /** The window: a fixed array and how much of it is in use. fed is everything ever fed. */
  class Window {
    const buf: array<byte>
    var n: nat
    ghost var fed: Bytes

    ghost predicate Valid()
      reads this, buf
    {
      buf.Length == WINDOW && n <= WINDOW && buf[..n] == Tail(fed, WINDOW)
    }

    constructor ()
      ensures Valid() && fed == [] && fresh(buf)
    {
      buf := new byte[WINDOW];
      n, fed := 0, [];
    }

    /** Copy src over the window from at on, as far as it fits. */
    method Copy(at: nat, src: Bytes) returns (m: nat)
      requires at + |src| <= buf.Length
      modifies buf
      ensures m == |src| && buf[at..at + m] == src
      ensures buf[..at] == old(buf[..at])
    {
      for i := 0 to |src|
        invariant buf[at..at + i] == src[..i]
        invariant buf[..at] == old(buf[..at])
      {
        buf[at + i] := src[i];
        assert buf[at..at + i + 1] == buf[at..at + i] + [src[i]];
      }
      m := |src|;
    }

    /** Whatever the pieces, the window holds the last bytes of all that was fed. */
    method Feed(p: Bytes)
      requires Valid()
      modifies this, buf
      ensures Valid() && fed == old(fed) + p
    {
      hide Tail;
      TailTail(fed, p, WINDOW);
      ghost var w := buf[..n];
      fed := fed + p;
      if |p| >= buf.Length {
        TailLong(w, p, WINDOW);
        n := Copy(0, p[|p| - buf.Length..]);
        assert buf[..n] == buf[0..0 + n];
        return;
      }
      TailShift(w, p, WINDOW);
      if n + |p| > buf.Length {
        var drop := n + |p| - buf.Length;
        assert buf[drop..n] == w[drop..];
        n := Copy(0, buf[drop..n]);
        assert buf[..n] == buf[0..0 + n];
      }
      ghost var kept := buf[..n];
      var m := Copy(n, p);
      assert buf[..n + m] == buf[..n] + buf[n..n + m];
      n := n + m;
    }

    /** The usage the window ends with. */
    method Count(parse: Bytes -> Option<Spend>) returns (r: Option<Spend>)
      requires Valid()
      ensures r == CountOf(Tail(fed, WINDOW), parse)
    {
      r := CountIn(buf[..n], parse);
    }
  }

  /** An occurrence of the mark. */
  predicate MarkAt(w: Bytes, i: nat) {
    i + |MARK| <= |w| && w[i..i + |MARK|] == MARK
  }

  /** s without its leading blanks and tabs. */
  function TrimBlank(s: Bytes): Bytes {
    if s != [] && (s[0] == 32 || s[0] == 9) then TrimBlank(s[1..]) else s
  }

  /** Opening braces less closing ones. */
  function Depth(s: Bytes): int {
    if s == [] then 0
    else Depth(s[..|s| - 1]) + (if s[|s| - 1] == OPEN_OBJECT then 1 else if s[|s| - 1] == CLOSE_OBJECT then -1 else 0)
  }

  /** The last mark before i. */
  function LastMark(w: Bytes, i: nat): (r: Option<nat>)
    ensures r == None ==> forall j: nat | j < i :: !MarkAt(w, j)
    ensures r != None ==> r.value < i && MarkAt(w, r.value) && forall j: nat | MarkAt(w, j) && j < i :: j <= r.value
  {
    if i == 0 then None else if MarkAt(w, i - 1) then Some(i - 1) else LastMark(w, i - 1)
  }

  /** The length of the shortest balanced prefix of b longer than m. */
  function Close(b: Bytes, m: nat): (r: Option<nat>)
    requires m <= |b|
    ensures r == None ==> forall l | m < l <= |b| :: Depth(b[..l]) != 0
    ensures r != None ==> m < r.value <= |b| && Depth(b[..r.value]) == 0 && forall l | m < l < r.value :: Depth(b[..l]) != 0
    decreases |b| - m
  {
    if m == |b| then None else if Depth(b[..m + 1]) == 0 then Some(m + 1) else Close(b, m + 1)
  }

  /** What the last usage in the window says. */
  function CountOf(w: Bytes, parse: Bytes -> Option<Spend>): Option<Spend> {
    match LastMark(w, |w|)
    case None => None
    case Some(i) =>
      var b := TrimBlank(w[i + |MARK|..]);
      if b == [] || b[0] != OPEN_OBJECT then None
      else
        match Close(b, 0)
        case None => None
        case Some(m) => match parse(b[..m]) case None => None case Some(s) => Some(Fill(s))
  }

  lemma DepthSnoc(b: Bytes, j: nat)
    requires j < |b|
    ensures Depth(b[..j + 1])
            == Depth(b[..j]) + (if b[j] == OPEN_OBJECT then 1 else if b[j] == CLOSE_OBJECT then -1 else 0)
  {
    assert b[..j + 1][..j] == b[..j];
  }

  /** Go over the object that begins b, up to the brace that closes it. */
  method Scan(b: Bytes) returns (r: Option<nat>)
    requires b != [] && b[0] == OPEN_OBJECT
    ensures r == Close(b, 0)
  {
    hide Depth;
    var depth := 0;
    DepthNone();
    assert b[..0] == [];
    for j := 0 to |b|
      invariant depth == Depth(b[..j]) && (j > 0 ==> depth > 0) && Close(b, 0) == Close(b, j)
    {
      DepthSnoc(b, j);
      if b[j] == OPEN_OBJECT {
        depth := depth + 1;
      } else if b[j] == CLOSE_OBJECT {
        depth := depth - 1;
        if depth == 0 {
          return Some(j + 1);
        }
      }
    }
    return None;
  }

  lemma NothingCounted(parse: Bytes -> Option<Spend>)
    ensures CountOf(Tail([], WINDOW), parse) == None
  {
  }

  lemma DepthNone()
    ensures Depth([]) == 0
  {
  }

  method CountIn(w: Bytes, parse: Bytes -> Option<Spend>) returns (r: Option<Spend>)
    ensures r == CountOf(w, parse)
  {
    hide Depth, MarkAt, TrimBlank, Close, LastMark;
    var i := LastMark(w, |w|);
    if i == None {
      return None;
    }
    MarksInside(w, i.value);
    var b := TrimBlank(w[i.value + |MARK|..]);
    if |b| == 0 || b[0] != OPEN_OBJECT {
      return None;
    }
    var m := Scan(b);
    if m == None {
      return None;
    }
    var v := parse(b[..m.value]);
    if v.None? {
      return None;
    }
    return Some(Fill(v.value));
  }

  // ---------- what the count means ----------

  /** An occurrence of the mark with none after it. */
  ghost predicate IsLast(w: Bytes, i: nat) {
    MarkAt(w, i) && forall j: nat | MarkAt(w, j) :: j <= i
  }

  /** The shortest balanced prefix of b. */
  ghost predicate Shortest(b: Bytes, m: nat) {
    0 < m <= |b| && Depth(b[..m]) == 0 && forall l | 0 < l < m :: Depth(b[..l]) != 0
  }

  /** o is the usage object in the window: what follows the last mark, at i, and blanks begins
      with a brace, and o is its shortest balanced prefix. */
  ghost predicate UsageAt(w: Bytes, i: nat, o: Bytes) {
    && IsLast(w, i)
    && var b := TrimBlank(w[i + |MARK|..]);
       b != [] && b[0] == OPEN_OBJECT && Shortest(b, |o|) && o == b[..|o|]
  }

  lemma MarksInside(w: Bytes, j: nat)
    requires MarkAt(w, j)
    ensures j < |w| && j + |MARK| <= |w|
  {
  }

  lemma ShortestOnce(b: Bytes, m: nat)
    requires Shortest(b, m)
    ensures Close(b, 0) == Some(m)
  {
    hide Depth;
  }

  /** The count is the parsed usage object, its total filled in, if there is such an object and it
      parses; and nothing otherwise. */
  lemma CountMeans(w: Bytes, parse: Bytes -> Option<Spend>)
    ensures forall i: nat, o | UsageAt(w, i, o) :: CountOf(w, parse) == match parse(o) case None => None case Some(s) => Some(Fill(s))
    ensures CountOf(w, parse).Some? ==> exists i: nat, o :: UsageAt(w, i, o)
  {
    hide Depth, TrimBlank, MarkAt, Close;
    var last := LastMark(w, |w|);
    forall j: nat | MarkAt(w, j) ensures j < |w| {
      MarksInside(w, j);
    }
    forall i: nat, o | UsageAt(w, i, o) ensures CountOf(w, parse) == match parse(o) case None => None case Some(s) => Some(Fill(s)) {
      MarksInside(w, i);
      ShortestOnce(TrimBlank(w[i + |MARK|..]), |o|);
    }
    if last.Some? {
      MarksInside(w, last.value);
      var b := TrimBlank(w[last.value + |MARK|..]);
      var m := Close(b, 0);
      if b != [] && b[0] == OPEN_OBJECT && m.Some? {
        assert |b[..m.value]| == m.value;
        assert UsageAt(w, last.value, b[..m.value]);
      }
    }
  }

  lemma {:induction false} FlatDepth(s: Bytes, t: Bytes)
    requires NoBraces(t)
    ensures Depth(s + t) == Depth(s)
  {
    if t == [] {
      assert s + t == s;
    } else {
      assert (s + t)[..|s + t| - 1] == s + t[..|t| - 1];
      FlatDepth(s, t[..|t| - 1]);
    }
  }

  /** Braces around text without any are closed by the last byte and not before. */
  lemma BracesClose(mid: Bytes, post: Bytes)
    requires NoBraces(mid)
    ensures Shortest([OPEN_OBJECT] + mid + [CLOSE_OBJECT] + post, |mid| + 2)
  {
    hide Depth;
    var b := [OPEN_OBJECT] + mid + [CLOSE_OBJECT] + post;
    DepthNone();
    assert b[..0] == [];
    DepthSnoc(b, 0);
    assert b[..1] == [OPEN_OBJECT];
    forall l | 0 < l < |mid| + 2 ensures Depth(b[..l]) == 1 {
      assert b[..l] == [OPEN_OBJECT] + mid[..l - 1];
      FlatDepth([OPEN_OBJECT], mid[..l - 1]);
    }
    DepthSnoc(b, |mid| + 1);
  }

  lemma {:induction false} TrimPad(pad: Bytes, b: Bytes)
    requires (forall i | 0 <= i < |pad| :: pad[i] == 32 || pad[i] == 9) && b != [] && b[0] == OPEN_OBJECT
    ensures TrimBlank(pad + b) == b
  {
    if pad == [] {
      assert pad + b == b;
    } else {
      assert (pad + b)[1..] == pad[1..] + b;
      TrimPad(pad[1..], b);
    }
  }

  /** Whatever came before and after it, the last usage a provider sent is what is counted, as long
      as it is whole in the window; blanks and tabs may stand between its name and its object. */
  lemma LastUsageCounted(pre: Bytes, pad: Bytes, s: Spend, post: Bytes)
    requires Small(s) && forall i | 0 <= i < |pad| :: pad[i] == 32 || pad[i] == 9
    requires var w := pre + (MARK + (pad + (Json.Text(Told(s)) + post))); forall j: nat | MarkAt(w, j) :: j <= |pre|
    ensures CountOf(pre + (MARK + (pad + (Json.Text(Told(s)) + post))), SpendIn) == Some(Fill(s))
  {
    hide Depth, Told, SpendIn, Usage.Between, Fill, TrimBlank;
    var o := Json.Text(Told(s));
    var w := pre + (MARK + (pad + (o + post)));
    ToldText(s);
    hide Json.Text;
    assert w[|pre|..|pre| + |MARK|] == MARK;
    assert IsLast(w, |pre|);
    assert w[|pre| + |MARK|..] == pad + (o + post);
    assert (o + post)[0] == OPEN_OBJECT;
    TrimPad(pad, o + post);
    BracesClose(Usage.Between(s), post);
    assert o + post == [OPEN_OBJECT] + Usage.Between(s) + [CLOSE_OBJECT] + post;
    assert o == (o + post)[..|o|];
    assert UsageAt(w, |pre|, o);
    CountMeans(w, SpendIn);
    UsageReads(s);
  }
}
