// The gate: hold back an upstream response until it shows content, and commit to it only then.

module Gate {
  import opened Wrappers
  import opened Octets
  import opened Stream
  import opened Ledger
  import Json
  import Usage

  const MAX_FRAME: nat := 262_144          // 256 << 10
  const MAX_REPLY: nat := 67_108_864       // 64 << 20
  const BUFFER: nat := 8192
  const DATA: Bytes := Ascii("data:")
  const DONE: Bytes := Ascii("[DONE]")

  // ---------- one line ----------

  /** s without trailing carriage returns and newlines. */
  function Chop(s: Bytes): Bytes {
    if s != [] && (s[|s| - 1] == 10 || s[|s| - 1] == 13) then Chop(s[..|s| - 1]) else s
  }

  predicate Begins(s: Bytes, p: Bytes) {
    |p| <= |s| && s[..|p|] == p
  }

  predicate Finishes(s: Bytes, p: Bytes) {
    |p| <= |s| && s[|s| - |p|..] == p
  }

  /** A Unicode white space character, in UTF-8. */
  predicate IsSpace(c: Bytes) {
    || (|c| == 1 && (9 <= c[0] <= 13 || c[0] == 32))
    || (|c| == 2 && c[0] == 0xC2 && (c[1] == 0x85 || c[1] == 0xA0))
    || (|c| == 3 && c[0] == 0xE1 && c[1] == 0x9A && c[2] == 0x80)
    || (|c| == 3 && c[0] == 0xE2 && c[1] == 0x80 && (0x80 <= c[2] <= 0x8A || c[2] == 0xA8 || c[2] == 0xA9 || c[2] == 0xAF))
    || (|c| == 3 && c[0] == 0xE2 && c[1] == 0x81 && c[2] == 0x9F)
    || (|c| == 3 && c[0] == 0xE3 && c[1] == 0x80 && c[2] == 0x80)
  }

  /** The length of the space character s begins with, or 0. */
  function SpaceAhead(s: Bytes): (n: nat)
    ensures n <= |s|
  {
    if |s| >= 1 && IsSpace(s[..1]) then 1 else if |s| >= 2 && IsSpace(s[..2]) then 2
    else if |s| >= 3 && IsSpace(s[..3]) then 3 else 0
  }

  /** The length of the space character s ends with, or 0. */
  function SpaceBehind(s: Bytes): (n: nat)
    ensures n <= |s|
  {
    if |s| >= 1 && IsSpace(s[|s| - 1..]) then 1 else if |s| >= 2 && IsSpace(s[|s| - 2..]) then 2
    else if |s| >= 3 && IsSpace(s[|s| - 3..]) then 3 else 0
  }

  function TrimSpace(s: Bytes): Bytes {
    if SpaceAhead(s) > 0 then TrimSpace(s[SpaceAhead(s)..])
    else if SpaceBehind(s) > 0 then TrimSpace(s[..|s| - SpaceBehind(s)])
    else s
  }

  /** The content of a line, if it has any: an event's data, neither blank nor the end mark. */
  function Content(line: Bytes): Option<Bytes> {
    var s := Chop(line);
    if !Begins(s, DATA) then None
    else
      var d := TrimSpace(s[|DATA|..]);
      if d == [] || d == DONE then None else Some(d)
  }

  // ---------- the decision ----------

  // Commit after n bytes; or refuse: too many bytes, the stream ended, or an error in the data.
  datatype Fate = Commit(n: nat) | TooLong | Stopped(e: End) | Errored

  /** What the bytes alone decide, from the line that starts at i. carries tells the data that
      carries an error. */
  function Decide(s: Bytes, e: End, carries: Bytes -> bool, i: nat): Fate
    requires i <= |s|
    decreases |s| - i
  {
    var j := Find(s, i);
    if j == |s| then if |s| > MAX_FRAME then TooLong else Stopped(e)
    else if j + 1 > MAX_FRAME then TooLong
    else
      match Content(s[i..j + 1])
      case None => Decide(s, e, carries, j + 1)
      case Some(d) => if carries(d) then Errored else Commit(j + 1)
  }

  lemma FindIs(s: Bytes, i: nat, j: nat)
    requires i <= j <= |s| && (forall k | i <= k < j :: s[k] != NEWLINE)
    ensures Find(s, i) >= j
    ensures j < |s| && s[j] == NEWLINE ==> Find(s, i) == j
  {
  }

  /** Read lines until one shows content. What is decided is what the bytes decide, however the
      reads cut them; on commit first and what is still to come are the whole stream. */
  method Open(br: Buffered, carries: Bytes -> bool) returns (r: Fate, first: Bytes)
    requires br.Valid()
    modifies br`buf, br`err, br.src`rest
    ensures br.Valid()
    ensures r == Decide(old(br.Rest()), br.src.end, carries, 0)
    ensures first + br.Rest() == old(br.Rest())
    ensures r.Commit? ==> |first| == r.n <= MAX_FRAME
  {
    hide Content, Decide, Buffered.Rest, Buffered.Valid, Reads, Find;
    first := [];
    var line: Bytes := [];
    ghost var all := br.Rest();
    ghost var i: nat := 0;
    assert all == [] + all;
    while true
      invariant br.Valid() && all == first + br.Rest()
      invariant 0 <= i <= |first| <= MAX_FRAME && |first| <= |all| && line == all[i..|first|]
      invariant Find(all, i) >= |first|
      invariant Decide(all, br.src.end, carries, 0) == Decide(all, br.src.end, carries, i)
      decreases |br.Rest()|
    {
      var stop;
      first, line, stop := ReadMore(br, all, i, first, line);
      ReadOn(all, br.src.end, carries, i, |first|, stop);
      if |first| > MAX_FRAME {
        return TooLong, first;
      }
      if stop.Full? {
        continue;
      }
      if stop.Ended? {
        return Stopped(stop.e), first;
      }
      var data := Content(line);
      line, i := [], |first|;
      if data.None? {
        continue;
      }
      if carries(data.value) {
        return Errored, first;
      }
      return Commit(|first|), first;
    }
  }

  /** Read one more chunk of the line that starts at i. */
  method ReadMore(br: Buffered, ghost all: Bytes, ghost i: nat, first: Bytes, line: Bytes)
    returns (first': Bytes, line': Bytes, stop: Stop)
    requires br.Valid() && all == first + br.Rest() && i <= |first| && line == all[i..|first|] && Find(all, i) >= |first|
    modifies br`buf, br`err, br.src`rest
    ensures br.Valid() && all == first' + br.Rest() && |first| <= |first'| <= |all| && line' == all[i..|first'|]
    ensures Reads(all, i, |first'|, stop, br.src.end)
    ensures stop.Full? ==> Find(all, i) >= |first'|
    ensures if stop.Ended? then stop.e == br.src.end else |br.Rest()| < old(|br.Rest()|)
  {
    hide Buffered.Rest, Buffered.Valid, Reads, Find, OneLine;
    var chunk;
    chunk, stop := br.ReadSlice();
    GrowSlices(all, i, first, chunk, br.Rest());
    Grow(all, i, first, chunk, br.Rest(), stop, br.src.end);
    first', line' := first + chunk, line + chunk;
  }

  lemma GrowSlices(all: Bytes, i: nat, first: Bytes, chunk: Bytes, rest: Bytes)
    requires i <= |first| && all == first + (chunk + rest)
    ensures all == (first + chunk) + rest && all[i..|first|] + chunk == all[i..|first + chunk|]
    ensures all[..|first|] == first && forall k | |first| <= k < |first + chunk| :: all[k] == chunk[k - |first|]
  {
    assert all == (first + chunk) + rest;
    assert all[..|first + chunk|] == first + chunk;
    assert (first + chunk)[i..] == first[i..] + chunk;
  }

  /** The bytes from i to n are a line, or the start of one, ending as stop says. */
  ghost predicate Reads(s: Bytes, i: nat, n: nat, stop: Stop, e: End) {
    && i <= n <= |s| && (forall k | i <= k < n - 1 :: s[k] != NEWLINE)
    && match stop
       case Line => n > i && s[n - 1] == NEWLINE
       case Full => n > i && s[n - 1] != NEWLINE
       case Ended(f) => f == e && n == |s| && (n > i ==> s[n - 1] != NEWLINE)
  }

  /** The line so far, with one more chunk. */
  lemma Grow(all: Bytes, i: nat, first: Bytes, chunk: Bytes, rest: Bytes, stop: Stop, e: End)
    requires i <= |first| && all == first + (chunk + rest) && Find(all, i) >= |first| && OneLine(chunk)
    requires match stop
             case Line => chunk != [] && chunk[|chunk| - 1] == NEWLINE
             case Full => chunk != [] && chunk[|chunk| - 1] != NEWLINE
             case Ended(f) => f == e && rest == [] && (chunk != [] ==> chunk[|chunk| - 1] != NEWLINE)
    ensures Reads(all, i, |first + chunk|, stop, e)
    ensures stop.Full? ==> Find(all, i) >= |first + chunk|
  {
    hide Find;
    GrowSlices(all, i, first, chunk, rest);
    var n := |first + chunk|;
    forall k | i <= k < n - 1 ensures all[k] != NEWLINE {
      if k >= |first| {
        assert all[k] == chunk[k - |first|];
      }
    }
    if stop.Full? {
      FindIs(all, i, n);
    }
  }

  /** What the bytes up to n tell of the line that starts at i. */
  lemma ReadOn(s: Bytes, e: End, carries: Bytes -> bool, i: nat, n: nat, stop: Stop)
    requires Reads(s, i, n, stop, e)
    ensures n > MAX_FRAME ==> Decide(s, e, carries, i) == TooLong
    ensures n <= MAX_FRAME && stop.Ended? ==> Decide(s, e, carries, i) == Stopped(e)
    ensures n <= MAX_FRAME && stop.Line? ==>
              Decide(s, e, carries, i) == match Content(s[i..n])
                                          case None => Decide(s, e, carries, n)
                                          case Some(d) => if carries(d) then Errored else Commit(n)
  {
    hide Content;
    if stop.Line? {
      FindIs(s, i, n - 1);
    } else {
      FindIs(s, i, n);
    }
  }

  // ---------- what the decision means ----------

  /** The bytes from a up to b are a whole line of s. */
  ghost predicate IsLine(s: Bytes, a: nat, b: nat) {
    && a < b <= |s| && (a == 0 || s[a - 1] == NEWLINE) && s[b - 1] == NEWLINE
    && forall k | a <= k < b - 1 :: s[k] != NEWLINE
  }

  /** Every line that ends at or before n shows no content. */
  ghost predicate IdleUpTo(s: Bytes, n: nat) {
    forall a: nat, b: nat | IsLine(s, a, b) && b <= n :: Content(s[a..b]) == None
  }

  /** The line that ends at b is the first to show content, within the frame. */
  ghost predicate Shows(s: Bytes, a: nat, b: nat) {
    IsLine(s, a, b) && b <= 262_144 && Content(s[a..b]).Some? && IdleUpTo(s, a)
  }

  /** The first line to show content, and whether its data carries an error. */
  ghost predicate ShowsWith(s: Bytes, a: nat, b: nat, carries: Bytes -> bool, bad: bool) {
    Shows(s, a, b) && carries(Content(s[a..b]).value) == bad
  }

  /** The first line to show content ends at n, and its data is clean. */
  ghost predicate CommitsAt(s: Bytes, n: nat, carries: Bytes -> bool) {
    exists a: nat :: ShowsWith(s, a, n, carries, false)
  }

  ghost predicate NothingShown(s: Bytes) {
    forall a: nat, b: nat :: !Shows(s, a, b)
  }

  lemma SameLine(s: Bytes, i: nat, n: nat, a: nat, b: nat)
    requires IsLine(s, i, n) && IsLine(s, a, b)
    ensures b <= i || (a == i && b == n) || n <= a
  {
  }

  lemma IdleStep(s: Bytes, i: nat, n: nat)
    requires IsLine(s, i, n) && IdleUpTo(s, i) && Content(s[i..n]) == None
    ensures IdleUpTo(s, n)
  {
    hide Content;
    forall a: nat, b: nat | IsLine(s, a, b) && b <= n ensures Content(s[a..b]) == None {
      SameLine(s, i, n, a, b);
    }
  }

  lemma NoMoreLines(s: Bytes, i: nat)
    requires i <= |s| && IdleUpTo(s, i) && forall k | i <= k < |s| :: s[k] != NEWLINE
    ensures IdleUpTo(s, |s|)
  {
    hide Content;
    forall a: nat, b: nat | IsLine(s, a, b) ensures b <= i {
    }
  }

  /** Nothing shown in lines that end by i, and the next ends beyond the frame. */
  lemma NoShowBy(s: Bytes, i: nat, n: nat)
    requires IsLine(s, i, n) && IdleUpTo(s, i) && n > MAX_FRAME
    ensures NothingShown(s)
  {
    hide Content;
    forall a: nat, b: nat ensures !Shows(s, a, b) {
      if IsLine(s, a, b) && b <= MAX_FRAME {
        SameLine(s, i, n, a, b);
      }
    }
  }

  lemma AllIdle(s: Bytes)
    requires IdleUpTo(s, |s|)
    ensures NothingShown(s)
  {
    hide Content;
  }

  lemma {:induction false} DecideFrom(s: Bytes, e: End, carries: Bytes -> bool, i: nat)
    requires i <= |s| && (i == 0 || s[i - 1] == NEWLINE) && IdleUpTo(s, i)
    ensures match Decide(s, e, carries, i)
            case Commit(n) => CommitsAt(s, n, carries)
            case Errored => exists a, n :: ShowsWith(s, a, n, carries, true)
            case TooLong => |s| > MAX_FRAME && NothingShown(s)
            case Stopped(f) => f == e && |s| <= MAX_FRAME && NothingShown(s)
    decreases |s| - i
  {
    hide Content, IdleUpTo, NothingShown;
    var j := Find(s, i);
    if j == |s| {
      NoMoreLines(s, i);
      AllIdle(s);
    } else {
      assert IsLine(s, i, j + 1);
      if j + 1 > MAX_FRAME {
        NoShowBy(s, i, j + 1);
      } else if Content(s[i..j + 1]).None? {
        IdleStep(s, i, j + 1);
        DecideFrom(s, e, carries, j + 1);
        assert Decide(s, e, carries, i) == Decide(s, e, carries, j + 1);
      } else {
        assert ShowsWith(s, i, j + 1, carries, carries(Content(s[i..j + 1]).value));
      }
    }
  }

  /** At most one line is the first to show content. */
  lemma ShowsOnce(s: Bytes, a: nat, b: nat, c: nat, d: nat)
    requires Shows(s, a, b) && Shows(s, c, d)
    ensures a == c && b == d
  {
    hide Content;
    SameLine(s, a, b, c, d);
  }

  /** The gate commits after n bytes if and only if n ends the first line that shows content, it
      lies within the frame and its data carries no error; it refuses for an error if and only if
      that line's data carries one; and with no such line it refuses, as too long exactly when more
      than a frame came. */
  lemma GateMeans(s: Bytes, e: End, carries: Bytes -> bool)
    ensures forall n: nat :: Decide(s, e, carries, 0) == Commit(n) <==> CommitsAt(s, n, carries)
    ensures Decide(s, e, carries, 0) == Errored <==> exists a, n :: ShowsWith(s, a, n, carries, true)
    ensures Decide(s, e, carries, 0) == TooLong <==> |s| > 262_144 && NothingShown(s)
    ensures Decide(s, e, carries, 0) == Stopped(e) <==> |s| <= 262_144 && NothingShown(s)
  {
    hide Content, Decide, Shows;
    StartsIdle(s);
    DecideFrom(s, e, carries, 0);
    forall a: nat, b: nat, c: nat, d: nat | Shows(s, a, b) && Shows(s, c, d) ensures a == c && b == d {
      ShowsOnce(s, a, b, c, d);
    }
  }

  lemma StartsIdle(s: Bytes)
    ensures IdleUpTo(s, 0)
  {
    hide Content;
  }

  // ---------- a reply that is not streamed ----------

  // Commit to the whole reply, with its usage if it tells; or refuse it.
  datatype Ruling = Whole(used: Option<Spend>) | Unread | TooLarge | NotJson | Erroneous

  function Rule(s: Bytes, e: End): Ruling {
    if |s| > MAX_REPLY then TooLarge
    else if e.Cut? then Unread
    else if Json.Parse(s).None? then NotJson
    else match Usage.VerdictOf(s) case Erroneous => Ruling.Erroneous case Fine(used) => Whole(used)
  }

  /** When a whole reply is committed, and what it is refused for otherwise. */
  lemma RuleMeans(s: Bytes, e: End)
    ensures Rule(s, e).Whole? <==> |s| <= 67_108_864 && e.Eof? && Json.Parse(s).Some? && !Usage.Carries(s)
    ensures Rule(s, e).Whole? ==> Usage.VerdictOf(s) == Usage.Fine(Rule(s, e).used)
    ensures Rule(s, e).TooLarge? <==> |s| > 67_108_864
    ensures Rule(s, e).Unread? <==> |s| <= 67_108_864 && e.Cut?
    ensures Rule(s, e).NotJson? <==> |s| <= 67_108_864 && e.Eof? && Json.Parse(s).None?
  {
    hide Json.Parse, Usage.VerdictOf;
  }

  /** Read the whole reply, at most a byte more than is allowed. However the reads cut it, the
      ruling is that on all the bytes, and what is committed is all of them. */
  method OpenWhole(src: Source) returns (r: Ruling, first: Bytes)
    modifies src`rest
    ensures r == Rule(old(src.rest), src.end)
    ensures r.Whole? ==> first == old(src.rest) && |first| <= MAX_REPLY
  {
    hide Json.Parse, Usage.VerdictOf;
    first := [];
    ghost var all := src.rest;
    var e: Option<End> := None;
    while e == None && |first| < MAX_REPLY + 1
      invariant first + src.rest == all && |first| <= MAX_REPLY + 1
      invariant e != None ==> e == Some(src.end) && src.rest == []
      decreases MAX_REPLY + 1 - |first|, if e == None then 1 else 0
    {
      var b;
      b, e := src.Read(MAX_REPLY + 1 - |first|);
      assert (first + b) + src.rest == all;
      first := first + b;
    }
    if |first| > MAX_REPLY {
      return TooLarge, first;
    }
    assert first == all;
    if e == Some(Cut) {
      return Unread, first;
    }
    if Json.Parse(first).None? {
      return NotJson, first;
    }
    match Usage.VerdictOf(first) {
      case Erroneous => return Ruling.Erroneous, first;
      case Fine(used) => return Whole(used), first;
    }
  }
}
