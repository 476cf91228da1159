// Relaying a committed response: the gated bytes, then the rest as it comes.

module Relay {
  import opened Wrappers
  import opened Octets
  import opened Ledger
  import opened Stream
  import Gate
  import Json
  import Sniff
  import Usage

  const PUMP: nat := 32_768

  /** The client's side: the bytes it has got. */
  class Client {
    var got: Bytes

    constructor ()
      ensures got == []
    {
      got := [];
    }

    /** Write b; a failed write may have delivered a part of it. */
    method Write(b: Bytes) returns (ok: bool)
      modifies this
      ensures ok ==> got == old(got) + b
      ensures old(got) <= got <= old(got) + b
    {
      var n :| 0 <= n <= |b|;
      ok := n == |b|;
      got := got + b[..n];
      assert got == old(got) + b[..n];
    }
  }

  // All of it relayed; the client gone; or the upstream broken off.
  datatype Result = Sent | Gone | Broken

  /** One piece: watched, then written. */
  method Pass(client: Client, saw: Sniff.Window, b: Bytes) returns (ok: bool)
    requires saw.Valid()
    modifies client, saw, saw.buf
    ensures saw.Valid() && saw.fed == old(saw.fed) + b
    ensures ok ==> client.got == old(client.got) + b
    ensures old(client.got) <= client.got <= old(client.got) + b
  {
    saw.Feed(b);
    ok := client.Write(b);
  }

  /** Pass on what comes, a piece at a time, watching it go by. */
  method Pump(client: Client, br: Buffered, saw: Sniff.Window) returns (r: Result)
    requires br.Valid() && saw.Valid()
    modifies client, br`buf, br`err, br.src`rest, saw, saw.buf
    ensures saw.Valid()
    ensures exists seen ::
              && seen <= old(br.Rest()) && saw.fed == old(saw.fed) + seen
              && old(client.got) <= client.got <= old(client.got) + seen
              && (r != Gone ==> seen == old(br.Rest()) && client.got == old(client.got) + seen)
    ensures r == Sent ==> br.src.end == Eof
    ensures r == Broken ==> br.src.end == Stream.Cut
  {
    hide Buffered.Rest, Sniff.Window.Valid, Buffered.Valid;
    ghost var all, got, fed := br.Rest(), client.got, saw.fed;
    ghost var sent: Bytes := [];
    while true
      invariant br.Valid() && saw.Valid()
      invariant all == sent + br.Rest()
      invariant client.got == got + sent && saw.fed == fed + sent
      decreases |br.Rest()|
    {
      ghost var left := |br.Rest()|;
      var b, e := br.Read(PUMP);
      assert left == |b| + |br.Rest()|;
      Shift(sent, b, br.Rest());
      if |b| > 0 {
        var ok := Pass(client, saw, b);
        Shift(got, sent, b);
        Shift(fed, sent, b);
        if !ok {
          Partly(got, sent, b, br.Rest(), client.got);
          return Gone;
        }
        sent := sent + b;
      } else {
        assert sent + b == sent;
      }
      if e.Some? {
        assert sent + [] == sent;
        return if e.value.Eof? then Sent else Broken;
      }
    }
  }

  lemma Shift(a: Bytes, b: Bytes, c: Bytes)
    ensures a + (b + c) == (a + b) + c
  {
  }

  lemma Partly(got: Bytes, sent: Bytes, b: Bytes, rest: Bytes, now: Bytes)
    requires got + sent <= now <= got + sent + b
    ensures got <= now <= got + (sent + b) && sent + b <= sent + b + rest
  {
    assert got + (sent + b) == got + sent + b;
    assert got <= got + sent;
    Between(got, got + sent, now, got + sent + b);
  }

  lemma Between(a: Bytes, b: Bytes, c: Bytes, d: Bytes)
    requires a <= b <= c <= d
    ensures a <= b <= d
  {
  }

  // ---------- one relay ----------

  // A response the gate committed to: its gated bytes, where the rest is read from, its usage if
  // it is known, and the window that watches it.
  class Reply {
    const first: Bytes
    const rest: Buffered
    const stream: bool
    var used: Option<Spend>
    const saw: Sniff.Window

    constructor (first: Bytes, rest: Buffered, stream: bool, used: Option<Spend>)
      ensures this.first == first && this.rest == rest && this.stream == stream && this.used == used
      ensures fresh(saw) && fresh(saw.buf) && saw.Valid() && saw.fed == []
    {
      this.first, this.rest, this.stream, this.used := first, rest, stream, used;
      saw := new Sniff.Window();
    }

    /** What the reply cost: the usage it was committed with, or else what the window says; asking
        again gives the same. */
    method Cost(parse: Bytes -> Option<Spend>) returns (r: Option<Spend>)
      requires saw.Valid()
      modifies this`used
      ensures used == r && r == if old(used) != None then old(used) else Sniff.CountOf(Sniff.Tail(saw.fed, Sniff.WINDOW), parse)
    {
      if used == None {
        used := saw.Count(parse);
      }
      r := used;
    }
  }

  /** Relay a reply: the gated bytes first, then the rest. The client gets a prefix of the whole
      reply, and all of it unless it left; the window sees what follows the gated bytes. */
  method Deliver(client: Client, out: Reply) returns (r: Result)
    requires out.rest.Valid() && out.saw.Valid() && client.got == [] && out.saw.fed == []
    modifies client, out.rest`buf, out.rest`err, out.rest.src`rest, out.saw, out.saw.buf
    ensures out.saw.Valid()
    ensures var all := out.first + (if out.stream then old(out.rest.Rest()) else []);
            && client.got <= out.first + out.saw.fed <= all
            && (r != Gone ==> client.got == all == out.first + out.saw.fed)
            && (r == Broken ==> out.stream && out.rest.src.end == Stream.Cut)
            && (r == Sent && out.stream ==> out.rest.src.end == Eof)
  {
    hide Buffered.Rest, Sniff.Window.Valid, Buffered.Valid;
    assert [] + out.first == out.first;
    var ok := client.Write(out.first);
    if !ok {
      return Gone;
    }
    if !out.stream {
      return Sent;
    }
    assert [] + out.rest.Rest() == out.rest.Rest();
    r := Pump(client, out.rest, out.saw);
  }

  /** A streamed response through the gate and the relay: if the gate commits, the client's bytes
      are always a prefix of the upstream bytes, and all of them, nothing lost, repeated or moved,
      unless the client left; if the gate refuses, the client gets nothing. Whether it commits depends
      only on the upstream bytes, and the usage only on those seen passing: all that follow the gated
      ones unless the client left, and never fewer than it got. */
  method Respond(client: Client, br: Buffered)
    returns (fate: Gate.Fate, r: Result, cost: Option<Spend>, ghost seen: Bytes)
    requires br.Valid() && client.got == []
    modifies client, br`buf, br`err, br.src`rest
    ensures fate == Gate.Decide(old(br.Rest()), br.src.end, Usage.Carries, 0)
    ensures client.got <= old(br.Rest())
    ensures !fate.Commit? ==> client.got == []
    ensures fate.Commit? ==>
              && fate.n <= |old(br.Rest())| && seen <= old(br.Rest())[fate.n..] && client.got <= old(br.Rest())[..fate.n] + seen
              && cost == Sniff.CountOf(Sniff.Tail(seen, Sniff.WINDOW), Usage.SpendIn)
    ensures fate.Commit? && r != Gone ==>
              && client.got == old(br.Rest()) && seen == old(br.Rest())[fate.n..]
              && (r == Broken <==> br.src.end == Stream.Cut)
  {
    hide Buffered.Rest, Sniff.Window.Valid, Buffered.Valid, Gate.Decide, Sniff.CountOf;
    ghost var all := br.Rest();
    r, cost, seen := Gone, None, [];
    var first;
    fate, first := Gate.Open(br, Usage.Carries);
    if !fate.Commit? {
      return;
    }
    assert all[|first|..] == br.Rest();
    var out := new Reply(first, br, true, None);
    r := Deliver(client, out);
    seen := out.saw.fed;
    WholeSplits(all, first, seen);
    cost := out.Cost(Usage.SpendIn);
  }

  lemma WholeSplits(all: Bytes, first: Bytes, seen: Bytes)
    requires |first| <= |all| && first == all[..|first|] && first + seen <= first + all[|first|..]
    ensures seen <= all[|first|..] && first + all[|first|..] == all
    ensures first + seen == first + all[|first|..] ==> seen == all[|first|..]
  {
    assert (first + seen)[|first|..] == seen;
    assert (first + all[|first|..])[|first|..] == all[|first|..];
    assert forall i | 0 <= i < |seen| :: seen[i] == (first + seen)[|first| + i] == (first + all[|first|..])[|first| + i];
  }

  /** A reply that is not streamed: the client gets all of it or nothing, unless it left, and it is
      charged as the reply itself tells. */
  method RespondWhole(client: Client, src: Source)
    returns (ruling: Gate.Ruling, r: Result, cost: Option<Spend>)
    requires client.got == []
    modifies client, src`rest
    ensures ruling == Gate.Rule(old(src.rest), src.end)
    ensures !ruling.Whole? ==> client.got == []
    ensures ruling.Whole? ==> client.got <= old(src.rest) && r != Broken && (r == Sent ==> client.got == old(src.rest))
    ensures ruling.Whole? ==> cost == ruling.used
    ensures client.got != [] ==>
              && |old(src.rest)| <= 67_108_864 && src.end == Eof
              && Json.Parse(old(src.rest)).Some? && !Usage.Carries(old(src.rest))
  {
    hide Gate.Rule, Sniff.CountOf, Json.Parse, Usage.Carries;
    Gate.RuleMeans(src.rest, src.end);
    r, cost := Gone, None;
    var first;
    ruling, first := Gate.OpenWhole(src);
    if !ruling.Whole? {
      return;
    }
    var nobody := new Source([], Eof);
    var rest := new Buffered(nobody, Gate.BUFFER);
    var out := new Reply(first, rest, false, ruling.used);
    r := Deliver(client, out);
    assert first + [] == first;
    Sniff.NothingCounted(Usage.SpendIn);
    cost := out.Cost(Usage.SpendIn);
  }
}
