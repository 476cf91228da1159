// Serving one request: walk the targets of each name until one answers, and answer the client
// once. What upstream, the client and the shared pool answer is arbitrary.

module Proxy {
  import opened Wrappers
  import opened Octets
  import opened Ledger
  import opened World
  import opened Config
  import opened Speed
  import opened Route
  import opened Protocol
  import Body
  import Budget
  import Relay

  datatype Outcome = Busy | Oversized | Malformed | Gone | Served | Truncated | Rejected | Exhausted

  const TOO_LARGE := 413
  const UNAVAILABLE := 503

  // ---------- one attempt ----------

  /** Only asking about usage, upstream calls and the remembered refusal of usage. */
  predicate OnlyCalls(log: Log) {
    forall i | 0 <= i < |log| :: log[i].Asked? || log[i].Called? || log[i].Hushed?
  }

  /** An attempt for a stream begins by asking whether the provider accepts requests for usage, any other
      with a call that does not meter. */
  predicate Opens(e: Happening, stream: bool) {
    if stream then e.Asked? else e.Called? && !e.meter
  }

  /** The first call of an attempt: a stream is metered if the provider accepts it. */
  method First(k: Ref, t: Target, stream: bool) returns (log: Log, f: Option<Failure>, again: bool)
    ensures After(Reserved(k, t.prov, t.model), log)
            == if again then Again(k, t.prov, t.model) else Resolved(k, f)
    ensures OnlyCalls(log) && log != [] && Opens(log[0], stream) && (again ==> stream)
  {
    hide Step;
    var start := Reserved(k, t.prov, t.model);
    f := *;
    if !stream {
      log := [Called(k, t.prov, t.model, false, f)];
      AfterOne(start, log[0]);
      PlainCall(k, t.prov, t.model, f);
      return log, f, false;
    }
    var talks: bool := *;
    var ask, call := Asked(t.prov, talks), Called(k, t.prov, t.model, talks, f);
    AfterOne(start, ask);
    AfterSnoc(start, [ask], call);
    ArmedCall(k, t.prov, t.model, talks, f);
    assert [ask] + [call] == [ask, call];
    return [ask, call], f, talks && f.Some? && f.value.code == BAD_REQUEST;
  }

  lemma PlainCall(k: Ref, prov: string, model: string, f: Option<Failure>)
    ensures Step(Reserved(k, prov, model), Called(k, prov, model, false, f)) == Resolved(k, f)
  {
  }

  lemma ArmedCall(k: Ref, prov: string, model: string, talks: bool, f: Option<Failure>)
    ensures Step(Reserved(k, prov, model), Asked(prov, talks)) == Armed(k, prov, model, talks)
    ensures Step(Armed(k, prov, model, talks), Called(k, prov, model, talks, f))
            == if talks && f.Some? && f.value.code == BAD_REQUEST then Again(k, prov, model) else Resolved(k, f)
  {
  }

  lemma AgainCall(k: Ref, prov: string, model: string, f: Option<Failure>)
    ensures Step(Again(k, prov, model), Called(k, prov, model, false, f)) == if f.None? then Quiet(k, prov) else Resolved(k, f)
    ensures Step(Quiet(k, prov), Hushed(prov)) == Resolved(k, None)
  {
  }

  /** Call upstream, and once more without metering if the metered call got a 400. */
  method Attempt(k: Ref, t: Target, stream: bool) returns (log: Log, f: Option<Failure>)
    ensures After(Reserved(k, t.prov, t.model), log) == Resolved(k, f)
    ensures OnlyCalls(log) && log != [] && Opens(log[0], stream)
  {
    hide Step, After;
    var again;
    log, f, again := First(k, t, stream);
    if again {
      f := *;
      var call := Called(k, t.prov, t.model, false, f);
      AfterSnoc(Reserved(k, t.prov, t.model), log, call);
      AgainCall(k, t.prov, t.model, f);
      log := log + [call];
      if f.None? {
        AfterSnoc(Reserved(k, t.prov, t.model), log, Hushed(t.prov));
        log := log + [Hushed(t.prov)];
      }
    }
  }

  // ---------- one walk ----------

  function Picks(log: Log): Log {
    if log == [] then []
    else Picks(log[..|log| - 1]) + (if log[|log| - 1].Picked? then [log[|log| - 1]] else [])
  }

  lemma {:induction false} PicksConcat(a: Log, b: Log)
    ensures Picks(a + b) == Picks(a) + Picks(b)
  {
    if b == [] {
      assert a + b == a && Picks(a) + [] == Picks(a);
    } else {
      assert (a + b)[..|a + b| - 1] == a + b[..|b| - 1];
      PicksConcat(a, b[..|b| - 1]);
    }
  }

  lemma {:induction false} NoPicks(log: Log)
    requires forall i | 0 <= i < |log| :: !log[i].Picked?
    ensures Picks(log) == []
  {
    if log != [] {
      NoPicks(log[..|log| - 1]);
    }
  }

  /** The picks made for the first n targets: in the order of the targets; for every target, unless
      a key of its provider was got for an earlier one, and never again once it was. */
  ghost predicate Visits(ts: seq<Target>, ps: Log, n: nat) {
    && n <= |ts|
    && (forall a | 0 <= a < |ps| :: ps[a].Picked? && ps[a].i < n && ps[a].prov == ts[ps[a].i].prov && ps[a].model == ts[ps[a].i].model)
    && (forall a, b | 0 <= a < b < |ps| :: ps[a].i < ps[b].i && (ps[a].got.Some? ==> ps[a].prov != ps[b].prov))
    && (forall i | 0 <= i < n :: PickedFor(ps, i) || Tried(ps, ts[i].prov))
  }

  predicate PickedFor(ps: Log, i: nat) {
    exists a :: 0 <= a < |ps| && ps[a].Picked? && ps[a].i == i
  }

  /** A key of this provider was got. */
  predicate Tried(ps: Log, prov: string) {
    exists a :: 0 <= a < |ps| && ps[a].Picked? && ps[a].got.Some? && ps[a].prov == prov
  }

  lemma VisitSkips(ts: seq<Target>, ps: Log, n: nat)
    requires n < |ts| && Visits(ts, ps, n) && Tried(ps, ts[n].prov)
    ensures Visits(ts, ps, n + 1)
  {
  }

  lemma TriedSnoc(ps: Log, p: Happening)
    requires p.Picked?
    ensures forall prov :: Tried(ps + [p], prov) <==> Tried(ps, prov) || (p.got.Some? && prov == p.prov)
    ensures forall i: nat :: PickedFor(ps + [p], i) <==> PickedFor(ps, i) || i == p.i
  {
    var qs := ps + [p];
    assert qs[|ps|] == p;
    forall prov ensures Tried(qs, prov) <==> Tried(ps, prov) || (p.got.Some? && prov == p.prov) {
      if Tried(ps, prov) {
        var a :| 0 <= a < |ps| && ps[a].Picked? && ps[a].got.Some? && ps[a].prov == prov;
        assert qs[a] == ps[a];
      }
    }
    forall i: nat ensures PickedFor(qs, i) <==> PickedFor(ps, i) || i == p.i {
      if PickedFor(ps, i) {
        var a :| 0 <= a < |ps| && ps[a].Picked? && ps[a].i == i;
        assert qs[a] == ps[a];
      }
    }
  }

  lemma VisitPicks(ts: seq<Target>, ps: Log, n: nat, got: Option<Ref>)
    requires n < |ts| && Visits(ts, ps, n) && !Tried(ps, ts[n].prov)
    ensures Visits(ts, ps + [Picked(n, ts[n].prov, ts[n].model, got)], n + 1)
    ensures forall prov :: Tried(ps + [Picked(n, ts[n].prov, ts[n].model, got)], prov)
                           <==> Tried(ps, prov) || (got.Some? && prov == ts[n].prov)
  {
    var p := Picked(n, ts[n].prov, ts[n].model, got);
    TriedSnoc(ps, p);
    var qs := ps + [p];
    forall a | 0 <= a < |ps| ensures qs[a] == ps[a] && ps[a].i < n && (ps[a].got.Some? ==> ps[a].prov != p.prov) {
      assert ps[a].got.Some? ==> Tried(ps, ps[a].prov);
    }
    hide Tried, PickedFor;
    assert qs[|ps|] == p;
  }

  /** Nothing is picked. */
  predicate Pickless(log: Log) {
    forall i | 0 <= i < |log| :: !log[i].Picked?
  }

  /** Record the success, relay the response and charge it; bench the key if the relay broke while
      the client was still there. */
  method Serve(k: Ref) returns (log: Log, out: Outcome)
    ensures Over(After(Resolved(k, None), log)) && Pickless(log) && Lossless(log)
    ensures out in {Served, Gone, Truncated} && Delivered(log, out)
  {
    hide Step;
    var ttft: int := *;
    var s: Option<Spend> := *;
    var r: Relay.Result :| true;
    var left: bool := *;
    var start := Resolved(k, None);
    ServeSteps(k, ttft, s, r, left);
    log := [Won(k, ttft)];
    AfterOne(start, Won(k, ttft));
    AfterSnoc(start, log, Relayed(k, r, left, s));
    log := log + [Relayed(k, r, left, s)];
    AfterSnoc(start, log, Paid(k, s));
    log := log + [Paid(k, s)];
    if r.Sent? {
      out := Served;
    } else if r.Gone? || left {
      out := Gone;
    } else {
      out := Truncated;
      AfterSnoc(start, log, Spoiled(k));
      log := log + [Spoiled(k)];
    }
  }

  lemma ServeSteps(k: Ref, ttft: int, s: Option<Spend>, r: Relay.Result, left: bool)
    ensures Step(Resolved(k, None), Won(k, ttft)) == Recorded(k)
    ensures var sour := r.Broken? && !left;
            && Step(Recorded(k), Relayed(k, r, left, s)) == Sending(k, sour, s)
            && Step(Sending(k, sour, s), Paid(k, s)) == (if sour then Souring(k) else Charged(k))
    ensures Step(Souring(k), Spoiled(k)) == Answered
  {
  }

  /** No attempt fails. */
  predicate Lossless(log: Log) {
    forall i | 0 <= i < |log| :: !log[i].Lost?
  }

  /** How a log that served a response ends: Served when all of it was sent; Gone when the client did
      not take it, or upstream broke off and the client was gone too; Truncated when upstream broke off
      with the client still there, and then the key was benched. */
  predicate Delivered(log: Log, out: Outcome) {
    var n := |log|;
    match out
    case Served => n >= 2 && log[n - 1].Paid? && log[n - 2].Relayed? && log[n - 2].r.Sent?
    case Gone => n >= 2 && log[n - 1].Paid? && log[n - 2].Relayed? && (log[n - 2].r.Gone? || (log[n - 2].r.Broken? && log[n - 2].left))
    case Truncated => n >= 3 && log[n - 1].Spoiled? && log[n - 2].Paid? && log[n - 3].Relayed? && log[n - 3].r.Broken? && !log[n - 3].left
    case _ => false
  }

  /** A key got is followed by the opening of its attempt. */
  predicate Asks(log: Log, stream: bool) {
    forall i | 0 <= i < |log| && log[i].Picked? && log[i].got.Some? :: i + 1 < |log| && Opens(log[i + 1], stream)
  }

  /** A failed attempt is followed by the look at another target, unless it is the last event; and it is
      never so for a status that rejects the request. */
  predicate GoesOn(log: Log) {
    forall i | 0 <= i < |log| - 1 && log[i].Lost? :: log[i].code != 400 && log[i].code != 422 && log[i + 1].Picked?
  }

  lemma AsksConcat(a: Log, b: Log, stream: bool)
    requires Asks(a, stream) && Asks(b, stream)
    ensures Asks(a + b, stream)
  {
    var c := a + b;
    forall i | 0 <= i < |c| && c[i].Picked? && c[i].got.Some? ensures i + 1 < |c| && Opens(c[i + 1], stream) {
      if i < |a| {
        assert a[i] == c[i] && a[i + 1] == c[i + 1];
      } else {
        assert b[i - |a|] == c[i] && b[i - |a| + 1] == c[i + 1];
      }
    }
  }

  /** The last event is a failed attempt the walk can go on after, if it is a failed attempt at all. */
  predicate Continues(log: Log) {
    log != [] && log[|log| - 1].Lost? ==> log[|log| - 1].code != 400 && log[|log| - 1].code != 422
  }

  lemma GoesOnConcat(a: Log, b: Log)
    requires GoesOn(a) && GoesOn(b) && Continues(a) && (b != [] ==> b[0].Picked?)
    ensures GoesOn(a + b)
  {
    var c := a + b;
    forall i | 0 <= i < |c| - 1 && c[i].Lost? ensures c[i].code != 400 && c[i].code != 422 && c[i + 1].Picked? {
      if i < |a| - 1 {
        assert a[i] == c[i] && a[i + 1] == c[i + 1];
      } else if i == |a| - 1 {
        assert a[i] == c[i] && b[0] == c[i + 1];
      } else {
        assert b[i - |a|] == c[i] && b[i - |a| + 1] == c[i + 1];
      }
    }
  }

  /** The events of one target whose key was got: the pick, the attempt, and what came of it. */
  lemma PieceOk(pick: Happening, calls: Log, more: Log, stream: bool)
    requires pick.Picked? && OnlyCalls(calls) && calls != [] && Opens(calls[0], stream) && Pickless(more)
    requires forall i | 0 <= i < |more| - 1 :: !more[i].Lost?
    ensures var c := [pick] + calls + more; Asks(c, stream) && GoesOn(c) && c[0].Picked?
  {
    var c := [pick] + calls + more;
    assert c[0] == pick && c[1] == calls[0];
    forall i | 0 < i < |c| ensures !c[i].Picked? && (i < |c| - 1 ==> !c[i].Lost?) {
      if i <= |calls| {
        assert c[i] == calls[i - 1];
      } else {
        assert c[i] == more[i - 1 - |calls|];
      }
    }
  }

  /** A target whose provider had no free key. */
  lemma MissOk(pick: Happening, stream: bool)
    requires pick.Picked? && pick.got.None?
    ensures Asks([pick], stream) && GoesOn([pick])
  {
  }

  lemma PickedStart(log: Log, i: nat, t: Target, k: Ref)
    requires After(Ready, log) == Ready
    ensures After(Ready, log + [Picked(i, t.prov, t.model, Some(k))]) == Reserved(k, t.prov, t.model)
    ensures Picks(log + [Picked(i, t.prov, t.model, Some(k))]) == Picks(log) + [Picked(i, t.prov, t.model, Some(k))]
  {
    var e := Picked(i, t.prov, t.model, Some(k));
    AfterSnoc(Ready, log, e);
    assert (log + [e])[..|log|] == log;
  }

  lemma PickedNone(log: Log, i: nat, t: Target)
    requires After(Ready, log) == Ready
    ensures After(Ready, log + [Picked(i, t.prov, t.model, None)]) == Ready
    ensures Picks(log + [Picked(i, t.prov, t.model, None)]) == Picks(log) + [Picked(i, t.prov, t.model, None)]
  {
    var e := Picked(i, t.prov, t.model, None);
    AfterSnoc(Ready, log, e);
    assert (log + [e])[..|log|] == log;
  }

  /** Events that pick nothing extend the log without extending its picks. */
  lemma Extend(s: Stage, log: Log, more: Log)
    requires Pickless(more)
    ensures After(s, log + more) == After(After(s, log), more) && Picks(log + more) == Picks(log)
  {
    AfterConcat(s, log, more);
    PicksConcat(log, more);
    NoPicks(more);
    assert Picks(log) + [] == Picks(log);
  }

  /** What walking the targets leaves: an answer given; or the failure the client must be told, which
      upstream answered with 400 or 422, and no other failure is; or neither, every target tried and
      nothing answered. n is the number of targets looked at. */
  ghost predicate Walked(ts: seq<Target>, stream: bool, log: Log, done: bool, f: Option<Failure>, out: Outcome, n: nat) {
    && Visits(ts, Picks(log), n) && Asks(log, stream) && GoesOn(log)
    && (done ==> f.None? && Over(After(Ready, log)) && out in {Served, Gone, Truncated} && log != []
                 && (Delivered(log, out) || (out == Gone && log[|log| - 1].Left?)))
    && (!done && f.Some? ==> After(Ready, log) == Rejecting(f.value.code) && (f.value.code == 400 || f.value.code == 422)
                             && log != [] && log[|log| - 1].Lost? && log[|log| - 1].code == f.value.code)
    && (!done && f.None? ==> After(Ready, log) == Ready && n == |ts| && Continues(log))
  }

  /** Settle a failed attempt: released if the client left, else the key benched. */
  method Settle(k: Ref, f: Failure) returns (log: Log, gone: bool)
    ensures Pickless(log) && log != [] && forall i | 0 <= i < |log| - 1 :: !log[i].Lost?
    ensures gone ==> log == [Dropped(k), Left] && After(Resolved(k, Some(f)), log) == Answered
    ensures !gone ==> log == [Lost(k, f.code, f.retry)]
                      && After(Resolved(k, Some(f)), log) == if f.code == 400 || f.code == 422 then Rejecting(f.code) else Ready
  {
    gone := *;
    var start := Resolved(k, Some(f));
    if gone {
      log := [Dropped(k)];
      AfterOne(start, Dropped(k));
      AfterSnoc(start, log, Left);
      log := log + [Left];
    } else {
      log := [Lost(k, f.code, f.retry)];
      AfterOne(start, log[0]);
    }
  }

  method Walk(ts: seq<Target>, stream: bool) returns (log: Log, done: bool, f: Option<Failure>, out: Outcome, n: nat)
    ensures Walked(ts, stream, log, done, f, out, n)
  {
    hide Visits, After, Picks, Tried, Step, Asks, GoesOn, Opens;
    log, done, f, out, n := [], false, None, Exhausted, 0;
    Nothing(ts, stream);
    var tried: set<string> := {};
    for i := 0 to |ts|
      invariant n == i && After(Ready, log) == Ready
      invariant Visits(ts, Picks(log), n) && Asks(log, stream) && GoesOn(log) && Continues(log)
      invariant forall prov :: prov in tried <==> Tried(Picks(log), prov)
    {
      var t := ts[i];
      n := i + 1;
      if t.prov in tried {
        VisitSkips(ts, Picks(log), i);
        continue;
      }
      var free: bool := *;
      var k: Ref := *;
      var got := if free then Some(k) else None;
      var pick := Picked(i, t.prov, t.model, got);
      VisitPicks(ts, Picks(log), i, got);
      if !free {
        PickedNone(log, i, t);
        MissOk(pick, stream);
        Joins(log, [pick], stream);
        log := log + [pick];
        continue;
      }
      PickedStart(log, i, t, k);
      tried := tried + {t.prov};
      var calls, lost := Attempt(k, t, stream);
      Extend(Ready, log + [pick], calls);
      var more: Log;
      if lost.Some? {
        var gone;
        more, gone := Settle(k, lost.value);
        Extend(Ready, log + [pick] + calls, more);
        PieceOk(pick, calls, more, stream);
        Joins(log, [pick] + calls + more, stream);
        Regroup(log, pick, calls, more);
        log := log + [pick] + calls + more;
        if gone {
          return log, true, None, Gone, n;
        }
        if Mine(lost.value) {
          return log, false, lost, out, n;
        }
        continue;
      }
      var how;
      more, how := Serve(k);
      Extend(Ready, log + [pick] + calls, more);
      PieceOk(pick, calls, more, stream);
      Joins(log, [pick] + calls + more, stream);
      Regroup(log, pick, calls, more);
      DeliveredAfter(log + [pick] + calls, more, how);
      return log + [pick] + calls + more, true, None, how, n;
    }
  }

  lemma Joins(log: Log, piece: Log, stream: bool)
    requires Asks(log, stream) && GoesOn(log) && Continues(log)
    requires Asks(piece, stream) && GoesOn(piece) && piece != [] && piece[0].Picked?
    ensures Asks(log + piece, stream) && GoesOn(log + piece)
  {
    hide Asks, GoesOn;
    AsksConcat(log, piece, stream);
    GoesOnConcat(log, piece);
  }

  lemma Regroup(log: Log, pick: Happening, calls: Log, more: Log)
    ensures log + ([pick] + calls + more) == log + [pick] + calls + more
    ensures more != [] ==> (log + [pick] + calls + more)[|log + [pick] + calls + more| - 1] == more[|more| - 1]
  {
  }

  lemma DeliveredAfter(log: Log, more: Log, out: Outcome)
    requires Delivered(more, out)
    ensures Delivered(log + more, out)
  {
    var all := log + more;
    assert all[|all| - 1] == more[|more| - 1] && all[|all| - 2] == more[|more| - 2];
    assert |more| >= 3 ==> all[|all| - 3] == more[|more| - 3];
  }

  lemma Nothing(ts: seq<Target>, stream: bool)
    ensures After(Ready, []) == Ready && Picks([]) == [] && Visits(ts, [], 0) && Asks([], stream) && GoesOn([])
    ensures forall prov :: !Tried([], prov)
  {
  }

  // ---------- one request ----------

  /** How a log that ended this way ends. */
  predicate Ends(log: Log, out: Outcome) {
    && log != []
    && var e := log[|log| - 1];
       match out
       case Served => Delivered(log, Served)
       case Truncated => Delivered(log, Truncated)
       case Gone => Delivered(log, Gone) || e.Left?
       case Rejected =>
         (e == Refused(400) || e == Refused(422)) && |log| > 1 && log[|log| - 2].Lost? && log[|log| - 2].code == e.code
       case Exhausted => e == Refused(503) && |log| > 1 && log[|log| - 2].Hinted?
       case Busy => log == [Refused(503)]
       case Oversized => log == [Refused(413)]
       case Malformed => log == [Refused(400)]
  }

  /** Walk, and refuse the request if upstream rejected it. */
  method Try(ts: seq<Target>, stream: bool) returns (log: Log, done: bool, out: Outcome, n: nat)
    ensures Visits(ts, Picks(log), n) && Asks(log, stream)
    ensures done ==> Over(After(Ready, log)) && Ends(log, out) && out in {Served, Gone, Truncated, Rejected}
    ensures !done ==> After(Ready, log) == Ready && n == |ts|
  {
    hide Visits, After, Picks, Step, Asks, GoesOn, Delivered;
    var f;
    log, done, f, out, n := Walk(ts, stream);
    if f.Some? {
      AfterOne(Rejecting(f.value.code), Refused(f.value.code));
      Extend(Ready, log, [Refused(f.value.code)]);
      RejectingStep(f.value.code);
      NoneAsked([Refused(f.value.code)], stream);
      AsksConcat(log, [Refused(f.value.code)], stream);
      return log + [Refused(f.value.code)], true, Rejected, n;
    }
  }

  lemma NoneAsked(log: Log, stream: bool)
    requires Pickless(log)
    ensures Asks(log, stream)
  {
  }

  lemma RejectingStep(code: int)
    ensures Step(Rejecting(code), Refused(code)) == Answered
  {
  }

  // One walk: the name, its place among the names, its targets, whether it is the second of this
  // name, what came before it, and what it did.
  datatype Round = Round(name: string, at: nat, ts: seq<Target>, again: bool, before: Log, log: Log, n: nat)

  function Flat(rounds: seq<Round>): Log {
    if rounds == [] then []
    else Flat(rounds[..|rounds| - 1]) + rounds[|rounds| - 1].before + rounds[|rounds| - 1].log
  }

  function Provs(ts: seq<Target>): seq<string> {
    seq(|ts|, i requires 0 <= i < |ts| => ts[i].prov)
  }

  /** The providers of every name walked. */
  function Seen(rounds: seq<Round>): seq<string> {
    if rounds == [] then []
    else
      var r := rounds[|rounds| - 1];
      Seen(rounds[..|rounds| - 1]) + (if r.again then [] else Provs(r.ts))
  }

  /** One round: its name's targets, in some order, visited in that order. */
  ghost predicate RoundOk(c: Config, names: seq<string>, r: Round)
    requires Accepted(c)
  {
    && r.at < |names| && names[r.at] == r.name && multiset(r.ts) == multiset(Targets(c, r.name))
    && Visits(r.ts, Picks(r.log), r.n)
  }

  /** The second walk of the first name, after a nap no longer than the pause, as long as the hint
      for its targets. */
  predicate Rested(first: Round, r: Round, pause: int) {
    && r.name == first.name && r.at == first.at && r.ts == first.ts && |r.before| == 2
    && r.before[0].Hinted? && r.before[0].provs == Provs(first.ts)
    && r.before[1] == Napped(r.before[0].d) && 0 < r.before[0].d <= pause
  }

  /** The hint read after the first walk, when it calls for no nap: there is none, or it is longer than the
      pause. */
  predicate Undue(first: Round, h: Happening, pause: int) {
    h.Hinted? && h.provs == Provs(first.ts) && !(0 < h.d <= pause)
  }

  /** What comes right before the first walk of a name: its targets put in order, and before that, if it is
      the second name walked and the first was walked once, the hint that called for no nap. */
  predicate Preceded(first: Round, r: Round, alone: bool, pause: int) {
    if alone then |r.before| == 2 && Undue(first, r.before[0], pause) && r.before[1] == Ordered(r.name)
    else r.before == [Ordered(r.name)]
  }

  /** The walks of one request: the requested name first, then fallbacks in their order, each name
      once, except that the first is walked again at once, after a nap, exactly when the hint calls for
      it. */
  ghost predicate Itinerary(c: Config, names: seq<string>, pause: int, rounds: seq<Round>)
    requires Accepted(c)
  {
    && (forall a | 0 <= a < |rounds| :: RoundOk(c, names, rounds[a]))
    && (rounds != [] ==> rounds[0].at == 0 && !rounds[0].again)
    && (forall a | 0 <= a < |rounds| && rounds[a].again :: a == 1 && Rested(rounds[0], rounds[a], pause))
    && (forall a | 0 <= a < |rounds| && !rounds[a].again :: Preceded(rounds[0], rounds[a], a == 1, pause))
    && (forall a, b | 0 <= a < b < |rounds| && !rounds[b].again ::
          rounds[a].at < rounds[b].at && rounds[a].name != rounds[b].name)
    && (forall a | 0 <= a < |rounds| - 1 :: rounds[a].n == |rounds[a].ts|)
  }

  /** Two walks of one name are the first two of the request, the second after a nap; so no name is
      walked three times, and no fallback twice. */
  lemma NameTwice(c: Config, names: seq<string>, pause: int, rounds: seq<Round>, a: nat, b: nat)
    requires Accepted(c) && Itinerary(c, names, pause, rounds)
    requires a < b < |rounds| && rounds[a].name == rounds[b].name
    ensures a == 0 && b == 1 && Rested(rounds[0], rounds[1], pause) && rounds[0].name == names[0]
  {
    hide Accepted, Rested;
    assert RoundOk(c, names, rounds[0]);
  }

  /** The name in this place has been walked. */
  predicate WalkedName(rounds: seq<Round>, name: string) {
    exists a :: 0 <= a < |rounds| && rounds[a].name == name
  }

  function AsString(b: Bytes): string {
    seq(|b|, i requires 0 <= i < |b| => b[i] as int as char)
  }

  /** The events between walks extend a ready log. */
  lemma ReadyMore(log: Log, e: Happening)
    requires After(Ready, log) == Ready && (e.Ordered? || e.Hinted? || e.Napped?)
    ensures After(Ready, log + [e]) == Ready
  {
    AfterSnoc(Ready, log, e);
  }

  lemma FlatSnoc(rounds: seq<Round>, r: Round)
    ensures Flat(rounds + [r]) == Flat(rounds) + r.before + r.log
    ensures Seen(rounds + [r]) == Seen(rounds) + (if r.again then [] else Provs(r.ts))
  {
    assert (rounds + [r])[..|rounds|] == rounds;
  }

  /** A further name's round. */
  lemma NextRound(c: Config, names: seq<string>, pause: int, rounds: seq<Round>, r: Round)
    requires Accepted(c) && Itinerary(c, names, pause, rounds) && RoundOk(c, names, r) && !r.again
    requires forall a | 0 <= a < |rounds| :: rounds[a].at < r.at && rounds[a].name != r.name && rounds[a].n == |rounds[a].ts|
    requires rounds == [] ==> r.at == 0
    requires Preceded(if rounds == [] then r else rounds[0], r, |rounds| == 1, pause)
    ensures Itinerary(c, names, pause, rounds + [r])
  {
    hide RoundOk, Accepted, Rested, Preceded;
    var rs := rounds + [r];
    assert rs[|rounds|] == r && forall a | 0 <= a < |rounds| :: rs[a] == rounds[a];
  }

  lemma AgainRound(c: Config, names: seq<string>, pause: int, first: Round, r: Round)
    requires Accepted(c) && Itinerary(c, names, pause, [first]) && RoundOk(c, names, r) && r.again && Rested(first, r, pause)
    requires first.n == |first.ts|
    ensures Itinerary(c, names, pause, [first, r])
  {
    hide RoundOk, Accepted, Rested, Preceded;
    assert [first][0] == first;
  }

  /** The targets in the order the pool put them: some permutation. */
  method Arrange(ts: seq<Target>) returns (r: seq<Target>)
    ensures multiset(r) == multiset(ts)
  {
    r :| multiset(r) == multiset(ts);
  }

  /** Between walks: every name so far walked in vain. */
  ghost predicate SoFar(c: Config, names: seq<string>, pause: int, rounds: seq<Round>, tried: set<string>, log: Log, pending: Log, i: nat)
    requires Accepted(c)
  {
    && i <= |names| && After(Ready, log) == Ready && log == Flat(rounds) + pending
    && Itinerary(c, names, pause, rounds) && (i > 0 ==> rounds != [])
    && (forall a | 0 <= a < |rounds| :: rounds[a].n == |rounds[a].ts| && rounds[a].at < i && rounds[a].name in tried)
    && (forall j | 0 <= j < i :: names[j] in tried) && (forall n | n in tried :: WalkedName(rounds, n))
    && (pending == [] || (|rounds| == 1 && |pending| == 1 && Undue(rounds[0], pending[0], pause)))
  }

  lemma StartsSoFar(c: Config, names: seq<string>, pause: int)
    requires Accepted(c)
    ensures SoFar(c, names, pause, [], {}, [], [], 0) && Seen([]) == []
  {
  }

  lemma SkipName(c: Config, names: seq<string>, pause: int, rounds: seq<Round>, tried: set<string>, log: Log, pending: Log, i: nat)
    requires Accepted(c) && SoFar(c, names, pause, rounds, tried, log, pending, i) && i < |names| && names[i] in tried
    ensures SoFar(c, names, pause, rounds, tried, log, pending, i + 1)
  {
    hide Accepted, Itinerary, Flat, After;
  }

  /** A first walk of a name extends the itinerary; if it was in vain the search goes on. */
  lemma WalkName(c: Config, names: seq<string>, pause: int, rounds: seq<Round>, tried: set<string>, log: Log, pending: Log, i: nat,
                 ts: seq<Target>, more: Log, n: nat)
    requires Accepted(c) && SoFar(c, names, pause, rounds, tried, log, pending, i) && i < |names| && names[i] !in tried
    requires multiset(ts) == multiset(Targets(c, names[i])) && Visits(ts, Picks(more), n)
    requires |rounds| == 1 ==> pending != []
    ensures var r := Round(names[i], i, ts, false, pending + [Ordered(names[i])], more, n);
            var all := log + [Ordered(names[i])] + more;
            && Itinerary(c, names, pause, rounds + [r]) && all == Flat(rounds + [r])
            && After(Ready, all) == After(Ready, more)
            && Seen(rounds + [r]) == Seen(rounds) + Provs(ts)
            && (After(Ready, more) == Ready && n == |ts| ==>
                  SoFar(c, names, pause, rounds + [r], tried + {names[i]}, all, [], i + 1))
  {
    hide Accepted, Visits, Picks, Targets, Flat, Step, Itinerary, WalkedName, Seen, SoFar, After;
    var r := Round(names[i], i, ts, false, pending + [Ordered(names[i])], more, n);
    var all := log + [Ordered(names[i])] + more;
    SoFarLog(c, names, pause, rounds, tried, log, pending, i);
    FlatSnoc(rounds, r);
    ReadyMore(log, Ordered(names[i]));
    AfterConcat(Ready, log + [Ordered(names[i])], more);
    RoundAdded(c, names, pause, rounds, tried, log, pending, i, r);
    assert Flat(rounds) + pending + [Ordered(names[i])] == Flat(rounds) + (pending + [Ordered(names[i])]);
    if After(Ready, more) == Ready && n == |ts| {
      SoFarNext(c, names, pause, rounds, tried, log, pending, i, r, all);
    }
  }

  lemma SoFarLog(c: Config, names: seq<string>, pause: int, rounds: seq<Round>, tried: set<string>, log: Log, pending: Log, i: nat)
    requires Accepted(c) && SoFar(c, names, pause, rounds, tried, log, pending, i)
    ensures After(Ready, log) == Ready && log == Flat(rounds) + pending
  {
    hide Accepted, Itinerary, Flat, After;
  }

  /** The next name's round joins the itinerary. */
  lemma RoundAdded(c: Config, names: seq<string>, pause: int, rounds: seq<Round>, tried: set<string>, log: Log, pending: Log, i: nat, r: Round)
    requires Accepted(c) && SoFar(c, names, pause, rounds, tried, log, pending, i) && i < |names| && names[i] !in tried
    requires RoundOk(c, names, r) && r.name == names[i] && r.at == i && !r.again && r.before == pending + [Ordered(names[i])]
    requires |rounds| == 1 ==> pending != []
    ensures Itinerary(c, names, pause, rounds + [r])
  {
    hide Accepted, RoundOk, Itinerary, Flat, After, WalkedName, Undue;
    assert pending == [] ==> r.before == [Ordered(names[i])];
    NextRound(c, names, pause, rounds, r);
  }

  lemma SoFarNext(c: Config, names: seq<string>, pause: int, rounds: seq<Round>, tried: set<string>, log: Log, pending: Log, i: nat,
                  r: Round, all: Log)
    requires Accepted(c) && SoFar(c, names, pause, rounds, tried, log, pending, i) && i < |names|
    requires Itinerary(c, names, pause, rounds + [r]) && r.name == names[i] && r.at == i && r.n == |r.ts|
    requires After(Ready, all) == Ready && all == Flat(rounds + [r])
    ensures SoFar(c, names, pause, rounds + [r], tried + {names[i]}, all, [], i + 1)
  {
    hide Accepted, Itinerary, Flat, After, WalkedName, Undue;
    WalkedMore(rounds, r);
    assert Flat(rounds + [r]) + [] == Flat(rounds + [r]);
    assert (rounds + [r])[|rounds|] == r && forall a | 0 <= a < |rounds| :: (rounds + [r])[a] == rounds[a];
  }

  lemma WalkedMore(rounds: seq<Round>, r: Round)
    ensures WalkedName(rounds + [r], r.name) && forall n :: WalkedName(rounds, n) ==> WalkedName(rounds + [r], n)
  {
    var rs := rounds + [r];
    assert rs[|rounds|] == r;
    forall n | WalkedName(rounds, n) ensures WalkedName(rs, n) {
      var a :| 0 <= a < |rounds| && rounds[a].name == n;
      assert rs[a].name == n;
    }
  }

  /** What a request that was admitted, read and understood leaves. */
  ghost predicate Finished(c: Config, names: seq<string>, pause: int, log: Log, out: Outcome, rounds: seq<Round>, tail: Log)
    requires Accepted(c)
  {
    && Over(After(Ready, log)) && log == Flat(rounds) + tail && rounds != [] && Itinerary(c, names, pause, rounds)
    && (out in {Served, Truncated, Rejected, Gone, Exhausted})
    && (out in {Served, Truncated, Rejected} ==> tail == [])
    && (out == Gone ==>
          tail == [] || (|tail| == 2 && |rounds| == 1 && tail[0].Hinted? && tail[0].provs == Provs(rounds[0].ts)
                         && 0 < tail[0].d <= pause && tail[1].Left?))
    && (out == Exhausted ==>
          && (forall n | n in names :: WalkedName(rounds, n))
          && (forall a | 0 <= a < |rounds| :: rounds[a].n == |rounds[a].ts|)
          && (if |rounds| == 1 then |tail| == 3 && Undue(rounds[0], tail[0], pause) else |tail| == 2)
          && tail[|tail| - 2].Hinted? && tail[|tail| - 2].provs == Seen(rounds)
          && tail[|tail| - 1] == Refused(UNAVAILABLE))
  }

  /** After the first name's walk and the hint for it: the nap and the second walk. */
  lemma WalkRested(c: Config, names: seq<string>, pause: int, first: Round, tried: set<string>, log: Log, d: int, more: Log, n: nat)
    requires Accepted(c) && SoFar(c, names, pause, [first], tried, log, [], 1) && !first.again && 0 < d <= pause
    requires Visits(first.ts, Picks(more), n)
    ensures var before := [Hinted(Provs(first.ts), d), Napped(d)];
            var r := Round(first.name, first.at, first.ts, true, before, more, n);
            var all := log + before + more;
            && Itinerary(c, names, pause, [first, r]) && all == Flat([first, r])
            && After(Ready, all) == After(Ready, more)
            && Seen([first, r]) == Seen([first])
            && (After(Ready, more) == Ready && n == |first.ts| ==> SoFar(c, names, pause, [first, r], tried, all, [], 1))
  {
    hide Accepted, Visits, Picks, Targets, Flat, Step, Itinerary, WalkedName, Seen, Provs;
    var before := [Hinted(Provs(first.ts), d), Napped(d)];
    var r := Round(first.name, first.at, first.ts, true, before, more, n);
    assert [first] + [r] == [first, r];
    FlatSnoc([first], r);
    ReadyMore(log, before[0]);
    ReadyMore(log + [before[0]], before[1]);
    assert log + [before[0]] + [before[1]] == log + before;
    AfterConcat(Ready, log + before, more);
    FirstOk(c, names, pause, first);
    assert [first][0] == first && first.n == |first.ts|;
    AgainRound(c, names, pause, first, r);
    assert log == Flat([first]);
    assert log + before + more == Flat([first, r]) + [];
    WalkedMore([first], r);
    assert Seen([first]) + [] == Seen([first]);
  }

  lemma FirstOk(c: Config, names: seq<string>, pause: int, first: Round)
    requires Accepted(c) && Itinerary(c, names, pause, [first])
    ensures RoundOk(c, names, first)
  {
    hide RoundOk, Accepted;
    assert [first][0] == first;
  }

  /** The hint was not followed: it only waits to be told with the next round. */
  lemma HintOnly(c: Config, names: seq<string>, pause: int, rounds: seq<Round>, tried: set<string>, log: Log, i: nat, h: Happening)
    requires Accepted(c) && SoFar(c, names, pause, rounds, tried, log, [], i) && |rounds| == 1 && Undue(rounds[0], h, pause)
    ensures SoFar(c, names, pause, rounds, tried, log + [h], [h], i)
  {
    hide Accepted, Itinerary, Flat, WalkedName, After, Step, RoundOk;
    ReadyMore(log, h);
    assert log + [h] == Flat(rounds) + [h];
  }

  /** Leaving during the nap. */
  lemma LeavesResting(c: Config, names: seq<string>, pause: int, first: Round, tried: set<string>, log: Log, h: Happening)
    requires Accepted(c) && SoFar(c, names, pause, [first], tried, log, [], 1)
    requires h.Hinted? && h.provs == Provs(first.ts) && 0 < h.d <= pause
    ensures Finished(c, names, pause, log + [h, Left], Gone, [first], [h, Left])
    ensures Ends(log + [h, Left], Gone)
  {
    hide Accepted, Itinerary, Flat, WalkedName, Seen, After, Step, RoundOk;
    ReadyMore(log, h);
    AfterSnoc(Ready, log + [h], Left);
    ReadyEnds(UNAVAILABLE);
    assert log + [h] + [Left] == log + [h, Left];
  }

  lemma ReadyEnds(code: int)
    ensures Step(Ready, Left) == Answered && Step(Ready, Refused(code)) == Answered
  {
  }

  lemma SoFarAll(c: Config, names: seq<string>, pause: int, rounds: seq<Round>, tried: set<string>, log: Log, pending: Log)
    requires Accepted(c) && SoFar(c, names, pause, rounds, tried, log, pending, |names|) && names != []
    ensures rounds != [] && Itinerary(c, names, pause, rounds) && log == Flat(rounds) + pending
    ensures forall n | n in names :: WalkedName(rounds, n)
    ensures forall a | 0 <= a < |rounds| :: rounds[a].n == |rounds[a].ts|
  {
    hide Accepted, Itinerary, Flat, WalkedName, Seen, After;
  }

  /** Every name walked in vain. */
  lemma Exhausts(c: Config, names: seq<string>, pause: int, rounds: seq<Round>, tried: set<string>, log: Log, pending: Log, wait: int)
    requires Accepted(c) && SoFar(c, names, pause, rounds, tried, log, pending, |names|) && names != []
    requires |rounds| == 1 ==> pending != []
    ensures var end := [Hinted(Seen(rounds), wait), Refused(UNAVAILABLE)];
            Finished(c, names, pause, log + end, Exhausted, rounds, pending + end) && Ends(log + end, Exhausted)
  {
    hide Accepted, Itinerary, Flat, WalkedName, Seen, After, Step, Undue, Delivered, SoFar;
    var h := Hinted(Seen(rounds), wait);
    var end := [h, Refused(UNAVAILABLE)];
    SoFarLog(c, names, pause, rounds, tried, log, pending, |names|);
    SoFarAll(c, names, pause, rounds, tried, log, pending);
    Pending(c, names, pause, rounds, tried, log, pending, |names|);
    ReadyMore(log, h);
    AfterSnoc(Ready, log + [h], Refused(UNAVAILABLE));
    ReadyEnds(UNAVAILABLE);
    EndJoins(log, h, Refused(UNAVAILABLE), Flat(rounds), pending);
  }

  lemma Pending(c: Config, names: seq<string>, pause: int, rounds: seq<Round>, tried: set<string>, log: Log, pending: Log, i: nat)
    requires Accepted(c) && SoFar(c, names, pause, rounds, tried, log, pending, i)
    ensures pending == [] || (|rounds| == 1 && |pending| == 1 && Undue(rounds[0], pending[0], pause))
  {
    hide Accepted, Itinerary, Flat, After, Undue;
  }

  lemma EndJoins(log: Log, h: Happening, e: Happening, flat: Log, pending: Log)
    requires log == flat + pending
    ensures log + [h] + [e] == log + [h, e] == flat + (pending + [h, e])
    ensures var all := log + [h, e]; all[|all| - 1] == e && all[|all| - 2] == h
    ensures var tail := pending + [h, e]; tail[|tail| - 1] == e && tail[|tail| - 2] == h && (|pending| == 1 ==> tail[0] == pending[0])
  {
  }

  /** A walk that answered. */
  lemma Finishes(c: Config, names: seq<string>, pause: int, log: Log, more: Log, out: Outcome, rounds: seq<Round>)
    requires Accepted(c) && Itinerary(c, names, pause, rounds) && rounds != [] && log + more == Flat(rounds)
    requires After(Ready, log + more) == After(Ready, more) && Over(After(Ready, more)) && Ends(more, out)
    requires out in {Served, Gone, Truncated, Rejected}
    ensures Finished(c, names, pause, log + more, out, rounds, []) && Ends(log + more, out)
  {
    hide Accepted, Itinerary, Flat, After, Delivered;
    var all := log + more;
    if Delivered(more, out) {
      DeliveredAfter(log, more, out);
    }
    assert all[|all| - 1] == more[|more| - 1];
    assert |more| > 1 ==> all[|all| - 2] == more[|more| - 2];
    assert all == Flat(rounds) + [];
  }

  lemma AsksMore(log: Log, between: Log, more: Log, stream: bool)
    requires Asks(log, stream) && Pickless(between) && Asks(more, stream)
    ensures Asks(log + between + more, stream) && Asks(log + between, stream)
  {
    hide Asks;
    NoneAsked(between, stream);
    AsksConcat(log, between, stream);
    AsksConcat(log + between, more, stream);
  }

  /** Walk the requested name, perhaps again after a nap, then the fallbacks, until an answer. */
  method Failover(name: string, stream: bool, c: Config, pause: int)
    returns (log: Log, out: Outcome, rounds: seq<Round>, tail: Log)
    requires Accepted(c)
    ensures Finished(c, [name] + c.fallback, pause, log, out, rounds, tail) && Ends(log, out) && Asks(log, stream)
  {
    hide Accepted, Visits, Picks, After, Targets, Flat, Step, Itinerary, WalkedName, Seen, SoFar, Ends, Finished, Over, Asks;
    var names := [name] + c.fallback;
    var tried: set<string> := {};
    var pending: Log := [];
    log, rounds := [], [];
    var seen: seq<string> := [];
    StartsSoFar(c, names, pause);
    NoneAsked([], stream);
    for i := 0 to |names|
      invariant SoFar(c, names, pause, rounds, tried, log, pending, i) && seen == Seen(rounds)
      invariant Asks(log, stream) && (|rounds| == 1 ==> pending != []) && (i > 0 ==> rounds != [])
      invariant i == 0 ==> rounds == [] && pending == [] && log == [] && tried == {}
    {
      if names[i] in tried {
        SkipName(c, names, pause, rounds, tried, log, pending, i);
        continue;
      }
      var ts := Arrange(Targets(c, names[i]));
      seen := seen + Provs(ts);
      var more, done, how, n := Try(ts, stream);
      WalkName(c, names, pause, rounds, tried, log, pending, i, ts, more, n);
      AsksMore(log, [Ordered(names[i])], more, stream);
      var r := Round(names[i], i, ts, false, pending + [Ordered(names[i])], more, n);
      tried, rounds := tried + {names[i]}, rounds + [r];
      if done {
        Finishes(c, names, pause, log + [Ordered(names[i])], more, how, rounds);
        return log + [Ordered(names[i])] + more, how, rounds, [];
      }
      log, pending := log + [Ordered(names[i])] + more, [];
      if i == 0 {
        assert rounds == [r];
        var d: int := *;
        var h := Hinted(Provs(ts), d);
        if 0 < d <= pause {
          var woke: bool := *;
          if !woke {
            LeavesResting(c, names, pause, r, tried, log, h);
            AsksMore(log, [h, Left], [], stream);
            return log + [h, Left], Gone, rounds, [h, Left];
          }
          more, done, how, n := Try(ts, stream);
          WalkRested(c, names, pause, r, tried, log, d, more, n);
          AsksMore(log, [h, Napped(d)], more, stream);
          rounds := [r, Round(r.name, r.at, r.ts, true, [h, Napped(d)], more, n)];
          if done {
            Finishes(c, names, pause, log + [h, Napped(d)], more, how, rounds);
            return log + [h, Napped(d)] + more, how, rounds, [];
          }
          log := log + [h, Napped(d)] + more;
        } else {
          HintOnly(c, names, pause, rounds, tried, log, i + 1, h);
          AsksMore(log, [h], [], stream);
          log, pending := log + [h], [h];
        }
      }
    }
    var wait: int := *;
    Exhausts(c, names, pause, rounds, tried, log, pending, wait);
    var end := [Hinted(seen, wait), Refused(UNAVAILABLE)];
    AsksMore(log, end, [], stream);
    return log + end, Exhausted, rounds, pending + end;
  }

  /** Answer a request that was admitted. */
  method Respond(body: Option<Bytes>, c: Config, pause: int)
    returns (log: Log, out: Outcome, rounds: seq<Round>, tail: Log)
    requires Accepted(c)
    ensures Over(After(Ready, log)) && Ends(log, out) && out != Busy
    ensures out == Oversized <==> body.None?
    ensures out == Malformed <==> body.Some? && (Body.ReadBody(body.value).None? || Body.ReadBody(body.value).value.want.model == [])
    ensures out != Oversized && out != Malformed ==>
              Finished(c, [AsString(Body.ReadBody(body.value).value.want.model)] + c.fallback, pause, log, out, rounds, tail)
              && Asks(log, Body.ReadBody(body.value).value.want.stream)
  {
    hide Accepted, Flat, Itinerary, WalkedName, Seen, Body.ReadBody, Asks, Delivered;
    rounds, tail := [], [];
    RefusedAtOnce();
    if body.None? {
      return [Refused(TOO_LARGE)], Oversized, [], [];
    }
    var pl := Body.ReadBody(body.value);
    if pl.None? {
      return [Refused(BAD_REQUEST)], Malformed, [], [];
    }
    if |pl.value.want.model| == 0 {
      return [Refused(BAD_REQUEST)], Malformed, [], [];
    }
    log, out, rounds, tail := Failover(AsString(pl.value.want.model), pl.value.want.stream, c, pause);
  }

  lemma RefusedAtOnce()
    ensures forall code :: After(Ready, [Refused(code)]) == Answered
  {
    forall code ensures After(Ready, [Refused(code)]) == Answered {
      AfterOne(Ready, Refused(code));
    }
  }

  /** One request from admission to the release of its room. loads are what the admission loop sees
      held. lives are the stages its room went through: it is given back once the request is over,
      exactly if it was taken. */
  method Dispatch(length: int, loads: seq<int>, body: Option<Bytes>, c: Config, pause: int)
    returns (log: Log, out: Outcome, rounds: seq<Round>, tail: Log, lives: seq<Budget.Stage>)
    requires Accepted(c) && loads != []
    ensures Over(After(Ready, log)) && Ends(log, out)
    ensures out == Busy <==> exists i :: 0 <= i < |loads| && loads[i] + Budget.Room(length) > Budget.HOLD
    ensures out == Oversized <==> out != Busy && body.None?
    ensures out == Malformed <==>
              out != Busy && body.Some? && (Body.ReadBody(body.value).None? || Body.ReadBody(body.value).value.want.model == [])
    ensures out !in {Busy, Oversized, Malformed} ==>
              Finished(c, [AsString(Body.ReadBody(body.value).value.want.model)] + c.fallback, pause, log, out, rounds, tail)
              && Asks(log, Body.ReadBody(body.value).value.want.stream)
    ensures Budget.Path(lives) && lives[0] == Budget.Asking(Budget.Room(length))
    ensures var last := lives[|lives| - 1]; if out == Busy then last.Refused? else last.Released?
  {
    hide Accepted, Finished, Body.ReadBody, Budget.Path, Asks, Delivered;
    rounds, tail := [], [];
    var room := if length < 0 || length > Budget.MAX_BODY then Budget.MAX_BODY else length;
    var ok;
    ok, lives := Budget.Admit(room, loads);
    LivesShape(lives);
    if !ok {
      RefusedAtOnce();
      return [Refused(UNAVAILABLE)], Busy, [], [], lives;
    }
    log, out, rounds, tail := Respond(body, c, pause);
    Budget.PathOn(lives, Budget.Released);
    lives := lives + [Budget.Released];
  }

  lemma LivesShape(lives: seq<Budget.Stage>)
    requires Budget.Path(lives)
    ensures lives != []
  {
  }
}
