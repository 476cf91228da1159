// The failover protocol as an automaton: what one request may do, event by event, and what every
// request that follows it to the end has done.

module Protocol {
  import opened Wrappers
  import opened Ledger
  import opened World
  import opened History
  import opened Runs
  import Relay
  import Retry

  datatype Failure = Failed(code: int, retry: int)

  /** The upstream rejected the caller's request itself. */
  predicate Mine(f: Failure) {
    f.code == 400 || f.code == 422
  }

  const BAD_REQUEST := 400

  datatype Happening =
    | Ordered(name: string)                     // a name's targets put in order
    | Hinted(provs: seq<string>, d: int)        // the retry hint read for these providers
    | Napped(d: int)
    | Picked(i: nat, prov: string, model: string, got: Option<Ref>)
    | Asked(prov: string, talks: bool)          // whether the provider accepts requests for usage
    | Called(k: Ref, prov: string, model: string, meter: bool, f: Option<Failure>)
    | Hushed(prov: string)
    | Lost(k: Ref, code: int, retry: int)       // fail
    | Dropped(k: Ref)                           // done
    | Won(k: Ref, ttft: int)                    // ok
    // The response sent: how it went, whether the client is gone, and what the reply cost.
    | Relayed(k: Ref, r: Relay.Result, left: bool, cost: Option<Spend>)
    | Paid(k: Ref, s: Option<Spend>)            // charge
    | Spoiled(k: Ref)                           // sour
    | Refused(code: int)                        // an error sent to the client
    | Left                                      // nothing sent: the client is gone

  datatype Stage =
    | Ready
    | Reserved(k: Ref, prov: string, model: string)
    | Armed(k: Ref, prov: string, model: string, talks: bool)    // a stream that asked about usage
    | Again(k: Ref, prov: string, model: string)       // a metered call got a 400
    | Quiet(k: Ref, prov: string)                      // the unmetered one was accepted
    | Resolved(k: Ref, f: Option<Failure>)
    | Recorded(k: Ref)                                 // a success recorded, nothing sent
    | Sending(k: Ref, sour: bool, cost: Option<Spend>)
    | Souring(k: Ref)                                  // charged; the relay broke with the client still there
    | Charged(k: Ref)
    | Rejecting(code: int)
    | Leaving
    | Answered
    | Broken

  function Step(s: Stage, e: Happening): Stage {
    match (s, e)
    case (Ready, Ordered(_)) => Ready
    case (Ready, Hinted(_, _)) => Ready
    case (Ready, Napped(_)) => Ready
    case (Ready, Picked(_, prov, model, k)) => if k.Some? then Reserved(k.value, prov, model) else Ready
    case (Ready, Refused(_)) => Answered
    case (Ready, Left) => Answered
    case (Reserved(k, prov, model), Asked(p, talks)) => if p == prov then Armed(k, prov, model, talks) else Broken
    case (Reserved(k, prov, model), Called(j, p, m, meter, f)) =>
      if j != k || p != prov || m != model || meter then Broken else Resolved(k, f)
    case (Armed(k, prov, model, talks), Called(j, p, m, meter, f)) =>
      if j != k || p != prov || m != model || meter != talks then Broken
      else if meter && f.Some? && f.value.code == BAD_REQUEST then Again(k, prov, model)
      else Resolved(k, f)
    case (Again(k, prov, model), Called(j, p, m, meter, f)) =>
      if j != k || p != prov || m != model || meter then Broken
      else if f.None? then Quiet(k, prov)
      else Resolved(k, f)
    case (Quiet(k, prov), Hushed(p)) => if p == prov then Resolved(k, None) else Broken
    case (Resolved(k, Some(f)), Lost(j, code, retry)) =>
      if j != k || code != f.code || retry != f.retry then Broken
      else if Mine(f) then Rejecting(code) else Ready
    case (Resolved(k, Some(_)), Dropped(j)) => if j == k then Leaving else Broken
    case (Resolved(k, None), Won(j, _)) => if j == k then Recorded(k) else Broken
    case (Recorded(k), Relayed(j, r, left, cost)) => if j == k then Sending(k, r.Broken? && !left, cost) else Broken
    case (Sending(k, sour, cost), Paid(j, s)) =>
      if j != k || s != cost then Broken else if sour then Souring(k) else Charged(k)
    case (Souring(k), Spoiled(j)) => if j == k then Answered else Broken
    case (Rejecting(code), Refused(c)) => if c == code then Answered else Broken
    case (Leaving, Left) => Answered
    case _ => Broken
  }

  type Log = seq<Happening>

  function After(s: Stage, log: Log): Stage {
    if log == [] then s else Step(After(s, log[..|log| - 1]), log[|log| - 1])
  }

  /** A request may end here. */
  predicate Over(s: Stage) {
    s.Answered? || s.Charged?
  }

  lemma {:induction false} AfterConcat(s: Stage, a: Log, b: Log)
    ensures After(s, a + b) == After(After(s, a), b)
  {
    if b == [] {
      assert a + b == a;
    } else {
      assert (a + b)[..|a + b| - 1] == a + b[..|b| - 1];
      AfterConcat(s, a, b[..|b| - 1]);
    }
  }

  lemma AfterOne(s: Stage, e: Happening)
    ensures After(s, [e]) == Step(s, e)
  {
    assert [e][..0] == [];
    assert After(s, []) == s;
  }

  lemma AfterSnoc(s: Stage, log: Log, e: Happening)
    ensures After(s, log + [e]) == Step(After(s, log), e)
  {
    assert (log + [e])[..|log|] == log;
  }

  // ---------- what a followed protocol implies ----------

  predicate Answers(e: Happening) {
    e.Relayed? || e.Refused? || e.Left?
  }

  function AnswerCount(log: Log): nat {
    if log == [] then 0 else AnswerCount(log[..|log| - 1]) + (if Answers(log[|log| - 1]) then 1 else 0)
  }

  predicate AnsweredStage(s: Stage) {
    s.Sending? || s.Souring? || s.Charged? || s.Answered?
  }

  /** After an answer come only the charge and the benching of a broken relay. */
  ghost predicate QuietAfter(log: Log) {
    forall i, j | 0 <= i < j < |log| && Answers(log[i]) :: log[j].Paid? || log[j].Spoiled?
  }

  /** A request that follows the protocol to the end gives exactly one answer: one relayed response,
      one refusal, or nothing because the client left; and after it no key is picked, nothing is
      sent upstream and nothing else is answered. */
  lemma {:induction false} OneAnswer(log: Log)
    requires !After(Ready, log).Broken?
    ensures AnswerCount(log) == if AnsweredStage(After(Ready, log)) then 1 else 0
    ensures QuietAfter(log)
  {
    if log != [] {
      var init, e := log[..|log| - 1], log[|log| - 1];
      OneAnswer(init);
      forall i, j | 0 <= i < j < |log| && Answers(log[i]) ensures log[j].Paid? || log[j].Spoiled? {
        if j == |log| - 1 {
          assert init[i] == log[i];
          SomeAnswer(init, i);
        } else {
          assert init[i] == log[i] && init[j] == log[j];
        }
      }
    }
  }

  lemma {:induction false} SomeAnswer(log: Log, i: nat)
    requires i < |log| && Answers(log[i])
    ensures AnswerCount(log) > 0
  {
    if i < |log| - 1 {
      SomeAnswer(log[..|log| - 1], i);
    }
  }

  /** Reservations taken on k, less those given back. */
  function Owed(log: Log, k: Ref): int {
    if log == [] then 0
    else
      var e := log[|log| - 1];
      Owed(log[..|log| - 1], k)
      + (if e.Picked? && e.got == Some(k) then 1 else 0)
      - (if (e.Lost? || e.Dropped? || e.Won?) && e.k == k then 1 else 0)
  }

  predicate Holds(s: Stage, k: Ref) {
    (s.Reserved? || s.Armed? || s.Again? || s.Quiet? || s.Resolved?) && s.k == k
  }

  /** Every pick is given back exactly once, through a success, a failure or a release, before
      another is made; at the end nothing is owed on any key. */
  lemma {:induction false} NothingOwed(log: Log, k: Ref)
    requires !After(Ready, log).Broken?
    ensures Owed(log, k) == if Holds(After(Ready, log), k) then 1 else 0
  {
    if log != [] {
      NothingOwed(log[..|log| - 1], k);
    }
  }

  function Attempts(log: Log): nat {
    if log == [] then 0
    else Attempts(log[..|log| - 1]) + (if log[|log| - 1].Picked? && log[|log| - 1].got.Some? then 1 else 0)
  }

  function Calls(log: Log): nat {
    if log == [] then 0 else Calls(log[..|log| - 1]) + (if log[|log| - 1].Called? then 1 else 0)
  }

  /** Each attempt makes one upstream call, or two. */
  lemma {:induction false} FewCalls(log: Log)
    requires !After(Ready, log).Broken?
    ensures var s := After(Ready, log);
            var open := if s.Reserved? || s.Armed? then 1 else 0;
            Attempts(log) - open <= Calls(log) <= 2 * (Attempts(log) - open) - (if s.Again? then 1 else 0)
  {
    if log != [] {
      FewCalls(log[..|log| - 1]);
    }
  }

  /** A second call is made only after a metered one got a 400, to the same provider for the same
      model with the same key, and is not metered. */
  lemma {:induction false} SecondCall(log: Log, i: nat)
    requires !After(Ready, log).Broken? && i + 1 < |log| && log[i].Called? && log[i + 1].Called?
    ensures var a, b := log[i], log[i + 1];
            && a.meter && a.f.Some? && a.f.value.code == 400 && !b.meter
            && a.k == b.k && a.prov == b.prov && a.model == b.model
    decreases |log|
  {
    var init := log[..|log| - 1];
    StillGood(log);
    if i + 2 < |log| {
      assert init[i] == log[i] && init[i + 1] == log[i + 1];
      SecondCall(init, i);
    } else {
      StillGood(init);
      assert init[|init| - 1] == log[i];
    }
  }

  /** Only a provider that was asked just before and accepts is called with metering. */
  lemma MeterAsked(log: Log, i: nat)
    requires !After(Ready, log).Broken? && i < |log| && log[i].Called? && log[i].meter
    ensures i > 0 && log[i - 1] == Asked(log[i].prov, true)
    decreases |log|
  {
    hide Step;
    var init := log[..|log| - 1];
    StillGood(log);
    if i < |log| - 1 {
      assert init[i] == log[i] && (i > 0 ==> init[i - 1] == log[i - 1]);
      MeterAsked(init, i);
    } else {
      MeterArmed(After(Ready, init), log[i]);
      assert init != [];
      ArmedAsked(After(Ready, init[..i - 1]), init[i - 1]);
    }
  }

  lemma MeterArmed(s: Stage, e: Happening)
    requires !Step(s, e).Broken? && e.Called? && e.meter
    ensures s.Armed? && s.prov == e.prov && s.talks
  {
  }

  lemma ArmedAsked(s: Stage, e: Happening)
    requires Step(s, e).Armed?
    ensures e == Asked(Step(s, e).prov, Step(s, e).talks)
  {
  }

  // ---------- how a request ends ----------

  lemma {:induction false} BrokenStays(log: Log)
    ensures After(Broken, log) == Broken
  {
    if log != [] {
      BrokenStays(log[..|log| - 1]);
    }
  }

  /** The first events, the next one, and the rest. */
  lemma Cut(log: Log, i: nat)
    requires !After(Ready, log).Broken? && i < |log|
    ensures var s := Step(After(Ready, log[..i]), log[i]);
            !s.Broken? && After(Ready, log[..i + 1]) == s && After(Ready, log) == After(s, log[i + 1..])
  {
    hide Step, After;
    var a, b := log[..i + 1], log[i + 1..];
    assert a == log[..i] + [log[i]] && log == a + b;
    AfterSnoc(Ready, log[..i], log[i]);
    AfterConcat(Ready, a, b);
    BrokenStays(b);
  }

  /** One event at a time from the front. */
  lemma AfterFirst(s: Stage, log: Log)
    requires log != [] && !After(s, log).Broken?
    ensures !Step(s, log[0]).Broken? && After(s, log) == After(Step(s, log[0]), log[1..])
  {
    hide Step, After;
    assert log == [log[0]] + log[1..];
    AfterConcat(s, [log[0]], log[1..]);
    AfterOne(s, log[0]);
    BrokenStays(log[1..]);
  }

  /** Nothing follows these stages. */
  lemma Final(s: Stage, log: Log)
    requires (s.Answered? || s.Charged?) && !After(s, log).Broken?
    ensures log == []
  {
    if log != [] {
      AfterFirst(s, log);
    }
  }

  lemma LostFrom(s: Stage, e: Happening)
    requires e.Lost? && !Step(s, e).Broken?
    ensures Step(s, e) == if e.code == 400 || e.code == 422 then Rejecting(e.code) else Ready
  {
  }

  lemma FromRejecting(code: int, log: Log)
    requires !After(Rejecting(code), log).Broken?
    ensures log == [] || log == [Refused(code)]
    ensures log == [] <==> After(Rejecting(code), log) == Rejecting(code)
  {
    if log != [] {
      AfterFirst(Rejecting(code), log);
      Final(Answered, log[1..]);
      assert log == [log[0]];
      AfterOne(Rejecting(code), log[0]);
    }
  }

  /** An attempt that upstream answered with 400 or 422 is the request's last: all that can follow is
      the refusal with that code, and a request that is over has it. After any other failed attempt
      the request goes on. */
  lemma RejectedLast(log: Log, i: nat)
    requires !After(Ready, log).Broken? && i < |log| && log[i].Lost?
    ensures log[i].code == 400 || log[i].code == 422 ==>
              (i == |log| - 1 || (i == |log| - 2 && log[i + 1] == Refused(log[i].code)))
              && (Over(After(Ready, log)) ==> i == |log| - 2)
    ensures log[i].code != 400 && log[i].code != 422 ==> After(Ready, log[..i + 1]) == Ready
  {
    hide Step, After;
    Cut(log, i);
    LostFrom(After(Ready, log[..i]), log[i]);
    if log[i].code == 400 || log[i].code == 422 {
      FromRejecting(log[i].code, log[i + 1..]);
      assert i + 1 < |log| ==> log[i + 1..][0] == log[i + 1];
    }
  }

  lemma MeteredFrom(s: Stage, e: Happening)
    requires e.Called? && e.meter && e.f.Some? && e.f.value.code == 400 && !Step(s, e).Broken?
    ensures Step(s, e) == Again(e.k, e.prov, e.model)
  {
  }

  lemma AgainStep(k: Ref, prov: string, model: string, e: Happening)
    requires !Step(Again(k, prov, model), e).Broken?
    ensures e.Called? && e == Called(k, prov, model, false, e.f)
    ensures Step(Again(k, prov, model), e) == if e.f.None? then Quiet(k, prov) else Resolved(k, e.f)
  {
  }

  lemma QuietStep(k: Ref, prov: string, e: Happening)
    requires !Step(Quiet(k, prov), e).Broken?
    ensures e == Hushed(prov)
  {
  }

  /** A metered call that got a 400 is made once more without metering; and if that succeeds, the
      provider is remembered as one that refuses requests for usage. */
  lemma MeteredAgain(log: Log, i: nat)
    requires !After(Ready, log).Broken? && i < |log|
    requires log[i].Called? && log[i].meter && log[i].f.Some? && log[i].f.value.code == 400
    ensures Over(After(Ready, log)) ==> i + 2 < |log|
    ensures i + 1 < |log| ==> log[i + 1].Called? && log[i + 1] == Called(log[i].k, log[i].prov, log[i].model, false, log[i + 1].f)
    ensures i + 2 < |log| && log[i + 1].f.None? ==> log[i + 2] == Hushed(log[i].prov)
  {
    hide Step, After;
    Cut(log, i);
    MeteredFrom(After(Ready, log[..i]), log[i]);
    if i + 1 < |log| {
      Cut(log, i + 1);
      AgainStep(log[i].k, log[i].prov, log[i].model, log[i + 1]);
      if i + 2 < |log| {
        Cut(log, i + 2);
        if log[i + 1].f.None? {
          QuietStep(log[i].k, log[i].prov, log[i + 2]);
        }
      } else {
        assert log[..i + 2] == log;
      }
    } else {
      assert log[..i + 1] == log;
    }
  }

  lemma HushedFrom(s: Stage, e: Happening)
    requires e.Hushed? && !Step(s, e).Broken?
    ensures s.Quiet? && s.prov == e.prov
  {
  }

  lemma QuietBy(s: Stage, e: Happening)
    requires Step(s, e).Quiet?
    ensures s.Again? && s.prov == Step(s, e).prov && e.Called? && e.f.None?
  {
  }

  lemma AgainBy(s: Stage, e: Happening)
    requires Step(s, e).Again?
    ensures e.Called? && e.meter && e.prov == Step(s, e).prov && e.f.Some? && e.f.value.code == 400
  {
  }

  /** And nothing else makes a provider be remembered so. */
  lemma HushedOnly(log: Log, i: nat)
    requires !After(Ready, log).Broken? && i < |log| && log[i].Hushed?
    ensures i >= 2 && log[i - 1].Called? && log[i - 1].f.None?
    ensures log[i - 2].Called? && log[i - 2].meter && log[i - 2].prov == log[i].prov
    ensures log[i - 2].f.Some? && log[i - 2].f.value.code == 400
  {
    hide Step, After;
    Cut(log, i);
    HushedFrom(After(Ready, log[..i]), log[i]);
    AfterNothing();
    assert i > 0;
    Back(log, i);
    QuietBy(After(Ready, log[..i - 1]), log[i - 1]);
    assert i > 1;
    Back(log, i - 1);
    AgainBy(After(Ready, log[..i - 2]), log[i - 2]);
  }

  lemma ResolvedFrom(s: Stage, e: Happening)
    requires e.Lost? && !Step(s, e).Broken?
    ensures s == Resolved(e.k, Some(Failed(e.code, e.retry)))
  {
  }

  lemma FailureBy(s: Stage, e: Happening)
    requires Step(s, e).Resolved? && Step(s, e).f.Some?
    ensures e.Called? && e.k == Step(s, e).k && e.f == Step(s, e).f
  {
  }

  /** A failure is told to the pool as upstream answered it: the status, and how long to wait, of the call
      just before, with the same key. */
  lemma LostAnswers(log: Log, i: nat)
    requires !After(Ready, log).Broken? && i < |log| && log[i].Lost?
    ensures i > 0 && log[i - 1].Called? && log[i - 1].k == log[i].k
    ensures log[i - 1].f == Some(Failed(log[i].code, log[i].retry))
  {
    hide Step, After;
    Cut(log, i);
    ResolvedFrom(After(Ready, log[..i]), log[i]);
    AfterNothing();
    assert i > 0;
    Back(log, i);
    FailureBy(After(Ready, log[..i - 1]), log[i - 1]);
  }

  lemma RelayedFrom(s: Stage, e: Happening)
    requires e.Relayed? && !Step(s, e).Broken?
    ensures s == Recorded(e.k) && Step(s, e) == Sending(e.k, e.r.Broken? && !e.left, e.cost)
  {
  }

  lemma RecordedBy(s: Stage, e: Happening)
    requires Step(s, e).Recorded?
    ensures e.Won? && e.k == Step(s, e).k && s == Resolved(e.k, None)
  {
  }

  lemma ResolvedBy(s: Stage, e: Happening)
    requires Step(s, e).Resolved? && Step(s, e).f.None?
    ensures (e.Called? && e.k == Step(s, e).k && e.f.None?) || e.Hushed?
  {
  }

  lemma SendingStep(k: Ref, sour: bool, cost: Option<Spend>, e: Happening)
    requires !Step(Sending(k, sour, cost), e).Broken?
    ensures e == Paid(k, cost) && Step(Sending(k, sour, cost), e) == if sour then Souring(k) else Charged(k)
  {
  }

  lemma SouringStep(k: Ref, e: Happening)
    requires !Step(Souring(k), e).Broken?
    ensures e == Spoiled(k) && Step(Souring(k), e) == Answered
  {
  }

  lemma FromSending(k: Ref, sour: bool, cost: Option<Spend>, log: Log)
    requires !After(Sending(k, sour, cost), log).Broken?
    ensures |log| <= (if sour then 2 else 1) && (|log| > 0 ==> log[0] == Paid(k, cost))
    ensures |log| > 1 ==> log[1] == Spoiled(k)
    ensures Over(After(Sending(k, sour, cost), log)) <==> |log| == if sour then 2 else 1
  {
    hide Step;
    if log != [] {
      AfterFirst(Sending(k, sour, cost), log);
      SendingStep(k, sour, cost, log[0]);
      if !sour {
        Final(Charged(k), log[1..]);
      } else if |log| > 1 {
        AfterFirst(Souring(k), log[1..]);
        SouringStep(k, log[1]);
        Final(Answered, log[1..][1..]);
      } else {
        assert log[1..] == [];
      }
    }
  }

  /** A response is sent right after the key's success is recorded, which follows an upstream call that
      succeeded; it is charged what it cost right after; and then the key is benched exactly if the relay broke while
      the client was still there. */
  lemma ServedInOrder(log: Log, i: nat)
    requires !After(Ready, log).Broken? && i < |log| && log[i].Relayed?
    ensures i >= 2 && log[i - 1].Won? && log[i - 1].k == log[i].k
    ensures (log[i - 2].Called? && log[i - 2].k == log[i].k && log[i - 2].f.None?) || log[i - 2].Hushed?
    ensures i + 1 < |log| ==> log[i + 1] == Paid(log[i].k, log[i].cost)
    ensures i + 2 < |log| ==> log[i + 2] == Spoiled(log[i].k) && log[i].r.Broken? && !log[i].left
    ensures Over(After(Ready, log)) <==> |log| == i + (if log[i].r.Broken? && !log[i].left then 3 else 2)
  {
    hide Step, After;
    Cut(log, i);
    var k := log[i].k;
    RelayedFrom(After(Ready, log[..i]), log[i]);
    AfterNothing();
    var tail := log[i + 1..];
    FromSending(k, log[i].r.Broken? && !log[i].left, log[i].cost, tail);
    assert |tail| > 0 ==> tail[0] == log[i + 1];
    assert |tail| > 1 ==> tail[1] == log[i + 2];
    assert i > 0;
    Back(log, i);
    RecordedBy(After(Ready, log[..i - 1]), log[i - 1]);
    assert i > 1;
    Back(log, i - 1);
    ResolvedBy(After(Ready, log[..i - 2]), log[i - 2]);
  }

  lemma Back(log: Log, i: nat)
    requires 0 < i <= |log|
    ensures After(Ready, log[..i]) == Step(After(Ready, log[..i - 1]), log[i - 1])
  {
    hide Step, After;
    assert log[..i] == log[..i - 1] + [log[i - 1]];
    AfterSnoc(Ready, log[..i - 1], log[i - 1]);
  }

  lemma StillGood(log: Log)
    requires log != [] && !After(Ready, log).Broken?
    ensures !After(Ready, log[..|log| - 1]).Broken?
  {
  }

  // ---------- the protocol drives the pool ----------

  /** The pool call an event stands for. */
  function ActionOf(t: nat, e: Happening): Option<Action> {
    match e
    case Ordered(_) => Some(Look)
    case Hinted(_, _) => Some(Look)
    case Picked(_, prov, _, _) => Some(Pick(t, prov))
    case Lost(_, code, retry) => Some(Fail(t, code, retry))
    case Dropped(_) => Some(Done(t))
    case Won(_, ttft) => Some(Ok(t, ttft))
    case Paid(_, s) => Some(Charge(t, s))
    case Spoiled(_) => Some(Sour(t))
    case _ => None
  }

  /** What the pool knows of a request at this stage. */
  function PhaseAt(s: Stage): Phase {
    match s
    case Reserved(k, _, _) => Holding(k)
    case Armed(k, _, _, _) => Holding(k)
    case Again(k, _, _) => Holding(k)
    case Quiet(k, _) => Holding(k)
    case Resolved(k, _) => Holding(k)
    case Recorded(k) => Serving(k)
    case Sending(k, _, _) => Serving(k)
    case Souring(k) => Settled(k)
    case Charged(k) => Settled(k)
    case _ => Idle
  }

  // The pool, the providers that refused requests for usage, and what each request has done so far.
  datatype System = System(w: World, mute: set<string>, logs: map<nat, Log>)

  /** One event of request t: the pool call it makes, answered as the event says. A hint is the
      pool's own for the providers named, and whether a provider talks is what the pool remembers. */
  ghost predicate Makes(s: System, s': System, t: nat, st: Stage, e: Happening) {
    && !Step(st, e).Broken?
    && s'.mute == (if e.Hushed? then s.mute + {e.prov} else s.mute)
    && (e.Asked? ==> e.talks == (e.prov !in s.mute))
    && match ActionOf(t, e)
       case None => s'.w == s.w
       case Some(a) =>
         && (Sane(s.w.pool) && Enabled(s.w, a) ==> s'.w == Next(s.w, a))
         && (e.Picked? ==> PhaseOf(s'.w, t) == if e.got.Some? then Holding(e.got.value) else Idle)
         && (e.Hinted? && Sane(s'.w.pool) ==> e.d == Retry.Hint(s'.w.pool, e.provs, s'.w.now))
  }

  /** What an allowed event does to the phase. */
  lemma PhaseStep(s: Stage, e: Happening)
    requires !Step(s, e).Broken?
    ensures match e
            case Picked(_, _, _, got) => PhaseAt(s) == Idle && PhaseAt(Step(s, e)) == if got.Some? then Holding(got.value) else Idle
            case Lost(k, _, _) => PhaseAt(s) == Holding(k) && PhaseAt(Step(s, e)) == Idle
            case Dropped(k) => PhaseAt(s) == Holding(k) && PhaseAt(Step(s, e)) == Idle
            case Won(k, _) => PhaseAt(s) == Holding(k) && PhaseAt(Step(s, e)) == Serving(k)
            case Paid(k, _) => PhaseAt(s) == Serving(k) && PhaseAt(Step(s, e)) == Settled(k)
            case Spoiled(k) => PhaseAt(s) == Settled(k) && PhaseAt(Step(s, e)) == Idle
            case _ => PhaseAt(Step(s, e)) == PhaseAt(s)
  {
  }

  /** Every event of a request that follows the protocol is a pool call the pool allows, and leaves
      the request in the phase the protocol says. */
  lemma ProtocolDrives(s: System, s': System, t: nat, st: Stage, e: Happening)
    requires Conserves(s.w) && PhaseOf(s.w, t) == PhaseAt(st) && Makes(s, s', t, st, e)
    ensures ActionOf(t, e).Some? ==> Enabled(s.w, ActionOf(t, e).value)
    ensures Conserves(s'.w) && PhaseOf(s'.w, t) == PhaseAt(Step(st, e))
  {
    hide Sane, Rolled, Holders, PickedFrom, InPool, Step, PhaseAt, Next, Retry.Hint;
    var w := s.w;
    PhaseStep(st, e);
    Keyed(w);
    if ActionOf(t, e).Some? {
      var a := ActionOf(t, e).value;
      if t in w.threads {
        assert Known(w, w.threads[t]);
      }
      StepKeeps(w, a);
      OwnPhase(w, a);
    }
  }

  /** The phase a request is in after its own pool call. */
  lemma OwnPhase(w: World, a: Action)
    requires Sane(w.pool) && Enabled(w, a)
    ensures var v := Next(w, a);
            match a
            case Ok(t, _) => PhaseOf(v, t) == Serving(PhaseOf(w, t).k)
            case Fail(t, _, _) => PhaseOf(v, t) == Idle
            case Done(t) => PhaseOf(v, t) == Idle
            case Charge(t, _) => PhaseOf(v, t) == Settled(PhaseOf(w, t).k)
            case Sour(t) => PhaseOf(v, t) == Idle
            case Look => v.threads == w.threads
            case _ => true
  {
    hide Sane, Rolled, PickedFrom, InPool;
  }

  /** Another request's pool call, a tick or a reload leaves the phase of t alone. */
  predicate Others(a: Action, t: nat) {
    match a
    case Pick(u, _) => u != t
    case Ok(u, _) => u != t
    case Fail(u, _, _) => u != t
    case Done(u) => u != t
    case Charge(u, _) => u != t
    case Sour(u) => u != t
    case End(u) => u != t
    case _ => true
  }

  lemma OthersPhase(w: World, a: Action, t: nat)
    requires Sane(w.pool) && Enabled(w, a) && Others(a, t)
    ensures PhaseOf(Next(w, a), t) == PhaseOf(w, t)
  {
    hide Sane, Rolled, PickedFrom, InPool;
  }

  // ---------- many requests at once ----------

  function LogOf(s: System, t: nat): Log {
    if t in s.logs then s.logs[t] else []
  }

  /** Request t makes the event e. */
  ghost predicate Acts(s: System, s': System, t: nat, e: Happening) {
    Makes(s, s', t, After(Ready, LogOf(s, t)), e) && s'.logs == s.logs[t := LogOf(s, t) + [e]]
  }

  /** Time passes, or the configuration is reloaded. */
  ghost predicate Turns(s: System, s': System, a: Action) {
    (a.Tick? || a.Reload?) && Sane(s.w.pool) && Enabled(s.w, a) && s' == s.(w := Next(s.w, a))
  }

  /** One step: an event of some request, or a tick or a reload. */
  ghost predicate Moves(s: System, s': System) {
    (exists t, e :: Acts(s, s', t, e)) || (exists a :: Turns(s, s', a))
  }

  /** The pool's books balance, and it knows each request in the phase its events say. */
  ghost predicate InStep(s: System) {
    Conserves(s.w) && forall t :: PhaseOf(s.w, t) == PhaseAt(After(Ready, LogOf(s, t)))
  }

  lemma MovesInStep(s: System, s': System)
    requires InStep(s) && Moves(s, s')
    ensures InStep(s')
  {
    hide Conserves, Sane, Rolled, Next, After, Enabled, Step, PhaseAt, ActionOf, Makes;
    if t, e :| Acts(s, s', t, e) {
      ProtocolDrives(s, s', t, After(Ready, LogOf(s, t)), e);
      AfterSnoc(Ready, LogOf(s, t), e);
      forall u ensures PhaseOf(s'.w, u) == PhaseAt(After(Ready, LogOf(s', u))) {
        if u != t {
          Apart(s, s', t, After(Ready, LogOf(s, t)), e, u);
        }
      }
    } else {
      var a :| Turns(s, s', a);
      StepKeeps(s.w, a);
      forall u ensures PhaseOf(s'.w, u) == PhaseOf(s.w, u) {
        OthersPhase(s.w, a, u);
      }
    }
  }

  lemma Apart(s: System, s': System, t: nat, st: Stage, e: Happening, u: nat)
    requires Conserves(s.w) && PhaseOf(s.w, t) == PhaseAt(st) && Makes(s, s', t, st, e) && u != t
    ensures PhaseOf(s'.w, u) == PhaseOf(s.w, u)
  {
    hide Sane, Rolled, Holders, Next, Step, PhaseAt, Retry.Hint;
    Keyed(s.w);
    ProtocolDrives(s, s', t, st, e);
    if ActionOf(t, e).Some? {
      OthersPhase(s.w, ActionOf(t, e).value, u);
    }
  }

  /** A run of the whole system. */
  ghost predicate Serves(ss: seq<System>) {
    ss != [] && forall i | 0 <= i < |ss| - 1 :: Moves(ss[i], ss[i + 1])
  }

  /** However the events of any number of requests that follow the protocol interleave with one
      another, with the clock and with reloads: each key's live count is at every moment the number
      of requests holding it, and once every request is over no reservation is left. */
  lemma {:induction false} SystemConserves(ss: seq<System>)
    requires Serves(ss) && InStep(ss[0])
    ensures forall i | 0 <= i < |ss| :: InStep(ss[i]) && Conserves(ss[i].w)
    ensures var last := ss[|ss| - 1];
            (forall t | t in last.w.threads :: Over(After(Ready, LogOf(last, t))) || LogOf(last, t) == []) ==>
              forall k | k in last.w.pool.cells :: last.w.pool.cells[k].live == 0
  {
    hide Moves, After;
    for n := 0 to |ss| - 1
      invariant forall i | 0 <= i <= n :: InStep(ss[i])
    {
      MovesInStep(ss[n], ss[n + 1]);
    }
    hide Conserves;
    var last := ss[|ss| - 1];
    if forall t | t in last.w.threads :: Over(After(Ready, LogOf(last, t))) || LogOf(last, t) == [] {
      forall t | t in last.w.threads ensures !last.w.threads[t].Holding? {
        assert PhaseOf(last.w, t) == PhaseAt(After(Ready, LogOf(last, t)));
        AfterNothing();
      }
      NothingLeftHeld(last.w);
    }
  }

  lemma AfterNothing()
    ensures After(Ready, []) == Ready
  {
  }

  // ---------- what an event does to a key ----------

  /** A failure told to the pool benches the key as its status says, whatever else runs: a rate-limited key,
      say, is not free before the wait upstream named is over. */
  lemma LostBenches(s: System, s': System, t: nat, k: Ref, code: int, retry: int)
    requires Conserves(s.w) && Remembers(s.w) && PhaseOf(s.w, t) == PhaseAt(After(Ready, LogOf(s, t)))
    requires Acts(s, s', t, Lost(k, code, retry))
    ensures k in s.w.pool.cells && k in s'.w.pool.cells
    ensures var c, d := s.w.pool.cells[k], s'.w.pool.cells[k];
            && (d.dead <==> c.dead || code == 401 || code == 403)
            && (!Benches(code) ==> d.until == c.until)
            && (Benches(code) && retry > 0 ==> d.until == s.w.now + retry)
            && (Benches(code) && retry <= 0 ==> d.until == s.w.now + Seconds(Rungs(s.w.logs[k])) * 1_000_000_000)
            && (forall u: nat | u < d.until :: !Free(d, u))
  {
    hide Sane, Rolled, Holders, InPool, Next, After, Step, PhaseAt, Remembers, Free, Retry.Hint;
    Keyed(s.w);
    var st := After(Ready, LogOf(s, t));
    PhaseStep(st, Lost(k, code, retry));
    ProtocolDrives(s, s', t, st, Lost(k, code, retry));
    FailMeans(s.w, Fail(t, code, retry));
    FailKeeps(s.w, t, code, retry);
  }

  lemma FailKeeps(w: World, t: nat, code: int, retry: int)
    requires Sane(w.pool) && Remembers(w) && Enabled(w, Fail(t, code, retry))
    ensures var k := PhaseOf(w, t).k; k in w.pool.cells && k in Next(w, Fail(t, code, retry)).pool.cells && k in w.logs
  {
    hide Sane, Rolled, InPool;
  }

  // ---------- what requests learn from one another ----------

  /** A request that asks about the provider in this step is told no. */
  ghost predicate ToldNo(s: System, s': System, prov: string) {
    forall u, talks :: Acts(s, s', u, Asked(prov, talks)) ==> !talks
  }

  /** Once one request has found that a provider refuses requests for usage, no request that asks
      later meters a call to it: in every run, after a Hushed event every Asked event for that
      provider is answered no. */
  lemma {:induction false} HushedStays(ss: seq<System>, i: nat, t: nat, prov: string)
    requires Serves(ss) && i < |ss| - 1 && Acts(ss[i], ss[i + 1], t, Hushed(prov))
    ensures forall j | i < j < |ss| - 1 :: ToldNo(ss[j], ss[j + 1], prov)
  {
    hide Moves, Acts;
    HushMutes(ss[i], ss[i + 1], t, prov);
    for n := i + 1 to |ss| - 1
      invariant forall j | i < j <= n :: prov in ss[j].mute
    {
      MuteGrows(ss[n], ss[n + 1]);
    }
    forall j | i < j < |ss| - 1 ensures ToldNo(ss[j], ss[j + 1], prov) {
      MutedToldNo(ss[j], ss[j + 1], prov);
    }
  }

  lemma HushMutes(s: System, s': System, t: nat, prov: string)
    requires Acts(s, s', t, Hushed(prov))
    ensures prov in s'.mute
  {
    hide Step, After;
  }

  lemma AskedTruly(s: System, s': System, t: nat, prov: string, talks: bool)
    requires Acts(s, s', t, Asked(prov, talks))
    ensures talks == (prov !in s.mute)
  {
    hide Step, After;
  }

  lemma MutedToldNo(s: System, s': System, prov: string)
    requires prov in s.mute
    ensures ToldNo(s, s', prov)
  {
    hide Acts;
    forall u, talks | Acts(s, s', u, Asked(prov, talks)) ensures !talks {
      AskedTruly(s, s', u, prov, talks);
    }
  }

  lemma MuteGrows(s: System, s': System)
    requires Moves(s, s')
    ensures s.mute <= s'.mute
  {
    hide Step, After, ActionOf, Next;
  }

  /** A nap is as long as the wait for the listed key that recovers first: if nothing else happens,
      the key the hint came from is free when the request wakes, if and only if its reservations
      leave room under its minute cap. */
  lemma NapWakes(s: System, s': System, t: nat, provs: seq<string>, d: int)
    requires Conserves(s.w) && Acts(s, s', t, Hinted(provs, d)) && d > 0
    requires PhaseOf(s.w, t) == PhaseAt(After(Ready, LogOf(s, t)))
    ensures Sane(s'.w.pool) && exists k :: Retry.Attains(s'.w.pool, provs, s'.w.now, k)
    ensures forall k | Retry.Attains(s'.w.pool, provs, s'.w.now, k) ::
              var u := s'.w.now + d; var r := Rolled(s'.w.pool, u);
              k in r.cells && (Free(r.cells[k], u) <==> r.cells[k].prov.rpm <= 0 || r.cells[k].live < r.cells[k].prov.rpm)
  {
    hide Sane, Rolled, Free, Retry.Hint, Retry.Attains, After, Step, PhaseAt, Holders, InPool;
    var w, v := s.w, s'.w;
    ProtocolDrives(s, s', t, After(Ready, LogOf(s, t)), Hinted(provs, d));
    Keyed(v);
    LookedFresh(w, v);
    Retry.HintAttained(v.pool, provs, v.now);
    forall k | Retry.Attains(v.pool, provs, v.now, k)
      ensures var u := v.now + d; var r := Rolled(v.pool, u);
              k in r.cells && (Free(r.cells[k], u) <==> r.cells[k].prov.rpm <= 0 || r.cells[k].live < r.cells[k].prov.rpm)
    {
      AttainsKnown(v.pool, provs, v.now, k);
      Retry.HintRecovers(v.pool, provs, v.now, k);
      RolledKept(v.pool, v.now + d, k);
    }
  }

  lemma AttainsKnown(s: PoolState<Ref>, provs: seq<string>, now: nat, k: Ref)
    requires Retry.Attains(s, provs, now, k)
    ensures k in s.cells
  {
  }

  lemma RolledKept(s: PoolState<Ref>, now: nat, k: Ref)
    requires k in s.cells
    ensures k in Rolled(s, now).cells && Rolled(s, now).cells[k].prov == s.cells[k].prov && Rolled(s, now).cells[k].live == s.cells[k].live
  {
    hide InPool;
  }

  lemma LookedFresh(w: World, v: World)
    requires Sane(w.pool) && v == Next(w, Look) && Conserves(v)
    ensures Retry.Fresh(v.pool, v.now)
  {
    hide Sane, InPool, Holders;
  }
}
