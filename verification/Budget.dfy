// The memory budget for request bodies: a counter shared by every request, changed by a
// compare-and-swap loop. Each action is one atomic step.

module Budget {
  const MAX_BODY: int := 33_554_432       // 32 << 20
  const HOLD: int := 8 * MAX_BODY

  /** The room a request asks for: its declared length, or the most it may be. */
  function Room(length: int): (n: int)
    ensures 0 <= n <= MAX_BODY && n == if 0 <= length <= 33_554_432 then length else 33_554_432
  {
    if length < 0 || length > MAX_BODY then MAX_BODY else length
  }

  // Where a request is: asking, having loaded the counter, admitted, refused or released.
  datatype Stage = Asking(room: int) | Loaded(room: int, seen: int) | Admitted(room: int) | Refused(room: int, seen: int) | Released

  datatype State = State(held: int, requests: seq<Stage>)

  datatype Step =
    | Arrive(length: int)
    | Load(t: nat)
    | Swap(t: nat)
    | Release(t: nat)

  const START := State(0, [])

  predicate Enabled(s: State, a: Step) {
    match a
    case Arrive(_) => true
    case Load(t) => t < |s.requests| && s.requests[t].Asking?
    case Swap(t) => t < |s.requests| && s.requests[t].Loaded?
    case Release(t) => t < |s.requests| && s.requests[t].Admitted?
  }

  function Next(s: State, a: Step): State
    requires Enabled(s, a)
  {
    match a
    case Arrive(length) => s.(requests := s.requests + [Asking(Room(length))])
    case Load(t) =>
      var n := s.requests[t].room;
      s.(requests := s.requests[t := if s.held + n > HOLD then Refused(n, s.held) else Loaded(n, s.held)])
    case Swap(t) =>
      var n, seen := s.requests[t].room, s.requests[t].seen;
      if s.held == seen then State(seen + n, s.requests[t := Admitted(n)])
      else s.(requests := s.requests[t := Asking(n)])
    case Release(t) => State(s.held - s.requests[t].room, s.requests[t := Released])
  }

  function RoomOf(r: Stage): int {
    if r.Admitted? then r.room else 0
  }

  /** The rooms of the requests admitted and not released. */
  function Reserved(rs: seq<Stage>): int {
    if rs == [] then 0 else Reserved(rs[..|rs| - 1]) + RoomOf(rs[|rs| - 1])
  }

  function Serving(rs: seq<Stage>): nat {
    if rs == [] then 0 else Serving(rs[..|rs| - 1]) + (if rs[|rs| - 1].Admitted? then 1 else 0)
  }

  lemma {:induction false} ReservedUpdate(rs: seq<Stage>, t: nat, r: Stage)
    requires t < |rs|
    ensures Reserved(rs[t := r]) == Reserved(rs) - RoomOf(rs[t]) + RoomOf(r)
  {
    var init := rs[..|rs| - 1];
    if t == |rs| - 1 {
      assert rs[t := r][..|rs| - 1] == init;
    } else {
      assert rs[t := r][..|rs| - 1] == init[t := r];
      ReservedUpdate(init, t, r);
    }
  }

  lemma ReservedSnoc(rs: seq<Stage>, r: Stage)
    ensures Reserved(rs + [r]) == Reserved(rs) + RoomOf(r)
  {
    assert (rs + [r])[..|rs|] == rs;
  }

  predicate Fits(r: Stage) {
    match r
    case Asking(n) => 0 <= n <= MAX_BODY
    case Loaded(n, seen) => 0 <= n <= MAX_BODY && seen + n <= HOLD
    case Admitted(n) => 0 <= n <= MAX_BODY
    case _ => true
  }

  /** What is held is what admitted requests reserved, and never more than the budget. */
  ghost predicate Sound(s: State) {
    && s.held == Reserved(s.requests) <= HOLD
    && forall i | 0 <= i < |s.requests| :: Fits(s.requests[i])
  }

  lemma StepSound(s: State, a: Step)
    requires Sound(s) && Enabled(s, a)
    ensures Sound(Next(s, a))
  {
    hide Reserved;
    match a
    case Arrive(length) => ReservedSnoc(s.requests, Asking(Room(length)));
    case Load(t) => ReservedUpdate(s.requests, t, Next(s, a).requests[t]);
    case Swap(t) => ReservedUpdate(s.requests, t, Next(s, a).requests[t]);
    case Release(t) => ReservedUpdate(s.requests, t, Released);
  }

  ghost predicate Run(ss: seq<State>, acts: seq<Step>) {
    && |ss| == |acts| + 1
    && forall i | 0 <= i < |acts| :: Enabled(ss[i], acts[i]) && ss[i + 1] == Next(ss[i], acts[i])
  }

  /** In every interleaving of loads, swaps and releases, by any number of requests, what is held
      is the sum of the rooms of the admitted, unreleased requests, between 0 and the budget, and
      0 when there are none. */
  lemma {:induction false} RunSound(ss: seq<State>, acts: seq<Step>)
    requires Run(ss, acts) && ss[0] == START
    ensures forall i | 0 <= i < |ss| :: Sound(ss[i]) && 0 <= ss[i].held <= 268_435_456
    ensures forall i | 0 <= i < |ss| && Serving(ss[i].requests) == 0 :: ss[i].held == 0
  {
    hide Next, Enabled, Reserved, Serving;
    NothingReserved();
    for n := 0 to |acts|
      invariant forall i | 0 <= i <= n :: Sound(ss[i])
    {
      StepSound(ss[n], acts[n]);
    }
    forall i | 0 <= i < |ss| ensures 0 <= ss[i].held && (Serving(ss[i].requests) == 0 ==> ss[i].held == 0) {
      ReservedBounds(ss[i].requests);
    }
  }

  lemma NothingReserved()
    ensures Reserved([]) == 0
  {
  }

  lemma {:induction false} ReservedBounds(rs: seq<Stage>)
    requires forall i | 0 <= i < |rs| :: Fits(rs[i])
    ensures 0 <= Reserved(rs) <= Serving(rs) * MAX_BODY
  {
    if rs != [] {
      ReservedBounds(rs[..|rs| - 1]);
    }
  }

  /** No request is refused while fewer than eight are admitted and unreleased. */
  lemma RefusedOnlyWhenEight(s: State, t: nat)
    requires Sound(s) && Enabled(s, Load(t)) && Next(s, Load(t)).requests[t].Refused?
    ensures Serving(s.requests) >= 8
  {
    ReservedBounds(s.requests);
  }

  /** The loop retries only because others made progress: between a load and a failed swap of the
      same request, some other request was admitted or released. */
  lemma {:induction false} RetryMeansProgress(ss: seq<State>, acts: seq<Step>, t: nat)
    requires Run(ss, acts) && |acts| >= 2 && acts[0] == Load(t) && acts[|acts| - 1] == Swap(t)
    requires forall i | 0 < i < |acts| - 1 && !acts[i].Arrive? :: acts[i].t != t
    requires ss[|acts|].requests[t].Asking?
    ensures exists i :: 0 < i < |acts| - 1 && !acts[i].Arrive? && acts[i].t != t
                        && (acts[i].Release? || (acts[i].Swap? && ss[i + 1].requests[acts[i].t].Admitted?))
  {
    if forall i | 0 < i < |acts| - 1 :: ss[i + 1].held == ss[i].held {
      for n := 1 to |acts| - 1
        invariant ss[n].held == ss[0].held
        invariant t < |ss[n].requests| && ss[n].requests[t] == ss[1].requests[t]
      {
      }
    } else {
      var i :| 0 < i < |acts| - 1 && ss[i + 1].held != ss[i].held;
      assert acts[i].Release? || acts[i].Swap?;
    }
  }

  // ---------- one request ----------

  /** The stages one step can take a request through. */
  predicate Follows(a: Stage, b: Stage) {
    match a
    case Asking(n) => (b.Loaded? && b.room == n && b.seen + n <= HOLD) || (b.Refused? && b.room == n && b.seen + n > HOLD)
    case Loaded(n, _) => b == Admitted(n) || b == Asking(n)
    case Admitted(_) => b == Released
    case _ => false
  }

  /** The life of a request, stage by stage. */
  predicate Path(lives: seq<Stage>) {
    lives != [] && lives[0].Asking? && forall i | 0 <= i < |lives| - 1 :: Follows(lives[i], lives[i + 1])
  }

  /** Every step leaves each request where it was or takes it on, with what was held seen truly. */
  lemma StepFollows(s: State, a: Step, t: nat)
    requires Enabled(s, a) && t < |s.requests|
    ensures var r, r' := s.requests[t], Next(s, a).requests[t];
            r' == r || (Follows(r, r') && ((r'.Loaded? || r'.Refused?) ==> r'.seen == s.held))
  {
  }

  lemma NotYetReleased(lives: seq<Stage>, i: nat)
    requires Path(lives) && i + 1 < |lives|
    ensures !lives[i].Released? && !lives[i].Refused? && (lives[i].Admitted? ==> lives[i + 1].Released?)
  {
    assert Follows(lives[i], lives[i + 1]);
  }

  /** Admission is the end of a life but for the release. */
  lemma AdmittedLate(lives: seq<Stage>, i: nat)
    requires Path(lives) && i < |lives| && lives[i].Admitted?
    ensures i >= |lives| - 2 && (i == |lives| - 2 ==> lives[|lives| - 1] == Released)
  {
    if i + 1 < |lives| {
      NotYetReleased(lives, i);
    }
    if i + 2 < |lives| {
      NotYetReleased(lives, i + 1);
    }
  }

  /** A request is admitted at most once, to the room it asked for, and released right after, at the
      end of its life. */
  lemma PathOnce(lives: seq<Stage>, i: nat)
    requires Path(lives) && i < |lives| && lives[i].Admitted?
    ensures lives[i] == Admitted(lives[0].room)
    ensures i >= |lives| - 2 && (i == |lives| - 2 ==> lives[|lives| - 1] == Released)
    ensures forall j | 0 <= j < |lives| && lives[j].Admitted? :: j == i
  {
    RoomKept(lives, i);
    AdmittedLate(lives, i);
    forall j | 0 <= j < |lives| && lives[j].Admitted? ensures j == i {
      AdmittedLate(lives, j);
    }
  }

  lemma {:induction false} RoomKept(lives: seq<Stage>, i: nat)
    requires Path(lives) && i < |lives|
    ensures !lives[i].Released? ==> lives[i].room == lives[0].room
  {
    if i > 0 {
      RoomKept(lives, i - 1);
      assert Follows(lives[i - 1], lives[i]);
    }
  }

  /** The admission loop: loads are the values the counter has when it is loaded, as many as it
      takes; every swap but the last fails. */
  method Admit(n: int, loads: seq<int>) returns (ok: bool, lives: seq<Stage>)
    requires loads != []
    ensures Path(lives) && lives[0] == Asking(n)
    ensures ok <==> forall i | 0 <= i < |loads| :: loads[i] + n <= HOLD
    ensures var last := lives[|lives| - 1]; if ok then last == Admitted(n) else last.Refused?
  {
    lives := [Asking(n)];
    var i := 0;
    while true
      invariant 0 <= i < |loads|
      invariant Path(lives) && lives[0] == Asking(n) && lives[|lives| - 1] == Asking(n)
      invariant forall j | 0 <= j < i :: loads[j] + n <= HOLD
      decreases |loads| - i
    {
      var held := loads[i];
      if held + n > HOLD {
        PathOn(lives, Refused(n, held));
        return false, lives + [Refused(n, held)];
      }
      PathOn(lives, Loaded(n, held));
      lives := lives + [Loaded(n, held)];
      if i == |loads| - 1 {
        PathOn(lives, Admitted(n));
        return true, lives + [Admitted(n)];
      }
      PathOn(lives, Asking(n));
      lives, i := lives + [Asking(n)], i + 1;
    }
  }

  lemma PathOn(lives: seq<Stage>, r: Stage)
    requires Path(lives) && Follows(lives[|lives| - 1], r)
    ensures Path(lives + [r]) && (lives + [r])[0] == lives[0]
  {
    var more := lives + [r];
    assert forall i | 0 <= i < |lives| :: more[i] == lives[i];
  }
}
