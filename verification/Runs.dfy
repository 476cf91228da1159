// What holds over whole runs of the pool.

module Runs {
  import opened Wrappers
  import opened Clock
  import opened Ledger
  import opened World
  import opened History

  /** A pool just made: fresh keys, nothing held, the clock just read. */
  ghost predicate Started(w: World) {
    && Sane(w.pool) && InPool(w.pool) <= w.pool.cells.Keys
    && (forall k | k in w.pool.cells :: w.pool.cells[k] == FreshKey(w.pool.cells[k].val, w.pool.cells[k].id, w.pool.cells[k].prov))
    && w.threads == map[] && w.logs == (map k | k in w.pool.cells :: [])
    && w.pool.day == YearDay(w.now) && w.pool.min == MinuteOf(w.now) && w.last == w.now
  }

  lemma StartedGood(w: World)
    requires Started(w)
    ensures Conserves(w) && WithinCaps(w) && Remembers(w) && UpToDate(w)
    ensures forall k, t: nat | k in w.pool.cells :: Free(w.pool.cells[k], t)
  {
    hide Sane, InPool, YearDay, MinuteOf;
    forall k | k in w.pool.cells
      ensures w.pool.cells[k].live == |Holders(w.threads, k)| && Within(w.pool.cells[k])
      ensures Faithful(w.pool.cells[k], w.logs[k]) && Current(w.pool.cells[k], w.logs[k], w.last)
      ensures forall t: nat :: Free(w.pool.cells[k], t)
    {
      assert Holders(w.threads, k) == {};
      FreshWithin(w.pool.cells[k]);
      FreshFaithful(w.pool.cells[k]);
      FreshCurrent(w.pool.cells[k], w.last);
    }
  }

  // ---------- the ladder ----------

  /** At every point of every run, a key's cooldown, ladder step, death and lifetime total are
      exactly what its events say: the step is the number of unguided benchings since its last
      success, at most three. */
  lemma {:induction false} RunRemembers(ws: seq<World>, acts: seq<Action>)
    requires Run(ws, acts) && Remembers(ws[0])
    ensures forall i | 0 <= i < |ws| :: Remembers(ws[i])
  {
    hide Remembers, Enabled, Next, Sane;
    for n := 0 to |acts|
      invariant forall i | 0 <= i <= n :: Remembers(ws[i])
    {
      StepRemembers(ws[n], acts[n]);
    }
  }

  /** The event an action logs, if any. */
  function EventOf(w: World, a: Action): Option<Event> {
    match a
    case Ok(_, ttft) => Some(Success(w.now, ttft))
    case Fail(_, code, retry) => Some(Failure(w.now, code, retry))
    case Sour(_) => Some(Break(w.now))
    case Charge(_, s) => Some(Payment(w.now, s))
    case _ => None
  }

  /** The n-th unguided benching since the last success lasts the n-th rung; a guided one lasts
      what the provider said and does not advance the ladder; a blameless failure changes
      neither. */
  lemma BenchLasts(w: World, a: Action)
    requires Sane(w.pool) && Remembers(w) && Enabled(w, a) && (a.Fail? || a.Sour?)
    ensures var k := PhaseOf(w, a.t).k; var e := EventOf(w, a).value;
            var c, d := w.pool.cells[k], Next(w, a).pool.cells[k];
            && (Unguided(e) ==> d.until == w.now + Rung(AtMost3(Rungs(w.logs[k]))) && d.step == AtMost3(Rungs(w.logs[k]) + 1))
            && (Guided(e) ==> d.until == w.now + e.retry && d.step == c.step)
            && (!Unguided(e) && !Guided(e) ==> d.until == c.until && d.step == c.step)
            && (Kills(e) ==> d.dead)
  {
    hide Sane, Remembers, YearDay, MinuteOf, InPool;
    var k := PhaseOf(w, a.t).k;
    FaithfulAt(w, k);
    SaneStep(w.pool, k);
    RolledSame(w.pool.cells[k], YearDay(w.now) != w.pool.day, MinuteOf(w.now) != w.pool.min);
  }

  /** A status that benches the key: 402, 429, a server error, or no status at all. */
  predicate Benches(code: int) {
    code == 402 || code == 429 || code < 400 || code >= 500
  }

  /** The n-th own benching since the last success, in seconds. */
  function Seconds(n: nat): nat {
    if n == 0 then 60 else if n == 1 then 300 else if n == 2 then 1800 else 86_400
  }

  /** What a failure does, by its status: 401 and 403 kill the key, 402 and 429 and whatever is no client
      error bench it, any other client error leaves it alone. A benching lasts as long as the provider
      said, or a minute, five minutes, half an hour and then a day; until it ends the key is not free. */
  lemma FailMeans(w: World, a: Action)
    requires Sane(w.pool) && Remembers(w) && Enabled(w, a) && (a.Fail? || a.Sour?)
    ensures var k := PhaseOf(w, a.t).k;
            var c, d, n := w.pool.cells[k], Next(w, a).pool.cells[k], Rungs(w.logs[k]);
            var code, retry := if a.Sour? then 0 else a.code, if a.Sour? then 0 else a.retry;
            && (d.dead <==> c.dead || code == 401 || code == 403)
            && (!Benches(code) ==> d.until == c.until && d.step == c.step)
            && (Benches(code) && retry > 0 ==> d.until == w.now + retry && d.step == c.step)
            && (Benches(code) && retry <= 0 ==>
                  d.until == w.now + Seconds(n) * 1_000_000_000 && d.step == if n < 3 then n + 1 else 3)
            && (forall t: nat | t < d.until :: !Free(d, t))
    ensures forall e :: Unguided(e) <==> e.Break? || (e.Failure? && Benches(e.code) && e.retry <= 0)
  {
    hide Sane, Remembers, YearDay, MinuteOf, InPool;
    var k := PhaseOf(w, a.t).k;
    FaithfulAt(w, k);
    SaneStep(w.pool, k);
    RolledSame(w.pool.cells[k], YearDay(w.now) != w.pool.day, MinuteOf(w.now) != w.pool.min);
  }

  /** What `fail` tells its caller: the key died exactly for 401 and 403; the cooldown it tells is 0
      exactly for a status that benches nothing, and else the time until the key's benching ends. */
  lemma BenchTells(c: KeyState, now: nat, code: int, retry: int)
    requires c.step < RUNGS
    ensures var (d, cool, died) := Benched(c, now, code, retry);
            && (died <==> code == 401 || code == 403)
            && (cool > 0 <==> Benches(code)) && (cool == 0 <==> !Benches(code))
            && (cool > 0 ==> d.until == now + cool)
  {
  }

  /** Nothing done to a dead key brings it back. */
  lemma DeadKept(c: KeyState, now: nat, code: int, retry: int, ttft: int, s: Option<Spend>)
    requires c.dead && c.step < RUNGS
    ensures Succeeded(c, now, ttft).dead && Failed(c, now, code, retry).dead && Soured(c, now).dead
    ensures Charged(c, s).dead && Released(c).dead
  {
    hide Rung, Measured;
  }

  lemma DeadStays(w: World, a: Action, k: Ref)
    requires Sane(w.pool) && Enabled(w, a) && k in w.pool.cells && w.pool.cells[k].dead
    ensures k in Next(w, a).pool.cells && Next(w, a).pool.cells[k].dead
  {
    hide Sane, YearDay, MinuteOf, InPool, PickedFrom, Adopted, RolledCell, Succeeded, Failed, Soured, Charged, Released;
    RolledKeeps(w.pool, w.now);
    RolledSame(w.pool.cells[k], YearDay(w.now) != w.pool.day, MinuteOf(w.now) != w.pool.min);
    SaneStep(w.pool, k);
    var r := Rolled(w.pool, w.now);
    match a
    case Pick(_, prov) =>
      SaneListed(r, prov);
      PickedCells(r, prov, w.now);
    case Reload(slots, provs, next) =>
      AdoptedKeys(w.pool, next, slots, provs);
      AdoptedCell(w.pool, next, slots, provs, k);
    case Ok(_, ttft) => DeadKept(r.cells[k], w.now, 0, 0, ttft, None);
    case Fail(_, code, retry) => DeadKept(r.cells[k], w.now, code, retry, 0, None);
    case Charge(_, s) => DeadKept(r.cells[k], w.now, 0, 0, 0, s);
    case Sour(_) => DeadKept(r.cells[k], w.now, 0, 0, 0, None);
    case Done(_) => DeadKept(w.pool.cells[k], w.now, 0, 0, 0, None);
    case _ =>
  }

  /** A pick leaves the request holding a key exactly when one was found. */
  lemma PickPhase(w: World, a: Action)
    requires Sane(w.pool) && a.Pick? && Enabled(w, a) && Sane(Rolled(w.pool, w.now))
    ensures var f := FreeFrom(Rolled(w.pool, w.now), a.prov, w.now, 0);
            if f.Some? then PhaseOf(Next(w, a), a.t) == Holding(At(Rolled(w.pool, w.now), a.prov, f.value))
            else PhaseOf(Next(w, a), a.t) == Idle
  {
    hide Sane, Rolled, FreeFrom, Reserved;
    var r := Rolled(w.pool, w.now);
    SaneListed(r, a.prov);
    if FreeFrom(r, a.prov, w.now, 0).Some? {
      PickedHit(r, a.prov, w.now, FreeFrom(r, a.prov, w.now, 0).value);
    } else {
      PickedMiss(r, a.prov, w.now);
    }
  }

  /** A pick returns a key that is free at that moment, so never a dead one. */
  lemma PicksAreFree(w: World, a: Action)
    requires Sane(w.pool) && a.Pick? && Enabled(w, a) && PhaseOf(Next(w, a), a.t).Holding?
    ensures var k := PhaseOf(Next(w, a), a.t).k;
            k in w.pool.cells && Free(Rolled(w.pool, w.now).cells[k], w.now) && !w.pool.cells[k].dead
  {
    hide Sane, YearDay, MinuteOf, InPool, FreeFrom, Next, Spent, Capped;
    RolledKeeps(w.pool, w.now);
    var r := Rolled(w.pool, w.now);
    SaneListed(r, a.prov);
    PickedFree(r, a.prov, w.now, 0);
    PickPhase(w, a);
    var k := PhaseOf(Next(w, a), a.t).k;
    RolledSame(w.pool.cells[k], YearDay(w.now) != w.pool.day, MinuteOf(w.now) != w.pool.min);
  }

  /** Death is absorbing: over every run, a key that died stays dead and is never picked again. */
  lemma {:induction false} RunDead(ws: seq<World>, acts: seq<Action>, i: nat, k: Ref)
    requires Run(ws, acts) && i < |ws| && k in ws[i].pool.cells && ws[i].pool.cells[k].dead
    ensures forall j | i <= j < |ws| :: k in ws[j].pool.cells && ws[j].pool.cells[k].dead
    ensures forall j | i <= j < |acts| && acts[j].Pick? :: PhaseOf(ws[j + 1], acts[j].t) != Holding(k)
  {
    hide Enabled, Next, Sane;
    for n := i to |acts|
      invariant forall j | i <= j <= n :: k in ws[j].pool.cells && ws[j].pool.cells[k].dead
    {
      DeadStays(ws[n], acts[n], k);
    }
    forall j | i <= j < |acts| && acts[j].Pick? ensures PhaseOf(ws[j + 1], acts[j].t) != Holding(k) {
      if PhaseOf(ws[j + 1], acts[j].t).Holding? {
        PicksAreFree(ws[j], acts[j]);
      }
    }
  }

  // ---------- lazy counters ----------

  /** Rolling on access refines an eager timer: in every run whose rolling accesses are prompt,
      after each of them every pool key's counters are exactly today's and this minute's. */
  lemma {:induction false} RunUpToDate(ws: seq<World>, acts: seq<Action>)
    requires Run(ws, acts) && UpToDate(ws[0])
    requires forall i | 0 <= i < |acts| && Rolls(acts[i]) :: Prompt(ws[i])
    ensures forall i | 0 <= i < |ws| :: UpToDate(ws[i])
    ensures forall i | 0 <= i < |acts| && Rolls(acts[i]) :: ws[i + 1].last == ws[i + 1].now
  {
    hide UpToDate, Enabled, Next, Sane, Prompt;
    for n := 0 to |acts|
      invariant forall i | 0 <= i <= n :: UpToDate(ws[i])
      invariant forall i | 0 <= i < n && Rolls(acts[i]) :: ws[i + 1].last == ws[i + 1].now
    {
      StepUpToDate(ws[n], acts[n]);
      if Rolls(acts[n]) {
        NowStays(ws[n], acts[n]);
      }
    }
  }

  lemma NowStays(w: World, a: Action)
    requires Sane(w.pool) && Enabled(w, a) && Rolls(a)
    ensures Next(w, a).now == w.now
  {
  }

  /** No listed key has a daily count to drop. */
  ghost predicate NothingToRoll(w: World)
    requires InPool(w.pool) <= w.pool.cells.Keys
  {
    forall k | k in InPool(w.pool) ::
      Daily(w.pool.cells[k].reqs, w.pool.cells[k].errs, w.pool.cells[k].toks, w.pool.cells[k].blind) == History.NOTHING
  }

  /** A late look is harmless exactly when there was nothing to roll. */
  lemma LookUpToDateIff(w: World)
    requires Sane(w.pool) && UpToDate(w)
    ensures UpToDate(Next(w, Look))
            <==> Prompt(w) || NothingToRoll(w)
  {
    hide Sane, YearDay, Minutes, Tally, Before, InPool;
    if Prompt(w) {
      StepUpToDate(w, Look);
    } else {
      RolledKeeps(w.pool, w.now);
      var r := Rolled(w.pool, w.now);
      var v := Next(w, Look);
      assert DayOf(w.last) < DayOf(w.now);
      forall k | k in InPool(w.pool)
        ensures Current(r.cells[k], w.logs[k], w.now)
                <==> Daily(w.pool.cells[k].reqs, w.pool.cells[k].errs, w.pool.cells[k].toks, w.pool.cells[k].blind) == History.NOTHING
      {
        LateCell(w.pool.cells[k], w.logs[k], w.last, w.now);
      }
      forall k | k in w.logs ensures Before(w.logs[k], w.now) {
        BeforeLater(w.logs[k], w.last, w.now);
      }
    }
  }

  /** An event of this moment leaves counters as current, or as stale, as they were. */
  lemma TouchedIff(c: KeyState, log: Log, now: nat, code: int, retry: int, ttft: int, s: Option<Spend>)
    requires c.step < RUNGS
    ensures Current(c, log, now) <==> Current(Failed(c, now, code, retry), log + [Failure(now, code, retry)], now)
    ensures Current(c, log, now) <==> Current(Soured(c, now), log + [Break(now)], now)
    ensures Current(c, log, now) <==> Current(Succeeded(c, now, ttft), log + [Success(now, ttft)], now)
    ensures Current(c, log, now) <==> Current(Charged(c, s), log + [Payment(now, s)], now)
  {
    hide DayOf, MinuteOf, Measured;
    Grown(log, Failure(now, code, retry));
    Grown(log, Break(now));
    Grown(log, Success(now, ttft));
    Grown(log, Payment(now, s));
  }

  /** So one key's event does not change whether the counters are up to date. */
  lemma TouchIff(w: World, a: Action, k: Ref, c: KeyState, e: Event)
    requires Sane(w.pool) && UpToDate(w) && k in w.pool.cells && e.at == w.now && Sane(Rolled(w.pool, w.now))
    requires k in Rolled(w.pool, w.now).cells
             && (Current(Rolled(w.pool, w.now).cells[k], w.logs[k], w.now) <==> Current(c, w.logs[k] + [e], w.now))
    ensures UpToDate(Touch(w, a, k, c, e)) <==> UpToDate(Next(w, Look))
  {
    hide Sane, Rolled, YearDay, MinuteOf, Current, Moved;
    RolledKeeps(w.pool, w.now);
    RolledTimes(w.pool, w.now);
    var v, u := Touch(w, a, k, c, e), Next(w, Look);
    assert InPool(v.pool) == InPool(Rolled(w.pool, w.now)) == InPool(u.pool);
    forall j | j in w.logs ensures Before(w.logs[j], w.now) {
      BeforeLater(w.logs[j], w.last, w.now);
    }
    assert forall j | j in InPool(u.pool) :: Current(v.pool.cells[j], v.logs[j], w.now) <==> Current(u.pool.cells[j], u.logs[j], w.now);
  }

  lemma RolledTimes<K>(s: PoolState<K>, now: nat)
    ensures Rolled(s, now).day == YearDay(now) && Rolled(s, now).min == MinuteOf(now) && Rolled(s, now).keys == s.keys
  {
  }

  /** A late access of any kind is harmless exactly when there was nothing to roll: the counters are
      today's after a pick, a success, a failure, a charge, a broken relay or a look if and only if
      it was prompt or every listed key's daily counters were zero. */
  lemma AccessUpToDateIff(w: World, a: Action)
    requires Sane(w.pool) && UpToDate(w) && Rolls(a) && Enabled(w, a)
    ensures UpToDate(Next(w, a)) <==> Prompt(w) || NothingToRoll(w)
  {
    hide Sane, Rolled, PickedFrom, Prompt, UpToDate, NothingToRoll, Touch, Failed, Soured, Succeeded, Charged;
    LookUpToDateIff(w);
    RolledKeeps(w.pool, w.now);
    var r := Rolled(w.pool, w.now);
    if a.Pick? {
      PickIff(w, a);
    } else if !a.Look? {
      var k := PhaseOf(w, a.t).k;
      SaneStep(r, k);
      TouchesIff(w, a, k);
    }
  }

  lemma PickIff(w: World, a: Action)
    requires Sane(w.pool) && UpToDate(w) && a.Pick? && Enabled(w, a) && Sane(Rolled(w.pool, w.now))
    ensures UpToDate(Next(w, a)) <==> UpToDate(Next(w, Look))
  {
    hide Sane, Rolled, PickedFrom, UpToDate;
    RolledKeeps(w.pool, w.now);
    var r := Rolled(w.pool, w.now);
    SaneListed(r, a.prov);
    PickedCells(r, a.prov, w.now);
    if UpToDate(Next(w, Look)) {
      CellsUpToDate(Next(w, Look), Next(w, a));
    }
    if UpToDate(Next(w, a)) {
      CellsUpToDate(Next(w, a), Next(w, Look));
    }
  }

  lemma TouchesIff(w: World, a: Action, k: Ref)
    requires Sane(w.pool) && UpToDate(w) && (a.Ok? || a.Fail? || a.Charge? || a.Sour?) && Enabled(w, a)
    requires k == PhaseOf(w, a.t).k && Sane(Rolled(w.pool, w.now)) && k in Rolled(w.pool, w.now).cells
    requires Rolled(w.pool, w.now).cells[k].step < RUNGS
    ensures UpToDate(Next(w, a)) <==> UpToDate(Next(w, Look))
  {
    hide Sane, Rolled, UpToDate, Touch, Current, Failed, Soured, Succeeded, Charged;
    CurrentAt(w, k);
    var c := Rolled(w.pool, w.now).cells[k];
    match a
    case Ok(_, ttft) =>
      TouchedIff(c, w.logs[k], w.now, 0, 0, ttft, None);
      TouchIff(w, a, k, Succeeded(c, w.now, ttft), Success(w.now, ttft));
    case Fail(_, code, retry) =>
      TouchedIff(c, w.logs[k], w.now, code, retry, 0, None);
      TouchIff(w, a, k, Failed(c, w.now, code, retry), Failure(w.now, code, retry));
    case Charge(_, s) =>
      TouchedIff(c, w.logs[k], w.now, 0, 0, 0, s);
      TouchIff(w, a, k, Charged(c, s), Payment(w.now, s));
    case Sour(_) =>
      TouchedIff(c, w.logs[k], w.now, 0, 0, 0, None);
      TouchIff(w, a, k, Soured(c, w.now), Break(w.now));
  }

  /** A world whose one key had an error on 1 January 2025, read again on 1 January 2026. */
  ghost function Stale(): World {
    var a, b := 20089 * DAY + 21 * HOUR + 36 * MINUTE, 20454 * DAY + 2 * HOUR + 24 * MINUTE;
    var c := FreshKey("s", "a", Provider(false, ["s"], 0, 0)).(errs := 1);
    World(PoolState(map["p" := [0]], map[], YearDay(a), MinuteOf(a), map[0 := c]), b, map[], a, map[0 := [Failure(a, 400, 0)]])
  }

  /** A key whose one event was a blameless error. */
  lemma OneError(c: KeyState, a: nat)
    requires c == FreshKey(c.val, c.id, c.prov).(errs := 1)
    ensures var log := [Failure(a, 400, 0)]; Before(log, a) && Current(c, log, a) && Faithful(c, log)
  {
    hide Current, Faithful;
    var first := FreshKey(c.val, c.id, c.prov);
    FreshCurrent(first, a);
    FreshFaithful(first);
    TouchedCurrent(first, [], a, 400, 0, 0, None);
    FailedFaithful(first, [], a, 400, 0);
    assert [] + [Failure(a, 400, 0)] == [Failure(a, 400, 0)];
    SameFaithful(Failed(first, a, 400, 0), c, [Failure(a, 400, 0)]);
    CountersOnly(Failed(first, a, 400, 0), c, [Failure(a, 400, 0)], a);
  }

  lemma CountersOnly(c: KeyState, d: KeyState, log: Log, t: nat)
    requires Current(c, log, t) && d.reqs == c.reqs && d.errs == c.errs && d.toks == c.toks && d.blind == c.blind && d.mins == c.mins
    ensures Current(d, log, t)
  {
  }

  lemma OneKey(s: PoolState<Ref>, k: Ref)
    requires s.keys == map["p" := [k]]
    ensures InPool(s) == {k}
  {
    assert s.keys["p"][0] == k;
  }

  lemma StaleTimes()
    ensures var w := Stale(); DayOf(w.last) == 20089 && DayOf(w.now) == 20454 && YearDay(w.last) == YearDay(w.now) && w.last < w.now
  {
    hide YearDay;
    YearDayMisses();
  }

  /** A concrete world whose counters are those of its last access, and stay so on another day. */
  lemma StaleCounters()
    ensures Sane(Stale().pool) && UpToDate(Stale()) && Remembers(Stale()) && Conserves(Stale())
    ensures DayOf(Stale().now) != DayOf(Stale().last) && !UpToDate(Next(Stale(), Look))
  {
    var w := Stale();
    hide YearDay, MinuteOf, DayOf, Before, Current, Faithful, InPool, Next;
    StaleTimes();
    OneError(w.pool.cells[0], w.last);
    OneKey(w.pool, 0);
    assert Holders(map[], 0) == {};
    assert UpToDate(w);
    LookUpToDateIff(w);
  }

  lemma LateCell(c: KeyState, log: Log, t: nat, now: nat)
    requires Current(c, log, t) && Before(log, t) && DayOf(t) < DayOf(now)
    ensures Current(RolledCell(c, false, MinuteOf(now) != MinuteOf(t)), log, now)
            <==> Daily(c.reqs, c.errs, c.toks, c.blind) == History.NOTHING
  {
    hide Tally, Minutes;
    TallyNone(log, t, DayOf(now));
    assert t <= now;
    assert MinuteOf(t) < MinuteOf(now) by { DaysAndMinutes(t, now); }
    MinutesNone(log, t, MinuteOf(now));
  }

  lemma DaysAndMinutes(a: nat, b: nat)
    requires DayOf(a) < DayOf(b)
    ensures MinuteOf(a) < MinuteOf(b)
  {
    var d := DayOf(b);
    assert a < d * DAY <= b;
    assert d * DAY == (d * 86400) * SECOND;
    assert Unix(a) < d * 86400 <= Unix(b);
    assert d * 86400 == (d * 1440) * 60;
  }

  // ---------- fairness ----------

  /** How far k's slot lies from the cursor, going round. */
  function Distance(pos: int, cursor: int, n: int): int {
    if pos >= cursor then pos - cursor else pos - cursor + n
  }

  /** The first free key is at no greater distance than any free key. */
  lemma {:induction false} FirstFree<K>(s: PoolState<K>, prov: string, now: nat, d: nat, e: nat)
    requires forall k | k in Listed(s, prov) :: k in s.cells
    requires d <= e < |Listed(s, prov)| && Free(s.cells[At(s, prov, e)], now)
    ensures FreeFrom(s, prov, now, d).Some? && FreeFrom(s, prov, now, d).value <= e
    decreases e - d
  {
    FreeStep(s, prov, now, d);
    if d < e {
      FirstFree(s, prov, now, d + 1, e);
    }
  }

  /** The slot at a distance round from the cursor. */
  lemma AtDistance<K>(s: PoolState<K>, prov: string, j: nat)
    requires Sane(s) && j < |Listed(s, prov)|
    ensures 0 <= Cursor(s, prov) < |Listed(s, prov)|
    ensures var d := Distance(j, Cursor(s, prov), |Listed(s, prov)|);
            0 <= d < |Listed(s, prov)| && At(s, prov, d) == Listed(s, prov)[j]
  {
    SaneListed(s, prov);
    var c, n := Cursor(s, prov), |Listed(s, prov)|;
    Around(c + Distance(j, c, n), n);
  }

  /** A pick finds nothing exactly when none of the provider's keys is free, and then leaves the
      cursor where it was. */
  lemma NoneFree<K>(s: PoolState<K>, prov: string, now: nat)
    requires Sane(s) && forall k | k in Listed(s, prov) :: k in s.cells
    ensures PickedFrom(s, prov, now).1.None? <==> forall k | k in Listed(s, prov) :: !Free(s.cells[k], now)
    ensures PickedFrom(s, prov, now).1.None? ==> Cursor(PickedFrom(s, prov, now).0, prov) == Cursor(s, prov)
  {
    hide Free, FreeFrom, Sane;
    PickedFree(s, prov, now, 0);
    if FreeFrom(s, prov, now, 0).Some? {
      PickedHit(s, prov, now, FreeFrom(s, prov, now, 0).value);
    } else {
      PickedMiss(s, prov, now);
      forall k | k in Listed(s, prov) ensures !Free(s.cells[k], now) {
        var j :| 0 <= j < |Listed(s, prov)| && Listed(s, prov)[j] == k;
        AtDistance(s, prov, j);
        if Free(s.cells[k], now) {
          FirstFree(s, prov, now, 0, Distance(j, Cursor(s, prov), |Listed(s, prov)|));
        }
      }
    }
  }

  /** How many of the actions pick on this provider. */
  function PicksOn(acts: seq<Action>, prov: string): nat {
    if acts == [] then 0
    else (if acts[0].Pick? && acts[0].prov == prov then 1 else 0) + PicksOn(acts[1..], prov)
  }

  /** The key in slot j is free whenever the run picks on its provider. */
  ghost predicate AlwaysFree(ws: seq<World>, acts: seq<Action>, prov: string, j: nat)
    requires |ws| == |acts| + 1
  {
    forall i | 0 <= i < |acts| && acts[i].Pick? && acts[i].prov == prov ::
      var r := Rolled(ws[i].pool, ws[i].now);
      j < |Listed(r, prov)| && Listed(r, prov)[j] in r.cells && Free(r.cells[Listed(r, prov)[j]], ws[i].now)
  }

  ghost predicate SomePickReturns(ws: seq<World>, acts: seq<Action>, prov: string, k: Ref)
    requires |ws| == |acts| + 1
  {
    exists i :: 0 <= i < |acts| && acts[i].Pick? && acts[i].prov == prov && PhaseOf(ws[i + 1], acts[i].t) == Holding(k)
  }

  /** Only a reload changes the lists; only a pick on the provider moves its cursor. */
  lemma StepLists(w: World, a: Action, prov: string)
    requires Sane(w.pool) && Enabled(w, a) && !a.Reload?
    ensures Listed(Next(w, a).pool, prov) == Listed(w.pool, prov)
    ensures !(a.Pick? && a.prov == prov) ==> Cursor(Next(w, a).pool, prov) == Cursor(w.pool, prov)
  {
    hide Sane, InPool, FreeFrom, YearDay, MinuteOf;
    RolledKeeps(w.pool, w.now);
    if a.Pick? {
      var r := Rolled(w.pool, w.now);
      SaneListed(r, a.prov);
      PickedCells(r, a.prov, w.now);
    }
  }

  /** A pick while the key in slot j is free: it returns that key, or brings the cursor strictly
      nearer to it. */
  lemma PickApproaches(w: World, a: Action, j: nat)
    requires Sane(w.pool) && a.Pick? && Enabled(w, a) && j < |Listed(w.pool, a.prov)|
    requires var r := Rolled(w.pool, w.now); var k := Listed(w.pool, a.prov)[j]; k in r.cells && Free(r.cells[k], w.now)
    ensures var n := |Listed(w.pool, a.prov)|;
            PhaseOf(Next(w, a), a.t) == Holding(Listed(w.pool, a.prov)[j])
            || 0 <= Distance(j, Cursor(Next(w, a).pool, a.prov), n) < Distance(j, Cursor(w.pool, a.prov), n)
  {
    hide Sane, Free, FreeFrom, InPool, YearDay, MinuteOf, Reserved;
    RolledKeeps(w.pool, w.now);
    var r := Rolled(w.pool, w.now);
    SaneListed(r, a.prov);
    AtDistance(r, a.prov, j);
    var n, c := |Listed(r, a.prov)|, Cursor(r, a.prov);
    var d := Distance(j, c, n);
    FirstFree(r, a.prov, w.now, 0, d);
    var e := FreeFrom(r, a.prov, w.now, 0).value;
    PickedHit(r, a.prov, w.now, e);
    Around(c + e, n);
    Around(c + e + 1, n);
  }

  /** Round-robin fairness: with no reload, a key at distance d from its provider's cursor that is
      free at each of the next d + 1 picks on that provider is returned by one of them. */
  lemma {:induction false} RunFair(ws: seq<World>, acts: seq<Action>, prov: string, j: nat)
    requires Run(ws, acts) && Sane(ws[0].pool) && forall i | 0 <= i < |acts| :: !acts[i].Reload?
    requires j < |Listed(ws[0].pool, prov)| && AlwaysFree(ws, acts, prov, j)
    requires PicksOn(acts, prov) > Distance(j, Cursor(ws[0].pool, prov), |Listed(ws[0].pool, prov)|)
    ensures SomePickReturns(ws, acts, prov, Listed(ws[0].pool, prov)[j])
    decreases |acts|
  {
    hide Sane, Enabled, Next, Free, Rolled;
    var k := Listed(ws[0].pool, prov)[j];
    AtDistance(ws[0].pool, prov, j);
    assert acts != [];
    StepLists(ws[0], acts[0], prov);
    assert |acts| == 1 ==> PicksOn(acts[1..], prov) == 0;
    if acts[0].Pick? && acts[0].prov == prov {
      RolledLists(ws[0], prov);
      PickApproaches(ws[0], acts[0], j);
      if PhaseOf(ws[1], acts[0].t) == Holding(k) {
        return;
      }
    }
    var vs, bs := ws[1..], acts[1..];
    RunTail(ws, acts);
    assert forall i | 0 <= i < |bs| :: bs[i] == acts[i + 1] && vs[i] == ws[i + 1];
    RunFair(vs, bs, prov, j);
    var i :| 0 <= i < |bs| && bs[i].Pick? && bs[i].prov == prov && PhaseOf(vs[i + 1], bs[i].t) == Holding(k);
    assert acts[i + 1].Pick? && PhaseOf(ws[i + 2], acts[i + 1].t) == Holding(k);
  }

  lemma RolledLists(w: World, prov: string)
    ensures Listed(Rolled(w.pool, w.now), prov) == Listed(w.pool, prov)
  {
  }

  lemma RunTail(ws: seq<World>, acts: seq<Action>)
    requires Run(ws, acts) && |acts| > 0
    ensures Run(ws[1..], acts[1..])
    ensures |acts| > 1 ==> Sane(ws[1].pool)
  {
    hide Sane, Enabled, Next;
  }
}
