// What a key's fields mean in terms of the events that happened to it: the cooldown ladder, the
// lifetime total, and the daily and per-minute counters that roll lazily.

module History {
  import opened Wrappers
  import opened Clock
  import opened Ledger
  import opened World

  type Log = seq<Event>

  function Init(log: Log): Log
    requires log != []
  {
    log[..|log| - 1]
  }

  function Last(log: Log): Event
    requires log != []
  {
    log[|log| - 1]
  }

  lemma Grown(log: Log, e: Event)
    ensures Init(log + [e]) == log && Last(log + [e]) == e
  {
  }

  // ---------- the ladder ----------

  predicate Kills(e: Event) {
    e.Failure? && Fatal(e.code)
  }

  /** A benching whose length the provider named. */
  predicate Guided(e: Event) {
    e.Failure? && !Fatal(e.code) && !Blameless(e.code) && e.retry > 0
  }

  /** A benching of the gateway's own. */
  predicate Unguided(e: Event) {
    e.Break? || (e.Failure? && !Fatal(e.code) && !Blameless(e.code) && e.retry <= 0)
  }

  /** A success or a restart clears the cooldown and the ladder. */
  predicate Clears(e: Event) {
    e.Success? || e.Resumed?
  }

  /** Unguided benchings since the last success. */
  function Rungs(log: Log): nat {
    if log == [] || Clears(Last(log)) then 0
    else (if Unguided(Last(log)) then 1 else 0) + Rungs(Init(log))
  }

  function AtMost3(n: nat): nat {
    if n < RUNGS then n else RUNGS - 1
  }

  /** When the last benching after the last success ends; NEVER when there is none. */
  function BenchedUntil(log: Log): int {
    if log == [] || Clears(Last(log)) then NEVER
    else if Unguided(Last(log)) then Last(log).at + Rung(AtMost3(Rungs(Init(log))))
    else if Guided(Last(log)) then Last(log).at + Last(log).retry
    else BenchedUntil(Init(log))
  }

  ghost predicate Died(log: Log) {
    exists e :: e in log && Kills(e)
  }

  /** Every payment ever made. */
  function Lifetime(log: Log): Spend {
    if log == [] then NO_SPEND
    else if Last(log).Resumed? then Last(log).kept.life
    else if Last(log).Payment? && Last(log).s.Some? then Lifetime(Init(log)).Add(Last(log).s.value)
    else Lifetime(Init(log))
  }

  /** The average of the times to the first token. */
  function Pace(log: Log): int {
    if log == [] then 0
    else if Last(log).Resumed? then Last(log).kept.ttft
    else if Last(log).Success? then Measured(Pace(Init(log)), Last(log).ttft)
    else Pace(Init(log))
  }

  /** When the last success was; NEVER when there is none. */
  function LastUsed(log: Log): int {
    if log == [] || Last(log).Resumed? then NEVER
    else if Last(log).Success? then Last(log).at else LastUsed(Init(log))
  }

  /** Cooldown, ladder, death, last use, lifetime total and average are what the key's events make them. */
  ghost predicate Faithful(c: KeyState, log: Log) {
    && c.step == AtMost3(Rungs(log)) && c.until == BenchedUntil(log)
    && (c.dead <==> Died(log)) && c.life == Lifetime(log) && c.ttft == Pace(log) && c.last == LastUsed(log)
  }

  lemma DiedGrows(log: Log, e: Event)
    ensures Died(log + [e]) <==> Died(log) || Kills(e)
  {
    if Died(log) {
      var x :| x in log && Kills(x);
      assert x in log + [e];
    }
    assert e in log + [e];
  }

  lemma FailedFaithful(c: KeyState, log: Log, now: nat, code: int, retry: int)
    requires Faithful(c, log) && c.step < RUNGS
    ensures Faithful(Failed(c, now, code, retry), log + [Failure(now, code, retry)])
  {
    hide Died;
    Grown(log, Failure(now, code, retry));
    DiedGrows(log, Failure(now, code, retry));
  }

  lemma SouredFaithful(c: KeyState, log: Log, now: nat)
    requires Faithful(c, log) && c.step < RUNGS
    ensures Faithful(Soured(c, now), log + [Break(now)])
  {
    hide Died;
    Grown(log, Break(now));
    DiedGrows(log, Break(now));
  }

  lemma SucceededFaithful(c: KeyState, log: Log, now: nat, ttft: int)
    requires Faithful(c, log)
    ensures Faithful(Succeeded(c, now, ttft), log + [Success(now, ttft)])
  {
    hide Died, Measured;
    Grown(log, Success(now, ttft));
    DiedGrows(log, Success(now, ttft));
  }

  lemma ChargedFaithful(c: KeyState, log: Log, now: nat, s: Option<Spend>)
    requires Faithful(c, log)
    ensures Faithful(Charged(c, s), log + [Payment(now, s)])
  {
    hide Died;
    Grown(log, Payment(now, s));
    DiedGrows(log, Payment(now, s));
  }

  /** Fields the events do not speak of. */
  lemma SameFaithful(c: KeyState, d: KeyState, log: Log)
    requires Faithful(c, log) && d.step == c.step && d.until == c.until && d.dead == c.dead && d.life == c.life
    requires d.ttft == c.ttft && d.last == c.last
    ensures Faithful(d, log)
  {
  }

  // ---------- the counters ----------

  datatype Daily = Daily(reqs: int, errs: int, toks: Spend, blind: int)

  function DailyOf(s: Saved): Daily {
    Daily(s.reqs, s.errs, s.toks, s.blind)
  }

  function Count(t: Daily, e: Event): Daily {
    match e
    case Success(_, _) => t.(reqs := t.reqs + 1)
    case Failure(_, _, _) => t.(errs := t.errs + 1)
    case Break(_) => t.(errs := t.errs + 1)
    case Payment(_, None) => t.(blind := t.blind + 1)
    case Payment(_, Some(v)) => t.(toks := t.toks.Add(v))
    case Resumed(_, kept) => DailyOf(kept)
  }

  const NOTHING := Daily(0, 0, NO_SPEND, 0)

  /** The counts of day d. */
  function Tally(log: Log, d: nat): Daily {
    if log == [] then NOTHING
    else if Last(log).Resumed? then if DayOf(Last(log).at) == d then DailyOf(Last(log).kept) else NOTHING
    else if DayOf(Last(log).at) == d then Count(Tally(Init(log), d), Last(log))
    else Tally(Init(log), d)
  }

  /** Successes in minute m, since the last restart. */
  function Minutes(log: Log, m: nat): nat {
    if log == [] || Last(log).Resumed? then 0
    else (if Last(log).Success? && MinuteOf(Last(log).at) == m then 1 else 0) + Minutes(Init(log), m)
  }

  /** How many events there are of a kind, and what they add up to. */
  function CountIf(log: Log, f: Event -> bool): nat {
    if log == [] then 0 else CountIf(Init(log), f) + (if f(Last(log)) then 1 else 0)
  }

  function SumOf(log: Log, f: Event -> int): int {
    if log == [] then 0 else SumOf(Init(log), f) + f(Last(log))
  }

  predicate NeverResumed(log: Log) {
    forall i | 0 <= i < |log| :: !log[i].Resumed?
  }

  /** While there is no restart, the counts of a day are: the successes of that day; its failures and broken
      relays; its replies that did not tell their cost; and the sums of what the others told. */
  lemma {:induction false} TallyMeans(log: Log, d: nat)
    requires NeverResumed(log)
    ensures Tally(log, d).reqs == CountIf(log, (e: Event) => e.Success? && DayOf(e.at) == d)
    ensures Tally(log, d).errs == CountIf(log, (e: Event) => (e.Failure? || e.Break?) && DayOf(e.at) == d)
    ensures Tally(log, d).blind == CountIf(log, (e: Event) => e.Payment? && e.s.None? && DayOf(e.at) == d)
    ensures Tally(log, d).toks.input == SumOf(log, (e: Event) => if e.Payment? && e.s.Some? && DayOf(e.at) == d then e.s.value.input else 0)
    ensures Tally(log, d).toks.output == SumOf(log, (e: Event) => if e.Payment? && e.s.Some? && DayOf(e.at) == d then e.s.value.output else 0)
    ensures Tally(log, d).toks.total == SumOf(log, (e: Event) => if e.Payment? && e.s.Some? && DayOf(e.at) == d then e.s.value.total else 0)
  {
    if log != [] {
      TallyMeans(Init(log), d);
      assert !Last(log).Resumed?;
    }
  }

  /** And the lifetime total is the sum of all that was told. */
  lemma {:induction false} LifetimeMeans(log: Log)
    requires NeverResumed(log)
    ensures Lifetime(log).input == SumOf(log, (e: Event) => if e.Payment? && e.s.Some? then e.s.value.input else 0)
    ensures Lifetime(log).output == SumOf(log, (e: Event) => if e.Payment? && e.s.Some? then e.s.value.output else 0)
    ensures Lifetime(log).total == SumOf(log, (e: Event) => if e.Payment? && e.s.Some? then e.s.value.total else 0)
  {
    if log != [] {
      LifetimeMeans(Init(log));
      assert !Last(log).Resumed?;
    }
  }

  predicate Before(log: Log, t: nat) {
    forall i | 0 <= i < |log| :: log[i].at <= t
  }

  /** Daily and per-minute counters are those of the day and minute of t. */
  predicate Current(c: KeyState, log: Log, t: nat) {
    Daily(c.reqs, c.errs, c.toks, c.blind) == Tally(log, DayOf(t)) && c.mins == Minutes(log, MinuteOf(t))
  }

  lemma {:induction false} TallyNone(log: Log, t: nat, d: nat)
    requires Before(log, t) && DayOf(t) < d
    ensures Tally(log, d) == NOTHING
  {
    if log != [] {
      assert DayOf(Last(log).at) <= DayOf(t);
      TallyNone(Init(log), t, d);
    }
  }

  lemma {:induction false} MinutesNone(log: Log, t: nat, m: nat)
    requires Before(log, t) && MinuteOf(t) < m
    ensures Minutes(log, m) == 0
  {
    if log != [] {
      assert MinuteOf(Last(log).at) <= MinuteOf(t);
      MinutesNone(Init(log), t, m);
    }
  }

  /** Rolling on time brings a current key up to date. */
  lemma RolledCurrent(c: KeyState, log: Log, t: nat, now: nat)
    requires Current(c, log, t) && Before(log, t) && t <= now
    requires DayOf(now) == DayOf(t) || YearDay(now) != YearDay(t)
    ensures Current(RolledCell(c, YearDay(now) != YearDay(t), MinuteOf(now) != MinuteOf(t)), log, now)
  {
    hide YearDay;
    assert DayOf(t) <= DayOf(now) && MinuteOf(t) <= MinuteOf(now);
    SameDay(t, now);
    if DayOf(t) < DayOf(now) {
      TallyNone(log, t, DayOf(now));
    }
    if MinuteOf(t) < MinuteOf(now) {
      MinutesNone(log, t, MinuteOf(now));
    }
  }

  lemma SameDay(a: nat, b: nat)
    ensures DayOf(a) == DayOf(b) ==> YearDay(a) == YearDay(b)
  {
  }

  lemma EventCurrent(c: KeyState, log: Log, now: nat, e: Event)
    requires Current(c, log, now) && e.at == now && !e.Resumed?
    ensures Tally(log + [e], DayOf(now)) == Count(Daily(c.reqs, c.errs, c.toks, c.blind), e)
    ensures Minutes(log + [e], MinuteOf(now)) == c.mins + (if e.Success? then 1 else 0)
  {
    Grown(log, e);
  }

  // ---------- the world ----------

  /** Every key's events explain its ladder, cooldown, death and lifetime total. */
  ghost predicate Remembers(w: World) {
    && w.logs.Keys == w.pool.cells.Keys
    && forall k | k in w.pool.cells :: Faithful(w.pool.cells[k], w.logs[k])
  }

  /** The keys in the pool count the day and minute of the last rolling access. */
  ghost predicate UpToDate(w: World) {
    && w.logs.Keys == w.pool.cells.Keys && InPool(w.pool) <= w.pool.cells.Keys
    && w.pool.day == YearDay(w.last) && w.pool.min == MinuteOf(w.last) && w.last <= w.now
    && (forall k | k in w.logs :: Before(w.logs[k], w.last))
    && (forall k | k in InPool(w.pool) :: Current(w.pool.cells[k], w.logs[k], w.last))
  }

  predicate Rolls(a: Action) {
    a.Pick? || a.Ok? || a.Fail? || a.Charge? || a.Sour? || a.Look?
  }

  /** A rolling access that notices every change of day. */
  predicate Prompt(w: World) {
    DayOf(w.now) == DayOf(w.last) || YearDay(w.now) != YearDay(w.last)
  }

  /** Accesses fewer than 365 calendar days apart are prompt. */
  lemma PromptWithinAYear(w: World)
    requires w.last <= w.now && DayOf(w.now) - DayOf(w.last) < 365
    ensures Prompt(w)
  {
    YearDayTellsDays(w.last, w.now);
  }

  // ---------- every action keeps the history ----------

  lemma RolledSame(c: KeyState, d: bool, m: bool)
    ensures var r := RolledCell(c, d, m);
            r.step == c.step && r.until == c.until && r.dead == c.dead && r.life == c.life && r.ttft == c.ttft && r.last == c.last
  {
  }

  lemma RollRemembers(w: World)
    requires Sane(w.pool) && Remembers(w)
    ensures Remembers(w.(pool := Rolled(w.pool, w.now)))
  {
    hide Faithful, RolledCell, InPool, Sane;
    var r := Rolled(w.pool, w.now);
    forall k | k in r.cells ensures Faithful(r.cells[k], w.logs[k]) {
      RolledSame(w.pool.cells[k], YearDay(w.now) != w.pool.day, MinuteOf(w.now) != w.pool.min);
      SameFaithful(w.pool.cells[k], r.cells[k], w.logs[k]);
    }
  }

  lemma TouchRemembers(w: World, a: Action, k: Ref, c: KeyState, e: Event)
    requires Sane(w.pool) && Remembers(w) && k in w.pool.cells && Faithful(c, w.logs[k] + [e])
    ensures Remembers(Touch(w, a, k, c, e))
  {
    hide Faithful, Sane, Rolled, Moved;
    RollRemembers(w);
    RolledKeeps(w.pool, w.now);
  }

  lemma TouchedRemembers(w: World, a: Action)
    requires Sane(w.pool) && Remembers(w) && Enabled(w, a) && (a.Ok? || a.Fail? || a.Charge? || a.Sour?)
    ensures Remembers(Next(w, a))
  {
    hide Faithful, Sane, Rolled, Touch, Failed, Soured, Succeeded, Charged, Remembers;
    RollRemembers(w);
    RolledKeeps(w.pool, w.now);
    var k := PhaseOf(w, a.t).k;
    var c := Rolled(w.pool, w.now).cells[k];
    FaithfulAt(w.(pool := Rolled(w.pool, w.now)), k);
    SaneStep(Rolled(w.pool, w.now), k);
    match a
    case Ok(_, ttft) =>
      SucceededFaithful(c, w.logs[k], w.now, ttft);
      TouchRemembers(w, a, k, Succeeded(c, w.now, ttft), Success(w.now, ttft));
    case Fail(_, code, retry) =>
      FailedFaithful(c, w.logs[k], w.now, code, retry);
      TouchRemembers(w, a, k, Failed(c, w.now, code, retry), Failure(w.now, code, retry));
    case Charge(_, s) =>
      ChargedFaithful(c, w.logs[k], w.now, s);
      TouchRemembers(w, a, k, Charged(c, s), Payment(w.now, s));
    case Sour(_) =>
      SouredFaithful(c, w.logs[k], w.now);
      TouchRemembers(w, a, k, Soured(c, w.now), Break(w.now));
  }

  lemma FaithfulAt(w: World, k: Ref)
    requires Remembers(w) && k in w.pool.cells
    ensures k in w.logs && Faithful(w.pool.cells[k], w.logs[k])
  {
  }

  /** Cells that differ from a remembering world's only in fields the history does not name. */
  lemma CellsRemember(w: World, v: World)
    requires Remembers(w) && v.logs == w.logs && v.pool.cells.Keys == w.pool.cells.Keys
    requires forall k | k in w.pool.cells ::
               var c, d := w.pool.cells[k], v.pool.cells[k];
               d.step == c.step && d.until == c.until && d.dead == c.dead && d.life == c.life && d.ttft == c.ttft && d.last == c.last
    ensures Remembers(v)
  {
    hide Faithful;
    forall k | k in v.pool.cells ensures Faithful(v.pool.cells[k], v.logs[k]) {
      SameFaithful(w.pool.cells[k], v.pool.cells[k], w.logs[k]);
    }
  }

  /** Picking changes only live counts and the cursor. */
  lemma PickedCells<K>(s: PoolState<K>, prov: string, now: nat)
    requires Sane(s) && forall k | k in Listed(s, prov) :: k in s.cells
    ensures var p := PickedFrom(s, prov, now).0;
            && p.keys == s.keys && p.day == s.day && p.min == s.min && p.cells.Keys == s.cells.Keys
            && forall k | k in s.cells :: p.cells[k] == s.cells[k].(live := p.cells[k].live)
  {
    hide FreeFrom, Sane, Cursor;
    if FreeFrom(s, prov, now, 0).Some? {
      SaneListed(s, prov);
      PickedHit(s, prov, now, FreeFrom(s, prov, now, 0).value);
    } else {
      PickedMiss(s, prov, now);
    }
  }

  lemma ReloadRemembers(w: World, a: Action)
    requires Sane(w.pool) && Remembers(w) && a.Reload? && Enabled(w, a)
    ensures Remembers(Next(w, a))
  {
    hide Faithful, Sane, Adopted;
    AdoptedKeys(w.pool, a.next, a.slots, a.provs);
    forall k | k in a.next.cells ensures Faithful(a.next.cells[k], Next(w, a).logs[k]) {
      AdoptedCell(w.pool, a.next, a.slots, a.provs, k);
      if k in w.pool.cells {
        SameFaithful(w.pool.cells[k], a.next.cells[k], w.logs[k]);
      } else {
        FreshFaithful(a.next.cells[k]);
      }
    }
  }

  lemma FreshFaithful(c: KeyState)
    requires c == FreshKey(c.val, c.id, c.prov)
    ensures Faithful(c, []) && Current(c, [], 0)
  {
  }

  /** The cooldown, the ladder, death and the lifetime total are always what the events say. */
  lemma StepRemembers(w: World, a: Action)
    requires Sane(w.pool) && Remembers(w) && Enabled(w, a)
    ensures Remembers(Next(w, a))
  {
    hide Faithful, Sane, Rolled, PickedFrom, Adopted;
    RollRemembers(w);
    RolledKeeps(w.pool, w.now);
    var v := w.(pool := Rolled(w.pool, w.now));
    match a
    case Pick(_, prov) =>
      SaneListed(v.pool, prov);
      PickedCells(v.pool, prov, w.now);
      CellsRemember(v, Next(w, a));
    case Done(t) =>
      ReleasedSame(w.pool.cells[PhaseOf(w, t).k]);
      CellsRemember(w, Next(w, a));
    case End(_) => CellsRemember(w, Next(w, a));
    case Look => CellsRemember(v, Next(w, a));
    case Tick(_) => CellsRemember(w, Next(w, a));
    case Reload(_, _, _) => ReloadRemembers(w, a);
    case _ => TouchedRemembers(w, a);
  }

  lemma ReleasedSame(c: KeyState)
    ensures Released(c) == c.(live := c.live - 1)
  {
  }

  lemma RollUpToDate(w: World)
    requires Sane(w.pool) && UpToDate(w) && Prompt(w)
    ensures UpToDate(w.(pool := Rolled(w.pool, w.now), last := w.now))
  {
    hide Sane, RolledCell, YearDay, MinuteOf, InPool, Current, Before;
    RolledKeeps(w.pool, w.now);
    var r := Rolled(w.pool, w.now);
    forall k | k in InPool(w.pool) ensures Current(r.cells[k], w.logs[k], w.now) {
      RolledCurrent(w.pool.cells[k], w.logs[k], w.last, w.now);
    }
    forall k | k in w.logs ensures Before(w.logs[k], w.now) {
      BeforeLater(w.logs[k], w.last, w.now);
    }
  }

  lemma BeforeLater(log: Log, t: nat, u: nat)
    requires Before(log, t) && t <= u
    ensures Before(log, u)
  {
  }

  lemma TouchUpToDate(w: World, a: Action, k: Ref, c: KeyState, e: Event)
    requires Sane(w.pool) && UpToDate(w) && Prompt(w) && k in w.pool.cells && e.at == w.now
    requires k in InPool(w.pool) ==> Current(c, w.logs[k] + [e], w.now)
    ensures UpToDate(Touch(w, a, k, c, e))
  {
    hide Sane, Rolled, YearDay, MinuteOf, Current, Moved;
    RollUpToDate(w);
    RolledKeeps(w.pool, w.now);
    var v := Touch(w, a, k, c, e);
    assert InPool(v.pool) == InPool(Rolled(w.pool, w.now));
  }

  lemma TouchedUpToDate(w: World, a: Action)
    requires Sane(w.pool) && UpToDate(w) && Prompt(w) && Enabled(w, a) && (a.Ok? || a.Fail? || a.Charge? || a.Sour?)
    ensures UpToDate(Next(w, a))
  {
    hide Sane, Rolled, Touch, UpToDate, InPool, Current, Failed, Soured, Succeeded, Charged;
    RollUpToDate(w);
    RolledKeeps(w.pool, w.now);
    var k := PhaseOf(w, a.t).k;
    var c := Rolled(w.pool, w.now).cells[k];
    CurrentAt(w.(pool := Rolled(w.pool, w.now), last := w.now), k);
    SaneStep(Rolled(w.pool, w.now), k);
    match a
    case Ok(_, ttft) =>
      TouchedCurrent(c, w.logs[k], w.now, 0, 0, ttft, None);
      TouchUpToDate(w, a, k, Succeeded(c, w.now, ttft), Success(w.now, ttft));
    case Fail(_, code, retry) =>
      TouchedCurrent(c, w.logs[k], w.now, code, retry, 0, None);
      TouchUpToDate(w, a, k, Failed(c, w.now, code, retry), Failure(w.now, code, retry));
    case Charge(_, s) =>
      TouchedCurrent(c, w.logs[k], w.now, 0, 0, 0, s);
      TouchUpToDate(w, a, k, Charged(c, s), Payment(w.now, s));
    case Sour(_) =>
      TouchedCurrent(c, w.logs[k], w.now, 0, 0, 0, None);
      TouchUpToDate(w, a, k, Soured(c, w.now), Break(w.now));
  }

  lemma CurrentAt(w: World, k: Ref)
    requires UpToDate(w) && k in w.pool.cells
    ensures k in w.logs && (k in InPool(w.pool) ==> Current(w.pool.cells[k], w.logs[k], w.last))
  {
  }

  lemma TouchedCurrent(c: KeyState, log: Log, now: nat, code: int, retry: int, ttft: int, s: Option<Spend>)
    requires c.step < RUNGS
    ensures Current(c, log, now) ==>
              && Current(Failed(c, now, code, retry), log + [Failure(now, code, retry)], now)
              && Current(Soured(c, now), log + [Break(now)], now)
              && Current(Succeeded(c, now, ttft), log + [Success(now, ttft)], now)
              && Current(Charged(c, s), log + [Payment(now, s)], now)
  {
    hide Tally, Minutes, Measured, DayOf, MinuteOf;
    if Current(c, log, now) {
      EventCurrent(c, log, now, Failure(now, code, retry));
      EventCurrent(c, log, now, Break(now));
      EventCurrent(c, log, now, Success(now, ttft));
      EventCurrent(c, log, now, Payment(now, s));
    }
  }

  /** Cells that differ from an up-to-date world's only in fields that are not counters. */
  lemma CellsUpToDate(w: World, v: World)
    requires UpToDate(w) && v.logs == w.logs && v.last == w.last && w.now <= v.now
    requires v.pool.keys == w.pool.keys && v.pool.day == w.pool.day && v.pool.min == w.pool.min
    requires v.pool.cells.Keys == w.pool.cells.Keys
    requires forall k | k in w.pool.cells ::
               var c, d := w.pool.cells[k], v.pool.cells[k];
               d.reqs == c.reqs && d.errs == c.errs && d.toks == c.toks && d.blind == c.blind && d.mins == c.mins
    ensures UpToDate(v)
  {
    hide Before, YearDay, MinuteOf, Tally, Minutes;
    assert InPool(v.pool) == InPool(w.pool);
  }

  lemma ReloadUpToDate(w: World, a: Action)
    requires Sane(w.pool) && UpToDate(w) && a.Reload? && Enabled(w, a)
    ensures UpToDate(Next(w, a))
  {
    hide Sane, Adopted, YearDay, MinuteOf, Current, InPool, Before;
    AdoptedKeys(w.pool, a.next, a.slots, a.provs);
    AdoptedTimes(w.pool, a.next, a.slots, a.provs);
    var v := Next(w, a);
    forall k | k in InPool(a.next) ensures k in a.next.cells && Current(a.next.cells[k], v.logs[k], w.last) {
      AdoptedCell(w.pool, a.next, a.slots, a.provs, k);
      if k in w.pool.cells {
        SameCurrent(w.pool.cells[k], a.next.cells[k], w.logs[k], w.last);
      } else {
        FreshCurrent(a.next.cells[k], w.last);
      }
    }
    forall k | k in v.logs ensures Before(v.logs[k], w.last) {
      NoneBefore(w.last);
    }
  }

  lemma NoneBefore(t: nat)
    ensures Before([], t)
  {
  }

  lemma AdoptedTimes<K>(s: PoolState<K>, s': PoolState<K>, slots: map<string, seq<Slot>>, provs: map<string, Provider>)
    requires Sane(s) && Adopted(s, s', slots, provs)
    ensures s'.day == s.day && s'.min == s.min && InPool(s') <= s'.cells.Keys
  {
  }

  lemma SameCurrent(c: KeyState, d: KeyState, log: Log, t: nat)
    requires Current(c, log, t) && d == c.(prov := d.prov)
    ensures Current(d, log, t)
  {
  }

  lemma FreshCurrent(c: KeyState, t: nat)
    requires c == FreshKey(c.val, c.id, c.prov)
    ensures Current(c, [], t)
  {
  }

  /** Counters stay up to date as long as rolling accesses are prompt. */
  lemma StepUpToDate(w: World, a: Action)
    requires Sane(w.pool) && UpToDate(w) && Enabled(w, a) && (Rolls(a) ==> Prompt(w))
    ensures UpToDate(Next(w, a))
    ensures Rolls(a) ==> Next(w, a).last == w.now
  {
    hide Sane, Rolled, PickedFrom, Adopted, UpToDate, Prompt;
    RolledKeeps(w.pool, w.now);
    var v := w.(pool := Rolled(w.pool, w.now), last := w.now);
    if Rolls(a) {
      RollUpToDate(w);
    }
    match a
    case Pick(_, prov) =>
      SaneListed(v.pool, prov);
      PickedCells(v.pool, prov, w.now);
      CellsUpToDate(v, Next(w, a));
    case Done(t) =>
      ReleasedSame(w.pool.cells[PhaseOf(w, t).k]);
      CellsUpToDate(w, Next(w, a));
    case End(_) => CellsUpToDate(w, Next(w, a));
    case Look => CellsUpToDate(v, Next(w, a));
    case Tick(_) => CellsUpToDate(w, Next(w, a));
    case Reload(_, _, _) => ReloadUpToDate(w, a);
    case _ => TouchedUpToDate(w, a);
  }
}
