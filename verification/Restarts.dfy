// The gateway over its whole life: runs of the process joined by restarts, each of which saves the
// counters and restores them into a new pool.

module Restarts {
  import opened Clock
  import opened Ledger
  import opened World
  import opened History
  import opened Runs
  import opened Config
  import opened Reload
  import opened State

  // A world, and what happened to each key's id before this process.
  datatype Chain = Chain(w: World, past: map<Ref, Log>)

  datatype Turn =
    | Act(a: Action)
    | Restart(slots: map<string, seq<Slot>>, provs: map<string, Provider>, snap: Snapshot, w: World)

  /** The events of this process: the log without what the restart restored. */
  function Own(log: Log): Log {
    if log != [] && log[0].Resumed? then log[1..] else log
  }

  /** Everything that ever happened to the id of this key, over all restarts. */
  function Full(c: Chain, k: Ref): Log {
    (if k in c.past then c.past[k] else []) + (if k in c.w.logs then Own(c.w.logs[k]) else [])
  }

  ghost function Empty(now: nat): PoolState<Ref> {
    PoolState(map[], map[], YearDay(now), MinuteOf(now), map[])
  }

  /** w' is the world of a process started after w stopped: a new pool of fresh keys, their counters
      restored from what w saved. */
  ghost predicate Resumes(w: World, w': World, slots: map<string, seq<Slot>>, provs: map<string, Provider>, snap: Snapshot) {
    && Sane(w.pool) && SavedFrom(w.pool, snap) && w.now <= w'.now
    && (exists u :: Into(w', u, slots, provs, snap))
    && w'.threads == map[] && w'.last == w'.now
    && w'.logs == map k | k in w'.pool.cells :: [Resumed(w'.now, SavedOf(w'.pool.cells[k]))]
  }

  /** u is the new pool before its counters were restored. */
  ghost predicate Into(w': World, u: PoolState<Ref>, slots: map<string, seq<Slot>>, provs: map<string, Provider>, snap: Snapshot) {
    FreshPool(u, slots, provs, w'.now) && w'.pool == Restored(u, snap)
  }

  /** A pool just started with these slots. */
  ghost predicate FreshPool(u: PoolState<Ref>, slots: map<string, seq<Slot>>, provs: map<string, Provider>, now: nat) {
    && Sane(u) && Sane(Empty(now)) && Adopted(Empty(now), u, slots, provs) && u.day == YearDay(now) && u.min == MinuteOf(now)
    && (forall k | k in u.cells :: u.cells[k] == FreshKey(u.cells[k].val, u.cells[k].id, u.cells[k].prov))
  }

  /** The whole history of an id, if some key of the pool has it. */
  ghost function Inherited(c: Chain, id: string): Log {
    if k :| Owns(c.w.pool, k, id) then Full(c, k) else []
  }

  ghost predicate Possible(c: Chain, t: Turn) {
    match t
    case Act(a) => Sane(c.w.pool) && Enabled(c.w, a) && (a.Reload? ==> UniqueSlots(a.slots))
    case Restart(slots, provs, snap, w') => Resumes(c.w, w', slots, provs, snap) && UniqueSlots(slots)
  }

  ghost function After(c: Chain, t: Turn): Chain
    requires Possible(c, t)
  {
    match t
    case Act(a) =>
      var v := Next(c.w, a);
      Chain(v, map k | k in v.pool.cells :: if k in c.past then c.past[k] else [])
    case Restart(slots, provs, snap, w') =>
      Chain(w', map k | k in w'.pool.cells :: Inherited(c, w'.pool.cells[k].id))
  }

  // ---------- totals ----------

  predicate NoRestart(log: Log) {
    forall i | 0 <= i < |log| :: !log[i].Resumed?
  }

  /** The log goes on from totals that are those of the past. */
  predicate Totals(past: Log, log: Log) {
    && NoRestart(Own(log))
    && (if log != [] && log[0].Resumed? then log[0].kept.life == Lifetime(past) && log[0].kept.ttft == Pace(past) else past == [])
  }

  lemma OwnInit(log: Log)
    requires Own(log) != []
    ensures log != [] && Own(Init(log)) == Init(Own(log)) && Last(log) == Last(Own(log))
    ensures Init(log) != [] ==> Init(log)[0] == log[0]
    ensures Init(log) == [] ==> !log[0].Resumed?
  {
  }

  lemma OwnNothing(log: Log)
    requires Own(log) == []
    ensures log == [] || (log == [log[0]] && log[0].Resumed?)
  {
  }

  lemma JoinInit(past: Log, own: Log)
    requires own != []
    ensures Init(past + own) == past + Init(own) && Last(past + own) == Last(own)
  {
  }

  /** Totals over one process continue those before it. */
  lemma {:induction false} TotalsContinue(past: Log, log: Log)
    requires Totals(past, log)
    ensures Lifetime(log) == Lifetime(past + Own(log)) && Pace(log) == Pace(past + Own(log))
    decreases |log|
  {
    hide Measured;
    if Own(log) == [] {
      OwnNothing(log);
      assert past + Own(log) == past;
      if log != [] {
        assert Last(log) == log[0];
      }
    } else {
      OwnInit(log);
      JoinInit(past, Own(log));
      InitTotals(past, log);
      TotalsContinue(past, Init(log));
    }
  }

  lemma InitTotals(past: Log, log: Log)
    requires Totals(past, log) && Own(log) != []
    ensures Totals(past, Init(log)) && !Last(log).Resumed?
  {
    OwnInit(log);
    var own := Own(log);
    assert Last(own) == own[|own| - 1];
  }

  // ---------- daily counts ----------

  /** The log goes on from daily counts that are those of the past on the day of the restart. */
  predicate Counts(past: Log, log: Log) {
    && NoRestart(Own(log)) && NoRestart(past)
    && (if log != [] && log[0].Resumed?
        then Before(past, log[0].at) && DailyOf(log[0].kept) == Tally(past, DayOf(log[0].at)) else past == [])
  }

  lemma InitCounts(past: Log, log: Log)
    requires Counts(past, log) && Own(log) != []
    ensures Counts(past, Init(log)) && !Last(log).Resumed?
  {
    hide Before, Tally;
    OwnInit(log);
    var own := Own(log);
    assert Last(own) == own[|own| - 1];
  }

  /** Daily counts over one process continue those before it. */
  lemma {:induction false} CountsContinue(past: Log, log: Log, d: nat)
    requires Counts(past, log) && (log != [] && log[0].Resumed? ==> DayOf(log[0].at) <= d)
    ensures Tally(log, d) == Tally(past + Own(log), d)
    decreases |log|
  {
    hide Counts, Own, Tally, Before;
    if Own(log) == [] {
      CountsStart(past, log, d);
    } else {
      OwnInit(log);
      JoinInit(past, Own(log));
      InitCounts(past, log);
      CountsContinue(past, Init(log), d);
      TallyStep(log, d);
      TallyStep(past + Own(log), d);
    }
  }

  lemma TallyStep(log: Log, d: nat)
    requires log != [] && !Last(log).Resumed?
    ensures Tally(log, d) == if DayOf(Last(log).at) == d then Count(Tally(Init(log), d), Last(log)) else Tally(Init(log), d)
  {
  }

  lemma CountsStart(past: Log, log: Log, d: nat)
    requires Counts(past, log) && Own(log) == [] && (log != [] && log[0].Resumed? ==> DayOf(log[0].at) <= d)
    ensures Tally(log, d) == Tally(past + Own(log), d)
  {
    hide Before, DayOf;
    OwnNothing(log);
    assert past + Own(log) == past;
    if log != [] {
      assert Last(log) == log[0];
      if DayOf(log[0].at) < d {
        TallyNone(past, log[0].at, d);
      }
    }
  }

  // ---------- one turn ----------

  /** An action logs at most one event, which is no restart; new keys have none. */
  lemma StepLogs(w: World, a: Action, k: Ref)
    requires Sane(w.pool) && Enabled(w, a) && w.logs.Keys == w.pool.cells.Keys && Sane(Next(w, a).pool)
    requires k in Next(w, a).pool.cells
    ensures k in Next(w, a).logs
    ensures if k !in w.logs then Next(w, a).logs[k] == []
            else Next(w, a).logs[k] == w.logs[k] || exists e: Event :: !e.Resumed? && Next(w, a).logs[k] == w.logs[k] + [e]
  {
    hide Sane, YearDay, MinuteOf, InPool, PickedFrom, Adopted, Rung;
    RolledKeeps(w.pool, w.now);
    if a.Pick? {
      SaneListed(Rolled(w.pool, w.now), a.prov);
      PickedCells(Rolled(w.pool, w.now), a.prov, w.now);
    }
  }

  lemma AppendTotals(past: Log, log: Log, e: Event)
    requires Totals(past, log) && !e.Resumed?
    ensures Totals(past, log + [e])
  {
    hide Lifetime, Pace;
    if log == [] {
      assert log + [e] == [e];
    } else {
      assert Own(log + [e]) == Own(log) + [e];
    }
  }

  lemma AppendCounts(past: Log, log: Log, e: Event)
    requires Counts(past, log) && !e.Resumed?
    ensures Counts(past, log + [e]) && (log != [] ==> (log + [e])[0] == log[0])
  {
    hide Tally, Before;
    if log == [] {
      assert log + [e] == [e];
    } else {
      assert Own(log + [e]) == Own(log) + [e];
    }
  }

  /** Each key's history over restarts explains its totals. */
  ghost predicate Follows(c: Chain) {
    && Sane(c.w.pool) && UniqueIds(c.w.pool) && Remembers(c.w) && c.past.Keys == c.w.pool.cells.Keys
    && forall k | k in c.w.pool.cells :: Totals(c.past[k], c.w.logs[k])
  }

  /** Lifetime total and average are the folds of everything that ever happened to the id. */
  lemma TotalsFollow(c: Chain, k: Ref)
    requires Follows(c) && k in c.w.pool.cells
    ensures c.w.pool.cells[k].life == Lifetime(Full(c, k)) && c.w.pool.cells[k].ttft == Pace(Full(c, k))
  {
    hide Sane, UniqueIds, Lifetime, Pace, Rungs, BenchedUntil, Died, LastUsed;
    FaithfulAt(c.w, k);
    TotalsContinue(c.past[k], c.w.logs[k]);
  }

  lemma ActFollows(c: Chain, a: Action)
    requires Follows(c) && Possible(c, Act(a))
    ensures Follows(After(c, Act(a)))
  {
    hide Sane, UniqueIds, Remembers, Totals, Enabled, Next, UniqueSlots;
    StepRemembers(c.w, a);
    StepUnique(c.w, a);
    StepIds(c.w, a);
    LogKeys(c.w);
    LogKeys(Next(c.w, a));
    var v := After(c, Act(a));
    forall k | k in v.w.pool.cells ensures Totals(v.past[k], v.w.logs[k]) {
      StepLogs(c.w, a, k);
      if k !in c.w.logs {
        NewTotals();
      } else if v.w.logs[k] != c.w.logs[k] {
        var e: Event :| !e.Resumed? && v.w.logs[k] == c.w.logs[k] + [e];
        AppendTotals(c.past[k], c.w.logs[k], e);
      }
    }
  }

  lemma LogKeys(w: World)
    requires Remembers(w)
    ensures w.logs.Keys == w.pool.cells.Keys
  {
  }

  lemma NewTotals()
    ensures Totals([], []) && Counts([], [])
  {
  }

  /** A new pool holds only listed keys, with unique ids. */
  lemma FreshUnique(u: PoolState<Ref>, slots: map<string, seq<Slot>>, provs: map<string, Provider>, now: nat)
    requires FreshPool(u, slots, provs, now) && UniqueSlots(slots)
    ensures UniqueIds(u) && u.cells.Keys == InPool(u)
  {
    hide Sane;
    assert InPool(Empty(now)) == {};
    ReloadKeeps(Empty(now), u, slots, provs);
  }

  /** Restoring changes no list and no id. */
  lemma RestoredIds(u: PoolState<Ref>, snap: Snapshot)
    requires Sane(u) && UniqueIds(u)
    ensures Sane(Restored(u, snap)) && UniqueIds(Restored(u, snap))
    ensures Restored(u, snap).keys == u.keys && Restored(u, snap).cells.Keys == u.cells.Keys
    ensures forall k | k in u.cells :: Restored(u, snap).cells[k].id == u.cells[k].id
    ensures InPool(Restored(u, snap)) == InPool(u)
  {
    hide Sane;
    RestoredSane(u, snap);
    SamePlaces(u, Restored(u, snap));
  }

  /** A fresh key after restoring: only its counters and totals differ from a new key's. */
  lemma RestoredFresh(c: KeyState, snap: Snapshot, today: bool)
    requires c == FreshKey(c.val, c.id, c.prov)
    ensures var r := RestoredCell(c, snap, today);
            r.step == 0 && r.until == NEVER && !r.dead && r.last == NEVER && r.mins == 0 && r.live == 0
  {
  }

  lemma ResumedFaithful(r: KeyState, now: nat)
    requires r.step == 0 && r.until == NEVER && !r.dead && r.last == NEVER && r.mins == 0
    ensures var log := [Resumed(now, SavedOf(r))];
            Faithful(r, log) && Current(r, log, now) && Before(log, now) && Own(log) == []
  {
    var e := Resumed(now, SavedOf(r));
    assert Last([e]) == e;
    assert forall x | x in [e] :: x == e;
  }

  /** The pool restored into. */
  lemma ResumesInto(w: World, w': World, slots: map<string, seq<Slot>>, provs: map<string, Provider>, snap: Snapshot)
    returns (u: PoolState<Ref>)
    requires Resumes(w, w', slots, provs, snap) && UniqueSlots(slots)
    ensures Sane(u) && u.day == YearDay(w'.now) && u.min == MinuteOf(w'.now) && w'.pool == Restored(u, snap)
    ensures forall k | k in u.cells :: u.cells[k] == FreshKey(u.cells[k].val, u.cells[k].id, u.cells[k].prov)
    ensures u.cells.Keys == InPool(u) && Sane(w'.pool) && UniqueIds(w'.pool) && InPool(w'.pool) == w'.pool.cells.Keys == u.cells.Keys
    ensures forall k | k in u.cells :: w'.pool.cells[k].id == u.cells[k].id
  {
    hide Sane, UniqueIds, UniqueSlots, InPool, YearDay, MinuteOf, Adopted, Restored, FreshKey;
    u :| Into(w', u, slots, provs, snap);
    FreshUnique(u, slots, provs, w'.now);
    RestoredIds(u, snap);
  }

  /** A fresh key restored from a pool where its id has an owner. */
  lemma RestoresFrom(s: PoolState<Ref>, snap: Snapshot, u: PoolState<Ref>, k: Ref)
    requires Sane(s) && UniqueIds(s) && SavedFrom(s, snap) && Sane(u)
    requires k in InPool(u) && k in u.cells && u.cells[k] == FreshKey(u.cells[k].val, u.cells[k].id, u.cells[k].prov)
    ensures var r, id := Restored(u, snap).cells[k], u.cells[k].id;
            && r.id == id && r.step == 0 && r.until == NEVER && !r.dead && r.last == NEVER && r.mins == 0 && r.live == 0
            && (forall j | Owns(s, j, id) ::
                  var o := s.cells[j];
                  && r.life == o.life && r.ttft == o.ttft
                  && DailyOf(SavedOf(r)) == if s.day == u.day then Daily(o.reqs, o.errs, o.toks, o.blind) else History.NOTHING)
            && ((forall j :: !Owns(s, j, id)) ==> r.life == NO_SPEND && r.ttft == 0 && DailyOf(SavedOf(r)) == History.NOTHING)
  {
    hide Sane, UniqueIds, InPool, SavedFrom;
    RestoredFresh(u.cells[k], snap, snap.day == u.day);
    SaveRestores(s, snap, u, k);
  }

  /** What a key of the new process has restored, and from whom. */
  lemma Restores(c: Chain, w': World, slots: map<string, seq<Slot>>, provs: map<string, Provider>, snap: Snapshot, k: Ref)
    requires Sane(c.w.pool) && UniqueIds(c.w.pool) && Resumes(c.w, w', slots, provs, snap) && UniqueSlots(slots)
    requires k in w'.pool.cells
    ensures var r := w'.pool.cells[k];
            && w'.logs.Keys == w'.pool.cells.Keys && w'.logs[k] == [Resumed(w'.now, SavedOf(r))]
            && r.step == 0 && r.until == NEVER && !r.dead && r.last == NEVER && r.mins == 0 && r.live == 0
            && (forall j | Owns(c.w.pool, j, r.id) ::
                  var o := c.w.pool.cells[j];
                  && r.life == o.life && r.ttft == o.ttft
                  && DailyOf(SavedOf(r)) == if c.w.pool.day == YearDay(w'.now) then Daily(o.reqs, o.errs, o.toks, o.blind) else History.NOTHING)
            && ((forall j :: !Owns(c.w.pool, j, r.id)) ==> r.life == NO_SPEND && r.ttft == 0 && DailyOf(SavedOf(r)) == History.NOTHING)
  {
    hide Sane, UniqueIds, UniqueSlots, InPool, YearDay, Adopted, Restored, FreshKey, Owns, SavedFrom;
    var u := ResumesInto(c.w, w', slots, provs, snap);
    RestoresFrom(c.w.pool, snap, u, k);
  }

  lemma ResumesWorld(c: Chain, w': World, slots: map<string, seq<Slot>>, provs: map<string, Provider>, snap: Snapshot)
    requires Sane(c.w.pool) && UniqueIds(c.w.pool) && Resumes(c.w, w', slots, provs, snap) && UniqueSlots(slots)
    ensures Sane(w'.pool) && UniqueIds(w'.pool) && Remembers(w') && UpToDate(w') && InPool(w'.pool) == w'.pool.cells.Keys
  {
    hide Sane, UniqueIds, UniqueSlots, InPool, YearDay, MinuteOf, Adopted, Faithful, Current, Before, Restored;
    var u := ResumesInto(c.w, w', slots, provs, snap);
    RestoredDay(u, snap);
    forall k | k in w'.pool.cells
      ensures w'.logs.Keys == w'.pool.cells.Keys
              && Faithful(w'.pool.cells[k], w'.logs[k]) && Current(w'.pool.cells[k], w'.logs[k], w'.now) && Before(w'.logs[k], w'.now)
    {
      Restores(c, w', slots, provs, snap, k);
      ResumedFaithful(w'.pool.cells[k], w'.now);
    }
  }

  lemma RestoredDay(u: PoolState<Ref>, snap: Snapshot)
    ensures Restored(u, snap).day == u.day && Restored(u, snap).min == u.min
  {
  }

  lemma RestartFollows(c: Chain, t: Turn)
    requires Follows(c) && t.Restart? && Possible(c, t)
    ensures Follows(After(c, t))
  {
    hide Sane, UniqueIds, Remembers, UniqueSlots, Lifetime, Pace, Owns, Resumes, Full;
    ResumesWorld(c, t.w, t.slots, t.provs, t.snap);
    LogKeys(t.w);
    var v := After(c, t);
    forall k | k in v.w.pool.cells ensures Totals(v.past[k], v.w.logs[k]) {
      Restores(c, t.w, t.slots, t.provs, t.snap, k);
      InheritedTotals(c, v.w.pool.cells[k].id);
      var e := Resumed(t.w.now, SavedOf(v.w.pool.cells[k]));
      assert v.w.logs[k] == [e] && Own([e]) == [];
    }
  }

  /** The totals of an id are those of its owner. */
  lemma InheritedTotals(c: Chain, id: string)
    requires Follows(c)
    ensures forall j | Owns(c.w.pool, j, id) ::
              c.w.pool.cells[j].life == Lifetime(Inherited(c, id)) && c.w.pool.cells[j].ttft == Pace(Inherited(c, id))
    ensures (forall j :: !Owns(c.w.pool, j, id)) ==> Lifetime(Inherited(c, id)) == NO_SPEND && Pace(Inherited(c, id)) == 0
  {
    hide Sane, UniqueIds, Remembers, Totals, Full;
    if k :| Owns(c.w.pool, k, id) {
      InheritedFrom(c, id, k);
      TotalsFollow(c, k);
      forall j | Owns(c.w.pool, j, id) ensures j == k {
        OnlyOwner(c.w.pool, j, k, id);
      }
    }
  }

  lemma InheritedFrom(c: Chain, id: string, k: Ref)
    requires Sane(c.w.pool) && UniqueIds(c.w.pool) && Owns(c.w.pool, k, id)
    ensures Inherited(c, id) == Full(c, k)
  {
    hide Sane, UniqueIds, Full, InPool;
    forall j | Owns(c.w.pool, j, id) ensures j == k {
      OnlyOwner(c.w.pool, j, k, id);
    }
  }

  // ---------- the whole life ----------

  ghost predicate Life(cs: seq<Chain>, ts: seq<Turn>) {
    && |cs| == |ts| + 1
    && forall i | 0 <= i < |ts| :: Possible(cs[i], ts[i]) && cs[i + 1] == After(cs[i], ts[i])
  }

  /** The first process, with a pool just started. */
  lemma FirstStart(w: World)
    requires Started(w) && UniqueIds(w.pool)
    ensures var c := Chain(w, map k | k in w.pool.cells :: []); Follows(c) && Counted(c)
  {
    hide Sane, UniqueIds, Remembers, UpToDate, InPool, YearDay, MinuteOf;
    StartedGood(w);
    NewTotals();
    NoneBefore(w.last);
  }

  /** Over any number of runs and restarts, every key's lifetime total and average are the folds of
      everything that ever happened to its id since the first start, for as long as no reload or
      restart drops it. */
  lemma {:induction false} LifeTotals(cs: seq<Chain>, ts: seq<Turn>)
    requires Life(cs, ts) && Follows(cs[0])
    ensures forall i, k | 0 <= i < |cs| && k in cs[i].w.pool.cells ::
              cs[i].w.pool.cells[k].life == Lifetime(Full(cs[i], k)) && cs[i].w.pool.cells[k].ttft == Pace(Full(cs[i], k))
  {
    hide Follows, Possible, After, Full, Lifetime, Pace;
    for n := 0 to |ts|
      invariant forall i | 0 <= i <= n :: Follows(cs[i])
    {
      if ts[n].Act? {
        ActFollows(cs[n], ts[n].a);
      } else {
        RestartFollows(cs[n], ts[n]);
      }
    }
    forall i, k | 0 <= i < |cs| && k in cs[i].w.pool.cells
      ensures cs[i].w.pool.cells[k].life == Lifetime(Full(cs[i], k)) && cs[i].w.pool.cells[k].ttft == Pace(Full(cs[i], k))
    {
      TotalsFollow(cs[i], k);
    }
  }

  // ---------- daily counts over the whole life ----------

  /** A turn that notices every change of day. */
  predicate Timely(c: Chain, t: Turn) {
    match t
    case Act(a) => Rolls(a) ==> Prompt(c.w)
    case Restart(_, _, _, w') => DayOf(w'.now) == DayOf(c.w.last) || YearDay(w'.now) != YearDay(c.w.last)
  }

  /** Each key's history over restarts explains its daily counts. */
  ghost predicate Counted(c: Chain) {
    && Sane(c.w.pool) && UniqueIds(c.w.pool) && UpToDate(c.w) && c.past.Keys == c.w.pool.cells.Keys
    && forall k | k in c.w.pool.cells :: Counts(c.past[k], c.w.logs[k]) && Before(c.past[k], c.w.last)
  }

  lemma BeforeJoin(past: Log, log: Log, t: nat)
    requires Before(past, t) && Before(log, t)
    ensures Before(past + Own(log), t)
  {
  }

  /** A listed key's daily counts are those of the day of the last access, over everything that ever
      happened to its id. */
  lemma CountsFollow(c: Chain, k: Ref)
    requires Counted(c) && k in InPool(c.w.pool)
    ensures k in c.w.pool.cells && Before(Full(c, k), c.w.last) && NoRestart(Full(c, k))
    ensures var o := c.w.pool.cells[k]; Daily(o.reqs, o.errs, o.toks, o.blind) == Tally(Full(c, k), DayOf(c.w.last))
  {
    hide Sane, UniqueIds, Tally, InPool, YearDay, MinuteOf;
    CurrentAt(c.w, k);
    var past, log := c.past[k], c.w.logs[k];
    BeforeJoin(past, log, c.w.last);
    if log != [] {
      assert log[0].at <= c.w.last;
    }
    CountsContinue(past, log, DayOf(c.w.last));
  }

  lemma UpToDateShape(w: World)
    requires UpToDate(w)
    ensures w.logs.Keys == w.pool.cells.Keys && w.last <= w.now && w.pool.day == YearDay(w.last)
    ensures InPool(w.pool) <= w.pool.cells.Keys
  {
  }

  lemma LastGrows(w: World, a: Action)
    requires Sane(w.pool) && Enabled(w, a) && w.last <= w.now
    ensures w.last <= Next(w, a).last
  {
    hide Sane, YearDay, MinuteOf, InPool, PickedFrom, Adopted, Rung;
  }

  lemma ActCounted(c: Chain, a: Action)
    requires Counted(c) && Possible(c, Act(a)) && Timely(c, Act(a))
    ensures Counted(After(c, Act(a)))
  {
    hide Sane, UniqueIds, UpToDate, Counts, Enabled, Next, UniqueSlots, Before, Prompt;
    StepUpToDate(c.w, a);
    StepUnique(c.w, a);
    StepIds(c.w, a);
    UpToDateShape(c.w);
    UpToDateShape(Next(c.w, a));
    LastGrows(c.w, a);
    var v := After(c, Act(a));
    forall k | k in v.w.pool.cells ensures Counts(v.past[k], v.w.logs[k]) && Before(v.past[k], v.w.last) {
      StepLogs(c.w, a, k);
      if k !in c.w.logs {
        NewTotals();
        NoneBefore(v.w.last);
      } else {
        BeforeLater(c.past[k], c.w.last, v.w.last);
        if v.w.logs[k] != c.w.logs[k] {
          var e: Event :| !e.Resumed? && v.w.logs[k] == c.w.logs[k] + [e];
          AppendCounts(c.past[k], c.w.logs[k], e);
        }
      }
    }
  }

  /** The daily counts a timely restart restores are those of its day. */
  lemma InheritedCounts(c: Chain, id: string, now: nat)
    requires Counted(c) && c.w.last <= now
    requires DayOf(now) == DayOf(c.w.last) || YearDay(now) != YearDay(c.w.last)
    ensures Before(Inherited(c, id), c.w.last) && NoRestart(Inherited(c, id))
    ensures forall j | Owns(c.w.pool, j, id) ::
              var o := c.w.pool.cells[j];
              Tally(Inherited(c, id), DayOf(now))
              == if c.w.pool.day == YearDay(now) then Daily(o.reqs, o.errs, o.toks, o.blind) else History.NOTHING
    ensures (forall j :: !Owns(c.w.pool, j, id)) ==> Tally(Inherited(c, id), DayOf(now)) == History.NOTHING
  {
    hide Sane, UniqueIds, UpToDate, Counts, Full, YearDay, Tally, InPool, Before;
    UpToDateShape(c.w);
    if k :| Owns(c.w.pool, k, id) {
      InheritedFrom(c, id, k);
      CountsFollow(c, k);
      forall j | Owns(c.w.pool, j, id) ensures j == k {
        OnlyOwner(c.w.pool, j, k, id);
      }
      SameDay(c.w.last, now);
      if YearDay(now) != YearDay(c.w.last) {
        assert DayOf(c.w.last) < DayOf(now) by { DaysRise(c.w.last, now); }
        TallyNone(Full(c, k), c.w.last, DayOf(now));
      }
    } else {
      NoneBefore(c.w.last);
      NoTally(DayOf(now));
    }
  }

  lemma NoTally(d: nat)
    ensures Tally([], d) == History.NOTHING
  {
  }

  lemma ResumesTimes(w: World, w': World, slots: map<string, seq<Slot>>, provs: map<string, Provider>, snap: Snapshot)
    requires Resumes(w, w', slots, provs, snap)
    ensures w.now <= w'.now == w'.last
  {
  }

  lemma KeptCounts(c: Chain, t: Turn, k: Ref)
    requires Counted(c) && t.Restart? && Possible(c, t) && Timely(c, t) && k in t.w.pool.cells
    ensures var r := t.w.pool.cells[k];
            && t.w.logs.Keys == t.w.pool.cells.Keys && t.w.logs[k] == [Resumed(t.w.now, SavedOf(r))]
            && DailyOf(SavedOf(r)) == Tally(Inherited(c, r.id), DayOf(t.w.now))
            && Before(Inherited(c, r.id), t.w.now) && NoRestart(Inherited(c, r.id))
  {
    hide Sane, UniqueIds, UpToDate, UniqueSlots, Tally, Owns, Inherited, InPool, YearDay, DayOf, Before, DailyOf, NoRestart, Counts, Resumes, Next;
    UpToDateShape(c.w);
    ResumesTimes(c.w, t.w, t.slots, t.provs, t.snap);
    Restores(c, t.w, t.slots, t.provs, t.snap, k);
    var id := t.w.pool.cells[k].id;
    InheritedCounts(c, id, t.w.now);
    BeforeLater(Inherited(c, id), c.w.last, t.w.now);
    if j :| Owns(c.w.pool, j, id) {
      OwnsKnown(c.w.pool, j, id);
    }
  }

  lemma OwnsKnown<K>(s: PoolState<K>, j: K, id: string)
    requires Owns(s, j, id)
    ensures j in s.cells && s.cells[j].id == id
  {
  }

  lemma ResumedCounts(past: Log, now: nat, s: Saved)
    requires NoRestart(past) && Before(past, now) && DailyOf(s) == Tally(past, DayOf(now))
    ensures Counts(past, [Resumed(now, s)])
  {
    hide Tally, Before;
    var e := Resumed(now, s);
    assert [e][0] == e && Own([e]) == [];
  }

  lemma RestartCounted(c: Chain, t: Turn)
    requires Counted(c) && t.Restart? && Possible(c, t) && Timely(c, t)
    ensures Counted(After(c, t))
  {
    hide Sane, UniqueIds, UpToDate, UniqueSlots, Tally, Inherited, InPool, YearDay, Before, Counts, NoRestart, Resumes, Next, SavedOf, Timely, Enabled;
    ResumesWorld(c, t.w, t.slots, t.provs, t.snap);
    ResumesTimes(c.w, t.w, t.slots, t.provs, t.snap);
    var v := After(c, t);
    forall k | k in v.w.pool.cells ensures Counts(v.past[k], v.w.logs[k]) && Before(v.past[k], v.w.last) {
      KeptCounts(c, t, k);
      ResumedCounts(Inherited(c, t.w.pool.cells[k].id), t.w.now, SavedOf(t.w.pool.cells[k]));
    }
  }

  /** Over any number of runs and restarts whose accesses and restarts notice every change of day,
      every listed key's daily counts are those of the day of the last access, over everything that
      ever happened to its id, before and after restarts. */
  lemma {:induction false} LifeCounts(cs: seq<Chain>, ts: seq<Turn>)
    requires Life(cs, ts) && Counted(cs[0]) && forall i | 0 <= i < |ts| :: Timely(cs[i], ts[i])
    ensures forall i, k | 0 <= i < |cs| && k in InPool(cs[i].w.pool) && k in cs[i].w.pool.cells ::
              var o := cs[i].w.pool.cells[k];
              Daily(o.reqs, o.errs, o.toks, o.blind) == Tally(Full(cs[i], k), DayOf(cs[i].w.last))
  {
    hide Counted, Possible, After, Full, Tally, Timely, InPool;
    for n := 0 to |ts|
      invariant forall i | 0 <= i <= n :: Counted(cs[i])
    {
      if ts[n].Act? {
        ActCounted(cs[n], ts[n].a);
      } else {
        RestartCounted(cs[n], ts[n]);
      }
    }
    forall i, k | 0 <= i < |cs| && k in InPool(cs[i].w.pool) && k in cs[i].w.pool.cells
      ensures var o := cs[i].w.pool.cells[k];
              Daily(o.reqs, o.errs, o.toks, o.blind) == Tally(Full(cs[i], k), DayOf(cs[i].w.last))
    {
      CountsFollow(cs[i], k);
    }
  }
}
