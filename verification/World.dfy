// The pool shared by many requests: each action is one locked call, one clock tick or one
// reload, in any order. What every action keeps.

module World {
  import opened Wrappers
  import opened Clock
  import opened Ledger

  /** The identity of a key object. */
  type Ref = nat

  // What a request has done with the key it picked.
  datatype Phase = Idle | Holding(k: Ref) | Serving(k: Ref) | Settled(k: Ref)

  datatype Slot = Slot(id: string, val: string)

  // What happened to a key, and when.
  datatype Event =
    | Success(at: nat, ttft: int)
    | Failure(at: nat, code: int, retry: int)
    | Break(at: nat)
    | Payment(at: nat, s: Option<Spend>)
    | Resumed(at: nat, kept: Saved)     // the first event after a restart: what it restored

  datatype World = World(
    pool: PoolState<Ref>,
    now: nat,
    threads: map<nat, Phase>,
    // Ghost history: the last rolling access, and every key's events.
    last: nat,
    logs: map<Ref, seq<Event>>)

  datatype Action =
    | Pick(t: nat, prov: string)
    | Ok(t: nat, ttft: int)
    | Fail(t: nat, code: int, retry: int)
    | Done(t: nat)
    | Charge(t: nat, s: Option<Spend>)
    | Sour(t: nat)
    | End(t: nat)
    | Look                              // a report, a retry hint or an ordering
    | Tick(d: nat)
    | Reload(slots: map<string, seq<Slot>>, provs: map<string, Provider>, next: PoolState<Ref>)

  function PhaseOf(w: World, t: nat): Phase {
    if t in w.threads then w.threads[t] else Idle
  }

  /** Some key of the pool has this id. */
  ghost predicate HasId<K>(s: PoolState<K>, id: string)
    requires Sane(s)
  {
    exists k :: k in InPool(s) && k in s.cells && s.cells[k].id == id
  }

  /** The key now in one slot: the pool's key with that id, its provider replaced, or else a
      fresh one. */
  ghost predicate Adopts<K>(s: PoolState<K>, s': PoolState<K>, slot: Slot, k: K)
    requires Sane(s)
  {
    && k in s'.cells && s'.cells[k].id == slot.id
    && (if HasId(s, slot.id)
        then k in InPool(s) && k in s.cells && s'.cells[k] == s.cells[k].(prov := s'.cells[k].prov)
        else k !in s.cells && s'.cells[k] == FreshKey(slot.val, slot.id, s'.cells[k].prov))
  }

  /** s' is s after a reload to these slots and providers. */
  ghost predicate Adopted<K>(s: PoolState<K>, s': PoolState<K>, slots: map<string, seq<Slot>>, provs: map<string, Provider>)
    requires Sane(s)
  {
    && slots.Keys == provs.Keys == s'.keys.Keys
    && s'.day == s.day && s'.min == s.min && s'.rr == map[]
    && (forall n | n in slots :: |s'.keys[n]| == |slots[n]|)
    && (forall n, i | n in slots && 0 <= i < |slots[n]| :: Adopts(s, s', slots[n][i], s'.keys[n][i]))
    && (forall k | k in InPool(s') :: exists n :: n in provs && k in s'.keys[n] && k in s'.cells && s'.cells[k].prov == provs[n])
    && s'.cells.Keys == s.cells.Keys + InPool(s')
    && (forall k | k in s.cells && k !in InPool(s') :: s'.cells[k] == s.cells[k])
  }

  ghost predicate Enabled(w: World, a: Action)
    requires Sane(w.pool)
  {
    match a
    case Pick(t, _) => PhaseOf(w, t).Idle?
    case Ok(t, _) => PhaseOf(w, t).Holding? && PhaseOf(w, t).k in w.pool.cells
    case Fail(t, _, _) => PhaseOf(w, t).Holding? && PhaseOf(w, t).k in w.pool.cells
    case Done(t) => PhaseOf(w, t).Holding? && PhaseOf(w, t).k in w.pool.cells
    case Charge(t, _) => PhaseOf(w, t).Serving? && PhaseOf(w, t).k in w.pool.cells
    case Sour(t) => PhaseOf(w, t).Settled? && PhaseOf(w, t).k in w.pool.cells
    case End(t) => PhaseOf(w, t).Settled?
    case Look => true
    case Tick(_) => true
    case Reload(slots, provs, next) => Adopted(w.pool, next, slots, provs)
  }

  /** The phase a request is in after its own action. */
  function Moved(w: World, a: Action, picked: Option<Ref>): map<nat, Phase> {
    match a
    case Pick(t, _) => if picked.Some? then w.threads[t := Holding(picked.value)] else w.threads
    case Ok(t, _) => if PhaseOf(w, t).Holding? then w.threads[t := Serving(PhaseOf(w, t).k)] else w.threads
    case Fail(t, _, _) => w.threads[t := Idle]
    case Done(t) => w.threads[t := Idle]
    case Charge(t, _) => if PhaseOf(w, t).Serving? then w.threads[t := Settled(PhaseOf(w, t).k)] else w.threads
    case Sour(t) => w.threads[t := Idle]
    case End(t) => w.threads[t := Idle]
    case _ => w.threads
  }

  function Logged(w: World, k: Ref, e: Event): map<Ref, seq<Event>> {
    w.logs[k := (if k in w.logs then w.logs[k] else []) + [e]]
  }

  /** One key of the rolled pool changed, with one event logged. */
  ghost function Touch(w: World, a: Action, k: Ref, c: KeyState, e: Event): World {
    World(Update(Rolled(w.pool, w.now), k, c), w.now, Moved(w, a, None), w.now, Logged(w, k, e))
  }

  ghost function Next(w: World, a: Action): World
    requires Sane(w.pool) && Enabled(w, a)
  {
    RolledKeeps(w.pool, w.now);
    var r := Rolled(w.pool, w.now);
    match a
    case Pick(t, prov) =>
      SaneListed(r, prov);
      var p := PickedFrom(r, prov, w.now);
      World(p.0, w.now, Moved(w, a, p.1), w.now, w.logs)
    case Ok(t, ttft) =>
      var k := PhaseOf(w, t).k; Touch(w, a, k, Succeeded(r.cells[k], w.now, ttft), Success(w.now, ttft))
    case Fail(t, code, retry) =>
      var k := PhaseOf(w, t).k; Touch(w, a, k, Failed(r.cells[k], w.now, code, retry), Failure(w.now, code, retry))
    case Done(t) =>
      var k := PhaseOf(w, t).k;
      w.(pool := Update(w.pool, k, Released(w.pool.cells[k])), threads := Moved(w, a, None))
    case Charge(t, s) =>
      var k := PhaseOf(w, t).k; Touch(w, a, k, Charged(r.cells[k], s), Payment(w.now, s))
    case Sour(t) =>
      var k := PhaseOf(w, t).k; Touch(w, a, k, Soured(r.cells[k], w.now), Break(w.now))
    case End(t) => w.(threads := Moved(w, a, None))
    case Look => w.(pool := r, last := w.now)
    case Tick(d) => w.(now := w.now + d)
    case Reload(slots, provs, next) =>
      w.(pool := next, logs := w.logs + map k | k in next.cells.Keys - w.logs.Keys :: [])
  }

  lemma SaneListed<K>(s: PoolState<K>, prov: string)
    requires Sane(s)
    ensures forall k | k in Listed(s, prov) :: k in s.cells && k in InPool(s)
    ensures Listed(s, prov) != [] ==> 0 <= Cursor(s, prov) < |Listed(s, prov)|
  {
    forall k | k in Listed(s, prov) ensures k in s.cells && k in InPool(s) {
      var i :| 0 <= i < |s.keys[prov]| && s.keys[prov][i] == k;
    }
  }

  // ---------- reservations ----------

  /** The requests holding a reservation on k. */
  function Holders(threads: map<nat, Phase>, k: Ref): set<nat> {
    set t | t in threads && threads[t] == Holding(k)
  }

  ghost predicate Known(w: World, p: Phase) {
    !p.Idle? ==> p.k in w.pool.cells
  }

  /** Each key's live count is the number of requests holding it; no counter is negative. */
  ghost predicate Conserves(w: World) {
    && Sane(w.pool)
    && (forall t | t in w.threads :: Known(w, w.threads[t]))
    && (forall k | k in w.pool.cells :: w.pool.cells[k].live == |Holders(w.threads, k)|)
    && (forall k | k in w.pool.cells :: w.pool.cells[k].reqs >= 0 && w.pool.cells[k].mins >= 0)
  }

  lemma HoldersUpdate(threads: map<nat, Phase>, t: nat, p: Phase, k: Ref)
    ensures |Holders(threads[t := p], k)|
            == |Holders(threads, k)| - (if t in threads && threads[t] == Holding(k) then 1 else 0) + (if p == Holding(k) then 1 else 0)
  {
    var h := Holders(threads, k);
    var h' := Holders(threads[t := p], k);
    assert h - {t} == h' - {t};
    assert h == (if t in h then (h - {t}) + {t} else h - {t});
    assert h' == (if t in h' then (h' - {t}) + {t} else h' - {t});
  }

  // ---------- quotas ----------

  /** Successes and reservations together stay within the caps. */
  predicate Within(c: KeyState) {
    (c.prov.rpd > 0 ==> c.reqs + c.live <= c.prov.rpd) && (c.prov.rpm > 0 ==> c.mins + c.live <= c.prov.rpm)
  }

  ghost predicate WithinCaps(w: World) {
    forall k | k in w.pool.cells :: Within(w.pool.cells[k])
  }

  /** The new caps admit what the key already used. */
  predicate Fits(c: KeyState, p: Provider) {
    Within(c.(prov := p))
  }

  /** A provider's caps not lowered. */
  predicate NotLowered(p: Provider, q: Provider) {
    (q.rpd <= 0 || (0 < p.rpd <= q.rpd)) && (q.rpm <= 0 || (0 < p.rpm <= q.rpm))
  }

  lemma NotLoweredFits(c: KeyState, q: Provider)
    requires Within(c) && NotLowered(c.prov, q)
    ensures Fits(c, q)
  {
  }

  /** These providers' caps admit what the pool's keys with these slots' ids already used. */
  ghost predicate Admits<K>(s: PoolState<K>, slots: map<string, seq<Slot>>, provs: map<string, Provider>) {
    forall k, n, i | k in InPool(s) && k in s.cells && n in slots && n in provs && 0 <= i < |slots[n]|
                     && slots[n][i].id == s.cells[k].id :: Fits(s.cells[k], provs[n])
  }

  /** No key with one of these slots' ids has a cap lowered. */
  ghost predicate Raises<K>(s: PoolState<K>, slots: map<string, seq<Slot>>, provs: map<string, Provider>) {
    forall k, n, i | k in InPool(s) && k in s.cells && n in slots && n in provs && 0 <= i < |slots[n]|
                     && slots[n][i].id == s.cells[k].id :: NotLowered(s.cells[k].prov, provs[n])
  }

  lemma RaisesAdmits(w: World, slots: map<string, seq<Slot>>, provs: map<string, Provider>)
    requires Sane(w.pool) && WithinCaps(w) && Raises(w.pool, slots, provs)
    ensures Admits(w.pool, slots, provs)
  {
    hide Sane, Within, NotLowered, InPool;
    forall k, n, i | k in InPool(w.pool) && k in w.pool.cells && n in slots && n in provs && 0 <= i < |slots[n]|
                     && slots[n][i].id == w.pool.cells[k].id
      ensures Fits(w.pool.cells[k], provs[n])
    {
      NotLoweredFits(w.pool.cells[k], provs[n]);
    }
  }

  /** A reload has room for what was used. */
  ghost predicate Roomy(w: World, a: Action) {
    a.Reload? ==> Admits(w.pool, a.slots, a.provs)
  }

  /** What rolling leaves of a key. */
  lemma RolledLeaves(c: KeyState, d: bool, m: bool)
    ensures var r := RolledCell(c, d, m);
            && r.live == c.live && r.prov == c.prov && r.step == c.step
            && (r.reqs == c.reqs || r.reqs == 0) && (r.mins == c.mins || r.mins == 0)
  {
  }

  lemma RollConserves(w: World)
    requires Conserves(w)
    ensures Conserves(w.(pool := Rolled(w.pool, w.now)))
    ensures WithinCaps(w) ==> WithinCaps(w.(pool := Rolled(w.pool, w.now)))
  {
    hide RolledCell, Within, YearDay, MinuteOf, Sane, InPool, Holders;
    RolledKeeps(w.pool, w.now);
    var r := Rolled(w.pool, w.now);
    forall k | k in r.cells
      ensures r.cells[k].live == w.pool.cells[k].live && r.cells[k].reqs >= 0 && r.cells[k].mins >= 0
      ensures WithinCaps(w) ==> Within(r.cells[k])
    {
      HolderBound(w, k);
      RolledWithin(w.pool.cells[k], YearDay(w.now) != w.pool.day, MinuteOf(w.now) != w.pool.min);
      RolledLeaves(w.pool.cells[k], YearDay(w.now) != w.pool.day, MinuteOf(w.now) != w.pool.min);
    }
  }

  lemma HolderBound(w: World, k: Ref)
    requires Conserves(w) && k in w.pool.cells
    ensures w.pool.cells[k].live >= 0
  {
  }

  lemma RolledWithin(c: KeyState, d: bool, m: bool)
    requires c.reqs >= 0 && c.mins >= 0 && c.live >= 0
    ensures Within(c) ==> Within(RolledCell(c, d, m))
  {
  }

  /** One key changed and one request moved: the books balance if the key's live count moved with
      the reservation. */
  lemma UpdateConserves(w: World, k: Ref, c: KeyState, t: nat, p: Phase)
    requires Conserves(w) && k in w.pool.cells && c.step < RUNGS && c.reqs >= 0 && c.mins >= 0
    requires PhaseOf(w, t).Holding? ==> PhaseOf(w, t).k == k
    requires !p.Idle? ==> p.k == k
    requires c.live == w.pool.cells[k].live - (if PhaseOf(w, t).Holding? then 1 else 0) + (if p.Holding? then 1 else 0)
    ensures Conserves(w.(pool := Update(w.pool, k, c), threads := w.threads[t := p]))
  {
    hide Sane, Holders;
    UpdateSane(w.pool, k, c);
    var w' := w.(pool := Update(w.pool, k, c), threads := w.threads[t := p]);
    forall j | j in w'.pool.cells
      ensures w'.pool.cells[j].live == |Holders(w'.threads, j)|
    {
      HoldersUpdate(w.threads, t, p, j);
    }
    assert w'.pool.cells.Keys == w.pool.cells.Keys;
  }

  lemma ConservesIgnores(w: World, v: World)
    requires Conserves(w) && v.pool == w.pool && v.threads == w.threads
    ensures Conserves(v)
  {
    hide Sane, Holders;
  }

  lemma SteppedCells(c: KeyState, now: nat, code: int, retry: int, ttft: int, s: Option<Spend>)
    requires c.step < RUNGS
    ensures var f := Failed(c, now, code, retry);
            f.live == c.live - 1 && f.reqs == c.reqs && f.mins == c.mins && f.prov == c.prov && f.step < RUNGS
    ensures var f := Soured(c, now);
            f.live == c.live && f.reqs == c.reqs && f.mins == c.mins && f.prov == c.prov && f.step < RUNGS
    ensures var f := Succeeded(c, now, ttft);
            f.live == c.live - 1 && f.reqs == c.reqs + 1 && f.mins == c.mins + 1 && f.prov == c.prov && f.step < RUNGS
    ensures var f := Charged(c, s);
            f.live == c.live && f.reqs == c.reqs && f.mins == c.mins && f.prov == c.prov && f.step == c.step
  {
  }

  /** A failed, sour, successful or charged key stays within its caps, and so does a released
      one; a picked one does because it was free. */
  lemma SteppedWithin(c: KeyState, now: nat, code: int, retry: int, ttft: int, s: Option<Spend>)
    requires c.step < RUNGS && Within(c)
    ensures Within(Failed(c, now, code, retry)) && Within(Soured(c, now)) && Within(Succeeded(c, now, ttft))
    ensures Within(Charged(c, s)) && Within(Released(c))
    ensures Free(c, now) ==> Within(Reserved(c))
  {
    SteppedCells(c, now, code, retry, ttft, s);
  }

  /** The key a pick returns was free. */
  lemma {:induction false} PickedFree<K>(s: PoolState<K>, prov: string, now: nat, d: nat)
    requires Sane(s) && d <= |Listed(s, prov)|
    requires forall k | k in Listed(s, prov) :: k in s.cells
    ensures var r := FreeFrom(s, prov, now, d);
            r.Some? ==> At(s, prov, r.value) in Listed(s, prov) && Free(s.cells[At(s, prov, r.value)], now)
    decreases |Listed(s, prov)| - d
  {
    if d < |Listed(s, prov)| {
      FreeStep(s, prov, now, d);
      PickedFree(s, prov, now, d + 1);
    }
  }

  /** A key is free exactly when it is alive, its cooldown is over, and one more reservation stays
      within both caps. */
  lemma FreeMeans(c: KeyState, now: nat)
    ensures Free(c, now) <==> !c.dead && c.until <= now && Within(c.(live := c.live + 1))
  {
  }

  // ---------- every action keeps the books ----------

  /** What a reload does to one cell. */
  lemma AdoptedCell<K>(s: PoolState<K>, s': PoolState<K>, slots: map<string, seq<Slot>>, provs: map<string, Provider>, k: K)
    requires Sane(s) && Adopted(s, s', slots, provs) && k in s'.cells
    ensures k in s.cells ==> s'.cells[k] == s.cells[k].(prov := s'.cells[k].prov)
    ensures k !in s.cells ==> s'.cells[k] == FreshKey(s'.cells[k].val, s'.cells[k].id, s'.cells[k].prov)
    ensures k in s.cells && k in InPool(s') ==> k in InPool(s)
  {
    if k in InPool(s') {
      var n, i :| n in s'.keys && 0 <= i < |s'.keys[n]| && s'.keys[n][i] == k;
      assert Adopts(s, s', slots[n][i], s'.keys[n][i]);
    }
  }

  lemma AdoptedSane<K>(s: PoolState<K>, s': PoolState<K>, slots: map<string, seq<Slot>>, provs: map<string, Provider>)
    requires Sane(s) && Adopted(s, s', slots, provs)
    ensures Sane(s')
  {
    hide Adopts, HasId;
    forall k | k in s'.cells ensures s'.cells[k].step < RUNGS {
      AdoptedCell(s, s', slots, provs, k);
    }
    forall n, i | n in s'.keys && 0 <= i < |s'.keys[n]| ensures s'.keys[n][i] in s'.cells {
      assert s'.keys[n][i] in InPool(s');
    }
  }

  /** The provider of a key a reload kept is that of a slot with its id. */
  lemma KeptSlot<K>(s: PoolState<K>, s': PoolState<K>, slots: map<string, seq<Slot>>, provs: map<string, Provider>, k: K)
    requires Sane(s) && Adopted(s, s', slots, provs) && k in s.cells && k in InPool(s')
    ensures k in InPool(s) && k in s'.cells
    ensures exists n, i :: n in slots && n in provs && 0 <= i < |slots[n]| && slots[n][i].id == s.cells[k].id
                           && s'.cells[k] == s.cells[k].(prov := provs[n])
  {
    hide HasId, InPool;
    AdoptedCell(s, s', slots, provs, k);
    var n :| n in provs && k in s'.keys[n] && k in s'.cells && s'.cells[k].prov == provs[n];
    var i :| 0 <= i < |s'.keys[n]| && s'.keys[n][i] == k;
    assert Adopts(s, s', slots[n][i], s'.keys[n][i]);
    assert slots[n][i].id == s.cells[k].id;
  }

  lemma ReloadCapped(w: World, a: Action)
    requires Sane(w.pool) && a.Reload? && Enabled(w, a) && WithinCaps(w) && Roomy(w, a)
    ensures WithinCaps(Next(w, a))
  {
    hide Sane, Adopts, HasId, InPool, Within;
    forall k | k in a.next.cells ensures Within(a.next.cells[k]) {
      AdoptedCell(w.pool, a.next, a.slots, a.provs, k);
      if k !in w.pool.cells {
        FreshWithin(a.next.cells[k]);
      } else if k in InPool(a.next) {
        KeptSlot(w.pool, a.next, a.slots, a.provs, k);
        var n, i :| n in a.slots && n in a.provs && 0 <= i < |a.slots[n]| && a.slots[n][i].id == w.pool.cells[k].id
                    && a.next.cells[k] == w.pool.cells[k].(prov := a.provs[n]);
        assert Fits(w.pool.cells[k], a.provs[n]);
      }
    }
  }

  lemma AdoptedKeys<K>(s: PoolState<K>, s': PoolState<K>, slots: map<string, seq<Slot>>, provs: map<string, Provider>)
    requires Sane(s) && Adopted(s, s', slots, provs)
    ensures s.cells.Keys <= s'.cells.Keys
  {
  }

  lemma NoHolders(w: World, k: Ref)
    requires Conserves(w) && k !in w.pool.cells
    ensures |Holders(w.threads, k)| == 0
  {
    hide Sane;
    assert Holders(w.threads, k) == {};
  }

  lemma ReloadConserves(w: World, a: Action)
    requires Conserves(w) && a.Reload? && Enabled(w, a)
    ensures Conserves(Next(w, a))
  {
    hide Sane, Adopts, Adopted, InPool, Holders;
    AdoptedSane(w.pool, a.next, a.slots, a.provs);
    AdoptedKeys(w.pool, a.next, a.slots, a.provs);
    forall k | k in a.next.cells
      ensures a.next.cells[k].live == |Holders(w.threads, k)| && a.next.cells[k].reqs >= 0 && a.next.cells[k].mins >= 0
    {
      AdoptedCell(w.pool, a.next, a.slots, a.provs, k);
      if k !in w.pool.cells {
        NoHolders(w, k);
        FreshWithin(a.next.cells[k]);
      }
    }
    assert Next(w, a).pool == a.next && Next(w, a).threads == w.threads;
  }

  lemma FreshWithin(c: KeyState)
    requires c == FreshKey(c.val, c.id, c.prov)
    ensures c.live == 0 && c.reqs == 0 && c.mins == 0 && Within(c)
  {
  }

  lemma PickHitConserves(w: World, a: Action, d: nat)
    requires Conserves(w) && a.Pick? && Enabled(w, a)
    requires Sane(Rolled(w.pool, w.now))
    requires FreeFrom(Rolled(w.pool, w.now), a.prov, w.now, 0) == Some(d)
    ensures Conserves(Next(w, a))
    ensures WithinCaps(w) ==> WithinCaps(Next(w, a))
  {
    hide Sane, Rolled, Within, Free, Reserved, FreeFrom, Holders;
    RollConserves(w);
    var r := Rolled(w.pool, w.now);
    SaneListed(r, a.prov);
    PickedSane(r, a.prov, w.now);
    PickedHit(r, a.prov, w.now, d);
    PickedFree(r, a.prov, w.now, 0);
    var k := At(r, a.prov, d);
    SteppedWithinAny(r.cells[k], w.now);
    ReservedCells(r.cells[k]);
    SaneStep(r, k);
    var v := w.(pool := r);
    UpdateConserves(v, k, Reserved(r.cells[k]), a.t, Holding(k));
    var u := v.(pool := Update(v.pool, k, Reserved(r.cells[k])), threads := v.threads[a.t := Holding(k)]);
    assert Next(w, a).threads == u.threads && Next(w, a).pool.cells == u.pool.cells;
  }

  lemma PickConserves(w: World, a: Action)
    requires Conserves(w) && a.Pick? && Enabled(w, a)
    ensures Conserves(Next(w, a))
    ensures WithinCaps(w) ==> WithinCaps(Next(w, a))
  {
    hide Sane, Rolled, Within, FreeFrom, Holders;
    RollConserves(w);
    RolledKeeps(w.pool, w.now);
    var r := Rolled(w.pool, w.now);
    SaneListed(r, a.prov);
    if FreeFrom(r, a.prov, w.now, 0).Some? {
      PickHitConserves(w, a, FreeFrom(r, a.prov, w.now, 0).value);
    } else {
      PickedSane(r, a.prov, w.now);
      PickedMiss(r, a.prov, w.now);
      assert Next(w, a).pool.cells == r.cells;
    }
  }

  lemma SaneStep<K>(s: PoolState<K>, k: K)
    requires Sane(s) && k in s.cells
    ensures s.cells[k].step < RUNGS
  {
  }

  lemma ReservedCells(c: KeyState)
    ensures Reserved(c) == c.(live := c.live + 1)
  {
  }

  lemma SteppedWithinAny(c: KeyState, now: nat)
    ensures Within(c) && Free(c, now) ==> Within(Reserved(c))
  {
  }

  lemma TouchConserves(w: World, a: Action, t: nat, p: Phase, k: Ref, c: KeyState, e: Event)
    requires Conserves(w) && k in w.pool.cells && c.step < RUNGS && c.reqs >= 0 && c.mins >= 0
    requires !PhaseOf(w, t).Idle? && PhaseOf(w, t).k == k && Moved(w, a, None) == w.threads[t := p]
    requires !p.Idle? ==> p.k == k
    requires c.live == w.pool.cells[k].live - (if PhaseOf(w, t).Holding? then 1 else 0) + (if p.Holding? then 1 else 0)
    ensures Conserves(Touch(w, a, k, c, e))
    ensures WithinCaps(w) && Within(c) ==> WithinCaps(Touch(w, a, k, c, e))
  {
    hide Sane, Holders, Within, RolledCell, InPool, Moved;
    RollConserves(w);
    RolledKeeps(w.pool, w.now);
    RolledLeaves(w.pool.cells[k], YearDay(w.now) != w.pool.day, MinuteOf(w.now) != w.pool.min);
    var v := w.(pool := Rolled(w.pool, w.now));
    UpdateConserves(v, k, c, t, p);
    ConservesIgnores(v.(pool := Update(v.pool, k, c), threads := v.threads[t := p]), Touch(w, a, k, c, e));
  }

  /** A released key. */
  lemma DoneConserves(w: World, t: nat)
    requires Conserves(w) && PhaseOf(w, t).Holding? && PhaseOf(w, t).k in w.pool.cells
    ensures Conserves(Next(w, Done(t)))
    ensures WithinCaps(w) ==> WithinCaps(Next(w, Done(t)))
  {
    hide Sane, Holders, Within;
    var k := PhaseOf(w, t).k;
    SaneStep(w.pool, k);
    UpdateConserves(w, k, Released(w.pool.cells[k]), t, Idle);
    if WithinCaps(w) {
      SteppedWithin(w.pool.cells[k], 0, 0, 0, 0, None);
    }
  }

  /** The locked calls that change one key and log one event. */
  lemma TouchKeeps(w: World, a: Action)
    requires Conserves(w) && Enabled(w, a) && (a.Ok? || a.Fail? || a.Charge? || a.Sour?)
    ensures Conserves(Next(w, a))
    ensures WithinCaps(w) ==> WithinCaps(Next(w, a))
  {
    hide Sane, Rolled, Failed, Soured, Succeeded, Charged, Holders, Within, Conserves, WithinCaps, Touch;
    Keyed(w);
    RolledKeeps(w.pool, w.now);
    var r := Rolled(w.pool, w.now);
    var k := PhaseOf(w, a.t).k;
    match a
    case Ok(t, ttft) =>
      TouchedKey(w, k, 0, 0, ttft, None);
      TouchConserves(w, a, t, Serving(k), k, Succeeded(r.cells[k], w.now, ttft), Success(w.now, ttft));
    case Fail(t, code, retry) =>
      TouchedKey(w, k, code, retry, 0, None);
      TouchConserves(w, a, t, Idle, k, Failed(r.cells[k], w.now, code, retry), Failure(w.now, code, retry));
    case Charge(t, s) =>
      TouchedKey(w, k, 0, 0, 0, s);
      TouchConserves(w, a, t, Settled(k), k, Charged(r.cells[k], s), Payment(w.now, s));
    case Sour(t) =>
      TouchedKey(w, k, 0, 0, 0, None);
      TouchConserves(w, a, t, Idle, k, Soured(r.cells[k], w.now), Break(w.now));
  }

  lemma Keyed(w: World)
    requires Conserves(w)
    ensures Sane(w.pool)
  {
  }

  /** In every state some run reaches, each key's live count is the number of requests holding
      it, and successes and reservations stay within the caps unless a reload leaves no room. */
  lemma StepKeeps(w: World, a: Action)
    requires Conserves(w) && Enabled(w, a)
    ensures Conserves(Next(w, a))
    ensures WithinCaps(w) && Roomy(w, a) ==> WithinCaps(Next(w, a))
  {
    hide Sane, Rolled, Holders, PickedFrom, Adopted, Within;
    match a
    case Pick(_, _) => PickConserves(w, a);
    case Ok(_, _) => TouchKeeps(w, a);
    case Fail(_, _, _) => TouchKeeps(w, a);
    case Charge(_, _) => TouchKeeps(w, a);
    case Sour(_) => TouchKeeps(w, a);
    case Done(t) => DoneConserves(w, t);
    case End(t) =>
      var k := PhaseOf(w, t).k;
      assert Known(w, w.threads[t]);
      SaneStep(w.pool, k);
      UpdateConserves(w, k, w.pool.cells[k], t, Idle);
      assert w.pool.cells[k := w.pool.cells[k]] == w.pool.cells;
    case Look =>
      RollConserves(w);
      ConservesIgnores(w.(pool := Rolled(w.pool, w.now)), Next(w, a));
    case Tick(_) => ConservesIgnores(w, Next(w, a));
    case Reload(_, _, _) =>
      ReloadConserves(w, a);
      if WithinCaps(w) && Roomy(w, a) {
        ReloadCapped(w, a);
      }
  }

  /** The rolled key a request touches, and what the four calls make of it. */
  lemma TouchedKey(w: World, k: Ref, code: int, retry: int, ttft: int, s: Option<Spend>)
    requires Conserves(w) && k in w.pool.cells
    ensures k in Rolled(w.pool, w.now).cells && Rolled(w.pool, w.now).cells[k].step < RUNGS
    ensures var c := Rolled(w.pool, w.now).cells[k];
            && c.live == w.pool.cells[k].live && c.reqs >= 0 && c.mins >= 0
            && (forall f | f == Failed(c, w.now, code, retry) || f == Soured(c, w.now) || f == Succeeded(c, w.now, ttft) || f == Charged(c, s) ::
                  f.reqs >= 0 && f.mins >= 0 && f.step < RUNGS && (WithinCaps(w) ==> Within(f)))
            && Failed(c, w.now, code, retry).live == c.live - 1 && Succeeded(c, w.now, ttft).live == c.live - 1
            && Soured(c, w.now).live == c.live && Charged(c, s).live == c.live
  {
    hide Sane, Failed, Soured, Succeeded, Charged, Holders, Within, RolledCell, InPool;
    RollConserves(w);
    RolledKeeps(w.pool, w.now);
    var c := Rolled(w.pool, w.now).cells[k];
    RolledLeaves(w.pool.cells[k], YearDay(w.now) != w.pool.day, MinuteOf(w.now) != w.pool.min);
    SaneStep(Rolled(w.pool, w.now), k);
    SteppedCells(c, w.now, code, retry, ttft, s);
    if WithinCaps(w) {
      SteppedWithin(c, w.now, code, retry, ttft, s);
    }
  }

  // ---------- whole runs ----------

  /** A run: worlds joined by enabled actions. */
  ghost predicate Run(ws: seq<World>, acts: seq<Action>) {
    && |ws| == |acts| + 1
    && forall i | 0 <= i < |acts| :: Sane(ws[i].pool) && Enabled(ws[i], acts[i]) && ws[i + 1] == Next(ws[i], acts[i])
  }

  lemma {:induction false} RunConserves(ws: seq<World>, acts: seq<Action>)
    requires Run(ws, acts) && Conserves(ws[0])
    ensures forall i | 0 <= i < |ws| :: Conserves(ws[i])
  {
    hide Conserves, Enabled, Next, Sane;
    for n := 0 to |acts|
      invariant forall i | 0 <= i <= n :: Conserves(ws[i])
    {
      StepKeeps(ws[n], acts[n]);
    }
  }

  /** Quota safety over every run that starts within the caps and whose reloads lower no cap of a key
      they keep. */
  lemma {:induction false} RunCapped(ws: seq<World>, acts: seq<Action>)
    requires Run(ws, acts) && Conserves(ws[0]) && WithinCaps(ws[0])
    requires forall i | 0 <= i < |acts| && acts[i].Reload? :: Raises(ws[i].pool, acts[i].slots, acts[i].provs)
    ensures forall i | 0 <= i < |ws| :: WithinCaps(ws[i])
  {
    hide Conserves, Enabled, Next, WithinCaps, Admits, Raises, Sane;
    for n := 0 to |acts|
      invariant forall i | 0 <= i <= n :: Conserves(ws[i]) && WithinCaps(ws[i])
    {
      if acts[n].Reload? {
        RaisesAdmits(ws[n], acts[n].slots, acts[n].provs);
      }
      StepKeeps(ws[n], acts[n]);
    }
  }

  /** When every request has ended, no reservation is left. */
  lemma NothingLeftHeld(w: World)
    requires Conserves(w) && forall t | t in w.threads :: !w.threads[t].Holding?
    ensures forall k | k in w.pool.cells :: w.pool.cells[k].live == 0
  {
    hide Sane;
    forall k | k in w.pool.cells ensures w.pool.cells[k].live == 0 {
      assert Holders(w.threads, k) == {};
    }
  }
}
