// How long a key disabled by 401 or 403 stays disabled: its key object for ever, its secret until
// one reload drops it and another brings it back.

module Disabling {
  import opened Clock
  import opened Ledger
  import opened World
  import opened Config
  import opened Runs
  import opened Reload
  import State

  /** A key object that left the pool never comes back. */
  lemma StepLeft(w: World, a: Action, k: Ref)
    requires Sane(w.pool) && Enabled(w, a) && k in w.pool.cells && k !in InPool(w.pool)
    ensures k in Next(w, a).pool.cells && k !in InPool(Next(w, a).pool)
  {
    hide Sane, Next, Adopted;
    StepIds(w, a);
    if a.Reload? {
      EnabledReload(w, a);
      AdoptedSane(w.pool, a.next, a.slots, a.provs);
      AdoptedCell(w.pool, a.next, a.slots, a.provs, k);
    } else {
      SamePool(w.pool, Next(w, a).pool);
    }
  }

  lemma SamePool<K>(s: PoolState<K>, s': PoolState<K>)
    requires s'.keys == s.keys
    ensures InPool(s') == InPool(s)
  {
  }

  /** Every reload among the first n actions keeps the id. */
  ghost predicate KeptBy(acts: seq<Action>, n: nat, id: string) {
    forall i | 0 <= i < n && i < |acts| && acts[i].Reload? :: HasSlot(acts[i].slots, id)
  }

  /** One step: the object keeps its id while reloads keep the id, and loses it for good when one
      does not. */
  lemma StepOwnsIff(w: World, a: Action, k: Ref, id: string)
    requires Sane(w.pool) && Enabled(w, a) && UniqueIds(w.pool) && (a.Reload? ==> UniqueSlots(a.slots))
    requires k in w.pool.cells && w.pool.cells[k].id == id
    ensures k in Next(w, a).pool.cells && Next(w, a).pool.cells[k].id == id && Sane(Next(w, a).pool)
    ensures Owns(Next(w, a).pool, k, id) <==> Owns(w.pool, k, id) && (a.Reload? ==> HasSlot(a.slots, id))
  {
    hide Sane, UniqueIds, UniqueSlots, Next, Adopted, HasSlot, InPool;
    StepIds(w, a);
    if k !in InPool(w.pool) {
      StepLeft(w, a, k);
    } else if a.Reload? ==> HasSlot(a.slots, id) {
      StepOwns(w, a, k, id);
    } else {
      EnabledReload(w, a);
      AdoptedSane(w.pool, a.next, a.slots, a.provs);
      if Owns(a.next, k, id) {
        assert HasId(a.next, id);
        OnlySlots(w.pool, a.next, a.slots, a.provs, id);
      }
    }
  }

  /** Over every run, the key object that had an id at the start has it at the end if and only if
      every reload kept the id. */
  lemma {:induction false} RunOwnsIff(ws: seq<World>, acts: seq<Action>, k: Ref, id: string)
    requires Run(ws, acts) && Sane(ws[0].pool) && UniqueIds(ws[0].pool) && Owns(ws[0].pool, k, id)
    requires forall i | 0 <= i < |acts| && acts[i].Reload? :: UniqueSlots(acts[i].slots)
    ensures Owns(ws[|acts|].pool, k, id) <==> KeptBy(acts, |acts|, id)
  {
    hide Enabled, Next, Sane, UniqueIds, UniqueSlots, HasSlot, InPool;
    RunUnique(ws, acts);
    for n := 0 to |acts|
      invariant k in ws[n].pool.cells && ws[n].pool.cells[k].id == id
      invariant Owns(ws[n].pool, k, id) <==> KeptBy(acts, n, id)
    {
      StepOwnsIff(ws[n], acts[n], k, id);
    }
  }

  ghost predicate Owned(w: World, id: string) {
    exists j :: Owns(w.pool, j, id)
  }

  /** One step: after a reload an id has a key exactly when it has a slot; nothing else changes
      whether it has one. */
  lemma StepOwned(w: World, a: Action, id: string)
    requires Sane(w.pool) && Enabled(w, a) && UniqueIds(w.pool) && (a.Reload? ==> UniqueSlots(a.slots))
    ensures Owned(Next(w, a), id) <==> if a.Reload? then HasSlot(a.slots, id) else Owned(w, id)
  {
    hide Sane, UniqueIds, UniqueSlots, Next, Adopted, InPool;
    StepIds(w, a);
    var v := Next(w, a);
    if a.Reload? {
      EnabledReload(w, a);
      ReloadOwned(w, a, id);
    } else {
      SamePool(w.pool, v.pool);
      StepBack(w, a);
      assert forall j :: Owns(v.pool, j, id) <==> Owns(w.pool, j, id);
    }
  }

  /** A step that is no reload adds no key. */
  lemma StepBack(w: World, a: Action)
    requires Sane(w.pool) && Enabled(w, a) && !a.Reload?
    ensures Next(w, a).pool.cells.Keys == w.pool.cells.Keys
  {
    hide Sane, YearDay, MinuteOf, InPool, PickedFrom, Adopted, Rung;
    RolledKeeps(w.pool, w.now);
    if a.Pick? {
      SaneListed(Rolled(w.pool, w.now), a.prov);
      History.PickedCells(Rolled(w.pool, w.now), a.prov, w.now);
    }
  }

  lemma ReloadOwned(w: World, a: Action, id: string)
    requires Sane(w.pool) && a.Reload? && Enabled(w, a) && UniqueIds(w.pool) && UniqueSlots(a.slots)
    ensures Owned(Next(w, a), id) <==> HasSlot(a.slots, id)
  {
    hide Sane, UniqueIds, UniqueSlots, Adopted, InPool, Placed;
    AdoptedSane(w.pool, a.next, a.slots, a.provs);
    AdoptedShape(w.pool, a.next, a.slots, a.provs);
    if Owned(Next(w, a), id) {
      var j :| Owns(a.next, j, id);
      assert HasId(a.next, id);
      OnlySlots(w.pool, a.next, a.slots, a.provs, id);
    }
    if HasSlot(a.slots, id) {
      var n, i :| n in a.slots && 0 <= i < |a.slots[n]| && a.slots[n][i].id == id;
      PlaceKept(w.pool, a.next, a.slots, a.provs, n, i);
      PlaceKnown(a.next, n, i);
      PlacedId(w.pool, a.next, a.slots, a.provs, n, i);
      assert Owns(a.next, a.next.keys[n][i], id);
    }
  }

  lemma PlacedId<K>(s: PoolState<K>, s': PoolState<K>, slots: map<string, seq<Slot>>, provs: map<string, Provider>, n: string, i: nat)
    requires Sane(s) && slots.Keys == provs.Keys == s'.keys.Keys && n in slots && i < |slots[n]| == |s'.keys[n]|
    requires Placed(s, s', slots, provs, n, i)
    ensures s'.keys[n][i] in s'.cells && s'.cells[s'.keys[n][i]].id == slots[n][i].id
  {
  }

  /** The action m is the last reload. */
  predicate IsLastReload(acts: seq<Action>, m: nat) {
    m < |acts| && acts[m].Reload? && forall l | m < l < |acts| :: !acts[l].Reload?
  }

  /** Some reload drops the id, and the last one, later, has it. */
  ghost predicate DroppedAndBack(acts: seq<Action>, id: string) {
    exists i, m: nat :: 0 <= i < m && IsLastReload(acts, m) && acts[i].Reload? && !HasSlot(acts[i].slots, id) && HasSlot(acts[m].slots, id)
  }

  /** With a reload in the run, an id has a key at the end exactly when the last reload has it. */
  lemma {:induction false} RunOwned(ws: seq<World>, acts: seq<Action>, m: nat, id: string)
    requires Run(ws, acts) && Sane(ws[0].pool) && UniqueIds(ws[0].pool) && IsLastReload(acts, m)
    requires forall i | 0 <= i < |acts| && acts[i].Reload? :: UniqueSlots(acts[i].slots)
    ensures Owned(ws[|acts|], id) <==> HasSlot(acts[m].slots, id)
  {
    hide Enabled, Next, Sane, UniqueIds, UniqueSlots, HasSlot, Owned;
    RunUnique(ws, acts);
    for n := m to |acts|
      invariant n > m ==> (Owned(ws[n], id) <==> HasSlot(acts[m].slots, id))
    {
      StepOwned(ws[n], acts[n], id);
    }
  }

  lemma {:induction false} LastReloadExists(acts: seq<Action>, i: nat) returns (m: nat)
    requires i < |acts| && acts[i].Reload?
    ensures i <= m && IsLastReload(acts, m)
    decreases |acts| - i
  {
    if l :| i < l < |acts| && acts[l].Reload? {
      m := LastReloadExists(acts, l);
    } else {
      m := i;
    }
  }

  /** Over every run, an id has another key object at the end than at the start if and only if some
      reload dropped it and the last one brought it back. */
  lemma RunReplaced(ws: seq<World>, acts: seq<Action>, k: Ref, id: string)
    requires Run(ws, acts) && Sane(ws[0].pool) && UniqueIds(ws[0].pool) && Owns(ws[0].pool, k, id)
    requires forall i | 0 <= i < |acts| && acts[i].Reload? :: UniqueSlots(acts[i].slots)
    ensures (exists j :: j != k && Owns(ws[|acts|].pool, j, id)) <==> DroppedAndBack(acts, id)
  {
    hide Run, Sane, UniqueIds, UniqueSlots, HasSlot, Owns;
    RunUnique(ws, acts);
    RunOwnsIff(ws, acts, k, id);
    RunLength(ws, acts);
    var last := ws[|acts|];
    if j :| j != k && Owns(last.pool, j, id) {
      if KeptBy(acts, |acts|, id) {
        State.OnlyOwner(last.pool, j, k, id);
      }
      var i :| 0 <= i < |acts| && acts[i].Reload? && !HasSlot(acts[i].slots, id);
      var m := LastReloadExists(acts, i);
      RunOwned(ws, acts, m, id);
    }
    if DroppedAndBack(acts, id) {
      var i, m: nat :| 0 <= i < m && IsLastReload(acts, m) && acts[i].Reload? && !HasSlot(acts[i].slots, id) && HasSlot(acts[m].slots, id);
      RunOwned(ws, acts, m, id);
      var j :| Owns(last.pool, j, id);
    }
  }

  lemma RunLength(ws: seq<World>, acts: seq<Action>)
    requires Run(ws, acts)
    ensures |ws| == |acts| + 1
  {
  }

  /** A disabled key object is never picked again; and its id is served by no other object, so its
      secret stays disabled, unless a reload dropped the id and the last one brought it back. */
  lemma DisabledIff(ws: seq<World>, acts: seq<Action>, k: Ref, id: string)
    requires Run(ws, acts) && Sane(ws[0].pool) && UniqueIds(ws[0].pool) && Owns(ws[0].pool, k, id) && ws[0].pool.cells[k].dead
    requires forall i | 0 <= i < |acts| && acts[i].Reload? :: UniqueSlots(acts[i].slots)
    ensures forall i | 0 <= i < |acts| && acts[i].Pick? :: PhaseOf(ws[i + 1], acts[i].t) != Holding(k)
    ensures (forall j | Owns(ws[|acts|].pool, j, id) :: j == k && ws[|acts|].pool.cells[j].dead) <==> !DroppedAndBack(acts, id)
  {
    hide Sane, UniqueIds, UniqueSlots, Enabled, Next, DroppedAndBack;
    RunDead(ws, acts, 0, k);
    RunReplaced(ws, acts, k, id);
    assert ws[|acts|].pool.cells[k].dead;
  }

  // ---------- a run in which a disabled secret serves again ----------

  function One(rpd: int): Provider {
    Provider(false, ["s"], rpd, 0)
  }

  const NOBODY := Provider(false, [], 0, 0)
  const SLOT := Slot("a", "s")

  function FirstKey(): KeyState {
    FreshKey("s", "a", One(0))
  }

  /** A pool with these keys under the name p, at time 0. */
  ghost function At0(ks: seq<Ref>, rr: map<string, int>, cells: map<Ref, KeyState>): PoolState<Ref> {
    PoolState(map["p" := ks], rr, YearDay(0), MinuteOf(0), cells)
  }

  lemma RolledSameTime<K>(s: PoolState<K>, now: nat)
    requires s.day == YearDay(now) && s.min == MinuteOf(now)
    ensures Rolled(s, now) == s
  {
    hide YearDay, InPool;
    assert Rolled(s, now).cells == s.cells;
  }

  /** Picking from a provider with one key, which is free. */
  lemma PickOnly(w: World, t: nat, k: Ref)
    requires w.pool.keys == map["p" := [k]] && w.pool.rr == map[] && k in w.pool.cells
    requires w.pool.day == YearDay(w.now) && w.pool.min == MinuteOf(w.now)
    requires (forall j | j in w.pool.cells :: w.pool.cells[j].step < RUNGS) && Free(w.pool.cells[k], w.now)
    requires PhaseOf(w, t).Idle?
    ensures Sane(w.pool) && Enabled(w, Pick(t, "p"))
    ensures Next(w, Pick(t, "p"))
            == World(w.pool.(rr := map["p" := 0], cells := w.pool.cells[k := Reserved(w.pool.cells[k])]), w.now,
                     w.threads[t := Holding(k)], w.now, w.logs)
  {
    hide YearDay, Free, Reserved, InPool;
    RolledSameTime(w.pool, w.now);
    assert Listed(w.pool, "p") == [k];
    assert At(w.pool, "p", 0) == k;
    FreeStep(w.pool, "p", w.now, 0);
    PickedHit(w.pool, "p", w.now, 0);
  }

  ghost function W0(): World {
    World(At0([0], map[], map[0 := FirstKey()]), 0, map[], 0, map[0 := []])
  }

  ghost function W1(): World {
    World(At0([0], map["p" := 0], map[0 := Reserved(FirstKey())]), 0, map[0 := Holding(0)], 0, map[0 := []])
  }

  function DeadKey(): KeyState {
    Failed(Reserved(FirstKey()), 0, 401, 0)
  }

  ghost function W2(): World {
    World(At0([0], map["p" := 0], map[0 := DeadKey()]), 0, map[0 := Idle], 0, map[0 := [Failure(0, 401, 0)]])
  }

  ghost function W3(): World {
    W2().(pool := At0([], map[], map[0 := DeadKey()]))
  }

  ghost function W4(): World {
    W2().(pool := At0([1], map[], map[0 := DeadKey(), 1 := FirstKey()]), logs := map[0 := [Failure(0, 401, 0)], 1 := []])
  }

  ghost function W5(): World {
    World(At0([1], map["p" := 0], map[0 := DeadKey(), 1 := Reserved(FirstKey())]), 0, map[0 := Idle, 1 := Holding(1)], 0, W4().logs)
  }

  ghost function Acts(): seq<Action> {
    [Pick(0, "p"), Fail(0, 401, 0),
     Action.Reload(map["p" := []], map["p" := NOBODY], W3().pool),
     Action.Reload(map["p" := [SLOT]], map["p" := One(0)], W4().pool),
     Pick(1, "p")]
  }

  lemma FirstIsFree()
    ensures Free(FirstKey(), 0) && FirstKey().step < RUNGS && DeadKey().step < RUNGS && DeadKey().dead && DeadKey().id == "a"
  {
  }

  lemma Step0()
    ensures Sane(W0().pool) && Enabled(W0(), Acts()[0]) && Next(W0(), Acts()[0]) == W1()
  {
    hide YearDay, Free, Reserved;
    FirstIsFree();
    PickOnly(W0(), 0, 0);
    assert W0().pool.cells[0 := Reserved(FirstKey())] == map[0 := Reserved(FirstKey())];
  }

  lemma Step1()
    ensures Sane(W1().pool) && Enabled(W1(), Acts()[1]) && Next(W1(), Acts()[1]) == W2()
  {
    hide YearDay, Failed, InPool;
    RolledSameTime(W1().pool, 0);
    assert W1().pool.cells[0 := DeadKey()] == map[0 := DeadKey()];
    assert [] + [Failure(0, 401, 0)] == [Failure(0, 401, 0)];
  }

  /** A reload to a provider without keys. */
  lemma EmptyAdopted(s: PoolState<Ref>, prov: Provider)
    requires Sane(s)
    ensures Adopted(s, s.(keys := map["p" := []], rr := map[]), map["p" := []], map["p" := prov])
  {
    hide Sane;
    var s' := s.(keys := map["p" := []], rr := map[]);
    assert InPool(s') == {};
  }

  /** A reload from an empty pool to one slot. */
  lemma OneAdopted(s: PoolState<Ref>, k: Ref, sl: Slot, prov: Provider)
    requires Sane(s) && s.keys == map["p" := []] && k !in s.cells
    ensures var s' := s.(keys := map["p" := [k]], rr := map[], cells := s.cells[k := FreshKey(sl.val, sl.id, prov)]);
            Adopted(s, s', map["p" := [sl]], map["p" := prov])
  {
    hide Sane;
    var s' := s.(keys := map["p" := [k]], rr := map[], cells := s.cells[k := FreshKey(sl.val, sl.id, prov)]);
    assert InPool(s) == {};
    assert s'.keys["p"][0] == k && InPool(s') == {k};
    assert Adopts(s, s', sl, k);
  }

  lemma Step2()
    ensures Sane(W2().pool) && Enabled(W2(), Acts()[2]) && Next(W2(), Acts()[2]) == W3()
  {
    hide YearDay, Failed, Adopted;
    FirstIsFree();
    EmptyAdopted(W2().pool, NOBODY);
    assert W2().logs + (map k | k in W3().pool.cells.Keys - W2().logs.Keys :: []) == W2().logs;
  }

  lemma Step3()
    ensures Sane(W3().pool) && Enabled(W3(), Acts()[3]) && Next(W3(), Acts()[3]) == W4()
  {
    hide YearDay, Failed, Adopted;
    FirstIsFree();
    OneAdopted(W3().pool, 1, SLOT, One(0));
    assert W3().pool.cells[1 := FirstKey()] == W4().pool.cells;
    assert W3().logs + (map k | k in W4().pool.cells.Keys - W3().logs.Keys :: []) == W4().logs;
  }

  lemma Step4()
    ensures Sane(W4().pool) && Enabled(W4(), Acts()[4]) && Next(W4(), Acts()[4]) == W5()
  {
    hide YearDay, Free, Reserved, Failed;
    FirstIsFree();
    PickOnly(W4(), 1, 1);
    assert W4().pool.cells[1 := Reserved(FirstKey())] == map[0 := DeadKey(), 1 := Reserved(FirstKey())];
  }

  lemma InLists(s: PoolState<Ref>, k: Ref)
    requires s.keys == map["p" := [k]]
    ensures InPool(s) == {k}
  {
    assert s.keys["p"][0] == k;
  }

  lemma DeadFields()
    ensures DeadKey().dead && DeadKey().id == "a" && DeadKey().val == "s"
    ensures Reserved(FirstKey()).id == "a" && Reserved(FirstKey()).val == "s"
  {
  }

  /** A secret is disabled by a 401 and serves again after two reloads. */
  ghost predicate ServesAgain(ws: seq<World>, acts: seq<Action>) {
    && Run(ws, acts) && Started(ws[0]) && |acts| == 5
    && acts[1] == Fail(0, 401, 0) && acts[2].Reload? && acts[3].Reload? && acts[4].Pick?
    && Owns(ws[2].pool, 0, "a") && ws[2].pool.cells[0].dead
    && PhaseOf(ws[5], 1) == Holding(1) && Owns(ws[5].pool, 1, "a") && ws[5].pool.cells[1].val == ws[2].pool.cells[0].val
  }

  lemma RunsOn()
    ensures Run([W0(), W1(), W2(), W3(), W4(), W5()], Acts()) && Started(W0())
  {
    hide Next, Enabled, Sane, YearDay, Failed, Reserved, W1, W2, W3, W4, W5;
    Step0();
    Step1();
    Step2();
    Step3();
    Step4();
    FirstIsFree();
    InLists(W0().pool, 0);
  }

  lemma SecretBack()
    ensures Owns(W2().pool, 0, "a") && W2().pool.cells[0].dead
    ensures PhaseOf(W5(), 1) == Holding(1) && Owns(W5().pool, 1, "a") && W5().pool.cells[1].val == W2().pool.cells[0].val
  {
    hide YearDay, Failed, Reserved;
    InLists(W2().pool, 0);
    InLists(W5().pool, 1);
    DeadFields();
  }

  /** A concrete run: a 401, a reload without the secret, one with it again, and a pick of it. */
  lemma DisabledServesAgain()
    ensures ServesAgain([W0(), W1(), W2(), W3(), W4(), W5()], Acts())
  {
    hide Run, Started, Owns, PhaseOf, W0, W1, W2, W3, W4, W5;
    RunsOn();
    SecretBack();
  }
}
