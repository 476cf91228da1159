// The key pool. Every method runs under one lock and reads the clock once.

module Pool {
  import opened Wrappers
  import opened Clock
  import opened Ledger

  class Key {
    const val: string
    const id: string
    var prov: Provider
    var until: int
    var step: nat
    var dead: bool
    var reqs: int
    var errs: int
    var mins: int
    var live: int
    var last: int
    var ttft: int
    var toks: Spend
    var life: Spend
    var blind: int

    constructor (val: string, id: string, prov: Provider)
      ensures State() == FreshKey(val, id, prov)
    {
      this.val, this.id, this.prov := val, id, prov;
      until, step, dead := NEVER, 0, false;
      reqs, errs, mins, live, last := 0, 0, 0, 0, NEVER;
      ttft, toks, life, blind := 0, NO_SPEND, NO_SPEND, 0;
    }

    ghost function State(): KeyState
      reads this
    {
      KeyState(val, id, prov, until, step, dead, reqs, errs, mins, live, last, ttft, toks, life, blind)
    }

    method IsSpent() returns (r: bool)
      ensures r == Spent(State())
    {
      r := prov.rpd > 0 && reqs + live >= prov.rpd;
    }

    method IsCapped() returns (r: bool)
      ensures r == Capped(State())
    {
      r := prov.rpm > 0 && mins + live >= prov.rpm;
    }

    method IsFree(now: nat) returns (r: bool)
      ensures r == Free(State(), now)
    {
      var s := IsSpent();
      var c := IsCapped();
      r := !dead && !s && !c && !(now < until);
    }

    method Measure(d: int)
      modifies this`ttft
      ensures ttft == Measured(old(ttft), d)
    {
      if d <= 0 {
        return;
      }
      if ttft == 0 {
        ttft := d;
        return;
      }
      ttft := (3 * d + 7 * ttft) / 10;
    }

    /** Hold the key for one attempt. */
    method Reserve()
      modifies this`live
      ensures State() == Reserved(old(State()))
    {
      live := live + 1;
    }

    /** Give the reservation back. */
    method Release()
      modifies this`live
      ensures State() == Released(old(State()))
    {
      live := live - 1;
    }

    /** Drop the counters of an earlier day. */
    method ClearDay()
      modifies this
      ensures State() == RolledCell(old(State()), true, false)
    {
      reqs, errs, toks, blind := 0, 0, NO_SPEND, 0;
    }

    method Succeed(now: nat, d: int) returns (back: bool)
      modifies this
      ensures State() == Succeeded(old(State()), now, d) && back == (old(until) != NEVER)
      ensures step == 0 && until == NEVER && last == now && live == old(live) - 1
      ensures reqs == old(reqs) + 1 && mins == old(mins) + 1 && errs == old(errs) && dead == old(dead)
    {
      hide Measured;
      back := until != NEVER;
      until, step := NEVER, 0;
      live := live - 1;
      reqs := reqs + 1;
      mins := mins + 1;
      last := now;
      Measure(d);
    }

    method Pay(s: Option<Spend>)
      modifies this
      ensures State() == Charged(old(State()), s) && step == old(step)
    {
      if s.None? {
        blind := blind + 1;
      } else {
        toks, life := toks.Add(s.value), life.Add(s.value);
      }
    }

    /** Take the key out of rotation after a failure. */
    method Bench(now: nat, code: int, retry: int) returns (cool: int, died: bool)
      requires step < RUNGS
      modifies this`until, this`step, this`dead
      ensures (State(), cool, died) == Benched(old(State()), now, code, retry)
    {
      if code == 401 || code == 403 {
        dead := true;
        return 0, true;
      }
      if Blameless(code) {
        return 0, false;
      }
      if retry > 0 {
        until := now + retry;
        return retry, false;
      }
      var d := Rung(step);
      until := now + d;
      step := if step + 1 < RUNGS - 1 then step + 1 else RUNGS - 1;
      return d, false;
    }

    /** A failed attempt: release, count the error and bench. */
    method Lose(now: nat, code: int, retry: int) returns (cool: int, died: bool)
      requires step < RUNGS
      modifies this
      ensures State() == Failed(old(State()), now, code, retry) && step < RUNGS
      ensures live == old(live) - 1 && errs == old(errs) + 1 && reqs == old(reqs) && mins == old(mins)
      ensures (cool, died) == (Benched(old(State()), now, code, retry).1, Benched(old(State()), now, code, retry).2)
    {
      live := live - 1;
      errs := errs + 1;
      cool, died := Bench(now, code, retry);
    }

    /** A broken relay: count the error and bench. */
    method Spoil(now: nat) returns (cool: int)
      requires step < RUNGS
      modifies this
      ensures State() == Soured(old(State()), now) && step < RUNGS
      ensures live == old(live) && errs == old(errs) + 1 && reqs == old(reqs) && mins == old(mins)
      ensures cool == Rung(old(step))
    {
      errs := errs + 1;
      var died;
      cool, died := Bench(now, 0, 0);
    }
  }

  lemma RolledAgain(c: KeyState)
    ensures RolledCell(RolledCell(c, true, false), true, false) == RolledCell(c, true, false)
    ensures RolledCell(RolledCell(c, true, false), false, true) == RolledCell(c, true, true)
    ensures RolledCell(c, false, false) == c
  {
  }

  lemma RolledElse<K>(s: PoolState<K>, now: nat)
    ensures Rolled(s, now) == s.(day := YearDay(now), min := MinuteOf(now), cells := Rolled(s, now).cells)
  {
  }

  lemma FreeEnd<K>(s: PoolState<K>, prov: string, now: nat)
    requires forall k | k in Listed(s, prov) :: k in s.cells
    ensures FreeFrom(s, prov, now, |Listed(s, prov)|) == None
  {
  }

  lemma SaneCursor<K>(s: PoolState<K>, prov: string)
    requires Sane(s)
    ensures Listed(s, prov) != [] ==> 0 <= Cursor(s, prov) < |Listed(s, prov)|
    ensures forall k | k in Listed(s, prov) :: k in s.cells
  {
    forall k | k in Listed(s, prov) ensures k in s.cells {
      var i :| 0 <= i < |s.keys[prov]| && s.keys[prov][i] == k;
    }
  }

  class Pool {
    var keys: map<string, seq<Key>>
    var rr: map<string, int>
    var day: int
    var min: int
    var mute: set<string>
    // Every key object the pool ever made; requests may still hold one a reload dropped.
    ghost var known: set<Key>

    /** An empty pool, its counters those of this day and minute. */
    constructor (now: nat)
      ensures Valid() && fresh(known)
      ensures Abs() == PoolState(map[], map[], YearDay(now), MinuteOf(now), map[]) && mute == {}
    {
      keys, rr, mute, known := map[], map[], {}, {};
      day, min := YearDay(now), MinuteOf(now);
    }

    ghost predicate Valid()
      reads this, known
    {
      Sane(Abs())
    }

    ghost function Abs(): PoolState<Key>
      reads this, known
    {
      PoolState(keys, rr, day, min, map k | k in known :: k.State())
    }

    ghost predicate InLists(k: Key)
      reads this`keys
    {
      exists n | n in keys :: k in keys[n]
    }

    /** Drop the counters of an earlier day, for one list. */
    static method ClearDayOf(ks: seq<Key>)
      modifies ks
      ensures forall k | k in ks :: k.State() == RolledCell(old(k.State()), true, false)
    {
      for i := 0 to |ks|
        invariant forall j | 0 <= j < i :: ks[j].State() == RolledCell(old(ks[j].State()), true, false)
        invariant forall k | k in ks :: k.State() == old(k.State()) || k.State() == RolledCell(old(k.State()), true, false)
      {
        hide RolledCell;
        RolledAgain(ks[i].State());
        RolledAgain(old(ks[i].State()));
        ks[i].ClearDay();
      }
    }

    static method ClearMinuteOf(ks: seq<Key>)
      modifies ks
      ensures forall k | k in ks :: k.State() == RolledCell(old(k.State()), false, true)
    {
      for i := 0 to |ks|
        invariant forall j | 0 <= j < i :: ks[j].State() == RolledCell(old(ks[j].State()), false, true)
        invariant forall k | k in ks :: k.State() == old(k.State()) || k.State() == RolledCell(old(k.State()), false, true)
      {
        var k := ks[i];
        k.mins := 0;
      }
    }

    /** Drop the counters of an earlier day. */
    method ClearDay()
      requires Owned()
      modifies known
      ensures forall k | k in known :: k.State() == if InLists(k) then RolledCell(old(k.State()), true, false) else old(k.State())
    {
      var names := keys.Keys;
      while names != {}
        invariant names <= keys.Keys
        invariant forall n, k | n in keys && n !in names && k in keys[n] :: k.State() == RolledCell(old(k.State()), true, false)
        invariant forall k | k in known :: k.State() == old(k.State()) || (InLists(k) && k.State() == RolledCell(old(k.State()), true, false))
        decreases names
      {
        var n :| n in names;
        ClearDayOf(keys[n]);
        names := names - {n};
      }
    }

    /** Drop the counters of an earlier minute. */
    method ClearMinute()
      requires Owned()
      modifies known
      ensures forall k | k in known :: k.State() == if InLists(k) then RolledCell(old(k.State()), false, true) else old(k.State())
    {
      var names := keys.Keys;
      while names != {}
        invariant names <= keys.Keys
        invariant forall n, k | n in keys && n !in names && k in keys[n] :: k.State() == RolledCell(old(k.State()), false, true)
        invariant forall k | k in known :: k.State() == old(k.State()) || (InLists(k) && k.State() == RolledCell(old(k.State()), false, true))
        decreases names
      {
        var n :| n in names;
        ClearMinuteOf(keys[n]);
        names := names - {n};
      }
    }

    ghost predicate Owned()
      reads this`keys, this`known
    {
      forall n, k | n in keys && k in keys[n] :: k in known
    }

    lemma ListedKnown()
      requires Valid()
      ensures Owned()
      ensures forall k :: InLists(k) <==> k in InPool(Abs())
    {
      forall n, k | n in keys && k in keys[n] ensures k in known {
        var i :| 0 <= i < |keys[n]| && keys[n][i] == k;
        assert Abs().keys[n][i] in Abs().cells;
      }
    }

    /** The cells after a roll, told key by key. */
    lemma CellsRolled(was: PoolState<Key>, now: nat)
      requires known == was.cells.Keys
      requires forall k | k in known ::
                 k.State() == if k in InPool(was) then RolledCell(was.cells[k], YearDay(now) != was.day, MinuteOf(now) != was.min) else was.cells[k]
      ensures Abs().cells == Rolled(was, now).cells
    {
      hide RolledCell, YearDay, InPool;
    }

    /** Roll the counters on access. */
    method Roll(now: nat)
      requires Valid()
      modifies this`day, this`min, known
      ensures Valid() && Abs() == Rolled(old(Abs()), now)
    {
      hide Sane, InLists, Owned, YearDay, InPool, RolledCell, Rolled;
      ghost var was := Abs();
      ghost var newDay, newMinute := YearDay(now) != day, MinuteOf(now) != min;
      assert was.cells.Keys == known;
      ListedKnown();
      RolledKeeps(was, now);
      if YearDay(now) != day {
        day := YearDay(now);
        ClearDay();
      }
      forall k | k in known ensures k.State() == if InLists(k) then RolledCell(was.cells[k], newDay, false) else was.cells[k] {
        RolledAgain(was.cells[k]);
      }
      if MinuteOf(now) != min {
        min := MinuteOf(now);
        ClearMinute();
      }
      forall k | k in known ensures k.State() == if InLists(k) then RolledCell(was.cells[k], newDay, newMinute) else was.cells[k] {
        RolledAgain(was.cells[k]);
      }
      CellsRolled(was, now);
      RolledElse(was, now);
    }

    method Hold(k: Key)
      requires k in known
      modifies k`live
      ensures Abs() == Update(old(Abs()), k, Reserved(old(Abs()).cells[k]))
    {
      ghost var was := Abs();
      k.Reserve();
      assert Abs().cells == was.cells[k := Reserved(was.cells[k])];
    }

    lemma ScanStart(prov: string)
      ensures Listed(Abs(), prov) == if prov in keys then keys[prov] else []
      ensures Cursor(Abs(), prov) == if prov in rr then rr[prov] else 0
    {
    }

    /** Go round from the cursor to the first free key, and leave the cursor after it. */
    method Seek(prov: string, now: nat) returns (r: Option<Key>)
      requires Valid()
      modifies this`rr
      ensures var was := old(Abs());
              match FreeFrom(was, prov, now, 0)
              case None => r == None && rr == if Listed(was, prov) == [] then was.rr else was.rr[prov := Cursor(was, prov)]
              case Some(d) => r == Some(At(was, prov, d)) && rr == was.rr[prov := (Cursor(was, prov) + d + 1) % |Listed(was, prov)|]
    {
      hide Sane, Free, FreeFrom, Cursor, Listed;
      ghost var was := Abs();
      SaneCursor(was, prov);
      ScanStart(prov);
      var ks := if prov in keys then keys[prov] else [];
      ghost var at := Cursor(was, prov);
      for i := 0 to |ks|
        invariant rr == if i == 0 then was.rr else was.rr[prov := (at + i) % |ks|]
        invariant FreeFrom(was, prov, now, i) == FreeFrom(was, prov, now, 0)
      {
        Advance(at, i, |ks|);
        FreeStep(was, prov, now, i);
        var c := if prov in rr then rr[prov] else 0;
        var k := ks[c];
        assert k == At(was, prov, i);
        assert k in was.cells && k.State() == was.cells[k];
        rr := rr[prov := (c + 1) % |ks|];
        assert rr == was.rr[prov := (at + i + 1) % |ks|];
        var free := k.IsFree(now);
        if free {
          assert FreeFrom(was, prov, now, 0) == Some(i);
          return Some(k);
        }
      }
      if |ks| > 0 {
        Advance(at, |ks| - 1, |ks|);
      }
      FreeEnd(was, prov, now);
      return None;
    }

    lemma OnlyCursor(was: PoolState<Key>)
      requires keys == was.keys && day == was.day && min == was.min && known == was.cells.Keys
      requires forall k | k in known :: k.State() == was.cells[k]
      ensures Abs() == was.(rr := rr)
    {
      assert Abs().cells == was.cells;
    }

    /** Pick a key and reserve it, before any upstream I/O. */
    method Pick(prov: string, now: nat) returns (r: Option<Key>)
      requires Valid()
      modifies this`day, this`min, this`rr, known
      ensures Valid()
      ensures (Abs(), r) == PickedFrom(Rolled(old(Abs()), now), prov, now)
      ensures r.Some? ==> r.value in known
    {
      hide Sane, Rolled, PickedFrom, FreeFrom, Reserved, Listed, Cursor;
      Roll(now);
      ghost var rolled := Abs();
      assert rolled.cells.Keys == known;
      SaneCursor(rolled, prov);
      PickedSane(rolled, prov, now);
      r := Seek(prov, now);
      OnlyCursor(rolled);
      if r.Some? {
        PickedHit(rolled, prov, now, FreeFrom(rolled, prov, now, 0).value);
        assert r.value in rolled.cells;
        Hold(r.value);
        assert Abs() == PickedFrom(rolled, prov, now).0;
      } else {
        PickedMiss(rolled, prov, now);
      }
    }

    /** A failed attempt: release the reservation and bench the key. */
    method Fail(k: Key, now: nat, code: int, retry: int) returns (cool: int, died: bool)
      requires Valid() && k in known
      modifies this`day, this`min, known
      ensures Valid()
      ensures var was := Rolled(old(Abs()), now);
              Abs() == Update(was, k, Failed(was.cells[k], now, code, retry))
              && (cool, died) == (Benched(was.cells[k], now, code, retry).1, Benched(was.cells[k], now, code, retry).2)
    {
      hide Rolled, Sane, Benched, Failed;
      Roll(now);
      ghost var was := Abs();
      CellOf(k);
      cool, died := k.Lose(now, code, retry);
      UpdateSane(was, k, k.State());
      assert Abs().cells == Update(was, k, k.State()).cells;
    }

    /** A relay broken after success: bench the key; ok already released the reservation. */
    method Sour(k: Key, now: nat) returns (cool: int)
      requires Valid() && k in known
      modifies this`day, this`min, known
      ensures Valid()
      ensures var was := Rolled(old(Abs()), now);
              Abs() == Update(was, k, Soured(was.cells[k], now)) && cool == Rung(was.cells[k].step)
    {
      hide Rolled, Sane, Soured, Failed, Benched, Charged, Succeeded;
      Roll(now);
      ghost var was := Abs();
      CellOf(k);
      cool := k.Spoil(now);
      UpdateSane(was, k, k.State());
      assert Abs().cells == Update(was, k, k.State()).cells;
    }

    /** The client left before the attempt resolved: release the reservation. */
    method Done(k: Key)
      requires Valid() && k in known
      modifies known
      ensures Valid()
      ensures Abs() == Update(old(Abs()), k, Released(old(k.State())))
    {
      hide Sane;
      ghost var was := Abs();
      CellOf(k);
      k.Release();
      UpdateSane(was, k, k.State());
      assert Abs().cells == Update(was, k, k.State()).cells;
    }

    /** Record what a reply cost, or that it did not say. */
    method Charge(k: Key, now: nat, s: Option<Spend>)
      requires Valid() && k in known
      modifies this`day, this`min, known
      ensures Valid()
      ensures var was := Rolled(old(Abs()), now); Abs() == Update(was, k, Charged(was.cells[k], s))
    {
      hide Rolled, Sane, Soured, Failed, Benched, Charged, Succeeded;
      Roll(now);
      ghost var was := Abs();
      CellOf(k);
      k.Pay(s);
      UpdateSane(was, k, k.State());
      assert Abs().cells == Update(was, k, k.State()).cells;
    }

    /** A success: release the reservation, count it, and clear the cooldown. */
    method Ok(k: Key, now: nat, ttft: int) returns (back: bool)
      requires Valid() && k in known
      modifies this`day, this`min, known
      ensures Valid()
      ensures var was := Rolled(old(Abs()), now);
              Abs() == Update(was, k, Succeeded(was.cells[k], now, ttft)) && back == (was.cells[k].until != NEVER)
    {
      hide Rolled, Sane, Succeeded;
      Roll(now);
      ghost var was := Abs();
      CellOf(k);
      back := k.Succeed(now, ttft);
      UpdateSane(was, k, k.State());
      assert Abs().cells == Update(was, k, k.State()).cells;
    }

    /** Whether the provider accepts requests for usage. */
    method Talks(prov: string) returns (r: bool)
      ensures r == (prov !in mute)
    {
      r := prov !in mute;
    }

    /** Remember that the provider refuses them. */
    method Hush(prov: string)
      modifies this`mute
      ensures mute == old(mute) + {prov}
    {
      mute := mute + {prov};
    }

    lemma CellOf(k: Key)
      requires Valid() && k in known
      ensures k in Abs().cells && Abs().cells[k] == k.State() && k.step < RUNGS
    {
      assert Abs().cells[k].step < RUNGS;
    }
  }

  /** The cursor moves on by one, going round. */
  lemma Advance(at: int, i: int, n: int)
    requires 0 <= at < n && 0 <= i < n
    ensures 0 <= (at + i) % n < n && (i == 0 ==> (at + i) % n == at)
    ensures ((at + i) % n + 1) % n == (at + i + 1) % n
    ensures i == n - 1 ==> (at + i + 1) % n == at
  {
    Around(at + i, n);
    Around(at + i + 1, n);
    Around((at + i) % n + 1, n);
  }
}
