// The counters a restart keeps: saved by key id with the day they belong to, and restored into a
// new pool.

module State {
  import opened Clock
  import opened Ledger
  import opened Pool
  import opened World
  import opened History
  import opened Reload

  datatype Snapshot = Snapshot(day: int, keys: map<string, Saved>)

  // What reading the state file gives.
  datatype File = Missing | Unreadable | Malformed | Holds(s: Snapshot)

  const UNSAVED := Saved(0, 0, NO_SPEND, 0, 0, NO_SPEND)

  /** The snapshot names exactly the ids in the pool, each with what some key of that id counts,
      and the day the counters belong to. */
  ghost predicate SavedFrom<K>(s: PoolState<K>, snap: Snapshot) {
    && snap.day == s.day
    && (forall id | id in snap.keys :: exists k :: k in InPool(s) && k in s.cells && s.cells[k].id == id && snap.keys[id] == SavedOf(s.cells[k]))
    && (forall k | k in InPool(s) && k in s.cells :: s.cells[k].id in snap.keys)
  }

  function SavedAs(id: string, snap: Snapshot): Saved {
    if id in snap.keys then snap.keys[id] else UNSAVED
  }

  function RestoredCell(c: KeyState, snap: Snapshot, today: bool): KeyState {
    var t := SavedAs(c.id, snap);
    var d := c.(ttft := t.ttft, life := t.life);
    if today then d.(reqs := t.reqs, errs := t.errs, toks := t.toks, blind := t.blind) else d
  }

  /** Averages and lifetime totals restored, and the daily counters if they are today's. */
  ghost function Restored<K>(s: PoolState<K>, snap: Snapshot): PoolState<K> {
    s.(cells := map k | k in s.cells :: if k in InPool(s) then RestoredCell(s.cells[k], snap, snap.day == s.day) else s.cells[k])
  }

  ghost function Entry(k: Key): Saved
    reads k
  {
    SavedOf(k.State())
  }

  method SaveList(ks: seq<Key>, m: map<string, Saved>) returns (r: map<string, Saved>)
    ensures forall k | k in ks :: k.id in r
    ensures m.Keys <= r.Keys
    ensures forall id | id in r :: (id in m && r[id] == m[id]) || exists k :: k in ks && k.id == id && r[id] == Entry(k)
  {
    r := m;
    for i := 0 to |ks|
      invariant forall j | 0 <= j < i :: ks[j].id in r
      invariant m.Keys <= r.Keys
      invariant forall id | id in r :: (id in m && r[id] == m[id]) || exists k :: k in ks && k.id == id && r[id] == Entry(k)
    {
      var k := ks[i];
      r := r[k.id := Saved(k.reqs, k.errs, k.toks, k.blind, k.ttft, k.life)];
    }
  }

  /** Save every key's counters, without rolling them. */
  method Save(p: Pool) returns (snap: Snapshot)
    requires p.Valid()
    ensures SavedFrom(p.Abs(), snap)
  {
    hide Sane, Entry;
    var m: map<string, Saved> := map[];
    var names := p.keys.Keys;
    while names != {}
      invariant names <= p.keys.Keys
      invariant forall n, k | n in p.keys && n !in names && k in p.keys[n] :: k.id in m
      invariant forall id | id in m :: exists n, k :: n in p.keys && k in p.keys[n] && k.id == id && m[id] == Entry(k)
      decreases names
    {
      var n :| n in names;
      m := SaveList(p.keys[n], m);
      names := names - {n};
    }
    snap := Snapshot(p.day, m);
    SavesPool(p, m);
  }

  lemma SavesPool(p: Pool, m: map<string, Saved>)
    requires p.Valid()
    requires forall n, k | n in p.keys && k in p.keys[n] :: k.id in m
    requires forall id | id in m :: exists n, k :: n in p.keys && k in p.keys[n] && k.id == id && m[id] == Entry(k)
    ensures SavedFrom(p.Abs(), Snapshot(p.day, m))
  {
    hide Sane;
    var s := p.Abs();
    p.ListedKnown();
    forall id | id in m
      ensures exists k :: k in InPool(s) && k in s.cells && s.cells[k].id == id && m[id] == SavedOf(s.cells[k])
    {
      var n, k :| n in p.keys && k in p.keys[n] && k.id == id && m[id] == Entry(k);
      assert p.InLists(k);
      assert k in InPool(s) && k in s.cells && s.cells[k] == k.State();
    }
    forall k | k in InPool(s) && k in s.cells ensures s.cells[k].id in m {
      var n, i :| n in s.keys && 0 <= i < |s.keys[n]| && s.keys[n][i] == k;
    }
  }

  method RestoreKey(k: Key, snap: Snapshot, today: bool)
    modifies k
    ensures k.State() == RestoredCell(old(k.State()), snap, today)
  {
    var t := if k.id in snap.keys then snap.keys[k.id] else UNSAVED;
    k.ttft, k.life := t.ttft, t.life;
    if today {
      k.reqs, k.errs, k.toks, k.blind := t.reqs, t.errs, t.toks, t.blind;
    }
  }

  /** Restoring twice is restoring once, so a key in two lists is no trouble. */
  lemma RestoredTwice(c: KeyState, snap: Snapshot, today: bool)
    ensures RestoredCell(RestoredCell(c, snap, today), snap, today) == RestoredCell(c, snap, today)
  {
  }

  method RestoreList(ks: seq<Key>, snap: Snapshot, today: bool)
    modifies ks
    ensures forall k | k in ks :: k.State() == RestoredCell(old(k.State()), snap, today)
  {
    hide Key.State, RestoredCell;
    for i := 0 to |ks|
      invariant forall j | 0 <= j < i :: ks[j].State() == RestoredCell(old(ks[j].State()), snap, today)
      invariant forall k | k in ks :: k.State() == old(k.State()) || k.State() == RestoredCell(old(k.State()), snap, today)
    {
      RestoredTwice(old(ks[i].State()), snap, today);
      RestoreKey(ks[i], snap, today);
    }
  }

  method RestoreAll(p: Pool, snap: Snapshot, today: bool)
    requires p.Owned()
    modifies p.known
    ensures forall k | k in p.known :: k.State() == if p.InLists(k) then RestoredCell(old(k.State()), snap, today) else old(k.State())
  {
    hide Key.State, RestoredCell;
    var names := p.keys.Keys;
    while names != {}
      invariant names <= p.keys.Keys
      invariant forall n, k | n in p.keys && n !in names && k in p.keys[n] :: k.State() == RestoredCell(old(k.State()), snap, today)
      invariant forall k | k in p.known ::
                  k.State() == old(k.State()) || (p.InLists(k) && k.State() == RestoredCell(old(k.State()), snap, today))
      decreases names
    {
      var n :| n in names;
      label before:
      RestoreList(p.keys[n], snap, today);
      forall k | k in p.keys[n] ensures k.State() == RestoredCell(old(k.State()), snap, today) {
        RestoredTwice(old(k.State()), snap, today);
        assert old@before(k.State()) == old(k.State()) || old@before(k.State()) == RestoredCell(old(k.State()), snap, today);
      }
      names := names - {n};
    }
  }

  /** Restore the counters a file holds. A missing file is no error. */
  method Restore(p: Pool, file: File) returns (err: bool)
    requires p.Valid()
    modifies p.known
    ensures p.Valid() && err == (file.Unreadable? || file.Malformed?)
    ensures p.Abs() == if file.Holds? then Restored(old(p.Abs()), file.s) else old(p.Abs())
  {
    hide Key.State, RestoredCell, InPool, Pool.InLists;
    if !file.Holds? {
      return !file.Missing?;
    }
    ghost var was := p.Abs();
    p.ListedKnown();
    RestoreAll(p, file.s, file.s.day == p.day);
    assert p.Abs().cells == Restored(was, file.s).cells;
    RestoredSane(was, file.s);
    err := false;
  }

  lemma RestoredSane<K>(s: PoolState<K>, snap: Snapshot)
    requires Sane(s)
    ensures Sane(Restored(s, snap))
  {
    hide InPool;
    var t := Restored(s, snap);
    assert t.keys == s.keys && forall n | n in s.keys :: Cursor(t, n) == Cursor(s, n);
  }

  // ---------- what a restart keeps ----------

  /** The key of this id in a pool with unique ids. */
  lemma OnlyOwner<K>(s: PoolState<K>, j: K, k: K, id: string)
    requires Sane(s) && UniqueIds(s) && Owns(s, j, id) && Owns(s, k, id)
    ensures j == k
  {
    hide Sane;
    var n, a :| n in s.keys && 0 <= a < |s.keys[n]| && s.keys[n][a] == j;
    var m, b :| m in s.keys && 0 <= b < |s.keys[m]| && s.keys[m][b] == k;
    assert IdAt(s, n, a) == id && IdAt(s, m, b) == id;
  }

  /** Saving a pool with unique ids and restoring into any new one, whatever the order of its
      keys: a key whose id was saved has its average and lifetime total back, and its daily
      counters exactly when the saved day is the new pool's; a key whose id was not saved, and
      everything else, starts afresh. */
  lemma SaveRestores<K, L>(s: PoolState<K>, snap: Snapshot, u: PoolState<L>, k: L)
    requires Sane(s) && UniqueIds(s) && SavedFrom(s, snap)
    requires k in InPool(u) && k in u.cells && u.cells[k] == FreshKey(u.cells[k].val, u.cells[k].id, u.cells[k].prov)
    ensures var c, r := u.cells[k], Restored(u, snap).cells[k];
            && (forall j | Owns(s, j, c.id) ::
                  var o := s.cells[j];
                  r == if s.day == u.day
                       then c.(ttft := o.ttft, life := o.life, reqs := o.reqs, errs := o.errs, toks := o.toks, blind := o.blind)
                       else c.(ttft := o.ttft, life := o.life))
            && ((forall j | j in InPool(s) :: !Owns(s, j, c.id)) ==> r == c)
  {
    hide Sane, UniqueIds, InPool;
    var c := u.cells[k];
    forall j | Owns(s, j, c.id) ensures c.id in snap.keys && snap.keys[c.id] == SavedOf(s.cells[j]) {
      var i :| i in InPool(s) && i in s.cells && s.cells[i].id == c.id && snap.keys[c.id] == SavedOf(s.cells[i]);
      OnlyOwner(s, i, j, c.id);
    }
    if c.id in snap.keys {
      var i :| i in InPool(s) && i in s.cells && s.cells[i].id == c.id && snap.keys[c.id] == SavedOf(s.cells[i]);
      assert Owns(s, i, c.id);
    }
  }

  /** The counters a restart restores are today's, if and only if it happens on the day of the
      last access, or on a day with another day of the year, or there was nothing to restore. */
  lemma RestartUpToDateIff<L>(w: World, snap: Snapshot, u: PoolState<L>, now: nat, k: Ref, l: L)
    requires Sane(w.pool) && UniqueIds(w.pool) && UpToDate(w) && SavedFrom(w.pool, snap) && w.last <= now
    requires u.day == YearDay(now) && l in InPool(u) && l in u.cells
    requires u.cells[l] == FreshKey(u.cells[l].val, u.cells[l].id, u.cells[l].prov)
    requires Owns(w.pool, k, u.cells[l].id)
    ensures k in w.logs
    ensures var c, r := w.pool.cells[k], Restored(u, snap).cells[l];
            Daily(r.reqs, r.errs, r.toks, r.blind) == Tally(w.logs[k], DayOf(now))
            <==> DayOf(now) == DayOf(w.last) || YearDay(now) != YearDay(w.last)
                 || Daily(c.reqs, c.errs, c.toks, c.blind) == History.NOTHING
  {
    hide Sane, UniqueIds, InPool, Restored, Tally, YearDay;
    SaveRestores(w.pool, snap, u, l);
    CurrentAt(w, k);
    assert Before(w.logs[k], w.last);
    SameDay(w.last, now);
    DaysRise(w.last, now);
    if DayOf(w.last) < DayOf(now) {
      TallyNone(w.logs[k], w.last, DayOf(now));
    }
  }

  lemma DaysRise(a: nat, b: nat)
    requires a <= b
    ensures DayOf(a) <= DayOf(b)
  {
  }
}
