// Reloading a configuration: the provider lists are rebuilt, and every key that stays keeps its
// whole state.

module Reload {
  import opened Ledger
  import opened Pool
  import opened World
  import opened Config
  import opened Clock
  import History

  /** The pool's keys by id. */
  ghost predicate Indexes(p: Pool, index: map<string, Key>)
    reads p`keys
  {
    && (forall id | id in index :: index[id].id == id && p.InLists(index[id]))
    && (forall n, k | n in p.keys && k in p.keys[n] :: k.id in index)
  }

  method IndexList(ks: seq<Key>, index: map<string, Key>) returns (r: map<string, Key>)
    requires forall id | id in index :: index[id].id == id
    ensures r.Keys == index.Keys + set k | k in ks :: k.id
    ensures forall id | id in r :: r[id].id == id && (r[id] in ks || (id in index && r[id] == index[id]))
  {
    r := index;
    for i := 0 to |ks|
      invariant r.Keys == index.Keys + set k | k in ks[..i] :: k.id
      invariant forall id | id in r :: r[id].id == id && (r[id] in ks || (id in index && r[id] == index[id]))
    {
      assert ks[..i + 1] == ks[..i] + [ks[i]];
      r := r[ks[i].id := ks[i]];
    }
    assert ks[..|ks|] == ks;
  }

  method Index(p: Pool) returns (index: map<string, Key>)
    ensures Indexes(p, index)
  {
    index := map[];
    var names := p.keys.Keys;
    while names != {}
      invariant names <= p.keys.Keys
      invariant forall id | id in index :: index[id].id == id && p.InLists(index[id])
      invariant forall n, k | n in p.keys && n !in names && k in p.keys[n] :: k.id in index
      decreases names
    {
      var n :| n in names;
      ghost var was := index;
      index := IndexList(p.keys[n], index);
      forall id | id in index ensures p.InLists(index[id]) {
        if index[id] in p.keys[n] {
          assert n in p.keys;
        }
      }
      names := names - {n};
    }
  }

  /** The key in one slot: the one it had, its provider replaced, or else a new one. */
  method AdoptSlot(index: map<string, Key>, sl: Slot, prov: Provider) returns (k: Key)
    requires forall id | id in index :: index[id].id == id
    modifies index.Values
    ensures k.id == sl.id && k.State().prov == prov
    ensures if sl.id in index then k == index[sl.id] && k.State() == old(k.State()).(prov := prov)
            else fresh(k) && k.val == sl.val && k.State() == FreshKey(k.val, k.id, prov)
    ensures forall j | j in index.Values && j != k :: j.State() == old(j.State())
  {
    if sl.id in index {
      k := index[sl.id];
      assert k in index.Values;
      k.prov := prov;
    } else {
      k := new Key(sl.val, sl.id, prov);
    }
  }

  /** The key object one rebuilt slot names. */
  predicate Names(index: map<string, Key>, sl: Slot, k: Key) {
    k.id == sl.id && (if sl.id in index then k == index[sl.id] else k.val == sl.val && k !in index.Values)
  }

  predicate NamesAll(index: map<string, Key>, ss: seq<Slot>, ks: seq<Key>) {
    |ks| == |ss| && forall i | 0 <= i < |ss| :: Names(index, ss[i], ks[i])
  }

  /** d is c but for its provider. */
  predicate OnlyProv(c: KeyState, d: KeyState) {
    d == c.(prov := d.prov)
  }

  lemma OnlyProvSelf(c: KeyState)
    ensures OnlyProv(c, c)
  {
  }

  lemma OnlyProvTwice(c: KeyState, d: KeyState, e: KeyState)
    requires OnlyProv(c, d) && OnlyProv(d, e)
    ensures OnlyProv(c, e)
  {
  }

  ghost predicate NewKey(k: Key)
    reads k
  {
    k.State() == FreshKey(k.val, k.id, k.State().prov)
  }

  method AdoptList(index: map<string, Key>, ss: seq<Slot>, prov: Provider) returns (ks: seq<Key>)
    requires forall id | id in index :: index[id].id == id
    modifies index.Values
    ensures NamesAll(index, ss, ks)
    ensures forall k | k in ks :: k.State().prov == prov && (k in index.Values || (fresh(k) && NewKey(k)))
    ensures forall k | k in index.Values :: OnlyProv(old(k.State()), k.State()) && (k !in ks ==> k.State() == old(k.State()))
  {
    hide Key.State;
    ks := [];
    for i := 0 to |ss|
      invariant NamesAll(index, ss[..i], ks)
      invariant forall k | k in ks :: k.State().prov == prov && (k in index.Values || (fresh(k) && NewKey(k)))
      invariant forall k | k in index.Values :: OnlyProv(old(k.State()), k.State()) && (k !in ks ==> k.State() == old(k.State()))
    {
      var k := AdoptSlot(index, ss[i], prov);
      ks := ks + [k];
    }
    assert ss[..|ss|] == ss;
  }

  method Rebuild(index: map<string, Key>, slots: map<string, seq<Slot>>, provs: map<string, Provider>)
    returns (keys: map<string, seq<Key>>, ghost home: map<Key, string>)
    requires slots.Keys == provs.Keys && forall id | id in index :: index[id].id == id
    modifies index.Values
    ensures keys.Keys == slots.Keys && forall n | n in keys :: NamesAll(index, slots[n], keys[n])
    ensures forall n, k | n in keys && k in keys[n] :: k in home
    ensures forall k | k in home :: home[k] in keys && k in keys[home[k]] && k.State().prov == provs[home[k]]
    ensures forall k | k in home :: k in index.Values || (fresh(k) && NewKey(k))
    ensures forall k | k in index.Values :: OnlyProv(old(k.State()), k.State()) && (k !in home ==> k.State() == old(k.State()))
  {
    hide Key.State, NamesAll, FreshKey, NewKey, OnlyProv;
    keys, home := map[], map[];
    var names := slots.Keys;
    forall k | k in index.Values ensures OnlyProv(old(k.State()), k.State()) {
      OnlyProvSelf(k.State());
    }
    while names != {}
      invariant names <= slots.Keys && keys.Keys == slots.Keys - names
      invariant forall n | n in keys :: NamesAll(index, slots[n], keys[n])
      invariant forall n, k | n in keys && k in keys[n] :: k in home
      invariant forall k | k in home :: home[k] in keys && k in keys[home[k]] && k.State().prov == provs[home[k]]
      invariant forall k | k in home :: k in index.Values || (fresh(k) && NewKey(k))
      invariant forall k | k in index.Values :: OnlyProv(old(k.State()), k.State()) && (k !in home ==> k.State() == old(k.State()))
      decreases names
    {
      var n :| n in names;
      label before:
      var ks := AdoptList(index, slots[n], provs[n]);
      forall k | k in index.Values ensures OnlyProv(old(k.State()), k.State()) {
        OnlyProvTwice(old(k.State()), old@before(k.State()), k.State());
      }
      keys, names := keys[n := ks], names - {n};
      home := home + map k | k in ks :: n;
    }
  }

  /** The key in one rebuilt place. */
  predicate Filled<K(==)>(s: PoolState<K>, s': PoolState<K>, index: map<string, K>, home: map<K, string>, sl: Slot, k: K) {
    && k in home && k in s'.cells && s'.cells[k].id == sl.id
    && (if sl.id in index then k == index[sl.id] else k !in s.cells && s'.cells[k] == FreshKey(sl.val, sl.id, s'.cells[k].prov))
  }

  /** A listed key has the provider of a list it is in. */
  predicate Homed<K(==)>(s': PoolState<K>, provs: map<string, Provider>, home: map<K, string>, k: K) {
    && k in home && k in s'.cells && home[k] in provs && home[k] in s'.keys
    && k in s'.keys[home[k]] && s'.cells[k].prov == provs[home[k]]
  }

  /** A key known before changes at most its provider, and only if it is listed. */
  predicate Same<K(==)>(s: PoolState<K>, s': PoolState<K>, home: map<K, string>, k: K) {
    && k in s.cells && k in s'.cells && s'.cells[k] == s.cells[k].(prov := s'.cells[k].prov)
    && (k !in home ==> s'.cells[k] == s.cells[k])
  }

  /** What rebuilding the lists makes of the pool, key by key. */
  ghost predicate Refilled<K>(s: PoolState<K>, s': PoolState<K>, slots: map<string, seq<Slot>>, provs: map<string, Provider>,
                              index: map<string, K>, home: map<K, string>) {
    && slots.Keys == provs.Keys == s'.keys.Keys
    && s'.day == s.day && s'.min == s.min && s'.rr == map[] && s'.cells.Keys == s.cells.Keys + home.Keys
    && (forall n | n in slots :: |s'.keys[n]| == |slots[n]|)
    && (forall n, i | n in slots && 0 <= i < |slots[n]| :: Filled(s, s', index, home, slots[n][i], s'.keys[n][i]))
    && (forall k | k in home :: Homed(s', provs, home, k))
    && (forall k | k in s.cells :: Same(s, s', home, k))
  }

  /** The rebuilt lists make the new pool what a reload promises. */
  lemma BuildsAdopted<K>(s: PoolState<K>, s': PoolState<K>, slots: map<string, seq<Slot>>, provs: map<string, Provider>,
                         index: map<string, K>, home: map<K, string>)
    requires Sane(s) && Refilled(s, s', slots, provs, index, home)
    requires forall id | id in index :: index[id] in InPool(s) && index[id] in s.cells && s.cells[index[id]].id == id
    requires forall k | k in InPool(s) && k in s.cells :: s.cells[k].id in index
    ensures Adopted(s, s', slots, provs)
  {
    hide Sane, FreshKey, HasId, Homed, Same, InPool;
    forall n, i | n in slots && 0 <= i < |slots[n]| ensures Adopts(s, s', slots[n][i], s'.keys[n][i]) {
      var k, id := s'.keys[n][i], slots[n][i].id;
      assert Filled(s, s', index, home, slots[n][i], k);
      IndexHas(s, index, id);
      if id in index {
        SameHere(s, s', home, k);
      }
    }
    forall k | k in InPool(s')
      ensures exists n :: n in provs && k in s'.keys[n] && k in s'.cells && s'.cells[k].prov == provs[n]
    {
      PoolPlace(s', k);
      var n, i :| n in s'.keys && 0 <= i < |s'.keys[n]| && s'.keys[n][i] == k;
      assert Filled(s, s', index, home, slots[n][i], k);
      HomeHere(s', provs, home, k);
    }
    forall k | k in home ensures k in InPool(s') {
      HomeHere(s', provs, home, k);
      InList(s', home[k], k);
    }
    forall k | k in s.cells && k !in InPool(s') ensures s'.cells[k] == s.cells[k] {
      assert Same(s, s', home, k);
      SameHere(s, s', home, k);
    }
    hide Filled;
    forall k | k in InPool(s') ensures k in home {
      PoolPlace(s', k);
      var n, i :| n in s'.keys && 0 <= i < |s'.keys[n]| && s'.keys[n][i] == k;
      assert Filled(s, s', index, home, slots[n][i], k);
      FilledHome(s, s', index, home, slots[n][i], k);
    }
  }

  lemma FilledHome<K>(s: PoolState<K>, s': PoolState<K>, index: map<string, K>, home: map<K, string>, sl: Slot, k: K)
    requires Filled(s, s', index, home, sl, k)
    ensures k in home
  {
  }

  lemma SameHere<K>(s: PoolState<K>, s': PoolState<K>, home: map<K, string>, k: K)
    requires Same(s, s', home, k)
    ensures s'.cells[k] == s.cells[k].(prov := s'.cells[k].prov) && (k !in home ==> s'.cells[k] == s.cells[k])
  {
  }

  lemma HomeHere<K>(s': PoolState<K>, provs: map<string, Provider>, home: map<K, string>, k: K)
    requires Homed(s', provs, home, k)
    ensures home[k] in provs && home[k] in s'.keys && k in s'.keys[home[k]] && k in s'.cells && s'.cells[k].prov == provs[home[k]]
  {
  }

  lemma PoolPlace<K>(s: PoolState<K>, k: K)
    requires k in InPool(s)
    ensures exists n, i :: n in s.keys && 0 <= i < |s.keys[n]| && s.keys[n][i] == k
  {
  }

  lemma InList<K>(s: PoolState<K>, n: string, k: K)
    requires n in s.keys && k in s.keys[n]
    ensures k in InPool(s)
  {
    var i :| 0 <= i < |s.keys[n]| && s.keys[n][i] == k;
  }

  lemma IndexHas<K>(s: PoolState<K>, index: map<string, K>, id: string)
    requires Sane(s)
    requires forall i | i in index :: index[i] in InPool(s) && index[i] in s.cells && s.cells[index[i]].id == i
    requires forall k | k in InPool(s) && k in s.cells :: s.cells[k].id in index
    ensures HasId(s, id) <==> id in index
  {
    hide Sane, InPool;
    if id in index {
      assert index[id] in InPool(s) && s.cells[index[id]].id == id;
    }
  }

  /** The index names the pool's keys by id. */
  lemma IndexNames(p: Pool, index: map<string, Key>)
    requires p.Valid() && Indexes(p, index)
    ensures forall id | id in index :: index[id].id == id && index[id] in p.known
    ensures forall id | id in index ::
              index[id] in InPool(p.Abs()) && index[id] in p.Abs().cells && p.Abs().cells[index[id]].id == id
    ensures forall k | k in InPool(p.Abs()) && k in p.Abs().cells :: p.Abs().cells[k].id in index
  {
    hide Sane;
    p.ListedKnown();
    forall k | k in InPool(p.Abs()) && k in p.Abs().cells ensures p.Abs().cells[k].id in index {
      var n, i :| n in p.keys && 0 <= i < |p.keys[n]| && p.keys[n][i] == k;
    }
  }

  lemma StateNamed(k: Key)
    ensures k.State().id == k.id && k.State().val == k.val
  {
  }

  /** What is known of a key the lists hold: it was in the index, or it is new. */
  predicate Own(s: PoolState<Key>, s': PoolState<Key>, index: map<string, Key>, k: Key) {
    && k in s'.cells && s'.cells[k].id == k.id
    && (k !in index.Values ==> k !in s.cells && s'.cells[k] == FreshKey(k.val, k.id, s'.cells[k].prov))
  }

  /** Rebuild the lists and install them. */
  method Install(p: Pool, index: map<string, Key>, slots: map<string, seq<Slot>>, provs: map<string, Provider>)
    returns (ghost home: map<Key, string>)
    requires slots.Keys == provs.Keys && forall id | id in index :: index[id].id == id && index[id] in p.known
    modifies p`keys, p`rr, p`known, p.known
    ensures p.keys.Keys == slots.Keys && p.rr == map[]
    ensures forall n | n in slots :: NamesAll(index, slots[n], p.keys[n]) && forall k | k in p.keys[n] :: k in home
    ensures p.known == old(p.known) + home.Keys
    ensures forall k | k in home :: Own(old(p.Abs()), p.Abs(), index, k) && Homed(p.Abs(), provs, home, k)
    ensures forall k | k in old(p.known) :: Same(old(p.Abs()), p.Abs(), home, k)
  {
    hide Key.State, FreshKey, NamesAll;
    var keys;
    keys, home := Rebuild(index, slots, provs);
    p.keys, p.rr := keys, map[];
    p.known := p.known + home.Keys;
    forall k | k in home ensures Own(old(p.Abs()), p.Abs(), index, k) && Homed(p.Abs(), provs, home, k) {
      StateNamed(k);
      assert k in p.Abs().cells && p.Abs().cells[k] == k.State();
      if k !in index.Values {
        assert fresh(k) && NewKey(k);
      }
    }
    hide Own, Homed, NewKey;
    forall k | k in old(p.known) ensures Same(old(p.Abs()), p.Abs(), home, k) {
      assert k in p.Abs().cells && p.Abs().cells[k] == k.State();
      if k in index.Values {
        assert OnlyProv(old(k.State()), k.State());
      }
    }
    hide Same;
  }

  lemma Fills(s: PoolState<Key>, s': PoolState<Key>, index: map<string, Key>, home: map<Key, string>, ss: seq<Slot>, ks: seq<Key>, i: nat)
    requires NamesAll(index, ss, ks) && i < |ss| && forall k | k in ks :: k in home
    requires forall k | k in home :: Own(s, s', index, k)
    ensures |ks| == |ss| && Filled(s, s', index, home, ss[i], ks[i])
  {
    assert ks[i] in ks && Names(index, ss[i], ks[i]) && Own(s, s', index, ks[i]);
  }

  method Refill(p: Pool, index: map<string, Key>, slots: map<string, seq<Slot>>, provs: map<string, Provider>)
    returns (ghost home: map<Key, string>)
    requires slots.Keys == provs.Keys && forall id | id in index :: index[id].id == id && index[id] in p.known
    modifies p`keys, p`rr, p`known, p.known
    ensures Refilled(old(p.Abs()), p.Abs(), slots, provs, index, home)
  {
    hide Key.State, FreshKey, Own, NamesAll, Filled, Homed, Same;
    home := Install(p, index, slots, provs);
    forall n | n in slots ensures |p.keys[n]| == |slots[n]| {
      NamedLength(index, slots[n], p.keys[n]);
    }
    forall n, i | n in slots && 0 <= i < |slots[n]|
      ensures Filled(old(p.Abs()), p.Abs(), index, home, slots[n][i], p.keys[n][i])
    {
      Fills(old(p.Abs()), p.Abs(), index, home, slots[n], p.keys[n], i);
    }
  }

  lemma NamedLength(index: map<string, Key>, ss: seq<Slot>, ks: seq<Key>)
    requires NamesAll(index, ss, ks)
    ensures |ks| == |ss|
  {
  }

  /** Reload: rebuild every list, reusing the keys whose ids stay, and reset the cursors. */
  method Adopt(p: Pool, slots: map<string, seq<Slot>>, provs: map<string, Provider>)
    requires p.Valid() && slots.Keys == provs.Keys
    modifies p`keys, p`rr, p`known, p.known
    ensures p.Valid() && Adopted(old(p.Abs()), p.Abs(), slots, provs)
  {
    hide Sane, Adopted, Refilled, InPool, Indexes;
    ghost var was := p.Abs();
    var index := Index(p);
    IndexNames(p, index);
    ghost var home := Refill(p, index, slots, provs);
    BuildsAdopted(was, p.Abs(), slots, provs, index, home);
    AdoptedSane(was, p.Abs(), slots, provs);
  }

  /** The pool a configuration starts with: only fresh keys, one for each slot, and this day and
      minute. */
  method Start(slots: map<string, seq<Slot>>, provs: map<string, Provider>, now: nat) returns (p: Pool)
    requires slots.Keys == provs.Keys
    ensures fresh(p) && p.Valid() && p.Abs().day == YearDay(now) && p.Abs().min == MinuteOf(now)
    ensures Adopted(Unstarted(YearDay(now), MinuteOf(now)), p.Abs(), slots, provs)
    ensures forall k | k in p.known :: k.State() == FreshKey(k.val, k.id, k.State().prov)
  {
    hide Sane, Key.State, FreshKey;
    p := new Pool(now);
    ghost var was := p.Abs();
    Adopt(p, slots, provs);
    hide Adopts;
    forall k | k in p.known ensures k.State() == FreshKey(k.val, k.id, k.State().prov) {
      AdoptedCell(was, p.Abs(), slots, provs, k);
      StateNamed(k);
    }
  }

  /** A pool with no keys yet. */
  function Unstarted<K(==)>(day: int, min: int): PoolState<K> {
    PoolState(map[], map[], day, min, map[])
  }

  function Provs(c: Config): map<string, Provider> {
    map n | n in c.providers :: c.providers[n].prov
  }

  /** A pool started from a configuration has under each provider one fresh key for each of its secrets, in
      their order, named by the secret's fingerprint; and under a keyless provider one key with no secret,
      named by the fingerprint of keyless/ and its name. */
  lemma StartedKeys<K>(c: Config, f: string -> string, day: int, min: int, s: PoolState<K>)
    requires Sane(Unstarted<K>(day, min)) && Adopted(Unstarted(day, min), s, AllSlots(c, f), Provs(c))
    ensures s.keys.Keys == c.providers.Keys
    ensures forall n | n in c.providers ::
              var p, ks := c.providers[n].prov, s.keys[n];
              if p.keyless
              then |ks| == 1 && ks[0] in s.cells && s.cells[ks[0]].val == "" && s.cells[ks[0]].id == f("keyless/" + n)
              else |ks| == |p.keys|
                   && forall i | 0 <= i < |ks| :: ks[i] in s.cells && s.cells[ks[i]].val == p.keys[i] && s.cells[ks[i]].id == f(p.keys[i])
    ensures forall k | k in s.cells :: s.cells[k] == FreshKey(s.cells[k].val, s.cells[k].id, s.cells[k].prov)
  {
    var none := Unstarted<K>(day, min);
    forall n, i | n in c.providers && 0 <= i < |AllSlots(c, f)[n]|
      ensures var k, sl := s.keys[n][i], AllSlots(c, f)[n][i]; k in s.cells && s.cells[k] == FreshKey(sl.val, sl.id, s.cells[k].prov)
    {
      assert Adopts(none, s, AllSlots(c, f)[n][i], s.keys[n][i]);
    }
    forall k | k in s.cells ensures s.cells[k] == FreshKey(s.cells[k].val, s.cells[k].id, s.cells[k].prov) {
      AdoptedCell(none, s, AllSlots(c, f), Provs(c), k);
    }
  }

  // ---------- what a reload keeps ----------

  ghost function IdAt<K>(s: PoolState<K>, n: string, i: int): string
    requires Sane(s) && n in s.keys && 0 <= i < |s.keys[n]|
  {
    s.cells[s.keys[n][i]].id
  }

  /** Every id has one slot and one key object. */
  ghost predicate UniqueIds<K>(s: PoolState<K>)
    requires Sane(s)
  {
    forall n, i, m, j | n in s.keys && m in s.keys && 0 <= i < |s.keys[n]| && 0 <= j < |s.keys[m]|
                        && IdAt(s, n, i) == IdAt(s, m, j) :: n == m && i == j
  }

  /** The key in place i of n after a reload: it has the id of its slot and the provider of its
      list; it is the key object with that id, its state otherwise unchanged, if the pool had one,
      and a new one if not. */
  ghost predicate Placed<K>(s: PoolState<K>, s': PoolState<K>, slots: map<string, seq<Slot>>, provs: map<string, Provider>,
                            n: string, i: int)
    requires Sane(s) && slots.Keys == provs.Keys == s'.keys.Keys && n in slots && 0 <= i < |slots[n]| == |s'.keys[n]|
  {
    var k, sl := s'.keys[n][i], slots[n][i];
    && k in s'.cells && s'.cells[k].id == sl.id
    && (if HasId(s, sl.id) then k in InPool(s) && k in s.cells && s'.cells[k] == s.cells[k].(prov := provs[n])
        else k !in s.cells && s'.cells[k] == FreshKey(sl.val, sl.id, provs[n]))
  }

  lemma PlaceKept<K>(s: PoolState<K>, s': PoolState<K>, slots: map<string, seq<Slot>>, provs: map<string, Provider>, n: string, i: nat)
    requires Sane(s) && Adopted(s, s', slots, provs) && UniqueSlots(slots) && n in slots && i < |slots[n]|
    ensures Placed(s, s', slots, provs, n, i)
  {
    hide Sane, HasId;
    var k := s'.keys[n][i];
    assert Adopts(s, s', slots[n][i], k);
    assert k in InPool(s');
    var m :| m in provs && k in s'.keys[m] && k in s'.cells && s'.cells[k].prov == provs[m];
    var j :| 0 <= j < |s'.keys[m]| && s'.keys[m][j] == k;
    assert Adopts(s, s', slots[m][j], s'.keys[m][j]);
  }

  /** Every place holds a key of the pool. */
  lemma PlaceKnown<K>(s: PoolState<K>, n: string, i: nat)
    requires Sane(s) && n in s.keys && i < |s.keys[n]|
    ensures s.keys[n][i] in s.cells && s.keys[n][i] in InPool(s)
  {
  }

  /** The key object an id had is the one it has. */
  lemma SameObject<K>(s: PoolState<K>, s': PoolState<K>, slots: map<string, seq<Slot>>, provs: map<string, Provider>,
                      n: string, i: nat, m: string, j: nat)
    requires Sane(s) && UniqueIds(s) && Adopted(s, s', slots, provs) && UniqueSlots(slots)
    requires n in slots && i < |slots[n]| && m in s.keys && j < |s.keys[m]|
    requires IdAt(s, m, j) == slots[n][i].id
    ensures s'.keys[n][i] == s.keys[m][j]
  {
    hide Sane, Adopted;
    PlaceKnown(s, m, j);
    PlaceKept(s, s', slots, provs, n, i);
    AdoptedShape(s, s', slots, provs);
    assert HasId(s, slots[n][i].id);
    var k := s'.keys[n][i];
    var a, b :| a in s.keys && 0 <= b < |s.keys[a]| && s.keys[a][b] == k;
    PlaceKnown(s, a, b);
    assert IdAt(s, a, b) == IdAt(s, m, j);
  }

  lemma AdoptedShape<K>(s: PoolState<K>, s': PoolState<K>, slots: map<string, seq<Slot>>, provs: map<string, Provider>)
    requires Sane(s) && Adopted(s, s', slots, provs)
    ensures slots.Keys == provs.Keys == s'.keys.Keys && forall n | n in slots :: |s'.keys[n]| == |slots[n]|
    ensures s'.rr == map[]
  {
  }

  /** A reload to slots with unique ids, after which ids are unique again and every cursor starts
      over: each place holds the very key object its id had anywhere in the pool before, whole
      state kept, or else a new one. */
  lemma ReloadKeeps<K>(s: PoolState<K>, s': PoolState<K>, slots: map<string, seq<Slot>>, provs: map<string, Provider>)
    requires Sane(s) && UniqueIds(s) && Adopted(s, s', slots, provs) && UniqueSlots(slots)
    ensures Sane(s') && UniqueIds(s') && forall n | n in s'.keys :: Cursor(s', n) == 0
    ensures slots.Keys == provs.Keys == s'.keys.Keys && forall n | n in slots :: |s'.keys[n]| == |slots[n]|
    ensures forall n, i | n in slots && 0 <= i < |slots[n]| :: Placed(s, s', slots, provs, n, i)
    ensures forall n, i, m, j | n in slots && 0 <= i < |slots[n]| && m in s.keys && 0 <= j < |s.keys[m]|
                                && IdAt(s, m, j) == slots[n][i].id :: s'.keys[n][i] == s.keys[m][j]
  {
    hide Sane, Adopted, HasId, InPool;
    AdoptedSane(s, s', slots, provs);
    AdoptedShape(s, s', slots, provs);
    forall n, i | n in slots && 0 <= i < |slots[n]| ensures Placed(s, s', slots, provs, n, i) {
      PlaceKept(s, s', slots, provs, n, i);
      assert IdAt(s', n, i) == slots[n][i].id;
    }
    assert forall n, i | n in s'.keys && 0 <= i < |s'.keys[n]| :: Placed(s, s', slots, provs, n, i) && IdAt(s', n, i) == slots[n][i].id;
    forall n, i, m, j | n in slots && 0 <= i < |slots[n]| && m in s.keys && 0 <= j < |s.keys[m]|
                        && IdAt(s, m, j) == slots[n][i].id
      ensures s'.keys[n][i] == s.keys[m][j]
    {
      SameObject(s, s', slots, provs, n, i, m, j);
    }
  }

  // ---------- over whole runs ----------

  /** k is the key object of this id. */
  ghost predicate Owns<K>(s: PoolState<K>, k: K, id: string) {
    k in InPool(s) && k in s.cells && s.cells[k].id == id
  }

  predicate HasSlot(slots: map<string, seq<Slot>>, id: string) {
    exists n, i :: n in slots && 0 <= i < |slots[n]| && slots[n][i].id == id
  }

  /** Only a reload changes the lists, and nothing changes the id of a key. */
  lemma StepIds(w: World, a: Action)
    requires Sane(w.pool) && Enabled(w, a)
    ensures !a.Reload? ==> Next(w, a).pool.keys == w.pool.keys
    ensures forall k | k in w.pool.cells :: k in Next(w, a).pool.cells && Next(w, a).pool.cells[k].id == w.pool.cells[k].id
    ensures Sane(Next(w, a).pool)
  {
    hide Sane, YearDay, MinuteOf, InPool, PickedFrom, Adopted, Rung, Rolled;
    RolledKeeps(w.pool, w.now);
    RolledIds(w.pool, w.now);
    var r := Rolled(w.pool, w.now);
    match a
    case Pick(_, prov) =>
      SaneListed(r, prov);
      PickedSane(r, prov, w.now);
      History.PickedCells(r, prov, w.now);
    case Reload(slots, provs, next) =>
      AdoptedSane(w.pool, next, slots, provs);
      AdoptedKeys(w.pool, next, slots, provs);
      forall k | k in w.pool.cells ensures next.cells[k].id == w.pool.cells[k].id {
        AdoptedCell(w.pool, next, slots, provs, k);
      }
    case Done(t) =>
      SaneStep(w.pool, PhaseOf(w, t).k);
      UpdateSane(w.pool, PhaseOf(w, t).k, Released(w.pool.cells[PhaseOf(w, t).k]));
    case End(_) =>
    case Look =>
    case Tick(_) =>
    case _ =>
      var k := PhaseOf(w, a.t).k;
      SaneStep(r, k);
      StepIdsTouch(w, a, r, k);
  }

  lemma RolledIds<K>(s: PoolState<K>, now: nat)
    ensures Rolled(s, now).keys == s.keys && Rolled(s, now).cells.Keys == s.cells.Keys
    ensures forall k | k in s.cells :: Rolled(s, now).cells[k].id == s.cells[k].id
  {
    hide InPool, YearDay;
  }

  lemma StepIdsTouch(w: World, a: Action, r: PoolState<Ref>, k: Ref)
    requires Sane(w.pool) && Sane(r) && r == Rolled(w.pool, w.now) && Enabled(w, a) && (a.Ok? || a.Fail? || a.Charge? || a.Sour?)
    requires k == PhaseOf(w, a.t).k && k in r.cells && r.cells[k].step < RUNGS
    ensures Sane(Next(w, a).pool) && Next(w, a).pool == Update(r, k, Next(w, a).pool.cells[k])
    ensures Next(w, a).pool.cells[k].id == r.cells[k].id
  {
    hide Sane, Rolled;
    UpdateSane(r, k, Next(w, a).pool.cells[k]);
  }

  /** Over every run whose reloads give unique ids, each id has one slot and one key object. */
  lemma {:induction false} RunUnique(ws: seq<World>, acts: seq<Action>)
    requires Run(ws, acts) && Sane(ws[0].pool) && UniqueIds(ws[0].pool)
    requires forall i | 0 <= i < |acts| && acts[i].Reload? :: UniqueSlots(acts[i].slots)
    ensures forall i | 0 <= i < |ws| :: Sane(ws[i].pool) && UniqueIds(ws[i].pool)
  {
    hide Enabled, Next, Sane, UniqueIds, UniqueSlots;
    for n := 0 to |acts|
      invariant forall i | 0 <= i <= n :: Sane(ws[i].pool) && UniqueIds(ws[i].pool)
    {
      StepUnique(ws[n], acts[n]);
    }
  }

  lemma StepUnique(w: World, a: Action)
    requires Sane(w.pool) && Enabled(w, a) && UniqueIds(w.pool) && (a.Reload? ==> UniqueSlots(a.slots))
    ensures Sane(Next(w, a).pool) && UniqueIds(Next(w, a).pool)
  {
    hide Sane, UniqueSlots, Next, Adopted;
    StepIds(w, a);
    if a.Reload? {
      EnabledReload(w, a);
      ReloadKeeps(w.pool, a.next, a.slots, a.provs);
    } else {
      SamePlaces(w.pool, Next(w, a).pool);
    }
  }

  lemma EnabledReload(w: World, a: Action)
    requires Sane(w.pool) && a.Reload? && Enabled(w, a)
    ensures Adopted(w.pool, a.next, a.slots, a.provs) && Next(w, a).pool == a.next
  {
  }

  lemma SamePlaces<K>(s: PoolState<K>, s': PoolState<K>)
    requires Sane(s) && Sane(s') && s'.keys == s.keys
    requires forall k | k in s.cells :: k in s'.cells && s'.cells[k].id == s.cells[k].id
    ensures UniqueIds(s) ==> UniqueIds(s')
  {
    assert forall n, i | n in s.keys && 0 <= i < |s.keys[n]| :: IdAt(s', n, i) == IdAt(s, n, i);
  }

  /** A key's whole state kept, but for its provider. */
  predicate KeptWhole<K(==)>(s: PoolState<K>, s': PoolState<K>, k: K) {
    k in s.cells && k in s'.cells && s'.cells[k] == s.cells[k].(prov := s'.cells[k].prov)
  }

  /** A key object stays its id's for as long as reloads keep the id, whatever else they do: moved,
      reordered or given to another provider. */
  lemma StepOwns(w: World, a: Action, k: Ref, id: string)
    requires Sane(w.pool) && Enabled(w, a) && UniqueIds(w.pool) && Owns(w.pool, k, id)
    requires a.Reload? ==> UniqueSlots(a.slots) && HasSlot(a.slots, id)
    ensures Owns(Next(w, a).pool, k, id)
    ensures a.Reload? ==> KeptWhole(w.pool, Next(w, a).pool, k)
  {
    hide Sane, UniqueIds, UniqueSlots, Next, Adopted, Placed;
    StepIds(w, a);
    if a.Reload? {
      EnabledReload(w, a);
      ReloadKeeps(w.pool, a.next, a.slots, a.provs);
      AdoptedCell(w.pool, a.next, a.slots, a.provs, k);
      var n, i :| n in a.slots && 0 <= i < |a.slots[n]| && a.slots[n][i].id == id;
      var m, j :| m in w.pool.keys && 0 <= j < |w.pool.keys[m]| && w.pool.keys[m][j] == k;
      assert IdAt(w.pool, m, j) == id;
      assert a.next.keys[n][i] == k;
    }
  }

  /** So over every run that keeps the id, with any number of reloads, one key object owns it
      throughout, and each reload leaves its whole state but the provider. */
  lemma {:induction false} RunOwns(ws: seq<World>, acts: seq<Action>, k: Ref, id: string)
    requires Run(ws, acts) && Sane(ws[0].pool) && UniqueIds(ws[0].pool) && Owns(ws[0].pool, k, id)
    requires forall i | 0 <= i < |acts| && acts[i].Reload? :: UniqueSlots(acts[i].slots) && HasSlot(acts[i].slots, id)
    ensures forall i | 0 <= i < |ws| :: Owns(ws[i].pool, k, id)
    ensures forall i | 0 <= i < |acts| && acts[i].Reload? ::
              KeptWhole(ws[i].pool, ws[i + 1].pool, k)
  {
    hide Enabled, Next, Sane, UniqueIds, UniqueSlots, HasSlot, InPool;
    RunUnique(ws, acts);
    for n := 0 to |acts|
      invariant forall i | 0 <= i <= n :: Owns(ws[i].pool, k, id)
      invariant forall i | 0 <= i < n && acts[i].Reload? ::
                  KeptWhole(ws[i].pool, ws[i + 1].pool, k)
    {
      StepOwns(ws[n], acts[n], k, id);
    }
  }

  /** After a reload the pool has only the ids of its slots. */
  lemma OnlySlots<K>(s: PoolState<K>, s1: PoolState<K>, slots: map<string, seq<Slot>>, provs: map<string, Provider>, id: string)
    requires Sane(s) && Adopted(s, s1, slots, provs) && Sane(s1) && HasId(s1, id)
    ensures HasSlot(slots, id)
  {
    hide Sane, FreshKey;
    var k :| k in InPool(s1) && k in s1.cells && s1.cells[k].id == id;
    var m, j :| m in s1.keys && 0 <= j < |s1.keys[m]| && s1.keys[m][j] == k;
    assert Adopts(s, s1, slots[m][j], s1.keys[m][j]);
  }

  // ---------- the caps ----------

  /** A reload without room for what some key used takes it above its caps. */
  lemma NoRoom(w: World, a: Action, k: Ref, n: string, i: nat)
    requires Sane(w.pool) && UniqueIds(w.pool) && a.Reload? && Enabled(w, a) && UniqueSlots(a.slots)
    requires k in InPool(w.pool) && k in w.pool.cells && n in a.slots && n in a.provs && i < |a.slots[n]|
    requires a.slots[n][i].id == w.pool.cells[k].id && !Fits(w.pool.cells[k], a.provs[n])
    ensures !WithinCaps(Next(w, a))
  {
    hide Sane, UniqueIds, UniqueSlots, Adopted, Within;
    EnabledReload(w, a);
    AdoptedShape(w.pool, a.next, a.slots, a.provs);
    PlaceKept(w.pool, a.next, a.slots, a.provs, n, i);
    var m, j :| m in w.pool.keys && 0 <= j < |w.pool.keys[m]| && w.pool.keys[m][j] == k;
    SameObject(w.pool, a.next, a.slots, a.provs, n, i, m, j);
    assert HasId(w.pool, a.slots[n][i].id);
    assert a.next.cells[k] == w.pool.cells[k].(prov := a.provs[n]);
    assert !Within(Next(w, a).pool.cells[k]);
  }

  /** A reload keeps every key within its caps if and only if the new caps admit what each key whose
      id they keep already used: successes and reservations, today and this minute. */
  lemma ReloadCappedIff(w: World, a: Action)
    requires Conserves(w) && WithinCaps(w) && UniqueIds(w.pool) && a.Reload? && Enabled(w, a) && UniqueSlots(a.slots)
    ensures WithinCaps(Next(w, a)) <==> Admits(w.pool, a.slots, a.provs)
  {
    hide Sane, UniqueIds, UniqueSlots, Enabled, Next, WithinCaps, InPool, Fits;
    if Admits(w.pool, a.slots, a.provs) {
      ReloadCapped(w, a);
    } else {
      var k, n, i :| k in InPool(w.pool) && k in w.pool.cells && n in a.slots && n in a.provs && 0 <= i < |a.slots[n]|
                     && a.slots[n][i].id == w.pool.cells[k].id && !Fits(w.pool.cells[k], a.provs[n]);
      NoRoom(w, a, k, n, i);
    }
  }

  /** So a run that starts within the caps stays within them if and only if every reload in it has
      room. */
  lemma {:induction false} RunCappedIff(ws: seq<World>, acts: seq<Action>)
    requires Run(ws, acts) && Conserves(ws[0]) && WithinCaps(ws[0]) && UniqueIds(ws[0].pool)
    requires forall i | 0 <= i < |acts| && acts[i].Reload? :: UniqueSlots(acts[i].slots)
    ensures (forall i | 0 <= i < |ws| :: WithinCaps(ws[i]))
            <==> forall i | 0 <= i < |acts| && acts[i].Reload? :: Admits(ws[i].pool, acts[i].slots, acts[i].provs)
  {
    hide Conserves, Enabled, Next, WithinCaps, Admits, Sane, UniqueIds, UniqueSlots;
    Keyed(ws[0]);
    RunUnique(ws, acts);
    RunConserves(ws, acts);
    if forall i | 0 <= i < |acts| && acts[i].Reload? :: Admits(ws[i].pool, acts[i].slots, acts[i].provs) {
      for n := 0 to |acts|
        invariant forall i | 0 <= i <= n :: WithinCaps(ws[i])
      {
        StepKeeps(ws[n], acts[n]);
      }
    } else {
      var i :| 0 <= i < |acts| && acts[i].Reload? && !Admits(ws[i].pool, acts[i].slots, acts[i].provs);
      if WithinCaps(ws[i]) {
        ReloadCappedIff(ws[i], acts[i]);
        assert ws[i + 1] == Next(ws[i], acts[i]) && !WithinCaps(ws[i + 1]);
      }
    }
  }

  /** A pool of one key with two successes today and no daily cap. */
  ghost function Used(rpd: int): PoolState<Ref> {
    PoolState(map["p" := [0]], map[], 1, 0, map[0 := FreshKey("s", "a", Provider(false, ["s"], rpd, 0)).(reqs := 2)])
  }

  ghost function UsedWorld(): World {
    World(Used(0), 0, map[], 0, map[0 := []])
  }

  ghost function CapOne(): Action {
    Action.Reload(map["p" := [Slot("a", "s")]], map["p" := Provider(false, ["s"], 1, 0)], Used(1))
  }

  /** A reload that only changes the provider of the one key. */
  lemma SameAdopted(s: PoolState<Ref>, k: Ref, sl: Slot, prov: Provider)
    requires Sane(s) && s.keys == map["p" := [k]] && k in s.cells && s.cells[k].id == sl.id && s.rr == map[]
    ensures Adopted(s, s.(cells := s.cells[k := s.cells[k].(prov := prov)]), map["p" := [sl]], map["p" := prov])
  {
    hide Sane;
    var s' := s.(cells := s.cells[k := s.cells[k].(prov := prov)]);
    assert s.keys["p"][0] == k && s'.keys["p"][0] == k;
    assert InPool(s) == {k} && InPool(s') == {k};
    assert HasId(s, sl.id);
    assert Adopts(s, s', sl, k);
  }

  lemma UsedFits()
    ensures Conserves(UsedWorld()) && WithinCaps(UsedWorld()) && UniqueIds(UsedWorld().pool)
  {
    assert Holders(map[], 0) == {};
  }

  lemma CapOneAdopts()
    ensures UniqueSlots(CapOne().slots) && Adopted(Used(0), Used(1), CapOne().slots, CapOne().provs)
  {
    hide Adopted, InPool;
    SameAdopted(Used(0), 0, Slot("a", "s"), Provider(false, ["s"], 1, 0));
    assert Used(1).cells == Used(0).cells[0 := Used(0).cells[0].(prov := Provider(false, ["s"], 1, 0))];
  }

  /** A concrete reload that takes a key above its new daily cap of 1. */
  lemma CapBroken()
    ensures Conserves(UsedWorld()) && WithinCaps(UsedWorld()) && UniqueIds(UsedWorld().pool)
    ensures Enabled(UsedWorld(), CapOne()) && UniqueSlots(CapOne().slots) && !WithinCaps(Next(UsedWorld(), CapOne()))
  {
    UsedFits();
    CapOneAdopts();
    hide Adopted, InPool, Conserves, UniqueIds, UniqueSlots;
    assert !Within(Used(1).cells[0]);
  }

  // ---------- an id dropped ----------

  /** A reload that drops an id forgets its state: if a later one brings it back, its key is new,
      with no cooldown, death or counts left, though requests may still hold the old one. */
  lemma DropForgets<K>(s: PoolState<K>, s1: PoolState<K>, s2: PoolState<K>,
                       slots1: map<string, seq<Slot>>, provs1: map<string, Provider>,
                       slots2: map<string, seq<Slot>>, provs2: map<string, Provider>, n: string, i: nat)
    requires Sane(s) && Adopted(s, s1, slots1, provs1) && Sane(s1) && Adopted(s1, s2, slots2, provs2) && UniqueSlots(slots2)
    requires n in slots2 && i < |slots2[n]| && !HasSlot(slots1, slots2[n][i].id)
    ensures var k, sl := s2.keys[n][i], slots2[n][i];
            k !in s.cells && k in s2.cells && s2.cells[k] == FreshKey(sl.val, sl.id, provs2[n])
  {
    hide Sane, FreshKey;
    if HasId(s1, slots2[n][i].id) {
      OnlySlots(s, s1, slots1, provs1, slots2[n][i].id);
    }
    PlaceKept(s1, s2, slots2, provs2, n, i);
  }
}
