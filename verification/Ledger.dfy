// The key pool's state as a value, and what each pool operation does to it. K is the identity
// of a key object: two keys of one secret, one dropped by a reload, are different.

module Ledger {
  import opened Wrappers
  import opened Clock

  datatype Provider = Provider(keyless: bool, keys: seq<string>, rpd: int, rpm: int)

  datatype Spend = Spend(input: int, output: int, total: int) {
    function Add(o: Spend): Spend {
      Spend(input + o.input, output + o.output, total + o.total)
    }
  }

  const NO_SPEND := Spend(0, 0, 0)

  datatype KeyState = KeyState(
    val: string, id: string, prov: Provider,
    until: int, step: nat, dead: bool,
    reqs: int, errs: int, mins: int, live: int, last: int,
    ttft: int, toks: Spend, life: Spend, blind: int)

  function FreshKey(val: string, id: string, prov: Provider): KeyState {
    KeyState(val, id, prov, NEVER, 0, false, 0, 0, 0, 0, NEVER, 0, NO_SPEND, NO_SPEND, 0)
  }

  // What the state file keeps of a key.
  datatype Saved = Saved(reqs: int, errs: int, toks: Spend, blind: int, ttft: int, life: Spend)

  function SavedOf(c: KeyState): Saved {
    Saved(c.reqs, c.errs, c.toks, c.blind, c.ttft, c.life)
  }

  datatype PoolState<!K(==)> = PoolState(
    keys: map<string, seq<K>>, rr: map<string, int>, day: int, min: int, cells: map<K, KeyState>)

  // ---------- one key ----------

  predicate Spent(c: KeyState) {
    c.prov.rpd > 0 && c.reqs + c.live >= c.prov.rpd
  }

  predicate Capped(c: KeyState) {
    c.prov.rpm > 0 && c.mins + c.live >= c.prov.rpm
  }

  predicate Free(c: KeyState, now: nat) {
    !c.dead && !Spent(c) && !Capped(c) && now >= c.until
  }

  predicate Blameless(code: int) {
    400 <= code < 500 && code != 429 && code != 402
  }

  predicate Fatal(code: int) {
    code == 401 || code == 403
  }

  const RUNGS: nat := 4

  /** The cooldown ladder. */
  function Rung(step: nat): nat
    requires step < RUNGS
  {
    if step == 0 then MINUTE else if step == 1 then 5 * MINUTE else if step == 2 then 30 * MINUTE else 24 * HOUR
  }

  /** A key benched after a failure: its state, the cooldown and whether it died. */
  function Benched(c: KeyState, now: nat, code: int, retry: int): (r: (KeyState, int, bool))
    requires c.step < RUNGS
    ensures r.0.step < RUNGS
  {
    if Fatal(code) then (c.(dead := true), 0, true)
    else if Blameless(code) then (c, 0, false)
    else if retry > 0 then (c.(until := now + retry), retry, false)
    else (c.(until := now + Rung(c.step), step := if c.step + 1 < RUNGS then c.step + 1 else RUNGS - 1), Rung(c.step), false)
  }

  /** The moving average of the time to the first token. */
  function Measured(ttft: int, d: int): int {
    if d <= 0 then ttft else if ttft == 0 then d else (3 * d + 7 * ttft) / 10
  }

  function Reserved(c: KeyState): KeyState {
    c.(live := c.live + 1)
  }

  function Succeeded(c: KeyState, now: nat, ttft: int): KeyState {
    c.(until := NEVER, step := 0, live := c.live - 1, reqs := c.reqs + 1, mins := c.mins + 1, last := now,
       ttft := Measured(c.ttft, ttft))
  }

  function Failed(c: KeyState, now: nat, code: int, retry: int): KeyState
    requires c.step < RUNGS
  {
    Benched(c.(live := c.live - 1, errs := c.errs + 1), now, code, retry).0
  }

  function Soured(c: KeyState, now: nat): KeyState
    requires c.step < RUNGS
  {
    Benched(c.(errs := c.errs + 1), now, 0, 0).0
  }

  function Released(c: KeyState): KeyState {
    c.(live := c.live - 1)
  }

  function Charged(c: KeyState, s: Option<Spend>): KeyState {
    match s
    case None => c.(blind := c.blind + 1)
    case Some(v) => c.(toks := c.toks.Add(v), life := c.life.Add(v))
  }

  // ---------- the pool ----------

  /** The keys in some provider's list. */
  ghost function InPool<K>(s: PoolState<K>): set<K> {
    set n, i | n in s.keys && 0 <= i < |s.keys[n]| :: s.keys[n][i]
  }

  function RolledCell(c: KeyState, newDay: bool, newMinute: bool): KeyState {
    var d := if newDay then c.(reqs := 0, errs := 0, toks := NO_SPEND, blind := 0) else c;
    if newMinute then d.(mins := 0) else d
  }

  /** Counters of an earlier day or minute dropped, for the keys in the pool. */
  ghost function Rolled<K>(s: PoolState<K>, now: nat): PoolState<K> {
    var newDay, newMinute := YearDay(now) != s.day, MinuteOf(now) != s.min;
    s.(day := YearDay(now), min := MinuteOf(now),
       cells := map k | k in s.cells :: if k in InPool(s) then RolledCell(s.cells[k], newDay, newMinute) else s.cells[k])
  }

  function Update<K(==)>(s: PoolState<K>, k: K, c: KeyState): PoolState<K> {
    s.(cells := s.cells[k := c])
  }

  function Cursor<K(==)>(s: PoolState<K>, prov: string): int {
    if prov in s.rr then s.rr[prov] else 0
  }

  function Listed<K(==)>(s: PoolState<K>, prov: string): seq<K> {
    if prov in s.keys then s.keys[prov] else []
  }

  /** Every key has a cell, every cursor a slot, and every step a rung. */
  ghost predicate Sane<K>(s: PoolState<K>) {
    && (forall n, i | n in s.keys && 0 <= i < |s.keys[n]| :: s.keys[n][i] in s.cells)
    && (forall n | n in s.keys && s.keys[n] != [] :: 0 <= Cursor(s, n) < |s.keys[n]|)
    && (forall k | k in s.cells :: s.cells[k].step < RUNGS)
  }

  /** How far from the cursor the first free key lies, going round, from distance d on. */
  function FreeFrom<K(==)>(s: PoolState<K>, prov: string, now: nat, d: nat): (r: Option<nat>)
    requires forall k | k in Listed(s, prov) :: k in s.cells
    requires d <= |Listed(s, prov)|
    ensures r.Some? ==> d <= r.value < |Listed(s, prov)|
    decreases |Listed(s, prov)| - d
  {
    var ks := Listed(s, prov);
    if d == |ks| then None
    else if Free(s.cells[ks[(Cursor(s, prov) + d) % |ks|]], now) then Some(d)
    else FreeFrom(s, prov, now, d + 1)
  }

  /** Pick the first free key round from the cursor and reserve it. */
  function PickedFrom<K(==)>(s: PoolState<K>, prov: string, now: nat): (r: (PoolState<K>, Option<K>))
    requires forall k | k in Listed(s, prov) :: k in s.cells
  {
    var ks := Listed(s, prov);
    if ks == [] then (s, None) else
    match FreeFrom(s, prov, now, 0)
    case None => (s.(rr := s.rr[prov := Cursor(s, prov)]), None)
    case Some(d) =>
      var k := ks[(Cursor(s, prov) + d) % |ks|];
      (Update(s.(rr := s.rr[prov := (Cursor(s, prov) + d + 1) % |ks|]), k, Reserved(s.cells[k])), Some(k))
  }

  /** Rolling changes nothing but the counters. */
  lemma RolledKeeps<K>(s: PoolState<K>, now: nat)
    requires Sane(s)
    ensures Sane(Rolled(s, now)) && Rolled(s, now).cells.Keys == s.cells.Keys
    ensures InPool(Rolled(s, now)) == InPool(s)
  {
    var t := Rolled(s, now);
    assert t.keys == s.keys;
    assert forall n | n in s.keys :: Cursor(t, n) == Cursor(s, n);
  }

  /** Writing one cell keeps the pool sane. */
  lemma UpdateSane<K>(s: PoolState<K>, k: K, c: KeyState)
    requires Sane(s) && k in s.cells && c.step < RUNGS
    ensures Sane(Update(s, k, c))
  {
    var t := Update(s, k, c);
    assert forall n | n in s.keys :: Cursor(t, n) == Cursor(s, n);
  }

  lemma Around(x: int, n: int)
    requires 0 <= x < 2 * n
    ensures x % n == if x < n then x else x - n
  {
    if x >= n {
      assert x == 1 * n + (x - n);
      Modulo(1, x - n, n);
    }
  }

  lemma Modulo(q: int, r: int, n: int)
    requires 0 <= r < n
    ensures (q * n + r) % n == r
  {
    var x := q * n + r;
    var e := x / n - q;
    assert x == n * (x / n) + x % n;
    assert n * (x / n) == n * (q + e) == n * q + n * e;
    Multiple(e, n);
  }

  lemma Multiple(e: int, n: int)
    requires n > 0
    ensures e >= 1 ==> n * e >= n
    ensures e <= -1 ==> n * e <= -n
  {
    if e >= 1 {
      assert n * e >= n * 1;
    } else if e <= -1 {
      assert n * e <= n * -1;
    }
  }

  /** The key at distance d round from the cursor. */
  function At<K(==)>(s: PoolState<K>, prov: string, d: nat): K
    requires Listed(s, prov) != []
  {
    Listed(s, prov)[(Cursor(s, prov) + d) % |Listed(s, prov)|]
  }

  lemma FreeStep<K>(s: PoolState<K>, prov: string, now: nat, d: nat)
    requires forall k | k in Listed(s, prov) :: k in s.cells
    requires d < |Listed(s, prov)|
    ensures FreeFrom(s, prov, now, d) == if Free(s.cells[At(s, prov, d)], now) then Some(d) else FreeFrom(s, prov, now, d + 1)
  {
  }

  lemma PickedHit<K>(s: PoolState<K>, prov: string, now: nat, d: nat)
    requires forall k | k in Listed(s, prov) :: k in s.cells
    requires FreeFrom(s, prov, now, 0) == Some(d)
    ensures var n := |Listed(s, prov)|; var k := At(s, prov, d);
            PickedFrom(s, prov, now)
            == (s.(rr := s.rr[prov := (Cursor(s, prov) + d + 1) % n], cells := s.cells[k := Reserved(s.cells[k])]), Some(k))
  {
  }

  lemma PickedMiss<K>(s: PoolState<K>, prov: string, now: nat)
    requires forall k | k in Listed(s, prov) :: k in s.cells
    requires FreeFrom(s, prov, now, 0) == None
    ensures PickedFrom(s, prov, now) == (if Listed(s, prov) == [] then s else s.(rr := s.rr[prov := Cursor(s, prov)]), None)
  {
  }

  lemma CursorSane<K>(s: PoolState<K>, prov: string, c: int)
    requires Sane(s) && prov in s.keys && 0 <= c < |s.keys[prov]|
    ensures Sane(s.(rr := s.rr[prov := c]))
  {
    var t := s.(rr := s.rr[prov := c]);
    assert forall n | n in s.keys && n != prov :: Cursor(t, n) == Cursor(s, n);
  }

  lemma PickedSane<K>(s: PoolState<K>, prov: string, now: nat)
    requires Sane(s)
    ensures Sane(PickedFrom(s, prov, now).0)
  {
    hide FreeFrom, Reserved;
    var ks := Listed(s, prov);
    if ks != [] {
      var r := FreeFrom(s, prov, now, 0);
      if r.Some? {
        Around(Cursor(s, prov) + r.value, |ks|);
        Around(Cursor(s, prov) + r.value + 1, |ks|);
        var k := At(s, prov, r.value);
        var c := (Cursor(s, prov) + r.value + 1) % |ks|;
        CursorSane(s, prov, c);
        ReservedStep(s.cells[k]);
        UpdateSane(s.(rr := s.rr[prov := c]), k, Reserved(s.cells[k]));
      } else {
        CursorSane(s, prov, Cursor(s, prov));
      }
    }
  }

  lemma ReservedStep(c: KeyState)
    ensures Reserved(c).step == c.step
  {
  }
}
