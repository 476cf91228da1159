// The retry hint: how long until some listed key recovers.

module Retry {
  import opened Clock
  import opened Ledger
  import opened Pool
  import opened World

  predicate Alive(c: KeyState) {
    !c.dead && !Spent(c)
  }

  /** What is left of the current minute, in whole seconds. */
  function MinuteLeft(now: nat): (d: int)
    ensures SECOND <= d <= MINUTE
  {
    (60 - Unix(now) % 60) * SECOND
  }

  /** How long the key stays blocked by its cooldown or its minute cap; positive when blocked. */
  function Wait(c: KeyState, now: nat): int {
    var d := c.until - now;
    if Capped(c) && MinuteLeft(now) > d then MinuteLeft(now) else d
  }

  function Offer(best: int, c: KeyState, now: nat): int {
    if !Alive(c) then best
    else if Wait(c, now) > 0 && (best == 0 || Wait(c, now) < best) then Wait(c, now)
    else best
  }

  /** The least positive wait of the living keys in ks, or 0. */
  function Best<K(==)>(ks: seq<K>, cells: map<K, KeyState>, now: nat): int
    requires forall k | k in ks :: k in cells
  {
    if ks == [] then 0
    else Offer(Best(ks[..|ks| - 1], cells, now), cells[ks[|ks| - 1]], now)
  }

  /** The keys of the providers named, in order. */
  function ListedAll<K(==)>(s: PoolState<K>, provs: seq<string>): seq<K> {
    if provs == [] then []
    else ListedAll(s, provs[..|provs| - 1]) + Listed(s, provs[|provs| - 1])
  }

  lemma {:induction false} ListedAllSane<K>(s: PoolState<K>, provs: seq<string>)
    requires Sane(s)
    ensures forall k | k in ListedAll(s, provs) :: k in s.cells && k in InPool(s)
  {
    hide Sane, InPool;
    if provs != [] {
      ListedAllSane(s, provs[..|provs| - 1]);
      SaneListed(s, provs[|provs| - 1]);
    }
  }

  ghost function Hint<K>(s: PoolState<K>, provs: seq<string>, now: nat): int
    requires Sane(s)
  {
    ListedAllSane(s, provs);
    Best(ListedAll(s, provs), s.cells, now)
  }

  /** One key weighed against the best wait so far. */
  method Weigh(k: Key, now: nat, best: int) returns (r: int)
    ensures r == Offer(best, k.State(), now)
  {
    r := best;
    var spent := k.IsSpent();
    if !k.dead && !spent {
      var d := k.until - now;
      var capped := k.IsCapped();
      if capped && MinuteLeft(now) > d {
        d := MinuteLeft(now);
      }
      if d > 0 && (best == 0 || d < best) {
        r := d;
      }
    }
  }

  lemma BestSnoc<K>(ks: seq<K>, k: K, cells: map<K, KeyState>, now: nat)
    requires forall j | j in ks + [k] :: j in cells
    ensures forall j | j in ks :: j in cells
    ensures Best(ks + [k], cells, now) == Offer(Best(ks, cells, now), cells[k], now)
  {
    assert forall j | j in ks :: j in ks + [k];
    assert (ks + [k])[..|ks + [k]| - 1] == ks;
  }

  /** The least positive wait of one list, or best0 if that is less. */
  method Shortest(p: Pool, ks: seq<Key>, now: nat, best0: int, ghost before: seq<Key>) returns (best: int)
    requires (forall k | k in before + ks :: k in p.Abs().cells) && best0 == Best(before, p.Abs().cells, now)
    ensures best == Best(before + ks, p.Abs().cells, now)
  {
    hide Offer, Best;
    best := best0;
    assert before + ks[..0] == before;
    for j := 0 to |ks|
      invariant best == Best(before + ks[..j], p.Abs().cells, now)
    {
      assert ks[j] in before + ks;
      assert before + ks[..j + 1] == (before + ks[..j]) + [ks[j]];
      BestSnoc(before + ks[..j], ks[j], p.Abs().cells, now);
      best := Weigh(ks[j], now, best);
    }
    assert before + ks[..|ks|] == before + ks;
  }

  /** How long until some key of the listed providers recovers. */
  method Soonest(p: Pool, ts: seq<string>, now: nat) returns (best: int)
    requires p.Valid()
    modifies p`day, p`min, p.known
    ensures p.Valid() && p.Abs() == Rolled(old(p.Abs()), now)
    ensures best == Hint(Rolled(old(p.Abs()), now), ts, now)
  {
    hide Rolled;
    p.Roll(now);
    best := Scan(p, ts, now);
  }

  method Scan(p: Pool, ts: seq<string>, now: nat) returns (best: int)
    requires p.Valid()
    ensures best == Hint(p.Abs(), ts, now)
  {
    hide Sane, Best, ListedAll;
    ghost var s := p.Abs();
    ListedAllSane(s, ts);
    best := 0;
    ListedNone(s);
    assert ts[..0] == [];
    NothingBest(s.cells, now);
    for i := 0 to |ts|
      invariant (forall k | k in ListedAll(s, ts[..i]) :: k in s.cells) && best == Best(ListedAll(s, ts[..i]), s.cells, now)
    {
      SaneListed(s, ts[i]);
      ListedSnoc(s, ts, i);
      best := Shortest(p, if ts[i] in p.keys then p.keys[ts[i]] else [], now, best, ListedAll(s, ts[..i]));
    }
    assert ts[..|ts|] == ts;
  }

  lemma ListedNone<K>(s: PoolState<K>)
    ensures ListedAll(s, []) == []
  {
  }

  lemma ListedSnoc<K>(s: PoolState<K>, ts: seq<string>, i: nat)
    requires i < |ts|
    ensures ListedAll(s, ts[..i + 1]) == ListedAll(s, ts[..i]) + Listed(s, ts[i])
  {
    assert ts[..i + 1][..i] == ts[..i];
  }

  lemma NothingBest<K>(cells: map<K, KeyState>, now: nat)
    ensures Best([], cells, now) == 0
  {
  }

  // ---------- what the hint means ----------

  lemma {:induction false} BestIsLeast<K>(ks: seq<K>, cells: map<K, KeyState>, now: nat)
    requires forall k | k in ks :: k in cells
    ensures Best(ks, cells, now) >= 0
    ensures Best(ks, cells, now) == 0 <==> forall k | k in ks && Alive(cells[k]) :: Wait(cells[k], now) <= 0
    ensures Best(ks, cells, now) > 0 ==> exists k :: k in ks && Alive(cells[k]) && Wait(cells[k], now) == Best(ks, cells, now)
    ensures forall k | k in ks && Alive(cells[k]) && Wait(cells[k], now) > 0 :: Best(ks, cells, now) <= Wait(cells[k], now)
  {
    hide Alive, Wait;
    if ks != [] {
      var init, k := ks[..|ks| - 1], ks[|ks| - 1];
      assert ks == init + [k];
      BestIsLeast(init, cells, now);
      if Best(ks, cells, now) > 0 {
        if Best(ks, cells, now) == Best(init, cells, now) {
          var j :| j in init && Alive(cells[j]) && Wait(cells[j], now) == Best(init, cells, now);
          assert j in ks;
        } else {
          assert k in ks;
        }
      }
    }
  }

  /** A living key waits exactly when it is not free. */
  lemma WaitsUnlessFree(c: KeyState, now: nat)
    requires Alive(c)
    ensures Wait(c, now) <= 0 <==> Free(c, now)
  {
    hide MinuteLeft;
  }

  /** No hint exactly when every listed key that is neither dead nor spent is free already. */
  lemma HintZero<K>(s: PoolState<K>, provs: seq<string>, now: nat)
    requires Sane(s)
    ensures forall k | k in ListedAll(s, provs) :: k in s.cells
    ensures Hint(s, provs, now) == 0 <==> forall k | k in ListedAll(s, provs) && Alive(s.cells[k]) :: Free(s.cells[k], now)
  {
    hide Alive, Wait, Free, Best, Sane;
    ListedAllSane(s, provs);
    BestIsLeast(ListedAll(s, provs), s.cells, now);
    forall k | k in ListedAll(s, provs) && Alive(s.cells[k]) ensures Wait(s.cells[k], now) <= 0 <==> Free(s.cells[k], now) {
      WaitsUnlessFree(s.cells[k], now);
    }
  }

  /** A pool rolled at t whose counters are not negative. */
  ghost predicate Fresh<K>(s: PoolState<K>, t: nat) {
    && Sane(s) && s.day == YearDay(t) && s.min == MinuteOf(t)
    && forall k | k in s.cells :: s.cells[k].reqs >= 0 && s.cells[k].mins >= 0
  }

  /** The key the hint comes from. */
  ghost predicate Attains<K>(s: PoolState<K>, provs: seq<string>, t: nat, k: K) {
    Sane(s) && k in ListedAll(s, provs) && k in s.cells && Alive(s.cells[k]) && Wait(s.cells[k], t) == Hint(s, provs, t) > 0
  }

  lemma MinuteEnds(t: nat, u: nat)
    requires t <= u
    ensures u - t >= MinuteLeft(t) ==> MinuteOf(u) > MinuteOf(t)
    ensures u - t <= MinuteLeft(t) - SECOND ==> MinuteOf(u) == MinuteOf(t)
  {
    var a := Unix(t);
    assert t == a * SECOND + t % SECOND;
    var e := a + (60 - a % 60);
    assert e == 60 * (a / 60 + 1);
    if u - t >= MinuteLeft(t) {
      assert u >= e * SECOND;
      assert Unix(u) >= e;
    }
    if u - t <= MinuteLeft(t) - SECOND {
      assert u < e * SECOND;
      assert Unix(u) < e && a <= Unix(u);
    }
  }

  /** After the hint, the key it came from is free exactly when its reservations leave room under
      its minute cap. */
  lemma CellRecovers(c: KeyState, t: nat, d: int, newDay: bool)
    requires Alive(c) && c.reqs >= 0 && c.mins >= 0 && Wait(c, t) == d > 0
    ensures Free(RolledCell(c, newDay, MinuteOf(t + d) != MinuteOf(t)), t + d) <==> c.prov.rpm <= 0 || c.live < c.prov.rpm
  {
    hide MinuteOf, MinuteLeft;
    MinuteEnds(t, t + d);
  }

  /** Before the hint less a second, a blocked living key stays blocked. */
  lemma CellWaits(c: KeyState, t: nat, u: nat, d: int, newDay: bool)
    requires Alive(c) && c.reqs >= 0 && c.mins >= 0 && Wait(c, t) >= d
    requires t <= u <= t + d - SECOND
    ensures !Free(RolledCell(c, newDay, MinuteOf(u) != MinuteOf(t)), u)
  {
    hide MinuteOf, MinuteLeft;
    MinuteEnds(t, u);
  }

  /** The retry hint is sound: if nothing else happens, the key it came from is free once the hint
      has passed, if and only if its reservations leave room under its minute cap. */
  lemma HintRecovers<K>(s: PoolState<K>, provs: seq<string>, t: nat, k: K)
    requires Fresh(s, t) && Attains(s, provs, t, k)
    ensures var u := t + Hint(s, provs, t);
            k in Rolled(s, u).cells
            && (Free(Rolled(s, u).cells[k], u) <==> s.cells[k].prov.rpm <= 0 || s.cells[k].live < s.cells[k].prov.rpm)
  {
    hide Sane, InPool, YearDay, MinuteOf, Wait, Alive, Free, RolledCell, Hint;
    ListedAllSane(s, provs);
    var u := t + Hint(s, provs, t);
    CellRecovers(s.cells[k], t, Hint(s, provs, t), YearDay(u) != s.day);
  }

  /** Some key attains every positive hint. */
  lemma HintAttained<K>(s: PoolState<K>, provs: seq<string>, t: nat)
    requires Sane(s) && Hint(s, provs, t) > 0
    ensures exists k :: Attains(s, provs, t, k)
  {
    hide Sane, Wait, Alive, Best;
    ListedAllSane(s, provs);
    BestIsLeast(ListedAll(s, provs), s.cells, t);
    var k :| k in ListedAll(s, provs) && Alive(s.cells[k]) && Wait(s.cells[k], t) == Best(ListedAll(s, provs), s.cells, t);
    assert Attains(s, provs, t, k);
  }

  /** The hint is not too long: up to a second before it, no listed key that was blocked becomes
      free, leaving aside dead and spent ones if the day changes. */
  lemma HintNotLate<K>(s: PoolState<K>, provs: seq<string>, t: nat, u: nat, k: K)
    requires Fresh(s, t) && Hint(s, provs, t) > 0 && t <= u <= t + Hint(s, provs, t) - SECOND
    requires k in ListedAll(s, provs) && k in s.cells && !Free(s.cells[k], t)
    requires Alive(s.cells[k]) || YearDay(u) == YearDay(t)
    ensures k in Rolled(s, u).cells && !Free(Rolled(s, u).cells[k], u)
  {
    hide Sane, InPool, YearDay, MinuteOf, Wait, Best;
    ListedAllSane(s, provs);
    BestIsLeast(ListedAll(s, provs), s.cells, t);
    if Alive(s.cells[k]) {
      WaitsUnlessFree(s.cells[k], t);
      CellWaits(s.cells[k], t, u, Hint(s, provs, t), YearDay(u) != s.day);
    }
  }

  /** A pool of one key at its minute cap with every request still in flight. */
  function Busy(): PoolState<nat> {
    PoolState(map["p" := [0]], map[], 1, 0,
              map[0 := FreshKey("k", "k", Provider(false, ["k"], 0, 1)).(live := 1)])
  }

  lemma BusyHint()
    ensures Sane(Busy()) && Hint(Busy(), ["p"], 0) == MINUTE
  {
    var s := Busy();
    ListedAllSane(s, ["p"]);
    assert ["p"][..0] == [] && ListedAll(s, []) == [];
    assert ListedAll(s, ["p"]) == [0];
    assert [0][..0] == [] && Best([], s.cells, 0) == 0;
    assert Wait(s.cells[0], 0) == MINUTE;
  }

  lemma DayOne()
    ensures YearDay(0) == YearDay(MINUTE) == 1 && MinuteOf(MINUTE) == 1
  {
    YearIs(0, 1970);
  }

  /** Without room under the minute cap the hint is too short: 60 seconds are promised and
      nothing is free then. */
  lemma HintTooShort()
    ensures Fresh(Busy(), 0) && Hint(Busy(), ["p"], 0) == MINUTE
    ensures forall k | k in Rolled(Busy(), MINUTE).cells :: !Free(Rolled(Busy(), MINUTE).cells[k], MINUTE)
  {
    hide Hint, YearDay, InPool;
    BusyHint();
    DayOne();
  }
}
