// How fast keys and providers answer: the moving average, the order of targets by it, and the
// first-token budget.

module Speed {
  import opened Ledger
  import opened Numbers
  import opened Pool
  import opened World
  import opened History
  import opened Config

  // ---------- the moving average ----------

  /** Every positive sample of the log lies in [lo, hi], and so does every average a restart kept. */
  predicate SamplesWithin(log: Log, lo: int, hi: int) {
    && (forall i | 0 <= i < |log| && log[i].Success? && log[i].ttft > 0 :: lo <= log[i].ttft <= hi)
    && (forall i | 0 <= i < |log| && log[i].Resumed? && log[i].kept.ttft != 0 :: lo <= log[i].kept.ttft <= hi)
  }

  /** There is an average: a positive sample, or one kept over a restart. */
  predicate Sampled(log: Log) {
    log != [] &&
    if Last(log).Resumed? then Last(log).kept.ttft != 0
    else (Last(log).Success? && Last(log).ttft > 0) || Sampled(Init(log))
  }

  /** The average stays between the least and the greatest positive sample ever seen, and is 0
      exactly until the first. */
  lemma {:induction false} PaceBetween(log: Log, lo: int, hi: int)
    requires 0 < lo && SamplesWithin(log, lo, hi)
    ensures if Sampled(log) then lo <= Pace(log) <= hi else Pace(log) == 0
  {
    hide Measured;
    if log != [] {
      var init, e := Init(log), Last(log);
      assert log == init + [e];
      PaceBetween(init, lo, hi);
      assert log[|log| - 1] == e;
      if e.Success? {
        MeasuredBetween(Pace(init), e.ttft, lo, hi);
      }
    }
  }

  lemma MeasuredBetween(x: int, d: int, lo: int, hi: int)
    requires d > 0 ==> lo <= d <= hi
    requires 0 < lo && (x == 0 || lo <= x <= hi)
    ensures d <= 0 ==> Measured(x, d) == x
    ensures d > 0 ==> lo <= Measured(x, d) <= hi
  {
  }

  /** The average after n more samples of d. */
  function Steady(x: int, d: int, n: nat): int {
    if n == 0 then x else Measured(Steady(x, d, n - 1), d)
  }

  function Gap(x: int, d: int): nat {
    if x >= d then x - d else d - x
  }

  /** One sample of d brings the average strictly nearer d, until it is d, or short of d by at
      most 3, where it stays; it never crosses d, and never jumps past 3 short of it. */
  lemma MeasuredNearer(x: int, d: int)
    requires x > 0 && d > 0
    ensures var y := Measured(x, d);
            if x > d then d <= y < x
            else if x < d - 3 then x < y <= d - 3
            else y == x
  {
  }

  /** Where a constant sample d takes the average x. */
  function Resting(x: int, d: int): int {
    if x >= d then d else if x < d - 3 then d - 3 else x
  }

  /** Under a constant sample d the average reaches d exactly from above and settles 3 short of
      it from below, in at most as many samples as it is away from d, and stays there. */
  lemma {:induction false} SteadySettles(x: int, d: int, n: nat)
    requires x > 0 && d > 0
    ensures n >= Gap(x, d) ==> Steady(x, d, n) == Resting(x, d)
    ensures Steady(x, d, n) > 0 && Resting(Steady(x, d, n), d) == Resting(x, d)
    ensures Gap(Steady(x, d, n), d) + n <= Gap(x, d) || Steady(x, d, n) == Resting(x, d)
  {
    if n > 0 {
      SteadySettles(x, d, n - 1);
      MeasuredNearer(Steady(x, d, n - 1), d);
    }
  }

  // ---------- the budget ----------

  const SLACK: int := 3

  /** The budget left after tightening. */
  function Tightened(ttft: int, want: int, floor: int): int {
    if ttft == 0 then want
    else
      var bound := if SLACK * ttft > floor then SLACK * ttft else floor;
      if want < bound then want else bound
  }

  method Tighten(k: Key, want: int, floor: int) returns (r: int)
    ensures r == Tightened(k.State().ttft, want, floor)
  {
    if k.ttft == 0 {
      return want;
    }
    var bound := if SLACK * k.ttft > floor then SLACK * k.ttft else floor;
    return if want < bound then want else bound;
  }

  /** For every history a key can have, tightening never lengthens the budget and never takes it
      below its floor; it shortens it exactly when the floor and three times the average both
      fall short of it; and with every sample at least lo it leaves 3 lo, or all of it. */
  lemma TightensWithin(log: Log, want: int, floor: int, lo: int, hi: int)
    requires 0 < lo && SamplesWithin(log, lo, hi)
    ensures var r := Tightened(Pace(log), want, floor);
            && (if want < floor then want else floor) <= r <= want
            && (r < want <==> Sampled(log) && floor < want && 3 * Pace(log) < want)
            && (r < want ==> r == if 3 * Pace(log) > floor then 3 * Pace(log) else floor)
            && (r == want || r >= 3 * lo)
  {
    PaceBetween(log, lo, hi);
  }

  // ---------- the speed of a provider ----------

  /** The averages of the keys that have one and are free. */
  function Paces<K(==)>(ks: seq<K>, cells: map<K, KeyState>, now: nat): seq<int>
    requires forall k | k in ks :: k in cells
  {
    if ks == [] then []
    else
      var k := ks[|ks| - 1];
      Paces(ks[..|ks| - 1], cells, now) + (if cells[k].ttft > 0 && Free(cells[k], now) then [cells[k].ttft] else [])
  }

  function Sum(xs: seq<int>): int {
    if xs == [] then 0 else Sum(xs[..|xs| - 1]) + xs[|xs| - 1]
  }

  /** The mean over the keys that can serve, or 0. */
  ghost function SpeedOf<K>(s: PoolState<K>, prov: string, now: nat): int
    requires Sane(s)
  {
    SaneListed(s, prov);
    var ps := Paces(Listed(s, prov), s.cells, now);
    if ps == [] then 0 else Sum(ps) / |ps|
  }

  lemma OneMore(x: int, n: int)
    ensures x * (n + 1) == x * n + x
  {
  }

  lemma {:induction false} PacesBetween<K>(ks: seq<K>, cells: map<K, KeyState>, now: nat, lo: int, hi: int)
    requires forall k | k in ks :: k in cells
    requires 0 < lo && forall k | k in ks && cells[k].ttft > 0 && Free(cells[k], now) :: lo <= cells[k].ttft <= hi
    ensures var ps := Paces(ks, cells, now); lo * |ps| <= Sum(ps) <= hi * |ps|
    ensures Paces(ks, cells, now) == [] <==> !exists k :: k in ks && cells[k].ttft > 0 && Free(cells[k], now)
  {
    hide Free, Sum;
    NoPaces(cells, now);
    if ks != [] {
      var init, k := ks[..|ks| - 1], ks[|ks| - 1];
      assert ks == init + [k];
      PacesBetween(init, cells, now, lo, hi);
      var ps := Paces(init, cells, now);
      if cells[k].ttft > 0 && Free(cells[k], now) {
        assert k in ks;
        SumSnoc(ps, cells[k].ttft);
        OneMore(lo, |ps|);
        OneMore(hi, |ps|);
      } else {
        assert ps + [] == ps;
      }
    }
  }

  lemma MeanBetween(sum: int, n: nat, lo: int, hi: int)
    requires n > 0 && lo * n <= sum <= hi * n
    ensures lo <= sum / n <= hi
  {
    var q := sum / n;
    assert sum == n * q + sum % n;
    Multiple(lo - q, n);
    Multiple(q - hi, n);
    assert n * (lo - q) == lo * n - n * q && n * (q - hi) == n * q - hi * n;
  }

  /** A provider's speed lies between the averages of its measured keys that can serve, and is 0
      exactly when there are none. */
  lemma SpeedBetween<K>(s: PoolState<K>, prov: string, now: nat, lo: int, hi: int)
    requires Sane(s) && forall k | k in Listed(s, prov) :: k in s.cells
    requires 0 < lo
    requires forall k | k in Listed(s, prov) && s.cells[k].ttft > 0 && Free(s.cells[k], now) :: lo <= s.cells[k].ttft <= hi
    ensures if exists k :: k in Listed(s, prov) && s.cells[k].ttft > 0 && Free(s.cells[k], now)
            then lo <= SpeedOf(s, prov, now) <= hi else SpeedOf(s, prov, now) == 0
  {
    hide Sane, Free, Sum, Paces;
    PacesBetween(Listed(s, prov), s.cells, now, lo, hi);
    var ps := Paces(Listed(s, prov), s.cells, now);
    if ps != [] {
      MeanBetween(Sum(ps), |ps|, lo, hi);
    }
  }

  /** How many of these keys are measured and free, and the sum of their averages. */
  function Many<K(==)>(ks: seq<K>, cells: map<K, KeyState>, now: nat): nat
    requires forall k | k in ks :: k in cells
  {
    if ks == [] then 0 else (if cells[ks[0]].ttft > 0 && Free(cells[ks[0]], now) then 1 else 0) + Many(ks[1..], cells, now)
  }

  function Total<K(==)>(ks: seq<K>, cells: map<K, KeyState>, now: nat): int
    requires forall k | k in ks :: k in cells
  {
    if ks == [] then 0
    else (if cells[ks[0]].ttft > 0 && Free(cells[ks[0]], now) then cells[ks[0]].ttft else 0) + Total(ks[1..], cells, now)
  }

  lemma {:induction false} TotalSnoc<K>(ks: seq<K>, k: K, cells: map<K, KeyState>, now: nat)
    requires k in cells && forall j | j in ks :: j in cells
    ensures forall j | j in ks + [k] :: j in cells
    ensures var counts := cells[k].ttft > 0 && Free(cells[k], now);
            && Many(ks + [k], cells, now) == Many(ks, cells, now) + (if counts then 1 else 0)
            && Total(ks + [k], cells, now) == Total(ks, cells, now) + (if counts then cells[k].ttft else 0)
  {
    hide Free;
    if ks == [] {
      assert [] + [k] == [k] && [k][1..] == [];
    } else {
      assert (ks + [k])[1..] == ks[1..] + [k];
      TotalSnoc(ks[1..], k, cells, now);
    }
  }

  lemma {:induction false} PacesTotal<K>(ks: seq<K>, cells: map<K, KeyState>, now: nat)
    requires forall k | k in ks :: k in cells
    ensures |Paces(ks, cells, now)| == Many(ks, cells, now) && Sum(Paces(ks, cells, now)) == Total(ks, cells, now)
  {
    hide Free;
    if ks != [] {
      var init, k := ks[..|ks| - 1], ks[|ks| - 1];
      assert ks == init + [k];
      PacesTotal(init, cells, now);
      TotalSnoc(init, k, cells, now);
      PacesSnoc(init, k, cells, now);
      SumSnoc(Paces(init, cells, now), cells[k].ttft);
      assert Paces(init, cells, now) + [] == Paces(init, cells, now);
    }
  }

  /** A provider's speed is the mean of the averages of its measured keys that can serve, rounded down. */
  lemma SpeedIsMean<K>(s: PoolState<K>, prov: string, now: nat)
    requires Sane(s) && forall k | k in Listed(s, prov) :: k in s.cells
    ensures var n, v := Many(Listed(s, prov), s.cells, now), SpeedOf(s, prov, now);
            if n == 0 then v == 0 else n * v <= Total(Listed(s, prov), s.cells, now) < n * v + n
  {
    hide Sane, Paces, Sum, Many, Total;
    PacesTotal(Listed(s, prov), s.cells, now);
    var ps := Paces(Listed(s, prov), s.cells, now);
    if ps != [] {
      assert Sum(ps) == |ps| * (Sum(ps) / |ps|) + Sum(ps) % |ps|;
    }
  }

  lemma PacesSnoc<K>(ks: seq<K>, k: K, cells: map<K, KeyState>, now: nat)
    requires forall j | j in ks + [k] :: j in cells
    ensures forall j | j in ks :: j in cells
    ensures Paces(ks + [k], cells, now)
            == Paces(ks, cells, now) + (if cells[k].ttft > 0 && Free(cells[k], now) then [cells[k].ttft] else [])
  {
    assert forall j | j in ks :: j in ks + [k];
    assert (ks + [k])[..|ks + [k]| - 1] == ks;
  }

  lemma SumSnoc(xs: seq<int>, x: int)
    ensures Sum(xs + [x]) == Sum(xs) + x
  {
    assert (xs + [x])[..|xs|] == xs;
  }

  method SpeedNow(p: Pool, prov: string, now: nat) returns (r: int)
    requires p.Valid()
    ensures r == SpeedOf(p.Abs(), prov, now)
  {
    hide Sane, Paces, Sum, Free, Key.State;
    ghost var s := p.Abs();
    SaneListed(s, prov);
    var ks := if prov in p.keys then p.keys[prov] else [];
    var sum, n := 0, 0;
    NoPaces(s.cells, now);
    for i := 0 to |ks|
      invariant var ps := Paces(ks[..i], s.cells, now); n == |ps| && sum == Sum(ps)
    {
      assert ks[..i + 1] == ks[..i] + [ks[i]];
      PacesSnoc(ks[..i], ks[i], s.cells, now);
      SumSnoc(Paces(ks[..i], s.cells, now), ks[i].ttft);
      PaceOf(ks[i]);
      var free := ks[i].IsFree(now);
      if ks[i].ttft > 0 && free {
        sum, n := sum + ks[i].ttft, n + 1;
      } else {
        assert Paces(ks[..i], s.cells, now) + [] == Paces(ks[..i], s.cells, now);
      }
    }
    assert ks[..|ks|] == ks;
    r := if n == 0 then 0 else sum / n;
  }

  lemma PaceOf(k: Key)
    ensures k.State().ttft == k.ttft
  {
  }

  lemma NoPaces<K>(cells: map<K, KeyState>, now: nat)
    ensures Paces([], cells, now) == [] && Sum([]) == 0
  {
  }

  // ---------- tiers ----------

  const GRAIN: nat := 250_000_000

  /** The number of bits of n. */
  function Bits(n: nat): nat {
    if n == 0 then 0 else 1 + Bits(n / 2)
  }

  function Tier(d: int): nat {
    if d <= GRAIN then 0 else Bits(d / GRAIN)
  }

  lemma {:induction false} BitsBound(n: nat)
    requires n > 0
    ensures Bits(n) > 0 && Pow2(Bits(n) - 1) <= n < Pow2(Bits(n))
  {
    if n >= 2 {
      BitsBound(n / 2);
    } else {
      assert Bits(0) == 0;
    }
  }

  lemma {:induction false} BitsMonotone(m: nat, n: nat)
    requires m <= n
    ensures Bits(m) <= Bits(n)
  {
    if m > 0 {
      BitsMonotone(m / 2, n / 2);
    }
  }

  /** Tier n > 0 holds the times from 2^(n-1) grains to 2^n, the first excluding one grain
      itself; tier 0 those up to one grain. */
  lemma TierIs(d: int, n: nat)
    ensures n > 0 ==> (Tier(d) == n <==> d > 250_000_000 && Pow2(n - 1) * 250_000_000 <= d < Pow2(n) * 250_000_000)
    ensures Tier(d) == 0 <==> d <= 250_000_000
  {
    hide Bits, Pow2;
    if d > GRAIN && n > 0 {
      var q := d / GRAIN;
      var b := Bits(q);
      BitsBound(q);
      Grains(d, Pow2(n - 1));
      Grains(d, Pow2(n));
      if b < n {
        Pow2Grows(b, n - 1);
      } else if n < b {
        Pow2Grows(n, b - 1);
      }
    } else if d > GRAIN {
      BitsBound(d / GRAIN);
    }
  }

  lemma Grains(d: nat, n: nat)
    ensures n * GRAIN <= d <==> n <= d / GRAIN
  {
  }

  /** A slower time is in no lower tier, and one at least twice as slow and slower than a grain is
      in a higher one. */
  lemma TierMonotone(d: int, e: int)
    requires d >= e
    ensures Tier(d) >= Tier(e)
    ensures d >= 2 * e && d > 250_000_000 ==> Tier(d) > Tier(e)
  {
    if d > GRAIN {
      BitsBound(d / GRAIN);
      if e > GRAIN {
        BitsMonotone(e / GRAIN, d / GRAIN);
        if d >= 2 * e {
          assert d / GRAIN >= 2 * (e / GRAIN);
          BitsMonotone(2 * (e / GRAIN), d / GRAIN);
          assert Bits(2 * (e / GRAIN)) == 1 + Bits(e / GRAIN);
        }
      }
    }
  }

  // ---------- ordering targets ----------

  datatype Target = Target(prov: string, model: string, at: Settings)

  // A measured target: its place among the targets, and its provider's speed.
  datatype Ranked = Ranked(from: nat, t: Target, d: int)

  predicate Precedes(a: Ranked, b: Ranked) {
    Tier(a.d) < Tier(b.d) || (Tier(a.d) == Tier(b.d) && a.from < b.from)
  }

  /** In order of tier, ties in the order they came. */
  predicate Stable(rs: seq<Ranked>) {
    forall i, j | 0 <= i < j < |rs| :: Precedes(rs[i], rs[j])
  }

  function Insert(x: Ranked, rs: seq<Ranked>): seq<Ranked> {
    if rs == [] then [x]
    else if Tier(x.d) <= Tier(rs[0].d) then [x] + rs
    else [rs[0]] + Insert(x, rs[1..])
  }

  /** A stable sort by tier. */
  function Sort(rs: seq<Ranked>): seq<Ranked> {
    if rs == [] then [] else Insert(rs[0], Sort(rs[1..]))
  }

  lemma {:induction false} InsertStable(x: Ranked, rs: seq<Ranked>)
    requires Stable(rs) && forall y | y in rs :: x.from < y.from
    ensures Stable(Insert(x, rs)) && |Insert(x, rs)| == |rs| + 1
    ensures forall y :: y in Insert(x, rs) <==> y == x || y in rs
  {
    hide Tier;
    if rs != [] {
      var r := rs[1..];
      assert rs == [rs[0]] + r;
      if Tier(x.d) <= Tier(rs[0].d) {
        forall j | 0 <= j < |rs| ensures Precedes(x, rs[j]) {
          assert rs[j] in rs && (j == 0 || Precedes(rs[0], rs[j]));
        }
      } else {
        InsertStable(x, r);
        var s := Insert(x, r);
        forall j | 0 <= j < |s| ensures Precedes(rs[0], s[j]) {
          assert s[j] in s;
          if s[j] != x {
            var l :| 0 <= l < |r| && r[l] == s[j];
            assert rs[l + 1] == s[j];
          }
        }
      }
    }
  }

  /** The places of the measured targets, in order. */
  predicate Rising(rs: seq<Ranked>) {
    forall i, j | 0 <= i < j < |rs| :: rs[i].from < rs[j].from
  }

  /** The sort keeps the elements and leaves them in order of tier, ties as they were. */
  lemma {:induction false} SortStable(rs: seq<Ranked>)
    requires Rising(rs)
    ensures Stable(Sort(rs)) && |Sort(rs)| == |rs|
    ensures forall y :: y in Sort(rs) <==> y in rs
  {
    hide Tier, Precedes, Insert;
    if rs != [] {
      var r := rs[1..];
      assert rs == [rs[0]] + r;
      SortStable(r);
      forall y | y in Sort(r) ensures rs[0].from < y.from {
        var l :| 0 <= l < |r| && r[l] == y;
        assert rs[l + 1] == y;
      }
      InsertStable(rs[0], Sort(r));
    }
  }

  /** after is before with its places permuted by perm: those with no speed stay where they are,
      the others are in order of tier, ties in the order they had. */
  ghost predicate Arranged(before: seq<Target>, after: seq<Target>, d: seq<int>, perm: seq<nat>) {
    && |before| == |after| == |d| == |perm|
    && (forall i | 0 <= i < |perm| :: perm[i] < |before| && after[i] == before[perm[i]])
    && Sorting.Distinct(perm)
    && (forall i | 0 <= i < |perm| && d[i] <= 0 :: perm[i] == i)
    && (forall i, j | 0 <= i < j < |perm| && d[i] > 0 && d[j] > 0 ::
          Precedes(Ranked(perm[i], after[i], d[perm[i]]), Ranked(perm[j], after[j], d[perm[j]])))
  }

  /** A measured place holds a measured target. */
  lemma MeasuredPlace(before: seq<Target>, after: seq<Target>, d: seq<int>, perm: seq<nat>, i: nat)
    requires Arranged(before, after, d, perm) && i < |d|
    ensures d[i] > 0 <==> d[perm[i]] > 0
  {
    assert d[perm[i]] <= 0 ==> perm[perm[i]] == perm[i];
  }

  /** A measured target at least twice as slow as another, and slower than a grain, never stays
      ahead of it. */
  lemma SlowNotAhead(before: seq<Target>, after: seq<Target>, d: seq<int>, perm: seq<nat>, i: nat, j: nat)
    requires Arranged(before, after, d, perm) && i < |d| && j < |d| && d[i] > 0 && d[j] > 0
    requires d[perm[i]] > 250_000_000 && d[perm[i]] >= 2 * d[perm[j]]
    ensures j < i
  {
    hide Tier;
    MeasuredPlace(before, after, d, perm, i);
    MeasuredPlace(before, after, d, perm, j);
    TierMonotone(d[perm[i]], d[perm[j]]);
  }

  /** The first n places. */
  function Upto(n: nat): (r: set<nat>)
    ensures |r| == n && forall x: nat :: x in r <==> x < n
  {
    if n == 0 then {} else Upto(n - 1) + {n - 1}
  }

  function Content(xs: seq<nat>): (r: set<nat>)
    ensures forall x :: x in r <==> x in xs
  {
    if xs == [] then {} else Content(xs[..|xs| - 1]) + {xs[|xs| - 1]}
  }

  lemma {:induction false} Members(xs: seq<nat>)
    requires Sorting.Distinct(xs)
    ensures |Content(xs)| == |xs|
  {
    if xs != [] {
      Members(xs[..|xs| - 1]);
    }
  }

  lemma Subset(a: set<nat>, b: set<nat>)
    requires a <= b && |a| == |b|
    ensures a == b
  {
    assert b == a + (b - a);
  }

  /** Distinct places below n fill all of them. */
  lemma Fills(perm: seq<nat>, v: nat)
    requires Sorting.Distinct(perm) && (forall i | 0 <= i < |perm| :: perm[i] < |perm|) && v < |perm|
    ensures exists i :: 0 <= i < |perm| && perm[i] == v
  {
    Members(perm);
    Subset(Content(perm), Upto(|perm|));
    assert v in Content(perm);
  }

  /** perm without its last place, the place it takes filled by the last one. */
  function Filled(perm: seq<nat>): (r: seq<nat>)
    requires perm != []
    ensures |r| == |perm| - 1
  {
    var n := |perm| - 1;
    seq(n, i requires 0 <= i < n => if perm[i] == n then perm[n] else perm[i])
  }

  lemma FilledDistinct(perm: seq<nat>)
    requires perm != [] && Sorting.Distinct(perm) && forall i | 0 <= i < |perm| :: perm[i] < |perm|
    ensures Sorting.Distinct(Filled(perm)) && forall i | 0 <= i < |perm| - 1 :: Filled(perm)[i] < |perm| - 1
  {
    var n := |perm| - 1;
    forall i | 0 <= i < n ensures perm[i] != perm[n] {
    }
    forall i, j | 0 <= i < j < n ensures Filled(perm)[i] != Filled(perm)[j] {
      assert perm[i] != perm[j];
    }
  }

  /** Moving the last element to place v and cutting the last place off drops the element at v. */
  lemma Dropped<T>(s: seq<T>, v: nat)
    requires v < |s|
    ensures multiset(s) == multiset(s[v := s[|s| - 1]][..|s| - 1]) + multiset{s[v]}
  {
    var n := |s| - 1;
    var t := s[v := s[n]];
    assert t == t[..n] + [s[n]];
    assert s[v] in multiset(s);
    assert multiset(t) == multiset(s) - multiset{s[v]} + multiset{s[n]};
  }

  /** Reading a sequence through a permutation of its places permutes it. */
  lemma {:induction false} Permutes<T>(before: seq<T>, after: seq<T>, perm: seq<nat>)
    requires |before| == |after| == |perm| && Sorting.Distinct(perm)
    requires forall i | 0 <= i < |perm| :: perm[i] < |before| && after[i] == before[perm[i]]
    ensures multiset(after) == multiset(before)
    decreases |perm|
  {
    if perm != [] {
      var n := |perm| - 1;
      var less := before[perm[n] := before[n]][..n];
      FilledDistinct(perm);
      forall i | 0 <= i < n ensures after[..n][i] == less[Filled(perm)[i]] {
        assert perm[i] != perm[n];
      }
      Permutes(less, after[..n], Filled(perm));
      Dropped(before, perm[n]);
      assert after == after[..n] + [after[n]];
    }
  }

  /** An arrangement is a permutation of the targets. */
  lemma ArrangedPermutes(before: seq<Target>, after: seq<Target>, d: seq<int>, perm: seq<nat>)
    requires Arranged(before, after, d, perm)
    ensures multiset(after) == multiset(before)
  {
    hide Precedes;
    Permutes(before, after, perm);
  }

  /** The arrangement is unique. */
  lemma ArrangedOnce(before: seq<Target>, a: seq<Target>, b: seq<Target>, d: seq<int>, p: seq<nat>, q: seq<nat>)
    requires Arranged(before, a, d, p) && Arranged(before, b, d, q)
    ensures p == q && a == b
  {
    for n := 0 to |p|
      invariant forall i | 0 <= i < n :: p[i] == q[i]
    {
      if d[n] > 0 {
        NextSame(before, a, b, d, p, q, n);
      }
    }
  }

  /** Of two measured places, the earlier one's target comes first. */
  lemma PlacesPrecede(before: seq<Target>, a: seq<Target>, d: seq<int>, p: seq<nat>, i: nat, j: nat)
    requires Arranged(before, a, d, p) && i < j < |d| == |p| && d[i] > 0 && d[j] > 0
    ensures Earlier(d, p[i], p[j])
  {
  }

  predicate Earlier(d: seq<int>, x: nat, y: nat) {
    x < |d| && y < |d| && (Tier(d[x]) < Tier(d[y]) || (Tier(d[x]) == Tier(d[y]) && x < y))
  }

  lemma NotBoth(d: seq<int>, x: nat, y: nat)
    ensures !(Earlier(d, x, y) && Earlier(d, y, x))
  {
    hide Tier;
  }

  /** Where a measured target stands in an arrangement that agrees with q before n: at n or later. */
  lemma StandsLater(before: seq<Target>, a: seq<Target>, b: seq<Target>, d: seq<int>, p: seq<nat>, q: seq<nat>, n: nat) returns (i: nat)
    requires Arranged(before, a, d, p) && Arranged(before, b, d, q) && n < |d| == |p| == |q| && d[n] > 0
    requires forall i | 0 <= i < n :: p[i] == q[i]
    ensures n <= i < |d| == |p| == |q| && p[i] == q[n] && d[i] > 0
  {
    hide Precedes;
    Fills(p, q[n]);
    i :| 0 <= i < |p| && p[i] == q[n];
    MeasuredPlace(before, b, d, q, n);
    MeasuredPlace(before, a, d, p, i);
    assert forall l | 0 <= l < n :: q[l] != q[n];
  }

  lemma NextSame(before: seq<Target>, a: seq<Target>, b: seq<Target>, d: seq<int>, p: seq<nat>, q: seq<nat>, n: nat)
    requires Arranged(before, a, d, p) && Arranged(before, b, d, q) && n < |d| == |p| == |q| && d[n] > 0
    requires forall i | 0 <= i < n :: p[i] == q[i]
    ensures p[n] == q[n]
  {
    hide Arranged, Earlier;
    var i := StandsLater(before, a, b, d, p, q, n);
    var j := StandsLater(before, b, a, d, q, p, n);
    if i > n && j > n {
      PlacesPrecede(before, a, d, p, n, i);
      PlacesPrecede(before, b, d, q, n, j);
      NotBoth(d, p[n], q[n]);
    }
  }

  /** The measured targets, with their speeds and places. */
  method Rank(p: Pool, ts: array<Target>, now: nat) returns (at: seq<nat>, rs: seq<Ranked>, ghost d: seq<int>)
    requires p.Valid()
    ensures |d| == ts.Length && forall i | 0 <= i < |d| :: d[i] == SpeedOf(p.Abs(), ts[i].prov, now)
    ensures Measures(ts[..], d, at, rs)
  {
    hide Sane, SpeedOf, Measures;
    at, rs, d := [], [], [];
    MeasuresNone();
    for i := 0 to ts.Length
      invariant |d| == i && forall j | 0 <= j < i :: d[j] == SpeedOf(p.Abs(), ts[j].prov, now)
      invariant Measures(ts[..i], d, at, rs)
    {
      var s := SpeedNow(p, ts[i].prov, now);
      assert ts[..i + 1] == ts[..i] + [ts[i]];
      MeasuresSnoc(ts[..i], d, at, rs, ts[i], s);
      d := d + [s];
      if s > 0 {
        at, rs := at + [i], rs + [Ranked(i, ts[i], s)];
      }
    }
    assert ts[..ts.Length] == ts[..];
  }

  /** at are the places of the targets with a speed, in order, and rs those targets. */
  ghost predicate Measures(ts: seq<Target>, d: seq<int>, at: seq<nat>, rs: seq<Ranked>) {
    && |d| == |ts| && |at| == |rs| && Rising(rs)
    && (forall j | 0 <= j < |at| :: at[j] < |ts| && d[at[j]] > 0 && rs[j] == Ranked(at[j], ts[at[j]], d[at[j]]))
    && (forall i | 0 <= i < |d| && d[i] > 0 :: i in at)
  }

  lemma MeasuresNone()
    ensures Measures([], [], [], [])
  {
  }

  lemma MeasuresSnoc(ts: seq<Target>, d: seq<int>, at: seq<nat>, rs: seq<Ranked>, t: Target, s: int)
    requires Measures(ts, d, at, rs)
    ensures if s > 0 then Measures(ts + [t], d + [s], at + [|ts|], rs + [Ranked(|ts|, t, s)])
            else Measures(ts + [t], d + [s], at, rs)
  {
    if s > 0 {
      var at', rs' := at + [|ts|], rs + [Ranked(|ts|, t, s)];
      assert Rising(rs') by {
        assert forall j | 0 <= j < |rs| :: rs'[j] == rs[j] && rs[j].from == at[j] < |ts|;
      }
      assert at'[|at|] == |ts|;
      assert forall i | 0 <= i < |d| && d[i] > 0 :: i in at && i in at';
    }
  }

  /** The sorted targets come from measured places. */
  lemma SortedFrom(ts: seq<Target>, d: seq<int>, at: seq<nat>, rs: seq<Ranked>, j: nat)
    requires Measures(ts, d, at, rs) && |Sort(rs)| == |rs| && j < |rs|
    ensures var x := Sort(rs)[j]; x.from in at && x.from < |ts| && x == Ranked(x.from, ts[x.from], d[x.from]) && d[x.from] > 0
  {
    hide Sort;
    SortStable(rs);
    var x := Sort(rs)[j];
    assert x in Sort(rs);
    var l :| 0 <= l < |rs| && rs[l] == x;
    assert at[l] in at;
  }

  /** The sorted order of two measured places. */
  lemma SortedPlaces(ts: seq<Target>, d: seq<int>, at: seq<nat>, rs: seq<Ranked>, i: nat, j: nat)
    requires Measures(ts, d, at, rs) && |Sort(rs)| == |rs| && i < j < |d| && d[i] > 0 && d[j] > 0
    ensures exists a, b :: 0 <= a < b < |at| && at[a] == i && at[b] == j && Precedes(Sort(rs)[a], Sort(rs)[b])
  {
    hide Sort, Tier, Precedes;
    SortStable(rs);
    var a :| 0 <= a < |at| && at[a] == i;
    var b :| 0 <= b < |at| && at[b] == j;
    assert rs[a].from == i && rs[b].from == j;
    assert a < b;
    assert Precedes(Sort(rs)[a], Sort(rs)[b]);
  }

  /** The targets were written back in their sorted order, and perm tells where each came from. */
  ghost predicate Written(before: seq<Target>, after: seq<Target>, d: seq<int>, at: seq<nat>, rs: seq<Ranked>, perm: seq<nat>)
    requires |Sort(rs)| == |rs|
  {
    && Measures(before, d, at, rs) && |after| == |perm| == |d|
    && (forall j | 0 <= j < |at| :: after[at[j]] == Sort(rs)[j].t && perm[at[j]] == Sort(rs)[j].from)
    && (forall i | 0 <= i < |d| && i !in at :: after[i] == before[i] && perm[i] == i)
  }

  lemma PlaceWritten(before: seq<Target>, after: seq<Target>, d: seq<int>, at: seq<nat>, rs: seq<Ranked>, perm: seq<nat>, i: nat)
    requires |Sort(rs)| == |rs| && Written(before, after, d, at, rs, perm) && i < |d|
    ensures perm[i] < |d| && after[i] == before[perm[i]] && (d[i] > 0 <==> d[perm[i]] > 0)
    ensures d[i] <= 0 ==> perm[i] == i
  {
    hide Sort;
    if i in at {
      var a :| 0 <= a < |at| && at[a] == i;
      SortedFrom(before, d, at, rs, a);
    }
  }

  lemma PlacesWritten(before: seq<Target>, after: seq<Target>, d: seq<int>, at: seq<nat>, rs: seq<Ranked>, perm: seq<nat>,
                      i: nat, j: nat)
    requires |Sort(rs)| == |rs| && Written(before, after, d, at, rs, perm) && i < j < |d| && d[i] > 0 && d[j] > 0
    ensures perm[i] < |d| && perm[j] < |d| && perm[i] != perm[j]
    ensures Precedes(Ranked(perm[i], after[i], d[perm[i]]), Ranked(perm[j], after[j], d[perm[j]]))
  {
    hide Sort, Tier;
    SortedPlaces(before, d, at, rs, i, j);
    var a, b :| 0 <= a < b < |at| && at[a] == i && at[b] == j && Precedes(Sort(rs)[a], Sort(rs)[b]);
    SortedFrom(before, d, at, rs, a);
    SortedFrom(before, d, at, rs, b);
  }

  /** Writing the sorted targets into the measured places, in order, arranges them. */
  lemma Arranges(before: seq<Target>, after: seq<Target>, d: seq<int>, at: seq<nat>, rs: seq<Ranked>, perm: seq<nat>)
    requires |Sort(rs)| == |rs| && Written(before, after, d, at, rs, perm)
    ensures Arranged(before, after, d, perm)
  {
    hide Sort, Precedes, Measures;
    WrittenShape(before, after, d, at, rs, perm);
    hide Written;
    forall i | 0 <= i < |d|
      ensures perm[i] < |d| && after[i] == before[perm[i]] && (d[i] > 0 <==> d[perm[i]] > 0) && (d[i] <= 0 ==> perm[i] == i)
    {
      PlaceWritten(before, after, d, at, rs, perm, i);
    }
    forall i, j | 0 <= i < j < |d| && d[i] > 0 && d[j] > 0
      ensures Precedes(Ranked(perm[i], after[i], d[perm[i]]), Ranked(perm[j], after[j], d[perm[j]])) && perm[i] != perm[j]
    {
      PlacesWritten(before, after, d, at, rs, perm, i, j);
    }
  }

  lemma WrittenShape(before: seq<Target>, after: seq<Target>, d: seq<int>, at: seq<nat>, rs: seq<Ranked>, perm: seq<nat>)
    requires |Sort(rs)| == |rs| && Written(before, after, d, at, rs, perm)
    ensures |before| == |after| == |perm| == |d|
  {
  }

  method Place(ts: array<Target>, ghost d: seq<int>, at: seq<nat>, rs: seq<Ranked>) returns (ghost perm: seq<nat>)
    requires Measures(ts[..], d, at, rs)
    modifies ts
    ensures Arranged(old(ts[..]), ts[..], d, perm)
  {
    hide Sort;
    SortStable(rs);
    var s := Sort(rs);
    perm := seq(ts.Length, i => i);
    for j := 0 to |s|
      invariant |perm| == ts.Length
      invariant forall l | 0 <= l < j :: ts[at[l]] == s[l].t && perm[at[l]] == s[l].from
      invariant forall i | 0 <= i < ts.Length && i !in at :: ts[i] == old(ts[i]) && perm[i] == i
    {
      assert forall l | 0 <= l < j :: rs[l].from == at[l] && at[l] != rs[j].from;
      ts[at[j]] := s[j].t;
      perm := perm[at[j] := s[j].from];
    }
    Arranges(old(ts[..]), ts[..], d, at, rs, perm);
  }

  lemma FewSorted(rs: seq<Ranked>)
    requires |rs| < 2
    ensures Sort(rs) == rs
  {
  }

  /** Put the targets with a known speed in order of tier, in place. */
  method Order(p: Pool, ts: array<Target>, now: nat) returns (ghost d: seq<int>, ghost perm: seq<nat>)
    requires p.Valid()
    modifies ts, p`day, p`min, p.known
    ensures p.Valid()
    ensures ts.Length < 2 ==> p.Abs() == old(p.Abs()) && ts[..] == old(ts[..])
    ensures ts.Length >= 2 ==>
              && p.Abs() == Rolled(old(p.Abs()), now)
              && |d| == ts.Length && (forall i | 0 <= i < |d| :: d[i] == SpeedOf(p.Abs(), old(ts[i]).prov, now))
              && Arranged(old(ts[..]), ts[..], d, perm)
  {
    hide Sane, SpeedOf, Rolled, Arranged, Sort;
    d, perm := [], [];
    if ts.Length < 2 {
      return;
    }
    p.Roll(now);
    var at, rs;
    at, rs, d := Rank(p, ts, now);
    if |rs| < 2 {
      FewSorted(rs);
      perm := seq(ts.Length, i => i);
      Arranges(ts[..], ts[..], d, at, rs, perm);
      return;
    }
    perm := Place(ts, d, at, rs);
  }
}
