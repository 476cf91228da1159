// The bill: one row for each key, one for each provider, and the grand total.

module Report {
  import opened Wrappers
  import opened Ledger
  import opened Pool
  import opened World
  import Config
  import Retry
  import Sorting
  import Speed

  // The summed fields of a row.
  datatype Sums = Sums(reqs: int, errs: int, today: Spend, total: Spend, blind: int) {
    function Add(o: Sums): Sums {
      Sums(reqs + o.reqs, errs + o.errs, today.Add(o.today), total.Add(o.total), blind + o.blind)
    }
  }

  const NO_SUMS := Sums(0, 0, NO_SPEND, NO_SPEND, 0)

  datatype Row = Row(key: string, prov: string, sums: Sums, ttft: Option<int>)

  datatype Bill = Bill(keys: seq<Row>, provs: seq<Row>, all: Sums)

  const MILLI: nat := 1_000_000

  /** Whole milliseconds; none when there is no sample, which differs from a sample under one. */
  function Millis(d: int): Option<int> {
    if d <= 0 then None else Some(d / MILLI)
  }

  function SumsOf(c: KeyState): Sums {
    Sums(c.reqs, c.errs, c.toks, c.life, c.blind)
  }

  function KeyRow(c: KeyState, prov: string): Row {
    Row(c.id, prov, SumsOf(c), Millis(c.ttft))
  }

  // ---------- what the rows add up to ----------

  function SumRows(rows: seq<Row>): Sums {
    if rows == [] then NO_SUMS else SumRows(rows[..|rows| - 1]).Add(rows[|rows| - 1].sums)
  }

  /** The rows of one provider. */
  function Only(rows: seq<Row>, prov: string): seq<Row> {
    if rows == [] then []
    else Only(rows[..|rows| - 1], prov) + (if rows[|rows| - 1].prov == prov then [rows[|rows| - 1]] else [])
  }

  lemma SumSnoc(rows: seq<Row>, r: Row)
    ensures SumRows(rows + [r]) == SumRows(rows).Add(r.sums)
  {
    assert (rows + [r])[..|rows|] == rows;
  }

  lemma OnlySnoc(rows: seq<Row>, r: Row, prov: string)
    ensures Only(rows + [r], prov) == Only(rows, prov) + (if r.prov == prov then [r] else [])
    ensures SumRows(Only(rows + [r], prov)) == if r.prov == prov then SumRows(Only(rows, prov)).Add(r.sums) else SumRows(Only(rows, prov))
  {
    assert (rows + [r])[..|rows|] == rows;
    if r.prov == prov {
      SumSnoc(Only(rows, prov), r);
    } else {
      assert Only(rows, prov) + [] == Only(rows, prov);
    }
  }

  lemma {:induction false} OnlyNone(rows: seq<Row>, prov: string)
    requires forall r | r in rows :: r.prov != prov
    ensures Only(rows, prov) == []
  {
    if rows != [] {
      assert rows[|rows| - 1] in rows;
      OnlyNone(rows[..|rows| - 1], prov);
    }
  }

  function NamesOf(rows: seq<Row>): seq<string> {
    seq(|rows|, i requires 0 <= i < |rows| => rows[i].prov)
  }

  /** A provider row is the sum of its own keys' rows. */
  predicate Tallies(keys: seq<Row>, r: Row) {
    r.sums == SumRows(Only(keys, r.prov))
  }

  /** The books of a bill: the grand total is the sum of the key rows and of the provider rows,
      and each provider with a key has one row, the sum of its own keys' rows. */
  ghost predicate Balanced(b: Bill) {
    && b.all == SumRows(b.keys) == SumRows(b.provs)
    && (forall r | r in b.provs :: Tallies(b.keys, r))
    && Sorting.Distinct(NamesOf(b.provs))
    && (forall n :: n in NamesOf(b.keys) <==> n in NamesOf(b.provs))
  }

  function Last(rows: seq<Row>): Row
    requires rows != []
  {
    rows[|rows| - 1]
  }

  lemma AddSums(a: Sums, b: Sums, c: Sums)
    ensures a.Add(b).Add(c) == a.Add(b.Add(c)) && NO_SUMS.Add(a) == a && a.Add(NO_SUMS) == a
  {
  }

  lemma SumLast(rows: seq<Row>, s: Sums)
    requires rows != []
    ensures var last := Last(rows);
            SumRows(rows[|rows| - 1 := last.(sums := last.sums.Add(s))]) == SumRows(rows).Add(s)
  {
    var last := Last(rows);
    var init := rows[..|rows| - 1];
    assert rows[|rows| - 1 := last.(sums := last.sums.Add(s))] == init + [last.(sums := last.sums.Add(s))];
    SumSnoc(init, last.(sums := last.sums.Add(s)));
    AddSums(SumRows(init), last.sums, s);
  }

  lemma NamesSnoc(rows: seq<Row>, r: Row)
    ensures NamesOf(rows + [r]) == NamesOf(rows) + [r.prov]
  {
  }

  lemma NamesLast(rows: seq<Row>, s: Sums)
    requires rows != []
    ensures NamesOf(rows[|rows| - 1 := Last(rows).(sums := s)]) == NamesOf(rows)
  {
  }

  lemma NothingSums()
    ensures SumRows([]) == NO_SUMS
  {
  }

  /** Rows of other providers do not notice the key. */
  lemma OthersTally(keys: seq<Row>, r: Row, x: Row)
    requires Tallies(keys, x)
    ensures x.prov != r.prov ==> Tallies(keys + [r], x)
    ensures x.prov == r.prov ==> Tallies(keys + [r], x.(sums := x.sums.Add(r.sums)))
  {
    OnlySnoc(keys, r, x.prov);
  }

  /** The provider rows, with an empty row opened if need be. */
  function Opened(b: Bill, r: Row, open: Row): (provs: seq<Row>)
    ensures provs != []
  {
    if b.provs == [] || Last(b.provs).prov != r.prov then b.provs + [open] else b.provs
  }

  /** Each provider's keys come together: the last row is this provider's, or none is. */
  predicate Grouped(b: Bill, r: Row) {
    (b.provs != [] && Last(b.provs).prov == r.prov) || r.prov !in NamesOf(b.provs)
  }

  /** Provider rows that carry the same books, with a row for this provider at the end. */
  ghost predicate Ready(b: Bill, r: Row, provs: seq<Row>) {
    && provs != [] && Last(provs).prov == r.prov && SumRows(provs) == SumRows(b.keys)
    && (forall x | x in provs :: Tallies(b.keys, x))
    && Sorting.Distinct(NamesOf(provs))
    && (forall n :: n in NamesOf(provs) <==> n in NamesOf(b.keys) || n == r.prov)
  }

  lemma OpenRow(b: Bill, r: Row, open: Row)
    requires Balanced(b) && open.prov == r.prov && open.sums == NO_SUMS && r.prov !in NamesOf(b.provs)
    ensures Ready(b, r, b.provs + [open])
  {
    hide SumRows, Only, Tallies, NamesOf;
    SumSnoc(b.provs, open);
    AddSums(SumRows(b.provs), NO_SUMS, NO_SUMS);
    NamesSnoc(b.provs, open);
    EmptyTally(b.keys, open);
    DistinctSnoc(NamesOf(b.provs), r.prov);
  }

  lemma KeepRow(b: Bill, r: Row)
    requires Balanced(b) && b.provs != [] && Last(b.provs).prov == r.prov
    ensures Ready(b, r, b.provs)
  {
    hide SumRows, Only, Tallies, NamesOf;
    RowNamed(b.provs, Last(b.provs));
  }

  lemma OpenedBalanced(b: Bill, r: Row, open: Row)
    requires Balanced(b) && open.prov == r.prov && open.sums == NO_SUMS && Grouped(b, r)
    ensures Ready(b, r, Opened(b, r, open))
  {
    hide Balanced, Ready, NamesOf;
    if b.provs == [] || Last(b.provs).prov != r.prov {
      OpenRow(b, r, open);
    } else {
      KeepRow(b, r);
    }
  }

  lemma DistinctSnoc(xs: seq<string>, x: string)
    requires Sorting.Distinct(xs) && x !in xs
    ensures Sorting.Distinct(xs + [x])
    ensures forall y :: y in xs + [x] <==> y in xs || y == x
  {
  }

  lemma RowNamed(rows: seq<Row>, r: Row)
    requires r in rows
    ensures r.prov in NamesOf(rows)
  {
    var i :| 0 <= i < |rows| && rows[i] == r;
    assert NamesOf(rows)[i] == r.prov;
  }

  lemma EmptyTally(keys: seq<Row>, open: Row)
    requires open.prov !in NamesOf(keys) && open.sums == NO_SUMS
    ensures Tallies(keys, open)
  {
    hide SumRows, Only;
    forall r | r in keys ensures r.prov != open.prov {
      RowNamed(keys, r);
    }
    OnlyNone(keys, open.prov);
    NothingSums();
  }

  /** The bill with one more key. */
  function WithKey(b: Bill, r: Row, open: Row): Bill {
    var provs := Opened(b, r, open);
    var last := Last(provs);
    Bill(b.keys + [r], provs[|provs| - 1 := last.(sums := last.sums.Add(r.sums))], b.all.Add(r.sums))
  }

  /** In rows of distinct providers, only the last has its name. */
  lemma OnlyLast(rows: seq<Row>, i: nat)
    requires Sorting.Distinct(NamesOf(rows)) && i < |rows|
    ensures i < |rows| - 1 ==> rows[i].prov != Last(rows).prov
  {
    assert NamesOf(rows)[i] == rows[i].prov && NamesOf(rows)[|rows| - 1] == Last(rows).prov;
  }

  /** Adding a key keeps the books, as long as each provider's keys come together. */
  lemma WithKeyBalanced(b: Bill, r: Row, open: Row)
    requires Balanced(b) && open.prov == r.prov && open.sums == NO_SUMS && Grouped(b, r)
    ensures Balanced(WithKey(b, r, open))
  {
    hide SumRows, Only, Tallies, Opened, NamesOf;
    var provs := Opened(b, r, open);
    OpenedBalanced(b, r, open);
    SumSnoc(b.keys, r);
    SumLast(provs, r.sums);
    NamesLast(provs, Last(provs).sums.Add(r.sums));
    NamesSnoc(b.keys, r);
    var c := WithKey(b, r, open);
    forall x | x in c.provs ensures Tallies(c.keys, x) {
      var i :| 0 <= i < |c.provs| && c.provs[i] == x;
      OthersTally(b.keys, r, provs[i]);
      OnlyLast(provs, i);
    }
  }

  // ---------- the bill ----------

  /** The rows of one provider's keys. */
  function ListRows<K(==)>(ks: seq<K>, cells: map<K, KeyState>, prov: string): seq<Row>
    requires forall k | k in ks :: k in cells
  {
    if ks == [] then []
    else ListRows(ks[..|ks| - 1], cells, prov) + [KeyRow(cells[ks[|ks| - 1]], prov)]
  }

  /** The rows of the keys of these providers, in order. */
  ghost function KeyRows<K>(s: PoolState<K>, names: seq<string>): seq<Row>
    requires Sane(s)
  {
    if names == [] then []
    else
      var n := names[|names| - 1];
      SaneListed(s, n);
      KeyRows(s, names[..|names| - 1]) + ListRows(Listed(s, n), s.cells, n)
  }

  /** The providers among these that have keys, in order. */
  function Served<K(==)>(s: PoolState<K>, names: seq<string>): seq<string> {
    if names == [] then []
    else Served(s, names[..|names| - 1]) + (if Listed(s, names[|names| - 1]) == [] then [] else [names[|names| - 1]])
  }

  lemma {:induction false} ServedAmong<K>(s: PoolState<K>, names: seq<string>)
    ensures forall n | n in Served(s, names) :: n in names
  {
    if names != [] {
      ServedAmong(s, names[..|names| - 1]);
    }
  }

  function OpenRowOf(prov: string, speed: int): Row {
    Row("", prov, NO_SUMS, Millis(speed))
  }

  /** Every provider row is a provider's, with its speed. */
  ghost predicate Paced(p: Pool, rows: seq<Row>, now: nat)
    reads p, p.known
    requires p.Valid()
  {
    forall r | r in rows :: r.key == "" && r.ttft == Millis(Speed.SpeedOf(p.Abs(), r.prov, now))
  }

  /** What the visit of one key does. */
  method AddKey(p: Pool, b: Bill, prov: string, k: Key, now: nat) returns (c: Bill)
    requires p.Valid() && Balanced(b) && Paced(p, b.provs, now)
    requires (b.provs != [] && Last(b.provs).prov == prov) || prov !in NamesOf(b.provs)
    ensures Balanced(c) && Paced(p, c.provs, now) && c.keys == b.keys + [KeyRow(k.State(), prov)]
    ensures c.provs != [] && Last(c.provs).prov == prov
    ensures NamesOf(c.provs) == if b.provs != [] && Last(b.provs).prov == prov then NamesOf(b.provs) else NamesOf(b.provs) + [prov]
  {
    hide Sane, SumRows, Only, Speed.SpeedOf, NamesOf, Key.State, Balanced, Millis;
    c := b;
    if |c.provs| == 0 || c.provs[|c.provs| - 1].prov != prov {
      var speed := Speed.SpeedNow(p, prov, now);
      c := c.(provs := c.provs + [OpenRowOf(prov, speed)]);
    }
    ghost var open := OpenRowOf(prov, Speed.SpeedOf(p.Abs(), prov, now));
    ghost var rows := c.provs;
    assert rows == Opened(b, KeyRow(k.State(), prov), open);
    var r := RowOf(k, prov);
    var last := c.provs[|c.provs| - 1];
    c := Bill(c.keys + [r], c.provs[|c.provs| - 1 := last.(sums := last.sums.Add(r.sums))], c.all.Add(r.sums));
    WithKeyBalanced(b, r, open);
    OpenedBalanced(b, r, open);
    NamesSnoc(b.provs, open);
    NamesLast(rows, last.sums.Add(r.sums));
  }

  method RowOf(k: Key, prov: string) returns (r: Row)
    ensures r == KeyRow(k.State(), prov)
  {
    r := Row(k.id, prov, Sums(k.reqs, k.errs, k.toks, k.life, k.blind), Millis(k.ttft));
  }

  lemma ListRowsSnoc<K>(ks: seq<K>, k: K, cells: map<K, KeyState>, prov: string)
    requires forall j | j in ks + [k] :: j in cells
    ensures forall j | j in ks :: j in cells
    ensures ListRows(ks + [k], cells, prov) == ListRows(ks, cells, prov) + [KeyRow(cells[k], prov)]
  {
    assert forall j | j in ks :: j in ks + [k];
    assert (ks + [k])[..|ks|] == ks;
  }

  method AddProvider(p: Pool, b: Bill, prov: string, now: nat) returns (c: Bill)
    requires p.Valid() && prov in p.keys && Balanced(b) && Paced(p, b.provs, now) && prov !in NamesOf(b.provs)
    ensures Balanced(c) && Paced(p, c.provs, now)
    ensures (forall k | k in p.keys[prov] :: k in p.Abs().cells) && c.keys == b.keys + ListRows(p.keys[prov], p.Abs().cells, prov)
    ensures NamesOf(c.provs) == NamesOf(b.provs) + (if p.keys[prov] == [] then [] else [prov])
  {
    hide Sane, Balanced, NamesOf, Paced, ListRows, Key.State;
    SaneListed(p.Abs(), prov);
    NoRows(p.Abs().cells, prov);
    var ks := p.keys[prov];
    c := b;
    for i := 0 to |ks|
      invariant Balanced(c) && Paced(p, c.provs, now)
      invariant c.keys == b.keys + ListRows(ks[..i], p.Abs().cells, prov)
      invariant i > 0 ==> c.provs != [] && Last(c.provs).prov == prov
      invariant NamesOf(c.provs) == NamesOf(b.provs) + (if i == 0 then [] else [prov])
    {
      assert ks[..i + 1] == ks[..i] + [ks[i]];
      ListRowsSnoc(ks[..i], ks[i], p.Abs().cells, prov);
      assert ks[i] in p.Abs().cells && p.Abs().cells[ks[i]] == ks[i].State();
      if c.provs != [] {
        RowNamed(c.provs, Last(c.provs));
      }
      c := AddKey(p, c, prov, ks[i], now);
    }
    assert ks[..|ks|] == ks;
  }

  lemma NoRows<K>(cells: map<K, KeyState>, prov: string)
    ensures ListRows([], cells, prov) == []
  {
  }

  /** The bill of the whole pool: a row for each key, providers in sorted order, and books that
      balance. */
  method Usage(p: Pool, now: nat) returns (b: Bill)
    requires p.Valid()
    modifies p`day, p`min, p.known
    ensures p.Valid() && p.Abs() == Rolled(old(p.Abs()), now)
    ensures Balanced(b) && Paced(p, b.provs, now)
    ensures b.keys == KeyRows(p.Abs(), Sorting.Sorted(p.keys.Keys, Config.CharRank))
    ensures NamesOf(b.provs) == Served(p.Abs(), Sorting.Sorted(p.keys.Keys, Config.CharRank))
    ensures var ks := Retry.ListedAll(p.Abs(), Sorting.Sorted(p.keys.Keys, Config.CharRank));
            (forall k | k in ks :: k in p.Abs().cells) && AddsUp(b.all, ks, p.Abs().cells)
  {
    hide Rolled, AddsUp, Retry.ListedAll, KeyRows, SumRows;
    p.Roll(now);
    b := Rows(p, now);
    RowsAddUp(p.Abs(), Sorting.Sorted(p.keys.Keys, Config.CharRank));
  }

  method Rows(p: Pool, now: nat) returns (b: Bill)
    requires p.Valid()
    ensures Balanced(b) && Paced(p, b.provs, now)
    ensures b.keys == KeyRows(p.Abs(), Sorting.Sorted(p.keys.Keys, Config.CharRank))
    ensures NamesOf(b.provs) == Served(p.Abs(), Sorting.Sorted(p.keys.Keys, Config.CharRank))
  {
    hide Sane, Balanced, NamesOf, Paced, ListRows, Sorting.Sorted;
    b := Bill([], [], NO_SUMS);
    NothingBalanced();
    assert Paced(p, [], now) by { NothingPaced(p, now); }
    var names := Sorting.Sorted(p.keys.Keys, Config.CharRank);
    for i := 0 to |names|
      invariant Balanced(b) && Paced(p, b.provs, now)
      invariant b.keys == KeyRows(p.Abs(), names[..i])
      invariant NamesOf(b.provs) == Served(p.Abs(), names[..i])
    {
      assert names[..i + 1][..i] == names[..i];
      ServedAmong(p.Abs(), names[..i]);
      assert names[i] !in names[..i];
      assert names[i] in names;
      b := AddProvider(p, b, names[i], now);
    }
    assert names[..|names|] == names;
  }

  lemma NothingBalanced()
    ensures Balanced(Bill([], [], NO_SUMS)) && NamesOf([]) == []
  {
  }

  lemma NothingPaced(p: Pool, now: nat)
    requires p.Valid()
    ensures Paced(p, [], now)
  {
  }

  // ---------- what the bill adds up ----------

  /** The sum of f over these keys. */
  function Column<K(==)>(ks: seq<K>, cells: map<K, KeyState>, f: KeyState -> int): int
    requires forall k | k in ks :: k in cells
  {
    if ks == [] then 0 else Column(ks[..|ks| - 1], cells, f) + f(cells[ks[|ks| - 1]])
  }

  lemma {:induction false} ColumnJoins<K>(a: seq<K>, b: seq<K>, cells: map<K, KeyState>, f: KeyState -> int)
    requires (forall k | k in a :: k in cells) && forall k | k in b :: k in cells
    ensures forall k | k in a + b :: k in cells
    ensures Column(a + b, cells, f) == Column(a, cells, f) + Column(b, cells, f)
  {
    if b == [] {
      assert a + b == a;
    } else {
      assert (a + b)[..|a + b| - 1] == a + b[..|b| - 1];
      ColumnJoins(a, b[..|b| - 1], cells, f);
    }
  }

  /** Each column of the sums is the sum of one counter over these keys: requests, errors, today's and
      lifetime tokens, and replies that did not tell their cost. */
  ghost predicate AddsUp<K>(t: Sums, ks: seq<K>, cells: map<K, KeyState>)
    requires forall k | k in ks :: k in cells
  {
    && t.reqs == Column(ks, cells, (c: KeyState) => c.reqs) && t.errs == Column(ks, cells, (c: KeyState) => c.errs)
    && t.today.input == Column(ks, cells, (c: KeyState) => c.toks.input)
    && t.today.output == Column(ks, cells, (c: KeyState) => c.toks.output)
    && t.today.total == Column(ks, cells, (c: KeyState) => c.toks.total)
    && t.total.input == Column(ks, cells, (c: KeyState) => c.life.input)
    && t.total.output == Column(ks, cells, (c: KeyState) => c.life.output)
    && t.total.total == Column(ks, cells, (c: KeyState) => c.life.total)
    && t.blind == Column(ks, cells, (c: KeyState) => c.blind)
  }

  lemma {:induction false} SumsJoin(a: seq<Row>, b: seq<Row>)
    ensures SumRows(a + b) == SumRows(a).Add(SumRows(b))
  {
    if b == [] {
      assert a + b == a;
    } else {
      var init := b[..|b| - 1];
      assert (a + b)[..|a + b| - 1] == a + init;
      SumsJoin(a, init);
      AddSums(SumRows(a), SumRows(init), b[|b| - 1].sums);
    }
  }

  lemma {:induction false} ListAddsUp<K>(ks: seq<K>, cells: map<K, KeyState>, prov: string)
    requires forall k | k in ks :: k in cells
    ensures AddsUp(SumRows(ListRows(ks, cells, prov)), ks, cells)
  {
    if ks != [] {
      ListAddsUp(ks[..|ks| - 1], cells, prov);
      SumSnoc(ListRows(ks[..|ks| - 1], cells, prov), KeyRow(cells[ks[|ks| - 1]], prov));
    }
  }

  lemma AddsUpJoins<K>(t: Sums, u: Sums, a: seq<K>, b: seq<K>, cells: map<K, KeyState>)
    requires (forall k | k in a :: k in cells) && (forall k | k in b :: k in cells) && AddsUp(t, a, cells) && AddsUp(u, b, cells)
    ensures forall k | k in a + b :: k in cells
    ensures AddsUp(t.Add(u), a + b, cells)
  {
    hide Column;
    forall f: KeyState -> int ensures Column(a + b, cells, f) == Column(a, cells, f) + Column(b, cells, f) {
      ColumnJoins(a, b, cells, f);
    }
  }

  /** The grand total of the rows of these providers is, counter by counter, the sum over all their keys. */
  lemma {:induction false} RowsAddUp<K>(s: PoolState<K>, names: seq<string>)
    requires Sane(s)
    ensures forall k | k in Retry.ListedAll(s, names) :: k in s.cells
    ensures AddsUp(SumRows(KeyRows(s, names)), Retry.ListedAll(s, names), s.cells)
  {
    hide Sane, AddsUp, SumRows, ListRows;
    Retry.ListedAllSane(s, names);
    if names == [] {
      NothingAddsUp(s.cells);
    } else {
      var init, n := names[..|names| - 1], names[|names| - 1];
      SaneListed(s, n);
      RowsAddUp(s, init);
      ListAddsUp(Listed(s, n), s.cells, n);
      SumsJoin(KeyRows(s, init), ListRows(Listed(s, n), s.cells, n));
      AddsUpJoins(SumRows(KeyRows(s, init)), SumRows(ListRows(Listed(s, n), s.cells, n)),
                  Retry.ListedAll(s, init), Listed(s, n), s.cells);
    }
  }

  lemma NothingAddsUp<K>(cells: map<K, KeyState>)
    ensures AddsUp(SumRows([]), [], cells)
  {
  }

  /** The rows of a provider's keys: one for each, with its id and never its secret. */
  lemma {:induction false} ListRowsAt<K>(ks: seq<K>, cells: map<K, KeyState>, prov: string, i: nat)
    requires i < |ks| && forall k | k in ks :: k in cells
    ensures |ListRows(ks, cells, prov)| == |ks|
    ensures var r, c := ListRows(ks, cells, prov)[i], cells[ks[i]]; r.key == c.id && r.prov == prov && r.ttft == Millis(c.ttft)
    decreases |ks|
  {
    var init := ks[..|ks| - 1];
    if |ks| > 1 {
      ListRowsAt(init, cells, prov, if i < |init| then i else 0);
    }
  }

  /** Average times are told in whole milliseconds; none when there is no sample. */
  lemma MillisMeans(d: int)
    ensures Millis(d).None? <==> d <= 0
    ensures d > 0 ==> Millis(d).value * 1_000_000 <= d < Millis(d).value * 1_000_000 + 1_000_000
  {
  }
}
