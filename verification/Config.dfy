// Checking a configuration, and the key slots it gives the pool.

module Config {
  import opened Wrappers
  import opened Ledger
  import opened Octets
  import opened World
  import Sorting

  // Whether the listen address is host:port, and whether it binds every interface.
  datatype Listen = NotHostPort | Wildcard | Bound

  // One provider's settings; reachable tells whether its url is an http(s) address.
  datatype Settings = Settings(prov: Provider, url: string, reachable: bool, ttft: int)

  datatype Config = Config(
    token: string, tokens: map<string, string>, listen: Listen, state: string, default: string,
    fallback: seq<string>, providers: map<string, Settings>, aliases: map<string, seq<string>>)

  datatype Problem =
    | NoToken | EmptyToken(name: string) | BadListen | OpenListen | NoState | NoProviders
    | NoUrl(name: string) | BadUrl(name: string) | KeylessWithKeys(name: string)
    | EmptyKey(name: string, i: nat) | SharedKey(name: string, i: nat, was: string)
    | NegativeRpd(name: string) | NegativeRpm(name: string) | NegativeTtft(name: string)
    | NoKeyAnywhere | EmptyAlias(name: string) | BadEntry(name: string, entry: string)
    | UnknownProvider(name: string, prov: string) | NoDefault | UnknownDefault | UnknownFallback(name: string)

  function CharRank(c: char): int {
    c as int
  }

  predicate Blank(s: string) {
    forall i | 0 <= i < |s| :: SpaceCode(s[i] as int)
  }

  /** The part before the first slash and the part after it, if there is a slash. */
  function Cut(s: string): Option<(string, string)> {
    if s == "" then None
    else if s[0] == '/' then Some(("", s[1..]))
    else
      match Cut(s[1..])
      case None => None
      case Some((a, b)) => Some(([s[0]] + a, b))
  }

  // ---------- what an accepted configuration is ----------

  /** Secrets that are not blank, not in seen, and not repeated. */
  predicate KeysOk(keys: seq<string>, seen: set<string>) {
    && (forall i | 0 <= i < |keys| :: !Blank(keys[i]) && keys[i] !in seen)
    && (forall i, j | 0 <= i < j < |keys| :: keys[i] != keys[j])
  }

  predicate SettingsOk(s: Settings, seen: set<string>) {
    && s.url != "" && s.reachable && !(s.prov.keyless && s.prov.keys != [])
    && KeysOk(s.prov.keys, seen) && s.prov.rpd >= 0 && s.prov.rpm >= 0 && s.ttft >= 0
  }

  predicate EntryOk(e: string, providers: set<string>) {
    Cut(e).Some? && Cut(e).value.0 != "" && Cut(e).value.1 != "" && Cut(e).value.0 in providers
  }

  predicate Armed(s: Settings) {
    s.prov.keys != [] || s.prov.keyless
  }

  /** No secret in two slots, within a provider or across providers. */
  ghost predicate SecretsDistinct(providers: map<string, Settings>) {
    forall n, i, m, j | n in providers && m in providers
                        && 0 <= i < |providers[n].prov.keys| && 0 <= j < |providers[m].prov.keys|
                        && providers[n].prov.keys[i] == providers[m].prov.keys[j] :: n == m && i == j
  }

  ghost predicate ProvidersOk(providers: map<string, Settings>) {
    SecretsDistinct(providers) && forall n | n in providers :: SettingsOk(providers[n], {})
  }

  ghost predicate Accepted(c: Config) {
    && (c.token != "" || c.tokens != map[]) && (forall n | n in c.tokens :: c.tokens[n] != "")
    && c.listen.Bound? && c.state != "" && c.providers != map[]
    && ProvidersOk(c.providers) && (exists n :: n in c.providers && Armed(c.providers[n]))
    && (forall a | a in c.aliases :: c.aliases[a] != [] && forall e | e in c.aliases[a] :: EntryOk(e, c.providers.Keys))
    && c.default in c.providers && c.default != ""
    && (forall f | f in c.fallback :: f in c.aliases)
  }

  // ---------- the check ----------

  /** Check one list of secrets against those seen; twice remembers who has each. */
  method CheckKeys(n: string, keys: seq<string>, twice: map<string, string>) returns (errs: seq<Problem>, twice': map<string, string>)
    ensures errs == [] <==> KeysOk(keys, twice.Keys)
    ensures errs == [] ==> twice'.Keys == twice.Keys + set k | k in keys
  {
    errs, twice' := [], twice;
    for i := 0 to |keys|
      invariant errs == [] <==> KeysOk(keys[..i], twice.Keys)
      invariant errs == [] ==> twice'.Keys == twice.Keys + set k | k in keys[..i]
    {
      var k := keys[i];
      assert keys[..i + 1] == keys[..i] + [k];
      if Blank(k) {
        errs := errs + [EmptyKey(n, i)];
        assert keys[..i + 1][i] == k;
      } else if k in twice' {
        if errs == [] && k !in twice {
          assert k in keys[..i];
        }
        assert keys[..i + 1][i] == k;
        errs := errs + [SharedKey(n, i, twice'[k])];
      } else {
        twice' := twice'[k := n];
      }
    }
    assert keys[..|keys|] == keys;
  }

  /** Check one provider. */
  method CheckProvider(n: string, s: Settings, twice: map<string, string>) returns (errs: seq<Problem>, twice': map<string, string>)
    ensures errs == [] <==> SettingsOk(s, twice.Keys)
    ensures errs == [] ==> twice'.Keys == twice.Keys + set k | k in s.prov.keys
  {
    hide KeysOk;
    errs := [];
    if s.url == "" {
      errs := errs + [NoUrl(n)];
    } else if !s.reachable {
      errs := errs + [BadUrl(n)];
    }
    if s.prov.keyless && |s.prov.keys| > 0 {
      errs := errs + [KeylessWithKeys(n)];
    }
    var es;
    es, twice' := CheckKeys(n, s.prov.keys, twice);
    errs := errs + es;
    if s.prov.rpd < 0 {
      errs := errs + [NegativeRpd(n)];
    }
    if s.prov.rpm < 0 {
      errs := errs + [NegativeRpm(n)];
    }
    if s.ttft < 0 {
      errs := errs + [NegativeTtft(n)];
    }
  }

  /** The secrets of the providers named. */
  function Secrets(providers: map<string, Settings>, names: seq<string>): set<string> {
    set n, k | n in names && n in providers && k in providers[n].prov.keys :: k
  }

  ghost predicate NamedOk(providers: map<string, Settings>, names: seq<string>)
    requires forall n | n in names :: n in providers
  {
    forall i | 0 <= i < |names| :: SettingsOk(providers[names[i]], Secrets(providers, names[..i]))
  }

  lemma NamedSnoc(providers: map<string, Settings>, names: seq<string>, n: string)
    requires forall m | m in names + [n] :: m in providers
    ensures NamedOk(providers, names + [n]) <==> NamedOk(providers, names) && SettingsOk(providers[n], Secrets(providers, names))
    ensures Secrets(providers, names + [n]) == Secrets(providers, names) + set k | k in providers[n].prov.keys
  {
    hide SettingsOk;
    var all := names + [n];
    assert all[|names|] == n && all[..|names|] == names;
    assert forall j | 0 <= j < |names| :: all[j] == names[j] && all[..j] == names[..j];
    assert forall m :: m in all <==> m in names || m == n;
  }

  method CheckProviders(providers: map<string, Settings>) returns (errs: seq<Problem>, armed: nat)
    ensures errs == [] <==> ProvidersOk(providers)
    ensures armed > 0 <==> exists n :: n in providers && Armed(providers[n])
  {
    hide SettingsOk, NamedOk, Secrets, ProvidersOk;
    errs, armed := [], 0;
    var twice: map<string, string> := map[];
    var names := Sorting.Sorted(providers.Keys, CharRank);
    NamedNone(providers);
    for i := 0 to |names|
      invariant errs == [] <==> NamedOk(providers, names[..i])
      invariant errs == [] ==> twice.Keys == Secrets(providers, names[..i])
      invariant armed > 0 <==> exists j :: 0 <= j < i && Armed(providers[names[j]])
    {
      var n := names[i];
      assert names[..i + 1] == names[..i] + [n];
      NamedSnoc(providers, names[..i], n);
      var es, t := CheckProvider(n, providers[n], twice);
      errs, twice := errs + es, t;
      if |providers[n].prov.keys| > 0 || providers[n].prov.keyless {
        armed := armed + 1;
      }
    }
    assert names[..|names|] == names;
    NamedIsAll(providers, names);
    assert forall n | n in providers :: n in names;
  }

  lemma NamedNone(providers: map<string, Settings>)
    ensures NamedOk(providers, []) && Secrets(providers, []) == {}
  {
  }

  /** A secret among those seen has a place. */
  lemma SecretOwner(providers: map<string, Settings>, names: seq<string>, k: string)
    requires k in Secrets(providers, names)
    ensures exists b, j :: 0 <= b < |names| && names[b] in providers && 0 <= j < |providers[names[b]].prov.keys|
                           && providers[names[b]].prov.keys[j] == k
  {
    var n :| n in names && n in providers && k in providers[n].prov.keys;
    var b :| 0 <= b < |names| && names[b] == n;
    var j :| 0 <= j < |providers[n].prov.keys| && providers[n].prov.keys[j] == k;
    assert names[b] in providers && providers[names[b]].prov.keys[j] == k;
  }

  lemma EarlierSecret(providers: map<string, Settings>, names: seq<string>, a: nat, b: nat, i: nat)
    requires forall n | n in names :: n in providers
    requires a < b <= |names| && i < |providers[names[a]].prov.keys|
    ensures providers[names[a]].prov.keys[i] in Secrets(providers, names[..b])
  {
    assert names[..b][a] == names[a];
    assert names[a] in names[..b] && providers[names[a]].prov.keys[i] in providers[names[a]].prov.keys;
  }

  /** Checking in order against the secrets seen so far finds every repetition. */
  lemma NamedDistinct(providers: map<string, Settings>, names: seq<string>)
    requires (forall n :: n in names <==> n in providers) && NamedOk(providers, names)
    ensures SecretsDistinct(providers)
  {
    hide Blank, Secrets;
    forall n, i, m, j | n in providers && m in providers
                        && 0 <= i < |providers[n].prov.keys| && 0 <= j < |providers[m].prov.keys|
                        && providers[n].prov.keys[i] == providers[m].prov.keys[j]
      ensures n == m && i == j
    {
      var a :| 0 <= a < |names| && names[a] == n;
      var b :| 0 <= b < |names| && names[b] == m;
      assert SettingsOk(providers[names[a]], Secrets(providers, names[..a]));
      assert SettingsOk(providers[names[b]], Secrets(providers, names[..b]));
      if a < b {
        EarlierSecret(providers, names, a, b, i);
      } else if b < a {
        EarlierSecret(providers, names, b, a, j);
      }
    }
  }

  lemma NamedIsAll(providers: map<string, Settings>, names: seq<string>)
    requires forall n :: n in names <==> n in providers
    requires Sorting.Distinct(names)
    ensures NamedOk(providers, names) <==> ProvidersOk(providers)
  {
    hide Blank, Secrets, SecretsDistinct;
    if NamedOk(providers, names) {
      NamedDistinct(providers, names);
      forall n | n in providers ensures SettingsOk(providers[n], {}) {
        var a :| 0 <= a < |names| && names[a] == n;
        assert SettingsOk(providers[names[a]], Secrets(providers, names[..a]));
      }
    }
    if ProvidersOk(providers) {
      forall a | 0 <= a < |names| ensures SettingsOk(providers[names[a]], Secrets(providers, names[..a])) {
        assert SettingsOk(providers[names[a]], {});
        forall i | 0 <= i < |providers[names[a]].prov.keys|
          ensures providers[names[a]].prov.keys[i] !in Secrets(providers, names[..a])
        {
          NotSeen(providers, names, a, i);
        }
      }
    }
  }

  lemma NotSeen(providers: map<string, Settings>, names: seq<string>, a: nat, i: nat)
    requires forall n :: n in names <==> n in providers
    requires Sorting.Distinct(names) && SecretsDistinct(providers)
    requires a < |names| && i < |providers[names[a]].prov.keys|
    ensures providers[names[a]].prov.keys[i] !in Secrets(providers, names[..a])
  {
    hide Secrets;
    var k := providers[names[a]].prov.keys[i];
    if k in Secrets(providers, names[..a]) {
      SecretOwner(providers, names[..a], k);
      assert false;
    }
  }

  method CheckAliases(c: Config) returns (errs: seq<Problem>)
    ensures errs == [] <==> forall a | a in c.aliases :: c.aliases[a] != [] && forall e | e in c.aliases[a] :: EntryOk(e, c.providers.Keys)
  {
    hide Cut;
    errs := [];
    var names := Sorting.Sorted(c.aliases.Keys, CharRank);
    for i := 0 to |names|
      invariant errs == [] <==> forall j | 0 <= j < i :: c.aliases[names[j]] != [] && forall e | e in c.aliases[names[j]] :: EntryOk(e, c.providers.Keys)
    {
      var es := CheckAlias(names[i], c.aliases[names[i]], c.providers.Keys);
      errs := errs + es;
    }
    forall a | a in c.aliases ensures exists j :: 0 <= j < |names| && names[j] == a {
      assert a in names;
    }
  }

  method CheckAlias(a: string, entries: seq<string>, providers: set<string>) returns (errs: seq<Problem>)
    ensures errs == [] <==> entries != [] && forall e | e in entries :: EntryOk(e, providers)
  {
    hide Cut;
    errs := if |entries| == 0 then [EmptyAlias(a)] else [];
    for i := 0 to |entries|
      invariant errs == [] <==> entries != [] && forall j | 0 <= j < i :: EntryOk(entries[j], providers)
    {
      var cut := Cut(entries[i]);
      if cut.None? || cut.value.1 == "" || cut.value.0 == "" {
        errs := errs + [BadEntry(a, entries[i])];
      } else if cut.value.0 !in providers {
        errs := errs + [UnknownProvider(a, cut.value.0)];
      }
    }
  }

  /** The whole check. It reports nothing exactly for the accepted configurations. */
  method Check(c: Config) returns (errs: seq<Problem>)
    ensures errs == [] <==> Accepted(c)
  {
    hide ProvidersOk, EntryOk, Armed;
    errs := [];
    if c.token == "" && |c.tokens| == 0 {
      errs := errs + [NoToken];
    }
    var names := c.tokens.Keys;
    while names != {}
      invariant names <= c.tokens.Keys
      invariant errs == [] <==> (c.token != "" || c.tokens != map[]) && forall n | n in c.tokens && n !in names :: c.tokens[n] != ""
    {
      var n :| n in names;
      if c.tokens[n] == "" {
        errs := errs + [EmptyToken(n)];
      }
      names := names - {n};
    }
    match c.listen {
      case NotHostPort => errs := errs + [BadListen];
      case Wildcard => errs := errs + [OpenListen];
      case Bound =>
    }
    if c.state == "" {
      errs := errs + [NoState];
    }
    if |c.providers| == 0 {
      errs := errs + [NoProviders];
    }
    var es, armed := CheckProviders(c.providers);
    errs := errs + es;
    if |c.providers| > 0 && armed == 0 {
      errs := errs + [NoKeyAnywhere];
    }
    es := CheckAliases(c);
    errs := errs + es;
    if c.default == "" {
      errs := errs + [NoDefault];
    } else if c.default !in c.providers {
      errs := errs + [UnknownDefault];
    }
    es := CheckFallback(c);
    errs := errs + es;
  }

  method CheckFallback(c: Config) returns (errs: seq<Problem>)
    ensures errs == [] <==> forall f | f in c.fallback :: f in c.aliases
  {
    errs := [];
    for i := 0 to |c.fallback|
      invariant errs == [] <==> forall j | 0 <= j < i :: c.fallback[j] in c.aliases
    {
      if c.fallback[i] !in c.aliases {
        errs := errs + [UnknownFallback(c.fallback[i])];
      }
    }
  }

  // ---------- slots ----------

  /** The string a keyless provider is fingerprinted by. */
  function KeylessName(name: string): string {
    "keyless/" + name
  }

  /** What is fingerprinted for each of a provider's slots. */
  function Marks(p: Provider, name: string): seq<string> {
    if p.keyless then [KeylessName(name)] else p.keys
  }

  /** The slots of one provider. */
  function Slots(p: Provider, name: string, fingerprint: string -> string): seq<Slot> {
    if p.keyless then [Slot(fingerprint(KeylessName(name)), "")]
    else seq(|p.keys|, i requires 0 <= i < |p.keys| => Slot(fingerprint(p.keys[i]), p.keys[i]))
  }

  function AllSlots(c: Config, fingerprint: string -> string): map<string, seq<Slot>> {
    map n | n in c.providers :: Slots(c.providers[n].prov, n, fingerprint)
  }

  /** Fingerprints of the slots in use do not collide. */
  ghost predicate NoCollision(c: Config, fingerprint: string -> string) {
    forall n, i, m, j | n in c.providers && m in c.providers
                        && 0 <= i < |Marks(c.providers[n].prov, n)| && 0 <= j < |Marks(c.providers[m].prov, m)|
                        && fingerprint(Marks(c.providers[n].prov, n)[i]) == fingerprint(Marks(c.providers[m].prov, m)[j]) ::
      Marks(c.providers[n].prov, n)[i] == Marks(c.providers[m].prov, m)[j]
  }

  /** No two slots share an id. */
  ghost predicate UniqueSlots(slots: map<string, seq<Slot>>) {
    forall n, i, m, j | n in slots && m in slots && 0 <= i < |slots[n]| && 0 <= j < |slots[m]|
                        && slots[n][i].id == slots[m][j].id :: n == m && i == j
  }

  /** No secret spells the mark of a keyless provider. */
  ghost predicate NoSecretMarks(c: Config) {
    forall n, i, m | n in c.providers && m in c.providers && c.providers[m].prov.keyless
                     && 0 <= i < |c.providers[n].prov.keys| :: c.providers[n].prov.keys[i] != KeylessName(m)
  }

  lemma SlotIds(c: Config, fingerprint: string -> string)
    ensures forall n | n in c.providers ::
              var p := c.providers[n].prov;
              |AllSlots(c, fingerprint)[n]| == |Marks(p, n)|
              && forall i | 0 <= i < |Marks(p, n)| :: AllSlots(c, fingerprint)[n][i].id == fingerprint(Marks(p, n)[i])
  {
  }

  lemma KeylessNameInjective(a: string, b: string)
    requires KeylessName(a) == KeylessName(b)
    ensures a == b
  {
    assert KeylessName(a)[8..] == a && KeylessName(b)[8..] == b;
  }

  /** Every id has exactly one slot in an accepted configuration, if and only if no secret happens
      to spell keyless/ and the name of a keyless provider. */
  lemma AcceptedSlotsUnique(c: Config, fingerprint: string -> string)
    requires Accepted(c) && NoCollision(c, fingerprint)
    ensures UniqueSlots(AllSlots(c, fingerprint)) <==> NoSecretMarks(c)
  {
    hide Armed, EntryOk, Slots, KeylessName, Blank;
    var slots: map<string, seq<Slot>> := AllSlots(c, fingerprint);
    SlotIds(c, fingerprint);
    assert forall n | n in c.providers :: SettingsOk(c.providers[n], {});
    if NoSecretMarks(c) {
      forall n, i, m, j | n in slots && m in slots && 0 <= i < |slots[n]| && 0 <= j < |slots[m]| && slots[n][i].id == slots[m][j].id
        ensures n == m && i == j
      {
        var p, q := c.providers[n].prov, c.providers[m].prov;
        assert Marks(p, n)[i] == Marks(q, m)[j];
        if p.keyless && q.keyless {
          KeylessNameInjective(n, m);
        }
      }
    } else {
      var n, i, m :| n in c.providers && m in c.providers && c.providers[m].prov.keyless
                     && 0 <= i < |c.providers[n].prov.keys| && c.providers[n].prov.keys[i] == KeylessName(m);
      assert SettingsOk(c.providers[n], {}) && !c.providers[n].prov.keyless;
      assert Marks(c.providers[n].prov, n)[i] == Marks(c.providers[m].prov, m)[0];
      assert slots[n][i].id == slots[m][0].id && n != m;
    }
  }

  /** A keyless provider p, and a provider q whose one secret spells p's mark. */
  function Colliding(): Config {
    Config("t", map[], Bound, "state", "p", [],
           map["p" := Settings(Provider(true, [], 0, 0), "u", true, 0),
               "q" := Settings(Provider(false, [KeylessName("p")], 0, 0), "u", true, 0)],
           map[])
  }

  /** A concrete accepted configuration in which two slots share an id, whatever the fingerprint. */
  lemma CollidingSlots(fingerprint: string -> string)
    ensures Accepted(Colliding()) && !UniqueSlots(AllSlots(Colliding(), fingerprint))
  {
    var c := Colliding();
    assert KeylessName("p")[0] == 'k' && !SpaceCode('k' as int);
    assert "p" in c.providers && Armed(c.providers["p"]);
    var slots: map<string, seq<Slot>> := AllSlots(c, fingerprint);
    assert slots["p"][0].id == slots["q"][0].id;
  }
}
