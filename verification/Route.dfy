// The targets a model name stands for.

module Route {
  import opened Wrappers
  import opened Config
  import opened Speed

  /** An alias entry as a target. */
  function Entry(c: Config, e: string): Target
    requires EntryOk(e, c.providers.Keys)
  {
    Target(Cut(e).value.0, Cut(e).value.1, c.providers[Cut(e).value.0])
  }

  function Targets(c: Config, name: string): seq<Target>
    requires Accepted(c)
  {
    if name == "" then []
    else if name in c.aliases then
      seq(|c.aliases[name]|, i requires 0 <= i < |c.aliases[name]| =>
        assert c.aliases[name][i] in c.aliases[name]; Entry(c, c.aliases[name][i]))
    else if Cut(name).Some? && Cut(name).value.0 in c.providers then
      [Target(Cut(name).value.0, Cut(name).value.1, c.providers[Cut(name).value.0])]
    else [Target(c.default, name, c.providers[c.default])]
  }

  /** A cut at the first slash loses nothing. */
  lemma {:induction false} CutJoins(s: string)
    ensures Cut(s).None? <==> '/' !in s
    ensures Cut(s).Some? ==> Cut(s).value.0 + ['/'] + Cut(s).value.1 == s && '/' !in Cut(s).value.0
  {
    if s != "" {
      assert s == [s[0]] + s[1..];
      if s[0] != '/' {
        CutJoins(s[1..]);
      }
    }
  }

  /** In an accepted configuration every name but the empty one has a target, and every target a
      configured provider, with that provider's settings; a name that is neither an alias nor
      begins with a provider goes whole to the default provider. */
  lemma TargetsConfigured(c: Config, name: string)
    requires Accepted(c)
    ensures Targets(c, name) == [] <==> name == ""
    ensures forall t | t in Targets(c, name) :: t.prov in c.providers && t.at == c.providers[t.prov]
    ensures name !in c.aliases ==>
              forall t | t in Targets(c, name) :: t.prov + ['/'] + t.model == name || (t.prov == c.default && t.model == name)
  {
    hide ProvidersOk, Armed, Cut;
    CutJoins(name);
    if name in c.aliases {
      forall i | 0 <= i < |c.aliases[name]| ensures EntryOk(c.aliases[name][i], c.providers.Keys) {
        assert c.aliases[name][i] in c.aliases[name];
      }
    }
  }

  /** An alias stands for its entries, in their order and one target each; each entry is cut at its first
      slash, into a configured provider and a model that is not empty. */
  lemma AliasTargets(c: Config, name: string)
    requires Accepted(c) && name in c.aliases && name != ""
    ensures |Targets(c, name)| == |c.aliases[name]| > 0
    ensures forall i | 0 <= i < |c.aliases[name]| ::
              var t := Targets(c, name)[i];
              t.prov + ['/'] + t.model == c.aliases[name][i] && '/' !in t.prov && t.model != "" && t.prov in c.providers
  {
    hide ProvidersOk, Armed, Cut;
    forall i | 0 <= i < |c.aliases[name]|
      ensures var t := Targets(c, name)[i];
              t.prov + ['/'] + t.model == c.aliases[name][i] && '/' !in t.prov && t.model != "" && t.prov in c.providers
    {
      assert c.aliases[name][i] in c.aliases[name];
      CutJoins(c.aliases[name][i]);
    }
  }

  lemma {:induction false} CutFirst(p: string, m: string)
    requires '/' !in p
    ensures Cut(p + ['/'] + m) == Some((p, m))
  {
    var s := p + ['/'] + m;
    if p == "" {
      assert s[1..] == m;
    } else {
      assert s[0] == p[0] && s[0] in p;
      assert s[1..] == p[1..] + ['/'] + m && [p[0]] + p[1..] == p;
      CutFirst(p[1..], m);
    }
  }

  /** A name that is no alias and spells a configured provider, a slash and a model goes to that provider's
      model, further slashes and all; any other goes whole to the default provider. */
  lemma PlainTargets(c: Config, name: string)
    requires Accepted(c) && name !in c.aliases && name != ""
    ensures forall p, m | name == p + ['/'] + m && '/' !in p && p in c.providers ::
              Targets(c, name) == [Target(p, m, c.providers[p])]
    ensures (forall p, m | name == p + ['/'] + m && '/' !in p :: p !in c.providers) ==>
              Targets(c, name) == [Target(c.default, name, c.providers[c.default])]
  {
    hide ProvidersOk, Armed, Cut, EntryOk;
    CutJoins(name);
    forall p, m | name == p + ['/'] + m && '/' !in p && p in c.providers
      ensures Targets(c, name) == [Target(p, m, c.providers[p])]
    {
      CutFirst(p, m);
    }
  }
}
