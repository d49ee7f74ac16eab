/**
 Importing a rendered configuration gives the draft back, entity by entity and
 in order, exactly when the draft keeps out of the fields the renderer writes.
 */
module ConfigRoundTrip {
  import opened Rules
  import opened Config

  predicate CanonicalProxy(p: Proxy, i: nat) {
    p.name != "" && p.config.Keys !! {"name", "type"} && p.sortOrder == i
  }

  predicate CanonicalGroup(g: Group, i: nat) {
    g.name != "" && g.config.Keys !! {"name", "type", "proxies"} && g.sortOrder == i
  }

  predicate CanonicalProvider(p: Provider, name: string) {
    p.name == name && p.config.Keys !! {"type", "behavior"}
  }

  predicate CanonicalDraft(d: Draft) {
    && d.sys.Keys !! RESERVED
    && (forall i :: 0 <= i < |d.proxies| ==> CanonicalProxy(d.proxies[i], i))
    && (forall i :: 0 <= i < |d.groups| ==> CanonicalGroup(d.groups[i], i))
    && (forall i :: 0 <= i < |d.rules| ==> Canonical(d.rules[i]) && d.rules[i].sortOrder == i)
    && (forall name :: name in d.providers ==> CanonicalProvider(d.providers[name], name))
  }

  // ----- entities ---------------------------------------------------------

  lemma ProxyReadsBack(p: Proxy, i: nat)
    requires CanonicalProxy(p, i)
    ensures ProxyOf(Map(ProxyMap(p)), i) == Ok(p)
  {
    assert ProxyMap(p) - {"name", "type"} == p.config;
  }

  lemma {:induction false} StringsReadBack(names: seq<string>)
    ensures StringsOf(Strings(names)) == names
  {
    if names != [] {
      var n := |names| - 1;
      assert Strings(names)[..n] == Strings(names[..n]);
      StringsReadBack(names[..n]);
    }
  }

  lemma GroupReadsBack(g: Group, i: nat)
    requires CanonicalGroup(g, i)
    ensures GroupOf(Map(GroupMap(g)), i) == Ok(g)
  {
    StringsReadBack(g.members);
    assert GroupMap(g) - {"name", "type", "proxies"} == g.config;
  }

  lemma ProviderReadsBack(p: Provider, name: string)
    requires CanonicalProvider(p, name)
    ensures ProviderOf(name, Map(ProviderMap(p))) == Ok(p)
  {
    assert ProviderMap(p) - {"type", "behavior"} == p.config;
  }

  /** Reading an ordered list of rendered entities back. */
  lemma ListReadsBack<T>(items: seq<Value>, read: (Value, nat) -> Result<T>, values: seq<T>)
    requires |items| == |values| && forall i :: 0 <= i < |items| ==> read(items[i], i) == Ok(values[i])
    ensures Each(items, read) == Ok(values)
  {
    assert Each(items, read).value == values;
  }

  // ----- sections of a rendered draft -------------------------------------

  lemma ProxiesReadBack(d: Draft)
    requires CanonicalDraft(d)
    ensures Section(Render(d), "proxies", ProxyOf) == Ok(d.proxies)
  {
    var items := Render(d)["proxies"].items;
    forall i | 0 <= i < |items| ensures ProxyOf(items[i], i) == Ok(d.proxies[i]) {
      ProxyReadsBack(d.proxies[i], i);
    }
    ListReadsBack(items, ProxyOf, d.proxies);
  }

  lemma GroupsReadBack(d: Draft)
    requires CanonicalDraft(d)
    ensures Section(Render(d), "proxy-groups", GroupOf) == Ok(d.groups)
  {
    var items := Render(d)["proxy-groups"].items;
    forall i | 0 <= i < |items| ensures GroupOf(items[i], i) == Ok(d.groups[i]) {
      GroupReadsBack(d.groups[i], i);
    }
    ListReadsBack(items, GroupOf, d.groups);
  }

  lemma RulesReadBack(d: Draft)
    requires CanonicalDraft(d)
    ensures Section(Render(d), "rules", RuleOf) == Ok(d.rules)
  {
    var items := Render(d)["rules"].items;
    forall i | 0 <= i < |items| ensures RuleOf(items[i], i) == Ok(d.rules[i]) {
      CanonicalReadsBack(d.rules[i]);
    }
    ListReadsBack(items, RuleOf, d.rules);
  }

  lemma ProvidersReadBack(d: Draft)
    requires CanonicalDraft(d)
    ensures ProvidersOf(Render(d)) == Ok(d.providers)
  {
    if |d.providers| == 0 {
      assert d.providers == map[];
    } else {
      var m := Render(d)["rule-providers"].fields;
      forall name | name in m ensures ProviderOf(name, m[name]) == Ok(d.providers[name]) {
        ProviderReadsBack(d.providers[name], name);
      }
      assert (map name | name in m :: ProviderOf(name, m[name]).value) == d.providers;
    }
  }

  lemma SysReadsBack(d: Draft)
    requires d.sys.Keys !! RESERVED
    ensures Render(d) - RESERVED == d.sys
  {
    assert Render(d).Keys - RESERVED == d.sys.Keys;
  }

  lemma CanonicalDraftReadsBack(d: Draft)
    requires CanonicalDraft(d)
    ensures Parse(Render(d)) == Ok(d)
  {
    SysReadsBack(d);
    hide Render, Section, ProvidersOf, CanonicalDraft, ProxyOf, GroupOf, RuleOf;
    ProxiesReadBack(d);
    GroupsReadBack(d);
    RulesReadBack(d);
    ProvidersReadBack(d);
  }

  // ----- the importer's image ---------------------------------------------

  /** Whatever is imported is canonical. */
  lemma ParseIsCanonicalDraft(raw: Fields)
    requires Parse(raw).Ok?
    ensures CanonicalDraft(Parse(raw).value)
  {
    var d := Parse(raw).value;
    forall i | 0 <= i < |d.rules| ensures Canonical(d.rules[i]) && d.rules[i].sortOrder == i {
      ParseIsCanonical(raw["rules"].items[i].s, i);
    }
    forall i | 0 <= i < |d.proxies| ensures CanonicalProxy(d.proxies[i], i) {
      assert ProxyOf(raw["proxies"].items[i], i) == Ok(d.proxies[i]);
    }
    forall i | 0 <= i < |d.groups| ensures CanonicalGroup(d.groups[i], i) {
      assert GroupOf(raw["proxy-groups"].items[i], i) == Ok(d.groups[i]);
    }
  }

  /** Rendering and importing gives a draft back exactly when it is canonical. */
  lemma ConfigRoundTrip(d: Draft)
    ensures Parse(Render(d)) == Ok(d) <==> CanonicalDraft(d)
  {
    if CanonicalDraft(d) {
      CanonicalDraftReadsBack(d);
    } else if Parse(Render(d)) == Ok(d) {
      ParseIsCanonicalDraft(Render(d));
    }
  }

  /** Any accepted configuration is stable: importing, rendering and importing again changes nothing. */
  lemma ImportIsStable(raw: Fields)
    requires Parse(raw).Ok?
    ensures Parse(Render(Parse(raw).value)) == Parse(raw)
  {
    ParseIsCanonicalDraft(raw);
    CanonicalDraftReadsBack(Parse(raw).value);
  }
}
