/**
 The layout of a configuration, key by key: what is rendered where
 (internal/service/config_service.go), what an import reads from where, and
 which configurations it refuses (internal/service/import_service.go).
 */
module ConfigLayout {
  import opened Rules
  import opened Config

  /** m is config with the given fields on top. */
  ghost predicate Over(m: Fields, config: Fields, top: Fields) {
    forall k :: (k in m <==> k in config || k in top) && (k in m ==> m[k] == if k in top then top[k] else config[k])
  }

  /** The entity's configuration is the decoded map without its own fields. */
  ghost predicate Rest(config: Fields, m: Fields, own: set<string>) {
    forall k :: (k in config <==> k in m && k !in own) && (k in config ==> config[k] == m[k])
  }

  predicate Names(v: Value, names: seq<string>) {
    v.List? && |v.items| == |names| && forall i :: 0 <= i < |names| ==> v.items[i] == Str(names[i])
  }

  ghost predicate ProxyShown(v: Value, p: Proxy) {
    v.Map? && Over(v.fields, p.config, map["name" := Str(p.name), "type" := Str(p.kind)])
  }

  ghost predicate GroupShown(v: Value, g: Group) {
    && v.Map? && "proxies" in v.fields && Names(v.fields["proxies"], g.members)
    && Over(v.fields, g.config, map["name" := Str(g.name), "type" := Str(g.kind), "proxies" := v.fields["proxies"]])
  }

  ghost predicate ProviderShown(v: Value, p: Provider) {
    v.Map? && Over(v.fields, p.config, map["type" := Str(p.kind), "behavior" := Str(p.behavior)])
  }

  ghost predicate Listed<T(!new)>(raw: Fields, key: string, values: seq<T>, shown: (Value, T) -> bool) {
    && key in raw && raw[key].List? && |raw[key].items| == |values|
    && forall i :: 0 <= i < |values| ==> shown(raw[key].items[i], values[i])
  }

  /**
   A rendered configuration holds the system keys, and under four keys of its
   own the entities in order, each over its configuration; rule providers only
   if there are any.
   */
  lemma RenderShows(d: Draft)
    ensures var raw := Render(d);
            && (forall k :: k !in {"proxies", "proxy-groups", "rules"} && (k != "rule-providers" || d.providers == map[]) ==>
                  (k in raw <==> k in d.sys) && (k in raw ==> raw[k] == d.sys[k]))
            && Listed(raw, "proxies", d.proxies, (v, p) => ProxyShown(v, p))
            && Listed(raw, "proxy-groups", d.groups, (v, g) => GroupShown(v, g))
            && Listed(raw, "rules", d.rules, (v, r) => v == Str(RenderRule(r)))
            && (d.providers != map[] ==>
                  && "rule-providers" in raw && raw["rule-providers"].Map?
                  && raw["rule-providers"].fields.Keys == d.providers.Keys
                  && forall name :: name in d.providers ==> ProviderShown(raw["rule-providers"].fields[name], d.providers[name]))
  {
    hide RenderRule, ProxyShown, GroupShown, ProviderShown, ProxyMap, GroupMap, ProviderMap;
    EntitiesShown();
    if d.providers != map[] {
      var name :| name in d.providers;
      assert |d.providers| > 0;
    }
  }

  lemma EntitiesShown()
    ensures forall p :: ProxyShown(Map(ProxyMap(p)), p)
    ensures forall g :: GroupShown(Map(GroupMap(g)), g)
    ensures forall p :: ProviderShown(Map(ProviderMap(p)), p)
  {}

  /** A decoded item that names itself. */
  predicate Named(v: Value) { v.Map? && "name" in v.fields && v.fields["name"].Str? && v.fields["name"].s != "" }

  /** TYPE,PAYLOAD,TARGET, or MATCH,TARGET. */
  predicate RuleShaped(v: Value) {
    v.Str? && (|Split(v.s)| >= 3 || (|Split(v.s)| == 2 && TrimSpace(Split(v.s)[0]) == "MATCH"))
  }

  predicate ListOf(raw: Fields, key: string, good: Value -> bool) {
    key in raw ==> raw[key].List? && forall v :: v in raw[key].items ==> good(v)
  }

  lemma SectionAccepts<T>(raw: Fields, key: string, read: (Value, nat) -> Result<T>, good: Value -> bool)
    requires forall v, i: nat :: read(v, i).Ok? <==> good(v)
    ensures Section(raw, key, read).Ok? <==> ListOf(raw, key, good)
  {
    if key in raw && raw[key].List? {
      var items := raw[key].items;
      if Section(raw, key, read).Ok? {
        forall v | v in items ensures good(v) {
          var i :| 0 <= i < |items| && items[i] == v;
          assert read(items[i], i).Ok?;
        }
      }
    }
  }

  /** An import is refused exactly if a section has the wrong shape, an entity has no name, a rule has too few parts, or a provider is no map. */
  lemma AcceptedExactly(raw: Fields)
    ensures Parse(raw).Ok? <==>
            && ListOf(raw, "proxies", Named) && ListOf(raw, "proxy-groups", Named) && ListOf(raw, "rules", RuleShaped)
            && ("rule-providers" in raw ==>
                  raw["rule-providers"].Map? && forall name :: name in raw["rule-providers"].fields ==> raw["rule-providers"].fields[name].Map?)
  {
    SectionAccepts(raw, "proxies", ProxyOf, Named);
    SectionAccepts(raw, "proxy-groups", GroupOf, Named);
    SectionAccepts(raw, "rules", RuleOf, RuleShaped);
    hide Section, ListOf, ProxyOf, GroupOf, RuleOf;
  }

  function TextAt(m: Fields, key: string): string { if key in m && m[key].Str? then m[key].s else "" }

  ghost predicate ProxyRead(v: Value, p: Proxy, i: nat) {
    && v.Map? && p.name == TextAt(v.fields, "name") && p.kind == TextAt(v.fields, "type") && p.sortOrder == i
    && Rest(p.config, v.fields, {"name", "type"})
  }

  ghost predicate GroupRead(v: Value, g: Group, i: nat) {
    && v.Map? && g.name == TextAt(v.fields, "name") && g.kind == TextAt(v.fields, "type") && g.sortOrder == i
    && Rest(g.config, v.fields, {"name", "type", "proxies"})
    && forall names :: "proxies" in v.fields && Names(v.fields["proxies"], names) ==> g.members == names
  }

  ghost predicate ProviderRead(v: Value, p: Provider, name: string) {
    && v.Map? && p.name == name && p.kind == TextAt(v.fields, "type") && p.behavior == TextAt(v.fields, "behavior")
    && Rest(p.config, v.fields, {"type", "behavior"})
  }

  ghost predicate RuleRead(v: Value, r: Rule, i: nat) { v.Str? && ParseRule(v.s, i) == Ok(r) }

  /** One entity per item, in order; none without the section. */
  ghost predicate EachRead<T(!new)>(raw: Fields, key: string, values: seq<T>, fits: (Value, T, nat) -> bool) {
    if key !in raw then values == []
    else
      && raw[key].List? && |raw[key].items| == |values|
      && forall i :: 0 <= i < |values| ==> fits(raw[key].items[i], values[i], i)
  }

  lemma SectionReads<T(!new)>(raw: Fields, key: string, read: (Value, nat) -> Result<T>, fits: (Value, T, nat) -> bool)
    requires Section(raw, key, read).Ok?
    requires forall v, x, i: nat :: read(v, i) == Ok(x) ==> fits(v, x, i)
    ensures EachRead(raw, key, Section(raw, key, read).value, fits)
  {}

  lemma GroupReads(v: Value, g: Group, i: nat)
    requires GroupOf(v, i) == Ok(g)
    ensures GroupRead(v, g, i)
  {
    forall names | "proxies" in v.fields && Names(v.fields["proxies"], names) ensures g.members == names {
      StringsRead(v.fields["proxies"].items, names);
    }
  }

  ghost predicate ProvidersRead(raw: Fields, providers: map<string, Provider>) {
    if "rule-providers" !in raw then providers == map[]
    else
      && raw["rule-providers"].Map? && providers.Keys == raw["rule-providers"].fields.Keys
      && forall name :: name in providers ==> ProviderRead(raw["rule-providers"].fields[name], providers[name], name)
  }

  lemma ProvidersReads(raw: Fields)
    requires ProvidersOf(raw).Ok?
    ensures ProvidersRead(raw, ProvidersOf(raw).value)
  {}

  /** What an accepted import reads: every entity from its place, with its position, and every other top-level key as system configuration. */
  lemma ImportReads(raw: Fields)
    requires Parse(raw).Ok?
    ensures var d := Parse(raw).value;
            && Rest(d.sys, raw, {"proxies", "proxy-groups", "rules", "rule-providers"})
            && EachRead(raw, "proxies", d.proxies, (v, p, i) => ProxyRead(v, p, i))
            && EachRead(raw, "proxy-groups", d.groups, (v, g, i) => GroupRead(v, g, i))
            && EachRead(raw, "rules", d.rules, (v, r, i) => RuleRead(v, r, i))
            && ProvidersRead(raw, d.providers)
  {
    forall v, g, i: nat | GroupOf(v, i) == Ok(g) ensures GroupRead(v, g, i) { GroupReads(v, g, i); }
    hide ParseRule, Section, ProvidersOf, GroupOf, GroupRead, EachRead, ProvidersRead;
    SectionReads(raw, "proxies", ProxyOf, (v, p, i) => ProxyRead(v, p, i));
    SectionReads(raw, "proxy-groups", GroupOf, (v, g, i) => GroupRead(v, g, i));
    SectionReads(raw, "rules", RuleOf, (v, r, i) => RuleRead(v, r, i));
    ProvidersReads(raw);
  }

  lemma {:induction false} StringsRead(items: seq<Value>, names: seq<string>)
    requires Names(List(items), names)
    ensures StringsOf(items) == names
  {
    if names != [] {
      var n := |names| - 1;
      assert Names(List(items[..n]), names[..n]);
      StringsRead(items[..n], names[..n]);
    }
  }
}
