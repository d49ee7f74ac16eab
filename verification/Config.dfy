/**
 Whole configurations at the level of decoded maps: the renderer of
 internal/service/config_service.go and the importer of
 internal/service/import_service.go.
 */
module Config {
  import opened Rules

  type Fields = map<string, Value>

  datatype Proxy = Proxy(name: string, kind: string, config: Fields, sortOrder: nat)
  datatype Group = Group(name: string, kind: string, config: Fields, members: seq<string>, sortOrder: nat)
  datatype Provider = Provider(name: string, kind: string, behavior: string, config: Fields)

  /** A draft: the system configuration and the structured entities. */
  datatype Draft = Draft(sys: Fields, proxies: seq<Proxy>, groups: seq<Group>, rules: seq<Rule>,
                         providers: map<string, Provider>)

  const RESERVED: set<string> := {"proxies", "proxy-groups", "rules", "rule-providers"}

  // ----- rendering --------------------------------------------------------

  function ProxyMap(p: Proxy): Fields { p.config["name" := Str(p.name)]["type" := Str(p.kind)] }

  function GroupMap(g: Group): Fields {
    g.config["name" := Str(g.name)]["type" := Str(g.kind)]["proxies" := List(Strings(g.members))]
  }

  function ProviderMap(p: Provider): Fields { p.config["type" := Str(p.kind)]["behavior" := Str(p.behavior)] }

  function Strings(names: seq<string>): (items: seq<Value>)
    ensures |items| == |names| && forall i :: 0 <= i < |names| ==> items[i] == Str(names[i])
  {
    seq(|names|, i requires 0 <= i < |names| => Str(names[i]))
  }

  function Render(d: Draft): Fields {
    var base := d.sys
      ["proxies" := List(seq(|d.proxies|, i requires 0 <= i < |d.proxies| => Map(ProxyMap(d.proxies[i]))))]
      ["proxy-groups" := List(seq(|d.groups|, i requires 0 <= i < |d.groups| => Map(GroupMap(d.groups[i]))))]
      ["rules" := List(seq(|d.rules|, i requires 0 <= i < |d.rules| => Str(RenderRule(d.rules[i]))))];
    if |d.providers| > 0 then
      base["rule-providers" := Map(map name | name in d.providers :: Map(ProviderMap(d.providers[name])))]
    else base
  }

  method RenderConfig(d: Draft) returns (base: Fields)
    ensures base == Render(d)
  {
    base := d.sys;
    var proxies: seq<Value> := [];
    for i := 0 to |d.proxies|
      invariant |proxies| == i && forall j :: 0 <= j < i ==> proxies[j] == Map(ProxyMap(d.proxies[j]))
    {
      var m := d.proxies[i].config;
      m := m["name" := Str(d.proxies[i].name)];
      m := m["type" := Str(d.proxies[i].kind)];
      proxies := proxies + [Map(m)];
    }
    base := base["proxies" := List(proxies)];
    var groups: seq<Value> := [];
    for i := 0 to |d.groups|
      invariant |groups| == i && forall j :: 0 <= j < i ==> groups[j] == Map(GroupMap(d.groups[j]))
    {
      var m := d.groups[i].config;
      m := m["name" := Str(d.groups[i].name)];
      m := m["type" := Str(d.groups[i].kind)];
      m := m["proxies" := List(Strings(d.groups[i].members))];
      groups := groups + [Map(m)];
    }
    base := base["proxy-groups" := List(groups)];
    var texts := RenderRules(d.rules);
    var rules := Strings(texts);
    base := base["rules" := List(rules)];
    assert proxies == seq(|d.proxies|, i requires 0 <= i < |d.proxies| => Map(ProxyMap(d.proxies[i])));
    assert groups == seq(|d.groups|, i requires 0 <= i < |d.groups| => Map(GroupMap(d.groups[i])));
    assert rules == seq(|d.rules|, i requires 0 <= i < |d.rules| => Str(RenderRule(d.rules[i])));
    if |d.providers| > 0 {
      var names := d.providers.Keys;
      var providers: Fields := map[];
      while names != {}
        invariant names <= d.providers.Keys
        invariant providers == map name | name in d.providers && name !in names :: Map(ProviderMap(d.providers[name]))
      {
        var name :| name in names;
        var m := d.providers[name].config;
        m := m["type" := Str(d.providers[name].kind)];
        m := m["behavior" := Str(d.providers[name].behavior)];
        providers := providers[name := Map(m)];
        names := names - {name};
      }
      assert providers == map name | name in d.providers :: Map(ProviderMap(d.providers[name]));
      base := base["rule-providers" := Map(providers)];
    }
  }

  // ----- importing --------------------------------------------------------

  /** A type assertion to string whose failure leaves "". */
  function StringAt(m: Fields, key: string): string {
    if key in m && m[key].Str? then m[key].s else ""
  }

  /** The strings of a list; anything else in it is skipped. */
  function StringsOf(items: seq<Value>): seq<string> {
    if items == [] then []
    else
      var rest := StringsOf(items[..|items| - 1]);
      if items[|items| - 1].Str? then rest + [items[|items| - 1].s] else rest
  }

  function ProxyOf(v: Value, i: nat): Result<Proxy> {
    if !v.Map? || StringAt(v.fields, "name") == "" then Err("proxies")
    else Ok(Proxy(StringAt(v.fields, "name"), StringAt(v.fields, "type"), v.fields - {"name", "type"}, i))
  }

  function GroupOf(v: Value, i: nat): Result<Group> {
    if !v.Map? || StringAt(v.fields, "name") == "" then Err("proxy-groups")
    else
      var members := if "proxies" in v.fields && v.fields["proxies"].List? then StringsOf(v.fields["proxies"].items) else [];
      Ok(Group(StringAt(v.fields, "name"), StringAt(v.fields, "type"), v.fields - {"name", "type", "proxies"}, members, i))
  }

  function RuleOf(v: Value, i: nat): Result<Rule> {
    if !v.Str? then Err("rules") else ParseRule(v.s, i)
  }

  function ProviderOf(name: string, v: Value): Result<Provider> {
    if !v.Map? then Err("rule-providers")
    else Ok(Provider(name, StringAt(v.fields, "type"), StringAt(v.fields, "behavior"), v.fields - {"type", "behavior"}))
  }

  /** Reads the items of a list in order and stops at the first bad one. */
  function Each<T>(items: seq<Value>, read: (Value, nat) -> Result<T>): (r: Result<seq<T>>)
    ensures r.Ok? <==> forall i :: 0 <= i < |items| ==> read(items[i], i).Ok?
    ensures r.Ok? ==> |r.value| == |items| && forall i :: 0 <= i < |items| ==> read(items[i], i) == Ok(r.value[i])
  {
    if items == [] then Ok([])
    else
      var n := |items| - 1;
      match Each(items[..n], read)
      case Err(section) => Err(section)
      case Ok(values) =>
        match read(items[n], n)
        case Err(section) => Err(section)
        case Ok(value) => Ok(values + [value])
  }

  /** An optional top-level list; absent means empty. */
  function Section<T>(raw: Fields, key: string, read: (Value, nat) -> Result<T>): Result<seq<T>> {
    if key !in raw then Ok([])
    else if !raw[key].List? then Err(key)
    else Each(raw[key].items, read)
  }

  function ProvidersOf(raw: Fields): Result<map<string, Provider>> {
    if "rule-providers" !in raw then Ok(map[])
    else if !raw["rule-providers"].Map? then Err("rule-providers")
    else
      var m := raw["rule-providers"].fields;
      if exists name :: name in m && !m[name].Map? then Err("rule-providers")
      else Ok(map name | name in m :: ProviderOf(name, m[name]).value)
  }

  function Parse(raw: Fields): Result<Draft> {
    match Section(raw, "proxies", ProxyOf)
    case Err(section) => Err(section)
    case Ok(proxies) =>
      match Section(raw, "proxy-groups", GroupOf)
      case Err(section) => Err(section)
      case Ok(groups) =>
        match Section(raw, "rules", RuleOf)
        case Err(section) => Err(section)
        case Ok(rules) =>
          match ProvidersOf(raw)
          case Err(section) => Err(section)
          case Ok(providers) => Ok(Draft(raw - RESERVED, proxies, groups, rules, providers))
  }

  /** Copies every field but the excluded ones, key by key. */
  method Without(m: Fields, excluded: set<string>) returns (r: Fields)
    ensures r == m - excluded
  {
    r := map[];
    var keys := m.Keys;
    while keys != {}
      invariant keys <= m.Keys
      invariant r == map k | k in m && k !in keys && k !in excluded :: m[k]
    {
      var k :| k in keys;
      if k !in excluded {
        r := r[k := m[k]];
      }
      keys := keys - {k};
    }
  }

  method ImportProxies(items: seq<Value>) returns (r: Result<seq<Proxy>>)
    ensures r == Each(items, ProxyOf)
  {
    var proxies: seq<Proxy> := [];
    for i := 0 to |items|
      invariant Each(items[..i], ProxyOf) == Ok(proxies)
    {
      EachNext(items, ProxyOf, i);
      if !items[i].Map? { EachStops(items, ProxyOf, i); return Err("proxies"); }
      var m := items[i].fields;
      var name, kind := StringAt(m, "name"), StringAt(m, "type");
      if name == "" { EachStops(items, ProxyOf, i); return Err("proxies"); }
      var config := Without(m, {"name", "type"});
      proxies := proxies + [Proxy(name, kind, config, i)];
    }
    assert items[..|items|] == items;
    return Ok(proxies);
  }

  method ImportGroups(items: seq<Value>) returns (r: Result<seq<Group>>)
    ensures r == Each(items, GroupOf)
  {
    var groups: seq<Group> := [];
    for i := 0 to |items|
      invariant Each(items[..i], GroupOf) == Ok(groups)
    {
      EachNext(items, GroupOf, i);
      if !items[i].Map? { EachStops(items, GroupOf, i); return Err("proxy-groups"); }
      var m := items[i].fields;
      var name, kind := StringAt(m, "name"), StringAt(m, "type");
      if name == "" { EachStops(items, GroupOf, i); return Err("proxy-groups"); }
      var members: seq<string> := [];
      if "proxies" in m && m["proxies"].List? {
        members := ImportMembers(m["proxies"].items);
      }
      var config := Without(m, {"name", "type", "proxies"});
      groups := groups + [Group(name, kind, config, members, i)];
    }
    assert items[..|items|] == items;
    return Ok(groups);
  }

  method ImportMembers(items: seq<Value>) returns (members: seq<string>)
    ensures members == StringsOf(items)
  {
    members := [];
    for i := 0 to |items|
      invariant members == StringsOf(items[..i])
    {
      assert items[..i + 1][..i] == items[..i];
      if items[i].Str? {
        members := members + [items[i].s];
      }
    }
    assert items[..|items|] == items;
  }

  method ImportRules(items: seq<Value>) returns (r: Result<seq<Rule>>)
    ensures r == Each(items, RuleOf)
  {
    var rules: seq<Rule> := [];
    for i := 0 to |items|
      invariant Each(items[..i], RuleOf) == Ok(rules)
    {
      EachNext(items, RuleOf, i);
      if !items[i].Str? { EachStops(items, RuleOf, i); return Err("rules"); }
      match ParseRule(items[i].s, i)
      case Err(section) =>
        EachStops(items, RuleOf, i);
        return Err(section);
      case Ok(rule) =>
        rules := rules + [rule];
    }
    assert items[..|items|] == items;
    return Ok(rules);
  }

  lemma EachNext<T>(items: seq<Value>, read: (Value, nat) -> Result<T>, i: nat)
    requires i < |items|
    ensures Each(items[..i + 1], read) ==
            match Each(items[..i], read)
            case Err(section) => Err(section)
            case Ok(values) =>
              match read(items[i], i)
              case Err(section) => Err(section)
              case Ok(value) => Ok(values + [value])
  {
    assert items[..i + 1][..i] == items[..i];
  }

  /** A bad item decides the result of the whole list. */
  lemma {:induction false} EachStops<T>(items: seq<Value>, read: (Value, nat) -> Result<T>, i: nat)
    requires i < |items| && Each(items[..i + 1], read).Err?
    ensures Each(items, read) == Each(items[..i + 1], read)
    decreases |items|
  {
    if i + 1 == |items| {
      assert items[..i + 1] == items;
    } else {
      var n := |items| - 1;
      assert items[..n][..i + 1] == items[..i + 1];
      EachStops(items[..n], read, i);
    }
  }

  method ImportProviders(m: Fields) returns (r: Result<map<string, Provider>>)
    ensures r == if exists name :: name in m && !m[name].Map? then Err("rule-providers")
                 else Ok(map name | name in m :: ProviderOf(name, m[name]).value)
  {
    var providers: map<string, Provider> := map[];
    var names := m.Keys;
    while names != {}
      invariant names <= m.Keys
      invariant forall name :: name in m && name !in names ==> m[name].Map?
      invariant providers == map name | name in m && name !in names :: ProviderOf(name, m[name]).value
    {
      var name :| name in names;
      if !m[name].Map? { return Err("rule-providers"); }
      var fields := m[name].fields;
      var config := Without(fields, {"type", "behavior"});
      providers := providers[name := Provider(name, StringAt(fields, "type"), StringAt(fields, "behavior"), config)];
      names := names - {name};
    }
    assert providers == map name | name in m :: ProviderOf(name, m[name]).value;
    return Ok(providers);
  }

  method ParseConfig(raw: Fields) returns (r: Result<Draft>)
    ensures r == Parse(raw)
  {
    var proxies: seq<Proxy>, groups: seq<Group>, rules: seq<Rule> := [], [], [];
    var providers: map<string, Provider> := map[];
    if "proxies" in raw {
      if !raw["proxies"].List? { return Err("proxies"); }
      var got := ImportProxies(raw["proxies"].items);
      if got.Err? { return Err(got.section); }
      proxies := got.value;
    }
    if "proxy-groups" in raw {
      if !raw["proxy-groups"].List? { return Err("proxy-groups"); }
      var got := ImportGroups(raw["proxy-groups"].items);
      if got.Err? { return Err(got.section); }
      groups := got.value;
    }
    if "rules" in raw {
      if !raw["rules"].List? { return Err("rules"); }
      var got := ImportRules(raw["rules"].items);
      if got.Err? { return Err(got.section); }
      rules := got.value;
    }
    if "rule-providers" in raw {
      if !raw["rule-providers"].Map? { return Err("rule-providers"); }
      var got := ImportProviders(raw["rule-providers"].fields);
      if got.Err? { return Err(got.section); }
      providers := got.value;
    }
    var sys := Without(raw, RESERVED);
    return Ok(Draft(sys, proxies, groups, rules, providers));
  }
}
