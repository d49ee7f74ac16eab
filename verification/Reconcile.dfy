/**
 Reconciling the scoring queue with the inventory (ScanAndEnqueue and
 EnsureNodeWithFP in internal/service/scoring_service.go), with no store errors.
 */
module Reconcile {
  import opened Prelude
  import opened UtcStamp
  import opened ScoreStore

  /** Where a node comes from. */
  datatype Owner = StaticProxies | FromProvider(name: string) {
    function Source(): string { if StaticProxies? then "static" else "provider" }
    function Provider(): string { if StaticProxies? then "" else name }
  }

  /** A node of the inventory under its runtime name. */
  datatype Node = Node(name: string, fingerprint: string)

  /** A draft provider; its cache may not be readable. Names are raw, the override's prefix and suffix are not yet applied. */
  datatype Provider = Provider(name: string, prefix: string, suffix: string, nodes: Option<seq<Node>>) {
    function RuntimeName(raw: string): string { prefix + raw + suffix }

    /** CacheName: back from a runtime name, if it carries the prefix and the suffix. */
    function CacheName(runtime: string): Option<string> {
      if !(prefix <= runtime) then None
      else
        var rest := runtime[|prefix|..];
        if |rest| < |suffix| || rest[|rest| - |suffix|..] != suffix then None
        else Some(rest[..|rest| - |suffix|])
    }
  }

  function NewNodeKey(o: Owner, name: string): string {
    if o.FromProvider? then "provider/" + o.name + "/" + name else "static/" + name
  }

  // ----- the code ---------------------------------------------------------

  /** The row of one node after EnsureNodeWithFP. */
  function Ensured(rows: Table, o: Owner, n: Node, now: int): Row {
    var key := NewNodeKey(o, n.name);
    if key !in rows then
      Row(o.Source(), o.Provider(), n.name, Pending, n.fingerprint, Set(now), false, 0, "")
    else if rows[key].fingerprint == n.fingerprint && rows[key].name == n.name then rows[key]
    else
      rows[key].(fingerprint := n.fingerprint, name := n.name, status := Pending, nextDue := Set(now), attempts := 0)
  }

  function Ensure(rows: Table, o: Owner, n: Node, now: int): Table {
    rows[NewNodeKey(o, n.name) := Ensured(rows, o, n, now)]
  }

  function EnsureAll(rows: Table, o: Owner, ns: seq<Node>, now: int): Table {
    if ns == [] then rows
    else Ensure(EnsureAll(rows, o, ns[..|ns| - 1], now), o, ns[|ns| - 1], now)
  }

  function KeysOf(o: Owner, ns: seq<Node>): set<string> {
    set i | 0 <= i < |ns| :: NewNodeKey(o, ns[i].name)
  }

  predicate Owns(o: Owner, r: Row) {
    r.source == o.Source() && (o.FromProvider? ==> r.provider == o.name)
  }

  /** Deletes the owner's rows that are not present any more. */
  function Prune(rows: Table, o: Owner, present: set<string>): Table {
    map k | k in rows && (Owns(o, rows[k]) ==> k in present) :: rows[k]
  }

  function Section(rows: Table, o: Owner, ns: seq<Node>, now: int): Table {
    Prune(EnsureAll(rows, o, ns, now), o, KeysOf(o, ns))
  }

  /** The runtime nodes of a readable provider; nodes without a name are skipped. */
  function Effective(p: Provider, nodes: seq<Node>): seq<Node> {
    if nodes == [] then []
    else
      var rest := Effective(p, nodes[..|nodes| - 1]);
      var n := nodes[|nodes| - 1];
      if n.name == "" then rest else rest + [n.(name := p.RuntimeName(n.name))]
  }

  predicate Active(p: Provider, disabled: set<string>) { p.name !in disabled && p.nodes.Some? }

  function ProviderSections(rows: Table, ps: seq<Provider>, disabled: set<string>, now: int): Table {
    if ps == [] then rows
    else
      var before := ProviderSections(rows, ps[..|ps| - 1], disabled, now);
      var p := ps[|ps| - 1];
      if Active(p, disabled) then Section(before, FromProvider(p.name), Effective(p, p.nodes.value), now) else before
  }

  function Names(ps: seq<Provider>): set<string> { set i | 0 <= i < |ps| :: ps[i].name }

  /** Deletes the rows of providers that are not in the draft. */
  function PruneDead(rows: Table, live: set<string>): Table {
    map k | k in rows && (rows[k].source == "provider" ==> rows[k].provider in live) :: rows[k]
  }

  function Scan(rows: Table, statics: seq<Node>, ps: seq<Provider>, disabled: set<string>, now: int): Table {
    PruneDead(ProviderSections(Section(rows, StaticProxies, statics, now), ps, disabled, now), Names(ps))
  }

  class Queue {
    var rows: Table

    method EnsureNodeWithFP(o: Owner, n: Node, now: int)
      modifies this
      ensures rows == Ensure(old(rows), o, n, now)
    {
      var key := NewNodeKey(o, n.name);
      if key !in rows {
        rows := rows[key := Row(o.Source(), o.Provider(), n.name, Pending, n.fingerprint, Set(now), false, 0, "")];
        return;
      }
      var existing := rows[key];
      if existing.fingerprint == n.fingerprint && existing.name == n.name {
        assert rows[key := existing] == rows;
        return;
      }
      existing := existing.(fingerprint := n.fingerprint, name := n.name, status := Pending, nextDue := Set(now), attempts := 0);
      rows := rows[key := existing];
    }

    /** Ensures every node, then deletes the owner's rows without one. */
    method Reconcile(o: Owner, ns: seq<Node>, now: int)
      modifies this
      ensures rows == Section(old(rows), o, ns, now)
    {
      var present: set<string> := {};
      for i := 0 to |ns|
        invariant rows == EnsureAll(old(rows), o, ns[..i], now)
        invariant present == KeysOf(o, ns[..i])
      {
        assert ns[..i + 1][..i] == ns[..i];
        KeysExtend(o, ns, i);
        present := present + {NewNodeKey(o, ns[i].name)};
        EnsureNodeWithFP(o, ns[i], now);
      }
      assert ns[..|ns|] == ns;
      var keys := rows.Keys;
      ghost var all := rows;
      while keys != {}
        invariant keys <= all.Keys
        invariant rows == map k | k in all && (k !in keys && Owns(o, all[k]) ==> k in present) :: all[k]
      {
        var k :| k in keys;
        if k in rows && Owns(o, rows[k]) && k !in present {
          rows := rows - {k};
        }
        keys := keys - {k};
      }
    }

    method ScanAndEnqueue(statics: seq<Node>, ps: seq<Provider>, disabled: set<string>, now: int)
      modifies this
      ensures rows == Scan(old(rows), statics, ps, disabled, now)
    {
      Reconcile(StaticProxies, statics, now);
      ghost var start := rows;
      var live: set<string> := {};
      for i := 0 to |ps|
        invariant rows == ProviderSections(start, ps[..i], disabled, now)
        invariant live == Names(ps[..i])
      {
        assert ps[..i + 1][..i] == ps[..i];
        NamesExtend(ps, i);
        live := live + {ps[i].name};
        if ps[i].name in disabled { continue; }
        if ps[i].nodes.None? { continue; }
        var nodes: seq<Node> := [];
        for j := 0 to |ps[i].nodes.value|
          invariant nodes == Effective(ps[i], ps[i].nodes.value[..j])
          invariant rows == ProviderSections(start, ps[..i], disabled, now)
        {
          assert ps[i].nodes.value[..j + 1][..j] == ps[i].nodes.value[..j];
          var n := ps[i].nodes.value[j];
          if n.name != "" {
            nodes := nodes + [n.(name := ps[i].RuntimeName(n.name))];
          }
        }
        assert ps[i].nodes.value[..|ps[i].nodes.value|] == ps[i].nodes.value;
        Reconcile(FromProvider(ps[i].name), nodes, now);
      }
      assert ps[..|ps|] == ps;
      rows := map k | k in rows && (rows[k].source == "provider" ==> rows[k].provider in live) :: rows[k];
    }
  }

  lemma KeysExtend(o: Owner, ns: seq<Node>, i: nat)
    requires i < |ns|
    ensures KeysOf(o, ns[..i + 1]) == KeysOf(o, ns[..i]) + {NewNodeKey(o, ns[i].name)}
  {
    var m := ns[..i + 1];
    assert forall j :: 0 <= j < i ==> m[j] == ns[..i][j];
    assert m[i] == ns[i];
  }

  lemma NamesExtend(ps: seq<Provider>, i: nat)
    requires i < |ps|
    ensures Names(ps[..i + 1]) == Names(ps[..i]) + {ps[i].name}
  {
    var m := ps[..i + 1];
    assert forall j :: 0 <= j < i ==> m[j] == ps[..i][j];
    assert m[i] == ps[i];
  }
}
