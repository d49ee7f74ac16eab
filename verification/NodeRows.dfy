/**
 The unified node table (buildNodeRows in web/src/lib/node-inventory.ts): rows
 keep their order and receive pairwise distinct keys by trying numbered suffixes.
 */
module NodeRows {
  import opened Decimal
  import opened Prelude

  datatype Proxy = Proxy(id: string, name: string)
  datatype Node = Node(id: string, name: string)
  datatype Provider = Provider(name: string, nodes: seq<Node>)

  datatype Row =
    | Static(key: string, proxy: Proxy)
    | Provided(key: string, node: Node, provider: string)

  // ----- the rows before keys are made unique -----------------------------

  function StaticRow(p: Proxy): Row { Static("static:" + p.id, p) }

  function ProviderRow(n: Node, provider: string): Row { Provided("provider:" + n.id, n, provider) }

  function NodesOf(p: Provider): seq<Row> {
    seq(|p.nodes|, i requires 0 <= i < |p.nodes| => ProviderRow(p.nodes[i], p.name))
  }

  function AllNodes(providers: seq<Provider>): seq<Row> {
    if providers == [] then [] else AllNodes(providers[..|providers| - 1]) + NodesOf(providers[|providers| - 1])
  }

  function Wanted(proxies: seq<Proxy>, providers: seq<Provider>): seq<Row> {
    seq(|proxies|, i requires 0 <= i < |proxies| => StaticRow(proxies[i])) + AllNodes(providers)
  }

  // ----- unique keys ------------------------------------------------------

  /** The n-th key tried: the key itself, then key#2, key#3, ... */
  function Candidate(key: string, n: nat): string {
    if n == 0 then key else key + "#" + Print(n + 1)
  }

  function Tried(key: string, n: nat): (keys: set<string>)
    ensures forall k :: 0 <= k < n ==> Candidate(key, k) in keys
  {
    set k | 0 <= k < n :: Candidate(key, k)
  }

  /** The first candidate that is still free. */
  predicate FirstFree(key: string, used: set<string>, chosen: string, n: nat) {
    && chosen == Candidate(key, n) && chosen !in used
    && forall k :: 0 <= k < n ==> Candidate(key, k) in used
  }

  lemma CandidatesDiffer(key: string, m: nat, n: nat)
    requires m < n
    ensures Candidate(key, m) != Candidate(key, n)
  {
    if m > 0 {
      var a, b := Candidate(key, m), Candidate(key, n);
      assert a[|key| + 1..] == Print(m + 1) && b[|key| + 1..] == Print(n + 1);
      if a == b {
        PrintInjective(m + 1, n + 1);
      }
    }
  }

  lemma {:induction false} TriedSize(key: string, n: nat)
    ensures |Tried(key, n)| == n
  {
    if n == 0 {
      assert Tried(key, 0) == {};
    } else {
      TriedSize(key, n - 1);
      if k :| 0 <= k < n - 1 && Candidate(key, k) == Candidate(key, n - 1) {
        CandidatesDiffer(key, k, n - 1);
      }
      assert Tried(key, n) == Tried(key, n - 1) + {Candidate(key, n - 1)};
    }
  }

  /** Pigeonhole: no more candidates can be taken than there are used keys. */
  lemma Pigeonhole(key: string, used: set<string>, n: nat)
    requires forall k :: 0 <= k < n ==> Candidate(key, k) in used
    ensures n <= |used|
  {
    TriedSize(key, n);
    SubsetSize(Tried(key, n), used);
  }

  predicate DistinctKeys(rows: seq<Row>) {
    forall i, j :: 0 <= i < j < |rows| ==> rows[i].key != rows[j].key
  }

  function KeysOf(rows: seq<Row>): set<string> { set i | 0 <= i < |rows| :: rows[i].key }

  lemma AppendKey(rows: seq<Row>, row: Row)
    requires DistinctKeys(rows) && row.key !in KeysOf(rows)
    ensures DistinctKeys(rows + [row]) && KeysOf(rows + [row]) == KeysOf(rows) + {row.key}
  {
    var rs := rows + [row];
    assert rs[|rows|] == row;
    assert forall i :: 0 <= i < |rows| ==> rs[i] == rows[i];
  }

  class Table {
    var used: set<string>
    var rows: seq<Row>

    ghost predicate Valid()
      reads this
    {
      used == KeysOf(rows) && DistinctKeys(rows)
    }

    constructor ()
      ensures Valid() && rows == []
    {
      used, rows := {}, [];
    }

    method Push(row: Row)
      requires Valid()
      modifies this
      ensures Valid()
      ensures |rows| == |old(rows)| + 1 && rows == old(rows) + [rows[|old(rows)|]]
      ensures var added := rows[|old(rows)|];
              && row == added.(key := row.key)
              && exists n :: FirstFree(row.key, old(used), added.key, n)
    {
      var key := row.key;
      var suffix := 2;
      while key in used
        invariant used == old(used) && rows == old(rows)
        invariant suffix >= 2 && key == Candidate(row.key, suffix - 2)
        invariant forall k :: 0 <= k < suffix - 2 ==> Candidate(row.key, k) in used
        decreases |used| + 2 - suffix
      {
        assert forall k :: 0 <= k < suffix - 1 ==> Candidate(row.key, k) in used;
        Pigeonhole(row.key, used, suffix - 1);
        key := row.key + "#" + Print(suffix);
        suffix := suffix + 1;
      }
      assert FirstFree(row.key, used, key, suffix - 2);
      var added := if key == row.key then row else row.(key := key);
      AppendKey(rows, added);
      used := used + {key};
      rows := rows + [added];
    }
  }

  /** rows are the wanted rows in order, each under the first free candidate for its key. */
  ghost predicate Keyed(rows: seq<Row>, wanted: seq<Row>) {
    && |rows| == |wanted|
    && forall i :: 0 <= i < |rows| ==>
         && wanted[i] == rows[i].(key := wanted[i].key)
         && exists n :: FirstFree(wanted[i].key, KeysOf(rows[..i]), rows[i].key, n)
  }

  lemma KeyedExtend(rows: seq<Row>, wanted: seq<Row>, row: Row, added: Row)
    requires Keyed(rows, wanted) && row == added.(key := row.key)
    requires exists n :: FirstFree(row.key, KeysOf(rows), added.key, n)
    ensures Keyed(rows + [added], wanted + [row])
  {
    var rs := rows + [added];
    assert rs[..|rows|] == rows;
    forall i | 0 <= i < |rs|
      ensures exists n :: FirstFree((wanted + [row])[i].key, KeysOf(rs[..i]), rs[i].key, n)
    {
      if i < |rows| {
        assert rs[..i] == rows[..i];
        assert (wanted + [row])[i] == wanted[i];
      } else {
        assert rs[i] == added && (wanted + [row])[i] == row;
      }
    }
  }

  method BuildNodeRows(proxies: seq<Proxy>, providers: seq<Provider>) returns (rows: seq<Row>)
    ensures Keyed(rows, Wanted(proxies, providers))
    ensures DistinctKeys(rows)
  {
    hide FirstFree;
    var table := new Table();
    ghost var wanted: seq<Row> := [];
    for i := 0 to |proxies|
      invariant table.Valid() && fresh(table) && Keyed(table.rows, wanted)
      invariant wanted == seq(i, k requires 0 <= k < i => StaticRow(proxies[k]))
    {
      PushKeyed(table, StaticRow(proxies[i]), wanted);
      wanted := wanted + [StaticRow(proxies[i])];
    }
    ghost var statics := wanted;
    for i := 0 to |providers|
      invariant table.Valid() && fresh(table) && Keyed(table.rows, wanted)
      invariant wanted == statics + AllNodes(providers[..i])
    {
      PushProvider(table, providers[i], wanted);
      wanted := wanted + NodesOf(providers[i]);
      assert providers[..i + 1][..i] == providers[..i];
    }
    assert providers[..|providers|] == providers;
    rows := table.rows;
  }

  method PushProvider(table: Table, p: Provider, ghost wanted: seq<Row>)
    requires table.Valid() && Keyed(table.rows, wanted)
    modifies table
    ensures table.Valid() && Keyed(table.rows, wanted + NodesOf(p))
  {
    hide Keyed;
    assert wanted + NodesOf(p)[..0] == wanted;
    for j := 0 to |p.nodes|
      invariant table.Valid() && Keyed(table.rows, wanted + NodesOf(p)[..j])
    {
      var row := ProviderRow(p.nodes[j], p.name);
      PushKeyed(table, row, wanted + NodesOf(p)[..j]);
      assert wanted + NodesOf(p)[..j] + [row] == wanted + NodesOf(p)[..j + 1];
    }
    assert NodesOf(p)[..|p.nodes|] == NodesOf(p);
  }

  method PushKeyed(table: Table, row: Row, ghost wanted: seq<Row>)
    requires table.Valid() && Keyed(table.rows, wanted)
    modifies table
    ensures table.Valid() && Keyed(table.rows, wanted + [row])
  {
    ghost var rows := table.rows;
    assert table.used == KeysOf(rows);
    table.Push(row);
    assert table.rows == rows + [table.rows[|rows|]];
    KeyedExtend(rows, wanted, row, table.rows[|rows|]);
  }

  /** A row keeps its own key exactly when no earlier row took it. */
  lemma KeyKept(rows: seq<Row>, wanted: seq<Row>, i: nat)
    requires Keyed(rows, wanted) && i < |rows|
    ensures rows[i].key == wanted[i].key <==> wanted[i].key !in KeysOf(rows[..i])
  {
    var n :| FirstFree(wanted[i].key, KeysOf(rows[..i]), rows[i].key, n);
    if n > 0 {
      assert Candidate(wanted[i].key, 0) == wanted[i].key;
      CandidatesDiffer(wanted[i].key, 0, n);
    }
  }

  // ----- the table in plain terms -----------------------------------------

  /** The key itself, or the key with a number from 2 on. */
  predicate Suffixed(key: string, wanted: string, n: nat) {
    key == if n < 2 then wanted else wanted + "#" + Print(n)
  }

  /** The j-th node of provider p, after the proxies and the providers before it. */
  predicate NodeShown(rows: seq<Row>, start: nat, providers: seq<Provider>, p: nat, j: nat)
    requires p < |providers| && j < |providers[p].nodes|
  {
    var i := start + Count(providers[..p]) + j;
    && i < |rows| && rows[i].Provided? && rows[i].node == providers[p].nodes[j] && rows[i].provider == providers[p].name
  }

  ghost predicate NodeKeyed(rows: seq<Row>, start: nat, providers: seq<Provider>, p: nat, j: nat)
    requires p < |providers| && j < |providers[p].nodes|
  {
    var i := start + Count(providers[..p]) + j;
    i < |rows| && exists n :: Suffixed(rows[i].key, "provider:" + providers[p].nodes[j].id, n)
  }

  /** First the static proxies in order, then provider after provider its nodes in order, each under its own prefixed id. */
  lemma RowsShow(rows: seq<Row>, proxies: seq<Proxy>, providers: seq<Provider>)
    requires Keyed(rows, Wanted(proxies, providers))
    ensures |rows| == |proxies| + Count(providers)
    ensures forall i :: 0 <= i < |proxies| ==>
              rows[i].Static? && rows[i].proxy == proxies[i] && exists n :: Suffixed(rows[i].key, "static:" + proxies[i].id, n)
    ensures forall p: nat, j: nat :: p < |providers| && j < |providers[p].nodes| ==>
              NodeShown(rows, |proxies|, providers, p, j) && NodeKeyed(rows, |proxies|, providers, p, j)
  {
    var wanted := Wanted(proxies, providers);
    forall i | 0 <= i < |rows| ensures exists n :: Suffixed(rows[i].key, wanted[i].key, n) { KeyShows(rows, wanted, i); }
    hide Keyed, Suffixed, Wanted, Count;
    SameExceptKeys(rows, wanted);
    WantedSize(proxies, providers);
    forall p: nat, j: nat | p < |providers| && j < |providers[p].nodes|
      ensures NodeShown(rows, |proxies|, providers, p, j) && NodeKeyed(rows, |proxies|, providers, p, j)
    {
      WantedAt(proxies, providers, p, j);
    }
  }

  function Count(providers: seq<Provider>): nat {
    if providers == [] then 0 else Count(providers[..|providers| - 1]) + |providers[|providers| - 1].nodes|
  }

  lemma KeyShows(rows: seq<Row>, wanted: seq<Row>, i: nat)
    requires Keyed(rows, wanted) && i < |rows|
    ensures exists n :: Suffixed(rows[i].key, wanted[i].key, n)
  {
    var n: nat :| FirstFree(wanted[i].key, KeysOf(rows[..i]), rows[i].key, n);
    assert Suffixed(rows[i].key, wanted[i].key, n + 1);
  }

  lemma SameExceptKeys(rows: seq<Row>, wanted: seq<Row>)
    requires Keyed(rows, wanted)
    ensures |rows| == |wanted| && forall i :: 0 <= i < |rows| ==>
              && (rows[i].Static? <==> wanted[i].Static?)
              && (rows[i].Static? ==> rows[i].proxy == wanted[i].proxy)
              && (rows[i].Provided? ==> rows[i].node == wanted[i].node && rows[i].provider == wanted[i].provider)
  {}

  lemma WantedSize(proxies: seq<Proxy>, providers: seq<Provider>)
    ensures |Wanted(proxies, providers)| == |proxies| + Count(providers)
    ensures forall i :: 0 <= i < |proxies| ==> Wanted(proxies, providers)[i] == Static("static:" + proxies[i].id, proxies[i])
  {
    NodesSize(providers);
  }

  lemma WantedAt(proxies: seq<Proxy>, providers: seq<Provider>, p: nat, j: nat)
    requires p < |providers| && j < |providers[p].nodes|
    ensures var i, wanted := |proxies| + Count(providers[..p]) + j, Wanted(proxies, providers);
            i < |wanted| && wanted[i] == Provided("provider:" + providers[p].nodes[j].id, providers[p].nodes[j], providers[p].name)
  {
    NodeAt(providers, p, j);
    hide AllNodes, Count;
  }

  lemma {:induction false} NodesSize(providers: seq<Provider>)
    ensures |AllNodes(providers)| == Count(providers)
  {
    if providers != [] { NodesSize(providers[..|providers| - 1]); }
  }

  lemma {:induction false} NodeAt(providers: seq<Provider>, p: nat, j: nat)
    requires p < |providers| && j < |providers[p].nodes|
    ensures |AllNodes(providers)| == Count(providers) && Count(providers[..p]) + j < Count(providers)
    ensures AllNodes(providers)[Count(providers[..p]) + j] ==
            Provided("provider:" + providers[p].nodes[j].id, providers[p].nodes[j], providers[p].name)
  {
    var n := |providers| - 1;
    NodesSize(providers);
    NodesSize(providers[..n]);
    if p < n {
      NodeAt(providers[..n], p, j);
      assert providers[..n][..p] == providers[..p];
    }
  }
}
