/**
 What one ScanAndEnqueue leaves behind (internal/service/scoring_service.go):
 each owner's rows are exactly its nodes, and no owner disturbs another's.
 */
module ReconcileLaws {
  import opened Prelude
  import opened UtcStamp
  import opened ScoreStore
  import opened Reconcile
  import Dispatch

  // ----- keys -------------------------------------------------------------

  /** The name continues the other one by a slash. */
  predicate Extends(name: string, other: string) { other + "/" <= name }

  predicate Clash(o: Owner, p: Owner) {
    o.FromProvider? && p.FromProvider? && (Extends(o.name, p.name) || Extends(p.name, o.name))
  }

  lemma PrefixesAgree(p: string, q: string, a: string, b: string)
    requires p + "/" + a == q + "/" + b && |p| <= |q|
    ensures Extends(q, p) || (p == q && a == b)
  {
    var s, t := p + "/" + a, q + "/" + b;
    if |p| < |q| {
      assert s[..|p| + 1] == p + "/" && t[..|p| + 1] == q[..|p| + 1];
    } else {
      assert s[..|p|] == p && t[..|q|] == q;
      assert s[|p| + 1..] == a && t[|q| + 1..] == b;
    }
  }

  /** Two nodes share a key only if they are the same node of the same owner, unless the owners' names clash. */
  lemma KeyInjective(o: Owner, a: string, p: Owner, b: string)
    requires !Clash(o, p)
    ensures NewNodeKey(o, a) == NewNodeKey(p, b) <==> o == p && a == b
  {
    var s, t := NewNodeKey(o, a), NewNodeKey(p, b);
    assert s[0] == if o.FromProvider? then 'p' else 's';
    assert t[0] == if p.FromProvider? then 'p' else 's';
    if s == t {
      if o.FromProvider? {
        assert s == "provider/" + (o.name + "/" + a) && t == "provider/" + (p.name + "/" + b);
        assert s[9..] == o.name + "/" + a && t[9..] == p.name + "/" + b;
        if |o.name| <= |p.name| { PrefixesAgree(o.name, p.name, a, b); } else { PrefixesAgree(p.name, o.name, b, a); }
      } else {
        assert s[7..] == a && t[7..] == b;
      }
    }
  }

  lemma SlashesCollide()
    ensures NewNodeKey(FromProvider("a"), "b/c") == NewNodeKey(FromProvider("a/b"), "c")
  {
    assert NewNodeKey(FromProvider("a"), "b/c") == "provider/a/b/c";
    assert NewNodeKey(FromProvider("a/b"), "c") == "provider/a/b/c";
  }

  lemma ExtensionCollides(p: string, q: string)
    requires Extends(q, p)
    ensures exists a, b :: NewNodeKey(FromProvider(p), a) == NewNodeKey(FromProvider(q), b)
  {
    var rest := q[|p| + 1..];
    assert q == p + "/" + rest;
    assert NewNodeKey(FromProvider(p), rest + "/") == "provider/" + p + "/" + rest + "/";
    assert NewNodeKey(FromProvider(q), "") == "provider/" + q + "/";
  }

  /** Two providers can have nodes under one key exactly if one name extends the other by a slash. */
  lemma CollideExactly(p: string, q: string)
    requires p != q
    ensures (exists a, b :: NewNodeKey(FromProvider(p), a) == NewNodeKey(FromProvider(q), b)) <==> Extends(q, p) || Extends(p, q)
  {
    hide NewNodeKey, Extends;
    if Extends(q, p) {
      ExtensionCollides(p, q);
    } else if Extends(p, q) {
      ExtensionCollides(q, p);
      var a, b :| NewNodeKey(FromProvider(q), a) == NewNodeKey(FromProvider(p), b);
      assert NewNodeKey(FromProvider(p), b) == NewNodeKey(FromProvider(q), a);
    } else {
      forall a, b ensures NewNodeKey(FromProvider(p), a) != NewNodeKey(FromProvider(q), b) {
        KeyInjective(FromProvider(p), a, FromProvider(q), b);
      }
    }
  }

  /** CacheName undoes RuntimeName, and answers exactly for the names RuntimeName gives. */
  lemma CacheNameInverts(p: Provider, runtime: string, raw: string)
    ensures p.CacheName(runtime) == Some(raw) <==> runtime == p.RuntimeName(raw)
  {
    if p.CacheName(runtime) == Some(raw) {
      var rest := runtime[|p.prefix|..];
      assert runtime == p.prefix + rest;
      assert rest == raw + rest[|rest| - |p.suffix|..];
    }
    if runtime == p.RuntimeName(raw) {
      assert runtime == p.prefix + (raw + p.suffix);
      assert runtime[|p.prefix|..] == raw + p.suffix;
    }
  }

  predicate ComesFrom(p: Provider, nodes: seq<Node>, n: Node) {
    exists i :: 0 <= i < |nodes| && nodes[i].name != "" && n == Node(p.RuntimeName(nodes[i].name), nodes[i].fingerprint)
  }

  /** A provider's effective nodes are its named cache nodes under their runtime names. */
  lemma {:induction false} EffectiveExactly(p: Provider, nodes: seq<Node>, n: Node)
    ensures n in Effective(p, nodes) <==> ComesFrom(p, nodes, n)
  {
    if nodes != [] {
      var init, last := nodes[..|nodes| - 1], nodes[|nodes| - 1];
      EffectiveExactly(p, init, n);
      assert forall i :: 0 <= i < |init| ==> init[i] == nodes[i];
      if ComesFrom(p, init, n) {
        var i :| 0 <= i < |init| && init[i].name != "" && n == Node(p.RuntimeName(init[i].name), init[i].fingerprint);
        assert nodes[i] == init[i];
      }
    }
  }

  function OwnerOf(r: Row): Owner { if r.source == "provider" then FromProvider(r.provider) else StaticProxies }

  /** Every row sits under the key of its own owner and name. */
  predicate WellKeyed(rows: Table) {
    forall k :: k in rows ==> Filed(rows[k], k)
  }

  predicate Filed(r: Row, k: string) {
    && k == NewNodeKey(OwnerOf(r), r.name)
    && r.source == OwnerOf(r).Source() && r.provider == OwnerOf(r).Provider()
  }

  /** No row belongs to an owner whose keys could be taken for this one's. */
  predicate Clear(rows: Table, o: Owner) {
    forall k :: k in rows ==> !Clash(OwnerOf(rows[k]), o)
  }

  lemma ClearAt(rows: Table, o: Owner, k: string)
    requires Clear(rows, o) && k in rows
    ensures !Clash(OwnerOf(rows[k]), o)
  {}

  lemma NoSelfClash(o: Owner)
    ensures !Clash(o, o)
  {}

  /** The row under a node's key is that node's. */
  lemma KeyTells(rows: Table, o: Owner, name: string)
    requires WellKeyed(rows) && Clear(rows, o) && NewNodeKey(o, name) in rows
    ensures OwnerOf(rows[NewNodeKey(o, name)]) == o && rows[NewNodeKey(o, name)].name == name
  {
    hide NewNodeKey, Clash;
    var r := rows[NewNodeKey(o, name)];
    KeyInjective(OwnerOf(r), r.name, o, name);
  }

  lemma OwnsIsOwner(r: Row, k: string, o: Owner)
    requires Filed(r, k)
    ensures Owns(o, r) <==> OwnerOf(r) == o
  {}

  // ----- one owner --------------------------------------------------------

  predicate Named(ns: seq<Node>, name: string) { exists i :: 0 <= i < |ns| && ns[i].name == name }

  /** The fingerprint of the last node of that name. */
  function LastFingerprint(ns: seq<Node>, name: string): string {
    if ns == [] then ""
    else if ns[|ns| - 1].name == name then ns[|ns| - 1].fingerprint
    else LastFingerprint(ns[..|ns| - 1], name)
  }

  predicate Steady(ns: seq<Node>, name: string, fingerprint: string) {
    forall i :: 0 <= i < |ns| && ns[i].name == name ==> ns[i].fingerprint == fingerprint
  }

  /**
   What the promise asks for one node: an unchanged row is untouched, a changed
   one is pending and due with no attempts and its history kept, a new one is
   pending and due.
   */
  function Settled(rows: Table, o: Owner, ns: seq<Node>, name: string, now: int): Row {
    var key := NewNodeKey(o, name);
    if key !in rows then
      Row(o.Source(), o.Provider(), name, Pending, LastFingerprint(ns, name), Set(now), false, 0, "")
    else if Steady(ns, name, rows[key].fingerprint) then rows[key]
    else rows[key].(status := Pending, fingerprint := LastFingerprint(ns, name), nextDue := Set(now), attempts := 0)
  }

  lemma InitNamed(ns: seq<Node>, name: string)
    requires ns != []
    ensures Named(ns, name) <==> Named(ns[..|ns| - 1], name) || ns[|ns| - 1].name == name
    ensures forall f :: Steady(ns, name, f) <==>
                Steady(ns[..|ns| - 1], name, f) && (ns[|ns| - 1].name == name ==> ns[|ns| - 1].fingerprint == f)
  {
    var init := ns[..|ns| - 1];
    assert forall i :: 0 <= i < |init| ==> init[i] == ns[i];
    if Named(init, name) {
      var i :| 0 <= i < |init| && init[i].name == name;
      assert ns[i].name == name;
    }
    forall f | Steady(ns, name, f) ensures Steady(init, name, f) {
      forall i | 0 <= i < |init| && init[i].name == name ensures init[i].fingerprint == f { assert ns[i].name == name; }
    }
  }

  lemma {:induction false} EnsureAllAt(rows: Table, o: Owner, ns: seq<Node>, now: int, name: string)
    requires WellKeyed(rows) && Clear(rows, o)
    ensures var key := NewNodeKey(o, name); var after := EnsureAll(rows, o, ns, now);
            if Named(ns, name) then key in after && after[key] == Settled(rows, o, ns, name, now)
            else (key in after <==> key in rows) && (key in rows ==> after[key] == rows[key])
  {
    hide NewNodeKey, WellKeyed;
    if ns != [] {
      var init, n := ns[..|ns| - 1], ns[|ns| - 1];
      EnsureAllAt(rows, o, init, now, name);
      InitNamed(ns, name);
      NoSelfClash(o);
      KeyInjective(o, name, o, n.name);
      if NewNodeKey(o, name) in rows { KeyTells(rows, o, name); }
    }
  }

  lemma {:induction false} EnsureAllFrame(rows: Table, o: Owner, ns: seq<Node>, now: int, k: string)
    ensures k in EnsureAll(rows, o, ns, now) ==> k in rows || k in KeysOf(o, ns)
    ensures k !in KeysOf(o, ns) ==>
              (k in EnsureAll(rows, o, ns, now) <==> k in rows) && (k in rows ==> EnsureAll(rows, o, ns, now)[k] == rows[k])
  {
    hide NewNodeKey;
    if ns != [] {
      EnsureAllFrame(rows, o, ns[..|ns| - 1], now, k);
      KeysExtend(o, ns, |ns| - 1);
      assert ns[..|ns|] == ns;
    }
  }

  lemma KeyNamed(o: Owner, ns: seq<Node>, name: string)
    ensures NewNodeKey(o, name) in KeysOf(o, ns) <==> Named(ns, name)
  {
    hide NewNodeKey;
    NoSelfClash(o);
    forall i | 0 <= i < |ns| ensures NewNodeKey(o, ns[i].name) == NewNodeKey(o, name) <==> ns[i].name == name {
      KeyInjective(o, ns[i].name, o, name);
    }
  }

  /** The owner's rows are exactly its nodes, each settled. */
  ghost predicate Matches(before: Table, after: Table, o: Owner, ns: seq<Node>, now: int) {
    && (forall k :: k in after && OwnerOf(after[k]) == o <==> k in KeysOf(o, ns))
    && forall i :: 0 <= i < |ns| ==> after[NewNodeKey(o, ns[i].name)] == Settled(before, o, ns, ns[i].name, now)
  }

  /** The owner's rows are the same in both tables. */
  ghost predicate SameRows(before: Table, after: Table, o: Owner) {
    forall k :: (k in before && OwnerOf(before[k]) == o) || (k in after && OwnerOf(after[k]) == o) ==>
      k in before && k in after && before[k] == after[k]
  }

  lemma SettledFiled(rows: Table, o: Owner, ns: seq<Node>, name: string, now: int)
    requires WellKeyed(rows) && Clear(rows, o)
    ensures Filed(Settled(rows, o, ns, name, now), NewNodeKey(o, name)) && OwnerOf(Settled(rows, o, ns, name, now)) == o
  {
    hide NewNodeKey, WellKeyed;
    if NewNodeKey(o, name) in rows {
      KeyTells(rows, o, name);
      assert Filed(rows[NewNodeKey(o, name)], NewNodeKey(o, name)) by { FiledAt(rows, NewNodeKey(o, name)); }
    }
  }

  lemma FiledAt(rows: Table, k: string)
    requires WellKeyed(rows) && k in rows
    ensures Filed(rows[k], k)
  {}

  /** A row of the table after a section is either one of the owner's nodes, settled, or an untouched row of somebody else. */
  lemma SectionRow(rows: Table, o: Owner, ns: seq<Node>, now: int, k: string)
    requires WellKeyed(rows) && Clear(rows, o)
    ensures var after := Section(rows, o, ns, now);
            if k in KeysOf(o, ns) then
              k in after && Filed(after[k], k) && OwnerOf(after[k]) == o
            else
              && (k in after <==> k in rows && OwnerOf(rows[k]) != o)
              && (k in after ==> after[k] == rows[k] && Filed(after[k], k))
  {
    hide NewNodeKey, WellKeyed, Settled, EnsureAll, Filed;
    var mid := EnsureAll(rows, o, ns, now);
    EnsureAllFrame(rows, o, ns, now, k);
    if k in KeysOf(o, ns) {
      var i :| 0 <= i < |ns| && k == NewNodeKey(o, ns[i].name);
      EnsureAllAt(rows, o, ns, now, ns[i].name);
      KeyNamed(o, ns, ns[i].name);
      SettledFiled(rows, o, ns, ns[i].name, now);
      OwnsIsOwner(mid[k], k, o);
    } else if k in rows {
      FiledAt(rows, k);
      OwnsIsOwner(rows[k], k, o);
    }
  }

  lemma SectionMatches(rows: Table, o: Owner, ns: seq<Node>, now: int)
    requires WellKeyed(rows) && Clear(rows, o)
    ensures WellKeyed(Section(rows, o, ns, now))
    ensures Matches(rows, Section(rows, o, ns, now), o, ns, now)
    ensures forall p :: p != o ==> SameRows(rows, Section(rows, o, ns, now), p)
  {
    var after := Section(rows, o, ns, now);
    hide NewNodeKey, Filed, Settled, EnsureAll, Section, OwnerOf;
    forall k ensures k in after ==> Filed(after[k], k) { SectionRow(rows, o, ns, now, k); }
    forall k ensures k in after && OwnerOf(after[k]) == o <==> k in KeysOf(o, ns) { SectionRow(rows, o, ns, now, k); }
    forall i | 0 <= i < |ns|
      ensures NewNodeKey(o, ns[i].name) in after && after[NewNodeKey(o, ns[i].name)] == Settled(rows, o, ns, ns[i].name, now)
    {
      SectionSettles(rows, o, ns, now, i);
    }
    forall p | p != o ensures SameRows(rows, after, p) { SectionSame(rows, o, ns, now, p); }
  }

  lemma SectionSettles(rows: Table, o: Owner, ns: seq<Node>, now: int, i: nat)
    requires WellKeyed(rows) && Clear(rows, o) && i < |ns|
    ensures NewNodeKey(o, ns[i].name) in Section(rows, o, ns, now)
    ensures Section(rows, o, ns, now)[NewNodeKey(o, ns[i].name)] == Settled(rows, o, ns, ns[i].name, now)
  {
    hide NewNodeKey, Filed, Settled, EnsureAll, OwnerOf, WellKeyed;
    SectionRow(rows, o, ns, now, NewNodeKey(o, ns[i].name));
    EnsureAllAt(rows, o, ns, now, ns[i].name);
  }

  lemma SectionSame(rows: Table, o: Owner, ns: seq<Node>, now: int, p: Owner)
    requires WellKeyed(rows) && Clear(rows, o) && p != o
    ensures SameRows(rows, Section(rows, o, ns, now), p)
  {
    hide NewNodeKey, Settled, EnsureAll, Section, WellKeyed, OwnerOf;
    var after := Section(rows, o, ns, now);
    forall k | (k in rows && OwnerOf(rows[k]) == p) || (k in after && OwnerOf(after[k]) == p)
      ensures k in rows && k in after && rows[k] == after[k]
    {
      SectionRow(rows, o, ns, now, k);
      if k in rows { NotAnothers(rows, o, ns, k); }
    }
  }

  /** A key of the owner's nodes never holds another owner's row. */
  lemma NotAnothers(rows: Table, o: Owner, ns: seq<Node>, k: string)
    requires WellKeyed(rows) && Clear(rows, o) && k in rows
    ensures k in KeysOf(o, ns) ==> OwnerOf(rows[k]) == o
  {
    hide NewNodeKey, WellKeyed, OwnerOf;
    if k in KeysOf(o, ns) {
      var i :| 0 <= i < |ns| && k == NewNodeKey(o, ns[i].name);
      KeyTells(rows, o, ns[i].name);
    }
  }

  // ----- the whole scan ---------------------------------------------------

  lemma SameTransitive(a: Table, b: Table, c: Table, o: Owner)
    requires SameRows(a, b, o) && SameRows(b, c, o)
    ensures SameRows(a, c, o)
  {
    hide OwnerOf;
  }

  lemma MatchesKept(before: Table, mid: Table, after: Table, o: Owner, ns: seq<Node>, now: int)
    requires Matches(before, mid, o, ns, now) && SameRows(mid, after, o)
    ensures Matches(before, after, o, ns, now)
  {
    hide OwnerOf, NewNodeKey, Settled, KeysOf;
    forall i | 0 <= i < |ns|
      ensures NewNodeKey(o, ns[i].name) in after && after[NewNodeKey(o, ns[i].name)] == Settled(before, o, ns, ns[i].name, now)
    {
      KeyAt(o, ns, i);
    }
  }

  lemma KeyAt(o: Owner, ns: seq<Node>, i: nat)
    requires i < |ns|
    ensures NewNodeKey(o, ns[i].name) in KeysOf(o, ns)
  {}

  lemma SettledSame(before: Table, mid: Table, o: Owner, ns: seq<Node>, name: string, now: int)
    requires WellKeyed(before) && WellKeyed(mid) && Clear(before, o) && Clear(mid, o) && SameRows(before, mid, o)
    ensures Settled(before, o, ns, name, now) == Settled(mid, o, ns, name, now)
  {
    hide NewNodeKey, WellKeyed, OwnerOf, Steady;
    if NewNodeKey(o, name) in before { KeyTells(before, o, name); }
    if NewNodeKey(o, name) in mid { KeyTells(mid, o, name); }
  }

  lemma MatchesFrom(before: Table, mid: Table, after: Table, o: Owner, ns: seq<Node>, now: int)
    requires WellKeyed(before) && WellKeyed(mid) && Clear(before, o) && Clear(mid, o)
    requires SameRows(before, mid, o) && Matches(mid, after, o, ns, now)
    ensures Matches(before, after, o, ns, now)
  {
    hide NewNodeKey, WellKeyed, OwnerOf, Settled, KeysOf, SameRows;
    forall i | 0 <= i < |ns|
      ensures NewNodeKey(o, ns[i].name) in after && after[NewNodeKey(o, ns[i].name)] == Settled(before, o, ns, ns[i].name, now)
    {
      KeyAt(o, ns, i);
      SettledSame(before, mid, o, ns, ns[i].name, now);
    }
  }

  /** Draft providers come from one map, so their names differ; keys need that none extends another by a slash. */
  predicate ProperNames(ps: seq<Provider>) {
    forall i, j :: 0 <= i < j < |ps| ==>
      ps[i].name != ps[j].name && !Clash(FromProvider(ps[i].name), FromProvider(ps[j].name))
  }

  /** The same between the draft and what is stored. */
  predicate ClearOfAll(rows: Table, ps: seq<Provider>) {
    forall i :: 0 <= i < |ps| ==> Clear(rows, FromProvider(ps[i].name))
  }

  predicate Scanned(ps: seq<Provider>, disabled: set<string>, o: Owner) {
    o.FromProvider? && exists i :: 0 <= i < |ps| && ps[i].name == o.name && Active(ps[i], disabled)
  }

  function NodesOf(p: Provider): seq<Node>
    requires p.nodes.Some?
  {
    Effective(p, p.nodes.value)
  }

  lemma {:induction false} SectionsMatch(rows: Table, ps: seq<Provider>, disabled: set<string>, now: int)
    requires WellKeyed(rows) && ProperNames(ps) && ClearOfAll(rows, ps)
    ensures WellKeyed(ProviderSections(rows, ps, disabled, now))
    ensures forall o :: !Scanned(ps, disabled, o) ==> SameRows(rows, ProviderSections(rows, ps, disabled, now), o)
    ensures forall i :: 0 <= i < |ps| && Active(ps[i], disabled) ==>
              Matches(rows, ProviderSections(rows, ps, disabled, now), FromProvider(ps[i].name), NodesOf(ps[i]), now)
  {
    hide WellKeyed, Matches, SameRows, Section, Effective, Clear, Clash;
    var after := ProviderSections(rows, ps, disabled, now);
    if ps == [] {
      forall o ensures SameRows(rows, after, o) { SameRefl(rows, o); }
    } else {
      var init, p := ps[..|ps| - 1], ps[|ps| - 1];
      var mid := ProviderSections(rows, init, disabled, now);
      InitClear(rows, ps);
      SectionsMatch(rows, init, disabled, now);
      if Active(p, disabled) {
        StaysClear(rows, mid, ps, disabled);
        SectionMatches(mid, FromProvider(p.name), NodesOf(p), now);
        LastSection(rows, ps, disabled, now, mid, after);
      } else {
        ScannedInit(ps, disabled);
        forall i | 0 <= i < |ps| && Active(ps[i], disabled)
          ensures Matches(rows, after, FromProvider(ps[i].name), NodesOf(ps[i]), now)
        {
          assert init[i] == ps[i];
        }
      }
    }
  }

  lemma InitClear(rows: Table, ps: seq<Provider>)
    requires ps != [] && ProperNames(ps) && ClearOfAll(rows, ps)
    ensures ProperNames(ps[..|ps| - 1]) && ClearOfAll(rows, ps[..|ps| - 1]) && Clear(rows, FromProvider(ps[|ps| - 1].name))
  {
    hide Clash, Clear;
    var init := ps[..|ps| - 1];
    assert forall i :: 0 <= i < |init| ==> init[i] == ps[i];
  }

  /** The sections before a provider's own bring in no row its keys could be taken for. */
  lemma StaysClear(rows: Table, mid: Table, ps: seq<Provider>, disabled: set<string>)
    requires ps != [] && ProperNames(ps) && Clear(rows, FromProvider(ps[|ps| - 1].name))
    requires forall o :: !Scanned(ps[..|ps| - 1], disabled, o) ==> SameRows(rows, mid, o)
    ensures Clear(mid, FromProvider(ps[|ps| - 1].name))
  {
    hide Clash, Scanned, OwnerOf;
    var init, o := ps[..|ps| - 1], FromProvider(ps[|ps| - 1].name);
    forall k | k in mid ensures !Clash(OwnerOf(mid[k]), o) {
      var q := OwnerOf(mid[k]);
      if Scanned(init, disabled, q) {
        var i := ScannedAt(init, disabled, q);
        assert init[i] == ps[i];
      } else {
        assert SameRows(rows, mid, q);
        ClearAt(rows, o, k);
      }
    }
  }

  lemma ScannedAt(ps: seq<Provider>, disabled: set<string>, o: Owner) returns (i: nat)
    requires Scanned(ps, disabled, o)
    ensures i < |ps| && FromProvider(ps[i].name) == o
  {
    i :| 0 <= i < |ps| && ps[i].name == o.name && Active(ps[i], disabled);
  }

  lemma SameRefl(rows: Table, o: Owner)
    ensures SameRows(rows, rows, o)
  {}

  lemma ScannedInit(ps: seq<Provider>, disabled: set<string>)
    requires ps != []
    ensures forall o :: Scanned(ps, disabled, o) <==>
              Scanned(ps[..|ps| - 1], disabled, o) || (o == FromProvider(ps[|ps| - 1].name) && Active(ps[|ps| - 1], disabled))
  {
    var init := ps[..|ps| - 1];
    assert forall i :: 0 <= i < |init| ==> init[i] == ps[i];
    forall o | Scanned(init, disabled, o) ensures Scanned(ps, disabled, o) {
      var i :| 0 <= i < |init| && init[i].name == o.name && Active(init[i], disabled);
      assert ps[i] == init[i];
    }
    forall o | Scanned(ps, disabled, o) && o != FromProvider(ps[|ps| - 1].name) ensures Scanned(init, disabled, o) {
      var i :| 0 <= i < |ps| && ps[i].name == o.name && Active(ps[i], disabled);
      assert init[i] == ps[i];
    }
  }

  lemma LastSection(rows: Table, ps: seq<Provider>, disabled: set<string>, now: int, mid: Table, after: Table)
    requires ps != [] && Active(ps[|ps| - 1], disabled) && ProperNames(ps) && WellKeyed(rows) && WellKeyed(mid)
    requires Clear(rows, FromProvider(ps[|ps| - 1].name)) && Clear(mid, FromProvider(ps[|ps| - 1].name))
    requires forall o :: !Scanned(ps[..|ps| - 1], disabled, o) ==> SameRows(rows, mid, o)
    requires forall i :: 0 <= i < |ps| - 1 && Active(ps[i], disabled) ==>
               Matches(rows, mid, FromProvider(ps[i].name), NodesOf(ps[i]), now)
    requires forall o :: o != FromProvider(ps[|ps| - 1].name) ==> SameRows(mid, after, o)
    requires Matches(mid, after, FromProvider(ps[|ps| - 1].name), NodesOf(ps[|ps| - 1]), now)
    ensures forall o :: !Scanned(ps, disabled, o) ==> SameRows(rows, after, o)
    ensures forall i :: 0 <= i < |ps| && Active(ps[i], disabled) ==>
              Matches(rows, after, FromProvider(ps[i].name), NodesOf(ps[i]), now)
  {
    hide WellKeyed, Matches, SameRows, NodesOf, Scanned, Clear;
    var p := ps[|ps| - 1];
    ScannedInit(ps, disabled);
    forall o | !Scanned(ps, disabled, o) ensures SameRows(rows, after, o) { SameTransitive(rows, mid, after, o); }
    forall i | 0 <= i < |ps| && Active(ps[i], disabled)
      ensures Matches(rows, after, FromProvider(ps[i].name), NodesOf(ps[i]), now)
    {
      if i < |ps| - 1 {
        MatchesKept(rows, mid, after, FromProvider(ps[i].name), NodesOf(ps[i]), now);
      } else {
        NotScannedBefore(ps, disabled);
        MatchesFrom(rows, mid, after, FromProvider(p.name), NodesOf(p), now);
      }
    }
  }

  lemma NotScannedBefore(ps: seq<Provider>, disabled: set<string>)
    requires ps != [] && ProperNames(ps)
    ensures !Scanned(ps[..|ps| - 1], disabled, FromProvider(ps[|ps| - 1].name))
  {
    var init := ps[..|ps| - 1];
    assert forall i :: 0 <= i < |init| ==> init[i] == ps[i];
  }

  predicate Alive(ps: seq<Provider>, o: Owner) { o.FromProvider? ==> o.name in Names(ps) }

  lemma PruneDeadSlices(rows: Table, ps: seq<Provider>)
    requires WellKeyed(rows)
    ensures WellKeyed(PruneDead(rows, Names(ps)))
    ensures forall o :: Alive(ps, o) ==> SameRows(rows, PruneDead(rows, Names(ps)), o)
    ensures forall k :: k in PruneDead(rows, Names(ps)) ==> Alive(ps, OwnerOf(PruneDead(rows, Names(ps))[k]))
  {
    hide NewNodeKey, Names;
  }

  lemma ScanSections(rows: Table, statics: seq<Node>, ps: seq<Provider>, disabled: set<string>, now: int)
    requires WellKeyed(rows) && ProperNames(ps) && ClearOfAll(rows, ps)
    ensures var after := Scan(rows, statics, ps, disabled, now);
            && WellKeyed(after)
            && Matches(rows, after, StaticProxies, statics, now)
            && (forall i :: 0 <= i < |ps| && Active(ps[i], disabled) ==>
                  Matches(rows, after, FromProvider(ps[i].name), NodesOf(ps[i]), now))
            && (forall i :: 0 <= i < |ps| && !Active(ps[i], disabled) ==> SameRows(rows, after, FromProvider(ps[i].name)))
            && forall k :: k in after ==> Alive(ps, OwnerOf(after[k]))
  {
    hide WellKeyed, Matches, SameRows, Section, NodesOf, ProviderSections, PruneDead, OwnerOf, Names, Clear, Clash;
    var first := Section(rows, StaticProxies, statics, now);
    var second := ProviderSections(first, ps, disabled, now);
    var after := PruneDead(second, Names(ps));
    StaticClear(rows);
    SectionMatches(rows, StaticProxies, statics, now);
    FirstClear(rows, first, ps);
    SectionsMatch(first, ps, disabled, now);
    PruneDeadSlices(second, ps);
    assert SameRows(first, second, StaticProxies) && SameRows(second, after, StaticProxies);
    MatchesKept(rows, first, second, StaticProxies, statics, now);
    MatchesKept(rows, second, after, StaticProxies, statics, now);
    forall i | 0 <= i < |ps| && Active(ps[i], disabled)
      ensures Matches(rows, after, FromProvider(ps[i].name), NodesOf(ps[i]), now)
    {
      var o := FromProvider(ps[i].name);
      NameAt(ps, i);
      MatchesFrom(rows, first, second, o, NodesOf(ps[i]), now);
      MatchesKept(rows, second, after, o, NodesOf(ps[i]), now);
    }
    forall i | 0 <= i < |ps| && !Active(ps[i], disabled) ensures SameRows(rows, after, FromProvider(ps[i].name)) {
      var o := FromProvider(ps[i].name);
      NameAt(ps, i);
      InactiveNotScanned(ps, disabled, i);
      SameTransitive(rows, first, second, o);
      SameTransitive(rows, second, after, o);
    }
  }

  /** The owner's rows are one per node name of its list, each settled by the nodes of that name. */
  ghost predicate Reconciled(before: Table, after: Table, o: Owner, ns: seq<Node>, now: int) {
    && (forall k :: k in after && OwnerOf(after[k]) == o <==> exists i :: 0 <= i < |ns| && k == NewNodeKey(o, ns[i].name))
    && forall i :: 0 <= i < |ns| ==>
         var key := NewNodeKey(o, ns[i].name);
         key in after && after[key] == Settled(before, o, ns, ns[i].name, now)
  }

  lemma MatchesReconciled(before: Table, after: Table, o: Owner, ns: seq<Node>, now: int)
    requires Matches(before, after, o, ns, now)
    ensures Reconciled(before, after, o, ns, now)
  {
    hide NewNodeKey, OwnerOf, Settled;
    forall i | 0 <= i < |ns| ensures NewNodeKey(o, ns[i].name) in KeysOf(o, ns) {}
  }

  /**
   The promise of a scan, with no store errors: the static rows are exactly the
   static proxies; each readable provider that is not paused has exactly its
   effective nodes; a paused or unreadable provider of the draft keeps its rows
   as they were; a provider outside the draft has none. And each row kept is
   settled: untouched if unchanged, else pending, due, no attempts, history kept.
   */
  lemma ScanReconciles(rows: Table, statics: seq<Node>, ps: seq<Provider>, disabled: set<string>, now: int)
    requires WellKeyed(rows) && ProperNames(ps) && ClearOfAll(rows, ps)
    ensures var after := Scan(rows, statics, ps, disabled, now);
            && WellKeyed(after)
            && Reconciled(rows, after, StaticProxies, statics, now)
            && (forall i :: 0 <= i < |ps| && ps[i].name !in disabled && ps[i].nodes.Some? ==>
                  Reconciled(rows, after, FromProvider(ps[i].name), Effective(ps[i], ps[i].nodes.value), now))
            && (forall i :: 0 <= i < |ps| && (ps[i].name in disabled || ps[i].nodes.None?) ==>
                  SameRows(rows, after, FromProvider(ps[i].name)))
            && forall k :: k in after && after[k].source == "provider" ==>
                 exists i :: 0 <= i < |ps| && ps[i].name == after[k].provider
  {
    hide WellKeyed, Matches, Reconciled, SameRows, Scan, Effective, Clear, Clash;
    var after := Scan(rows, statics, ps, disabled, now);
    ScanSections(rows, statics, ps, disabled, now);
    MatchesReconciled(rows, after, StaticProxies, statics, now);
    forall i | 0 <= i < |ps| && Active(ps[i], disabled)
      ensures Reconciled(rows, after, FromProvider(ps[i].name), Effective(ps[i], ps[i].nodes.value), now)
    {
      MatchesReconciled(rows, after, FromProvider(ps[i].name), NodesOf(ps[i]), now);
    }
    forall k | k in after && after[k].source == "provider" ensures exists i :: 0 <= i < |ps| && ps[i].name == after[k].provider {
      assert Alive(ps, OwnerOf(after[k]));
    }
  }

  lemma StaticClear(rows: Table)
    ensures Clear(rows, StaticProxies)
  {}

  lemma FirstClear(rows: Table, first: Table, ps: seq<Provider>)
    requires ClearOfAll(rows, ps) && forall p :: p != StaticProxies ==> SameRows(rows, first, p)
    ensures ClearOfAll(first, ps)
  {
    hide OwnerOf;
    forall i | 0 <= i < |ps| ensures Clear(first, FromProvider(ps[i].name)) {
      forall k | k in first ensures !Clash(OwnerOf(first[k]), FromProvider(ps[i].name)) {
        var q := OwnerOf(first[k]);
        if q.FromProvider? {
          assert SameRows(rows, first, q);
          ClearAt(rows, FromProvider(ps[i].name), k);
        }
      }
    }
  }

  /** After a scan every row belongs to the draft, so the draft's own names decide. */
  lemma AfterClear(after: Table, ps: seq<Provider>)
    requires ProperNames(ps) && forall k :: k in after ==> Alive(ps, OwnerOf(after[k]))
    ensures ClearOfAll(after, ps)
  {
    hide OwnerOf;
    forall i | 0 <= i < |ps| ensures Clear(after, FromProvider(ps[i].name)) {
      forall k | k in after ensures !Clash(OwnerOf(after[k]), FromProvider(ps[i].name)) {
        assert Alive(ps, OwnerOf(after[k]));
      }
    }
  }

  lemma NameAt(ps: seq<Provider>, i: nat)
    requires i < |ps|
    ensures ps[i].name in Names(ps)
  {}

  lemma InactiveNotScanned(ps: seq<Provider>, disabled: set<string>, i: nat)
    requires i < |ps| && ProperNames(ps) && !Active(ps[i], disabled)
    ensures !Scanned(ps, disabled, FromProvider(ps[i].name))
  {}

  // ----- a second scan ----------------------------------------------------

  /** Nodes that share a name agree on their fingerprint. */
  predicate Agreeing(ns: seq<Node>) {
    forall i, j :: 0 <= i < |ns| && 0 <= j < |ns| && ns[i].name == ns[j].name ==> ns[i].fingerprint == ns[j].fingerprint
  }

  lemma {:induction false} LastIsSome(ns: seq<Node>, name: string)
    requires Named(ns, name)
    ensures exists i :: 0 <= i < |ns| && ns[i].name == name && ns[i].fingerprint == LastFingerprint(ns, name)
  {
    if ns[|ns| - 1].name != name {
      var init := ns[..|ns| - 1];
      InitNamed(ns, name);
      LastIsSome(init, name);
      var i :| 0 <= i < |init| && init[i].name == name && init[i].fingerprint == LastFingerprint(init, name);
      assert ns[i] == init[i];
    }
  }

  lemma SettledAgain(before: Table, after: Table, o: Owner, ns: seq<Node>, name: string, now: int, later: int)
    requires WellKeyed(before) && Clear(before, o) && Named(ns, name) && later != now
    requires NewNodeKey(o, name) in after && after[NewNodeKey(o, name)] == Settled(before, o, ns, name, now)
    ensures Settled(after, o, ns, name, later) == after[NewNodeKey(o, name)] <==> Steady(ns, name, LastFingerprint(ns, name))
  {
    hide NewNodeKey, WellKeyed;
    LastIsSome(ns, name);
  }

  lemma AgreeingIsSteady(ns: seq<Node>)
    ensures Agreeing(ns) <==> forall i :: 0 <= i < |ns| ==> Steady(ns, ns[i].name, LastFingerprint(ns, ns[i].name))
  {
    forall i | 0 <= i < |ns| && Agreeing(ns) ensures Steady(ns, ns[i].name, LastFingerprint(ns, ns[i].name)) {
      LastIsSome(ns, ns[i].name);
    }
  }

  /**
   Scanning the same nodes again later changes nothing exactly when no two of
   them share a name with different fingerprints; otherwise such a node is put
   back in the queue by every scan.
   */
  lemma SectionQuiet(before: Table, after: Table, again: Table, o: Owner, ns: seq<Node>, now: int, later: int)
    requires WellKeyed(before) && WellKeyed(after) && Clear(before, o) && Clear(after, o) && now != later
    requires Matches(before, after, o, ns, now) && Matches(after, again, o, ns, later)
    ensures SameRows(after, again, o) <==> Agreeing(ns)
  {
    hide WellKeyed, Settled, Agreeing, Steady;
    AgreeingIsSteady(ns);
    forall i | 0 <= i < |ns|
      ensures NewNodeKey(o, ns[i].name) in KeysOf(o, ns)
      ensures again[NewNodeKey(o, ns[i].name)] == after[NewNodeKey(o, ns[i].name)] <==>
              Steady(ns, ns[i].name, LastFingerprint(ns, ns[i].name))
    {
      KeyAt(o, ns, i);
      assert Named(ns, ns[i].name);
      SettledAgain(before, after, o, ns, ns[i].name, now, later);
    }
    QuietRows(after, again, o, ns);
  }

  lemma QuietRows(after: Table, again: Table, o: Owner, ns: seq<Node>)
    requires forall k :: k in after && OwnerOf(after[k]) == o <==> k in KeysOf(o, ns)
    requires forall k :: k in again && OwnerOf(again[k]) == o <==> k in KeysOf(o, ns)
    ensures SameRows(after, again, o) <==>
            forall i :: 0 <= i < |ns| ==> after[NewNodeKey(o, ns[i].name)] == again[NewNodeKey(o, ns[i].name)]
  {
    hide OwnerOf, NewNodeKey;
    forall i | 0 <= i < |ns| ensures NewNodeKey(o, ns[i].name) in KeysOf(o, ns) {}
  }

  predicate AllAgreeing(statics: seq<Node>, ps: seq<Provider>, disabled: set<string>) {
    && Agreeing(statics)
    && forall i :: 0 <= i < |ps| && ps[i].name !in disabled && ps[i].nodes.Some? ==> Agreeing(Effective(ps[i], ps[i].nodes.value))
  }

  lemma RescanQuiet(rows: Table, statics: seq<Node>, ps: seq<Provider>, disabled: set<string>, now: int, later: int)
    requires WellKeyed(rows) && ProperNames(ps) && ClearOfAll(rows, ps) && now != later
    ensures var after := Scan(rows, statics, ps, disabled, now);
            Scan(after, statics, ps, disabled, later) == after <==> AllAgreeing(statics, ps, disabled)
  {
    var after := Scan(rows, statics, ps, disabled, now);
    var again := Scan(after, statics, ps, disabled, later);
    hide WellKeyed, Matches, Scan, Agreeing, Effective, SameRows, Alive, OwnerOf, Clear, Clash;
    ScanSections(rows, statics, ps, disabled, now);
    AfterClear(after, ps);
    StaticClear(rows);
    StaticClear(after);
    ScanSections(after, statics, ps, disabled, later);
    SectionQuiet(rows, after, again, StaticProxies, statics, now, later);
    forall i | 0 <= i < |ps| && Active(ps[i], disabled)
      ensures SameRows(after, again, FromProvider(ps[i].name)) <==> Agreeing(NodesOf(ps[i]))
    {
      SectionQuiet(rows, after, again, FromProvider(ps[i].name), NodesOf(ps[i]), now, later);
    }
    SameEverywhere(after, again, ps);
  }

  const TWINS: Provider := Provider("p", "", "", Some([Node("n", "1"), Node("n", "2")]))

  lemma TwinsDisagree()
    ensures TWINS.nodes.Some? && !Agreeing(NodesOf(TWINS))
  {
    var one, both := [Node("n", "1")], TWINS.nodes.value;
    assert both[..1] == one && one[..0] == [];
    assert TWINS.RuntimeName("n") == "n";
    assert Effective(TWINS, one) == one;
    assert NodesOf(TWINS) == both;
    assert both[0].name == both[1].name && both[0].fingerprint != both[1].fingerprint;
  }

  /** One cached name with two configurations is enough: from an empty table on, each scan re-queues the node. */
  lemma TwinsRequeued(now: int, later: int)
    requires now != later
    ensures var after := Scan(map[], [], [TWINS], {}, now); Scan(after, [], [TWINS], {}, later) != after
  {
    hide Scan, Agreeing, Effective, Clash;
    TwinsDisagree();
    RescanQuiet(map[], [], [TWINS], {}, now, later);
    assert Active([TWINS][0], {});
  }

  lemma SameEverywhere(a: Table, b: Table, ps: seq<Provider>)
    requires forall k :: k in a ==> Alive(ps, OwnerOf(a[k]))
    requires forall k :: k in b ==> Alive(ps, OwnerOf(b[k]))
    ensures a == b <==>
            SameRows(a, b, StaticProxies) && forall i :: 0 <= i < |ps| ==> SameRows(a, b, FromProvider(ps[i].name))
  {
    if SameRows(a, b, StaticProxies) && forall i :: 0 <= i < |ps| ==> SameRows(a, b, FromProvider(ps[i].name)) {
      forall k ensures k in a <==> k in b ensures k in a ==> a[k] == b[k] {
        if k in a { AliveSame(a, b, ps, OwnerOf(a[k])); }
        if k in b { AliveSame(a, b, ps, OwnerOf(b[k])); }
      }
    }
  }

  lemma AliveSame(a: Table, b: Table, ps: seq<Provider>, o: Owner)
    requires SameRows(a, b, StaticProxies) && forall i :: 0 <= i < |ps| ==> SameRows(a, b, FromProvider(ps[i].name))
    requires Alive(ps, o)
    ensures SameRows(a, b, o)
  {
    hide SameRows;
    if o.FromProvider? {
      var i :| 0 <= i < |ps| && ps[i].name == o.name;
      assert SameRows(a, b, FromProvider(ps[i].name));
    }
  }

  // ----- alongside the queue ----------------------------------------------

  /** The other writers of the table leave every row under its own key, stale write-backs of workers included. */
  lemma WellKeyedKept(rows: Table, o: Owner, n: Node, k: string, row: Row, result: Result, now: int)
    requires WellKeyed(rows) && Clear(rows, o)
    ensures WellKeyed(Ensure(rows, o, n, now)) && WellKeyed(AfterReset(rows, now)) && WellKeyed(rows - {k})
    ensures Claimable(rows, k) ==> WellKeyed(Claimed(rows, k))
    ensures Filed(row, k) ==> WellKeyed(rows[k := Finish(row, result, now)])
  {
    hide NewNodeKey;
    if NewNodeKey(o, n.name) in rows { KeyTells(rows, o, n.name); }
  }

  lemma {:induction false} EnsureAllStamps(rows: Table, o: Owner, ns: seq<Node>, now: int, k: string)
    requires k in EnsureAll(rows, o, ns, now)
    ensures var r := EnsureAll(rows, o, ns, now)[k]; (k in rows && r == rows[k]) || r.nextDue == Set(now)
  {
    hide NewNodeKey;
    if ns != [] && k in EnsureAll(rows, o, ns[..|ns| - 1], now) { EnsureAllStamps(rows, o, ns[..|ns| - 1], now, k); }
  }

  lemma {:induction false} SectionsStamp(rows: Table, ps: seq<Provider>, disabled: set<string>, now: int, k: string)
    requires k in ProviderSections(rows, ps, disabled, now)
    ensures var r := ProviderSections(rows, ps, disabled, now)[k]; (k in rows && r == rows[k]) || r.nextDue == Set(now)
  {
    hide NewNodeKey, EnsureAll, Effective;
    if ps != [] {
      var before, p := ProviderSections(rows, ps[..|ps| - 1], disabled, now), ps[|ps| - 1];
      if Active(p, disabled) {
        EnsureAllStamps(before, FromProvider(p.name), Effective(p, p.nodes.value), now, k);
      }
      if k in before { SectionsStamp(rows, ps[..|ps| - 1], disabled, now, k); }
    }
  }

  /**
   A scan stamped after the instant a dispatch has captured makes no row due for
   that dispatch: it is one of the rewrites the dispatch terminates under.
   */
  lemma ScanIsFair(s: Dispatch.State, statics: seq<Node>, ps: seq<Provider>, disabled: set<string>, now: int)
    requires s.now < now && now >= DAY * 400
    ensures Dispatch.Fair(s, Dispatch.Rewrite(Scan(s.rows, statics, ps, disabled, now)))
  {
    var first := Section(s.rows, StaticProxies, statics, now);
    var after := Scan(s.rows, statics, ps, disabled, now);
    hide EnsureAll, ProviderSections, NullTime.IsZero, Wanted;
    NotDueYet(s, now);
    forall k | k in after && Eligible(after[k], s.now, s.paused)
      ensures k in s.rows && Eligible(s.rows[k], s.now, s.paused)
    {
      SectionsStamp(first, ps, disabled, now, k);
      if k in first { EnsureAllStamps(s.rows, StaticProxies, statics, now, k); }
    }
  }

  lemma NotDueYet(s: Dispatch.State, now: int)
    requires s.now < now && now >= DAY * 400
    ensures forall r: Row :: r.nextDue == Set(now) ==> !Eligible(r, s.now, s.paused)
  {
    ZeroTimeEarly();
  }
}
