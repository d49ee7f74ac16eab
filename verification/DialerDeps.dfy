/**
 The topology of one proxy (ResolveDialerDeps in internal/service/egress.go):
 the proxy, its dialer-proxy chain and the groups involved, collected by two
 mutually recursive closures, one of which gives up below depth 32.
 */
module DialerDeps {
  import Decimal
  import opened Prelude

  const MAX_DEPTH := 32

  datatype Group = Group(members: seq<string>, use: bool)

  /** proxyByName (a proxy's dialer-proxy, "" for none) and groupByName. */
  datatype Inventory = Inventory(proxies: map<string, string>, groups: map<string, Group>) {
    function Names(): set<string> { proxies.Keys + groups.Keys }

    predicate Disjoint() { proxies.Keys !! groups.Keys }

    /** What an entity pulls in: a proxy its dialer, a group its members. */
    predicate Edge(u: string, v: string) {
      && v in Names()
      && (|| (u in proxies && proxies[u] == v && v != "")
          || (u in groups && v in groups[u].members))
    }

    ghost predicate Reaches(u: string, v: string) {
      exists p: seq<string> :: Path(p) && p[0] == u && p[|p| - 1] == v
    }

    predicate Path(p: seq<string>) {
      |p| > 0 && (forall i :: 0 <= i < |p| ==> p[i] in Names()) && forall i :: 0 <= i < |p| - 1 ==> Edge(p[i], p[i + 1])
    }
  }

  /** The entities added so far, and the topology in the order it is emitted. */
  datatype State = State(added: set<string>, nodes: seq<string>, groups: seq<string>)

  /** How a closure returns: nil, or the error naming a group that cannot be used. */
  datatype Status = OK | Unusable(group: string)

  datatype Outcome = Done(state: State) | UsesProvider(group: string)

  // ----- the closures as functions ---------------------------------------

  function AddProxy(inv: Inventory, name: string, depth: nat, st: State): (r: Outcome)
    ensures r.Done? ==> st.added <= r.state.added
    decreases inv.Names() - st.added, 2, 0
  {
    if depth > MAX_DEPTH || name in st.added then Done(st)
    else if name in inv.proxies then
      var st' := State(st.added + {name}, st.nodes + [name], st.groups);
      var dialer := inv.proxies[name];
      if dialer == "" then Done(st')
      else if dialer in inv.groups then AddGroup(inv, dialer, depth + 1, st')
      else AddProxy(inv, dialer, depth + 1, st')
    else if name in inv.groups then AddGroup(inv, name, depth + 1, st)
    else Done(st)
  }

  function AddGroup(inv: Inventory, name: string, depth: nat, st: State): (r: Outcome)
    ensures r.Done? ==> st.added <= r.state.added
    decreases inv.Names() - st.added, 1, 0
  {
    if name in st.added || name !in inv.groups then Done(st)
    else if inv.groups[name].use then UsesProvider(name)
    else
      var r := AddMembers(inv, inv.groups[name].members, depth + 1, st.(added := st.added + {name}));
      if r.Done? then Done(r.state.(groups := r.state.groups + [name])) else r
  }

  function AddMembers(inv: Inventory, members: seq<string>, depth: nat, st: State): (r: Outcome)
    ensures r.Done? ==> st.added <= r.state.added
    decreases inv.Names() - st.added, 3, |members|
  {
    if members == [] then Done(st)
    else
      var r := AddMember(inv, members[0], depth, st);
      if r.UsesProvider? then r else AddMembers(inv, members[1..], depth, r.state)
  }

  function AddMember(inv: Inventory, m: string, depth: nat, st: State): (r: Outcome)
    ensures r.Done? ==> st.added <= r.state.added
    decreases inv.Names() - st.added, 2, 1
  {
    if m in inv.proxies then AddProxy(inv, m, depth, st)
    else if m in inv.groups then AddGroup(inv, m, depth, st)
    else Done(st)
  }

  datatype Resolution = Topology(nodes: seq<string>, groups: seq<string>) | NotUsable(group: string) | NotFound

  function Resolve(inv: Inventory, target: string): Resolution {
    var r := AddProxy(inv, target, 0, State({}, [], []));
    if r.UsesProvider? then NotUsable(r.group)
    else if r.state.nodes == [] && r.state.groups == [] then NotFound
    else Topology(r.state.nodes, r.state.groups)
  }

  // ----- the code: closures that update the shared state ------------------

  class Resolver {
    const inv: Inventory
    var added: set<string>
    var nodes: seq<string>
    var groups: seq<string>

    ghost function Abs(): State
      reads this
    {
      State(added, nodes, groups)
    }

    constructor (inv: Inventory)
      ensures this.inv == inv && Abs() == State({}, [], [])
    {
      this.inv := inv;
      added, nodes, groups := {}, [], [];
    }

    method Proxy(name: string, depth: nat) returns (err: Status)
      modifies this
      ensures var r := AddProxy(inv, name, depth, old(Abs()));
              if r.Done? then err == OK && Abs() == r.state else err == Unusable(r.group)
      decreases inv.Names() - added, 2, 0
    {
      err := OK;
      if depth > MAX_DEPTH || name in added { return; }
      if name in inv.proxies {
        added := added + {name};
        nodes := nodes + [name];
        var dialer := inv.proxies[name];
        if dialer != "" {
          if dialer in inv.groups {
            err := Group(dialer, depth + 1);
          } else {
            err := Proxy(dialer, depth + 1);
          }
        }
        return;
      }
      if name in inv.groups {
        err := Group(name, depth + 1);
      }
    }

    method Group(name: string, depth: nat) returns (err: Status)
      modifies this
      ensures var r := AddGroup(inv, name, depth, old(Abs()));
              if r.Done? then err == OK && Abs() == r.state else err == Unusable(r.group)
      decreases inv.Names() - added, 1, 0
    {
      err := OK;
      if name in added || name !in inv.groups { return; }
      if inv.groups[name].use { return Unusable(name); }
      added := added + {name};
      var members := inv.groups[name].members;
      ghost var entry := Abs();
      var k := 0;
      while k < |members|
        invariant 0 <= k <= |members| && entry.added <= added
        invariant AddMembers(inv, members, depth + 1, entry) == AddMembers(inv, members[k..], depth + 1, Abs())
      {
        assert members[k..][1..] == members[k + 1..];
        if members[k] in inv.proxies {
          err := Proxy(members[k], depth + 1);
          if err != OK { return; }
        } else if members[k] in inv.groups {
          err := Group(members[k], depth + 1);
          if err != OK { return; }
        }
        k := k + 1;
      }
      groups := groups + [name];
      err := OK;
    }
  }

  method ResolveDialerDeps(inv: Inventory, target: string) returns (r: Resolution)
    ensures r == Resolve(inv, target)
  {
    var topo := new Resolver(inv);
    var err := topo.Proxy(target, 0);
    if err.Unusable? {
      return NotUsable(err.group);
    }
    if |topo.nodes| == 0 && |topo.groups| == 0 {
      return NotFound;
    }
    return Topology(topo.nodes, topo.groups);
  }

  // ----- exactness --------------------------------------------------------

  function SetOf(s: seq<string>): set<string> { set x | x in s }

  predicate Distinct(s: seq<string>) {
    forall i, j :: 0 <= i < j < |s| ==> s[i] != s[j]
  }

  ghost predicate Closed(inv: Inventory, c: set<string>) {
    forall u, v :: u in c && inv.Edge(u, v) ==> v in c
  }

  /** The lists hold added entities only, each once; every added proxy is listed. */
  ghost predicate StateOk(inv: Inventory, st: State) {
    && st.added <= inv.Names()
    && Distinct(st.nodes) && SetOf(st.nodes) == st.added * inv.proxies.Keys
    && Distinct(st.groups) && SetOf(st.groups) <= st.added * inv.groups.Keys
  }

  /** What a completed call adds: usable entities of c, listed, with everything they pull in. */
  ghost predicate Grows(inv: Inventory, c: set<string>, st: State, st': State) {
    var more := st'.added - st.added;
    && StateOk(inv, st') && st.added <= st'.added
    && more <= c
    && SetOf(st'.groups) == SetOf(st.groups) + more * inv.groups.Keys
    && (forall u :: u in more && u in inv.groups ==> !inv.groups[u].use)
    && (forall u, v :: u in more && inv.Edge(u, v) ==> v in st'.added)
  }

  ghost predicate Good(inv: Inventory, c: set<string>, st: State, r: Outcome, wanted: set<string>) {
    match r
    case UsesProvider(g) => g in c && g in inv.groups && inv.groups[g].use
    case Done(st') => Grows(inv, c, st, st') && wanted * inv.Names() <= st'.added
  }

  lemma GrowsTwice(inv: Inventory, c: set<string>, st0: State, st1: State, st2: State)
    requires Grows(inv, c, st0, st1) && Grows(inv, c, st1, st2)
    ensures Grows(inv, c, st0, st2)
  {
    assert st2.added - st0.added == (st2.added - st1.added) + (st1.added - st0.added);
  }

  /** A call that returns at once is good if what it was asked for is there already. */
  lemma NothingToAdd(inv: Inventory, c: set<string>, st: State, wanted: set<string>)
    requires StateOk(inv, st) && wanted * inv.Names() <= st.added
    ensures Good(inv, c, st, Done(st), wanted)
  {
    assert st.added - st.added == {};
  }

  lemma ListOne(s: seq<string>, x: string)
    requires Distinct(s) && x !in SetOf(s)
    ensures Distinct(s + [x]) && SetOf(s + [x]) == SetOf(s) + {x}
  {}

  lemma AddOneProxy(inv: Inventory, st: State, name: string)
    requires inv.Disjoint() && StateOk(inv, st) && name in inv.proxies && name !in st.added
    ensures StateOk(inv, State(st.added + {name}, st.nodes + [name], st.groups))
  {
    ListOne(st.nodes, name);
  }

  lemma AddOneGroup(inv: Inventory, st: State, name: string)
    requires inv.Disjoint() && StateOk(inv, st) && name in inv.groups && name !in st.added
    ensures StateOk(inv, st.(added := st.added + {name}))
  {}

  lemma DepthExhausted(inv: Inventory, name: string, depth: nat, st: State, slack: nat, c: set<string>)
    requires st.added <= c && (name in inv.Names() ==> name in c) && depth > MAX_DEPTH
    requires |c| + slack <= MAX_DEPTH + 1 && depth <= |st.added| + slack
    ensures {name} * inv.Names() <= st.added
  {
    SubsetSize(st.added, c);
  }

  lemma Follow(inv: Inventory, c: set<string>, u: string, v: string)
    requires Closed(inv, c) && u in c
    ensures inv.Edge(u, v) ==> v in c
  {}

  /** With at most 33 entities to reach the depth limit only ever stops calls that had nothing left to add. */
  lemma {:induction false} ProxyGood(inv: Inventory, name: string, depth: nat, st: State, slack: nat, c: set<string>)
    requires inv.Disjoint() && StateOk(inv, st) && Closed(inv, c) && name !in inv.groups
    requires name in inv.Names() ==> name in c
    requires st.added <= c && |c| + slack <= MAX_DEPTH + 1 && depth <= |st.added| + slack
    ensures Good(inv, c, st, AddProxy(inv, name, depth, st), {name})
    decreases inv.Names() - st.added, 2, 0
  {
    hide Good, Distinct, SetOf, StateOk, Closed;
    if depth > MAX_DEPTH {
      DepthExhausted(inv, name, depth, st, slack, c);
      NothingToAdd(inv, c, st, {name});
    } else if name in st.added || name !in inv.proxies {
      NothingToAdd(inv, c, st, {name});
    } else {
      var st' := State(st.added + {name}, st.nodes + [name], st.groups);
      AddOneProxy(inv, st, name);
      var dialer := inv.proxies[name];
      if dialer == "" {
        NothingToAdd(inv, c, st', {});
      } else {
        Follow(inv, c, name, dialer);
        if dialer in inv.groups {
          GroupGood(inv, dialer, depth + 1, st', slack, c);
        } else {
          ProxyGood(inv, dialer, depth + 1, st', slack, c);
        }
      }
      ProxyDone(inv, name, st, AddProxy(inv, name, depth, st), c);
    }
  }

  lemma ProxyDone(inv: Inventory, name: string, st: State, r: Outcome, c: set<string>)
    requires inv.Disjoint() && StateOk(inv, st) && name in c && name in inv.proxies && name !in st.added
    requires Good(inv, c, State(st.added + {name}, st.nodes + [name], st.groups), r,
                  if inv.proxies[name] == "" then {} else {inv.proxies[name]})
    ensures Good(inv, c, st, r, {name})
  {
    hide Distinct, SetOf;
    if r.Done? {
      assert r.state.added - st.added == (r.state.added - (st.added + {name})) + {name};
      assert forall v :: inv.Edge(name, v) ==> v == inv.proxies[name] && v in inv.Names();
    }
  }

  lemma {:induction false} GroupGood(inv: Inventory, name: string, depth: nat, st: State, slack: nat, c: set<string>)
    requires inv.Disjoint() && StateOk(inv, st) && Closed(inv, c) && name in inv.groups && name in c
    requires st.added <= c && |c| + slack <= MAX_DEPTH + 1 && depth <= |st.added| + slack
    ensures Good(inv, c, st, AddGroup(inv, name, depth, st), {name})
    decreases inv.Names() - st.added, 1, 0
  {
    hide Distinct, SetOf;
    if name in st.added {
      NothingToAdd(inv, c, st, {name});
    } else if !inv.groups[name].use {
      var members := inv.groups[name].members;
      AddOneGroup(inv, st, name);
      forall m | m in members && m in inv.Names() ensures m in c {
        assert inv.Edge(name, m);
      }
      MembersGood(inv, members, depth + 1, st.(added := st.added + {name}), slack, c);
      GroupDone(inv, name, st, AddMembers(inv, members, depth + 1, st.(added := st.added + {name})), c);
    }
  }

  lemma GroupDone(inv: Inventory, name: string, st: State, r: Outcome, c: set<string>)
    requires inv.Disjoint() && StateOk(inv, st) && name in c && name in inv.groups && name !in st.added
    requires !inv.groups[name].use
    requires Good(inv, c, st.(added := st.added + {name}), r, SetOf(inv.groups[name].members))
    ensures r.Done? ==> Good(inv, c, st, Done(r.state.(groups := r.state.groups + [name])), {name})
  {
    if r.Done? {
      assert r.state.added - st.added == (r.state.added - (st.added + {name})) + {name};
      assert name !in SetOf(r.state.groups);
      ListOne(r.state.groups, name);
      assert forall v :: inv.Edge(name, v) ==> v in SetOf(inv.groups[name].members) * inv.Names();
    }
  }

  lemma {:induction false} MembersGood(inv: Inventory, members: seq<string>, depth: nat, st: State, slack: nat, c: set<string>)
    requires inv.Disjoint() && StateOk(inv, st) && Closed(inv, c)
    requires forall m :: m in members && m in inv.Names() ==> m in c
    requires st.added <= c && |c| + slack <= MAX_DEPTH + 1 && depth <= |st.added| + slack
    ensures Good(inv, c, st, AddMembers(inv, members, depth, st), SetOf(members))
    decreases inv.Names() - st.added, 3, |members|
  {
    hide Good, Distinct, Inventory.Edge, Closed, Inventory.Disjoint;
    if members == [] {
      NothingToAdd(inv, c, st, SetOf(members));
    } else {
      var m := members[0];
      MemberGood(inv, m, depth, st, slack, c);
      var r := AddMember(inv, m, depth, st);
      if r.Done? {
        GoodState(inv, c, st, r.state, {m});
        SubsetSize(st.added, r.state.added);
        MembersGood(inv, members[1..], depth, r.state, slack, c);
      }
      MembersDone(inv, members, st, r, AddMembers(inv, members, depth, st), c);
    }
  }

  lemma GoodState(inv: Inventory, c: set<string>, st: State, st': State, wanted: set<string>)
    requires Good(inv, c, st, Done(st'), wanted)
    ensures StateOk(inv, st') && st.added <= st'.added && (st.added <= c ==> st'.added <= c)
  {}

  lemma {:induction false} MemberGood(inv: Inventory, m: string, depth: nat, st: State, slack: nat, c: set<string>)
    requires inv.Disjoint() && StateOk(inv, st) && Closed(inv, c)
    requires m in inv.Names() ==> m in c
    requires st.added <= c && |c| + slack <= MAX_DEPTH + 1 && depth <= |st.added| + slack
    ensures Good(inv, c, st, AddMember(inv, m, depth, st), {m})
    decreases inv.Names() - st.added, 2, 1
  {
    hide Good, Distinct, Closed, StateOk;
    if m in inv.proxies {
      ProxyGood(inv, m, depth, st, slack, c);
    } else if m in inv.groups {
      GroupGood(inv, m, depth, st, slack, c);
    } else {
      NothingToAdd(inv, c, st, {m});
    }
  }

  lemma MembersDone(inv: Inventory, members: seq<string>, st: State, r: Outcome, r': Outcome, c: set<string>)
    requires members != [] && Good(inv, c, st, r, {members[0]})
    requires r.Done? ==> Good(inv, c, r.state, r', SetOf(members[1..]))
    requires r.UsesProvider? ==> r' == r
    ensures Good(inv, c, st, r', SetOf(members))
  {
    hide StateOk, Inventory.Edge;
    if r.Done? && r'.Done? {
      GrowsTwice(inv, c, st, r.state, r'.state);
      assert SetOf(members) == {members[0]} + SetOf(members[1..]);
    }
  }

  ghost function Reached(inv: Inventory, target: string): set<string> {
    set v | v in inv.Names() && inv.Reaches(target, v)
  }

  lemma ReachedClosed(inv: Inventory, target: string)
    ensures Closed(inv, Reached(inv, target))
    ensures target in inv.Names() ==> target in Reached(inv, target)
  {
    if target in inv.Names() {
      assert inv.Path([target]);
    }
    forall u, v | u in Reached(inv, target) && inv.Edge(u, v) ensures v in Reached(inv, target) {
      var p :| inv.Path(p) && p[0] == target && p[|p| - 1] == u;
      assert inv.Path(p + [v]);
    }
  }

  lemma {:induction false} PathStaysIn(inv: Inventory, s: set<string>, p: seq<string>)
    requires Closed(inv, s) && inv.Path(p) && p[0] in s
    ensures p[|p| - 1] in s
    decreases |p|
  {
    if |p| > 1 {
      assert inv.Edge(p[0], p[1]);
      PathStaysIn(inv, s, p[1..]);
    }
  }

  lemma ClosedHoldsReached(inv: Inventory, s: set<string>, target: string)
    requires Closed(inv, s) && target in s
    ensures Reached(inv, target) <= s
  {
    forall v | v in Reached(inv, target) ensures v in s {
      var p :| inv.Path(p) && p[0] == target && p[|p| - 1] == v;
      PathStaysIn(inv, s, p);
    }
  }

  /** What ResolveDialerDeps is for: exactly the entities the target reaches, each once, in their own list. */
  ghost predicate Exact(inv: Inventory, target: string) {
    match Resolve(inv, target)
    case NotFound => target !in inv.Names()
    case NotUsable(g) => inv.Reaches(target, g) && g in inv.groups && inv.groups[g].use
    case Topology(nodes, groups) =>
      && target in inv.Names()
      && Distinct(nodes) && SetOf(nodes) == Reached(inv, target) * inv.proxies.Keys
      && Distinct(groups) && SetOf(groups) == Reached(inv, target) * inv.groups.Keys
      && forall g :: g in Reached(inv, target) && g in inv.groups ==> !inv.groups[g].use
  }

  /** A group as target costs one level more, because it is entered through the proxy closure. */
  function Limit(inv: Inventory, target: string): nat {
    if target in inv.groups then MAX_DEPTH else MAX_DEPTH + 1
  }

  lemma ResolveExact(inv: Inventory, target: string)
    requires inv.Disjoint() && |Reached(inv, target)| <= Limit(inv, target)
    ensures Exact(inv, target)
  {
    var st := State({}, [], []);
    var c := Reached(inv, target);
    ReachedClosed(inv, target);
    var r := AddProxy(inv, target, 0, st);
    if target in inv.groups {
      assert r == AddGroup(inv, target, 1, st);
      GroupGood(inv, target, 1, st, 1, c);
    } else {
      ProxyGood(inv, target, 0, st, 0, c);
    }
    ExactFromGood(inv, target, r);
  }

  lemma ExactFromGood(inv: Inventory, target: string, r: Outcome)
    requires inv.Disjoint() && r == AddProxy(inv, target, 0, State({}, [], []))
    requires Good(inv, Reached(inv, target), State({}, [], []), r, {target})
    ensures Exact(inv, target)
  {
    hide AddProxy, Inventory.Reaches;
    if r.Done? {
      var st := r.state;
      assert st.added - {} == st.added;
      var none: seq<string> := [];
      assert SetOf(none) == {};
      if target in inv.Names() {
        assert target in {target} * inv.Names();
        ClosedHoldsReached(inv, st.added, target);
        assert st.added == Reached(inv, target);
        if target in inv.proxies {
          assert target in SetOf(st.nodes);
        } else {
          assert target in SetOf(st.groups);
        }
      } else {
        NothingReached(inv, target);
        EmptyList(st.nodes);
        EmptyList(st.groups);
      }
    }
  }

  lemma EmptyList(s: seq<string>)
    ensures s == [] <==> SetOf(s) == {}
  {
    if s != [] {
      assert s[0] in SetOf(s);
    }
  }

  lemma NothingReached(inv: Inventory, target: string)
    requires target !in inv.Names()
    ensures Reached(inv, target) == {}
  {}

  /** So a topology is refused exactly when some group the target reaches takes a proxy-provider. */
  lemma RefusedExactly(inv: Inventory, target: string)
    requires inv.Disjoint() && |Reached(inv, target)| <= Limit(inv, target)
    ensures Resolve(inv, target).NotUsable? <==>
            exists g :: g in inv.groups && inv.groups[g].use && inv.Reaches(target, g)
  {
    ResolveExact(inv, target);
    if g :| g in inv.groups && inv.groups[g].use && inv.Reaches(target, g) {
      assert g in Reached(inv, target);
      if Resolve(inv, target).NotFound? {
        NothingReached(inv, target);
      }
    }
  }

  // ----- the bound cannot be raised --------------------------------------

  function Link(i: nat): string { Decimal.Print(i) }

  ghost function Links(n: nat): (names: set<string>)
    ensures forall i :: 0 <= i < n ==> Link(i) in names
  {
    set i | 0 <= i < n :: Link(i)
  }

  /** n proxies, each dialing through the next. */
  ghost function Chain(n: nat): Inventory {
    Inventory(map name | name in Links(n) :: Link(IndexOf(name, n) + 1), map[])
  }

  ghost function IndexOf(name: string, n: nat): (i: nat)
    requires name in Links(n)
    ensures i < n && Link(i) == name
  {
    var i :| 0 <= i < n && Link(i) == name;
    i
  }

  /** The same chain behind a group whose only member is its first proxy. */
  ghost function GroupChain(n: nat): Inventory {
    Inventory(Chain(n).proxies, map["g" := Group([Link(0)], false)])
  }

  lemma {:induction false} LinksSize(n: nat)
    ensures |Links(n)| == n
  {
    if n > 0 {
      LinksSize(n - 1);
      LinkFresh(n - 1);
      LinksStep(n - 1);
    } else {
      assert Links(0) == {};
    }
  }

  lemma LinksStep(n: nat)
    ensures Links(n + 1) == Links(n) + {Link(n)}
  {
    hide Decimal.Print;
  }

  lemma LinkFresh(n: nat)
    ensures Link(n) !in Links(n)
  {
    if i :| 0 <= i < n && Link(i) == Link(n) {
      Decimal.PrintInjective(i, n);
    }
  }

  lemma ChainDialer(n: nat, i: nat)
    requires i < n
    ensures Link(i) in Chain(n).proxies && Chain(n).proxies[Link(i)] == Link(i + 1) != ""
  {
    Decimal.PrintInjective(IndexOf(Link(i), n), i);
  }

  /** Walking the chain from link i at the matching depth stops at the limit. */
  lemma {:induction false} ChainStops(inv: Inventory, n: nat, i: nat, depth: nat, st: State)
    requires inv.proxies == Chain(n).proxies && (forall k: nat :: Link(k) !in inv.groups)
    requires i <= n && i <= depth && MAX_DEPTH + 1 <= n + (depth - i)
    requires st.added * Links(n) == Links(i) && SetOf(st.nodes) <= st.added && depth <= MAX_DEPTH + 1
    ensures var r := AddProxy(inv, Link(i), depth, st);
            && r.Done? && r.state.added * Links(n) == Links(MAX_DEPTH + 1 - (depth - i))
            && SetOf(r.state.nodes) <= r.state.added
    decreases MAX_DEPTH + 1 - depth
  {
    hide Chain, Links, Decimal.Print, SetOf;
    if depth <= MAX_DEPTH {
      ChainDialer(n, i);
      TakeLink(n, i, st.added);
      var st' := State(st.added + {Link(i)}, st.nodes + [Link(i)], st.groups);
      assert SetOf(st'.nodes) <= st'.added by { ListGrows(st.nodes, Link(i), st.added); }
      assert AddProxy(inv, Link(i), depth, st) == AddProxy(inv, Link(i + 1), depth + 1, st');
      ChainStops(inv, n, i + 1, depth + 1, st');
    }
  }

  lemma ListGrows(s: seq<string>, x: string, added: set<string>)
    requires SetOf(s) <= added
    ensures SetOf(s + [x]) <= added + {x}
  {}

  lemma TakeLink(n: nat, i: nat, added: set<string>)
    requires i < n && added * Links(n) == Links(i)
    ensures Link(i) !in added && (added + {Link(i)}) * Links(n) == Links(i + 1)
  {
    hide Decimal.Print;
    LinkFresh(i);
    LinksStep(i);
    assert Link(i) in Links(n);
  }

  lemma {:induction false} ChainPath(inv: Inventory, n: nat, i: nat)
    requires inv.proxies == Chain(n).proxies && i < n
    ensures exists p :: inv.Path(p) && |p| == i + 1 && p[0] == Link(0) && p[i] == Link(i)
  {
    hide Chain, Decimal.Print;
    ChainDialer(n, i);
    if i == 0 {
      assert inv.Path([Link(0)]);
    } else {
      ChainPath(inv, n, i - 1);
      var p :| inv.Path(p) && |p| == i && p[0] == Link(0) && p[i - 1] == Link(i - 1);
      ChainDialer(n, i - 1);
      assert inv.Path(p + [Link(i)]);
    }
  }

  /** If a reached proxy is never added, the resolution is not exact. */
  lemma LostLink(inv: Inventory, target: string, lost: string)
    requires inv.Disjoint() && lost in inv.proxies && inv.Reaches(target, lost)
    requires var r := AddProxy(inv, target, 0, State({}, [], []));
             r.Done? && lost !in r.state.added && SetOf(r.state.nodes) <= r.state.added
    ensures !Exact(inv, target)
  {
    assert lost in Reached(inv, target) * inv.proxies.Keys;
    if Resolve(inv, target).NotFound? && target !in inv.Names() {
      NothingReached(inv, target);
    }
  }

  /** A chain of more than 33 proxies loses its end. */
  lemma LongChainInexact(n: nat)
    requires n > MAX_DEPTH + 1
    ensures Chain(n).Disjoint() && |Reached(Chain(n), Link(0))| == n && Link(0) in Chain(n).proxies
    ensures !Exact(Chain(n), Link(0))
  {
    hide AddProxy, Exact, Inventory.Path, Inventory.Reaches, Decimal.Print;
    var inv := Chain(n);
    LinksSize(n);
    assert inv.Names() == Links(n) && inv.groups == map[];
    LinksReached(inv, n);
    assert Reached(inv, Link(0)) == Links(n);
    ChainLost(n);
  }

  lemma LinksReached(inv: Inventory, n: nat)
    requires inv.proxies == Chain(n).proxies
    ensures Links(n) <= Reached(inv, Link(0))
  {
    hide Chain, Decimal.Print;
    forall name | name in Links(n) ensures name in Reached(inv, Link(0)) {
      var i := IndexOf(name, n);
      ChainDialer(n, i);
      ChainPath(inv, n, i);
    }
  }

  lemma ChainLost(n: nat)
    requires n > MAX_DEPTH + 1
    ensures !Exact(Chain(n), Link(0))
  {
    hide AddProxy, Exact, Inventory.Path, Decimal.Print;
    var inv := Chain(n);
    assert inv.Names() == Links(n) && inv.groups == map[];
    var none := State({}, [], []);
    assert none.added * Links(n) == Links(0);
    ChainStops(inv, n, 0, 0, none);
    var lost := Link(MAX_DEPTH + 1);
    LinkFresh(MAX_DEPTH + 1);
    assert lost in Links(n) && lost !in Links(MAX_DEPTH + 1);
    ChainPath(inv, n, MAX_DEPTH + 1);
    LostLink(inv, Link(0), lost);
  }

  /** Behind a group, 33 entities are already too many. */
  lemma LongGroupChainInexact(n: nat)
    requires n >= MAX_DEPTH
    ensures GroupChain(n).Disjoint() && |Reached(GroupChain(n), "g")| == n + 1 && "g" in GroupChain(n).groups
    ensures !Exact(GroupChain(n), "g")
  {
    hide Exact, Decimal.Print, Inventory.Path, Inventory.Reaches;
    var inv := GroupChain(n);
    NotALink(n);
    LinksSize(n);
    assert inv.Names() == Links(n) + {"g"};
    ReachedClosed(inv, "g");
    GroupReaches(n);
    assert Reached(inv, "g") == Links(n) + {"g"};
    GroupChainLost(n);
  }

  /** Resolving the group takes 31 links and the group itself. */
  lemma GroupChainResult(n: nat)
    requires n >= MAX_DEPTH
    ensures var r := AddProxy(GroupChain(n), "g", 0, State({}, [], []));
            && r.Done? && r.state.added * Links(n) == Links(MAX_DEPTH - 1) && SetOf(r.state.nodes) <= r.state.added
  {
    hide Decimal.Print, Inventory.Names;
    var inv := GroupChain(n);
    NotALink(n);
    var st := State({"g"}, [], []);
    assert st.added * Links(n) == Links(0);
    assert Link(0) in Links(n);
    ChainStops(inv, n, 0, 2, st);
    var r := AddProxy(inv, Link(0), 2, st);
    assert AddMembers(inv, [], 2, r.state) == r;
    assert AddMembers(inv, [Link(0)], 2, st) == r;
    var none := State({}, [], []);
    assert none.(added := none.added + {"g"}) == st;
    assert inv.groups["g"].members == [Link(0)];
    assert AddGroup(inv, "g", 1, State({}, [], [])) == Done(r.state.(groups := r.state.groups + ["g"]));
  }

  lemma GroupReaches(n: nat)
    ensures Links(n) <= Reached(GroupChain(n), "g")
  {
    hide Chain, Decimal.Print, Inventory.Path;
    var inv := GroupChain(n);
    forall name | name in Links(n) ensures name in Reached(inv, "g") {
      var i := IndexOf(name, n);
      ChainDialer(n, i);
      ChainPath(inv, n, i);
      var p :| inv.Path(p) && |p| == i + 1 && p[0] == Link(0) && p[i] == Link(i);
      EnterChain(inv, p);
    }
  }

  lemma GroupChainLost(n: nat)
    requires n >= MAX_DEPTH
    ensures !Exact(GroupChain(n), "g")
  {
    hide Exact, AddProxy, Inventory.Path, Decimal.Print;
    var inv := GroupChain(n);
    GroupChainResult(n);
    NotALink(n);
    var lost := Link(MAX_DEPTH - 1);
    LinkFresh(MAX_DEPTH - 1);
    assert lost in Links(n) && lost !in Links(MAX_DEPTH - 1);
    ChainPath(inv, n, MAX_DEPTH - 1);
    var p :| inv.Path(p) && |p| == MAX_DEPTH && p[0] == Link(0) && p[MAX_DEPTH - 1] == lost;
    EnterChain(inv, p);
    LostLink(inv, "g", lost);
  }

  lemma NotALink(n: nat)
    ensures "g" !in Links(n) && forall k: nat :: Link(k) != "g"
  {
    forall k: nat ensures Link(k) != "g" {
      assert '0' <= Link(k)[0] <= '9';
    }
  }

  lemma EnterChain(inv: Inventory, p: seq<string>)
    requires inv.Path(p) && "g" in inv.groups && p[0] in inv.groups["g"].members
    ensures inv.Reaches("g", p[|p| - 1])
  {
    var q := ["g"] + p;
    forall i | 0 <= i < |q| - 1 ensures inv.Edge(q[i], q[i + 1]) {
      if i > 0 {
        assert inv.Edge(p[i - 1], p[i - 1 + 1]);
      }
    }
    assert inv.Path(q);
  }

  /** The bound on proxy targets: whatever else there is, every target that reaches n entities resolves exactly if and only if n <= 33. */
  lemma ProxyBoundIsTight(n: nat)
    ensures n <= MAX_DEPTH + 1 <==>
            forall inv: Inventory, t: string :: inv.Disjoint() && |Reached(inv, t)| == n && t in inv.proxies ==> Exact(inv, t)
  {
    if n <= MAX_DEPTH + 1 {
      forall inv: Inventory, t: string | inv.Disjoint() && |Reached(inv, t)| == n && t in inv.proxies ensures Exact(inv, t) {
        ResolveExact(inv, t);
      }
    } else {
      LongChainInexact(n);
    }
  }

  /** The bound on group targets is one lower. */
  lemma GroupBoundIsTight(n: nat)
    ensures n <= MAX_DEPTH <==>
            forall inv: Inventory, t: string :: inv.Disjoint() && |Reached(inv, t)| == n && t in inv.groups ==> Exact(inv, t)
  {
    if n <= MAX_DEPTH {
      forall inv: Inventory, t: string | inv.Disjoint() && |Reached(inv, t)| == n && t in inv.groups ensures Exact(inv, t) {
        ResolveExact(inv, t);
      }
    } else {
      LongGroupChainInexact(n - 1);
    }
  }
}
