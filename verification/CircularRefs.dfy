/**
 Detection of circular group membership (Validator.detectCircularRefs in
 internal/service/validator.go): a depth-first search that reports a group when
 one of its own members is still on the search stack.
 */
module CircularRefs {

  /** Group name to member names, and the names of all known groups. */
  datatype Graph = Graph(members: map<string, seq<string>>, names: set<string>) {
    /** v is a member of u and itself a known group. */
    predicate Edge(u: string, v: string) {
      u in members && v in members[u] && v in names
    }

    predicate Walk(p: seq<string>) {
      forall i :: 0 <= i < |p| - 1 ==> Edge(p[i], p[i + 1])
    }

    /** A circular reference: a walk of at least one step back to where it began. */
    predicate Cycle(p: seq<string>) {
      |p| >= 2 && p[0] == p[|p| - 1] && Walk(p)
    }

    ghost predicate OnCycle(u: string) {
      exists p :: Cycle(p) && p[0] == u
    }
  }

  predicate Distinct(s: seq<string>) {
    forall i, j :: 0 <= i < j < |s| ==> s[i] != s[j]
  }

  /** In the order the search finished them, an unreported group's members come before it. */
  ghost predicate FinishOrdered(g: Graph, done: seq<string>, reported: set<string>) {
    forall i, v :: 0 <= i < |done| && done[i] !in reported && g.Edge(done[i], v) ==> v in done[..i]
  }

  lemma {:induction false} WalkDescends(g: Graph, done: seq<string>, reported: set<string>, p: seq<string>, a: nat, b: nat)
    requires FinishOrdered(g, done, reported) && Distinct(done)
    requires g.Walk(p) && |p| >= 2 && (forall u :: u in p ==> u !in reported)
    requires a < |done| && b < |done| && done[a] == p[0] && done[b] == p[|p| - 1]
    ensures b < a
  {
    assert p[0] in p && g.Edge(p[0], p[1]);
    assert p[1] in done[..a];
    var c :| 0 <= c < a && done[c] == p[1];
    if |p| > 2 {
      var q := p[1..];
      forall i | 0 <= i < |q| - 1 ensures g.Edge(q[i], q[i + 1]) {
        assert g.Edge(p[i + 1], p[i + 1 + 1]);
      }
      WalkDescends(g, done, reported, q, c, b);
    }
  }

  /** So every cycle among finished groups passes through a reported one. */
  lemma CycleHasReported(g: Graph, done: seq<string>, reported: set<string>, p: seq<string>)
    requires FinishOrdered(g, done, reported) && Distinct(done)
    requires g.Cycle(p) && p[0] in done
    ensures exists u :: u in p && u in reported
  {
    if forall u :: u in p ==> u !in reported {
      var a :| 0 <= a < |done| && done[a] == p[0];
      WalkDescends(g, done, reported, p, a, a);
    }
  }

  ghost function Names(s: seq<string>): set<string> { set u | u in s }

  /** The search stack is a walk through distinct known groups. */
  ghost predicate StackOk(g: Graph, stack: seq<string>) {
    Distinct(stack) && g.Walk(stack) && Names(stack) <= g.names
  }

  ghost predicate DoneOk(g: Graph, done: seq<string>, reported: set<string>) {
    Distinct(done) && Names(done) <= g.names && FinishOrdered(g, done, reported)
  }

  /** Each report is of a different group, and that group lies on a cycle. */
  ghost predicate ReportsOk(g: Graph, errs: seq<string>) {
    Distinct(errs) && forall u :: u in errs ==> u in g.names && g.OnCycle(u)
  }

  lemma Push(g: Graph, stack: seq<string>, name: string)
    requires StackOk(g, stack) && name !in stack && name in g.names
    requires |stack| > 0 ==> g.Edge(stack[|stack| - 1], name)
    ensures StackOk(g, stack + [name]) && Names(stack + [name]) == Names(stack) + {name}
  {}

  lemma Report(g: Graph, errs: seq<string>, name: string)
    requires ReportsOk(g, errs) && name !in errs && name in g.names && g.OnCycle(name)
    ensures ReportsOk(g, errs + [name]) && Names(errs + [name]) == Names(errs) + {name}
  {}

  lemma ReportedGrows(g: Graph, done: seq<string>, reported: set<string>, name: string)
    requires DoneOk(g, done, reported)
    ensures DoneOk(g, done, reported + {name})
  {}

  lemma Finish(g: Graph, done: seq<string>, reported: set<string>, name: string)
    requires DoneOk(g, done, reported) && name !in done && name in g.names
    requires name in reported || forall v :: g.Edge(name, v) ==> v in done
    ensures DoneOk(g, done + [name], reported) && Names(done + [name]) == Names(done) + {name}
  {
    var d := done + [name];
    forall i, v | 0 <= i < |d| && d[i] !in reported && g.Edge(d[i], v) ensures v in d[..i] {
      if i < |done| {
        assert d[..i] == done[..i];
      } else {
        assert d[..i] == done;
      }
    }
  }

  /** A member found on the stack closes a cycle through the group on top of it. */
  lemma StackCloses(g: Graph, stack: seq<string>, member: string)
    requires StackOk(g, stack) && |stack| > 0
    requires g.Edge(stack[|stack| - 1], member) && member in stack
    ensures g.OnCycle(stack[|stack| - 1])
  {
    var i :| 0 <= i < |stack| && stack[i] == member;
    var p := [stack[|stack| - 1]] + stack[i..];
    forall k | 0 <= k < |p| - 1 ensures g.Edge(p[k], p[k + 1]) {
      if k > 0 {
        assert p[k] == stack[i + k - 1] && p[k + 1] == stack[i + k - 1 + 1];
      }
    }
    assert g.Cycle(p);
  }

  class Detector {
    const graph: Graph
    var visited: set<string>
    var inStack: set<string>
    var reported: set<string>
    var errs: seq<string>
    ghost var stack: seq<string>  // inStack, in the order of the calls
    ghost var done: seq<string>   // visited, in the order of finishing

    ghost predicate Valid()
      reads this
    {
      && inStack == Names(stack) && visited == Names(done) && reported == Names(errs)
      && visited !! inStack
      && StackOk(graph, stack) && DoneOk(graph, done, reported) && ReportsOk(graph, errs)
    }

    constructor (graph: Graph)
      ensures Valid() && this.graph == graph && stack == [] && errs == []
    {
      this.graph := graph;
      visited, inStack, reported, errs := {}, {}, {}, [];
      stack, done := [], [];
    }

    method Dfs(name: string) returns (onStack: bool)
      requires Valid() && name in graph.names
      requires |stack| > 0 ==> graph.Edge(stack[|stack| - 1], name)
      modifies this
      ensures Valid() && stack == old(stack)
      ensures onStack <==> name in old(inStack)
      ensures !onStack ==> name in visited
      ensures old(visited) <= visited && old(reported) <= reported
      decreases graph.names - visited - inStack
    {
      hide StackOk, DoneOk, ReportsOk, Graph.OnCycle;
      if name in inStack { return true; }
      if name in visited { return false; }
      ghost var outer := stack;
      Push(graph, stack, name);
      inStack := inStack + {name};
      stack := stack + [name];
      var members := if name in graph.members then graph.members[name] else [];
      var k := 0;
      while k < |members|
        invariant 0 <= k <= |members|
        invariant Valid() && stack == outer + [name]
        invariant old(visited) <= visited && old(reported) <= reported
        invariant name !in reported ==>
            forall j :: 0 <= j < k && members[j] in graph.names ==> members[j] in visited
      {
        var member := members[k];
        if member in graph.names {
          assert graph.Edge(name, member);
          var back := Dfs(member);
          if back && name !in reported {
            StackCloses(graph, stack, member);
            Report(graph, errs, name);
            ReportedGrows(graph, done, reported, name);
            reported := reported + {name};
            errs := errs + [name];
          }
        }
        k := k + 1;
      }
      Finish(graph, done, reported, name);
      assert inStack - {name} == Names(outer) by { assert name !in outer; }
      inStack := inStack - {name};
      stack := outer;
      visited := visited + {name};
      done := done + [name];
      return false;
    }
  }

  /**
   Every reported group lies on a cycle, none is reported twice, and every
   cycle passes through a reported group; so something is reported exactly when
   the membership graph has a cycle.
   */
  method DetectCircularRefs(groups: seq<string>, members: map<string, seq<string>>) returns (errs: seq<string>)
    ensures var g := Graph(members, set u | u in groups);
            && Distinct(errs)
            && (forall u :: u in errs ==> u in groups && g.OnCycle(u))
            && (forall p :: g.Cycle(p) ==> exists u :: u in p && u in errs)
            && (errs == [] <==> !exists p :: g.Cycle(p))
  {
    var g := Graph(members, set u | u in groups);
    var d := new Detector(g);
    for i := 0 to |groups|
      invariant d.Valid() && d.graph == g && d.stack == []
      invariant fresh(d)
      invariant forall j :: 0 <= j < i ==> groups[j] in d.visited
    {
      var _ := d.Dfs(groups[i]);
    }
    errs := d.errs;
    forall p | g.Cycle(p) ensures exists u :: u in p && u in errs {
      assert g.Edge(p[|p| - 2], p[|p| - 1]);
      CycleHasReported(g, d.done, d.reported, p);
    }
    if errs != [] {
      assert g.OnCycle(errs[0]);
    }
  }
}
