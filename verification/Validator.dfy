/**
 The validator (internal/service/validator.go): every check in the code's own
 order, and what a report free of error-level issues means.
 */
module Validator {
  import opened CircularRefs

  const BUILTIN_TARGETS: set<string> := {"DIRECT", "REJECT", "REJECT-DROP", "REJECT-NO-DROP", "PASS", "COMPATIBLE"}

  datatype Members = Invalid | Listed(names: seq<string>)

  /** A proxy group; its member list is stored as JSON that may not parse. */
  datatype Group = Group(name: string, members: Members)

  datatype Rule = Rule(kind: string, payload: string, target: string)

  datatype Issue =
    | InvalidMembers(group: string)
    | EmptyGroup(group: string)
    | Dangling(group: string, member: string)
    | InvalidTarget(rule: Rule)
    | MissingProvider(provider: string)
    | MissingMatch
    | MatchNotLast
    | Circular(group: string)
  {
    predicate IsError() { !(EmptyGroup? || MissingMatch? || MatchNotLast?) }
  }

  function NamesOf(groups: seq<Group>): set<string> {
    set i | 0 <= i < |groups| :: groups[i].name
  }

  /** groupMembers: the last parsable list wins, an unparsable one is skipped. */
  function MembersOf(groups: seq<Group>): map<string, seq<string>> {
    if groups == [] then map[]
    else
      var g := groups[|groups| - 1];
      var m := MembersOf(groups[..|groups| - 1]);
      if g.members.Invalid? then m else m[g.name := g.members.names]
  }

  predicate NoErrors(errs: seq<Issue>) {
    forall e :: e in errs ==> !e.IsError()
  }

  /** mihomo's own targets, which need no declaration. */
  predicate Builtin(name: string) {
    name in ["DIRECT", "REJECT", "REJECT-DROP", "REJECT-NO-DROP", "PASS", "COMPATIBLE"]
  }

  lemma BuiltinTargets(name: string)
    ensures Builtin(name) <==> name in BUILTIN_TARGETS
  {}

  predicate GroupSound(g: Group, known: set<string>) {
    g.members.Listed? && forall m :: m in g.members.names ==> m in known || Builtin(m)
  }

  /** A MATCH rule's target is not looked at. */
  predicate RuleSound(r: Rule, targets: set<string>, providers: set<string>) {
    && (r.kind != "MATCH" ==> r.target in targets)
    && (r.kind == "RULE-SET" ==> r.payload in providers)
  }

  method CheckGroup(g: Group, known: set<string>) returns (errs: seq<Issue>)
    ensures NoErrors(errs) <==> GroupSound(g, known)
    ensures EmptyGroup(g.name) in errs <==> g.members == Listed([])
    ensures forall m :: Dangling(g.name, m) in errs <==>
        g.members.Listed? && m in g.members.names && m !in known && m !in BUILTIN_TARGETS
    ensures MissingMatch !in errs && MatchNotLast !in errs && forall u :: Circular(u) !in errs
  {
    match g.members
    case Invalid =>
      errs := [InvalidMembers(g.name)];
      assert InvalidMembers(g.name) in errs;
    case Listed(members) =>
      errs := if members == [] then [EmptyGroup(g.name)] else [];
      for i := 0 to |members|
        invariant NoErrors(errs) <==> forall j :: 0 <= j < i ==> members[j] in known || members[j] in BUILTIN_TARGETS
        invariant EmptyGroup(g.name) in errs <==> members == []
        invariant forall m :: Dangling(g.name, m) in errs <==> m in members[..i] && m !in known && m !in BUILTIN_TARGETS
        invariant MissingMatch !in errs && MatchNotLast !in errs && forall u :: Circular(u) !in errs
      {
        if members[i] !in known && members[i] !in BUILTIN_TARGETS {
          var e := Dangling(g.name, members[i]);
          assert e in errs + [e] && e.IsError();
          errs := errs + [e];
        }
        assert members[..i + 1] == members[..i] + [members[i]];
      }
      assert members[..|members|] == members;
  }

  method CheckRules(rules: seq<Rule>, targets: set<string>, providers: set<string>) returns (errs: seq<Issue>)
    ensures NoErrors(errs) <==> forall i :: 0 <= i < |rules| ==> RuleSound(rules[i], targets, providers)
    ensures MissingMatch in errs <==> forall i :: 0 <= i < |rules| ==> rules[i].kind != "MATCH"
    ensures MatchNotLast in errs <==>
        rules != [] && rules[|rules| - 1].kind != "MATCH" && exists i :: 0 <= i < |rules| && rules[i].kind == "MATCH"
    ensures forall u :: Circular(u) !in errs
  {
    errs := [];
    var matchFound, matchIsLast := false, false;
    for i := 0 to |rules|
      invariant NoErrors(errs) <==> forall j :: 0 <= j < i ==> RuleSound(rules[j], targets, providers)
      invariant matchFound <==> exists j :: 0 <= j < i && rules[j].kind == "MATCH"
      invariant matchIsLast ==> matchFound && i == |rules|
      invariant i == |rules| && i > 0 && rules[i - 1].kind == "MATCH" ==> matchIsLast
      invariant matchIsLast ==> rules[i - 1].kind == "MATCH"
      invariant MissingMatch !in errs && MatchNotLast !in errs && forall u :: Circular(u) !in errs
    {
      var r := rules[i];
      if r.kind == "MATCH" {
        matchFound := true;
        matchIsLast := i == |rules| - 1;
      }
      if r.kind != "MATCH" && r.target !in targets {
        assert InvalidTarget(r) in errs + [InvalidTarget(r)];
        errs := errs + [InvalidTarget(r)];
      }
      if r.kind == "RULE-SET" && r.payload !in providers {
        assert MissingProvider(r.payload) in errs + [MissingProvider(r.payload)];
        errs := errs + [MissingProvider(r.payload)];
      }
    }
    if !matchFound {
      errs := errs + [MissingMatch];
    } else if !matchIsLast {
      errs := errs + [MatchNotLast];
    }
  }

  method CheckGroups(groups: seq<Group>, known: set<string>)
    returns (errs: seq<Issue>, members: map<string, seq<string>>)
    ensures NoErrors(errs) <==> forall i :: 0 <= i < |groups| ==> GroupSound(groups[i], known)
    ensures members == MembersOf(groups)
    ensures forall u :: Circular(u) !in errs
  {
    errs, members := [], map[];
    for i := 0 to |groups|
      invariant NoErrors(errs) <==> forall j :: 0 <= j < i ==> GroupSound(groups[j], known)
      invariant members == MembersOf(groups[..i])
      invariant forall u :: Circular(u) !in errs
    {
      assert groups[..i + 1][..i] == groups[..i];
      if groups[i].members.Listed? {
        members := members[groups[i].name := groups[i].members.names];
      }
      var found := CheckGroup(groups[i], known);
      NoErrorsConcat(errs, found);
      errs := errs + found;
    }
    assert groups[..|groups|] == groups;
  }

  /** Of groups with one name the last whose members parse decides; a group without parsable members pulls in nothing. */
  lemma {:induction false} MembersOfLast(groups: seq<Group>, name: string)
    ensures name in MembersOf(groups) <==> exists i :: 0 <= i < |groups| && groups[i].name == name && groups[i].members.Listed?
    ensures forall i :: 0 <= i < |groups| && groups[i].name == name && groups[i].members.Listed? &&
                        (forall j :: i < j < |groups| ==> groups[j].name != name || groups[j].members.Invalid?) ==>
              MembersOf(groups)[name] == groups[i].members.names
  {
    if groups != [] {
      var init, n := groups[..|groups| - 1], |groups| - 1;
      MembersOfLast(init, name);
      assert forall i :: 0 <= i < n ==> init[i] == groups[i];
      if i :| 0 <= i < n && init[i].name == name && init[i].members.Listed? {
        assert groups[i].name == name && groups[i].members.Listed?;
      }
      forall i | 0 <= i < |groups| && groups[i].name == name && groups[i].members.Listed? &&
                 forall j :: i < j < |groups| ==> groups[j].name != name || groups[j].members.Invalid?
        ensures MembersOf(groups)[name] == groups[i].members.names
      {
        if i < n {
          assert init[i].name == name && init[i].members.Listed?;
          assert groups[n].name != name || groups[n].members.Invalid?;
        }
      }
    }
  }

  method CheckCircular(groups: seq<Group>, members: map<string, seq<string>>) returns (errs: seq<Issue>)
    ensures var g := Graph(members, NamesOf(groups));
            && (NoErrors(errs) <==> !exists p :: g.Cycle(p))
            && (forall u :: Circular(u) in errs ==> g.OnCycle(u))
            && (forall p :: g.Cycle(p) ==> exists u :: u in p && Circular(u) in errs)
    ensures forall i, j :: 0 <= i < j < |errs| ==> errs[i] != errs[j]
  {
    hide NoErrors, Graph.OnCycle, Graph.Cycle, NamesOf;
    var order := seq(|groups|, i requires 0 <= i < |groups| => groups[i].name);
    SameNames(groups, order);
    var names := DetectCircularRefs(order, members);
    errs := seq(|names|, i requires 0 <= i < |names| => Circular(names[i]));
    CircularIssues(names, errs);
  }

  lemma SameNames(groups: seq<Group>, order: seq<string>)
    requires |order| == |groups| && forall i :: 0 <= i < |groups| ==> order[i] == groups[i].name
    ensures NamesOf(groups) == set u | u in order
  {
    assert forall i :: 0 <= i < |groups| ==> order[i] in order;
  }

  lemma CircularIssues(names: seq<string>, errs: seq<Issue>)
    requires |errs| == |names| && forall i :: 0 <= i < |names| ==> errs[i] == Circular(names[i])
    ensures NoErrors(errs) <==> names == []
    ensures forall u :: Circular(u) in errs <==> u in names
  {
    assert names != [] ==> errs[0] in errs && errs[0].IsError();
    forall u ensures Circular(u) in errs <==> u in names {
      if u in names {
        var i :| 0 <= i < |names| && names[i] == u;
        assert errs[i] in errs;
      }
    }
  }

  lemma NoErrorsConcat(a: seq<Issue>, b: seq<Issue>)
    ensures NoErrors(a + b) <==> NoErrors(a) && NoErrors(b)
  {
    assert forall e :: e in a + b <==> e in a || e in b;
  }

  predicate KnownTarget(proxies: set<string>, groups: seq<Group>, r: Rule) {
    Builtin(r.target) || r.target in proxies + NamesOf(groups)
  }

  lemma RulesSound(proxies: set<string>, groups: seq<Group>, rules: seq<Rule>, providers: set<string>)
    ensures (forall i :: 0 <= i < |rules| ==> RuleSound(rules[i], BUILTIN_TARGETS + proxies + NamesOf(groups), providers)) <==>
            && (forall i :: 0 <= i < |rules| && rules[i].kind != "MATCH" ==> KnownTarget(proxies, groups, rules[i]))
            && (forall i :: 0 <= i < |rules| && rules[i].kind == "RULE-SET" ==> rules[i].payload in providers)
  {
    forall i | 0 <= i < |rules|
      ensures rules[i].target in BUILTIN_TARGETS + proxies + NamesOf(groups) <==> KnownTarget(proxies, groups, rules[i])
    {
      BuiltinTargets(rules[i].target);
    }
  }

  /** What a draft without error-level issues has: no dangling name anywhere, and no circular groups. */
  ghost predicate Sound(proxies: set<string>, groups: seq<Group>, rules: seq<Rule>, providers: set<string>) {
    && (forall i :: 0 <= i < |groups| ==> GroupSound(groups[i], proxies + NamesOf(groups)))
    && (forall i :: 0 <= i < |rules| && rules[i].kind != "MATCH" ==> KnownTarget(proxies, groups, rules[i]))
    && (forall i :: 0 <= i < |rules| && rules[i].kind == "RULE-SET" ==> rules[i].payload in providers)
    && !exists p :: Graph(MembersOf(groups), NamesOf(groups)).Cycle(p)
  }

  /**
   The report is free of error-level issues exactly on sound drafts, and its
   circular-reference issues are the groups the search found.
   */
  method Validate(proxies: set<string>, groups: seq<Group>, rules: seq<Rule>, providers: set<string>)
    returns (errs: seq<Issue>)
    ensures NoErrors(errs) <==> Sound(proxies, groups, rules, providers)
    ensures forall u :: Circular(u) in errs ==> Graph(MembersOf(groups), NamesOf(groups)).OnCycle(u)
    ensures forall p :: Graph(MembersOf(groups), NamesOf(groups)).Cycle(p) ==> exists u :: u in p && Circular(u) in errs
  {
    hide NoErrors, Graph.OnCycle, Graph.Cycle, GroupSound, RuleSound, MembersOf;
    var names := NamesOf(groups);
    var inGroups, members := CheckGroups(groups, proxies + names);
    var inRules := CheckRules(rules, BUILTIN_TARGETS + proxies + names, providers);
    var circular := CheckCircular(groups, members);
    RulesSound(proxies, groups, rules, providers);
    NoErrorsConcat(inGroups, inRules);
    NoErrorsConcat(inGroups + inRules, circular);
    errs := inGroups + inRules + circular;
  }

  /** A draft without errors routes every rule to something that exists exactly if its MATCH rules do. */
  lemma MatchTargetUnchecked(proxies: set<string>, groups: seq<Group>, rules: seq<Rule>, providers: set<string>)
    requires Sound(proxies, groups, rules, providers)
    ensures (forall r :: r in rules ==> KnownTarget(proxies, groups, r)) <==>
            forall r :: r in rules && r.kind == "MATCH" ==> KnownTarget(proxies, groups, r)
  {
    hide Graph.Cycle, GroupSound, MembersOf;
    forall r | r in rules && r.kind != "MATCH" ensures KnownTarget(proxies, groups, r) {
      var i :| 0 <= i < |rules| && rules[i] == r;
      assert KnownTarget(proxies, groups, rules[i]);
    }
  }

  lemma MatchTargetExample()
    ensures var r := Rule("MATCH", "", "nowhere"); Sound({}, [], [r], {}) && !KnownTarget({}, [], r)
  {
    var g := Graph(MembersOf([]), NamesOf([]));
    forall p ensures !g.Cycle(p) {
      if |p| >= 2 { assert !g.Edge(p[0], p[0 + 1]); }
    }
  }
}
