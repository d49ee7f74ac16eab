/**
 Rule strings: parseRuleString of internal/service/import_service.go and
 renderRules of internal/service/config_service.go.
 */
module Rules {

  /** Configuration values at the level of decoded JSON and YAML. */
  datatype Value =
    | Null
    | Bool(b: bool)
    | Num(text: string)
    | Str(s: string)
    | List(items: seq<Value>)
    | Map(fields: map<string, Value>)

  datatype Result<+T> = Ok(value: T) | Err(section: string)

  datatype Rule = Rule(kind: string, payload: string, target: string, params: map<string, Value>, sortOrder: nat)

  const NO_RESOLVE: map<string, Value> := map["no-resolve" := Bool(true)]

  // ----- strings.TrimSpace and strings.Split ------------------------------

  predicate IsSpace(c: char) {
    || '\t' <= c <= '\r' || c == ' ' || c == '\U{85}' || c == '\U{A0}' || c == '\U{1680}'
    || '\U{2000}' <= c <= '\U{200A}' || c in {'\U{2028}', '\U{2029}', '\U{202F}', '\U{205F}', '\U{3000}'}
  }

  function TrimLeft(s: string): string {
    if s != "" && IsSpace(s[0]) then TrimLeft(s[1..]) else s
  }

  function TrimRight(s: string): string {
    if s != "" && IsSpace(s[|s| - 1]) then TrimRight(s[..|s| - 1]) else s
  }

  function TrimSpace(s: string): string { TrimRight(TrimLeft(s)) }

  predicate Trimmed(s: string) {
    s != "" ==> !IsSpace(s[0]) && !IsSpace(s[|s| - 1])
  }

  /** The parts between commas; always at least one. */
  function Split(s: string): (parts: seq<string>)
    ensures |parts| >= 1
  {
    if s == "" then [""]
    else
      var rest := Split(s[1..]);
      if s[0] == ',' then [""] + rest else [[s[0]] + rest[0]] + rest[1..]
  }

  // ----- the code ---------------------------------------------------------

  function ParseRule(text: string, index: nat): Result<Rule> {
    var parts := Split(text);
    if |parts| < 2 then Err("rules")
    else
      var kind := TrimSpace(parts[0]);
      if kind == "MATCH" then Ok(Rule(kind, "", TrimSpace(parts[1]), map[], index))
      else if |parts| < 3 then Err("rules")
      else
        var flagged := |parts| >= 4 && TrimSpace(parts[3]) == "no-resolve";
        Ok(Rule(kind, TrimSpace(parts[1]), TrimSpace(parts[2]), if flagged then NO_RESOLVE else map[], index))
  }

  function RenderRule(r: Rule): string {
    if r.kind == "MATCH" then "MATCH," + r.target
    else
      r.kind + "," + r.payload + "," + r.target +
      if "no-resolve" in r.params && r.params["no-resolve"] == Bool(true) then ",no-resolve" else ""
  }

  method RenderRules(rules: seq<Rule>) returns (texts: seq<string>)
    ensures |texts| == |rules| && forall i :: 0 <= i < |rules| ==> texts[i] == RenderRule(rules[i])
  {
    texts := [];
    for i := 0 to |rules|
      invariant |texts| == i && forall j :: 0 <= j < i ==> texts[j] == RenderRule(rules[j])
    {
      var r := rules[i];
      var text: string;
      if r.kind == "MATCH" {
        text := "MATCH," + r.target;
      } else {
        text := r.kind + "," + r.payload + "," + r.target;
        if "no-resolve" in r.params && r.params["no-resolve"] == Bool(true) {
          text := text + ",no-resolve";
        } else {
          assert text + "" == text;
        }
      }
      texts := texts + [text];
    }
  }

  // ----- canonical rules --------------------------------------------------

  predicate Clean(s: string) { ',' !in s && Trimmed(s) }

  /** What can be written and read back: clean fields, no payload or flag on MATCH, no other parameter. */
  predicate Canonical(r: Rule) {
    && Clean(r.kind) && Clean(r.payload) && Clean(r.target)
    && (r.params == map[] || r.params == NO_RESOLVE)
    && (r.kind == "MATCH" ==> r.payload == "" && r.params == map[])
  }

  lemma {:induction false} TrimLeftFacts(s: string)
    ensures TrimLeft(s) != "" ==> !IsSpace(TrimLeft(s)[0])
    ensures |TrimLeft(s)| <= |s| && TrimLeft(s) == s[|s| - |TrimLeft(s)|..]
  {
    if s != "" && IsSpace(s[0]) { TrimLeftFacts(s[1..]); }
  }

  lemma {:induction false} TrimRightFacts(s: string)
    ensures TrimRight(s) != "" ==> !IsSpace(TrimRight(s)[|TrimRight(s)| - 1])
    ensures |TrimRight(s)| <= |s| && TrimRight(s) == s[..|TrimRight(s)|]
  {
    if s != "" && IsSpace(s[|s| - 1]) { TrimRightFacts(s[..|s| - 1]); }
  }

  lemma TrimClean(s: string)
    requires ',' !in s
    ensures Clean(TrimSpace(s))
  {
    TrimLeftFacts(s);
    TrimRightFacts(TrimLeft(s));
  }

  lemma TrimSame(s: string)
    requires Trimmed(s)
    ensures TrimSpace(s) == s
  {}

  lemma {:induction false} PartsClean(s: string)
    ensures forall p :: p in Split(s) ==> ',' !in p
  {
    if s != "" { PartsClean(s[1..]); }
  }

  lemma {:induction false} SplitFirst(a: string, b: string)
    requires ',' !in a
    ensures Split(a) == [a]
    ensures Split(a + "," + b) == [a] + Split(b)
  {
    if a == "" {
      assert a + "," + b == "," + b && ("," + b)[1..] == b;
    } else {
      SplitFirst(a[1..], b);
      assert (a + "," + b)[1..] == a[1..] + "," + b;
      assert [a[0]] + a[1..] == a;
    }
  }

  lemma SplitTwo(a: string, b: string)
    requires ',' !in a && ',' !in b
    ensures Split(a + "," + b) == [a, b]
  {
    SplitFirst(a, b);
    SplitFirst(b, "");
  }

  lemma SplitThree(a: string, b: string, c: string)
    requires ',' !in a && ',' !in b && ',' !in c
    ensures Split(a + "," + b + "," + c) == [a, b, c]
  {
    hide Split;
    SplitFirst(a, b + "," + c);
    SplitTwo(b, c);
    assert a + "," + b + "," + c == a + "," + (b + "," + c);
  }

  lemma SplitFour(a: string, b: string, c: string, d: string)
    requires ',' !in a && ',' !in b && ',' !in c && ',' !in d
    ensures Split(a + "," + b + "," + c + "," + d) == [a, b, c, d]
  {
    hide Split;
    SplitFirst(a, b + "," + c + "," + d);
    SplitThree(b, c, d);
    assert a + "," + b + "," + c + "," + d == a + "," + (b + "," + c + "," + d);
  }

  /** The parser only ever returns canonical rules. */
  lemma ParseIsCanonical(text: string, index: nat)
    requires ParseRule(text, index).Ok?
    ensures Canonical(ParseRule(text, index).value) && ParseRule(text, index).value.sortOrder == index
  {
    PartsClean(text);
    var parts := Split(text);
    TrimClean(parts[0]);
    TrimClean(parts[1]);
    if |parts| >= 3 { TrimClean(parts[2]); }
  }

  lemma CanonicalReadsBack(r: Rule)
    requires Canonical(r)
    ensures ParseRule(RenderRule(r), r.sortOrder) == Ok(r)
  {
    hide Split, TrimSpace, IsSpace;
    TrimSame(r.kind);
    TrimSame(r.payload);
    TrimSame(r.target);
    if r.kind == "MATCH" {
      SplitTwo("MATCH", r.target);
      assert "MATCH" + "," + r.target == "MATCH," + r.target;
    } else if r.params == map[] {
      SplitThree(r.kind, r.payload, r.target);
      assert r.kind + "," + r.payload + "," + r.target + "" == r.kind + "," + r.payload + "," + r.target;
    } else {
      FlagReadsBack(r);
    }
  }

  lemma FlagReadsBack(r: Rule)
    requires Canonical(r) && r.params == NO_RESOLVE && r.kind != "MATCH"
    ensures ParseRule(RenderRule(r), r.sortOrder) == Ok(r)
  {
    hide Split, TrimSpace, IsSpace;
    TrimSame(r.kind);
    TrimSame(r.payload);
    TrimSame(r.target);
    SplitFour(r.kind, r.payload, r.target, "no-resolve");
    FlagTrimmed();
    TrimSame("no-resolve");
    var plain := r.kind + "," + r.payload + "," + r.target;
    assert plain + ",no-resolve" == plain + "," + "no-resolve";
  }

  lemma FlagTrimmed()
    ensures Trimmed("no-resolve")
  {}

  /** Printing and parsing gives a rule back exactly when it is canonical. */
  lemma RuleRoundTrip(r: Rule)
    ensures ParseRule(RenderRule(r), r.sortOrder) == Ok(r) <==> Canonical(r)
  {
    if Canonical(r) {
      CanonicalReadsBack(r);
    } else if ParseRule(RenderRule(r), r.sortOrder) == Ok(r) {
      ParseIsCanonical(RenderRule(r), r.sortOrder);
    }
  }

  /** On any accepted string, printing the parsed rule and parsing again changes nothing. */
  lemma ParseRenderParse(text: string, index: nat)
    requires ParseRule(text, index).Ok?
    ensures ParseRule(RenderRule(ParseRule(text, index).value), index) == ParseRule(text, index)
  {
    ParseIsCanonical(text, index);
    CanonicalReadsBack(ParseRule(text, index).value);
  }

  // ----- the text of a rule -----------------------------------------------

  /** TrimSpace takes white space off both ends, and nothing else. */
  lemma TrimExactly(s: string)
    ensures Trimmed(TrimSpace(s))
    ensures exists a, b :: s == a + TrimSpace(s) + b && (forall c :: c in a + b ==> IsSpace(c))
  {
    TrimLeftFacts(s);
    TrimRightFacts(TrimLeft(s));
    TrimLeftSpaces(s);
    TrimRightSpaces(TrimLeft(s));
    var l, t := TrimLeft(s), TrimSpace(s);
    var a, b := s[..|s| - |l|], l[|t|..];
    assert s == a + t + b;
  }

  lemma {:induction false} TrimLeftSpaces(s: string)
    ensures |TrimLeft(s)| <= |s| && forall c :: c in s[..|s| - |TrimLeft(s)|] ==> IsSpace(c)
  {
    TrimLeftFacts(s);
    if s != "" && IsSpace(s[0]) {
      TrimLeftSpaces(s[1..]);
      assert s[..|s| - |TrimLeft(s)|] == [s[0]] + s[1..][..|s| - 1 - |TrimLeft(s)|];
    }
  }

  lemma {:induction false} TrimRightSpaces(s: string)
    ensures |TrimRight(s)| <= |s| && forall c :: c in s[|TrimRight(s)|..] ==> IsSpace(c)
  {
    TrimRightFacts(s);
    if s != "" && IsSpace(s[|s| - 1]) {
      TrimRightSpaces(s[..|s| - 1]);
      assert s[|TrimRight(s)|..] == s[..|s| - 1][|TrimRight(s)|..] + [s[|s| - 1]];
    }
  }

  /** Three fields give type, payload and target, each trimmed; a fourth counts only if it says no-resolve; MATCH takes its target from the second. */
  lemma ParsesFields(a: string, b: string, c: string, d: string, i: nat)
    requires ',' !in a && ',' !in b && ',' !in c && ',' !in d
    ensures ParseRule(a, i).Err?
    ensures ParseRule(a + "," + b, i) ==
            if TrimSpace(a) == "MATCH" then Ok(Rule("MATCH", "", TrimSpace(b), map[], i)) else Err("rules")
    ensures TrimSpace(a) != "MATCH" ==>
            && ParseRule(a + "," + b + "," + c, i) == Ok(Rule(TrimSpace(a), TrimSpace(b), TrimSpace(c), map[], i))
            && ParseRule(a + "," + b + "," + c + "," + d, i) ==
               Ok(Rule(TrimSpace(a), TrimSpace(b), TrimSpace(c),
                       if TrimSpace(d) == "no-resolve" then map["no-resolve" := Bool(true)] else map[], i))
  {
    hide Split, TrimSpace;
    SplitFirst(a, "");
    SplitTwo(a, b);
    SplitThree(a, b, c);
    SplitFour(a, b, c, d);
  }

  /** A rule's text is its fields between commas, without spaces, and the flag only if it is set. */
  lemma RuleText(r: Rule)
    ensures var parts := if r.kind == "MATCH" then ["MATCH", r.target]
                         else if "no-resolve" in r.params && r.params["no-resolve"] == Bool(true)
                         then [r.kind, r.payload, r.target, "no-resolve"]
                         else [r.kind, r.payload, r.target];
            RenderRule(r) == Joined(parts)
  {
    var a, b, c := r.kind, r.payload, r.target;
    assert Joined([c]) == c && Joined([c, "no-resolve"]) == c + "," + Joined(["no-resolve"]);
    if r.kind == "MATCH" {
      assert Joined(["MATCH", c]) == "MATCH" + "," + c;
      assert "MATCH" + "," == "MATCH,";
    } else if "no-resolve" in r.params && r.params["no-resolve"] == Bool(true) {
      JoinThree(a, b, c + "," + "no-resolve");
      assert Joined([a, b, c, "no-resolve"]) == a + "," + (b + "," + (c + "," + "no-resolve"));
      assert c + "," + "no-resolve" == c + ",no-resolve";
    } else {
      JoinThree(a, b, c);
      assert Joined([a, b, c]) == a + "," + (b + "," + c);
    }
  }

  function Joined(parts: seq<string>): string {
    if parts == [] then "" else if |parts| == 1 then parts[0] else parts[0] + "," + Joined(parts[1..])
  }

  lemma JoinThree(a: string, b: string, c: string)
    ensures a + "," + (b + "," + c) == a + "," + b + "," + c
  {}
}
