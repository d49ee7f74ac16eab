/**
 Publishing (internal/service/publish_service.go over internal/store/publish_store.go):
 write the configuration, reload, restore on failure, and record the attempt.
 */
module Publish {
  import opened Decimal
  import opened Prelude

  datatype Record = Record(version: string, yaml: string, success: bool, createdAt: int)

  /** The configuration file, which may be absent, and the history in order of insertion. */
  datatype State = State(file: Option<string>, history: seq<Record>)

  /** The day, the clock, and which of the calls to the outside fail. */
  datatype Env = Env(date: string, now: int, countFails: bool, readFails: bool, writeFails: bool,
                     reloadFails: bool, restoreFails: bool, recordFails: bool)

  datatype Outcome = Recorded(record: Record) | Error

  // ----- the publish store ------------------------------------------------

  /** SELECT COUNT(*) ... WHERE version LIKE 'prefix%' */
  function CountPrefix(history: seq<Record>, prefix: string): nat {
    if history == [] then 0
    else CountPrefix(history[..|history| - 1], prefix) + (if prefix <= history[|history| - 1].version then 1 else 0)
  }

  function NextVersion(history: seq<Record>, date: string): string {
    date + "-" + Print(CountPrefix(history, date + "-") + 1)
  }

  /** The success record with the latest creation time. */
  function LastSuccess(history: seq<Record>): Option<Record> {
    if history == [] then None
    else
      var before, r := LastSuccess(history[..|history| - 1]), history[|history| - 1];
      if r.success && (before.None? || before.value.createdAt <= r.createdAt) then Some(r) else before
  }

  // ----- the service ------------------------------------------------------

  function PublishStep(s: State, yaml: string, env: Env): (State, Outcome) {
    if env.countFails || env.readFails || env.writeFails then (s, Error)
    else
      var record := Record(NextVersion(s.history, env.date), yaml, !env.reloadFails, env.now);
      var file := if env.reloadFails && !env.restoreFails then s.file else Some(yaml);
      if env.recordFails then (State(file, s.history), Error)
      else (State(file, s.history + [record]), Recorded(record))
  }

  function RollbackStep(s: State, env: Env): (State, Outcome) {
    match LastSuccess(s.history)
    case None => (s, Error)
    case Some(last) => PublishStep(s, last.yaml, env)
  }

  class PublishService {
    var file: Option<string>
    var history: seq<Record>

    ghost function Abs(): State
      reads this
    {
      State(file, history)
    }

    method Publish(yaml: string, env: Env) returns (out: Outcome)
      modifies this
      ensures (Abs(), out) == PublishStep(old(Abs()), yaml, env)
    {
      if env.countFails { return Error; }
      var version := NextVersion(history, env.date);
      if env.readFails { return Error; }
      var current := file;
      var hadConfig := current.Some?;
      if env.writeFails { return Error; }
      file := Some(yaml);
      var success := true;
      if env.reloadFails {
        success := false;
        if !env.restoreFails {
          file := if hadConfig then current else None;
        }
      }
      if env.recordFails { return Error; }
      var record := Record(version, yaml, success, env.now);
      history := history + [record];
      return Recorded(record);
    }

    method Rollback(env: Env) returns (out: Outcome)
      modifies this
      ensures (Abs(), out) == RollbackStep(old(Abs()), env)
    {
      var last := LastSuccess(history);
      if last.None? { return Error; }
      out := Publish(last.value.yaml, env);
    }
  }

  // ----- runs -------------------------------------------------------------

  datatype Event = DoPublish(yaml: string, env: Env) | DoRollback(env: Env)

  function Step(s: State, e: Event): State {
    match e
    case DoPublish(yaml, env) => PublishStep(s, yaml, env).0
    case DoRollback(env) => RollbackStep(s, env).0
  }

  function Run(s: State, events: seq<Event>): State {
    if events == [] then s else Step(Run(s, events[..|events| - 1]), events[|events| - 1])
  }

  /** The file is what the latest success recorded; what was there at first if there is none. */
  predicate InSync(s: State, initial: Option<string>) {
    match LastSuccess(s.history)
    case None => s.file == initial
    case Some(r) => s.file == Some(r.yaml)
  }

  /** No record is from the future. */
  predicate ClockAhead(s: State, now: int) {
    forall r :: r in s.history ==> r.createdAt <= now
  }

  /** An attempt that replaced the file but could neither record a success nor restore the old content. */
  predicate LeavesTraces(env: Env) {
    && !env.countFails && !env.readFails && !env.writeFails
    && (if env.reloadFails then env.restoreFails else env.recordFails)
  }

  lemma {:induction false} LastSuccessIsInHistory(history: seq<Record>)
    ensures LastSuccess(history).Some? ==> LastSuccess(history).value in history
  {
    if history != [] { LastSuccessIsInHistory(history[..|history| - 1]); }
  }

  lemma LastSuccessAppended(history: seq<Record>, r: Record)
    requires forall q :: q in history ==> q.createdAt <= r.createdAt
    ensures LastSuccess(history + [r]) == if r.success then Some(r) else LastSuccess(history)
  {
    assert (history + [r])[..|history|] == history;
    LastSuccessIsInHistory(history);
  }

  /** From a state in sync, an attempt loses sync exactly when it leaves traces of a different content. */
  lemma PublishSync(s: State, yaml: string, env: Env, initial: Option<string>)
    requires InSync(s, initial) && ClockAhead(s, env.now)
    ensures InSync(PublishStep(s, yaml, env).0, initial) <==> !(LeavesTraces(env) && s.file != Some(yaml))
  {
    LastSuccessAppended(s.history, Record(NextVersion(s.history, env.date), yaml, !env.reloadFails, env.now));
  }

  /** The file is replaced, whatever is recorded, exactly if every step up to the reload worked and the reload did, or its restore did not. */
  predicate Replaces(env: Env) {
    !env.countFails && !env.readFails && !env.writeFails && (env.reloadFails ==> env.restoreFails)
  }

  /** An attempt changes the file exactly if it replaces it with other content; a recorded success has always replaced it. */
  lemma PublishChangesFile(s: State, yaml: string, env: Env)
    ensures var (t, out) := PublishStep(s, yaml, env);
            && (t.file != s.file <==> Replaces(env) && s.file != Some(yaml))
            && (out.Recorded? ==> (out.record.success <==> Replaces(env) && !env.reloadFails) && out.record in t.history)
            && (out.Recorded? && out.record.success ==> t.file == Some(yaml))
  {}

  /** A rollback changes the file exactly if the latest success is not what it holds and the attempt replaces it. */
  lemma RollbackChangesFile(s: State, env: Env)
    ensures RollbackStep(s, env).0.file != s.file <==>
            LastSuccess(s.history).Some? && Replaces(env) && s.file != Some(LastSuccess(s.history).value.yaml)
  {
    if LastSuccess(s.history).Some? {
      PublishChangesFile(s, LastSuccess(s.history).value.yaml, env);
    }
  }

  /** After publishing "a" and then "b", rolling back leaves "b" in place. */
  lemma RollbackExample(env: Env)
    requires env == Env("20260101", 0, false, false, false, false, false, false)
    ensures var s := Run(State(None, []), [DoPublish("a", env), DoPublish("b", env)]);
            s.file == Some("b") && RollbackStep(s, env).1.Recorded? && RollbackStep(s, env).0.file == Some("b")
  {
    hide NextVersion;
    var a, b := DoPublish("a", env), DoPublish("b", env);
    var s0 := State(None, []);
    assert [a, b][..1] == [a] && [a][..0] == [];
    assert Run(s0, []) == s0;
    assert Run(s0, [a]) == Step(s0, a);
    assert Run(s0, [a, b]) == Step(Step(s0, a), b);
    var h1 := Step(s0, a).history;
    LastSuccessAppended([], h1[0]);
    LastSuccessAppended(h1, Step(Step(s0, a), b).history[1]);
  }

  /** In sync, a rollback rewrites what is there: whatever fails, the file keeps its content. */
  lemma RollbackKeepsFile(s: State, env: Env, initial: Option<string>)
    requires InSync(s, initial)
    ensures RollbackStep(s, env).0.file == s.file
  {}

  /** Out of sync, a rollback that goes through brings the last recorded success back. */
  lemma RollbackRepairs(s: State, env: Env, initial: Option<string>)
    requires ClockAhead(s, env.now) && RollbackStep(s, env).1.Recorded? && !env.reloadFails
    ensures var t := RollbackStep(s, env).0;
            InSync(t, initial) && t.file == Some(LastSuccess(s.history).value.yaml)
  {
    LastSuccessAppended(s.history, RollbackStep(s, env).1.record);
  }

  function EnvOf(e: Event): Env { e.env }

  /** The clock never goes back, and every restore and every record write succeeds. */
  predicate Regular(events: seq<Event>) {
    && (forall i, j :: 0 <= i < j < |events| ==> EnvOf(events[i]).now <= EnvOf(events[j]).now)
    && forall i :: 0 <= i < |events| ==> !EnvOf(events[i]).restoreFails && !EnvOf(events[i]).recordFails
  }

  /** Over every regular run the file holds the latest success, or its initial content. */
  lemma {:induction false} RunInSync(initial: Option<string>, events: seq<Event>)
    requires Regular(events)
    ensures var s := Run(State(initial, []), events);
            && InSync(s, initial)
            && forall r :: r in s.history ==> exists i :: 0 <= i < |events| && r.createdAt == EnvOf(events[i]).now
  {
    if events != [] {
      var n := |events| - 1;
      RunInSync(initial, events[..n]);
      var s := Run(State(initial, []), events[..n]);
      var env := EnvOf(events[n]);
      forall r | r in s.history ensures r.createdAt <= env.now {
        var i :| 0 <= i < n && r.createdAt == EnvOf(events[..n][i]).now;
        assert events[..n][i] == events[i];
      }
      match events[n]
      case DoPublish(yaml, _) => PublishSync(s, yaml, env, initial);
      case DoRollback(_) =>
        if LastSuccess(s.history).Some? {
          PublishSync(s, LastSuccess(s.history).value.yaml, env, initial);
        }
      var t := Run(State(initial, []), events);
      forall r | r in t.history ensures exists i :: 0 <= i < |events| && r.createdAt == EnvOf(events[i]).now {
        if r in s.history {
          var i :| 0 <= i < n && r.createdAt == EnvOf(events[..n][i]).now;
          assert r.createdAt == EnvOf(events[i]).now;
        } else {
          assert r.createdAt == EnvOf(events[n]).now;
        }
      }
    }
  }

  // ----- version numbers --------------------------------------------------

  predicate Digits(date: string) {
    forall i :: 0 <= i < |date| ==> '0' <= date[i] <= '9'
  }

  /** A day has no dash, so the first dash of a version ends it. */
  lemma FirstDash(d: string, rest: string)
    requires Digits(d)
    ensures var v := d + "-" + rest; v[|d|] == '-' && forall i :: 0 <= i < |d| ==> v[i] == d[i] != '-'
  {}

  /** Two versions agree only on the same day with the same number. */
  lemma VersionParts(d: string, m: nat, e: string, n: nat)
    requires Digits(d) && Digits(e) && d + "-" + Print(m) == e + "-" + Print(n)
    ensures d == e && m == n
  {
    FirstDash(d, Print(m));
    FirstDash(e, Print(n));
    var v := d + "-" + Print(m);
    assert |d| == |e|;
    assert v[..|d|] == d && v[..|e|] == e;
    assert v[|d| + 1..] == Print(m) && v[|e| + 1..] == Print(n);
    PrintInjective(m, n);
  }

  lemma PrefixOfVersion(d: string, e: string, n: nat)
    requires Digits(d) && Digits(e)
    ensures d + "-" <= e + "-" + Print(n) <==> d == e
  {
    var p, v := d + "-", e + "-" + Print(n);
    FirstDash(d, "");
    FirstDash(e, Print(n));
    if p <= v {
      assert p == v[..|p|];
      assert forall i :: 0 <= i < |d| ==> d[i] == v[i];
      assert |d| == |e|;
      assert d == v[..|d|] && e == v[..|e|];
    }
  }

  /** Each version is a day and a number no greater than that day's count. */
  ghost predicate Numbered(history: seq<Record>) {
    && (forall r :: r in history ==> exists d, n :: NumberedAs(history, r.version, d, n))
    && forall i, j :: 0 <= i < j < |history| ==> history[i].version != history[j].version
  }

  predicate NumberedAs(history: seq<Record>, version: string, d: string, n: nat) {
    Digits(d) && version == d + "-" + Print(n) && n <= CountPrefix(history, d + "-")
  }

  lemma AppendNumbered(history: seq<Record>, r: Record, date: string)
    requires Numbered(history) && Digits(date) && r.version == NextVersion(history, date)
    ensures Numbered(history + [r])
  {
    var h := history + [r];
    var c := CountPrefix(history, date + "-");
    assert h[..|history|] == history;
    PrefixOfVersion(date, date, c + 1);
    assert NumberedAs(h, r.version, date, c + 1);
    forall i | 0 <= i < |history| ensures history[i].version != r.version {
      assert history[i] in history;
      var d, n :| NumberedAs(history, history[i].version, d, n);
      if history[i].version == r.version {
        VersionParts(d, n, date, c + 1);
      }
    }
    forall q | q in h ensures exists d, n :: NumberedAs(h, q.version, d, n) {
      if q in history {
        var d, n :| NumberedAs(history, q.version, d, n);
        assert NumberedAs(h, q.version, d, n);
      }
    }
  }

  /** The versions of a day count up from 1, and each day has its own count. */
  lemma VersionsCountUp(history: seq<Record>, r: Record, date: string, other: string, n: nat)
    requires Digits(date) && Digits(other)
    requires r.version == date + "-" + Print(n) && NextVersion(history, date) == r.version
    ensures NextVersion([], date) == date + "-" + "1"
    ensures NextVersion(history + [r], date) == date + "-" + Print(n + 1)
    ensures other != date ==> NextVersion(history + [r], other) == NextVersion(history, other)
  {
    hide Digits, Print;
    var h := history + [r];
    assert h[..|history|] == history;
    var c := CountPrefix(history, date + "-");
    VersionParts(date, c + 1, date, n);
    PrefixOfVersion(date, date, n);
    PrefixOfVersion(other, date, n);
    PrintOne();
  }

  lemma PrintOne()
    ensures Print(1) == "1"
  {}

  /** However the days follow each other and whatever fails, no two records share a version. */
  lemma {:induction false} VersionsDistinct(initial: Option<string>, events: seq<Event>)
    requires forall e :: e in events ==> Digits(EnvOf(e).date)
    ensures Numbered(Run(State(initial, []), events).history)
  {
    if events != [] {
      var n := |events| - 1;
      VersionsDistinct(initial, events[..n]);
      StepNumbered(Run(State(initial, []), events[..n]), events[n]);
    }
  }

  lemma StepNumbered(s: State, e: Event)
    requires Numbered(s.history) && Digits(EnvOf(e).date)
    ensures Numbered(Step(s, e).history)
  {
    hide Numbered, Digits, NextVersion;
    var t := Step(s, e);
    if t.history != s.history {
      AppendNumbered(s.history, t.history[|t.history| - 1], EnvOf(e).date);
    }
  }
}
