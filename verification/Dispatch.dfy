/**
 One dispatch of the scoring queue (ScoringService.dispatch and processNode in
 internal/service/scoring_service.go): passes over batches of due rows, a claim
 and a probe per row behind a semaphore, and a barrier after each pass, while
 refreshes, re-queues and prunes rewrite rows at any time.
 */
module Dispatch {
  import opened Prelude
  import opened UtcStamp
  import opened ScoreStore

  const BATCH: nat := 32

  /** A goroutine: the key it probes and the row as it was listed. */
  datatype Probe = Probe(key: string, row: Row)

  datatype Mode =
    | Listing             // about to call ListDue
    | Working             // going through the batch
    | Draining(last: bool)  // waiting for the probes, then done or once more
    | Stopped

  /**
   now, paused and slots are fixed when the dispatch starts. due is the set of
   keys that were due when the pass was listed, claimed those it has claimed.
   */
  datatype State = State(rows: Table, now: int, paused: set<string>, slots: nat, mode: Mode,
                         batch: seq<Probe>, probes: seq<Probe>, due: set<string>, claimed: set<string>)

  datatype Event =
    | List(batch: seq<Probe>)
    | ListFails
    | Next(claimFails: bool)
    | Finished(i: nat, result: Result, time: int, writeFails: bool)
    | Drained
    | Rewrite(rows: Table)   // any other writer

  function KeysOf(ps: seq<Probe>): seq<string> { seq(|ps|, i requires 0 <= i < |ps| => ps[i].key) }

  function Remove(ps: seq<Probe>, i: nat): seq<Probe>
    requires i < |ps|
  {
    ps[..i] + ps[i + 1..]
  }

  ghost function DueKeys(rows: Table, now: int, paused: set<string>): set<string> {
    set k | k in rows && Eligible(rows[k], now, paused)
  }

  ghost function Step(s: State, e: Event): State {
    match e
    case List(batch) =>
      if s.mode == Listing && DueBatch(s.rows, s.now, s.paused, BATCH, KeysOf(batch)) &&
         forall p :: p in batch ==> p.key in s.rows && s.rows[p.key] == p.row
      then s.(mode := Working, batch := batch, due := DueKeys(s.rows, s.now, s.paused), claimed := {})
      else s
    case ListFails => if s.mode == Listing then s.(mode := Stopped) else s
    case Next(claimFails) =>
      if s.mode != Working then s
      else if s.batch == [] then s.(mode := Draining(s.claimed == {}))
      else if |s.probes| >= s.slots then s.(mode := Draining(true))
      else
        var p := s.batch[0];
        if claimFails || !Claimable(s.rows, p.key) then s.(batch := s.batch[1..])
        else s.(batch := s.batch[1..], rows := Claimed(s.rows, p.key), probes := s.probes + [p],
                claimed := s.claimed + {p.key})
    case Finished(i, result, time, writeFails) =>
      if i >= |s.probes| then s
      else
        var p := s.probes[i];
        s.(probes := Remove(s.probes, i),
           rows := if writeFails then s.rows else s.rows[p.key := Finish(p.row, result, time)])
    case Drained =>
      if !s.mode.Draining? || s.probes != [] then s
      else s.(mode := if s.mode.last then Stopped else Listing)
    case Rewrite(rows) => s.(rows := rows)
  }

  ghost function Run(s: State, events: seq<Event>): State {
    if events == [] then s else Step(Run(s, events[..|events| - 1]), events[|events| - 1])
  }

  function Start(rows: Table, now: int, paused: set<string>, slots: nat): State {
    State(rows, now, paused, slots, Listing, [], [], {}, {})
  }

  // ----- no node is probed twice at once ----------------------------------

  predicate DistinctKeys(ps: seq<Probe>) {
    forall i, j :: 0 <= i < j < |ps| ==> ps[i].key != ps[j].key
  }

  predicate Apart(ps: seq<Probe>, qs: seq<Probe>) {
    forall i, j :: 0 <= i < |ps| && 0 <= j < |qs| ==> ps[i].key != qs[j].key
  }

  /** Probes run on different keys, none of which is still ahead in the batch; between passes none runs. */
  predicate Exclusive(s: State) {
    && |s.probes| <= s.slots
    && DistinctKeys(s.probes) && DistinctKeys(s.batch)
    && (s.mode == Working ==> Apart(s.probes, s.batch))
    && (s.mode == Listing || s.mode == Stopped ==> s.probes == [])
  }

  lemma BatchDistinct(batch: seq<Probe>, rows: Table, now: int, paused: set<string>)
    requires DueBatch(rows, now, paused, BATCH, KeysOf(batch))
    ensures DistinctKeys(batch) && |batch| <= BATCH
  {
    var keys := KeysOf(batch);
    forall i, j | 0 <= i < j < |batch| ensures batch[i].key != batch[j].key {
      assert keys[i] != keys[j];
    }
  }

  lemma StepExclusive(s: State, e: Event)
    requires Exclusive(s)
    ensures Exclusive(Step(s, e))
  {
    hide Eligible, Finish, Claimable, DueBatch;
    match e
    case List(batch) =>
      if Step(s, e) != s { BatchDistinct(batch, s.rows, s.now, s.paused); }
    case ListFails =>
    case Next(claimFails) =>
    case Finished(i, result, time, writeFails) =>
      if i < |s.probes| {
        var ps := Remove(s.probes, i);
        assert forall j :: 0 <= j < |ps| ==> ps[j] == s.probes[if j < i then j else j + 1];
      }
    case Drained =>
    case Rewrite(rows) =>
  }

  /**
   In every run, whatever other writers do to the rows, no node key has two
   probes in flight, at most slots probes run, and none runs between passes.
   */
  lemma {:induction false} RunExclusive(rows: Table, now: int, paused: set<string>, slots: nat, events: seq<Event>)
    ensures Exclusive(Run(Start(rows, now, paused, slots), events))
  {
    if events != [] {
      RunExclusive(rows, now, paused, slots, events[..|events| - 1]);
      StepExclusive(Run(Start(rows, now, paused, slots), events[..|events| - 1]), events[|events| - 1]);
    }
  }

  // ----- termination ------------------------------------------------------

  /**
   Other writers enqueue nothing that is due at the captured instant, workers
   finish no earlier than it, and due times stay within the range of the stamp.
   */
  ghost predicate Fair(s: State, e: Event) {
    && (e.Rewrite? ==> DueKeys(e.rows, s.now, s.paused) <= DueKeys(s.rows, s.now, s.paused))
    && (e.Finished? ==> s.now <= e.time)
    && (e.List? ==> FourDigitYears(s.rows))
  }

  ghost predicate FairRun(s: State, events: seq<Event>) {
    events != [] ==> FairRun(s, events[..|events| - 1]) && Fair(Run(s, events[..|events| - 1]), events[|events| - 1])
  }

  /** Within a pass, what is still due was due when it was listed and has not been claimed. */
  ghost predicate Shrinking(s: State) {
    && (s.mode == Working || s.mode == Draining(false) ==>
          && DueKeys(s.rows, s.now, s.paused) <= s.due
          && s.claimed <= s.due && s.claimed !! DueKeys(s.rows, s.now, s.paused))
    && (s.mode == Working ==> forall p :: p in s.batch ==> p.key in s.due)
    && (s.mode == Draining(false) ==> s.claimed != {})
    && |s.batch| <= BATCH
    && s.now >= DAY * 400 && FourDigitYear(s.now)
  }

  lemma ClaimShrinks(rows: Table, key: string, now: int, paused: set<string>)
    requires Claimable(rows, key)
    ensures DueKeys(Claimed(rows, key), now, paused) == DueKeys(rows, now, paused) - {key}
  {
    hide Wanted, NullTime.IsZero;
  }

  lemma FinishShrinks(rows: Table, p: Probe, result: Result, time: int, now: int, paused: set<string>)
    requires now <= time && now >= DAY * 400
    ensures DueKeys(rows[p.key := Finish(p.row, result, time)], now, paused) == DueKeys(rows, now, paused) - {p.key}
  {
    FinishedNotDue(p.row, result, time, now, paused);
    hide Eligible, Finish;
  }

  /** Every key of a batch was due when it was listed. */
  lemma BatchDue(rows: Table, now: int, paused: set<string>, batch: seq<Probe>)
    requires DueBatch(rows, now, paused, BATCH, KeysOf(batch))
    requires FourDigitYear(now) && FourDigitYears(rows)
    ensures forall p :: p in batch ==> p.key in DueKeys(rows, now, paused)
  {
    hide Eligible, Selected, FourDigitYear, NoLater;
    forall p | p in batch ensures p.key in DueKeys(rows, now, paused) {
      var i :| 0 <= i < |batch| && batch[i] == p;
      assert KeysOf(batch)[i] == p.key;
      SelectedExactly(rows[p.key], now, paused);
    }
  }

  lemma StepShrinking(s: State, e: Event)
    requires Shrinking(s) && Fair(s, e)
    ensures Shrinking(Step(s, e))
  {
    hide Eligible, Finish, FourDigitYear, DueBatch;
    match e
    case List(batch) =>
      if Step(s, e) != s {
        BatchDistinct(batch, s.rows, s.now, s.paused);
        BatchDue(s.rows, s.now, s.paused, batch);
      }
    case ListFails =>
    case Next(claimFails) =>
      if s.mode == Working && s.batch != [] {
        if Claimable(s.rows, s.batch[0].key) {
          ClaimShrinks(s.rows, s.batch[0].key, s.now, s.paused);
        }
      }
    case Finished(i, result, time, writeFails) =>
      if i < |s.probes| {
        FinishShrinks(s.rows, s.probes[i], result, time, s.now, s.paused);
      }
    case Drained =>
    case Rewrite(rows) =>
  }

  /** Rows left to do; in a pass, as many as it listed. */
  ghost function Left(s: State): nat {
    if s.mode == Listing then |DueKeys(s.rows, s.now, s.paused)| else if s.mode == Stopped then 0 else |s.due|
  }

  function Phase(mode: Mode): nat {
    match mode
    case Listing => 3
    case Working => 2
    case Draining(_) => 1
    case Stopped => 0
  }

  /** Rows left, then the phase of the pass, then the rest of the batch, then the probes, as one number. */
  ghost function Measure(s: State): nat {
    Weigh(Left(s) * 4 + Phase(s.mode), |s.batch|, |s.probes|, s.slots + 1)
  }

  function Weigh(a: nat, b: nat, c: nat, w: nat): nat { (a * (BATCH + 1) + b) * w + c }

  lemma WeighOrder(a: nat, b: nat, c: nat, a': nat, b': nat, c': nat, w: nat)
    requires b <= BATCH && b' <= BATCH && c < w && c' < w
    requires a' < a || (a' == a && (b' < b || (b' == b && c' < c)))
    ensures Weigh(a', b', c', w) < Weigh(a, b, c, w)
  {
    var x, x' := a * (BATCH + 1) + b, a' * (BATCH + 1) + b';
    if x' < x {
      assert x' * w + w <= x * w by { MulMono(x' + 1, x, w); }
    }
  }

  lemma MulMono(x: nat, y: nat, w: nat)
    requires x <= y
    ensures x * w <= y * w
  {}

  predicate Closer(t: State, s: State, left': nat, left: nat) {
    var a', a := left' * 4 + Phase(t.mode), left * 4 + Phase(s.mode);
    a' < a || (a' == a && (|t.batch| < |s.batch| || (|t.batch| == |s.batch| && |t.probes| < |s.probes|)))
  }

  /** A pass that claimed something leaves fewer rows than it listed. */
  lemma PassShrinks(s: State)
    requires Shrinking(s) && s.mode == Draining(false)
    ensures |DueKeys(s.rows, s.now, s.paused)| < |s.due|
  {
    var due := DueKeys(s.rows, s.now, s.paused);
    assert due <= s.due - s.claimed;
    SubsetSize(due, s.due);
  }

  lemma OneLess(ps: seq<Probe>, i: nat)
    requires i < |ps|
    ensures |Remove(ps, i)| == |ps| - 1
  {}

  lemma StepCloser(s: State, e: Event)
    requires Exclusive(s) && Shrinking(s) && !e.Rewrite? && Step(s, e) != s
    ensures Closer(Step(s, e), s, Left(Step(s, e)), Left(s))
  {
    hide DueKeys, DueBatch, Shrinking, DistinctKeys, Apart, Claimable, Claimed, Finish, Remove;
    if s.mode == Draining(false) { PassShrinks(s); }
    match e
    case List(batch) =>
    case ListFails =>
    case Next(claimFails) =>
    case Finished(i, result, time, writeFails) =>
      OneLess(s.probes, i);
    case Drained =>
  }

  /** Everything the dispatch itself does brings it closer to its end. */
  lemma StepDecreases(s: State, e: Event)
    requires Exclusive(s) && Shrinking(s) && Fair(s, e) && !e.Rewrite? && Step(s, e) != s
    ensures Measure(Step(s, e)) < Measure(s)
  {
    hide Step, DueKeys, DueBatch, Fair, Shrinking, Exclusive, Phase, Left, Weigh;
    var t := Step(s, e);
    StepExclusive(s, e);
    StepShrinking(s, e);
    StepCloser(s, e);
    SlotsFixed(s, e);
    Bounds(s);
    Bounds(t);
    WeighOrder(Left(s) * 4 + Phase(s.mode), |s.batch|, |s.probes|, Left(t) * 4 + Phase(t.mode), |t.batch|, |t.probes|, s.slots + 1);
  }

  lemma Bounds(s: State)
    requires Exclusive(s) && Shrinking(s)
    ensures |s.batch| <= BATCH && |s.probes| <= s.slots
  {}

  lemma SlotsFixed(s: State, e: Event)
    ensures Step(s, e).slots == s.slots && Step(s, e).now == s.now && Step(s, e).paused == s.paused
  {}

  /** What other writers do never brings it further away. */
  lemma RewriteNeverIncreases(s: State, rows: Table)
    requires Fair(s, Rewrite(rows)) && Exclusive(s) && |s.batch| <= BATCH
    ensures Measure(Step(s, Rewrite(rows))) <= Measure(s)
  {
    var t := Step(s, Rewrite(rows));
    SubsetSize(DueKeys(rows, s.now, s.paused), DueKeys(s.rows, s.now, s.paused));
    if Left(t) < Left(s) {
      WeighOrder(Left(s) * 4 + Phase(s.mode), |s.batch|, |s.probes|, Left(t) * 4 + Phase(t.mode), |t.batch|, |t.probes|, s.slots + 1);
    }
  }

  /** The steps of the dispatch itself in a run, not counting those that find nothing to do. */
  ghost function OwnSteps(s: State, events: seq<Event>): nat {
    if events == [] then 0
    else
      var before, e := Run(s, events[..|events| - 1]), events[|events| - 1];
      OwnSteps(s, events[..|events| - 1]) + if e.Rewrite? || Step(before, e) == before then 0 else 1
  }

  /**
   Termination: however other writers interleave, as long as nothing new becomes
   due at the captured instant, a dispatch takes at most Measure steps.
   */
  lemma {:induction false} DispatchTerminates(s: State, events: seq<Event>)
    requires Exclusive(s) && Shrinking(s) && FairRun(s, events)
    ensures var t := Run(s, events);
            && Exclusive(t) && Shrinking(t) && t.now == s.now && t.slots == s.slots
            && OwnSteps(s, events) + Measure(t) <= Measure(s)
  {
    hide Exclusive, Shrinking, Fair, Measure;
    if events != [] {
      DispatchTerminates(s, events[..|events| - 1]);
      var before, e := Run(s, events[..|events| - 1]), events[|events| - 1];
      OneStep(before, e);
    }
  }

  lemma OneStep(s: State, e: Event)
    requires Exclusive(s) && Shrinking(s) && Fair(s, e)
    ensures var t := Step(s, e);
            && Exclusive(t) && Shrinking(t) && t.now == s.now && t.slots == s.slots
            && Measure(t) + (if e.Rewrite? || t == s then 0 else 1) <= Measure(s)
  {
    StepExclusive(s, e);
    StepShrinking(s, e);
    if e.Rewrite? {
      RewriteNeverIncreases(s, e.rows);
    } else if Step(s, e) != s {
      StepDecreases(s, e);
    }
  }

  /** From its start, a dispatch is over after a number of steps that depends on the due rows alone. */
  lemma DispatchBound(rows: Table, now: int, paused: set<string>, slots: nat, events: seq<Event>)
    requires now >= DAY * 400 && FourDigitYear(now) && FairRun(Start(rows, now, paused, slots), events)
    ensures OwnSteps(Start(rows, now, paused, slots), events) <=
            (4 * |DueKeys(rows, now, paused)| + 3) * (BATCH + 1) * (slots + 1)
  {
    hide Run, OwnSteps, FairRun, FourDigitYear, Eligible;
    DispatchTerminates(Start(rows, now, paused, slots), events);
  }

  /** And it never hangs: until it has stopped, one of its own steps can be taken. */
  lemma NeverStuck(s: State)
    requires s.mode != Stopped
    ensures exists e: Event :: !e.Rewrite? && Step(s, e) != s
  {
    match s.mode
    case Listing =>
      assert Step(s, ListFails).mode == Stopped;
    case Working =>
      if s.batch == [] {
        assert Step(s, Next(true)).mode.Draining?;
      } else if |s.probes| >= s.slots {
        assert Step(s, Next(true)).mode.Draining?;
      } else {
        assert |Step(s, Next(true)).batch| < |s.batch|;
      }
    case Draining(last) =>
      if s.probes == [] {
        assert Step(s, Drained).mode != s.mode;
      } else {
        assert |Step(s, Finished(0, Failure, 0, true)).probes| < |s.probes|;
      }
  }

  // ----- what a finished dispatch leaves ----------------------------------

  /** Nothing cuts the dispatch short: no listing fails, no row waits for a free slot, and a pass with work claims some of it. */
  ghost predicate Smooth(s: State, e: Event) {
    && (e.ListFails? ==> s.mode != Listing)
    && (e.Next? && s.mode == Working ==>
          if s.batch != [] then |s.probes| < s.slots else s.claimed != {} || s.due == {})
  }

  ghost predicate SmoothRun(s: State, events: seq<Event>) {
    events != [] ==> SmoothRun(s, events[..|events| - 1]) && Smooth(Run(s, events[..|events| - 1]), events[|events| - 1])
  }

  ghost predicate Emptied(s: State) {
    s.mode == Draining(true) || s.mode == Stopped ==> DueKeys(s.rows, s.now, s.paused) == {}
  }

  lemma StepEmptied(s: State, e: Event)
    requires Emptied(s) && Shrinking(s) && Fair(s, e) && Smooth(s, e)
    ensures Emptied(Step(s, e))
  {
    hide Eligible, Finish, FourDigitYear, DueBatch, Claimable, Claimed;
    if e.Finished? && e.i < |s.probes| {
      FinishShrinks(s.rows, s.probes[e.i], e.result, e.time, s.now, s.paused);
    }
  }

  /** A dispatch that nothing cuts short goes on, pass after pass, until no row is due. */
  lemma StopsWhenDone(rows: Table, now: int, paused: set<string>, slots: nat, events: seq<Event>)
    requires now >= DAY * 400 && FourDigitYear(now)
    requires var s := Start(rows, now, paused, slots); FairRun(s, events) && SmoothRun(s, events)
    ensures var t := Run(Start(rows, now, paused, slots), events);
            t.mode == Stopped ==> forall k :: k in t.rows ==> !Takes(t.rows[k], now, paused)
  {
    hide FairRun, SmoothRun, Takes, Eligible, FourDigitYear;
    var s := Start(rows, now, paused, slots);
    RunEmptied(s, events);
    var t := Run(s, events);
    if t.mode == Stopped {
      forall k | k in t.rows ensures !Takes(t.rows[k], now, paused) {
        EligibleTakes(t.rows[k], now, paused);
        assert k !in DueKeys(t.rows, t.now, t.paused);
      }
    }
  }

  lemma {:induction false} RunEmptied(s: State, events: seq<Event>)
    requires Shrinking(s) && Emptied(s) && FairRun(s, events) && SmoothRun(s, events)
    ensures var t := Run(s, events); Shrinking(t) && Emptied(t) && t.now == s.now && t.paused == s.paused
  {
    hide Shrinking, Emptied, Fair, Smooth, Step;
    if events != [] {
      var before, e := Run(s, events[..|events| - 1]), events[|events| - 1];
      RunEmptied(s, events[..|events| - 1]);
      StepShrinking(before, e);
      StepEmptied(before, e);
      SlotsFixed(before, e);
    }
  }
}
