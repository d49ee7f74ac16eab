/**
 The durable scoring queue (internal/store/node_score_store.go): rows double as
 the scheduler's queue, selected by status and by the stamp of their due time.
 */
module ScoreStore {
  import opened Calendar
  import opened UtcStamp
  import opened Decimal

  datatype Status = Pending | Testing | Scored | Failed

  /** history stands for the stored result columns, which only a success rewrites. */
  datatype Row = Row(source: string, provider: string, name: string, status: Status, fingerprint: string,
                     nextDue: NullTime, manual: bool, attempts: nat, history: string)

  type Table = map<string, Row>

  function Set(time: int): NullTime { NullTime(time, true) }

  /** The automatic filter: a paused provider's rows wait unless they were asked for explicitly. */
  predicate Wanted(r: Row, paused: set<string>) {
    paused == {} || r.manual || r.provider !in paused
  }

  /** The WHERE clause of ListDue, comparing stamps as strings. */
  predicate Selected(r: Row, now: int, paused: set<string>) {
    r.status != Testing && DueInSql(r.nextDue, now) && Wanted(r, paused)
  }

  /** What it is meant to select. */
  predicate Eligible(r: Row, now: int, paused: set<string>) {
    r.status != Testing && (r.nextDue.IsZero() || r.nextDue.time <= now) && Wanted(r, paused)
  }

  predicate FourDigitYears(rows: Table) {
    forall k :: k in rows && rows[k].nextDue.valid ==> FourDigitYear(rows[k].nextDue.time)
  }

  lemma SelectedExactly(r: Row, now: int, paused: set<string>)
    requires FourDigitYear(now) && (r.nextDue.valid ==> FourDigitYear(r.nextDue.time))
    ensures Selected(r, now, paused) <==> Eligible(r, now, paused)
  {
    hide NullTime.IsZero, DueInSql;
    DueExact(r.nextDue, now);
  }

  /** ORDER BY next_due: NULL first, then by text. */
  predicate NoLater(a: NullTime, b: NullTime) {
    match (a.Value(), b.Value())
    case (NULL, _) => true
    case (Text(_), NULL) => false
    case (Text(s), Text(t)) => s == t || StrLess(s, t)
  }

  /** A result of ListDue: distinct selected rows in order, and all of them unless the limit cuts off later ones. */
  ghost predicate DueBatch(rows: Table, now: int, paused: set<string>, limit: nat, batch: seq<string>) {
    && |batch| <= limit
    && (forall i, j :: 0 <= i < j < |batch| ==> batch[i] != batch[j])
    && (forall k :: k in batch ==> k in rows && Selected(rows[k], now, paused))
    && (forall i, j :: 0 <= i < j < |batch| ==> NoLater(rows[batch[i]].nextDue, rows[batch[j]].nextDue))
    && forall k :: k in rows && Selected(rows[k], now, paused) && k !in batch ==>
         |batch| == limit && forall b :: b in batch ==> NoLater(rows[b].nextDue, rows[k].nextDue)
  }

  lemma NoLaterTotal(a: NullTime, b: NullTime)
    ensures NoLater(a, b) || NoLater(b, a)
  {
    hide UTCStamp, NullTime.IsZero;
    if a.Value().Text? && b.Value().Text? {
      LessTotal(a.Value().text, b.Value().text);
    }
  }

  lemma NoLaterTransitive(a: NullTime, b: NullTime, c: NullTime)
    requires NoLater(a, b) && NoLater(b, c)
    ensures NoLater(a, c)
  {
    hide UTCStamp, NullTime.IsZero;
    if a.Value().Text? && b.Value().text != c.Value().text && a.Value().text != b.Value().text {
      LessTransitive(a.Value().text, b.Value().text, c.Value().text);
    }
  }

  /** Some order by due time exists for any set of rows, so ListDue always has a result. */
  lemma {:induction false} SortedKeys(rows: Table, keys: set<string>) returns (order: seq<string>)
    requires keys <= rows.Keys
    ensures (forall k :: k in order <==> k in keys) && |order| == |keys|
    ensures forall i, j :: 0 <= i < j < |order| ==> order[i] != order[j] && NoLater(rows[order[i]].nextDue, rows[order[j]].nextDue)
    decreases keys
  {
    hide NoLater;
    if keys == {} {
      order := [];
    } else {
      var first := Earliest(rows, keys);
      var rest := SortedKeys(rows, keys - {first});
      order := [first] + rest;
    }
  }

  lemma {:induction false} Earliest(rows: Table, keys: set<string>) returns (first: string)
    requires keys <= rows.Keys && keys != {}
    ensures first in keys && forall k :: k in keys ==> NoLater(rows[first].nextDue, rows[k].nextDue)
    decreases keys
  {
    hide NoLater;
    var k :| k in keys;
    NoLaterTotal(rows[k].nextDue, rows[k].nextDue);
    if keys == {k} {
      first := k;
    } else {
      var other := Earliest(rows, keys - {k});
      NoLaterTotal(rows[k].nextDue, rows[other].nextDue);
      if NoLater(rows[k].nextDue, rows[other].nextDue) {
        forall l | l in keys ensures NoLater(rows[k].nextDue, rows[l].nextDue) {
          if l != k { NoLaterTransitive(rows[k].nextDue, rows[other].nextDue, rows[l].nextDue); }
        }
        first := k;
      } else {
        first := other;
      }
    }
  }

  lemma DueBatchExists(rows: Table, now: int, paused: set<string>, limit: nat)
    ensures exists batch :: DueBatch(rows, now, paused, limit, batch)
  {
    hide NoLater, Selected;
    var keys := set k | k in rows && Selected(rows[k], now, paused);
    var order := SortedKeys(rows, keys);
    var batch := if |order| <= limit then order else order[..limit];
    assert forall i :: 0 <= i < |batch| ==> batch[i] == order[i];
    forall k | k in batch ensures k in rows && Selected(rows[k], now, paused) {
      assert k in order;
    }
    forall k | k in rows && Selected(rows[k], now, paused) && k !in batch
      ensures |batch| == limit && forall b :: b in batch ==> NoLater(rows[b].nextDue, rows[k].nextDue)
    {
      assert k in keys && k in order;
      var j :| 0 <= j < |order| && order[j] == k;
      assert forall i :: 0 <= i < |batch| ==> batch[i] in batch;
    }
    assert DueBatch(rows, now, paused, limit, batch);
  }

  /** On stamps, text order is time order. */
  lemma NoLaterIsTime(a: NullTime, b: NullTime)
    requires (a.valid ==> FourDigitYear(a.time)) && (b.valid ==> FourDigitYear(b.time))
    ensures NoLater(a, b) <==> a.IsZero() || (!b.IsZero() && a.time <= b.time)
  {
    hide UTCStamp, StrLess, FourDigitYear, NullTime.IsZero;
    if !a.IsZero() && !b.IsZero() {
      NotZeroValid(a);
      NotZeroValid(b);
      StampOrder(a.time, b.time);
    }
  }

  lemma NotZeroValid(a: NullTime)
    requires !a.IsZero()
    ensures a.valid
  {}

  /** Go's zero time, year 1, counts as unset: year 0 has 366 days. */
  lemma ZeroIsYearOne(d: NullTime)
    ensures d.IsZero() <==> !d.valid || d.time == 366 * DAY
  {
    assert MonthStart(12) == 366;
  }

  /** Work a dispatch may take: not being tested, due, and not paused unless it was asked for. */
  predicate Takes(r: Row, now: int, paused: set<string>) {
    && r.status != Testing
    && (!r.nextDue.valid || r.nextDue.time == 366 * DAY || r.nextDue.time <= now)
    && (r.manual || r.provider !in paused)
  }

  lemma EligibleTakes(r: Row, now: int, paused: set<string>)
    ensures Eligible(r, now, paused) <==> Takes(r, now, paused)
  {
    hide NullTime.IsZero;
    ZeroIsYearOne(r.nextDue);
  }

  predicate NoYounger(a: NullTime, b: NullTime) {
    !a.valid || a.time == 366 * DAY || (b.valid && b.time != 366 * DAY && a.time <= b.time)
  }

  lemma NoLaterNoYounger(a: NullTime, b: NullTime)
    requires (a.valid ==> FourDigitYear(a.time)) && (b.valid ==> FourDigitYear(b.time))
    ensures NoLater(a, b) <==> NoYounger(a, b)
  {
    hide NullTime.IsZero, NoLater, FourDigitYear;
    NoLaterIsTime(a, b);
    ZeroIsYearOne(a);
    ZeroIsYearOne(b);
  }

  /**
   So a batch is the oldest work there is: distinct rows, all of them to be
   taken, oldest first, and a row left out is no older than any in a full batch.
   */
  lemma BatchIsOldestDue(rows: Table, now: int, paused: set<string>, limit: nat, batch: seq<string>)
    requires FourDigitYear(now) && FourDigitYears(rows) && DueBatch(rows, now, paused, limit, batch)
    ensures |batch| <= limit && forall i, j :: 0 <= i < j < |batch| ==> batch[i] != batch[j]
    ensures forall k :: k in batch ==> k in rows && Takes(rows[k], now, paused)
    ensures forall i, j :: 0 <= i < j < |batch| ==> NoYounger(rows[batch[i]].nextDue, rows[batch[j]].nextDue)
    ensures forall k :: k in rows && Takes(rows[k], now, paused) && k !in batch ==>
              |batch| == limit && forall b :: b in batch ==> NoYounger(rows[b].nextDue, rows[k].nextDue)
  {
    hide Selected, Eligible, NoLater, FourDigitYear, NullTime.IsZero, Takes, NoYounger;
    forall k | k in rows ensures Selected(rows[k], now, paused) <==> Takes(rows[k], now, paused) {
      SelectedExactly(rows[k], now, paused);
      EligibleTakes(rows[k], now, paused);
    }
    forall k, b | k in rows && b in rows
      ensures NoLater(rows[b].nextDue, rows[k].nextDue) <==> NoYounger(rows[b].nextDue, rows[k].nextDue)
    {
      NoLaterNoYounger(rows[b].nextDue, rows[k].nextDue);
    }
  }

  // ----- statements that change rows --------------------------------------

  class NodeScoreStore {
    var rows: Table

    method Upsert(key: string, row: Row)
      modifies this
      ensures rows == old(rows)[key := row]
    {
      rows := rows[key := row];
    }

    method Delete(key: string)
      modifies this
      ensures rows == old(rows) - {key}
    {
      rows := rows - {key};
    }

    /** One UPDATE with the status test in its WHERE clause. */
    method Claim(key: string) returns (claimed: bool)
      modifies this
      ensures claimed <==> key in old(rows) && old(rows)[key].status != Testing
      ensures claimed == Claimable(old(rows), key)
      ensures rows == if claimed then old(rows)[key := old(rows)[key].(status := Testing)] else old(rows)
      ensures claimed ==> rows == Claimed(old(rows), key)
    {
      if key in rows && rows[key].status != Testing {
        rows := rows[key := rows[key].(status := Testing)];
        return true;
      }
      return false;
    }

    /** After a restart nothing is being tested, and what was is due at once. */
    method ResetTesting(now: int)
      modifies this
      ensures rows == AfterReset(old(rows), now)
    {
      rows := map k | k in rows ::
        if rows[k].status == Testing then rows[k].(status := Pending, nextDue := Set(now)) else rows[k];
    }
  }

  predicate Claimable(rows: Table, key: string) { key in rows && rows[key].status != Testing }

  function Claimed(rows: Table, key: string): Table
    requires key in rows
  {
    rows[key := rows[key].(status := Testing)]
  }

  function AfterReset(rows: Table, now: int): Table {
    map k | k in rows :: if rows[k].status == Testing then rows[k].(status := Pending, nextDue := Set(now)) else rows[k]
  }

  /** No row is lost or left stuck by a restart: every row that was being tested is due. */
  lemma ResetRecovers(rows: Table, now: int, k: string)
    requires k in rows
    ensures k in AfterReset(rows, now) && AfterReset(rows, now)[k].status != Testing
    ensures rows[k].status == Testing ==>
              && AfterReset(rows, now)[k] == rows[k].(status := Pending, nextDue := NullTime(now, true))
              && forall t :: now <= t ==> Eligible(AfterReset(rows, now)[k], t, {})
    ensures rows[k].status != Testing ==> AfterReset(rows, now)[k] == rows[k]
  {}

  // ----- what a worker writes back ----------------------------------------

  const MINUTE: int := 60 * SECOND
  const REFRESH_INTERVAL: int := 7 * DAY
  const MAX_BACKOFF: int := 24 * 3600 * SECOND

  datatype Result =
    | Failure
    | RateLimit(retryAfter: int)
    | Success(history: string)

  /** 30 minutes doubled per attempt, at most six times, and at most a day. */
  function Backoff(attempts: nat): int
    requires attempts >= 1
  {
    var doublings := if attempts - 1 < 6 then attempts - 1 else 6;
    var wait := 30 * MINUTE * [1, 2, 4, 8, 16, 32, 64][doublings];
    if wait < MAX_BACKOFF then wait else MAX_BACKOFF
  }

  /** The row as the worker read it when it was listed, with the outcome; it replaces whatever is stored. */
  function Finish(row: Row, result: Result, now: int): Row {
    match result
    case Failure =>
      row.(status := Failed, manual := false, attempts := row.attempts + 1, nextDue := Set(now + Backoff(row.attempts + 1)))
    case RateLimit(after) =>
      row.(status := Pending, manual := false, nextDue := Set(now + if after < MINUTE then MINUTE else after))
    case Success(history) =>
      row.(status := Scored, manual := false, attempts := 0, history := history, nextDue := Set(now + REFRESH_INTERVAL))
  }

  /** A finished probe is never due again at once, nor at any instant up to when it finished. */
  lemma FinishedNotDue(row: Row, result: Result, now: int, t: int, paused: set<string>)
    requires t <= now && now >= DAY * 400
    ensures !Eligible(Finish(row, result, now), t, paused)
  {
    BackoffDoubles(row.attempts + 1);
    ZeroTimeEarly();
  }

  /** Half an hour, doubled after each further failure, up to a day. */
  lemma BackoffDoubles(attempts: nat)
    requires attempts >= 1
    ensures Backoff(1) == 1_800 * SECOND
    ensures Backoff(attempts + 1) == if 2 * Backoff(attempts) < 86_400 * SECOND then 2 * Backoff(attempts) else 86_400 * SECOND
    ensures 1_800 * SECOND <= Backoff(attempts) <= Backoff(attempts + 1) <= 86_400 * SECOND
  {}

  lemma ZeroTimeEarly()
    ensures forall t: NullTime :: t.valid && t.time >= DAY * 400 ==> !t.IsZero()
  {}

  // ----- what a sequence of probes leaves ---------------------------------

  datatype Probe = Probe(result: Result, time: int)

  /** A row through successive probes, each starting from what the one before wrote back. */
  function Probed(row: Row, probes: seq<Probe>): Row {
    if probes == [] then row
    else Finish(Probed(row, probes[..|probes| - 1]), probes[|probes| - 1].result, probes[|probes| - 1].time)
  }

  predicate NoSuccessFrom(probes: seq<Probe>, i: nat) {
    forall j :: i <= j < |probes| ==> !probes[j].result.Success?
  }

  /** Failures from position i on; rate limits do not count. */
  function FailuresFrom(probes: seq<Probe>, i: nat): nat {
    if |probes| <= i then 0
    else FailuresFrom(probes[..|probes| - 1], i) + if probes[|probes| - 1].result.Failure? then 1 else 0
  }

  /** The wait after the n-th failure in a row: 30 minutes, doubled each time, at most a day. */
  function Wait(n: nat): int {
    if n <= 1 then 1_800 * SECOND
    else if 2 * Wait(n - 1) < 86_400 * SECOND then 2 * Wait(n - 1) else 86_400 * SECOND
  }

  lemma {:induction false} WaitIsBackoff(n: nat)
    requires n >= 1
    ensures Wait(n) == Backoff(n)
  {
    hide Backoff;
    if n == 1 {
      BackoffDoubles(1);
    } else {
      WaitIsBackoff(n - 1);
      BackoffDoubles(n - 1);
    }
  }

  /** Identity and inputs stay; the request is used up; status and due time follow the last outcome. */
  predicate LastShows(before: Row, after: Row, last: Probe) {
    && after.source == before.source && after.provider == before.provider && after.name == before.name
    && after.fingerprint == before.fingerprint && !after.manual
    && after.status == (match last.result
                        case Failure => Status.Failed
                        case RateLimit(_) => Pending
                        case Success(_) => Scored)
    && after.nextDue == NullTime(last.time + match last.result
                                             case Failure => Wait(after.attempts)
                                             case RateLimit(d) => if d < 60 * SECOND then 60 * SECOND else d
                                             case Success(_) => 7 * 86_400 * SECOND, true)
  }

  /**
   After any probes of a node the row shows the last outcome, the results of the
   latest success, and the number of failures since it; rate limits leave both.
   */
  lemma {:induction false} ProbesShow(row: Row, probes: seq<Probe>, i: nat)
    requires probes != []
    requires i < |probes| ==> probes[i].result.Success? && NoSuccessFrom(probes, i + 1)
    requires i >= |probes| ==> NoSuccessFrom(probes, 0)
    ensures var after := Probed(row, probes);
            && LastShows(row, after, probes[|probes| - 1])
            && after.history == (if i < |probes| then probes[i].result.history else row.history)
            && after.attempts == (if i < |probes| then FailuresFrom(probes, i) else row.attempts + FailuresFrom(probes, 0))
  {
    hide Backoff, Wait;
    var n := |probes| - 1;
    var init := probes[..n];
    var before := Probed(row, init);
    WaitIsBackoff(before.attempts + 1);
    if i == n {
      NoneFrom(init, n);
      StaysSame(row, init);
    } else {
      assert forall j :: 0 <= j < n ==> init[j] == probes[j];
      assert !probes[n].result.Success?;
      if init != [] {
        ProbesShow(row, init, if i < n then i else n);
      }
    }
  }

  lemma NoneFrom(probes: seq<Probe>, i: nat)
    requires i >= |probes|
    ensures FailuresFrom(probes, i) == 0
  {}

  lemma {:induction false} StaysSame(row: Row, probes: seq<Probe>)
    ensures var after := Probed(row, probes);
            && after.source == row.source && after.provider == row.provider && after.name == row.name
            && after.fingerprint == row.fingerprint
  {
    hide Backoff;
    if probes != [] { StaysSame(row, probes[..|probes| - 1]); }
  }
}
