/**
 Traffic accounting (internal/service/traffic_service.go and the hourly buckets
 of internal/store/traffic_store.go): cumulative connection counters become
 per-hour deltas, which any number of concurrent flushes carry into the store.
 Each mutex-protected section and each store transaction is one step.
 */
module Traffic {

  datatype Conn = Conn(id: string, upload: int, download: int, chains: seq<string>)

  datatype Sample = Sample(node: string, upload: int, download: int)

  datatype Key = Key(bucket: int, node: string)

  datatype Delta = Delta(up: int, down: int) {
    function Plus(d: Delta): Delta { Delta(up + d.up, down + d.down) }
  }

  const ZERO := Delta(0, 0)

  lemma PlusAssoc(a: Delta, b: Delta, c: Delta)
    ensures a.Plus(b).Plus(c) == a.Plus(b.Plus(c))
  {}

  type Buckets = map<Key, Delta>

  function Amount(b: Buckets, k: Key): Delta { if k in b then b[k] else ZERO }

  function Bump(b: Buckets, k: Key, d: Delta): Buckets { b[k := Amount(b, k).Plus(d)] }

  function Merge(b: Buckets, c: Buckets): Buckets {
    map k | k in b.Keys + c.Keys :: Amount(b, k).Plus(Amount(c, k))
  }

  /** The start of the hour of a unix time. */
  function HourOf(now: int): int { now - now % 3600 }

  // ----- one snapshot -----------------------------------------------------

  /** A delta as it is attributed: to a connection and to a bucket. */
  datatype Entry = Entry(id: string, key: Key, delta: Delta)

  function Fresh(last: map<string, Sample>, c: Conn): Delta {
    if c.id in last then
      var up, down := c.upload - last[c.id].upload, c.download - last[c.id].download;
      if up < 0 || down < 0 then Delta(c.upload, c.download) else Delta(up, down)
    else
      Delta(c.upload, c.download)
  }

  /** A connection's delta; none without a node, before a baseline exists, or when nothing moved. */
  function EntryOf(last: map<string, Sample>, baseline: bool, c: Conn, bucket: int): seq<Entry> {
    if c.chains == [] || !baseline || Fresh(last, c) == ZERO then []
    else [Entry(c.id, Key(bucket, c.chains[0]), Fresh(last, c))]
  }

  /** The deltas of a snapshot, in its order. */
  function Entries(last: map<string, Sample>, baseline: bool, conns: seq<Conn>, bucket: int): seq<Entry> {
    if conns == [] then []
    else Entries(last, baseline, conns[..|conns| - 1], bucket) + EntryOf(last, baseline, conns[|conns| - 1], bucket)
  }

  /** What the next snapshot will be compared with. */
  function Seen(conns: seq<Conn>): map<string, Sample> {
    if conns == [] then map[]
    else
      var c := conns[|conns| - 1];
      var rest := Seen(conns[..|conns| - 1]);
      if c.chains == [] then rest else rest[c.id := Sample(c.chains[0], c.upload, c.download)]
  }

  function Add(b: Buckets, es: seq<Entry>): Buckets {
    if es == [] then b
    else
      var e := es[|es| - 1];
      Bump(Add(b, es[..|es| - 1]), e.key, e.delta)
  }

  function Part(b: Buckets, keys: set<Key>): Buckets {
    map k | k in b && k in keys :: b[k]
  }

  lemma MergeOne(p: Buckets, taken: Buckets, keys: set<Key>, k: Key)
    requires k in taken && k !in keys
    ensures Merge(p, Part(taken, keys + {k})) == Bump(Merge(p, Part(taken, keys)), k, taken[k])
  {}

  lemma MergeNone(p: Buckets, taken: Buckets)
    ensures Merge(p, Part(taken, {})) == p
  {}

  lemma WholePart(b: Buckets)
    ensures Part(b, b.Keys) == b
  {}

  lemma BumpAmount(b: Buckets, key: Key, d: Delta, k: Key)
    ensures Amount(Bump(b, key, d), k) == Amount(b, k).Plus(if key == k then d else ZERO)
  {}

  lemma MergeAmount(b: Buckets, c: Buckets, k: Key)
    ensures Amount(Merge(b, c), k) == Amount(b, k).Plus(Amount(c, k))
  {}

  lemma Extend(last: map<string, Sample>, baseline: bool, conns: seq<Conn>, i: nat, bucket: int)
    requires i < |conns|
    ensures Entries(last, baseline, conns[..i + 1], bucket) ==
            Entries(last, baseline, conns[..i], bucket) + EntryOf(last, baseline, conns[i], bucket)
    ensures Seen(conns[..i + 1]) ==
            if conns[i].chains == [] then Seen(conns[..i])
            else Seen(conns[..i])[conns[i].id := Sample(conns[i].chains[0], conns[i].upload, conns[i].download)]
  {
    assert conns[..i + 1][..i] == conns[..i];
  }

  lemma NothingYet(b: Buckets, last: map<string, Sample>, baseline: bool, bucket: int)
    ensures Seen([]) == map[] && Add(b, Entries(last, baseline, [], bucket)) == b
  {}

  lemma AddOne(b: Buckets, es: seq<Entry>, e: Entry)
    ensures Add(b, es + [e]) == Bump(Add(b, es), e.key, e.delta)
  {
    assert (es + [e])[..|es|] == es;
  }

  // ----- what a snapshot adds, bucket by bucket ---------------------------

  /** What moved since the last snapshot; a new connection, or one whose counter fell, is charged whole. */
  function Moved(last: map<string, Sample>, c: Conn): Delta {
    if c.id in last && c.upload >= last[c.id].upload && c.download >= last[c.id].download
    then Delta(c.upload - last[c.id].upload, c.download - last[c.id].download)
    else Delta(c.upload, c.download)
  }

  /** The traffic of the connections whose chain starts at the node. */
  function ThroughNode(last: map<string, Sample>, conns: seq<Conn>, node: string): Delta {
    if conns == [] then ZERO
    else
      var c := conns[|conns| - 1];
      ThroughNode(last, conns[..|conns| - 1], node).Plus(if c.chains != [] && c.chains[0] == node then Moved(last, c) else ZERO)
  }

  predicate WithinHour(hour: int, now: int) { hour % 3600 == 0 && hour <= now < hour + 3600 }

  lemma HourHolds(hour: int, now: int)
    ensures WithinHour(hour, now) <==> hour == HourOf(now)
  {}

  lemma FreshMoved(last: map<string, Sample>, c: Conn)
    ensures Fresh(last, c) == Moved(last, c)
  {}

  lemma OneConn(b: Buckets, last: map<string, Sample>, es: seq<Entry>, c: Conn, bucket: int, k: Key)
    ensures Amount(Add(b, es + EntryOf(last, true, c, bucket)), k) ==
            Amount(Add(b, es), k).Plus(if c.chains != [] && k == Key(bucket, c.chains[0]) then Moved(last, c) else ZERO)
  {
    hide Amount, Add, Moved, Fresh;
    FreshMoved(last, c);
    if c.chains == [] || Fresh(last, c) == ZERO {
      assert es + [] == es;
    } else {
      var e := Entry(c.id, Key(bucket, c.chains[0]), Fresh(last, c));
      AddOne(b, es, e);
      BumpAmount(Add(b, es), e.key, e.delta, k);
    }
  }

  predicate Grows(before: Buckets, after: Buckets, last: map<string, Sample>, conns: seq<Conn>, now: int, k: Key) {
    Amount(after, k) == Amount(before, k).Plus(if WithinHour(k.bucket, now) then ThroughNode(last, conns, k.node) else ZERO)
  }

  /** Each bucket grows by the traffic of its hour and its node, and no other bucket grows. */
  lemma {:induction false} BucketsGrow(b: Buckets, last: map<string, Sample>, conns: seq<Conn>, now: int, k: Key)
    ensures Grows(b, Add(b, Entries(last, true, conns, HourOf(now))), last, conns, now, k)
  {
    hide Amount, EntryOf, Moved, HourOf, WithinHour;
    HourHolds(k.bucket, now);
    if conns != [] {
      var init, c := conns[..|conns| - 1], conns[|conns| - 1];
      BucketsGrow(b, last, init, now, k);
      OneConn(b, last, Entries(last, true, init, HourOf(now)), c, HourOf(now), k);
    }
  }

  lemma {:induction false} NoBaselineNoEntries(last: map<string, Sample>, conns: seq<Conn>, bucket: int)
    ensures Entries(last, false, conns, bucket) == []
  {
    if conns != [] { NoBaselineNoEntries(last, conns[..|conns| - 1], bucket); }
  }

  /** The last listing of a connection that names a node is what it is compared with next. */
  lemma {:induction false} LastListingSeen(conns: seq<Conn>, id: string)
    ensures id in Seen(conns) <==> exists i :: 0 <= i < |conns| && conns[i].id == id && conns[i].chains != []
    ensures forall i :: 0 <= i < |conns| && conns[i].id == id && conns[i].chains != [] &&
                        (forall j :: i < j < |conns| ==> conns[j].id != id || conns[j].chains == []) ==>
              Seen(conns)[id] == Sample(conns[i].chains[0], conns[i].upload, conns[i].download)
  {
    if conns != [] {
      var init, n := conns[..|conns| - 1], |conns| - 1;
      LastListingSeen(init, id);
      assert forall i :: 0 <= i < n ==> init[i] == conns[i];
      if i :| 0 <= i < n && init[i].id == id && init[i].chains != [] {
        assert conns[i].id == id && conns[i].chains != [];
      }
      forall i | 0 <= i < |conns| && conns[i].id == id && conns[i].chains != [] &&
                 forall j :: i < j < |conns| ==> conns[j].id != id || conns[j].chains == []
        ensures Seen(conns)[id] == Sample(conns[i].chains[0], conns[i].upload, conns[i].download)
      {
        if i < n {
          assert init[i].id == id && init[i].chains != [];
          assert conns[n].id != id || conns[n].chains == [];
        }
      }
    }
  }

  lemma Totals(b: Buckets, last: map<string, Sample>, baseline: bool, conns: seq<Conn>, now: int)
    ensures var after := Add(b, Entries(last, baseline, conns, HourOf(now)));
            if baseline then forall k: Key :: Grows(b, after, last, conns, now, k) else after == b
    ensures forall id :: id in Seen(conns) <==> exists i :: 0 <= i < |conns| && conns[i].id == id && conns[i].chains != []
  {
    hide Grows, Entries, Seen, HourOf;
    NoBaselineNoEntries(last, conns, HourOf(now));
    forall k: Key ensures Grows(b, Add(b, Entries(last, true, conns, HourOf(now))), last, conns, now, k) {
      BucketsGrow(b, last, conns, now, k);
    }
    forall id ensures id in Seen(conns) <==> exists i :: 0 <= i < |conns| && conns[i].id == id && conns[i].chains != [] {
      LastListingSeen(conns, id);
    }
  }

  // ----- the service's shared fields --------------------------------------

  class TrafficService {
    var lastSeen: map<string, Sample>
    var pending: Buckets
    var baseline: bool

    constructor ()
      ensures lastSeen == map[] && pending == map[] && !baseline
    {
      lastSeen, pending, baseline := map[], map[], false;
    }

    /** mihomo did not answer: its counters may restart, so the baseline is dropped. */
    method PollFailed()
      modifies this
      ensures lastSeen == map[] && !baseline && pending == old(pending)
    {
      lastSeen := map[];
      baseline := false;
    }

    method Ingest(conns: seq<Conn>, now: int)
      modifies this
      ensures pending == Add(old(pending), Entries(old(lastSeen), old(baseline), conns, HourOf(now)))
      ensures lastSeen == Seen(conns) && baseline
      ensures !old(baseline) ==> pending == old(pending)
      ensures old(baseline) ==> forall k: Key :: Grows(old(pending), pending, old(lastSeen), conns, now, k)
      ensures forall id :: id in lastSeen <==> exists i :: 0 <= i < |conns| && conns[i].id == id && conns[i].chains != []
    {
      hide Add, Entries, Seen, HourOf;
      var bucket := HourOf(now);
      NothingYet(pending, lastSeen, baseline, bucket);
      var seen: map<string, Sample> := map[];
      for i := 0 to |conns|
        invariant seen == Seen(conns[..i])
        invariant lastSeen == old(lastSeen) && baseline == old(baseline)
        invariant pending == Add(old(pending), Entries(lastSeen, baseline, conns[..i], bucket))
      {
        Extend(lastSeen, baseline, conns, i, bucket);
        var c := conns[i];
        ghost var es := Entries(lastSeen, baseline, conns[..i], bucket);
        assert es + [] == es;
        if |c.chains| == 0 { continue; }
        var node := c.chains[0];
        seen := seen[c.id := Sample(node, c.upload, c.download)];
        if !baseline { continue; }
        var up, down := c.upload, c.download;
        if c.id in lastSeen {
          up, down := c.upload - lastSeen[c.id].upload, c.download - lastSeen[c.id].download;
          if up < 0 || down < 0 {
            up, down := c.upload, c.download;
          }
        }
        if up == 0 && down == 0 { continue; }
        var k := Key(bucket, node);
        pending := pending[k := Amount(pending, k).Plus(Delta(up, down))];
        assert EntryOf(lastSeen, baseline, c, bucket) == [Entry(c.id, k, Delta(up, down))];
        AddOne(old(pending), es, Entry(c.id, k, Delta(up, down)));
      }
      assert conns[..|conns|] == conns;
      Totals(old(pending), lastSeen, baseline, conns, now);
      lastSeen := seen;
      baseline := true;
    }

    /** The first critical section of a flush. */
    method Take() returns (taken: Buckets)
      modifies this
      ensures taken == old(pending) && pending == map[]
      ensures lastSeen == old(lastSeen) && baseline == old(baseline)
    {
      taken := pending;
      if |pending| == 0 { return; }
      pending := map[];
    }

    /** The second one, after the store refused the rows. */
    method PutBack(taken: Buckets)
      modifies this
      ensures pending == Merge(old(pending), taken)
      ensures lastSeen == old(lastSeen) && baseline == old(baseline)
    {
      hide Merge, Part;
      var keys := taken.Keys;
      ghost var done: set<Key> := {};
      MergeNone(pending, taken);
      while keys != {}
        invariant keys + done == taken.Keys && keys !! done
        invariant pending == Merge(old(pending), Part(taken, done))
        invariant lastSeen == old(lastSeen) && baseline == old(baseline)
      {
        var k :| k in keys;
        MergeOne(old(pending), taken, done, k);
        pending := pending[k := Amount(pending, k).Plus(taken[k])];
        keys, done := keys - {k}, done + {k};
      }
      WholePart(taken);
    }
  }

  datatype Row = Row(key: Key, delta: Delta)

  function SumRows(rows: seq<Row>, k: Key): Delta {
    if rows == [] then ZERO
    else
      var r := rows[|rows| - 1];
      SumRows(rows[..|rows| - 1], k).Plus(if r.key == k then r.delta else ZERO)
  }

  /** INSERT ... ON CONFLICT DO UPDATE SET x = x + excluded.x */
  function Upsert(table: Buckets, k: Key, d: Delta): Buckets {
    if k in table then table[k := table[k].Plus(d)] else table[k := d]
  }

  lemma UpsertRow(table: Buckets, key: Key, d: Delta)
    ensures forall k :: Amount(Upsert(table, key, d), k) == Amount(table, k).Plus(if key == k then d else ZERO)
  {}

  lemma NoRows()
    ensures forall k :: SumRows([], k) == ZERO
  {}

  lemma OneMoreRow(start: Buckets, table: Buckets, rows: seq<Row>, i: nat)
    requires i < |rows| && forall k :: Amount(table, k) == Amount(start, k).Plus(SumRows(rows[..i], k))
    ensures forall k :: Amount(Upsert(table, rows[i].key, rows[i].delta), k) == Amount(start, k).Plus(SumRows(rows[..i + 1], k))
  {
    hide Upsert, Amount;
    assert rows[..i + 1][..i] == rows[..i];
    UpsertRow(table, rows[i].key, rows[i].delta);
  }

  class TrafficStore {
    var hourly: Buckets

    /** Upsert-add of every row in one transaction: all of it, or none when the store fails. */
    method AddHourly(rows: seq<Row>, fails: bool) returns (ok: bool)
      modifies this
      ensures ok == !fails
      ensures ok ==> forall k :: Amount(hourly, k) == Amount(old(hourly), k).Plus(SumRows(rows, k))
      ensures !ok ==> hourly == old(hourly)
    {
      hide Upsert, Amount, SumRows;
      NoRows();
      var table := hourly;
      for i := 0 to |rows|
        invariant hourly == old(hourly)
        invariant forall k :: Amount(table, k) == Amount(old(hourly), k).Plus(SumRows(rows[..i], k))
      {
        var r := rows[i];
        OneMoreRow(hourly, table, rows, i);
        table := Upsert(table, r.key, r.delta);
      }
      assert rows[..|rows|] == rows;
      if fails { return false; }
      hourly := table;
      return true;
    }

    method PruneHourlyBefore(before: int)
      modifies this
      ensures hourly == map k | k in old(hourly) && k.bucket >= before :: old(hourly)[k]
    {
      hourly := map k | k in hourly && k.bucket >= before :: hourly[k];
    }
  }

  lemma AppendRow(rows: seq<Row>, r: Row)
    ensures forall k :: SumRows(rows + [r], k) == SumRows(rows, k).Plus(if r.key == k then r.delta else ZERO)
  {
    assert (rows + [r])[..|rows|] == rows;
  }

  /** The rows of a flush list each taken bucket once, so the store receives exactly what was taken. */
  method RowsOf(taken: Buckets) returns (rows: seq<Row>)
    ensures forall k :: SumRows(rows, k) == Amount(taken, k)
  {
    rows := [];
    var keys := taken.Keys;
    NoRows();
    hide SumRows;
    while keys != {}
      invariant keys <= taken.Keys
      invariant forall k :: SumRows(rows, k) == if k in taken && k !in keys then taken[k] else ZERO
    {
      var k :| k in keys;
      AppendRow(rows, Row(k, taken[k]));
      rows := rows + [Row(k, taken[k])];
      keys := keys - {k};
    }
  }

  /** One flush on its own: all pending deltas reach the store, or everything stays as it was. */
  method Flush(service: TrafficService, store: TrafficStore, fails: bool, cutoff: int)
    modifies service, store
    ensures service.lastSeen == old(service.lastSeen) && service.baseline == old(service.baseline)
    ensures fails ==> service.pending == old(service.pending) && store.hourly == old(store.hourly)
    ensures !fails && old(service.pending) != map[] ==>
        && service.pending == map[]
        && forall k :: Amount(store.hourly, k) ==
             if k.bucket < cutoff then ZERO else Amount(old(store.hourly), k).Plus(Amount(old(service.pending), k))
  {
    if |service.pending| == 0 { return; }
    var taken := service.Take();
    var rows := RowsOf(taken);
    var ok := store.AddHourly(rows, fails);
    if !ok {
      service.PutBack(taken);
      MergeInto(taken);
      return;
    }
    store.PruneHourlyBefore(cutoff);
  }

  lemma MergeInto(taken: Buckets)
    ensures Merge(map[], taken) == taken
  {}
}
