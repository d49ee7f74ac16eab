/**
 Subscription rows and the statements that change them
 (internal/store/subscription_store.go, with the unique indexes of
 internal/store/migrations.go). A row has two halves that different statements
 write: the metadata an operator edits and the snapshot a refresh brings.
 */
module Subscriptions {
  import opened Prelude
  import opened UtcStamp

  datatype Source = Native | Traffic

  /** provider names an entry of the draft, link a traffic provider; "" is none. */
  datatype Meta = Meta(name: string, enabled: bool, source: Source, provider: string, providerSource: string,
                       link: string, quota: int, expire: int, day: int, hour: int, minute: int, zone: string)

  /** The vendor's figures as stored. */
  datatype Usage = Usage(upload: int, download: int, total: int, expire: int, counters: bool,
                         isAggregate: bool, aggregateUsed: int, vendorResetDay: int)

  datatype Snapshot = Snapshot(usage: Usage, fetchedAt: NullTime, lastRefresh: NullTime, lastSuccess: NullTime, lastError: string)

  datatype Row = Row(meta: Meta, snap: Snapshot)

  type Table = map<string, Row>

  datatype TrafficProvider = TrafficProvider(url: string, quota: int, day: int, hour: int, minute: int, zone: string)

  const NO_USAGE: Usage := Usage(0, 0, 0, 0, false, false, 0, 0)
  const NEVER: NullTime := NullTime(0, false)
  const CLEARED: Snapshot := Snapshot(NO_USAGE, NEVER, NEVER, NEVER, "")

  // ----- the unique indexes -----------------------------------------------

  /** No index holds two rows apart from each other: display names, managed providers, traffic sources. */
  predicate Compatible(a: Meta, b: Meta) {
    && a.name != b.name
    && (a.provider != "" ==> a.provider != b.provider)
    && (a.source == Traffic && b.source == Traffic && a.link != "" ==> a.link != b.link)
  }

  predicate Unique(rows: Table) {
    forall i, j :: i in rows && j in rows && i != j ==> Compatible(rows[i].meta, rows[j].meta)
  }

  /** The indexes let a row with this metadata be stored under id. */
  predicate Storable(rows: Table, id: string, m: Meta) {
    forall i :: i in rows && i != id ==> Compatible(m, rows[i].meta)
  }

  // ----- statements -------------------------------------------------------

  /**
   Saving metadata: a new row starts without a snapshot, and a traffic row
   whose link changes loses the old source's; every other save keeps it.
   */
  function Saved(rows: Table, id: string, m: Meta): Table {
    rows[id := Row(m, if id !in rows || (m.source == Traffic && m.link != rows[id].meta.link) then CLEARED else rows[id].snap)]
  }

  class SubscriptionStore {
    var rows: Table

    method Create(id: string, m: Meta) returns (ok: bool)
      requires Unique(rows)
      modifies this
      ensures ok <==> id !in old(rows) && Storable(old(rows), id, m)
      ensures rows == if ok then old(rows)[id := Row(m, CLEARED)] else old(rows)
      ensures Unique(rows)
    {
      if id in rows || !Storable(rows, id, m) { return false; }
      rows := rows[id := Row(m, CLEARED)];
      return true;
    }

    /** Metadata columns only. */
    method UpdateMetadata(id: string, m: Meta) returns (ok: bool)
      requires Unique(rows)
      modifies this
      ensures ok <==> id in old(rows) && Storable(old(rows), id, m)
      ensures rows == if ok then old(rows)[id := Row(m, old(rows)[id].snap)] else old(rows)
      ensures Unique(rows)
    {
      if id !in rows || !Storable(rows, id, m) { return false; }
      rows := rows[id := rows[id].(meta := m)];
      return true;
    }

    /** Metadata, and every snapshot column cleared, in one statement. */
    method UpdateMetadataRebind(id: string, m: Meta) returns (ok: bool)
      requires Unique(rows)
      modifies this
      ensures ok <==> id in old(rows) && Storable(old(rows), id, m)
      ensures rows == if ok then old(rows)[id := Row(m, CLEARED)] else old(rows)
      ensures Unique(rows)
    {
      if id !in rows || !Storable(rows, id, m) { return false; }
      rows := rows[id := rows[id].(meta := m, snap := CLEARED)];
      return true;
    }

    /** Snapshot columns only: the metadata of the row passed in is not written. */
    method UpdateSnapshot(id: string, r: Row) returns (ok: bool)
      requires Unique(rows)
      modifies this
      ensures ok <==> id in old(rows)
      ensures rows == if ok then old(rows)[id := Row(old(rows)[id].meta, r.snap)] else old(rows)
      ensures Unique(rows)
    {
      if id !in rows { return false; }
      rows := rows[id := rows[id].(snap := r.snap)];
      return true;
    }

    method Delete(id: string) returns (ok: bool)
      requires Unique(rows)
      modifies this
      ensures ok <==> id in old(rows)
      ensures rows == old(rows) - {id}
      ensures Unique(rows)
    {
      ok := id in rows;
      rows := rows - {id};
    }
  }

  /** Each provider name and each traffic source has at most one manager. */
  lemma OneManager(rows: Table, i: string, j: string)
    requires Unique(rows) && i in rows && j in rows && i != j
    ensures rows[i].meta.provider == rows[j].meta.provider ==> rows[i].meta.provider == ""
    ensures rows[i].meta.source == Traffic && rows[j].meta.source == Traffic && rows[i].meta.link == rows[j].meta.link ==>
              rows[i].meta.link == ""
  {
    assert Compatible(rows[i].meta, rows[j].meta);
  }

  // ----- what a vendor reports --------------------------------------------

  datatype Info = Info(upload: int, download: int, total: int, expire: int, hasCounters: bool)

  /** A header, or an aggregate counter with what came beside it. */
  datatype VendorSnapshot = VendorSnapshot(info: Option<Info>, used: Option<int>, limit: Option<int>, resetDay: Option<int>)

  function OrZero(x: Option<int>): int { if x.Some? then x.value else 0 }

  /** applyVendorSnapshot, column by column. */
  function ApplyVendorSnapshot(s: Snapshot, v: VendorSnapshot, now: int): Snapshot {
    var stamped := s.(fetchedAt := NullTime(now, true));
    if v.info.Some? then
      stamped.(usage := s.usage.(upload := v.info.value.upload, download := v.info.value.download,
                                 total := v.info.value.total, expire := v.info.value.expire,
                                 counters := v.info.value.hasCounters, isAggregate := false,
                                 aggregateUsed := 0, vendorResetDay := 0))
    else if v.used.None? then
      stamped.(usage := s.usage.(isAggregate := false, aggregateUsed := 0, upload := 0, download := 0, counters := false,
                                 expire := 0, total := OrZero(v.limit), vendorResetDay := 0))
    else
      stamped.(usage := s.usage.(upload := 0, download := 0, counters := false, expire := 0, isAggregate := true,
                                 aggregateUsed := v.used.value, total := OrZero(v.limit),
                                 vendorResetDay := OrZero(v.resetDay)))
  }

  /** What the stored figures claim: directions or an aggregate only where the vendor reported them, never both. */
  predicate Reports(u: Usage, v: VendorSnapshot) {
    && (u.counters <==> v.info.Some? && v.info.value.hasCounters)
    && (u.isAggregate <==> v.info.None? && v.used.Some?)
    && (v.info.Some? ==> u.upload == v.info.value.upload && u.download == v.info.value.download
                         && u.total == v.info.value.total && u.expire == v.info.value.expire)
    && (v.info.None? ==> u.upload == 0 && u.download == 0 && u.expire == 0 && u.total == OrZero(v.limit))
    && (u.isAggregate ==> u.aggregateUsed == v.used.value && u.vendorResetDay == OrZero(v.resetDay))
    && (!u.isAggregate ==> u.aggregateUsed == 0 && u.vendorResetDay == 0)
  }

  /** One report fixes every figure: no column of an earlier report survives it. */
  lemma ReportIsComplete(s: Snapshot, v: VendorSnapshot, now: int, u: Usage)
    ensures Reports(u, v) <==> u == ApplyVendorSnapshot(s, v, now).usage
  {}
}
