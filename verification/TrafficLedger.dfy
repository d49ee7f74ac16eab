/**
 Whole runs of the traffic service: snapshots, failed polls and any number of
 flushes interleaved step by step, with store failures and retention pruning.
 */
module TrafficLedger {
  import opened Traffic

  /** One flush: what it took, until the store accepts it or it is put back. */
  datatype Flight = Taken(rows: Buckets) | Refused(rows: Buckets) | Landed

  /** pruned and ledger only record history: what was deleted, and every delta ever ingested. */
  datatype State = State(lastSeen: map<string, Sample>, baseline: bool, pending: Buckets,
                         flights: seq<Flight>, stored: Buckets, pruned: Buckets, ledger: seq<Entry>)

  const START := State(map[], false, map[], [], map[], map[], [])

  datatype Event =
    | Snapshot(conns: seq<Conn>, now: int)  // ingest
    | Unreachable                           // poll failed
    | Begin                                 // a flush takes the pending deltas
    | Store(flight: nat, ok: bool)          // its transaction commits, or fails
    | PutBack(flight: nat)                  // after a failure
    | Prune(before: int)

  function Step(s: State, e: Event): State {
    match e
    case Snapshot(conns, now) =>
      var es := Entries(s.lastSeen, s.baseline, conns, HourOf(now));
      s.(lastSeen := Seen(conns), baseline := true, pending := Add(s.pending, es), ledger := s.ledger + es)
    case Unreachable => s.(lastSeen := map[], baseline := false)
    case Begin =>
      if |s.pending| == 0 then s else s.(pending := map[], flights := s.flights + [Taken(s.pending)])
    case Store(f, ok) =>
      if f >= |s.flights| || !s.flights[f].Taken? then s
      else
        var rows := s.flights[f].rows;
        if ok then s.(stored := Merge(s.stored, rows), flights := s.flights[f := Landed])
        else s.(flights := s.flights[f := Refused(rows)])
    case PutBack(f) =>
      if f >= |s.flights| || !s.flights[f].Refused? then s
      else s.(pending := Merge(s.pending, s.flights[f].rows), flights := s.flights[f := Landed])
    case Prune(before) =>
      s.(stored := map k | k in s.stored && k.bucket >= before :: s.stored[k],
         pruned := Merge(s.pruned, map k | k in s.stored && k.bucket < before :: s.stored[k]))
  }

  function Run(s: State, events: seq<Event>): State {
    if events == [] then s else Step(Run(s, events[..|events| - 1]), events[|events| - 1])
  }

  // ----- conservation -----------------------------------------------------

  function ByKey(es: seq<Entry>, k: Key): Delta {
    if es == [] then ZERO
    else ByKey(es[..|es| - 1], k).Plus(if es[|es| - 1].key == k then es[|es| - 1].delta else ZERO)
  }

  function RowsIn(f: Flight): Buckets { if f.Landed? then map[] else f.rows }

  function InFlight(flights: seq<Flight>, k: Key): Delta {
    if flights == [] then ZERO
    else InFlight(flights[..|flights| - 1], k).Plus(Amount(RowsIn(flights[|flights| - 1]), k))
  }

  lemma PlusZero(a: Delta)
    ensures a.Plus(ZERO) == a == ZERO.Plus(a)
  {}

  lemma {:induction false} AddAmount(b: Buckets, es: seq<Entry>, k: Key)
    ensures Amount(Add(b, es), k) == Amount(b, k).Plus(ByKey(es, k))
  {
    hide Amount, Bump, Delta.Plus;
    if es == [] {
      PlusZero(Amount(b, k));
    } else {
      PlusAssoc(Amount(b, k), ByKey(es[..|es| - 1], k), if es[|es| - 1].key == k then es[|es| - 1].delta else ZERO);
      AddAmount(b, es[..|es| - 1], k);
      BumpAmount(Add(b, es[..|es| - 1]), es[|es| - 1].key, es[|es| - 1].delta, k);
    }
  }

  lemma {:induction false} ByKeyConcat(a: seq<Entry>, b: seq<Entry>, k: Key)
    ensures ByKey(a + b, k) == ByKey(a, k).Plus(ByKey(b, k))
  {
    if b == [] {
      assert a + b == a;
    } else {
      assert (a + b)[..|a + b| - 1] == a + b[..|b| - 1];
      ByKeyConcat(a, b[..|b| - 1], k);
    }
  }

  lemma {:induction false} FlightChanges(flights: seq<Flight>, f: nat, g: Flight, k: Key)
    requires f < |flights|
    ensures InFlight(flights[f := g], k).Plus(Amount(RowsIn(flights[f]), k))
         == InFlight(flights, k).Plus(Amount(RowsIn(g), k))
  {
    var n := |flights| - 1;
    if f == n {
      assert flights[f := g][..n] == flights[..n];
    } else {
      assert flights[f := g][..n] == flights[..n][f := g];
      FlightChanges(flights[..n], f, g, k);
    }
  }

  function Accounted(s: State, k: Key): Delta {
    Amount(s.pending, k).Plus(InFlight(s.flights, k)).Plus(Amount(s.stored, k)).Plus(Amount(s.pruned, k))
  }

  lemma StepAccounts(s: State, e: Event, k: Key)
    requires Accounted(s, k) == ByKey(s.ledger, k)
    ensures Accounted(Step(s, e), k) == ByKey(Step(s, e).ledger, k)
  {
    hide Accounted, Amount, Merge, Add, Entries, Seen, InFlight, ByKey;
    match e
    case Snapshot(conns, now) => SnapshotAccounts(s, conns, now, k);
    case Unreachable => SameAccounts(s, Step(s, e), k);
    case Begin => BeginAccounts(s, k);
    case Store(f, ok) => StoreAccounts(s, f, ok, k);
    case PutBack(f) => PutBackAccounts(s, f, k);
    case Prune(before) => PruneAccounts(s, before, k);
  }

  lemma SameAccounts(s: State, t: State, k: Key)
    requires t.pending == s.pending && t.flights == s.flights && t.stored == s.stored && t.pruned == s.pruned
    ensures Accounted(t, k) == Accounted(s, k)
  {}

  lemma SnapshotAccounts(s: State, conns: seq<Conn>, now: int, k: Key)
    requires Accounted(s, k) == ByKey(s.ledger, k)
    ensures var t := Step(s, Snapshot(conns, now)); Accounted(t, k) == ByKey(t.ledger, k)
  {
    hide Amount, Add, Entries, Seen, InFlight, ByKey;
    var es := Entries(s.lastSeen, s.baseline, conns, HourOf(now));
    AddAmount(s.pending, es, k);
    ByKeyConcat(s.ledger, es, k);
  }

  /** Rows that leave the flights for the store, or for the pending map, leave the total alone. */
  lemma MoveRows(p: Delta, i: Delta, i': Delta, s: Delta, q: Delta, rows: Delta)
    requires i'.Plus(rows) == i
    ensures p.Plus(i').Plus(s.Plus(rows)).Plus(q) == p.Plus(i).Plus(s).Plus(q)
    ensures p.Plus(rows).Plus(i').Plus(s).Plus(q) == p.Plus(i).Plus(s).Plus(q)
  {}

  lemma StoreAccounts(s: State, f: nat, ok: bool, k: Key)
    ensures Accounted(Step(s, Store(f, ok)), k) == Accounted(s, k)
  {
    hide Amount, Merge, InFlight, Delta.Plus;
    if f < |s.flights| && s.flights[f].Taken? {
      var rows := s.flights[f].rows;
      var g := if ok then Landed else Refused(rows);
      var i, i' := InFlight(s.flights, k), InFlight(s.flights[f := g], k);
      FlightChanges(s.flights, f, g, k);
      if ok {
        LandedEmpty(k);
        PlusZero(i);
        MergeAmount(s.stored, rows, k);
        MoveRows(Amount(s.pending, k), i, i', Amount(s.stored, k), Amount(s.pruned, k), Amount(rows, k));
      } else {
        PlusCancel(i', i, Amount(rows, k));
      }
    }
  }

  lemma PlusCancel(a: Delta, b: Delta, c: Delta)
    requires a.Plus(c) == b.Plus(c)
    ensures a == b
  {}

  lemma PutBackAccounts(s: State, f: nat, k: Key)
    ensures Accounted(Step(s, PutBack(f)), k) == Accounted(s, k)
  {
    hide Amount, Merge, InFlight, Delta.Plus;
    if f < |s.flights| && s.flights[f].Refused? {
      var rows := s.flights[f].rows;
      var i, i' := InFlight(s.flights, k), InFlight(s.flights[f := Landed], k);
      FlightChanges(s.flights, f, Landed, k);
      LandedEmpty(k);
      PlusZero(i);
      MergeAmount(s.pending, rows, k);
      MoveRows(Amount(s.pending, k), i, i', Amount(s.stored, k), Amount(s.pruned, k), Amount(rows, k));
    }
  }

  lemma LandedEmpty(k: Key)
    ensures Amount(RowsIn(Landed), k) == ZERO && Amount(map[], k) == ZERO
  {}

  lemma BeginAccounts(s: State, k: Key)
    ensures Accounted(Step(s, Begin), k) == Accounted(s, k)
  {
    hide Amount;
    assert (s.flights + [Taken(s.pending)])[..|s.flights|] == s.flights;
    LandedEmpty(k);
  }

  lemma SplitAmount(b: Buckets, before: int, k: Key)
    ensures var cut := map k | k in b && k.bucket < before :: b[k];
            var kept := map k | k in b && k.bucket >= before :: b[k];
            Amount(kept, k).Plus(Amount(cut, k)) == Amount(b, k)
  {}

  lemma MovePruned(p: Delta, i: Delta, kept: Delta, cut: Delta, pruned: Delta)
    ensures p.Plus(i).Plus(kept).Plus(pruned.Plus(cut)) == p.Plus(i).Plus(kept.Plus(cut)).Plus(pruned)
  {}

  lemma PruneAccounts(s: State, before: int, k: Key)
    ensures Accounted(Step(s, Prune(before)), k) == Accounted(s, k)
  {
    hide Amount, Merge, InFlight;
    var cut := map k | k in s.stored && k.bucket < before :: s.stored[k];
    var t := Step(s, Prune(before));
    assert t.pruned == Merge(s.pruned, cut);
    MergeAmount(s.pruned, cut, k);
    SplitAmount(s.stored, before, k);
    MovePruned(Amount(s.pending, k), InFlight(s.flights, k), Amount(t.stored, k), Amount(cut, k), Amount(s.pruned, k));
  }

  /**
   Nothing is lost and nothing is counted twice: at every moment of every run,
   pending, in flight, stored and pruned add up to what was ingested, per hour and node.
   */
  lemma {:induction false} RunConserves(events: seq<Event>, k: Key)
    ensures Accounted(Run(START, events), k) == ByKey(Run(START, events).ledger, k)
  {
    if events != [] {
      RunConserves(events[..|events| - 1], k);
      StepAccounts(Run(START, events[..|events| - 1]), events[|events| - 1], k);
    }
  }

  /** So once every flush has ended, the store and the pending map account for every byte. */
  lemma QuiescentConserves(events: seq<Event>, k: Key)
    requires forall f :: f in Run(START, events).flights ==> f.Landed?
    ensures var s := Run(START, events);
            Amount(s.pending, k).Plus(Amount(s.stored, k)).Plus(Amount(s.pruned, k)) == ByKey(s.ledger, k)
  {
    RunConserves(events, k);
    AllLanded(Run(START, events).flights, k);
  }

  lemma {:induction false} AllLanded(flights: seq<Flight>, k: Key)
    requires forall f :: f in flights ==> f.Landed?
    ensures InFlight(flights, k) == ZERO
  {
    if flights != [] { AllLanded(flights[..|flights| - 1], k); }
  }

  // ----- what single steps are for ----------------------------------------

  /** An undisturbed flush moves all pending deltas into the store. */
  lemma FlushDelivers(s: State, k: Key)
    requires s.pending != map[]
    ensures var t := Step(Step(s, Begin), Store(|s.flights|, true));
            && t.flights == s.flights + [Landed] && t.pending == map[]
            && Amount(t.stored, k) == Amount(s.stored, k).Plus(Amount(s.pending, k))
  {
    hide Amount, Merge;
    NotEmpty(s.pending);
    var taken := Step(s, Begin);
    assert taken == s.(pending := map[], flights := s.flights + [Taken(s.pending)]);
    MergeAmount(s.stored, s.pending, k);
  }

  /** If the store refuses them, they are pending again. */
  lemma RefusalPutsBack(s: State, k: Key)
    requires s.pending != map[]
    ensures var n := |s.flights|;
            var t := Step(Step(Step(s, Begin), Store(n, false)), PutBack(n));
            && t.flights == s.flights + [Landed] && t.stored == s.stored
            && Amount(t.pending, k) == Amount(s.pending, k)
  {
    hide Amount, Merge;
    NotEmpty(s.pending);
    var n := |s.flights|;
    var taken := Step(s, Begin);
    assert taken == s.(pending := map[], flights := s.flights + [Taken(s.pending)]);
    var refused := Step(taken, Store(n, false));
    assert refused == taken.(flights := s.flights + [Refused(s.pending)]);
    assert Step(refused, PutBack(n)) == refused.(pending := Merge(map[], s.pending), flights := s.flights + [Landed]);
    BackToEmpty(s.pending, k);
  }

  lemma BackToEmpty(b: Buckets, k: Key)
    ensures Amount(Merge(map[], b), k) == Amount(b, k)
  {}

  lemma NotEmpty(b: Buckets)
    requires b != map[]
    ensures |b| != 0
  {
    var k :| k in b;
  }

  /** Pruning deletes exactly the stored hours before the bound. */
  lemma PruneDeletesOld(s: State, before: int, k: Key)
    ensures var t := Step(s, Prune(before));
            && Amount(t.stored, k) == (if k.bucket < before then ZERO else Amount(s.stored, k))
            && t.pending == s.pending && t.flights == s.flights
  {}

  /** After a failed poll the next snapshot charges nothing, whatever the counters did, and is the new baseline. */
  lemma OutageIsFree(s: State, conns: seq<Conn>, now: int)
    ensures var t := Step(Step(s, Unreachable), Snapshot(conns, now));
            t.pending == s.pending && t.ledger == s.ledger && t.baseline && t.lastSeen == Seen(conns)
  {
    hide Seen, Entries, Add, HourOf;
    NoBaselineNoEntries(map[], conns, HourOf(now));
    NothingYet(s.pending, map[], false, HourOf(now));
    assert s.ledger + [] == s.ledger;
    NothingAdded(s.pending);
  }

  lemma NothingAdded(b: Buckets)
    ensures Add(b, []) == b
  {}

  // ----- telescoping ------------------------------------------------------

  function ById(es: seq<Entry>, id: string): Delta {
    if es == [] then ZERO
    else ById(es[..|es| - 1], id).Plus(if es[|es| - 1].id == id then es[|es| - 1].delta else ZERO)
  }

  /** The counters of a connection as last seen; zero before its first snapshot. */
  function Counter(s: State, id: string): Delta {
    if id in s.lastSeen then Delta(s.lastSeen[id].upload, s.lastSeen[id].download) else ZERO
  }

  /** A connection's appearances in a snapshot; without a node it is passed over. */
  predicate Lists(c: Conn, id: string) { c.id == id && c.chains != [] }

  function Meter(c: Conn): Delta { Delta(c.upload, c.download) }

  predicate AtLeast(a: Delta, b: Delta) { a.up >= b.up && a.down >= b.down }

  /** The connection is in the snapshot and has not gone backwards. */
  ghost predicate Follows(s: State, conns: seq<Conn>, id: string) {
    && (exists c :: c in conns && Lists(c, id))
    && forall c :: c in conns && Lists(c, id) ==> AtLeast(Meter(c), Counter(s, id))
  }

  /** It is listed again after a listing that had already moved. */
  ghost predicate Repeats(conns: seq<Conn>, id: string, base: Delta) {
    exists i, j :: 0 <= i < j < |conns| && Lists(conns[i], id) && Lists(conns[j], id) && Meter(conns[i]) != base
  }

  ghost predicate RunFollows(s: State, events: seq<Event>, id: string) {
    events != [] ==>
      var before := Run(s, events[..|events| - 1]);
      var e := events[|events| - 1];
      && RunFollows(s, events[..|events| - 1], id)
      && e != Unreachable
      && (e.Snapshot? ==> Follows(before, e.conns, id))
  }

  ghost predicate RunRepeats(s: State, events: seq<Event>, id: string) {
    events != [] &&
      var before := Run(s, events[..|events| - 1]);
      var e := events[|events| - 1];
      || RunRepeats(s, events[..|events| - 1], id)
      || (e.Snapshot? && Repeats(e.conns, id, Counter(before, id)))
  }

  lemma {:induction false} ByIdConcat(a: seq<Entry>, b: seq<Entry>, id: string)
    ensures ById(a + b, id) == ById(a, id).Plus(ById(b, id))
  {
    if b == [] {
      assert a + b == a;
    } else {
      assert (a + b)[..|a + b| - 1] == a + b[..|b| - 1];
      ByIdConcat(a, b[..|b| - 1], id);
    }
  }

  lemma NoEntries(id: string)
    ensures ById([], id) == ZERO
  {}

  lemma ById1(last: map<string, Sample>, c: Conn, bucket: int, id: string)
    ensures ById(EntryOf(last, true, c, bucket), id) == if c.id == id && c.chains != [] then Fresh(last, c) else ZERO
  {}

  function Minus(a: Delta, b: Delta): Delta { Delta(a.up - b.up, a.down - b.down) }

  /** What the listings of a connection are charged: each is compared with the same counter. */
  function Charge(conns: seq<Conn>, id: string, base: Delta): Delta {
    if conns == [] then ZERO
    else
      var c := conns[|conns| - 1];
      Charge(conns[..|conns| - 1], id, base).Plus(if Lists(c, id) then Minus(Meter(c), base) else ZERO)
  }

  lemma FreshFollows(s: State, c: Conn)
    requires AtLeast(Meter(c), Counter(s, c.id))
    ensures Fresh(s.lastSeen, c) == Minus(Meter(c), Counter(s, c.id))
  {}

  lemma {:induction false} EntriesCharge(s: State, conns: seq<Conn>, bucket: int, id: string)
    requires forall c :: c in conns && Lists(c, id) ==> AtLeast(Meter(c), Counter(s, id))
    ensures ById(Entries(s.lastSeen, true, conns, bucket), id) == Charge(conns, id, Counter(s, id))
  {
    hide Fresh, EntryOf, ById, Delta.Plus, AtLeast, Counter;
    if conns == [] {
      NoEntries(id);
    } else {
      var n := |conns| - 1;
      EntriesCharge(s, conns[..n], bucket, id);
      ByIdConcat(Entries(s.lastSeen, true, conns[..n], bucket), EntryOf(s.lastSeen, true, conns[n], bucket), id);
      ById1(s.lastSeen, conns[n], bucket, id);
      if Lists(conns[n], id) { FreshFollows(s, conns[n]); }
    }
  }

  ghost predicate Unmoved(conns: seq<Conn>, id: string, base: Delta) {
    forall c :: c in conns && Lists(c, id) ==> Meter(c) == base
  }

  lemma {:induction false} ChargeSigns(conns: seq<Conn>, id: string, base: Delta)
    requires forall c :: c in conns && Lists(c, id) ==> AtLeast(Meter(c), base)
    ensures AtLeast(Charge(conns, id, base), ZERO)
    ensures Charge(conns, id, base) == ZERO <==> Unmoved(conns, id, base)
  {
    hide Lists, Meter, Unmoved;
    if conns == [] {
      assert Unmoved(conns, id, base) by { NothingMoved(id, base); }
    } else {
      var init, c := conns[..|conns| - 1], conns[|conns| - 1];
      UnmovedLast(conns, id, base);
      ChargeSigns(init, id, base);
    }
  }

  lemma NothingMoved(id: string, base: Delta)
    ensures Unmoved([], id, base)
  {}

  lemma UnmovedLast(conns: seq<Conn>, id: string, base: Delta)
    requires conns != []
    ensures var init, c := conns[..|conns| - 1], conns[|conns| - 1];
            Unmoved(conns, id, base) <==> Unmoved(init, id, base) && (Lists(c, id) ==> Meter(c) == base)
  {
    assert forall c :: c in conns <==> c in conns[..|conns| - 1] || c == conns[|conns| - 1];
  }

  lemma RepeatsLast(conns: seq<Conn>, id: string, base: Delta)
    requires conns != []
    ensures var init, c := conns[..|conns| - 1], conns[|conns| - 1];
            Repeats(conns, id, base) <==> Repeats(init, id, base) || (Lists(c, id) && !Unmoved(init, id, base))
  {
    hide Lists, Meter;
    var init, n := conns[..|conns| - 1], |conns| - 1;
    assert forall i :: 0 <= i < n ==> init[i] == conns[i];
    if Repeats(init, id, base) {
      var i, j :| 0 <= i < j < n && Lists(init[i], id) && Lists(init[j], id) && Meter(init[i]) != base;
      assert Lists(conns[i], id) && Lists(conns[j], id);
    }
    if Lists(conns[n], id) && !Unmoved(init, id, base) {
      var c :| c in init && Lists(c, id) && Meter(c) != base;
      var i :| 0 <= i < n && init[i] == c;
      assert Lists(conns[i], id) && Lists(conns[n], id);
    }
    if Repeats(conns, id, base) {
      var i, j :| 0 <= i < j < |conns| && Lists(conns[i], id) && Lists(conns[j], id) && Meter(conns[i]) != base;
      assert Lists(init[i], id) && Meter(init[i]) != base && init[i] in init;
      if j < n { assert Lists(init[j], id); }
    }
  }

  /** What a snapshot charges beyond the counter it leaves behind: nothing exactly without moved repeats. */
  lemma {:induction false} ChargeOvershoot(conns: seq<Conn>, id: string, base: Delta)
    requires forall c :: c in conns && Lists(c, id) ==> AtLeast(Meter(c), base)
    requires exists c :: c in conns && Lists(c, id)
    ensures id in Seen(conns)
    ensures var now := Delta(Seen(conns)[id].upload, Seen(conns)[id].download);
            && AtLeast(Charge(conns, id, base).Plus(base), now)
            && (Charge(conns, id, base).Plus(base) == now <==> !Repeats(conns, id, base))
  {
    hide Repeats, Unmoved, Lists, Seen, Charge, Meter;
    var init, c := conns[..|conns| - 1], conns[|conns| - 1];
    assert forall d :: d in conns <==> d in init || d == c;
    RepeatsLast(conns, id, base);
    SeenLast(conns, id);
    ChargeLast(conns, id, base);
    if Lists(c, id) {
      ChargeSigns(init, id, base);
      if Repeats(init, id, base) { RepeatsMoved(init, id, base); }
      PastBase(Charge(init, id, base), Meter(c), base);
    } else {
      ChargeOvershoot(init, id, base);
    }
  }

  lemma PastBase(charge: Delta, meter: Delta, base: Delta)
    requires AtLeast(charge, ZERO)
    ensures AtLeast(charge.Plus(Minus(meter, base)).Plus(base), meter)
    ensures charge.Plus(Minus(meter, base)).Plus(base) == meter <==> charge == ZERO
  {}

  lemma ChargeLast(conns: seq<Conn>, id: string, base: Delta)
    requires conns != []
    ensures var init, c := conns[..|conns| - 1], conns[|conns| - 1];
            Charge(conns, id, base) == if Lists(c, id) then Charge(init, id, base).Plus(Minus(Meter(c), base)) else Charge(init, id, base)
  {}

  lemma SeenLast(conns: seq<Conn>, id: string)
    requires conns != []
    ensures var init, c := conns[..|conns| - 1], conns[|conns| - 1];
            if Lists(c, id) then id in Seen(conns) && Delta(Seen(conns)[id].upload, Seen(conns)[id].download) == Meter(c)
            else (id in Seen(conns) <==> id in Seen(init)) && (id in Seen(init) ==> Seen(conns)[id] == Seen(init)[id])
  {}

  lemma RepeatsMoved(conns: seq<Conn>, id: string, base: Delta)
    requires Repeats(conns, id, base)
    ensures !Unmoved(conns, id, base)
  {}

  /** The charge between two states beyond what the counter moved. */
  function Overshoot(s: State, t: State, id: string): Delta {
    Minus(Minus(ById(t.ledger, id), ById(s.ledger, id)), Minus(Counter(t, id), Counter(s, id)))
  }

  lemma SnapshotOvershoot(s: State, conns: seq<Conn>, now: int, id: string)
    requires s.baseline && Follows(s, conns, id)
    ensures var t := Step(s, Snapshot(conns, now));
            && t.baseline && AtLeast(Overshoot(s, t, id), ZERO)
            && (Overshoot(s, t, id) == ZERO <==> !Repeats(conns, id, Counter(s, id)))
  {
    hide Entries, Seen, Add, ById, Fresh, Charge, Repeats;
    EntriesCharge(s, conns, HourOf(now), id);
    ByIdConcat(s.ledger, Entries(s.lastSeen, s.baseline, conns, HourOf(now)), id);
    ChargeOvershoot(conns, id, Counter(s, id));
  }

  lemma MeterUntouched(s: State, e: Event, id: string)
    requires !e.Snapshot? && e != Unreachable
    ensures var t := Step(s, e);
            t.ledger == s.ledger && t.baseline == s.baseline && Counter(t, id) == Counter(s, id)
  {}

  lemma {:induction false} RunOvershoot(s: State, events: seq<Event>, id: string)
    requires s.baseline && RunFollows(s, events, id)
    ensures var t := Run(s, events);
            && t.baseline && AtLeast(Overshoot(s, t, id), ZERO)
            && (Overshoot(s, t, id) == ZERO <==> !RunRepeats(s, events, id))
  {
    hide ById, Step, Follows, Counter, Repeats;
    if events != [] {
      var before, e := Run(s, events[..|events| - 1]), events[|events| - 1];
      RunOvershoot(s, events[..|events| - 1], id);
      if e.Snapshot? {
        SnapshotOvershoot(before, e.conns, e.now, id);
      } else {
        MeterUntouched(before, e, id);
      }
    }
  }

  /**
   The deltas telescope: whatever flushes, failures and prunes are interleaved,
   a connection listed throughout that never goes backwards is charged, over all
   buckets, exactly its last counter minus the one it entered the run with (zero
   if it is new), if and only if no snapshot lists it again after a listing that
   had already moved.
   */
  lemma RunTelescopes(s: State, events: seq<Event>, id: string)
    requires s.baseline && RunFollows(s, events, id)
    ensures var t := Run(s, events);
            && t.baseline
            && (ById(t.ledger, id).Plus(Counter(s, id)) == ById(s.ledger, id).Plus(Counter(t, id)) <==> !RunRepeats(s, events, id))
  {
    hide ById, Run, RunFollows, RunRepeats, Counter;
    RunOvershoot(s, events, id);
  }

  /** The first snapshot after a start or a failed poll charges nothing: it is the baseline. */
  lemma BaselineIsFree(s: State, conns: seq<Conn>, now: int)
    requires !s.baseline
    ensures var t := Step(s, Snapshot(conns, now)); t.pending == s.pending && t.ledger == s.ledger && t.baseline
  {
    NoBaselineNoEntries(s.lastSeen, conns, HourOf(now));
  }

  /** A snapshot adds to each hour and node exactly what moved through it, and remembers each connection's last listing. */
  lemma SnapshotFillsBuckets(s: State, conns: seq<Conn>, now: int, hour: int, node: string)
    requires s.baseline
    ensures var t := Step(s, Snapshot(conns, now));
            Amount(t.pending, Key(hour, node)) ==
            Amount(s.pending, Key(hour, node)).Plus(
              if hour % 3600 == 0 && hour <= now < hour + 3600 then ThroughNode(s.lastSeen, conns, node) else ZERO)
  {
    hide Amount, Entries, Seen, ThroughNode, HourOf;
    BucketsGrow(s.pending, s.lastSeen, conns, now, Key(hour, node));
  }

  // ----- signs ------------------------------------------------------------

  predicate CountersNonNegative(e: Event) {
    e.Snapshot? ==> forall c :: c in e.conns ==> c.upload >= 0 && c.download >= 0
  }

  lemma {:induction false} EntriesNonNegative(last: map<string, Sample>, baseline: bool, conns: seq<Conn>, bucket: int)
    requires forall c :: c in conns ==> c.upload >= 0 && c.download >= 0
    ensures forall e :: e in Entries(last, baseline, conns, bucket) ==> e.delta.up >= 0 && e.delta.down >= 0 && e.delta != ZERO
  {
    if conns != [] { EntriesNonNegative(last, baseline, conns[..|conns| - 1], bucket); }
  }

  /** No delta is ever negative, even when counters restart. */
  lemma {:induction false} LedgerNonNegative(events: seq<Event>)
    requires forall e :: e in events ==> CountersNonNegative(e)
    ensures forall e :: e in Run(START, events).ledger ==> e.delta.up >= 0 && e.delta.down >= 0 && e.delta != ZERO
  {
    if events != [] {
      LedgerNonNegative(events[..|events| - 1]);
      var s, e := Run(START, events[..|events| - 1]), events[|events| - 1];
      assert CountersNonNegative(e);
      if e.Snapshot? {
        EntriesNonNegative(s.lastSeen, s.baseline, e.conns, HourOf(e.now));
      }
    }
  }

  /** Such a repeat: a new connection listed twice in one snapshot is charged twice. */
  lemma DuplicateIsChargedTwice(s: State, c: Conn, now: int)
    requires s.baseline && c.id !in s.lastSeen && c.chains != []
    ensures var t := Step(s, Snapshot([c, c], now));
            ById(t.ledger, c.id) == ById(s.ledger, c.id).Plus(Counter(t, c.id)).Plus(Counter(t, c.id))
  {
    var b := HourOf(now);
    var twice := [c, c];
    var es := EntryOf(s.lastSeen, true, c, b);
    assert twice[..1] == [c] && [c][..0] == [];
    var none: seq<Conn> := [];
    assert Entries(s.lastSeen, true, none, b) == [];
    assert Entries(s.lastSeen, true, [c], b) == es;
    assert Entries(s.lastSeen, true, twice, b) == es + es;
    assert Seen(twice) == Seen([c])[c.id := Sample(c.chains[0], c.upload, c.download)];
    ById1(s.lastSeen, c, b, c.id);
    ByIdConcat(es, es, c.id);
    ByIdConcat(s.ledger, es + es, c.id);
  }
}
