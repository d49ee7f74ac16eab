/**
 Refreshing vendor snapshots while the registry is edited
 (internal/service/subscription_service.go). A refresh reads the row and its
 traffic provider without the lock, fetches without the lock, and then takes
 the mutation lock to check the source again and to write the snapshot half of
 the row. Edits take the same lock; edits of traffic providers take none, so
 they may fall between the check and the write.
 */
module SnapshotProtocol {
  import opened Prelude
  import opened UtcStamp
  import opened Subscriptions

  datatype Outcome =
    | Fetched(vendor: VendorSnapshot)
    | Failed(message: string)
    | LocalOnly              // the provider has no subscription URL

  /** Something a refresh found out about one traffic provider at one of its URLs. */
  datatype Attempt = Attempt(provider: string, url: string, outcome: Outcome)

  datatype Thread =
    | Reading(id: string, link: string, auto: bool)
    | Fetching(id: string, link: string, url: string, auto: bool)
    | Landing(id: string, attempt: Attempt, auto: bool)
    | OnNative(id: string)
    | Done

  /** Inside the lock, between the check and the write: the row as it is to be written. */
  datatype Pending = Pending(id: string, row: Row)

  /**
   attempts and urls record what has been found out and which URL each traffic
   provider has had; committed is the last metadata an operator saved.
   */
  datatype State = State(rows: Table, providers: map<string, TrafficProvider>, threads: seq<Thread>, lock: Option<Pending>,
                         used: set<string>, attempts: set<Attempt>, urls: set<(string, string)>, committed: map<string, Meta>)

  datatype Event =
    | Start(id: string, auto: bool)
    | Look(i: nat, readable: bool)
    | Fetch(i: nat, outcome: Outcome)
    | Land(i: nat, now: int, readable: bool, native: Snapshot)
    | Write(works: bool)
    | Save(id: string, meta: Meta)
    | Delete(id: string)
    | EditProvider(id: string, provider: TrafficProvider)
    | DropProvider(id: string)

  const SOURCE_GONE: string := "linked traffic provider no longer exists"

  // ----- the critical section ---------------------------------------------

  /**
   The attempt still speaks about the row's source. A failure to find the
   provider and a local-only result are tied to its identity alone, a fetch to
   its identity and its URL.
   */
  predicate Current(rows: Table, providers: map<string, TrafficProvider>, id: string, a: Attempt) {
    && id in rows && rows[id].meta.link == a.provider
    && (a.url != "" ==> a.provider in providers && providers[a.provider].url == a.url)
  }

  /** A background poll does not count as a refresh, but its success does. */
  function Refreshed(s: Snapshot, o: Outcome, now: int, auto: bool): Snapshot {
    var stamped := if auto then s else s.(lastRefresh := NullTime(now, true));
    match o
    case Fetched(v) => ApplyVendorSnapshot(stamped, v, now).(lastSuccess := NullTime(now, true), lastError := "")
    case Failed(message) => stamped.(lastError := message)
    case LocalOnly => stamped.(lastSuccess := NullTime(now, true), lastError := "")
  }

  function Persisted(rows: Table, providers: map<string, TrafficProvider>, id: string, a: Attempt, now: int, auto: bool): Table {
    if Current(rows, providers, id, a) then rows[id := rows[id].(snap := Refreshed(rows[id].snap, a.outcome, now, auto))] else rows
  }

  /** What a write makes of the snapshot: a report replaces every figure, a failure keeps them all, and a background poll leaves the time of the last refresh. */
  predicate Shows(before: Snapshot, after: Snapshot, o: Outcome, now: int, auto: bool) {
    var stamp := NullTime(now, true);
    && after.lastRefresh == (if auto then before.lastRefresh else stamp)
    && match o
       case Fetched(v) =>
         Reports(after.usage, v) && after.fetchedAt == stamp && after.lastSuccess == stamp && after.lastError == ""
       case Failed(message) =>
         && after.usage == before.usage && after.fetchedAt == before.fetchedAt
         && after.lastSuccess == before.lastSuccess && after.lastError == message
       case LocalOnly =>
         && after.usage == before.usage && after.fetchedAt == before.fetchedAt
         && after.lastSuccess == stamp && after.lastError == ""
  }

  lemma RefreshedShows(s: Snapshot, o: Outcome, now: int, auto: bool)
    ensures Shows(s, Refreshed(s, o, now, auto), o, now, auto)
  {
    if o.Fetched? {
      var stamped := if auto then s else s.(lastRefresh := NullTime(now, true));
      ReportIsComplete(stamped, o.vendor, now, ApplyVendorSnapshot(stamped, o.vendor, now).usage);
    }
    hide Reports;
  }

  class SubscriptionService {
    const subs: SubscriptionStore
    var providers: map<string, TrafficProvider>

    constructor (store: SubscriptionStore, table: map<string, TrafficProvider>)
      ensures subs == store && providers == table
    {
      subs := store;
      providers := table;
    }

    /** The section that ends a refresh of a traffic source, in one go. */
    method PersistAttempt(id: string, a: Attempt, now: int, auto: bool)
      requires Unique(subs.rows)
      modifies subs
      ensures subs.rows == Persisted(old(subs.rows), providers, id, a, now, auto)
      ensures Unique(subs.rows)
      ensures subs.rows.Keys == old(subs.rows).Keys
      ensures forall other :: other in subs.rows && other != id ==> subs.rows[other] == old(subs.rows)[other]
      ensures var rows := old(subs.rows);
              if id in rows && rows[id].meta.link == a.provider &&
                 (a.url == "" || (a.provider in providers && providers[a.provider].url == a.url))
              then subs.rows[id].meta == rows[id].meta && Shows(rows[id].snap, subs.rows[id].snap, a.outcome, now, auto)
              else subs.rows == rows
    {
      hide Reports;
      if id !in subs.rows { return; }
      var row := subs.rows[id];
      if row.meta.link != a.provider { return; }
      if a.url != "" && (a.provider !in providers || providers[a.provider].url != a.url) { return; }
      var snap := if auto then row.snap else row.snap.(lastRefresh := NullTime(now, true));
      if a.outcome.Fetched? {
        snap := ApplyVendorSnapshot(snap, a.outcome.vendor, now);
      }
      if a.outcome.Failed? {
        snap := snap.(lastError := a.outcome.message);
      } else {
        snap := snap.(lastSuccess := NullTime(now, true), lastError := "");
      }
      RefreshedShows(row.snap, a.outcome, now, auto);
      var ok := subs.UpdateSnapshot(id, row.(snap := snap));
    }
  }

  // ----- every interleaving -----------------------------------------------

  function Put(s: State, i: nat, t: Thread): State
    requires i < |s.threads|
  {
    s.(threads := s.threads[i := t])
  }

  /** Reading a thread's traffic provider; background polls give up quietly, and need a URL. */
  function LookStep(s: State, i: nat, readable: bool): State
    requires i < |s.threads| && s.threads[i].Reading?
  {
    var t := s.threads[i];
    if !readable || t.link !in s.providers then
      if t.auto then Put(s, i, Done) else Found(s, i, t.id, Attempt(t.link, "", Failed(SOURCE_GONE)), false)
    else if s.providers[t.link].url == "" then
      if t.auto then Put(s, i, Done) else Found(s, i, t.id, Attempt(t.link, "", LocalOnly), false)
    else Put(s, i, Fetching(t.id, t.link, s.providers[t.link].url, t.auto))
  }

  function Found(s: State, i: nat, id: string, a: Attempt, auto: bool): State
    requires i < |s.threads|
  {
    Put(s, i, Landing(id, a, auto)).(attempts := s.attempts + {a})
  }

  function FetchStep(s: State, i: nat, o: Outcome): State
    requires i < |s.threads| && s.threads[i].Fetching? && !o.LocalOnly?
  {
    var t := s.threads[i];
    var a := Attempt(t.link, t.url, o);
    if t.auto && o.Failed? then Put(s, i, Done).(attempts := s.attempts + {a}) else Found(s, i, t.id, a, t.auto)
  }

  predicate Ready(t: Thread) { t.Landing? || t.OnNative? }

  /** Entering the lock with an attempt, or with whatever a native refresh wants to write. */
  function LandStep(s: State, i: nat, now: int, readable: bool, native: Snapshot): State
    requires i < |s.threads| && Ready(s.threads[i]) && s.lock.None?
  {
    var t := s.threads[i];
    if !readable || t.id !in s.rows then Put(s, i, Done)
    else if t.OnNative? then Put(s, i, Done).(lock := Some(Pending(t.id, s.rows[t.id].(snap := native))))
    else if Current(s.rows, s.providers, t.id, t.attempt) then
      Put(s, i, Done).(lock := Some(Pending(t.id, s.rows[t.id].(snap := Refreshed(s.rows[t.id].snap, t.attempt.outcome, now, t.auto)))))
    else Put(s, i, Done)
  }

  function WriteStep(s: State, works: bool): State
    requires s.lock.Some?
  {
    var w := s.lock.value;
    s.(lock := None, rows := if works && w.id in s.rows then s.rows[w.id := s.rows[w.id].(snap := w.row.snap)] else s.rows)
  }

  /** Ids are drawn afresh, and the kind of source never changes. */
  predicate Savable(s: State, id: string, m: Meta) {
    && s.lock.None?
    && (id !in s.rows ==> id !in s.used)
    && (id in s.rows ==> s.rows[id].meta.source == m.source)
    && Storable(s.rows, id, m)
  }

  function Step(s: State, e: Event): State {
    match e
    case Start(id, auto) =>
      if id !in s.rows || (auto && !s.rows[id].meta.enabled) then s
      else s.(threads := s.threads +
                [if s.rows[id].meta.source == Native then OnNative(id) else Reading(id, s.rows[id].meta.link, auto)])
    case Look(i, readable) => if i < |s.threads| && s.threads[i].Reading? then LookStep(s, i, readable) else s
    case Fetch(i, o) => if i < |s.threads| && s.threads[i].Fetching? && !o.LocalOnly? then FetchStep(s, i, o) else s
    case Land(i, now, readable, native) =>
      if i < |s.threads| && Ready(s.threads[i]) && s.lock.None? then LandStep(s, i, now, readable, native) else s
    case Write(works) => if s.lock.Some? then WriteStep(s, works) else s
    case Save(id, m) =>
      if Savable(s, id, m) then s.(rows := Saved(s.rows, id, m), used := s.used + {id}, committed := s.committed[id := m]) else s
    case Delete(id) => if s.lock.None? then s.(rows := s.rows - {id}, committed := s.committed - {id}) else s
    case EditProvider(id, p) => s.(providers := s.providers[id := p], urls := s.urls + {(id, p.url)})
    case DropProvider(id) => s.(providers := s.providers - {id})
  }

  function Run(s: State, events: seq<Event>): State {
    if events == [] then s else Step(Run(s, events[..|events| - 1]), events[|events| - 1])
  }

  const EMPTY: State := State(map[], map[], [], None, {}, {}, {}, map[])

  // ----- provenance -------------------------------------------------------

  predicate Good(o: Outcome) { o.Fetched? || o.LocalOnly? }

  ghost predicate UsageFrom(s: Snapshot, link: string, attempts: set<Attempt>) {
    (s.usage == NO_USAGE && !s.fetchedAt.valid) ||
    exists a :: a in attempts && a.provider == link && a.outcome.Fetched? && Reports(s.usage, a.outcome.vendor)
  }

  ghost predicate StatusFrom(s: Snapshot, link: string, attempts: set<Attempt>) {
    && (s.lastError != "" ==> exists a :: a in attempts && a.provider == link && a.outcome == Failed(s.lastError))
    && (s.lastSuccess.valid ==> exists a :: a in attempts && a.provider == link && Good(a.outcome))
    && (s.lastRefresh.valid ==> exists a :: a in attempts && a.provider == link)
  }

  /** The snapshot is cleared, column by column, or what an attempt at the traffic provider the row names found. */
  ghost predicate Traced(r: Row, attempts: set<Attempt>) {
    r.meta.source == Traffic ==> UsageFrom(r.snap, r.meta.link, attempts) && StatusFrom(r.snap, r.meta.link, attempts)
  }

  ghost predicate RowsTraced(s: State) {
    forall id :: id in s.rows ==> Traced(s.rows[id], s.attempts)
  }

  ghost predicate LockHolds(s: State) {
    s.lock.Some? ==>
      && s.lock.value.id in s.rows && s.rows[s.lock.value.id].meta == s.lock.value.row.meta
      && Traced(s.lock.value.row, s.attempts)
  }

  ghost predicate ThreadHolds(s: State, t: Thread) {
    && (t.OnNative? ==> t.id in s.used && (t.id in s.rows ==> s.rows[t.id].meta.source == Native))
    && (t.Landing? ==> t.attempt in s.attempts)
    && (t.Fetching? ==> (t.link, t.url) in s.urls && t.url != "")
  }

  /** No attempt is made up: its URL is one the traffic provider has had. */
  ghost predicate Honest(s: State) {
    && (forall a :: a in s.attempts && a.outcome.Fetched? ==> (a.provider, a.url) in s.urls && a.url != "")
    && (forall p :: p in s.providers ==> (p, s.providers[p].url) in s.urls)
  }

  ghost predicate Inv(s: State) {
    && RowsTraced(s) && LockHolds(s) && Honest(s) && Unique(s.rows)
    && (forall i :: 0 <= i < |s.threads| ==> ThreadHolds(s, s.threads[i]))
    && s.rows.Keys <= s.used
    && s.committed.Keys == s.rows.Keys && forall id :: id in s.rows ==> s.rows[id].meta == s.committed[id]
  }

  lemma RefreshedTraced(r: Row, a: Attempt, now: int, auto: bool, attempts: set<Attempt>)
    requires Traced(r, attempts) && r.meta.link == a.provider && a in attempts
    ensures Traced(r.(snap := Refreshed(r.snap, a.outcome, now, auto)), attempts)
  {
    if a.outcome.Fetched? {
      var stamped := if auto then r.snap else r.snap.(lastRefresh := NullTime(now, true));
      ReportIsComplete(stamped, a.outcome.vendor, now, ApplyVendorSnapshot(stamped, a.outcome.vendor, now).usage);
    }
    hide Reports, ApplyVendorSnapshot;
  }

  lemma TracedGrows(r: Row, attempts: set<Attempt>, more: set<Attempt>)
    requires Traced(r, attempts) && attempts <= more
    ensures Traced(r, more)
  {
    hide Reports;
  }

  /** More attempts, other threads and other providers leave rows and lock as they are. */
  lemma Grows(s: State, t: State)
    requires RowsTraced(s) && LockHolds(s) && t.rows == s.rows && t.lock == s.lock && s.attempts <= t.attempts
    ensures RowsTraced(t) && LockHolds(t)
  {
    hide Traced;
    forall id | id in t.rows ensures Traced(t.rows[id], t.attempts) { TracedGrows(s.rows[id], s.attempts, t.attempts); }
    if s.lock.Some? { TracedGrows(s.lock.value.row, s.attempts, t.attempts); }
  }

  lemma LookKeeps(s: State, i: nat, readable: bool)
    requires Inv(s) && i < |s.threads| && s.threads[i].Reading?
    ensures Inv(LookStep(s, i, readable))
  {
    hide Traced, RowsTraced, LockHolds, Unique;
    Grows(s, LookStep(s, i, readable));
  }

  lemma FetchKeeps(s: State, i: nat, o: Outcome)
    requires Inv(s) && i < |s.threads| && s.threads[i].Fetching? && !o.LocalOnly?
    ensures Inv(FetchStep(s, i, o))
  {
    hide Traced, RowsTraced, LockHolds, Unique;
    assert ThreadHolds(s, s.threads[i]);
    Grows(s, FetchStep(s, i, o));
  }

  lemma LandKeeps(s: State, i: nat, now: int, readable: bool, native: Snapshot)
    requires Inv(s) && i < |s.threads| && Ready(s.threads[i]) && s.lock.None?
    ensures Inv(LandStep(s, i, now, readable, native))
  {
    hide Unique, UsageFrom, StatusFrom, Refreshed;
    var t := s.threads[i];
    assert ThreadHolds(s, t);
    if t.Landing? && Current(s.rows, s.providers, t.id, t.attempt) {
      RefreshedTraced(s.rows[t.id], t.attempt, now, t.auto, s.attempts);
    }
  }

  lemma WriteKeeps(s: State, works: bool)
    requires Inv(s) && s.lock.Some?
    ensures Inv(WriteStep(s, works))
  {
    hide Traced;
    var w := s.lock.value;
    assert s.rows[w.id].(snap := w.row.snap) == w.row;
  }

  lemma ClearedTraced(r: Row, attempts: set<Attempt>)
    requires r.snap == CLEARED
    ensures Traced(r, attempts)
  {}

  lemma TracedByLink(a: Row, b: Row, attempts: set<Attempt>)
    requires Traced(a, attempts) && b.snap == a.snap && (b.meta.source == Traffic ==> a.meta.source == Traffic && a.meta.link == b.meta.link)
    ensures Traced(b, attempts)
  {
    hide UsageFrom, StatusFrom;
  }

  lemma SaveTraced(rows: Table, id: string, m: Meta, attempts: set<Attempt>)
    requires (forall i :: i in rows ==> Traced(rows[i], attempts)) && (id in rows ==> rows[id].meta.source == m.source)
    ensures forall i :: i in Saved(rows, id, m) ==> Traced(Saved(rows, id, m)[i], attempts)
  {
    hide Traced;
    var r := Saved(rows, id, m)[id];
    if r.snap == CLEARED {
      ClearedTraced(r, attempts);
    } else {
      TracedByLink(rows[id], r, attempts);
    }
  }

  lemma SaveThread(s: State, id: string, m: Meta, t: Thread)
    requires Savable(s, id, m) && ThreadHolds(s, t)
    ensures ThreadHolds(Step(s, Save(id, m)), t)
  {
    hide Storable;
  }

  lemma SaveKeeps(s: State, id: string, m: Meta)
    requires Inv(s) && Savable(s, id, m)
    ensures Inv(Step(s, Save(id, m)))
  {
    var t := Step(s, Save(id, m));
    SaveTraced(s.rows, id, m, s.attempts);
    SaveUnique(s.rows, id, m);
    hide Traced, Unique, Storable, ThreadHolds;
    forall i | 0 <= i < |t.threads| ensures ThreadHolds(t, t.threads[i]) { SaveThread(s, id, m, s.threads[i]); }
  }

  lemma SaveUnique(rows: Table, id: string, m: Meta)
    requires Unique(rows) && Storable(rows, id, m)
    ensures Unique(Saved(rows, id, m))
  {}

  lemma StepKeeps(s: State, e: Event)
    requires Inv(s)
    ensures Inv(Step(s, e))
  {
    if e.Look? && Step(s, e) != s {
      LookKeeps(s, e.i, e.readable);
    } else if e.Fetch? && Step(s, e) != s {
      FetchKeeps(s, e.i, e.outcome);
    } else if e.Land? && Step(s, e) != s {
      LandKeeps(s, e.i, e.now, e.readable, e.native);
    } else if e.Write? && s.lock.Some? {
      WriteKeeps(s, e.works);
    } else if e.Save? && Savable(s, e.id, e.meta) {
      SaveKeeps(s, e.id, e.meta);
    } else {
      OthersKeep(s, e);
    }
  }

  lemma OthersKeep(s: State, e: Event)
    requires Inv(s) && (e.Start? || e.Delete? || e.EditProvider? || e.DropProvider? || Step(s, e) == s)
    ensures Inv(Step(s, e))
  {
    hide Traced, RowsTraced, LockHolds, Unique, ThreadHolds, LookStep, FetchStep, LandStep, WriteStep, Savable, Saved;
    if Step(s, e) != s {
      var t := Step(s, e);
      OthersRows(s, e);
      forall i | 0 <= i < |t.threads| ensures ThreadHolds(t, t.threads[i]) {
        if i < |s.threads| { OldThread(s, e, s.threads[i]); } else { NewThread(s, e.id, e.auto); }
      }
    }
  }

  lemma OthersRows(s: State, e: Event)
    requires RowsTraced(s) && LockHolds(s) && Unique(s.rows) && (e.Start? || e.Delete? || e.EditProvider? || e.DropProvider?)
    ensures RowsTraced(Step(s, e)) && LockHolds(Step(s, e)) && Unique(Step(s, e).rows)
  {
    hide Traced, Compatible;
  }

  lemma OldThread(s: State, e: Event, t: Thread)
    requires ThreadHolds(s, t) && (e.Start? || e.Delete? || e.EditProvider? || e.DropProvider?)
    ensures ThreadHolds(Step(s, e), t)
  {}

  lemma NewThread(s: State, id: string, auto: bool)
    requires s.rows.Keys <= s.used && Step(s, Start(id, auto)) != s
    ensures var t := Step(s, Start(id, auto)); |t.threads| == |s.threads| + 1 && ThreadHolds(t, t.threads[|s.threads|])
  {}

  /**
   Over every interleaving: whatever a traffic row shows was cleared or found at
   the traffic provider it names now, at a URL that provider has had; and the
   metadata of every row is what an operator last saved.
   */
  lemma {:induction false} RunProvenance(events: seq<Event>)
    ensures Inv(Run(EMPTY, events))
  {
    if events != [] {
      RunProvenance(events[..|events| - 1]);
      StepKeeps(Run(EMPTY, events[..|events| - 1]), events[|events| - 1]);
    }
  }

  /** A row whose present source has not been asked yet shows nothing, whatever was fetched for the sources before it. */
  lemma NothingAskedNothingShown(events: seq<Event>, id: string)
    requires var s := Run(EMPTY, events);
             id in s.rows && s.rows[id].meta.source == Traffic &&
             forall a :: a in s.attempts ==> a.provider != s.rows[id].meta.link
    ensures var snap := Run(EMPTY, events).rows[id].snap;
            snap.usage == NO_USAGE && !snap.fetchedAt.valid && !snap.lastRefresh.valid && !snap.lastSuccess.valid && snap.lastError == ""
  {
    RunProvenance(events);
    hide Run, Reports;
  }

  // ----- the lock ---------------------------------------------------------

  lemma LockExcludes(s: State, e: Event)
    requires s.lock.Some? && !e.Write?
    ensures Step(s, e).rows == s.rows && Step(s, e).lock == s.lock && Step(s, e).committed == s.committed
  {
    hide ApplyVendorSnapshot, Saved, Storable, Refreshed;
  }

  lemma {:induction false} LockExcludesAll(s: State, events: seq<Event>)
    requires s.lock.Some? && forall e :: e in events ==> !e.Write?
    ensures Run(s, events).rows == s.rows && Run(s, events).lock == s.lock
  {
    hide Step;
    if events != [] {
      LockExcludesAll(s, events[..|events| - 1]);
      LockExcludes(Run(s, events[..|events| - 1]), events[|events| - 1]);
    }
  }

  /**
   The critical section is atomic: whatever happens between its check and its
   write, edits of traffic providers included, it has the effect of
   PersistAttempt at the moment of the check. A stale attempt writes nothing.
   */
  lemma SectionIsAtomic(s: State, i: nat, now: int, native: Snapshot, between: seq<Event>)
    requires i < |s.threads| && s.threads[i].Landing? && s.lock.None?
    requires forall e :: e in between ==> !e.Write?
    ensures var a, id, auto := s.threads[i].attempt, s.threads[i].id, s.threads[i].auto;
            var landed := Step(s, Land(i, now, true, native));
            if Current(s.rows, s.providers, id, a) then
              Step(Run(landed, between), Write(true)).rows == Persisted(s.rows, s.providers, id, a, now, auto)
            else
              landed == Put(s, i, Done) && Persisted(s.rows, s.providers, id, a, now, auto) == s.rows
  {
    var a, id, auto := s.threads[i].attempt, s.threads[i].id, s.threads[i].auto;
    var landed := Step(s, Land(i, now, true, native));
    if Current(s.rows, s.providers, id, a) {
      LockExcludesAll(landed, between);
      hide Run, Refreshed, Current;
      var w := landed.lock.value;
      assert w.row.snap == Refreshed(s.rows[id].snap, a.outcome, now, auto);
    }
  }

  /**
   An attempt lands exactly if, when the lock is taken, its row exists, the row
   still links the traffic provider that was asked, and, for a fetch, that
   provider exists and still has the URL that was fetched. Then the write shows
   the attempt in that row and changes nothing else; if not, nothing is written.
   */
  lemma LandsExactly(s: State, i: nat, now: int, readable: bool, native: Snapshot)
    requires i < |s.threads| && s.threads[i].Landing? && s.lock.None?
    ensures var id, a, auto := s.threads[i].id, s.threads[i].attempt, s.threads[i].auto;
            var landed := Step(s, Land(i, now, readable, native));
            var written := Step(landed, Write(true));
            if readable && id in s.rows && s.rows[id].meta.link == a.provider &&
               (a.url == "" || (a.provider in s.providers && s.providers[a.provider].url == a.url))
            then
              && landed.rows == s.rows && landed.lock.Some? && written.lock.None?
              && written.rows.Keys == s.rows.Keys
              && (forall other :: other in s.rows && other != id ==> written.rows[other] == s.rows[other])
              && written.rows[id].meta == s.rows[id].meta
              && Shows(s.rows[id].snap, written.rows[id].snap, a.outcome, now, auto)
            else
              landed.rows == s.rows && landed.lock.None? && written == landed
  {
    var id, a, auto := s.threads[i].id, s.threads[i].attempt, s.threads[i].auto;
    if id in s.rows { RefreshedShows(s.rows[id].snap, a.outcome, now, auto); }
    hide Refreshed, Shows, Saved, Storable;
  }

  /** What a refresh finds out: a provider it cannot read, one without a URL, or what the vendor answers. */
  function Finding(s: State, link: string, readable: bool, answer: Outcome): Outcome {
    if !readable || link !in s.providers then Failed("linked traffic provider no longer exists")
    else if s.providers[link].url == "" then LocalOnly
    else answer
  }

  /**
   An undisturbed refresh ends with the row showing what it found out; a
   background poll does so for enabled rows and vendor reports only.
   */
  lemma RefreshDelivers(s: State, id: string, auto: bool, readable: bool, answer: Outcome, now: int, native: Snapshot)
    requires id in s.rows && s.rows[id].meta.source == Traffic && s.lock.None? && !answer.LocalOnly?
    requires auto ==> s.rows[id].meta.enabled
    ensures var n := |s.threads|;
            var found := Finding(s, s.rows[id].meta.link, readable, answer);
            var rows := Run(s, [Start(id, auto), Look(n, readable), Fetch(n, answer), Land(n, now, true, native), Write(true)]).rows;
            if auto && !found.Fetched? then rows == s.rows
            else id in rows && rows[id].meta == s.rows[id].meta && Shows(s.rows[id].snap, rows[id].snap, found, now, auto)
  {
    hide Step, Shows, Reports, Finding;
    var n := |s.threads|;
    FiveSteps(s, Start(id, auto), Look(n, readable), Fetch(n, answer), Land(n, now, true, native), Write(true));
    var fetched := Step(Step(Step(s, Start(id, auto)), Look(n, readable)), Fetch(n, answer));
    Asked(s, id, auto, readable, answer);
    var found := Finding(s, s.rows[id].meta.link, readable, answer);
    if auto && !found.Fetched? {
      NothingLands(fetched, n, now, native);
    } else {
      LandsExactly(fetched, n, now, true, native);
    }
  }

  lemma NothingLands(s: State, n: nat, now: int, native: Snapshot)
    requires n < |s.threads| && s.threads[n] == Done && s.lock.None?
    ensures Step(Step(s, Land(n, now, true, native)), Write(true)) == s
  {}

  /** Up to the lock a refresh changes no row, and then carries what it found for the source its row linked. */
  lemma Asked(s: State, id: string, auto: bool, readable: bool, answer: Outcome)
    requires id in s.rows && s.rows[id].meta.source == Traffic && !answer.LocalOnly? && (auto ==> s.rows[id].meta.enabled)
    ensures var n, link := |s.threads|, s.rows[id].meta.link;
            var found := Finding(s, link, readable, answer);
            var fetched := Step(Step(Step(s, Start(id, auto)), Look(n, readable)), Fetch(n, answer));
            && fetched.rows == s.rows && fetched.lock == s.lock && fetched.providers == s.providers && |fetched.threads| == n + 1
            && fetched.threads[n] ==
               if auto && !found.Fetched? then Done
               else Landing(id, Attempt(link, if readable && link in s.providers then s.providers[link].url else "", found), auto)
  {
    hide LandStep, WriteStep, Savable, Saved;
  }

  lemma FiveSteps(s: State, a: Event, b: Event, c: Event, d: Event, e: Event)
    ensures Run(s, [a, b, c, d, e]) == Step(Step(Step(Step(Step(s, a), b), c), d), e)
  {
    hide Step;
    RunMore(s, [], a);
    RunMore(s, [a], b);
    RunMore(s, [a, b], c);
    RunMore(s, [a, b, c], d);
    RunMore(s, [a, b, c, d], e);
    assert [] + [a] == [a] && [a] + [b] == [a, b] && [a, b] + [c] == [a, b, c];
    assert [a, b, c] + [d] == [a, b, c, d] && [a, b, c, d] + [e] == [a, b, c, d, e];
  }

  lemma RunMore(s: State, es: seq<Event>, e: Event)
    ensures Run(s, es + [e]) == Step(Run(s, es), e)
  {
    hide Step;
    assert (es + [e])[..|es + [e]| - 1] == es;
  }

  // ----- background polls -------------------------------------------------

  /** A background poll starts exactly for rows that are not paused. */
  lemma PollsSkipPaused(s: State, id: string)
    ensures Step(s, Start(id, true)).threads != s.threads <==> id in s.rows && s.rows[id].meta.enabled
  {
    if id in s.rows && s.rows[id].meta.enabled {
      assert |Step(s, Start(id, true)).threads| == |s.threads| + 1;
    }
  }

  predicate Quiet(r: Row) {
    r.meta.source == Traffic ==> r.snap.lastError == "" && !r.snap.lastRefresh.valid
  }

  predicate PollThread(s: State, t: Thread) {
    && (t.Reading? || t.Fetching? ==> t.auto)
    && (t.Landing? ==> t.auto && t.attempt.outcome.Fetched?)
    && (t.OnNative? ==> t.id in s.used && (t.id in s.rows ==> s.rows[t.id].meta.source == Native))
  }

  ghost predicate QuietRows(s: State) {
    && s.rows.Keys <= s.used
    && (forall id :: id in s.rows ==> Quiet(s.rows[id]))
    && (s.lock.Some? ==> Quiet(s.lock.value.row) && s.lock.value.id in s.rows && s.rows[s.lock.value.id].meta == s.lock.value.row.meta)
  }

  ghost predicate PollsOnly(s: State) {
    QuietRows(s) && forall i :: 0 <= i < |s.threads| ==> PollThread(s, s.threads[i])
  }

  lemma OldPoll(s: State, e: Event, t: Thread)
    requires s.rows.Keys <= s.used && PollThread(s, t)
    ensures PollThread(Step(s, e), t)
  {
    hide Reports, Storable, ApplyVendorSnapshot, Refreshed, Current;
  }

  lemma NewPoll(s: State, e: Event, i: nat)
    requires s.rows.Keys <= s.used && (e.Start? ==> e.auto) && i < |Step(s, e).threads|
    requires i < |s.threads| ==> PollThread(s, s.threads[i]) && Step(s, e).threads[i] != s.threads[i]
    ensures PollThread(Step(s, e), Step(s, e).threads[i])
  {
    hide Reports, Storable, ApplyVendorSnapshot, Refreshed, Current, Saved, Savable;
    if e.Land? && Step(s, e) != s {
      LandEnds(s, e);
    } else if e.Look? || e.Fetch? {
      hide LandStep, WriteStep;
    } else {
      hide LandStep, LookStep, FetchStep;
    }
  }

  lemma LandEnds(s: State, e: Event)
    requires e.Land? && e.i < |s.threads| && Ready(s.threads[e.i]) && s.lock.None?
    ensures Step(s, e).threads == s.threads[e.i := Done]
  {
    hide Refreshed, Current;
  }

  lemma PollRows(s: State, e: Event)
    requires PollsOnly(s)
    ensures QuietRows(Step(s, e))
  {
    if e.Land? && e.i < |s.threads| && Ready(s.threads[e.i]) && s.lock.None? {
      assert PollThread(s, s.threads[e.i]);
      PollWrites(s, e.i, e.now);
      hide Reports, Refreshed, Current;
      var t := LandStep(s, e.i, e.now, e.readable, e.native);
      assert t.rows == s.rows && t.used == s.used;
    } else if e.Save? && Savable(s, e.id, e.meta) {
      hide Storable;
    } else {
      hide Reports, Storable, Refreshed, LandStep, LookStep, FetchStep, Savable;
      assert !e.Land? || Step(s, e) == s;
      if (e.Look? || e.Fetch?) && Step(s, e) != s { LooksKeepRows(s, e); }
    }
  }

  lemma LooksKeepRows(s: State, e: Event)
    requires e.Look? || e.Fetch?
    ensures Step(s, e).rows == s.rows && Step(s, e).lock == s.lock && Step(s, e).used == s.used
  {}

  lemma PollKeeps(s: State, e: Event)
    requires PollsOnly(s) && (e.Start? ==> e.auto)
    ensures PollsOnly(Step(s, e))
  {
    PollRows(s, e);
    hide Step, Quiet, PollThread;
    var t := Step(s, e);
    forall i | 0 <= i < |t.threads| ensures PollThread(t, t.threads[i]) {
      if i < |s.threads| && t.threads[i] == s.threads[i] { OldPoll(s, e, s.threads[i]); } else { NewPoll(s, e, i); }
    }
  }

  lemma PollWrites(s: State, i: nat, now: int)
    requires i < |s.threads| && PollThread(s, s.threads[i])
    ensures s.threads[i].Landing? ==>
              forall snap: Snapshot ::
                var r := Refreshed(snap, s.threads[i].attempt.outcome, now, s.threads[i].auto);
                r.lastError == "" && r.lastRefresh == snap.lastRefresh
  {}

  /** In a run without manual refreshes no traffic row ever shows an error or a refresh time: failed polls leave no trace. */
  lemma {:induction false} PollsLeaveNoErrors(events: seq<Event>)
    requires forall e :: e in events && e.Start? ==> e.auto
    ensures PollsOnly(Run(EMPTY, events))
  {
    hide PollsOnly;
    if events == [] {
      assert PollsOnly(EMPTY) by { NobodyPolls(); }
    } else {
      PollsLeaveNoErrors(events[..|events| - 1]);
      PollKeeps(Run(EMPTY, events[..|events| - 1]), events[|events| - 1]);
    }
  }

  lemma NobodyPolls()
    ensures PollsOnly(EMPTY)
  {}
}
