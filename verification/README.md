# mihomo-cp: verified model of the control plane

This project models the parts of mihomo-cp where correctness is not visible from a single
function: the subscription registry and its refresh protocol, the scoring queue with its
dispatcher, caches and single-flight, traffic accounting, billing cycles, the two graph
algorithms, the configuration printer and parser, publishing, and the row keys of the node
table. `dafny verify dfyconfig.toml` checks the whole project.

How the system is represented:

- A store table is a map from key to record. A section under a mutex, a single SQL statement
  and a transaction are one step each. Objects whose methods update fields are classes whose
  methods are proved against a function of the old state; the lemmas are about those functions.
- Where operations interleave, there is a state machine over the same steps (`Step`, `Run`),
  and the main results hold after every sequence of events, in any order. Store failures,
  vendor answers, clocks and other writers are part of the events, so they are arbitrary.
- In `SnapshotProtocol` the critical section of a refresh is split once more, between its check
  and its write, because edits of traffic providers do not take the lock.
- Instants are nanoseconds since 1 January of year 0 (unix seconds in traffic accounting); a time
  zone is a constant offset.

| files | what they cover |
|---|---|
| Subscriptions, SnapshotProtocol | subscription rows, their SQL statements, refreshes against edits |
| Registry, RegistryLaws, RegistryPayloads | Create, Update, Delete and the configuration draft |
| ScoreStore, Dispatch | the durable queue and one dispatch over it |
| Reconcile, ReconcileLaws | ScanAndEnqueue against the inventory |
| ProviderCache, Egress, SingleFlight | provider node cache, source collection, single-flight and egress cache |
| Traffic, TrafficLedger | deltas, flushes, the ledger over whole runs |
| Calendar, Cycle | civil dates and billing cycles |
| Decimal, UtcStamp | decimal printing, the stored time stamp |
| CircularRefs, Validator | group cycles, draft validation |
| DialerDeps | the closure of dialer-proxy chains and groups |
| Rules, Config, ConfigRoundTrip, ConfigLayout | rule strings and the configuration map, both ways |
| Publish | publish and rollback |
| NodeRows | unique row keys in the web table |
| Prelude | the option type and a fact about set sizes |

## Where the code and its promises differ

The model follows the code. Each item names the lemma with the condition under which the
promise is kept, and one with a case in which it is not.

- A failed create or update of a native subscription is meant to leave the draft as it was. If
  the read that remembers the entry fails, the next read succeeds and changes an existing entry,
  and then the row cannot be saved, nothing is remembered, and putting the draft back removes the
  entry, even one that another subscription manages (exactly then:
  `RegistryLaws.RefusalKeepsLookups`, `RegistryLaws.StepLinked`; a case: `RegistryLaws.GapExample`).
- `cycleEnd` in the traffic summary is the next reset if and only if the cycle did not start on a
  clamped day; otherwise it is the start of the current cycle (`Cycle.SummaryCycleEndExact`; a
  case: `Cycle.SummaryCycleEndCounterexample`).
- The dialer-proxy closure stops at depth 32. It is exact for every target that reaches n
  entities if and only if n is at most 33 for a proxy and at most 32 for a group
  (`DialerDeps.ProxyBoundIsTight`, `DialerDeps.GroupBoundIsTight`; cases:
  `DialerDeps.LongChainInexact`, `DialerDeps.LongGroupChainInexact`).
- A rollback publishes the latest success record again. It changes the file if and only if the
  file holds something else and the attempt goes through, so never in a regular run
  (`Publish.RollbackChangesFile`, `Publish.RollbackKeepsFile`; a case: `Publish.RollbackExample`).
- Nodes of two providers can share a key if and only if one provider's name extends the other's by
  a slash (`ReconcileLaws.CollideExactly`; a case: `ReconcileLaws.SlashesCollide`).
- A repeated scan of the same inventory changes nothing if and only if nodes that share a name
  agree on their configuration; otherwise such a node is queued again by every scan
  (`ReconcileLaws.RescanQuiet`; a case: `ReconcileLaws.TwinsRequeued`).
- A connection that stays listed and never goes backwards is charged what its counter moved if and
  only if no snapshot lists it again after a listing that had already moved
  (`TrafficLedger.RunTelescopes`; a case: `TrafficLedger.DuplicateIsChargedTwice`).
- From year 0 on, comparing stamps as text is comparing instants up to the end of year 9999 and no
  further (`UtcStamp.StampBoundIsTight`; a case: `UtcStamp.OrderLost`). Due times are the clock
  plus a duration, so this is an assumption on the clock.
- A draft without errors routes every rule to something that exists if and only if its MATCH rules
  do, because validation does not look at their targets (`Validator.MatchTargetUnchecked`; a case:
  `Validator.MatchTargetExample`).

## Model

| member | source | states |
|---|---|---|
| SnapshotProtocol.RunProvenance | internal/service/subscription_service.go:1454-1569 | over every interleaving of starts, provider lookups, fetches, lock sections, writes, saves, deletions and provider edits, a traffic row's figures and status are cleared or found by an attempt at the traffic provider it names now, at a URL that provider has had; and every row's metadata is what was last saved |
| SnapshotProtocol.NothingAskedNothingShown | internal/store/subscription_store.go:140-171 | a row whose present source has not been asked shows no usage, no times and no error, whatever earlier sources reported |
| SnapshotProtocol.LandsExactly | internal/service/subscription_service.go:1507-1544 | an attempt is written if and only if, when the lock is taken, its row exists and links the traffic provider asked, and for a fetch that provider exists and has the URL fetched at that moment; then the row shows the attempt and nothing else changes, otherwise nothing does |
| SnapshotProtocol.SectionIsAtomic | internal/service/subscription_service.go:1507-1544 | with any events between check and write, provider edits included, a landed attempt has the effect of PersistAttempt at the moment of the check |
| SnapshotProtocol.LockExcludes | internal/service/subscription_service.go:58-63 | while a snapshot write is pending, no other step changes a row or a saved edit |
| SnapshotProtocol.RefreshDelivers | internal/service/subscription_service.go:1454-1551 | an undisturbed refresh ends with the row showing what it found out: a vendor report, a failed fetch, a source without URL, or a missing provider; a background poll shows reports only and leaves the refresh time |
| SnapshotProtocol.PollsLeaveNoErrors | internal/service/subscription_service.go:112-200 | in runs without manual refreshes no traffic row ever shows an error or a refresh time |
| SnapshotProtocol.PollsSkipPaused | internal/service/subscription_service.go:112-121 | a background poll starts exactly for enabled rows |
| SnapshotProtocol.StepKeeps | internal/service/subscription_service.go:175-200 | every step keeps provenance, honest attempts, unique managers, the pending write's agreement with its row, and saved metadata |
| SnapshotProtocol.SubscriptionService.PersistAttempt | internal/service/subscription_service.go:1507-1569 | the section in one go: writes the snapshot half of that one row, and shows the attempt, if and only if the row exists with that link and, for a fetch, the provider exists with that URL; otherwise changes nothing |
| Subscriptions.SubscriptionStore.Create | internal/store/subscription_store.go:91-114 | inserts exactly when the id is new and the unique indexes allow it, with an empty snapshot; keeps uniqueness |
| Subscriptions.SubscriptionStore.UpdateMetadata | internal/store/subscription_store.go:120-138 | rewrites the metadata and no snapshot column |
| Subscriptions.SubscriptionStore.UpdateMetadataRebind | internal/store/subscription_store.go:149-171 | rewrites the metadata and clears every snapshot column |
| Subscriptions.SubscriptionStore.UpdateSnapshot | internal/store/subscription_store.go:177-196 | rewrites the snapshot; the metadata passed in is not stored |
| Subscriptions.OneManager | internal/store/migrations.go:233-258 | two rows share a provider name, or two traffic rows a traffic provider, only if it is empty |
| Subscriptions.ReportIsComplete | internal/service/subscription_service.go:542-586 | the stored figures are exactly what one report says, directions and aggregate never both, and nothing of an earlier report survives |
| RegistryLaws.RunUnique | internal/service/subscription_service.go:899-1301 | after any sequence of operations with any store failures, each provider name and each traffic source has at most one manager |
| RegistryLaws.RunLinked | internal/service/subscription_service.go:712-1301 | every native row has its draft entry after each step of a run if and only if no step fell into the rollback gap on a managed provider |
| RegistryLaws.StepLinked | internal/service/subscription_service.go:712-1301 | one operation separates a native row from its entry exactly when it falls into the gap and the provider has a manager |
| RegistryLaws.RefusalKeepsLookups | internal/service/subscription_service.go:969-987 | a refused create or update stores no row, and leaves every provider lookup as it was if and only if it is not the gap |
| RegistryLaws.GapExample | internal/service/subscription_service.go:717-742 | a concrete failed create that removes another subscription's entry |
| RegistryLaws.LosingCreate | internal/service/subscription_service.go:58-63 | a create for a provider that already has a manager is refused even when the pre-checks could not be made |
| RegistryLaws.AcceptedIsRegistered | internal/service/subscription_service.go:899-1162 | an accepted operation stores the planned row, and a native row then has its entry, with the given URL if there was one |
| RegistryLaws.OthersUntouched | internal/service/subscription_service.go:744-791 | no operation changes another provider's entry; operations on traffic sources change no entry |
| RegistryLaws.DeleteReleases | internal/service/subscription_service.go:1237-1301 | exactly when a deletion is refused, referenced providers included; an accepted one leaves no manager and removes the entry unless the draft cannot be saved; a refused one changes nothing |
| RegistryLaws.EmptyUpdateKeepsAll | internal/service/subscription_service.go:815-880 | an update that provides nothing changes neither row nor draft |
| RegistryLaws.UpdateIsIdempotent | internal/service/subscription_service.go:1097-1229 | the same update accepted twice changes nothing the second time |
| RegistryLaws.OmittedIsInherited | internal/service/subscription_service.go:1042-1066 | creating a traffic source with a field left open is creating it with the traffic provider's own value |
| RegistryPayloads.AcceptedStores | internal/service/subscription_service.go:837-1229 | an accepted create or update stores exactly the row asked for, every field given (text trimmed), kept, defaulted or inherited; keeps or clears the snapshot as the link requires; writes the given URL into the draft entry and keeps its other settings; touches nothing else |
| RegistryPayloads.RefusedExactly | internal/service/subscription_service.go:899-1229 | a request is refused if and only if a value is bad, a check speaks against it, the draft entry cannot be written, or the row cannot be stored |
| RegistryPayloads.RefusalsTellWhy | internal/service/subscription_service.go:899-1229 | each kind of refusal has a reason of its kind |
| RegistryLaws.AppearsAsEvent | internal/service/subscription_service.go:899-1301 | to a running refresh, each operation is one save or deletion of the refresh protocol, or nothing |
| Registry.SubscriptionService.Submit | internal/service/subscription_service.go:899-1229 | create and update change rows and draft as specified for every combination of failures, and keep uniqueness |
| Registry.SubscriptionService.Carry | internal/service/subscription_service.go:969-987 | draft first, then the row, and the draft put back when the row is refused |
| Registry.SubscriptionService.UpsertDraftProvider | internal/service/subscription_service.go:747-774 | writes one entry or its URL, and reports a change only if it was saved |
| Registry.SubscriptionService.RestoreDraftProvider | internal/service/subscription_service.go:731-742 | puts back what was remembered, or removes the entry if nothing was |
| Registry.SubscriptionService.Delete | internal/service/subscription_service.go:1237-1301 | refuses referenced providers, deletes the row, then the entry |
| ReconcileLaws.ScanReconciles | internal/service/scoring_service.go:227-302 | when no provider name, in the draft or stored, extends another of the draft by a slash: after a scan the static rows are exactly the static proxies, a provider that is readable and not paused has exactly its effective nodes, a paused or unreadable one keeps its rows, a provider outside the draft has none; unchanged rows are untouched, changed ones pending, due, attempts zero, history kept |
| ReconcileLaws.RescanQuiet | internal/service/scoring_service.go:227-302 | scanning the same inventory later changes nothing if and only if no two nodes of an owner share a name with different fingerprints |
| ReconcileLaws.SectionMatches | internal/service/scoring_service.go:239-293 | reconciling one owner makes its rows exactly its nodes and touches no other owner's row |
| ReconcileLaws.EnsureAllAt | internal/service/scoring_service.go:370-405 | ensuring a list of nodes settles each named row by all nodes of that name and leaves every other key alone |
| ReconcileLaws.EffectiveExactly | internal/service/scoring_service.go:275-285 | a provider's effective nodes are exactly its named cache nodes under their runtime names |
| ReconcileLaws.ScanIsFair | internal/service/scoring_service.go:382-400 | a scan stamped after the instant a dispatch captured makes no row due for that dispatch |
| ReconcileLaws.WellKeyedKept | internal/service/scoring_service.go:677-771 | stale write-backs, claims, resets and re-queues leave each row under its own key |
| ReconcileLaws.KeyInjective | internal/store/node_score_store.go:206-211 | unless one owner's name extends the other's by a slash, two nodes share a key exactly when owner and name agree |
| ReconcileLaws.CollideExactly | internal/store/node_score_store.go:206-211 | two different providers can have nodes under one key if and only if one name extends the other by a slash |
| ReconcileLaws.SlashesCollide | internal/store/node_score_store.go:206-211 | node b/c of provider a and node c of provider a/b have one key |
| ReconcileLaws.TwinsRequeued | internal/service/scoring_service.go:271-284 | one cached name with two configurations is queued again by each scan |
| ReconcileLaws.CacheNameInverts | internal/service/egress.go:184-207 | CacheName answers a name exactly for the runtime name made from it |
| Reconcile.Queue.EnsureNodeWithFP | internal/service/scoring_service.go:370-405 | inserts a pending row, leaves an unchanged one, re-queues a changed one |
| Reconcile.Queue.Reconcile | internal/service/scoring_service.go:250-293 | ensures all nodes of an owner, then deletes its rows without a node |
| Reconcile.Queue.ScanAndEnqueue | internal/service/scoring_service.go:227-302 | static proxies, then each provider of the draft, then rows of dead providers |
| Dispatch.RunExclusive | internal/service/scoring_service.go:451-510 | in every run, whatever other writers do to the rows, no key has two probes in flight, at most the configured number run, and none runs between passes |
| Dispatch.DispatchTerminates | internal/service/scoring_service.go:451-510 | each step of the dispatch lowers a measure that fair writers never raise, so its steps are bounded by the measure at the start |
| Dispatch.DispatchBound | internal/service/scoring_service.go:451-510 | an explicit bound on the steps from the number of rows due at the start |
| Dispatch.NeverStuck | internal/service/scoring_service.go:451-510 | before it stops, some step of its own is always possible |
| Dispatch.StopsWhenDone | internal/service/scoring_service.go:451-510 | a dispatch that no listing error, full cap or claimless pass cuts short stops only when no row is left to take |
| Dispatch.StepShrinking | internal/service/scoring_service.go:484-507 | within a pass, what is still due was due when listed and has not been claimed |
| ScoreStore.BatchIsOldestDue | internal/store/node_score_store.go:107-127 | a batch holds distinct rows that are not being tested, due by now, and not paused unless asked for, oldest first; such a row left out is no older than any in a full batch |
| ScoreStore.SelectedExactly | internal/store/node_score_store.go:107-127 | the string test in SQL selects exactly the rows due at that instant |
| ScoreStore.DueBatchExists | internal/store/node_score_store.go:107-127 | for every table and limit such a batch exists |
| ScoreStore.NoLaterIsTime | internal/store/node_score_store.go:119 | ordering by the stored text is ordering by time, never-due first |
| ScoreStore.NodeScoreStore.Claim | internal/store/node_score_store.go:132-143 | claims exactly rows that are not being tested, and changes only their status |
| ScoreStore.NodeScoreStore.ResetTesting | internal/store/node_score_store.go:147-157 | every row being tested becomes pending and due, no other changes |
| ScoreStore.ResetRecovers | internal/store/node_score_store.go:145-157 | after a restart no row is lost or stuck |
| ScoreStore.ProbesShow | internal/service/scoring_service.go:677-771 | after any sequence of probes a row has the status and due time of the last outcome, the results of the latest success, as many attempts as failures since it, no open request, and its identity |
| ScoreStore.FinishedNotDue | internal/service/scoring_service.go:1007-1019 | whatever a probe's outcome, its row is not due again at any instant up to its end |
| ScoreStore.BackoffDoubles | internal/service/scoring_service.go:1007-1019 | the wait is half an hour after the first failure and doubles with each further one up to a day |
| ProviderCache.RunKeeps | internal/service/scoring_service.go:307-337 | in every run, nodes returned to a reader that observed a generation were on disk at some time after it was established, also when an older reader overwrites a newer entry |
| ProviderCache.BarrierHolds | internal/service/scoring_service.go:227-230 | nodes returned under a generation newer than an invalidation were on disk after it |
| ProviderCache.StepKeeps | internal/service/scoring_service.go:307-337 | each critical section, file update and read keeps every cached list and every reader's list to what was on disk since the generation it carries; storing under the generation observed before the read is what this needs |
| ProviderCache.Cache.Lookup | internal/service/scoring_service.go:307-314 | returns the generation and an entry only if it carries it |
| SingleFlight.OneLeaderPerKey | internal/service/scoring_service.go:830-851 | after every run an entry is in flight for a key exactly while one call leads it, and never two |
| SingleFlight.FollowersAgree | internal/service/scoring_service.go:836-843 | a follower returned exactly the tuple its flight's leader returned |
| SingleFlight.HitReproducesLeader | internal/service/scoring_service.go:812-829 | a cache hit is the outcome of the leader that stored the entry, with every source that writer and reader require |
| SingleFlight.NeverWithoutClaude | internal/service/scoring_service.go:812-829 | a Claude-visible request is never answered from an entry without the Claude source |
| SingleFlight.HitIsReturned | internal/service/scoring_service.go:808-829 | a new call is answered from the cache if and only if an entry less than six days old has the sources it needs, and otherwise goes on to the table |
| SingleFlight.FetchThenHit | internal/service/scoring_service.go:885-907 | a complete fetch answers every request it suffices for with its own outcome, for exactly six days |
| SingleFlight.NothingOldServed | internal/service/scoring_service.go:808-829 | in every run whatever the cache answers was fetched less than six days before |
| SingleFlight.RunKeepsCache | internal/store/node_score_store.go:179-203 | every stored entry has all sources its writer needed and names the flight that wrote it |
| SingleFlight.EnterKeeps | internal/service/scoring_service.go:830-851 | entering keeps the table equal to the open flights, each under its key with its running leader, whether the caller joins or leads |
| Egress.Collect | internal/service/scoring_service.go:853-907 | when a result may be cached, which answers its document and scores hold, and when it is a rate limit or an error |
| TrafficLedger.RunConserves | internal/service/traffic_service.go:149-224 | in every run of polls, flushes in flight, put-backs and pruning, pending plus in flight plus stored plus pruned equals all ingested deltas, per hour and node |
| TrafficLedger.QuiescentConserves | internal/service/traffic_service.go:191-224 | with no flush in flight, pending plus stored plus pruned is everything ingested |
| TrafficLedger.RunTelescopes | internal/service/traffic_service.go:149-188 | a connection listed in every snapshot that never goes backwards is charged its last counter minus its counter at the start, or all of it if it is new, if and only if no snapshot lists it again after a listing that had moved; other connections may repeat as they like |
| TrafficLedger.ChargeOvershoot | internal/service/traffic_service.go:155-182 | one snapshot never charges less than the counter it leaves behind, and more exactly when such a repeat is in it |
| TrafficLedger.LedgerNonNegative | internal/service/traffic_service.go:162-177 | no delta is negative or zero, also when counters reset |
| TrafficLedger.BaselineIsFree | internal/service/traffic_service.go:149-188 | a snapshot without a baseline charges nothing and becomes the baseline |
| TrafficLedger.OutageIsFree | internal/service/traffic_service.go:129-146 | the snapshot after a failed poll charges nothing, whatever the counters did |
| TrafficLedger.SnapshotFillsBuckets | internal/service/traffic_service.go:149-188 | each hour and node grows by exactly what moved through connections whose chain starts at the node; new connections and those whose counters fell count whole |
| TrafficLedger.FlushDelivers | internal/service/traffic_service.go:191-204 | an undisturbed flush moves all pending deltas into the store |
| TrafficLedger.RefusalPutsBack | internal/service/traffic_service.go:204-217 | refused rows are pending again |
| TrafficLedger.PruneDeletesOld | internal/store/traffic_store.go:162-167 | pruning deletes exactly the hours before the bound |
| TrafficLedger.DuplicateIsChargedTwice | internal/service/traffic_service.go:149-188 | a new connection listed twice in a snapshot is charged twice |
| TrafficLedger.StepAccounts | internal/service/traffic_service.go:191-224 | every single step keeps the balance |
| Traffic.TrafficService.Ingest | internal/service/traffic_service.go:149-188 | with a baseline each bucket grows by what moved through its node in its hour, without one nothing does; exactly the connections listed with a node are remembered |
| Traffic.LastListingSeen | internal/service/traffic_service.go:155-160 | a connection is next compared with its last listing that named a node |
| Traffic.TrafficService.PutBack | internal/service/traffic_service.go:206-217 | merges taken buckets back bucket by bucket |
| Traffic.TrafficStore.AddHourly | internal/store/traffic_store.go:131-150 | adds every row in one transaction, or nothing |
| Traffic.TrafficStore.PruneHourlyBefore | internal/store/traffic_store.go:162-167 | drops exactly the buckets before the bound |
| Traffic.Flush | internal/service/traffic_service.go:191-224 | one flush alone moves all pending deltas to the store, or leaves everything |
| Traffic.RowsOf | internal/service/traffic_service.go:201-204 | each taken bucket becomes one row |
| Cycle.CyclesTile | internal/service/cycle.go:54-87 | now lies in its cycle, and an instant lies in that half-open interval exactly when it has the same start, exactly when it has the same end |
| Cycle.CyclesAbut | internal/service/cycle.go:64-87 | the next cycle starts where this one ends, and a cycle lasts 28 to 31 days |
| Cycle.NextResetIsReset | internal/service/cycle.go:79-98 | the next reset is the reset of the following month, and the second step forward in the code is never reached |
| Cycle.CycleStartIsReset | internal/service/cycle.go:64-76 | the start is the clamped reset of the month whose reset is the last one up to now |
| Cycle.CycleStartClock | internal/service/cycle.go:54-76 | on the zone's clock a cycle starts on the scheduled day or the month's last, at the scheduled hour and minute |
| Cycle.SummaryCycleEndExact | internal/service/traffic_service.go:402 | the summary's cycle end is the next reset if and only if the cycle opened on its scheduled day, else it is the cycle's start |
| Cycle.SummaryCycleEndCounterexample | internal/service/traffic_service.go:402 | 10 March with reset day 31 |
| Calendar.DateRoundTrip | internal/service/cycle.go:64-98 | a day number and its year, month and day of month determine each other, leap years included |
| Calendar.Gregorian | internal/service/cycle.go:54-60 | 146097 days in 400 years, a 366th day exactly in Gregorian leap years |
| UtcStamp.StampOrder | internal/model/nullable.go:72-80 | for years 0 to 9999 comparing stamps as strings is comparing instants |
| UtcStamp.DueExact | internal/model/nullable.go:85-90 | the stored value passes the SQL test exactly if it is never-set or not after now |
| UtcStamp.StampText | internal/model/nullable.go:72-80 | the stamp of a date and time of day is its fields, zero-padded, in the fixed layout |
| UtcStamp.EpochText | internal/model/nullable.go:72-80 | the epoch, letter by letter |
| UtcStamp.StampBoundIsTight | internal/model/nullable.go:72-80 | from year 0, text order is time order for all instants before n if and only if n is at most the first instant of year 10000 |
| UtcStamp.OrderLost | internal/model/nullable.go:72-80 | the first instant of year 10000 sorts before an earlier one |
| CircularRefs.DetectCircularRefs | internal/service/validator.go:155-199 | reports distinct groups that lie on cycles, one on every cycle, and none exactly if the membership graph is acyclic |
| CircularRefs.CycleHasReported | internal/service/validator.go:155-199 | in finishing order, every cycle of finished groups passes through a reported one |
| CircularRefs.Detector.Dfs | internal/service/validator.go:163-190 | the search keeps its stack, visits its argument and terminates on the names neither visited nor on the stack |
| Validator.Validate | internal/service/validator.go:36-152 | there is no error exactly on sound drafts, and circular issues are the groups found |
| Validator.MembersOfLast | internal/service/validator.go:70-90 | the membership graph takes each group's members from its last entry that parses |
| Validator.CheckRules | internal/service/validator.go:106-145 | rule errors, the missing MATCH and the MATCH that is not last |
| Validator.MatchTargetUnchecked | internal/service/validator.go:106-121 | a draft without errors routes every rule to something that exists if and only if its MATCH rules do |
| Validator.MatchTargetExample | internal/service/validator.go:106-121 | a draft without errors whose only rule leads nowhere |
| DialerDeps.ResolveExact | internal/service/egress.go:403-489 | when the target reaches no more entities than the bound, whatever else the inventory holds, the result is exactly those entities, each once, proxies and groups apart, or the refusal or absence that applies |
| DialerDeps.RefusedExactly | internal/service/egress.go:403-489 | under the same bound, refused exactly when a reached group uses a provider |
| DialerDeps.ProxyBoundIsTight | internal/service/egress.go:403-489 | all proxies that reach n entities, in all inventories, resolve exactly if and only if n is at most 33 |
| DialerDeps.LongChainInexact | internal/service/egress.go:463-481 | a chain of more than 33 proxies loses its end |
| DialerDeps.GroupBoundIsTight | internal/service/egress.go:403-489 | and all groups that reach n entities if and only if n is at most 32 |
| DialerDeps.LongGroupChainInexact | internal/service/egress.go:424-481 | the same chain loses its end one entity earlier behind a group |
| DialerDeps.ResolveDialerDeps | internal/service/egress.go:403-489 | the closures that update the shared state compute the specified closure and terminate on cyclic input |
| Rules.RuleRoundTrip | internal/service/import_service.go:216-251 | printing and parsing a rule gives it back if and only if it is canonical |
| Rules.ParseIsCanonical | internal/service/import_service.go:216-251 | every accepted string parses to a canonical rule |
| Rules.ParseRenderParse | internal/service/config_service.go:110-133 | parse, print, parse is parse, for every accepted string |
| Rules.ParsesFields | internal/service/import_service.go:216-251 | which field of a rule string becomes what, each trimmed, and which strings are refused |
| Rules.TrimExactly | internal/service/import_service.go:222-239 | trimming removes white space at both ends and nothing else |
| Rules.RuleText | internal/service/config_service.go:110-133 | a rule's text is its fields between commas, with the flag only if it is set |
| Rules.RenderRules | internal/service/config_service.go:110-133 | the loop prints each rule |
| ConfigRoundTrip.ConfigRoundTrip | internal/service/config_service.go:21-149 | parsing a rendered draft gives the same ordered draft if and only if it is canonical: no reserved field or key, canonical rules, sort orders and provider names in place |
| ConfigRoundTrip.ImportIsStable | internal/service/import_service.go:39-141 | what an import accepts is rendered and imported again unchanged |
| ConfigRoundTrip.ParseIsCanonicalDraft | internal/service/import_service.go:39-276 | every accepted configuration parses to a canonical draft |
| ConfigLayout.RenderShows | internal/service/config_service.go:21-149 | which key of a rendered configuration holds what; every other key is the system configuration's |
| ConfigLayout.ImportReads | internal/service/import_service.go:39-276 | every entity comes from its place with its position and remaining fields; every key but the four becomes system configuration |
| ConfigLayout.AcceptedExactly | internal/service/import_service.go:39-276 | an import is refused exactly for a section of the wrong shape, a nameless entity, a rule with too few parts, or a provider that is no map |
| Config.RenderConfig | internal/service/config_service.go:21-149 | the loops that fill the map compute Render |
| Config.ParseConfig | internal/service/import_service.go:39-276 | the loops that split the map compute Parse |
| Publish.RunInSync | internal/service/publish_service.go:137-214 | in every run where restores and record writes work, the file holds the latest success, or its initial content or absence |
| Publish.PublishSync | internal/service/publish_service.go:137-197 | one publish keeps file and history in step exactly unless it leaves unrecorded content behind |
| Publish.PublishChangesFile | internal/service/publish_service.go:137-197 | an attempt changes the file if and only if it replaces it with other content, that is, if nothing failed before the reload and the reload worked or its restore did not; a recorded success is exactly such a replacement with a working reload, and the file then holds its content |
| Publish.RollbackKeepsFile | internal/service/publish_service.go:200-214 | in step, a rollback never changes the file |
| Publish.RollbackChangesFile | internal/service/publish_service.go:200-214 | a rollback changes the file if and only if the latest success is not what it holds and the attempt replaces it |
| Publish.RollbackExample | internal/service/publish_service.go:200-214 | after two publishes a rollback leaves the second in place |
| Publish.RollbackRepairs | internal/service/publish_service.go:200-214 | out of step, a rollback that goes through brings the last success back |
| Publish.VersionsDistinct | internal/store/publish_store.go:58-71 | all versions of a history are pairwise distinct as dates change |
| Publish.VersionsCountUp | internal/store/publish_store.go:58-71 | the versions of a day count up from 1, each day on its own |
| Publish.PublishService.Publish | internal/service/publish_service.go:137-197 | write, reload, restore and record, for every combination of failures |
| NodeRows.BuildNodeRows | web/src/lib/node-inventory.ts:104-163 | rows keep order and content and have pairwise distinct keys |
| NodeRows.RowsShow | web/src/lib/node-inventory.ts:104-163 | static proxies first, then each provider's nodes, in order, each under its prefixed id or that id with a number from 2 on |
| NodeRows.KeyKept | web/src/lib/node-inventory.ts:110-119 | a row keeps its own key exactly if no earlier row took it |
| NodeRows.Table.Push | web/src/lib/node-inventory.ts:110-119 | the key given is the first free candidate, and the search terminates |

## Left out

- HTTP handlers, authentication, the web interface apart from row keys, `filterNodeRows` and `providerSummaries`: plumbing and projections.
- Network and process work (vendor fetches, probes, mihomo reloads, notifications): results are arbitrary inputs to the steps.
- SQL text, JSON and YAML encoding, file-system mechanics: maps and records, values of configurations taken as decoded, a file unchanged or fully replaced.
- Integer width: counters and quotas are unbounded.
- Daylight saving and zone tables: a zone is a constant offset; that a named zone exists is an input.
- Fingerprints, UUIDs, globs (`MatchProvider`), URL parsing: opaque values; a fresh id is one not used before.
- `History`, `checkAlerts`, alert inserts, percentages and the view projections: sums and field precedence over state that is modelled.
- `RefreshNodes`, `materialize`, `pinGroupSelections`, `buildIsolationConfig`, `ApplyOverride`: to the queue a refresh is one of the arbitrary rewrites of Dispatch; the rest builds input for a probe field by field.
- Tickers and wake channels: only the termination of a dispatch is proved.
- Panics of a leader or a worker.
- SnapshotProtocol.RunProvenance: says nothing about native rows, whose refresh may write any snapshot here; a native rebind keeps the old snapshot in the code, so provenance does not hold for them.
- SnapshotProtocol.RunProvenance: URL equality is stated only at the moment of the check, because provider edits take no lock.
- Registry.SubscriptionService.Submit: a failed read of the row after a rebind, which turns a stored update into an error, is not modelled; nor is the `last_provider_update` column, which nothing fills.
- RegistryLaws.RunLinked: other editors of the draft (system configuration, import) are not events, and putting the draft back is taken to work.
- ReconcileLaws.ScanReconciles: supposes no store errors, and that no provider name of the draft extends, or is extended by, another one of the draft or of the stored rows by a slash; the override of a provider does not change during a scan, and which providers are paused is an input.
- Dispatch.DispatchTerminates: supposes that other writers stamp after the captured instant, as ScanIsFair shows for scans; a manual refresh stamped earlier could keep a dispatch busy.
- ProviderCache.RunKeeps: an override edited within a generation is treated as part of what is on disk.
- TrafficLedger.RunTelescopes: for a connection that is in every snapshot and never goes backwards; after a gap or a reset the code charges the whole counter again.
- Publish.RunInSync: publishes and rollbacks run one after the other; validation by mihomo and the diff text are not modelled.
- Config.ParseConfig: an error says which section failed, not its text; a configuration that is the value null, and entities whose stored JSON cannot be decoded, are not modelled; rule providers are taken in one fixed order.
- Subscription rows with an empty provider name: which of several a lookup returns is arbitrary.
