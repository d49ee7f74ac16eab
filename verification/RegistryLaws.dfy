/**
 What every run of registry operations keeps, whatever store accesses fail
 (internal/service/subscription_service.go), and how the operations appear to
 refreshes running beside them.
 */
module RegistryLaws {
  import opened Prelude
  import opened UtcStamp
  import opened Subscriptions
  import opened Registry
  import Protocol = SnapshotProtocol

  datatype Event =
    | Submit(id: string, req: Request, env: Env)
    | Delete(id: string, env: Env)
    | Providers(table: map<string, TrafficProvider>)

  function Step(s: State, e: Event): State {
    match e
    case Submit(id, req, env) => Submitted(s, id, req, env).0
    case Delete(id, env) => Deleted(s, id, env).0
    case Providers(table) => s.(providers := table)
  }

  function Run(s: State, events: seq<Event>): State {
    if events == [] then s else Step(Run(s, events[..|events| - 1]), events[|events| - 1])
  }

  const EMPTY: State := State(map[], map[], map[])

  /** Every native row's provider has an entry in the draft; traffic rows have no provider. */
  predicate Linked(s: State) {
    forall id :: id in s.rows ==> HasEntry(s.draft, s.rows[id].meta)
  }

  predicate HasEntry(draft: Draft, m: Meta) {
    if m.source == Native then Lookup(draft, m.provider).Some? else m.provider == ""
  }

  /** No lookup in the draft can tell the two apart. */
  ghost predicate SameLookups(a: Draft, b: Draft) {
    forall name :: Lookup(a, name) == Lookup(b, name)
  }

  /**
   The gap in the rollback: the read that remembers the entry fails, the next
   read succeeds and an existing entry is changed, and then the row cannot be
   saved. Nothing is remembered, so putting the draft back removes the entry.
   */
  predicate Gap(s: State, id: string, req: Request, env: Env) {
    var planned := Planned(s, id, req, env);
    && planned.Ok?
    && DraftChanges(s, planned.value) && UpsertWorks(s, planned.value, env) && !Writes(s, id, planned.value, env)
    && env.snapshotFails && Lookup(s.draft, planned.value.meta.provider).Some?
  }

  // ----- one operation ----------------------------------------------------

  lemma PlanShape(s: State, id: string, req: Request, env: Env)
    requires Planned(s, id, req, env).Ok?
    ensures var plan := Planned(s, id, req, env).value;
            && (id in s.rows ==> plan.meta.source == s.rows[id].meta.source)
            && (plan.meta.source == Traffic ==> plan.url.None? && plan.meta.provider == "")
            && (plan.url.Some? ==> plan.url.value != "" && plan.meta.provider != "")
            && (plan.meta.source == Native && plan.url.None? ==>
                  || Lookup(s.draft, plan.meta.provider).Some?
                  || (id in s.rows && s.rows[id].meta.provider == plan.meta.provider))
  {
    hide NameTaken, ManagedElsewhere, TrackedElsewhere, ProviderFound, ValidReset, Rules.TrimSpace;
  }

  /** A refused Create or Update stores nothing, and leaves every lookup in the draft as it was exactly when it does not fall into the gap. */
  lemma RefusalKeepsLookups(s: State, id: string, req: Request, env: Env)
    requires Submitted(s, id, req, env).1.Refused?
    ensures Submitted(s, id, req, env).0.rows == s.rows
    ensures SameLookups(s.draft, Submitted(s, id, req, env).0.draft) <==> !Gap(s, id, req, env)
  {
    hide Planned, Storable, WriteError, DefaultSettings;
    var planned := Planned(s, id, req, env);
    if planned.Ok? {
      var t := Submitted(s, id, req, env).0;
      var name := planned.value.meta.provider;
      if Gap(s, id, req, env) {
        assert Lookup(t.draft, name) != Lookup(s.draft, name);
      } else {
        forall n ensures Lookup(s.draft, n) == Lookup(t.draft, n) {}
      }
    }
  }

  /** The gap is real: a provider already managed by one subscription loses its entry to the failed creation of another. */
  lemma GapExample(meta: Meta, req: Request, env: Env)
    requires meta == FRESH.(name := "a", provider := "p")
    requires req == Request(Some("b"), Some("u"), Some("p"), None, None, None, None, None, None, None, None, None)
    requires env == Env({}, false, true, false, true, true, false, false, false, false, false, false, false, "", false)
    ensures var s := State(map["1" := Row(meta, CLEARED)], map["p" := Entry("v", "")], map[]);
            Linked(s) && Gap(s, "2", req, env) && Submitted(s, "2", req, env).1.Refused? && "p" !in Submitted(s, "2", req, env).0.draft
  {
    var s := State(map["1" := Row(meta, CLEARED)], map["p" := Entry("v", "")], map[]);
    Trims();
    assert !NameTaken(s.rows, "b");
    var m := FRESH.(name := "b", provider := "p");
    assert Planned(s, "2", req, env) == Ok(Plan(m, Some("u")));
    assert !Storable(s.rows, "2", m) by { assert "1" in s.rows && !Compatible(m, meta); }
  }

  lemma Trims()
    ensures Rules.TrimSpace("b") == "b" && Rules.TrimSpace("u") == "u" && Rules.TrimSpace("p") == "p"
  {}

  /** A subscription can only be created for a provider nobody manages, whichever checks could not be made. */
  lemma LosingCreate(s: State, id: string, req: Request, env: Env, winner: string)
    requires id !in s.rows && winner in s.rows && s.rows[winner].meta.source == Native
    requires Planned(s, id, req, env).Ok? ==> Planned(s, id, req, env).value.meta.provider == s.rows[winner].meta.provider != ""
    ensures Submitted(s, id, req, env).1.Refused?
  {
    hide Planned, Upserted, Restored, WriteError;
    var planned := Planned(s, id, req, env);
    if planned.Ok? {
      assert !Compatible(planned.value.meta, s.rows[winner].meta);
    }
  }

  /** An accepted operation stores what was planned, and a native row has its entry, with the URL if one was given. */
  lemma AcceptedIsRegistered(s: State, id: string, req: Request, env: Env)
    requires Linked(s) && Submitted(s, id, req, env).1.Accepted?
    ensures Planned(s, id, req, env).Ok?
    ensures var t, plan := Submitted(s, id, req, env).0, Planned(s, id, req, env).value;
            && t.rows == Saved(s.rows, id, plan.meta)
            && HasEntry(t.draft, plan.meta)
            && (plan.url.Some? ==> Lookup(t.draft, plan.meta.provider).Some? && Lookup(t.draft, plan.meta.provider).value.url == plan.url.value)
            && (plan.url.None? ==> t.draft == s.draft)
  {
    if Planned(s, id, req, env).Ok? { PlanShape(s, id, req, env); }
    hide Planned, Storable, Restored, WriteError, DefaultSettings, Saved;
  }

  /** The one provider an operation is about; "" when it has none. */
  function Concerns(s: State, e: Event): string {
    match e
    case Submit(id, req, env) => if Planned(s, id, req, env).Ok? then Planned(s, id, req, env).value.meta.provider else ""
    case Delete(id, _) => if id in s.rows then s.rows[id].meta.provider else ""
    case Providers(_) => ""
  }

  predicate OnTraffic(s: State, e: Event) {
    match e
    case Submit(id, req, env) => Planned(s, id, req, env).Ok? && Planned(s, id, req, env).value.meta.source == Traffic
    case Delete(id, _) => id in s.rows && s.rows[id].meta.source == Traffic
    case Providers(_) => true
  }

  /** No operation touches an entry of another provider, and operations on traffic sources touch none at all. */
  lemma OthersUntouched(s: State, e: Event, name: string)
    ensures name != Concerns(s, e) ==>
              (name in Step(s, e).draft <==> name in s.draft) && (name in s.draft ==> Step(s, e).draft[name] == s.draft[name])
    ensures OnTraffic(s, e) ==> Step(s, e).draft == s.draft
  {
    if e.Submit? {
      SubmitUntouched(s, e.id, e.req, e.env, name);
    } else {
      hide Planned;
    }
  }

  lemma SubmitUntouched(s: State, id: string, req: Request, env: Env, name: string)
    ensures var planned, t := Planned(s, id, req, env), Submitted(s, id, req, env).0;
            && ((planned.Ok? ==> name != planned.value.meta.provider) ==>
                  (name in t.draft <==> name in s.draft) && (name in s.draft ==> t.draft[name] == s.draft[name]))
            && (planned.Ok? && planned.value.meta.source == Traffic ==> t.draft == s.draft)
  {
    hide Planned, Storable, WriteError, DefaultSettings, Saved;
    if Planned(s, id, req, env).Ok? { PlanShape(s, id, req, env); }
  }

  /** A deletion frees the provider's name; its entry stays only if the draft could not be saved. A refused one changes nothing. */
  lemma DeleteReleases(s: State, id: string, env: Env)
    requires Unique(s.rows) && Linked(s) && id in s.rows
    ensures var t, reply, m := Deleted(s, id, env).0, Deleted(s, id, env).1, s.rows[id].meta;
            && (reply.Refused? ==> t == s)
            && (reply.Refused? <==> env.writeFails || (m.source == Native && m.provider != "" && (env.groupsFail || env.referenced || env.scoresFail)))
            && (m.source == Native && m.provider != "" && !env.groupsFail && env.referenced ==> reply == Refused(Referenced, false))
            && (reply.Accepted? ==> t.rows == s.rows - {id} && (m.provider != "" ==> !Manages(t, m.provider)))
            && (reply.Accepted? && m.provider != "" ==> (m.provider in t.draft <==> env.removeFails))
  {
    var t, m := Deleted(s, id, env).0, s.rows[id].meta;
    assert HasEntry(s.draft, m);
    if Manages(t, m.provider) && id !in t.rows {
      var other :| other in t.rows && t.rows[other].meta.source == Native && t.rows[other].meta.provider == m.provider;
      OneManager(s.rows, other, id);
    }
  }

  // ----- what a payload means ---------------------------------------------

  const NOTHING: Request := Request(None, None, None, None, None, None, None, None, None, None, None, None)

  /** An update that gives nothing changes nothing. */
  lemma EmptyUpdateKeepsAll(s: State, id: string, env: Env)
    requires id in s.rows
    ensures Submitted(s, id, NOTHING, env).0 == s
  {
    hide Storable, Compatible, NameTaken, ManagedElsewhere, TrackedElsewhere, ProviderFound, ValidReset;
    assert Saved(s.rows, id, s.rows[id].meta) == s.rows;
  }

  /** Accepted twice, the same update changes nothing the second time, rebinds and relinks included. */
  lemma UpdateIsIdempotent(s: State, id: string, req: Request, env: Env, again: Env)
    requires id in s.rows && Submitted(s, id, req, env).1.Accepted?
    ensures var t := Submitted(s, id, req, env).0;
            id in t.rows && (Submitted(t, id, req, again).1.Accepted? ==> Submitted(t, id, req, again).0 == t)
  {
    var plan := PlanUpdate(s, id, req, env);
    var t := Submitted(s, id, req, env).0;
    AcceptedRow(s, id, req, env);
    if Submitted(t, id, req, again).1.Accepted? {
      SamePlanAgain(s, t, id, req, env, again);
      CarriedAgain(t, id, plan.value, again);
    }
  }

  lemma AcceptedRow(s: State, id: string, req: Request, env: Env)
    requires Submitted(s, id, req, env).1.Accepted?
    ensures Planned(s, id, req, env).Ok?
    ensures var plan, t := Planned(s, id, req, env).value, Submitted(s, id, req, env).0;
            && id in t.rows && t.rows[id].meta == plan.meta
            && (plan.url.Some? ==> !Changes(t.draft, plan.meta.provider, plan.url.value))
  {
    hide Planned, Storable, Restored, WriteError, DefaultSettings;
  }

  lemma ApplyTwice(req: Request, m: Meta, n: Meta)
    requires ApplyTo(req, m).Ok? && n == ApplyTo(req, m).value.(providerSource := n.providerSource)
    ensures ApplyTo(req, n) == Ok(n)
  {
    hide Trimmed;
  }

  lemma SamePlanAgain(s: State, t: State, id: string, req: Request, env: Env, again: Env)
    requires id in s.rows && id in t.rows && PlanUpdate(s, id, req, env).Ok? && PlanUpdate(t, id, req, again).Ok?
    requires t.rows[id].meta == PlanUpdate(s, id, req, env).value.meta
    ensures PlanUpdate(t, id, req, again) == PlanUpdate(s, id, req, env)
  {
    hide NameTaken, ManagedElsewhere, TrackedElsewhere, ProviderFound, ValidReset, Lookup, Trimmed, ApplyTo;
    ApplyTwice(req, s.rows[id].meta, t.rows[id].meta);
  }

  lemma CarriedAgain(t: State, id: string, plan: Plan, env: Env)
    requires id in t.rows && t.rows[id].meta == plan.meta
    requires plan.url.Some? ==> !Changes(t.draft, plan.meta.provider, plan.url.value)
    ensures Carried(t, id, plan, env).0 == t
  {
    hide Storable, Changes, WriteError;
    assert Saved(t.rows, id, plan.meta) == t.rows;
  }

  /** The payload with the schedule and quota of the traffic provider written out where it leaves them open. */
  function Spelled(req: Request, tp: TrafficProvider): Request {
    req.(quota := Some(Or(req.quota, tp.quota)), day := Some(Or(req.day, tp.day)), hour := Some(Or(req.hour, tp.hour)),
         minute := Some(Or(req.minute, tp.minute)), zone := if req.zone.Some? then req.zone else Some(tp.zone))
  }

  /** Leaving a field open when a traffic source is created is the same as giving its provider's own value. */
  lemma OmittedIsInherited(s: State, id: string, req: Request, env: Env)
    requires Trimmed(req.source) == "traffic" && req.link.Some? && Trimmed(req.link) in s.providers
    requires var tp := s.providers[Trimmed(req.link)]; tp.quota >= 0 && Rules.TrimSpace(tp.zone) == tp.zone
    ensures PlanCreate(s, id, req, env) == PlanCreate(s, id, Spelled(req, s.providers[Trimmed(req.link)]), env)
  {
    var tp := s.providers[Trimmed(req.link)];
    var m, n := ApplyTo(req, FRESH), ApplyTo(Spelled(req, tp), FRESH);
    ApplySpelled(req, tp);
    if m.Ok? {
      PlanSpelled(s, id, req, m.value.(source := Traffic), tp, env);
    }
    hide ApplyTo, PlanTraffic, PlanNative, Rules.TrimSpace;
  }

  function Filled(m: Meta, req: Request, tp: TrafficProvider): Meta {
    m.(quota := Or(req.quota, tp.quota), day := Or(req.day, tp.day), hour := Or(req.hour, tp.hour),
       minute := Or(req.minute, tp.minute), zone := if req.zone.Some? then Trimmed(req.zone) else tp.zone)
  }

  lemma ApplySpelled(req: Request, tp: TrafficProvider)
    requires tp.quota >= 0 && Rules.TrimSpace(tp.zone) == tp.zone
    ensures var m, n := ApplyTo(req, FRESH), ApplyTo(Spelled(req, tp), FRESH);
            if m.Err? then n == m else n.Ok? && n.value == Filled(m.value, req, tp) && (req.link.Some? ==> m.value.link == Trimmed(req.link))
  {
    hide Rules.TrimSpace;
  }

  lemma PlanSpelled(s: State, id: string, req: Request, m: Meta, tp: TrafficProvider, env: Env)
    requires m.link in s.providers && s.providers[m.link] == tp && Rules.TrimSpace(tp.zone) == tp.zone
    ensures PlanTraffic(s, id, req, m, env) == PlanTraffic(s, id, Spelled(req, tp), Filled(m, req, tp), env)
  {
    hide NameTaken, TrackedElsewhere, ValidReset, Rules.TrimSpace;
  }

  // ----- every run --------------------------------------------------------

  lemma StepUnique(s: State, e: Event)
    requires Unique(s.rows)
    ensures Unique(Step(s, e).rows)
  {
    hide Planned, Compatible, Upserted, Restored, WriteError;
    if e.Submit? && Planned(s, e.id, e.req, e.env).Ok? && Writes(s, e.id, Planned(s, e.id, e.req, e.env).value, e.env) {
      Protocol.SaveUnique(s.rows, e.id, Planned(s, e.id, e.req, e.env).value.meta);
    }
  }

  /** In any run at all, each provider name and each traffic source is managed by at most one row. */
  lemma {:induction false} RunUnique(events: seq<Event>, i: string, j: string)
    requires i in Run(EMPTY, events).rows && j in Run(EMPTY, events).rows && i != j
    ensures var a, b := Run(EMPTY, events).rows[i].meta, Run(EMPTY, events).rows[j].meta;
            && (a.provider == b.provider ==> a.provider == "")
            && (a.source == Traffic && b.source == Traffic && a.link == b.link ==> a.link == "")
  {
    RunsUnique(events);
    OneManager(Run(EMPTY, events).rows, i, j);
  }

  lemma {:induction false} RunsUnique(events: seq<Event>)
    ensures Unique(Run(EMPTY, events).rows)
  {
    hide Step, Unique;
    if events == [] {
      assert Unique(EMPTY.rows) by { NoRowsUnique(); }
    } else {
      RunsUnique(events[..|events| - 1]);
      StepUnique(Run(EMPTY, events[..|events| - 1]), events[|events| - 1]);
    }
  }

  lemma NoRowsUnique()
    ensures Unique(EMPTY.rows)
  {}

  predicate Manages(s: State, name: string) {
    exists id :: id in s.rows && s.rows[id].meta.source == Native && s.rows[id].meta.provider == name
  }

  /** The step falls into the gap on a provider that has a manager. */
  predicate Orphans(s: State, e: Event) {
    e.Submit? && Gap(s, e.id, e.req, e.env) && Manages(s, Concerns(s, e))
  }

  lemma SubmitLinked(s: State, e: Event)
    requires e.Submit? && Linked(s)
    ensures Linked(Step(s, e)) <==> !Orphans(s, e)
  {
    var t, reply := Submitted(s, e.id, e.req, e.env).0, Submitted(s, e.id, e.req, e.env).1;
    if reply.Accepted? {
      AcceptedIsRegistered(s, e.id, e.req, e.env);
      AcceptedOthers(s, e);
    } else {
      RefusalKeepsLookups(s, e.id, e.req, e.env);
      RefusedLinked(s, e);
    }
  }

  lemma AcceptedOthers(s: State, e: Event)
    requires e.Submit? && Linked(s) && Submitted(s, e.id, e.req, e.env).1.Accepted? && Planned(s, e.id, e.req, e.env).Ok?
    requires Step(s, e).rows == Saved(s.rows, e.id, Planned(s, e.id, e.req, e.env).value.meta)
    requires HasEntry(Step(s, e).draft, Planned(s, e.id, e.req, e.env).value.meta)
    ensures Linked(Step(s, e)) && !Orphans(s, e)
  {
    hide Planned, Carried, Submitted, Step, Gap, HasEntry;
    var t := Step(s, e);
    forall id | id in t.rows ensures HasEntry(t.draft, t.rows[id].meta) {
      if id != e.id {
        assert HasEntry(s.draft, s.rows[id].meta);
        EntryStays(s, e, s.rows[id].meta);
      }
    }
    AcceptedNoGap(s, e);
  }

  lemma EntryStays(s: State, e: Event, m: Meta)
    requires e.Submit? && Submitted(s, e.id, e.req, e.env).1.Accepted? && HasEntry(s.draft, m)
    ensures HasEntry(Step(s, e).draft, m)
  {
    hide Planned, Submitted, Step;
    if m.source == Native { EntriesStay(s, e, m.provider); }
  }

  lemma AcceptedNoGap(s: State, e: Event)
    requires e.Submit? && Submitted(s, e.id, e.req, e.env).1.Accepted?
    ensures !Gap(s, e.id, e.req, e.env)
  {
    hide Planned, Storable, Saved, Upserted, Restored, Lookup, Changes;
  }

  /** Upserting never takes an entry away. */
  lemma EntriesStay(s: State, e: Event, name: string)
    requires e.Submit? && Submitted(s, e.id, e.req, e.env).1.Accepted? && Lookup(s.draft, name).Some?
    ensures Lookup(Step(s, e).draft, name).Some?
  {
    hide Planned, Storable, Saved, Restored, WriteError, DefaultSettings;
  }

  lemma RefusedLinked(s: State, e: Event)
    requires e.Submit? && Linked(s) && Submitted(s, e.id, e.req, e.env).1.Refused?
    requires Step(s, e).rows == s.rows
    requires SameLookups(s.draft, Step(s, e).draft) <==> !Gap(s, e.id, e.req, e.env)
    ensures Linked(Step(s, e)) <==> !Orphans(s, e)
  {
    var t := Step(s, e);
    if Gap(s, e.id, e.req, e.env) {
      var name := Concerns(s, e);
      GapRemoves(s, e);
      if Manages(s, name) {
        var id :| id in s.rows && s.rows[id].meta.source == Native && s.rows[id].meta.provider == name;
        assert !HasEntry(t.draft, t.rows[id].meta);
      } else {
        forall id | id in t.rows ensures HasEntry(t.draft, t.rows[id].meta) {
          assert HasEntry(s.draft, s.rows[id].meta);
          OthersUntouched(s, e, s.rows[id].meta.provider);
        }
      }
    }
    hide Planned, Submitted, Step, Gap, Concerns;
  }

  lemma GapRemoves(s: State, e: Event)
    requires e.Submit? && Gap(s, e.id, e.req, e.env)
    ensures Lookup(Step(s, e).draft, Concerns(s, e)).None?
  {
    hide Planned, Storable, Saved, WriteError, DefaultSettings;
  }

  lemma DeleteLinked(s: State, e: Event)
    requires e.Delete? && Linked(s) && Unique(s.rows)
    ensures Linked(Step(s, e))
  {
    var t := Step(s, e);
    forall id | id in t.rows ensures HasEntry(t.draft, t.rows[id].meta) {
      assert HasEntry(s.draft, s.rows[id].meta);
      if e.id in s.rows && id != e.id { OneManager(s.rows, id, e.id); }
    }
  }

  /** Nothing but the gap ever separates a native row from its entry. */
  lemma StepLinked(s: State, e: Event)
    requires Linked(s) && Unique(s.rows)
    ensures Linked(Step(s, e)) <==> !Orphans(s, e)
  {
    if e.Submit? {
      SubmitLinked(s, e);
    } else if e.Delete? {
      DeleteLinked(s, e);
    }
  }

  predicate NeverOrphans(events: seq<Event>) {
    events != [] ==>
      NeverOrphans(events[..|events| - 1]) && !Orphans(Run(EMPTY, events[..|events| - 1]), events[|events| - 1])
  }

  /** In every run, up to the first step that falls into the gap and no further, registry and draft agree. */
  lemma {:induction false} RunLinked(events: seq<Event>)
    ensures NeverOrphans(events) <==> forall n :: 0 <= n <= |events| ==> Linked(Run(EMPTY, events[..n]))
  {
    hide Step, Linked, Orphans, Unique;
    if events == [] {
      assert Linked(EMPTY) by { NoRowsLinked(); }
    } else {
      var init, e := events[..|events| - 1], events[|events| - 1];
      RunLinked(init);
      assert forall n :: 0 <= n <= |init| ==> init[..n] == events[..n];
      assert events[..|events|] == events && init[..|init|] == init;
      RunsUnique(init);
      if Linked(Run(EMPTY, init)) {
        StepLinked(Run(EMPTY, init), e);
      }
      if NeverOrphans(events) || forall n :: 0 <= n <= |events| ==> Linked(Run(EMPTY, events[..n])) {
        assert Linked(Run(EMPTY, events[..|init|]));
      }
    }
  }

  lemma NoRowsLinked()
    ensures Linked(EMPTY)
  {}

  // ----- beside refreshes -------------------------------------------------

  /** To a refresh an operation is one save or one deletion of the protocol, or nothing, so all it proves about saves applies. */
  lemma AppearsAsEvent(s: State, e: Event, p: Protocol.State)
    requires p.rows == s.rows && p.lock.None?
    requires e.Submit? && e.id !in s.rows ==> e.id !in p.used
    ensures exists f: Protocol.Event ::
              (f.Save? || f.Delete? || f.Write?) && Protocol.Step(p, f).rows == Step(s, e).rows
  {
    if e.Submit? && Submitted(s, e.id, e.req, e.env).1.Accepted? {
      PlanShape(s, e.id, e.req, e.env);
      SavesAsEvent(s, e, p);
    } else if e.Delete? && Deleted(s, e.id, e.env).1.Accepted? {
      assert Protocol.Step(p, Protocol.Delete(e.id)).rows == Step(s, e).rows;
    } else {
      if e.Submit? { RefusalKeepsLookups(s, e.id, e.req, e.env); }
      assert Protocol.Step(p, Protocol.Write(false)).rows == Step(s, e).rows;
    }
  }

  lemma SavesAsEvent(s: State, e: Event, p: Protocol.State)
    requires p.rows == s.rows && p.lock.None?
    requires e.Submit? && (e.id !in s.rows ==> e.id !in p.used)
    requires Submitted(s, e.id, e.req, e.env).1.Accepted? && Planned(s, e.id, e.req, e.env).Ok?
    requires e.id in s.rows ==> Planned(s, e.id, e.req, e.env).value.meta.source == s.rows[e.id].meta.source
    ensures Protocol.Step(p, Protocol.Save(e.id, Planned(s, e.id, e.req, e.env).value.meta)).rows == Step(s, e).rows
  {
    hide Planned, Storable, Saved, Upserted, Restored, WriteError, Lookup, Changes;
  }
}
