/**
 Creating, updating and deleting subscriptions
 (internal/service/subscription_service.go). The registry's rows and the
 provider entries of the configuration draft live in different stores, so an
 operation changes the draft first and puts it back if the row cannot be saved.
 Any access to a store may fail; only putting the draft back is taken to work.
 */
module Registry {
  import opened Prelude
  import opened UtcStamp
  import opened Subscriptions
  import Rules

  /** A provider entry of the draft, with its settings besides the URL; or something there that is no object. */
  datatype Entry = Entry(url: string, settings: string) | Other

  type Draft = map<string, Entry>

  datatype State = State(rows: Table, draft: Draft, providers: map<string, TrafficProvider>)

  datatype Expiry = NoExpiry | Expiry(unix: int) | Malformed

  /** A payload: what is None keeps its stored value. */
  datatype Request = Request(name: Option<string>, url: Option<string>, provider: Option<string>, source: Option<string>,
                             quota: Option<int>, expire: Option<Expiry>, day: Option<int>, hour: Option<int>,
                             minute: Option<int>, zone: Option<string>, link: Option<string>, enabled: Option<bool>)

  datatype Error = Invalid | Conflict | Referenced | NotFound | StoreFailed

  datatype Result<+T> = Ok(value: T) | Err(error: Error)

  datatype Reply = Accepted(draftChanged: bool) | Refused(error: Error, draftChanged: bool)

  /**
   Which accesses fail during one operation, the time zones known, the traffic
   provider found for a URL, and which of several rows without a provider a
   lookup returns.
   */
  datatype Env = Env(zones: set<string>, nameFails: bool, managerFails: bool, trafficFails: bool, findFails: bool,
                     snapshotFails: bool, upsertReadFails: bool, upsertSaveFails: bool, writeFails: bool,
                     groupsFail: bool, referenced: bool, scoresFail: bool, removeFails: bool,
                     autoLink: string, picksOther: bool)

  // ----- the draft --------------------------------------------------------

  /** findProviderEntry */
  function Lookup(draft: Draft, name: string): Option<Entry> {
    if name in draft && draft[name].Entry? then Some(draft[name]) else None
  }

  function DefaultSettings(name: string): string { "http, providers/proxies/" + name + ".yaml, 86400" }

  /** The draft with the entry written or its URL changed, and whether it was saved at all. */
  function Upserted(draft: Draft, name: string, url: string): Draft {
    if Lookup(draft, name).None? then draft[name := Entry(url, DefaultSettings(name))]
    else if url != "" && draft[name].url != url then draft[name := draft[name].(url := url)]
    else draft
  }

  predicate Changes(draft: Draft, name: string, url: string) {
    Lookup(draft, name).None? || (url != "" && draft[name].url != url)
  }

  function Restored(draft: Draft, name: string, snap: Option<Entry>): Draft {
    if snap.None? then draft - {name} else draft[name := snap.value]
  }

  // ----- what an operation decides before it changes anything -------------

  /** The row to store, and the URL to write into its draft entry first, if any. */
  datatype Plan = Plan(meta: Meta, url: Option<string>)

  function Trimmed(s: Option<string>): string { if s.Some? then Rules.TrimSpace(s.value) else "" }

  function Or<T>(x: Option<T>, y: T): T { if x.Some? then x.value else y }

  function ApplyTo(req: Request, m: Meta): Result<Meta> {
    if req.quota.Some? && req.quota.value < 0 then Err(Invalid)
    else if req.expire == Some(Malformed) then Err(Invalid)
    else
      Ok(m.(name := if req.name.Some? then Trimmed(req.name) else m.name,
            quota := Or(req.quota, m.quota),
            expire := if req.expire.None? then m.expire else if req.expire.value.NoExpiry? then 0 else req.expire.value.unix,
            day := Or(req.day, m.day), hour := Or(req.hour, m.hour), minute := Or(req.minute, m.minute),
            zone := if req.zone.Some? then Trimmed(req.zone) else m.zone,
            link := if req.link.Some? then Trimmed(req.link) else m.link,
            enabled := Or(req.enabled, m.enabled),
            provider := if req.provider.Some? then Trimmed(req.provider) else m.provider))
  }

  predicate ValidReset(m: Meta, zones: set<string>) {
    if m.day == 0 then m.hour == 0 && m.minute == 0
    else 1 <= m.day <= 31 && 0 <= m.hour <= 23 && 0 <= m.minute <= 59 && (m.zone == "" || m.zone in zones)
  }

  predicate NameTaken(rows: Table, name: string) { exists i :: i in rows && rows[i].meta.name == name }

  predicate ManagedElsewhere(rows: Table, id: string, provider: string) {
    exists i :: i in rows && i != id && rows[i].meta.provider == provider
  }

  predicate TrackedElsewhere(rows: Table, id: string, link: string) {
    exists i :: i in rows && i != id && rows[i].meta.source == Traffic && rows[i].meta.link == link
  }

  predicate ProviderFound(s: State, link: string, env: Env) { !env.trafficFails && link in s.providers }

  const FRESH: Meta := Meta("", true, Native, "", "created", "", 0, 0, 0, 0, 0, "")

  function PlanCreate(s: State, id: string, req: Request, env: Env): Result<Plan> {
    if Trimmed(req.name) == "" then Err(Invalid)
    else
      var m := ApplyTo(req, FRESH);
      if m.Err? then Err(m.error)
      else if Trimmed(req.source) == "" || Trimmed(req.source) == "native" then
        PlanNative(s, id, req, m.value.(provider := if m.value.provider == "" then m.value.name else m.value.provider), env)
      else if Trimmed(req.source) == "traffic" then PlanTraffic(s, id, req, m.value.(source := Traffic), env)
      else Err(Invalid)
  }

  function PlanNative(s: State, id: string, req: Request, m: Meta, env: Env): Result<Plan> {
    if !ValidReset(m, env.zones) then Err(Invalid)
    else if m.link != "" && !ProviderFound(s, m.link, env) then Err(Invalid)
    else if !env.nameFails && NameTaken(s.rows, m.name) then Err(Conflict)
    else if !env.managerFails && ManagedElsewhere(s.rows, id, m.provider) then Err(Conflict)
    else if !env.findFails && Lookup(s.draft, m.provider).Some? then
      if Trimmed(req.url) != "" then Err(Conflict)
      else
        var url := s.draft[m.provider].url;
        var linked := m.link == "" && url != "" && env.autoLink in s.providers && s.providers[env.autoLink].url == url;
        Ok(Plan(m.(providerSource := "linked", link := if linked then env.autoLink else m.link), None))
    else if Trimmed(req.url) == "" then Err(Invalid)
    else Ok(Plan(m, Some(Trimmed(req.url))))
  }

  /** What the request leaves out is inherited from the traffic provider. */
  function PlanTraffic(s: State, id: string, req: Request, m: Meta, env: Env): Result<Plan> {
    if m.provider != "" || Trimmed(req.url) != "" || m.link == "" || !ProviderFound(s, m.link, env) then Err(Invalid)
    else
      var tp := s.providers[m.link];
      var n := m.(quota := Or(req.quota, tp.quota), day := Or(req.day, tp.day), hour := Or(req.hour, tp.hour),
                  minute := Or(req.minute, tp.minute), zone := if req.zone.Some? then Trimmed(req.zone) else tp.zone);
      if !ValidReset(n, env.zones) then Err(Invalid)
      else if !env.nameFails && NameTaken(s.rows, n.name) then Err(Conflict)
      else if !env.managerFails && TrackedElsewhere(s.rows, id, n.link) then Err(Conflict)
      else Ok(Plan(n.(providerSource := ""), None))
  }

  function PlanUpdate(s: State, id: string, req: Request, env: Env): Result<Plan>
    requires id in s.rows
  {
    var stored := s.rows[id].meta;
    if stored.source == Traffic then PlanUpdateTraffic(s, id, req, env)
    else
      var m := ApplyTo(req, stored);
      if m.Err? then Err(m.error)
      else
        var n := m.value;
        if n.name == "" || !ValidReset(n, env.zones) then Err(Invalid)
        else if n.name != stored.name && !env.nameFails && NameTaken(s.rows, n.name) then Err(Conflict)
        else if !env.managerFails && ManagedElsewhere(s.rows, id, n.provider) && (n.provider != stored.provider || env.picksOther)
        then Err(Conflict)
        else if n.provider != stored.provider && (env.findFails || Lookup(s.draft, n.provider).None?) then Err(Invalid)
        else if n.link != "" && !ProviderFound(s, n.link, env) then Err(Invalid)
        else
          Ok(Plan(n.(providerSource := if n.provider != stored.provider then "linked" else n.providerSource),
                  if Trimmed(req.url) != "" && n.provider != "" then Some(Trimmed(req.url)) else None))
  }

  function PlanUpdateTraffic(s: State, id: string, req: Request, env: Env): Result<Plan>
    requires id in s.rows
  {
    var stored := s.rows[id].meta;
    if req.source.Some? && Trimmed(req.source) != "traffic" then Err(Invalid)
    else
      var m := ApplyTo(req, stored);
      if m.Err? then Err(m.error)
      else
        var n := m.value;
        if n.name == "" || n.provider != "" || Trimmed(req.url) != "" || !ValidReset(n, env.zones) then Err(Invalid)
        else if n.name != stored.name && !env.nameFails && NameTaken(s.rows, n.name) then Err(Conflict)
        else if n.link == "" || !ProviderFound(s, n.link, env) then Err(Invalid)
        else if !env.managerFails && TrackedElsewhere(s.rows, id, n.link) then Err(Conflict)
        else Ok(Plan(n, None))
  }

  // ----- carrying a plan out ----------------------------------------------

  /** What is remembered of the entry, in case it has to be put back. */
  function Remembered(s: State, plan: Plan, env: Env): Option<Entry> {
    if env.snapshotFails then None else Lookup(s.draft, plan.meta.provider)
  }

  predicate Writes(s: State, id: string, plan: Plan, env: Env) { !env.writeFails && Storable(s.rows, id, plan.meta) }

  /** A refusal by the traffic-source index is told apart when a row is created. */
  function WriteError(s: State, id: string, plan: Plan, env: Env): Error {
    if !env.writeFails && id !in s.rows && plan.meta.source == Traffic &&
       TrackedElsewhere(s.rows, id, plan.meta.link) && !NameTaken(s.rows, plan.meta.name)
    then Conflict
    else StoreFailed
  }

  predicate UpsertWorks(s: State, plan: Plan, env: Env) {
    plan.url.Some? ==> !env.upsertReadFails && (Changes(s.draft, plan.meta.provider, plan.url.value) ==> !env.upsertSaveFails)
  }

  predicate DraftChanges(s: State, plan: Plan) { plan.url.Some? && Changes(s.draft, plan.meta.provider, plan.url.value) }

  function Carried(s: State, id: string, plan: Plan, env: Env): (State, Reply) {
    if !UpsertWorks(s, plan, env) then (s, Refused(StoreFailed, false))
    else
      var changed := DraftChanges(s, plan);
      var draft := if changed then Upserted(s.draft, plan.meta.provider, plan.url.value) else s.draft;
      if Writes(s, id, plan, env) then (s.(rows := Saved(s.rows, id, plan.meta), draft := draft), Accepted(changed))
      else (s.(draft := if changed then Restored(draft, plan.meta.provider, Remembered(s, plan, env)) else draft),
            Refused(WriteError(s, id, plan, env), changed))
  }

  function Planned(s: State, id: string, req: Request, env: Env): Result<Plan> {
    if id in s.rows then PlanUpdate(s, id, req, env) else PlanCreate(s, id, req, env)
  }

  /** Create for an id not in use, Update for a stored one. */
  function Submitted(s: State, id: string, req: Request, env: Env): (State, Reply) {
    var plan := Planned(s, id, req, env);
    if plan.Err? then (s, Refused(plan.error, false)) else Carried(s, id, plan.value, env)
  }

  function Deleted(s: State, id: string, env: Env): (State, Reply) {
    if id !in s.rows then (s, Refused(NotFound, false))
    else
      var m := s.rows[id].meta;
      var gone := s.(rows := s.rows - {id});
      if m.source == Traffic || m.provider == "" then
        if env.writeFails then (s, Refused(StoreFailed, false)) else (gone, Accepted(false))
      else if env.groupsFail then (s, Refused(StoreFailed, false))
      else if env.referenced then (s, Refused(Referenced, false))
      else if env.scoresFail || env.writeFails then (s, Refused(StoreFailed, false))
      else if env.removeFails then (gone, Accepted(false))
      else (gone.(draft := s.draft - {m.provider}), Accepted(m.provider in s.draft))
  }

  class SubscriptionService {
    const subs: SubscriptionStore
    var draft: Draft
    var providers: map<string, TrafficProvider>

    constructor (store: SubscriptionStore)
      ensures subs == store && draft == map[] && providers == map[]
    {
      subs := store;
      draft, providers := map[], map[];
    }

    function Value(): State
      reads this, subs
    {
      State(subs.rows, draft, providers)
    }

    method UpsertDraftProvider(name: string, url: string, env: Env) returns (ok: bool, changed: bool)
      modifies this`draft
      ensures ok <==> !env.upsertReadFails && (Changes(old(draft), name, url) ==> !env.upsertSaveFails)
      ensures changed <==> ok && Changes(old(draft), name, url)
      ensures draft == if changed then Upserted(old(draft), name, url) else old(draft)
    {
      if env.upsertReadFails { return false, false; }
      var edited := draft;
      changed := false;
      if name !in edited || edited[name].Other? {
        edited := edited[name := Entry(url, DefaultSettings(name))];
        changed := true;
      } else if url != "" && edited[name].url != url {
        edited := edited[name := edited[name].(url := url)];
        changed := true;
      }
      if !changed { return true, false; }
      if env.upsertSaveFails { return false, false; }
      draft := edited;
      return true, true;
    }

    method RestoreDraftProvider(name: string, snap: Option<Entry>)
      modifies this`draft
      ensures draft == Restored(old(draft), name, snap)
    {
      if snap.None? {
        draft := draft - {name};
      } else {
        draft := draft[name := snap.value];
      }
    }

    /** The draft first, then the row; the draft is put back if the row is refused. */
    method Carry(id: string, plan: Plan, env: Env) returns (reply: Reply)
      requires Unique(subs.rows)
      modifies this`draft, subs
      ensures Unique(subs.rows)
      ensures (Value(), reply) == Carried(old(Value()), id, plan, env)
    {
      var changed := false;
      var snap: Option<Entry> := None;
      if plan.url.Some? {
        if !env.snapshotFails { snap := Lookup(draft, plan.meta.provider); }
        var ok;
        ok, changed := UpsertDraftProvider(plan.meta.provider, plan.url.value, env);
        if !ok { return Refused(StoreFailed, false); }
      }
      var saved := false;
      if !env.writeFails {
        if id !in subs.rows {
          saved := subs.Create(id, plan.meta);
        } else if plan.meta.source == Traffic && plan.meta.link != subs.rows[id].meta.link {
          saved := subs.UpdateMetadataRebind(id, plan.meta);
        } else {
          saved := subs.UpdateMetadata(id, plan.meta);
        }
      }
      if !saved {
        if changed { RestoreDraftProvider(plan.meta.provider, snap); }
        return Refused(WriteError(State(subs.rows, draft, providers), id, plan, env), changed);
      }
      return Accepted(changed);
    }

    /** Create and Update: everything is checked before anything changes. */
    method Submit(id: string, req: Request, env: Env) returns (reply: Reply)
      requires Unique(subs.rows)
      modifies this`draft, subs
      ensures Unique(subs.rows)
      ensures (Value(), reply) == Submitted(old(Value()), id, req, env)
    {
      var plan := Planned(Value(), id, req, env);
      if plan.Err? { return Refused(plan.error, false); }
      reply := Carry(id, plan.value, env);
    }

    method Delete(id: string, env: Env) returns (reply: Reply)
      requires Unique(subs.rows)
      modifies this`draft, subs
      ensures Unique(subs.rows)
      ensures (Value(), reply) == Deleted(old(Value()), id, env)
    {
      if id !in subs.rows { return Refused(NotFound, false); }
      var m := subs.rows[id].meta;
      var native := m.source == Native && m.provider != "";
      if native {
        if env.groupsFail { return Refused(StoreFailed, false); }
        if env.referenced { return Refused(Referenced, false); }
        if env.scoresFail { return Refused(StoreFailed, false); }
      }
      if env.writeFails { return Refused(StoreFailed, false); }
      var found := subs.Delete(id);
      if !native || env.removeFails { return Accepted(false); }
      reply := Accepted(m.provider in draft);
      draft := draft - {m.provider};
    }
  }
}
