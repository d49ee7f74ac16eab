/**
 What a Create or Update stores and when it is refused, field by field and
 check by check (internal/service/subscription_service.go), for every payload,
 every stored state and every combination of store failures.
 */
module RegistryPayloads {
  import opened Prelude
  import opened UtcStamp
  import opened Subscriptions
  import opened Registry
  import opened RegistryLaws
  import Rules

  // ----- the row a payload asks for ---------------------------------------

  function Text(given: Option<string>, kept: string): string {
    if given.Some? then Rules.TrimSpace(given.value) else kept
  }

  function Given<T>(given: Option<T>, kept: T): T {
    if given.Some? then given.value else kept
  }

  function Expires(given: Option<Expiry>, kept: int): int {
    match given
    case None => kept
    case Some(Expiry(unix)) => unix
    case Some(_) => 0
  }

  /** An update: each field given, text trimmed, or as stored; moving to another provider makes it a linked one. */
  function Updated(m: Meta, req: Request): Meta {
    var provider := Text(req.provider, m.provider);
    Meta(Text(req.name, m.name), Given(req.enabled, m.enabled), m.source, provider,
         if m.source == Native && provider != m.provider then "linked" else m.providerSource,
         Text(req.link, m.link), Given(req.quota, m.quota), Expires(req.expire, m.expire),
         Given(req.day, m.day), Given(req.hour, m.hour), Given(req.minute, m.minute), Text(req.zone, m.zone))
  }

  predicate EntryFound(s: State, name: string, env: Env) { !env.findFails && name in s.draft && s.draft[name].Entry? }

  /** A new native subscription: enabled and without schedule unless given, named provider or its own name, linked if the draft has the entry. */
  function NewNative(s: State, req: Request, env: Env): Meta {
    var name := Text(req.name, "");
    var provider := if Text(req.provider, "") == "" then name else Text(req.provider, "");
    var found := EntryFound(s, provider, env);
    var tracked := found && s.draft[provider].url != "" && env.autoLink in s.providers
                   && s.providers[env.autoLink].url == s.draft[provider].url;
    Meta(name, Given(req.enabled, true), Native, provider, if found then "linked" else "created",
         if Text(req.link, "") == "" && tracked then env.autoLink else Text(req.link, ""),
         Given(req.quota, 0), Expires(req.expire, 0), Given(req.day, 0), Given(req.hour, 0), Given(req.minute, 0), Text(req.zone, ""))
  }

  /** A new traffic source: no provider, and quota and schedule from the traffic provider where they are not given. */
  function NewTraffic(s: State, req: Request): Meta {
    var link := Text(req.link, "");
    var tp := if link in s.providers then s.providers[link] else TrafficProvider("", 0, 0, 0, 0, "");
    Meta(Text(req.name, ""), Given(req.enabled, true), Traffic, "", "", link,
         Given(req.quota, tp.quota), Expires(req.expire, 0),
         Given(req.day, tp.day), Given(req.hour, tp.hour), Given(req.minute, tp.minute), Text(req.zone, tp.zone))
  }

  function Asked(s: State, id: string, req: Request, env: Env): Meta {
    if id in s.rows then Updated(s.rows[id].meta, req)
    else if Text(req.source, "") == "traffic" then NewTraffic(s, req)
    else NewNative(s, req, env)
  }

  // ----- what stands against it -------------------------------------------

  predicate BadValues(req: Request, m: Meta, zones: set<string>) {
    || (req.quota.Some? && req.quota.value < 0) || req.expire == Some(Malformed)
    || m.name == ""
    || (m.day == 0 && (m.hour != 0 || m.minute != 0))
    || (m.day != 0 && (m.day < 1 || m.day > 31 || m.hour < 0 || m.hour > 23 || m.minute < 0 || m.minute > 59
                       || (m.zone != "" && m.zone !in zones)))
  }

  predicate OtherNamed(rows: Table, id: string, name: string) { exists i :: i in rows && i != id && rows[i].meta.name == name }

  predicate OtherManages(rows: Table, id: string, provider: string) {
    exists i :: i in rows && i != id && rows[i].meta.provider == provider
  }

  predicate OtherTracks(rows: Table, id: string, link: string) {
    exists i :: i in rows && i != id && rows[i].meta.source == Traffic && rows[i].meta.link == link
  }

  predicate NoTraffic(s: State, link: string, env: Env) { env.trafficFails || link !in s.providers }

  /** Reasons against storing a traffic source. */
  predicate AgainstTraffic(s: State, id: string, req: Request, m: Meta, env: Env) {
    || Text(req.provider, m.provider) != "" || Text(req.url, "") != ""
    || m.link == "" || NoTraffic(s, m.link, env)
    || (!env.managerFails && OtherTracks(s.rows, id, m.link))
    || (if id in s.rows then req.source.Some? && Text(req.source, "") != "traffic" else false)
  }

  /** Reasons against storing a native subscription; picksOther only matters between rows without a provider. */
  predicate AgainstNative(s: State, id: string, req: Request, m: Meta, env: Env) {
    var found := EntryFound(s, m.provider, env);
    || (if id in s.rows then m.link != "" && NoTraffic(s, m.link, env)
        else Text(req.link, "") != "" && NoTraffic(s, Text(req.link, ""), env))
    || (!env.managerFails && OtherManages(s.rows, id, m.provider) &&
        (id !in s.rows || m.provider != s.rows[id].meta.provider || env.picksOther))
    || (if id in s.rows then m.provider != s.rows[id].meta.provider && !found
        else found == (Text(req.url, "") != "") || Text(req.source, "") !in {"", "native"})
  }

  /** The draft entry has to be written first, and cannot be. */
  predicate DraftRefuses(s: State, req: Request, m: Meta, env: Env) {
    var url := Text(req.url, "");
    m.source == Native && m.provider != "" && url != "" &&
    (env.upsertReadFails ||
     (env.upsertSaveFails && !(m.provider in s.draft && s.draft[m.provider].Entry? && s.draft[m.provider].url == url)))
  }

  /** The row cannot be stored: the store fails, or an index is violated. */
  predicate StoreRefuses(s: State, id: string, m: Meta, env: Env) {
    || env.writeFails || OtherNamed(s.rows, id, m.name)
    || (m.provider != "" && OtherManages(s.rows, id, m.provider))
    || (m.source == Traffic && m.link != "" && OtherTracks(s.rows, id, m.link))
  }

  predicate Objection(s: State, id: string, req: Request, env: Env) {
    var m := Asked(s, id, req, env);
    || BadValues(req, m, env.zones)
    || (if m.source == Traffic then AgainstTraffic(s, id, req, m, env) else AgainstNative(s, id, req, m, env))
    || DraftRefuses(s, req, m, env) || StoreRefuses(s, id, m, env)
  }

  // ----- proofs -----------------------------------------------------------

  lemma ApplyUpdated(req: Request, m: Meta)
    ensures ApplyTo(req, m).Err? <==> (req.quota.Some? && req.quota.value < 0) || req.expire == Some(Malformed)
    ensures ApplyTo(req, m).Err? ==> ApplyTo(req, m).error == Invalid
    ensures ApplyTo(req, m).Ok? ==> ApplyTo(req, m).value == Updated(m, req).(providerSource := m.providerSource)
  {
    hide Rules.TrimSpace;
  }

  lemma IndexRefuses(rows: Table, id: string, m: Meta)
    ensures !Storable(rows, id, m) <==>
            || OtherNamed(rows, id, m.name) || (m.provider != "" && OtherManages(rows, id, m.provider))
            || (m.source == Traffic && m.link != "" && OtherTracks(rows, id, m.link))
  {
    if !Storable(rows, id, m) {
      var i :| i in rows && i != id && !Compatible(m, rows[i].meta);
    }
  }

  lemma NamesTaken(rows: Table, id: string, name: string)
    requires id in rows ==> rows[id].meta.name != name
    ensures NameTaken(rows, name) <==> OtherNamed(rows, id, name)
  {}

  /** The plan is the row asked for, and there is one unless a value, a check or a taken name speaks against it. */
  predicate Right(s: State, id: string, req: Request, env: Env, r: Result<Plan>, against: bool) {
    var m, url := Asked(s, id, req, env), Text(req.url, "");
    && (r.Ok? ==> !BadValues(req, m, env.zones) && !against)
    && (r.Ok? ==> r.value == Plan(m, if m.source == Native && m.provider != "" && url != "" then Some(url) else None))
    && (!BadValues(req, m, env.zones) && !against && !OtherNamed(s.rows, id, m.name) ==> r.Ok?)
  }

  /** A refusal before any change is a conflict only for a name, a provider or a source in use, and otherwise an invalid request. */
  predicate RightError(s: State, id: string, req: Request, env: Env, r: Result<Plan>, against: bool) {
    var m := Asked(s, id, req, env);
    r.Err? ==>
      && (r.error == Invalid || r.error == Conflict)
      && (r.error == Invalid ==> BadValues(req, m, env.zones) || against)
      && (r.error == Conflict ==>
            || OtherNamed(s.rows, id, m.name) || OtherManages(s.rows, id, m.provider) || OtherTracks(s.rows, id, m.link)
            || (EntryFound(s, m.provider, env) && Text(req.url, "") != ""))
  }

  lemma UpdateNativeRight(s: State, id: string, req: Request, env: Env)
    requires id in s.rows && s.rows[id].meta.source == Native
    ensures Right(s, id, req, env, PlanUpdate(s, id, req, env), AgainstNative(s, id, req, Asked(s, id, req, env), env))
    ensures RightError(s, id, req, env, PlanUpdate(s, id, req, env), AgainstNative(s, id, req, Asked(s, id, req, env), env))
  {
    hide Rules.TrimSpace, NameTaken, ManagedElsewhere, OtherManages, OtherNamed, ApplyTo;
    var stored, m := s.rows[id].meta, Asked(s, id, req, env);
    ApplyUpdated(req, stored);
    if m.name != stored.name { NamesTaken(s.rows, id, m.name); }
    ManagedIsOther(s.rows, id, m.provider);
  }

  lemma ManagedIsOther(rows: Table, id: string, provider: string)
    ensures ManagedElsewhere(rows, id, provider) <==> OtherManages(rows, id, provider)
  {}

  lemma TrackedIsOther(rows: Table, id: string, link: string)
    ensures TrackedElsewhere(rows, id, link) <==> OtherTracks(rows, id, link)
  {}

  lemma UpdateTrafficRight(s: State, id: string, req: Request, env: Env)
    requires id in s.rows && s.rows[id].meta.source == Traffic
    ensures Right(s, id, req, env, PlanUpdate(s, id, req, env),
                  AgainstTraffic(s, id, req, Asked(s, id, req, env), env))
    ensures RightError(s, id, req, env, PlanUpdate(s, id, req, env),
                  AgainstTraffic(s, id, req, Asked(s, id, req, env), env))
  {
    hide Rules.TrimSpace, NameTaken, TrackedElsewhere, OtherTracks, OtherNamed, ApplyTo;
    var stored, m := s.rows[id].meta, Asked(s, id, req, env);
    ApplyUpdated(req, stored);
    if m.name != stored.name { NamesTaken(s.rows, id, m.name); }
    TrackedIsOther(s.rows, id, m.link);
  }

  lemma CreateNativeRight(s: State, id: string, req: Request, env: Env)
    requires id !in s.rows && Text(req.source, "") != "traffic"
    ensures Right(s, id, req, env, PlanCreate(s, id, req, env), AgainstNative(s, id, req, Asked(s, id, req, env), env))
    ensures RightError(s, id, req, env, PlanCreate(s, id, req, env), AgainstNative(s, id, req, Asked(s, id, req, env), env))
  {
    hide Rules.TrimSpace, NameTaken, ManagedElsewhere, OtherManages, OtherNamed, ApplyTo, PlanTraffic;
    var m := Asked(s, id, req, env);
    ApplyUpdated(req, FRESH);
    NamesTaken(s.rows, id, m.name);
    ManagedIsOther(s.rows, id, m.provider);
  }

  lemma CreateTrafficRight(s: State, id: string, req: Request, env: Env)
    requires id !in s.rows && Text(req.source, "") == "traffic"
    ensures Right(s, id, req, env, PlanCreate(s, id, req, env), AgainstTraffic(s, id, req, Asked(s, id, req, env), env))
    ensures RightError(s, id, req, env, PlanCreate(s, id, req, env), AgainstTraffic(s, id, req, Asked(s, id, req, env), env))
  {
    hide Rules.TrimSpace, NameTaken, TrackedElsewhere, OtherTracks, OtherNamed, ApplyTo, PlanNative;
    var m := Asked(s, id, req, env);
    ApplyUpdated(req, FRESH);
    NamesTaken(s.rows, id, m.name);
    TrackedIsOther(s.rows, id, m.link);
  }

  predicate Against(s: State, id: string, req: Request, env: Env) {
    var m := Asked(s, id, req, env);
    if m.source == Traffic then AgainstTraffic(s, id, req, m, env) else AgainstNative(s, id, req, m, env)
  }

  lemma PlanRight(s: State, id: string, req: Request, env: Env)
    ensures Right(s, id, req, env, Planned(s, id, req, env), Against(s, id, req, env))
    ensures RightError(s, id, req, env, Planned(s, id, req, env), Against(s, id, req, env))
  {
    hide Right, RightError, PlanCreate, PlanUpdate, AgainstTraffic, AgainstNative, Rules.TrimSpace;
    if id in s.rows {
      if s.rows[id].meta.source == Native { UpdateNativeRight(s, id, req, env); } else { UpdateTrafficRight(s, id, req, env); }
    } else if Text(req.source, "") == "traffic" {
      CreateTrafficRight(s, id, req, env);
    } else {
      CreateNativeRight(s, id, req, env);
    }
  }

  /** A request is refused if and only if something in the list stands against it. */
  lemma RefusedExactly(s: State, id: string, req: Request, env: Env)
    ensures Submitted(s, id, req, env).1.Refused? <==> Objection(s, id, req, env)
  {
    PlanRight(s, id, req, env);
    IndexRefuses(s.rows, id, Asked(s, id, req, env));
    hide Planned, BadValues, AgainstTraffic, AgainstNative, Storable, OtherNamed, OtherManages, OtherTracks, Asked, Rules.TrimSpace, Upserted, Restored;
  }

  /**
   An accepted request stores exactly the row asked for and touches no other row.
   The snapshot stays, except that a new row starts without one and a traffic
   source that moves to another traffic provider loses it. The draft entry gets
   the URL given and keeps its other settings.
   */
  lemma AcceptedStores(s: State, id: string, req: Request, env: Env)
    requires Submitted(s, id, req, env).1.Accepted?
    ensures var t, m := Submitted(s, id, req, env).0, Asked(s, id, req, env);
            && t.rows.Keys == s.rows.Keys + {id} && t.rows[id].meta == m
            && (forall other :: other in s.rows && other != id ==> t.rows[other] == s.rows[other])
            && t.rows[id].snap == (if id in s.rows && (m.source == Native || m.link == s.rows[id].meta.link)
                                   then s.rows[id].snap else CLEARED)
            && t.providers == s.providers
    ensures Submitted(s, id, req, env).1 == Accepted(Submitted(s, id, req, env).0.draft != s.draft)
    ensures var t, m, url := Submitted(s, id, req, env).0, Asked(s, id, req, env), Text(req.url, "");
            if m.source == Native && m.provider != "" && url != "" then
              && m.provider in t.draft && t.draft[m.provider].Entry? && t.draft[m.provider].url == url
              && (m.provider in s.draft && s.draft[m.provider].Entry? ==> t.draft[m.provider].settings == s.draft[m.provider].settings)
              && (forall name :: name != m.provider ==>
                    (name in t.draft <==> name in s.draft) && (name in s.draft ==> t.draft[name] == s.draft[name]))
            else t.draft == s.draft
  {
    PlanRight(s, id, req, env);
    hide Planned, BadValues, Against, Storable, OtherNamed, Asked, Rules.TrimSpace, Restored, DefaultSettings, WriteError;
  }

  /** Each kind of refusal has a reason of its kind. */
  lemma RefusalsTellWhy(s: State, id: string, req: Request, env: Env)
    requires Submitted(s, id, req, env).1.Refused?
    ensures var m, error := Asked(s, id, req, env), Submitted(s, id, req, env).1.error;
            match error
            case Invalid => BadValues(req, m, env.zones) || Against(s, id, req, env)
            case Conflict =>
              || OtherNamed(s.rows, id, m.name) || OtherManages(s.rows, id, m.provider) || OtherTracks(s.rows, id, m.link)
              || (EntryFound(s, m.provider, env) && Text(req.url, "") != "")
            case StoreFailed => DraftRefuses(s, req, m, env) || StoreRefuses(s, id, m, env)
            case NotFound => false
            case Referenced => false
  {
    PlanRight(s, id, req, env);
    RefusedExactly(s, id, req, env);
    if Planned(s, id, req, env).Ok? {
      IndexRefuses(s.rows, id, Asked(s, id, req, env));
      TrackedIsOther(s.rows, id, Asked(s, id, req, env).link);
      hide Planned, BadValues, Against, Storable, OtherNamed, OtherManages, OtherTracks, Asked, Rules.TrimSpace, Upserted, Restored, TrackedElsewhere, NameTaken;
    } else {
      hide Planned, BadValues, Against, Asked, OtherNamed, OtherManages, OtherTracks;
    }
  }
}
