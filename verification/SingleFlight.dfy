/**
 Single-flight in front of the egress cache (collectScores in
 internal/service/scoring_service.go): the cache is consulted first; of the
 concurrent misses for one key one leads and calls the sources, the others wait
 for it and return what it returned. Every critical section is one step.
 */
module SingleFlight {
  import opened Egress
  import opened Prelude

  type Flights = map<Key, nat>

  /** The table after a miss for the key: the first one registers its ticket, later ones find it there. */
  function Entered(flights: Flights, key: Key, ticket: nat): Flights {
    if key in flights then flights else flights[key := ticket]
  }

  /** The leader's deferred clean-up. */
  function Left(flights: Flights, key: Key): Flights { flights - {key} }

  /** The in-flight table, guarded by the mutex. */
  class Table {
    var flights: Flights

    /** A caller leads exactly when nobody does, and from then on every caller for the key joins it. */
    method Enter(key: Key, ticket: nat) returns (flight: nat, leads: bool)
      modifies this
      ensures flights == Entered(old(flights), key, ticket)
      ensures leads <==> key !in old(flights)
      ensures key in flights && flights[key] == flight
      ensures forall later :: Entered(flights, key, later) == flights
    {
      if key in flights {
        return flights[key], false;
      }
      flights := flights[key := ticket];
      return ticket, true;
    }

    /** The next caller leads again. */
    method Leave(key: Key)
      modifies this
      ensures flights == Left(old(flights), key)
      ensures forall ticket :: Entered(flights, key, ticket) == old(flights)[key := ticket]
    {
      flights := flights - {key};
    }
  }

  // ----- all interleavings ------------------------------------------------

  /** A flight: its leader, its result once the leader has one, and whether its channel is closed. */
  datatype Flight = Flight(key: Key, leader: nat, outcome: Option<Tuple>, closed: bool)

  datatype Source = FromCache | Led(flight: nat) | Followed(flight: nat)

  /** Where one call of collectScores stands. */
  datatype Call =
    | Missed(key: Key)
    | Leading(key: Key, flight: nat)
    | Waiting(key: Key, flight: nat)
    | Returned(key: Key, out: Tuple, source: Source)
    | Cancelled(key: Key)

  /** writer remembers which flight wrote each cache entry. */
  datatype State = State(cache: map<string, Entry>, inflight: Flights, flights: seq<Flight>,
                         calls: map<nat, Call>, writer: map<string, nat>)

  const START := State(map[], map[], [], map[], map[])

  datatype Event =
    | Begin(call: nat, key: Key, now: int)   // reads the cache
    | Enter(call: nat)                       // takes the mutex after a miss
    | Fetch(call: nat, claude: Fetched<Risk>, lookup: Fetched<Lookup>, now: int, putFails: bool)
    | Leave(call: nat)                       // takes it again, deletes the entry, closes the channel
    | Wake(call: nat)
    | Cancel(call: nat)                      // the waiter's context ends

  function Step(s: State, e: Event): State {
    match e
    case Begin(c, key, now) =>
      if c in s.calls then s
      else
        var answer := CacheAnswer(s.cache, key, now);
        s.(calls := s.calls[c := if answer.Some? then Returned(key, answer.value, FromCache) else Missed(key)])
    case Enter(c) =>
      if c !in s.calls || !s.calls[c].Missed? then s
      else
        var key := s.calls[c].key;
        var f := |s.flights|;
        if key in s.inflight then s.(calls := s.calls[c := Waiting(key, s.inflight[key])])
        else
          s.(inflight := Entered(s.inflight, key, f), flights := s.flights + [Flight(key, c, None, false)],
             calls := s.calls[c := Leading(key, f)])
    case Fetch(c, claude, lookup, now, putFails) =>
      if c !in s.calls || !s.calls[c].Leading? || s.calls[c].flight >= |s.flights| then s
      else if s.flights[s.calls[c].flight].outcome.Some? then s
      else
        var key, f := s.calls[c].key, s.calls[c].flight;
        var (out, cacheable) := Combined(key, claude, lookup);
        var t := s.(flights := s.flights[f := s.flights[f].(outcome := Some(out))]);
        if cacheable && !putFails && out.info.Some? then
          t.(cache := t.cache[key.ip := Entry(out.info.value, now)], writer := t.writer[key.ip := f])
        else t
    case Leave(c) =>
      if c !in s.calls || !s.calls[c].Leading? || s.calls[c].flight >= |s.flights| then s
      else
        var key, f := s.calls[c].key, s.calls[c].flight;
        if s.flights[f].outcome.None? then s
        else
          s.(inflight := Left(s.inflight, key), flights := s.flights[f := s.flights[f].(closed := true)],
             calls := s.calls[c := Returned(key, s.flights[f].outcome.value, Led(f))])
    case Wake(c) =>
      if c !in s.calls || !s.calls[c].Waiting? || s.calls[c].flight >= |s.flights| then s
      else
        var key, f := s.calls[c].key, s.calls[c].flight;
        if s.flights[f].closed && s.flights[f].outcome.Some? then
          s.(calls := s.calls[c := Returned(key, s.flights[f].outcome.value, Followed(f))])
        else s
    case Cancel(c) =>
      if c !in s.calls || !s.calls[c].Waiting? then s
      else s.(calls := s.calls[c := Cancelled(s.calls[c].key)])
  }

  function Run(s: State, events: seq<Event>): State {
    if events == [] then s else Step(Run(s, events[..|events| - 1]), events[|events| - 1])
  }

  // ----- invariants -------------------------------------------------------

  predicate Open(s: State, f: nat) { f < |s.flights| && !s.flights[f].closed }

  /** The table lists exactly the open flights, each under its key. */
  ghost predicate TableOk(s: State) {
    && (forall key :: key in s.inflight ==> Open(s, s.inflight[key]) && s.flights[s.inflight[key]].key == key)
    && (forall f :: 0 <= f < |s.flights| && !s.flights[f].closed ==>
          s.flights[f].key in s.inflight && s.inflight[s.flights[f].key] == f)
  }

  /** An open flight's leader is running; a closed one's has returned the flight's outcome. */
  predicate LeaderOk(s: State, f: nat)
    requires f < |s.flights|
  {
    var flight := s.flights[f];
    && flight.leader in s.calls
    && if flight.closed then
         flight.outcome.Some? && s.calls[flight.leader] == Returned(flight.key, flight.outcome.value, Led(f))
       else
         s.calls[flight.leader] == Leading(flight.key, f)
  }

  predicate CallOk(s: State, c: nat)
    requires c in s.calls
  {
    match s.calls[c]
    case Leading(key, f) => Open(s, f) && s.flights[f].key == key && s.flights[f].leader == c
    case Waiting(key, f) => f < |s.flights| && s.flights[f].key == key && s.flights[f].leader != c
    case Returned(key, out, Led(f)) => f < |s.flights| && s.flights[f].leader == c
    case Returned(key, out, Followed(f)) =>
      f < |s.flights| && s.flights[f].closed && s.flights[f].key == key && s.flights[f].outcome == Some(out)
    case Returned(key, out, FromCache) => key.claudeVisible ==> out.info.Some? && out.info.value.claude.Some?
    case _ => true
  }

  ghost predicate FlightsOk(s: State) {
    && TableOk(s)
    && (forall f :: 0 <= f < |s.flights| ==> LeaderOk(s, f))
    && forall c :: c in s.calls ==> CallOk(s, c)
  }

  lemma BeginKeeps(s: State, c: nat, key: Key, now: int)
    requires FlightsOk(s)
    ensures FlightsOk(Step(s, Begin(c, key, now)))
  {
    hide ScoresOf;
    var t := Step(s, Begin(c, key, now));
    if t != s {
      assert t.flights == s.flights && t.inflight == s.inflight && c !in s.calls;
      assert forall d :: d in s.calls ==> t.calls[d] == s.calls[d];
      forall f | 0 <= f < |t.flights| ensures LeaderOk(t, f) { assert LeaderOk(s, f); }
      forall d | d in t.calls ensures CallOk(t, d) { assert d != c ==> CallOk(s, d); }
    }
  }

  lemma EnterKeeps(s: State, c: nat)
    requires FlightsOk(s)
    ensures FlightsOk(Step(s, Enter(c)))
  {
    var t := Step(s, Enter(c));
    if c in s.calls && s.calls[c].Missed? {
      var key := s.calls[c].key;
      forall f | 0 <= f < |t.flights| ensures LeaderOk(t, f) {
        if f < |s.flights| { assert LeaderOk(s, f); }
      }
      forall d | d in t.calls ensures CallOk(t, d) {
        if d != c {
          assert CallOk(s, d);
        } else if key in s.inflight {
          assert LeaderOk(s, s.inflight[key]);
        }
      }
      forall f | 0 <= f < |t.flights| && !t.flights[f].closed
        ensures t.flights[f].key in t.inflight && t.inflight[t.flights[f].key] == f
      {
        if f < |s.flights| {
          assert s.flights[f].key in s.inflight && s.inflight[s.flights[f].key] == f;
        }
      }
    }
  }

  lemma FetchKeeps(s: State, c: nat, claude: Fetched<Risk>, lookup: Fetched<Lookup>, now: int, putFails: bool)
    requires FlightsOk(s)
    ensures FlightsOk(Step(s, Fetch(c, claude, lookup, now, putFails)))
  {
    hide Combined;
    var t := Step(s, Fetch(c, claude, lookup, now, putFails));
    if t != s {
      var g := s.calls[c].flight;
      assert CallOk(s, c);
      assert |t.flights| == |s.flights| && t.calls == s.calls && t.inflight == s.inflight;
      assert forall f :: 0 <= f < |s.flights| && f != g ==> t.flights[f] == s.flights[f];
      assert t.flights[g] == s.flights[g].(outcome := t.flights[g].outcome);
      forall f | 0 <= f < |t.flights| ensures LeaderOk(t, f) { assert LeaderOk(s, f); }
      forall d | d in t.calls ensures CallOk(t, d) { assert CallOk(s, d); }
    }
  }

  lemma LeaveKeeps(s: State, c: nat)
    requires FlightsOk(s)
    ensures FlightsOk(Step(s, Leave(c)))
  {
    var t := Step(s, Leave(c));
    if t != s {
      var g, key := s.calls[c].flight, s.calls[c].key;
      assert CallOk(s, c);
      assert s.inflight[key] == g;
      forall f | 0 <= f < |t.flights| ensures LeaderOk(t, f) {
        assert LeaderOk(s, f);
      }
      forall d | d in t.calls ensures CallOk(t, d) { assert CallOk(s, d); }
      forall f | 0 <= f < |t.flights| && !t.flights[f].closed
        ensures t.flights[f].key in t.inflight && t.inflight[t.flights[f].key] == f
      {
        assert s.flights[f].key in s.inflight && s.inflight[s.flights[f].key] == f;
      }
    }
  }

  lemma SameTable(s: State, t: State)
    requires TableOk(s) && t.inflight == s.inflight && t.flights == s.flights
    ensures TableOk(t)
  {}

  lemma WakeKeeps(s: State, c: nat)
    requires FlightsOk(s)
    ensures FlightsOk(Step(s, Wake(c))) && FlightsOk(Step(s, Cancel(c)))
  {
    hide TableOk;
    forall t | t == Step(s, Wake(c)) || t == Step(s, Cancel(c)) ensures FlightsOk(t) {
      if t != s {
        SameTable(s, t);
        assert CallOk(s, c);
        forall f | 0 <= f < |t.flights| ensures LeaderOk(t, f) { assert LeaderOk(s, f); }
        forall d | d in t.calls ensures CallOk(t, d) { assert CallOk(s, d); }
      }
    }
  }

  lemma StepKeeps(s: State, e: Event)
    requires FlightsOk(s)
    ensures FlightsOk(Step(s, e))
  {
    hide FlightsOk, Step;
    match e
    case Begin(c, key, now) => BeginKeeps(s, c, key, now);
    case Enter(c) => EnterKeeps(s, c);
    case Fetch(c, claude, lookup, now, putFails) => FetchKeeps(s, c, claude, lookup, now, putFails);
    case Leave(c) => LeaveKeeps(s, c);
    case Wake(c) => WakeKeeps(s, c);
    case Cancel(c) => WakeKeeps(s, c);
  }

  lemma {:induction false} RunKeeps(events: seq<Event>)
    ensures FlightsOk(Run(START, events))
  {
    if events != [] {
      RunKeeps(events[..|events| - 1]);
      StepKeeps(Run(START, events[..|events| - 1]), events[|events| - 1]);
    }
  }

  /** Each entry holds the complete result of the flight that wrote it. */
  ghost predicate CacheOk(s: State) {
    forall ip :: ip in s.cache ==> EntryOk(s, ip, s.cache[ip].info)
  }

  ghost predicate EntryOk(s: State, ip: string, info: Info) {
    && ip in s.writer && s.writer[ip] < |s.flights|
    && var flight := s.flights[s.writer[ip]];
       && flight.key.ip == ip == info.ip
       && flight.outcome == Some(Tuple(ScoresOf(info), Some(info), None, None))
       && info.lookup.Some? && (flight.key.claudeVisible ==> info.claude.Some?)
  }

  predicate CompleteFor(key: Key, out: Tuple, info: Info) {
    && out == Tuple(ScoresOf(info), Some(info), None, None) && info.ip == key.ip
    && info.lookup.Some? && (key.claudeVisible ==> info.claude.Some?)
  }

  lemma CombinedComplete(key: Key, claude: Fetched<Risk>, lookup: Fetched<Lookup>)
    ensures var (out, cacheable) := Combined(key, claude, lookup);
            cacheable ==> exists info :: CompleteFor(key, out, info)
  {
    var (out, cacheable) := Combined(key, claude, lookup);
    if cacheable {
      var info := out.info.value;
      assert CompleteFor(key, out, info);
    }
  }

  /** Only a leader's fetch writes the cache; other steps add and close flights, and change no key or outcome. */
  lemma CacheUntouched(s: State, e: Event)
    requires !e.Fetch? || Step(s, e) == s
    ensures var t := Step(s, e);
            && t.cache == s.cache && t.writer == s.writer && |s.flights| <= |t.flights|
            && forall f :: 0 <= f < |s.flights| ==> t.flights[f].key == s.flights[f].key && t.flights[f].outcome == s.flights[f].outcome
  {
    hide Combined, CacheAnswer, ScoresOf, Entered, Left;
  }

  lemma StepKeepsCache(s: State, e: Event)
    requires FlightsOk(s) && CacheOk(s)
    ensures CacheOk(Step(s, e))
  {
    hide Combined, CacheAnswer, ScoresOf, LeaderOk, TableOk, Entered, Left;
    var t := Step(s, e);
    if e.Fetch? && t != s {
      assert CallOk(s, e.call);
      CombinedComplete(s.calls[e.call].key, e.claude, e.lookup);
    } else {
      CacheUntouched(s, e);
    }
    forall ip | ip in t.cache ensures EntryOk(t, ip, t.cache[ip].info) {
      if ip in s.cache && s.cache[ip] == t.cache[ip] && s.writer == t.writer {
        assert EntryOk(s, ip, s.cache[ip].info);
      } else if ip in s.cache {
        assert EntryOk(s, ip, s.cache[ip].info);
      }
    }
  }

  lemma {:induction false} RunKeepsCache(events: seq<Event>)
    ensures FlightsOk(Run(START, events)) && CacheOk(Run(START, events))
  {
    RunKeeps(events);
    if events != [] {
      RunKeepsCache(events[..|events| - 1]);
      StepKeepsCache(Run(START, events[..|events| - 1]), events[|events| - 1]);
    }
  }

  // ----- main results -----------------------------------------------------

  predicate Leads(s: State, c: nat, key: Key) {
    c in s.calls && s.calls[c].Leading? && s.calls[c].key == key
  }

  /** A key is in the table exactly while one call leads for it, and then only one does. */
  lemma OneLeaderPerKey(events: seq<Event>, key: Key)
    ensures var s := Run(START, events);
            && (key in s.inflight <==> exists c :: Leads(s, c, key))
            && forall c, d :: Leads(s, c, key) && Leads(s, d, key) ==> c == d
  {
    hide Run;
    RunKeeps(events);
    var s := Run(START, events);
    forall c | c in s.calls && s.calls[c].Leading?
      ensures s.calls[c].key in s.inflight && s.flights[s.inflight[s.calls[c].key]].leader == c
    {
      assert CallOk(s, c);
    }
    if key in s.inflight {
      assert LeaderOk(s, s.inflight[key]);
      assert Leads(s, s.flights[s.inflight[key]].leader, key);
    }
  }

  /** Every follower that wakes returns exactly what the leader of its key returned. */
  lemma FollowersAgree(events: seq<Event>, c: nat)
    requires var s := Run(START, events); c in s.calls && s.calls[c].Returned? && s.calls[c].source.Followed?
    ensures var s := Run(START, events);
            var call := s.calls[c];
            exists leader :: leader != c && leader in s.calls
              && s.calls[leader] == Returned(call.key, call.out, Led(call.source.flight))
  {
    RunKeeps(events);
    var s := Run(START, events);
    assert CallOk(s, c);
    assert LeaderOk(s, s.calls[c].source.flight);
  }

  /**
   A cache hit reproduces the result of the call that wrote the entry: that
   call led a flight for the same IP and has returned, or is about to return,
   exactly this; and the entry has the lookup source, and the Claude source if
   either its writer or the request hitting it needs it.
   */
  lemma HitReproducesLeader(events: seq<Event>, key: Key, now: int)
    requires CacheAnswer(Run(START, events).cache, key, now).Some?
    ensures var s := Run(START, events);
            var out := CacheAnswer(s.cache, key, now).value;
            && key.ip in s.writer && s.writer[key.ip] < |s.flights|
            && var flight := s.flights[s.writer[key.ip]];
               && flight.key.ip == key.ip && flight.outcome == Some(out) && flight.leader in s.calls
               && (|| s.calls[flight.leader] == Leading(flight.key, s.writer[key.ip])
                   || s.calls[flight.leader] == Returned(flight.key, out, Led(s.writer[key.ip])))
               && out.info.Some? && out.info.value.lookup.Some?
               && (key.claudeVisible || flight.key.claudeVisible ==> out.info.value.claude.Some?)
  {
    RunKeepsCache(events);
    var s := Run(START, events);
    assert EntryOk(s, key.ip, s.cache[key.ip].info);
    assert LeaderOk(s, s.writer[key.ip]);
  }

  /** A Claude-visible request never returns a cached answer without the Claude source. */
  lemma NeverWithoutClaude(events: seq<Event>, c: nat)
    requires var s := Run(START, events);
             c in s.calls && s.calls[c].Returned? && s.calls[c].source == FromCache && s.calls[c].key.claudeVisible
    ensures var out := Run(START, events).calls[c].out;
            out.info.Some? && out.info.value.claude.Some?
  {
    RunKeeps(events);
    assert CallOk(Run(START, events), c);
  }

  // ----- the age of what is served ----------------------------------------

  /** A complete fetch that could be stored answers every request it suffices for, for six days from its own time, with its own outcome. */
  lemma FetchThenHit(s: State, c: nat, claude: Fetched<Risk>, lookup: Fetched<Lookup>, now: int, later: int, key: Key)
    requires c in s.calls && s.calls[c].Leading? && s.calls[c].flight < |s.flights| && s.flights[s.calls[c].flight].outcome.None?
    requires lookup.Got? && (s.calls[c].key.claudeVisible ==> claude.Got?)
    requires key.ip == s.calls[c].key.ip && (key.claudeVisible ==> s.calls[c].key.claudeVisible)
    ensures var t := Step(s, Fetch(c, claude, lookup, now, false));
            var answer := CacheAnswer(t.cache, key, later);
            && (answer.Some? <==> later < now + 518_400)
            && (answer.Some? ==> t.flights[s.calls[c].flight].outcome == answer)
  {}

  /** A new call returns at once exactly if a fresh enough entry has the sources it needs, and otherwise goes on to the table. */
  lemma HitIsReturned(s: State, c: nat, key: Key, now: int)
    requires c !in s.calls
    ensures var t := Step(s, Begin(c, key, now));
            && t.cache == s.cache && t.inflight == s.inflight && t.flights == s.flights
            && c in t.calls
            && if key.ip in s.cache && now < s.cache[key.ip].fetchedAt + 518_400
                  && (key.claudeVisible ==> s.cache[key.ip].info.claude.Some?)
               then t.calls[c].Returned? && t.calls[c].source == FromCache && t.calls[c].out.info == Some(s.cache[key.ip].info)
               else t.calls[c] == Missed(key)
  {
    HitsExactly(s.cache, key, now);
    hide CacheAnswer;
  }

  ghost predicate Stamped(events: seq<Event>, e: Entry) {
    exists i :: 0 <= i < |events| && events[i].Fetch? && !events[i].putFails && events[i].now == e.fetchedAt
  }

  lemma {:induction false} RunStamps(events: seq<Event>)
    ensures forall ip :: ip in Run(START, events).cache ==> Stamped(events, Run(START, events).cache[ip])
  {
    hide Combined, CacheAnswer;
    if events != [] {
      var init, n := events[..|events| - 1], |events| - 1;
      var before, after := Run(START, init), Run(START, events);
      RunStamps(init);
      forall ip | ip in after.cache ensures Stamped(events, after.cache[ip]) {
        if ip in before.cache && after.cache[ip] == before.cache[ip] {
          var i :| 0 <= i < n && init[i].Fetch? && !init[i].putFails && init[i].now == after.cache[ip].fetchedAt;
          assert events[i] == init[i];
        } else {
          assert events[n].Fetch? && events[n].now == after.cache[ip].fetchedAt;
        }
      }
    }
  }

  /** Nothing older than six days is ever served from the cache. */
  lemma NothingOldServed(events: seq<Event>, key: Key, now: int)
    requires CacheAnswer(Run(START, events).cache, key, now).Some?
    ensures exists i :: 0 <= i < |events| && events[i].Fetch? && now < events[i].now + 518_400
  {
    hide Run;
    RunStamps(events);
    HitsExactly(Run(START, events).cache, key, now);
    var entry := Run(START, events).cache[key.ip];
    assert Stamped(events, entry);
  }
}
