/**
 The generation-stamped cache of provider node lists (loadEffectiveNodes,
 InvalidateProviderCache and the start of ScanAndEnqueue in
 internal/service/scoring_service.go). The cache is looked up under the mutex,
 the file is read outside it, and the result is stored under it again, so slow
 readers interleave freely with invalidations and file updates.
 */
module ProviderCache {
  import opened Prelude

  /** The effective nodes of a provider. */
  type Nodes = seq<string>

  datatype Entry = Entry(gen: nat, nodes: Nodes)

  /** The contents of the cache directory: provider name to nodes; a provider may have no file. */
  type Disk = map<string, Nodes>

  /** What the mutex guards: the generation, and the lists loaded so far. */
  datatype Shared = Shared(gen: nat, entries: map<string, Entry>) {
    function Invalidated(): Shared { this.(gen := gen + 1) }

    /** A list counts only under the generation it is stamped with. */
    function Hit(name: string): Option<Nodes> {
      if name in entries && entries[name].gen == gen then Some(entries[name].nodes) else None
    }

    function Stored(name: string, observed: nat, nodes: Nodes): Shared {
      this.(entries := entries[name := Entry(observed, nodes)])
    }
  }

  // ----- the critical sections --------------------------------------------

  class Cache {
    var gen: nat
    var entries: map<string, Entry>

    function Value(): Shared
      reads this
    {
      Shared(gen, entries)
    }

    constructor ()
      ensures Value() == Shared(0, map[])
    {
      gen, entries := 0, map[];
    }

    /** After it, nothing stamped so far is served. */
    method Invalidate()
      modifies this
      ensures Value() == old(Value()).Invalidated()
      ensures forall name :: name in entries && entries[name].gen <= old(gen) ==> Value().Hit(name).None?
    {
      gen := gen + 1;
    }

    /** The first section of a load: the observed generation, and the cached nodes if they carry it. */
    method Lookup(name: string) returns (observed: nat, hit: Option<Nodes>)
      ensures observed == gen
      ensures hit == Value().Hit(name)
    {
      observed := gen;
      if name in entries && entries[name].gen == gen {
        return observed, Some(entries[name].nodes);
      }
      return observed, None;
    }

    /** The second one. A reader that was overtaken by an invalidation evicts what it overwrites and is not served itself. */
    method Store(name: string, observed: nat, nodes: Nodes)
      modifies this
      ensures Value() == old(Value()).Stored(name, observed, nodes)
      ensures Value().Hit(name) == if observed == gen then Some(nodes) else None
      ensures forall other :: other != name ==> Value().Hit(other) == old(Value()).Hit(other)
    {
      entries := entries[name := Entry(observed, nodes)];
    }
  }

  // ----- all interleavings ------------------------------------------------

  /** One call of loadEffectiveNodes, between its critical sections or finished. */
  datatype Reader =
    | Missed(name: string, gen: nat)
    | HasRead(name: string, gen: nat, nodes: Nodes)
    | Returned(name: string, gen: nat, nodes: Nodes)

  /**
   history lists every state the disk has been in; established[g] is its length
   when generation g began, so reads since then saw an index from there on, less one.
   */
  datatype State = State(shared: Shared, readers: map<nat, Reader>,
                         history: seq<Disk>, established: seq<nat>)

  datatype Event =
    | Invalidate
    | Rewrite(disk: Disk)          // mihomo updates cache files at any time
    | Lookup(reader: nat, name: string)
    | Read(reader: nat)            // fails when there is no file
    | Store(reader: nat)

  function Start(disk: Disk): State { State(Shared(0, map[]), map[], [disk], [0]) }

  function Step(s: State, e: Event): State
    requires s.history != []
  {
    match e
    case Invalidate => s.(shared := s.shared.Invalidated(), established := s.established + [|s.history| - 1])
    case Rewrite(disk) => s.(history := s.history + [disk])
    case Lookup(r, name) =>
      var reader := match s.shared.Hit(name)
        case Some(nodes) => Returned(name, s.shared.gen, nodes)
        case None => Missed(name, s.shared.gen);
      s.(readers := s.readers[r := reader])
    case Read(r) =>
      if r !in s.readers || !s.readers[r].Missed? then s
      else
        var m := s.readers[r];
        var disk := s.history[|s.history| - 1];
        if m.name in disk then s.(readers := s.readers[r := HasRead(m.name, m.gen, disk[m.name])])
        else s.(readers := s.readers - {r})
    case Store(r) =>
      if r !in s.readers || !s.readers[r].HasRead? then s
      else
        var h := s.readers[r];
        s.(shared := s.shared.Stored(h.name, h.gen, h.nodes),
           readers := s.readers[r := Returned(h.name, h.gen, h.nodes)])
  }

  function Run(s: State, events: seq<Event>): (t: State)
    requires s.history != []
    ensures t.history != []
  {
    if events == [] then s else Step(Run(s, events[..|events| - 1]), events[|events| - 1])
  }

  /** The nodes were the provider's on disk at some moment since generation g began. */
  ghost predicate OnDiskSince(s: State, name: string, g: nat, nodes: Nodes) {
    && g < |s.established|
    && exists v :: s.established[g] <= v < |s.history| && name in s.history[v] && s.history[v][name] == nodes
  }

  ghost predicate Timeline(s: State) {
    && s.history != [] && |s.established| == s.shared.gen + 1
    && (forall g :: 0 <= g <= s.shared.gen ==> s.established[g] < |s.history|)
    && forall g, h :: 0 <= g <= h <= s.shared.gen ==> s.established[g] <= s.established[h]
  }

  ghost predicate ReaderOk(s: State, r: Reader) {
    match r
    case Missed(name, g) => g <= s.shared.gen
    case HasRead(name, g, nodes) => OnDiskSince(s, name, g, nodes)
    case Returned(name, g, nodes) => OnDiskSince(s, name, g, nodes)
  }

  ghost predicate EntryOk(s: State, name: string, e: Entry) { OnDiskSince(s, name, e.gen, e.nodes) }

  ghost predicate Invariant(s: State) {
    && Timeline(s)
    && (forall name :: name in s.shared.entries ==> EntryOk(s, name, s.shared.entries[name]))
    && forall r :: r in s.readers ==> ReaderOk(s, s.readers[r])
  }

  /** Facts about the past survive every step. */
  lemma StillOnDisk(s: State, t: State, name: string, g: nat, nodes: Nodes)
    requires OnDiskSince(s, name, g, nodes) && s.history <= t.history && s.established <= t.established
    ensures OnDiskSince(t, name, g, nodes)
  {
    var v :| s.established[g] <= v < |s.history| && name in s.history[v] && s.history[v][name] == nodes;
    assert t.history[v] == s.history[v];
  }

  lemma StepTimeline(s: State, e: Event)
    requires Timeline(s)
    ensures var t := Step(s, e);
            Timeline(t) && s.history <= t.history && s.established <= t.established && s.shared.gen <= t.shared.gen
  {}

  lemma ReaderStays(s: State, t: State, r: Reader)
    requires ReaderOk(s, r) && s.history <= t.history && s.established <= t.established && s.shared.gen <= t.shared.gen
    ensures ReaderOk(t, r)
  {
    hide OnDiskSince;
    if !r.Missed? { StillOnDisk(s, t, r.name, r.gen, r.nodes); }
  }

  /** What a step makes of a reader is in order: a hit carries the entry's past, a read happens now. */
  lemma NewReader(s: State, e: Event, r: nat)
    requires Invariant(s) && r in Step(s, e).readers && (r in s.readers ==> s.readers[r] != Step(s, e).readers[r])
    ensures ReaderOk(Step(s, e), Step(s, e).readers[r])
  {
    var t := Step(s, e);
    if e.Lookup? {
      assert e.name in s.shared.entries ==> EntryOk(s, e.name, s.shared.entries[e.name]);
    } else {
      assert ReaderOk(s, s.readers[r]);
      if e.Read? {
        assert s.history[|s.history| - 1] == t.history[|s.history| - 1];
      }
    }
  }

  lemma NewEntry(s: State, e: Event, name: string)
    requires Invariant(s) && name in Step(s, e).shared.entries && (name in s.shared.entries ==> s.shared.entries[name] != Step(s, e).shared.entries[name])
    ensures EntryOk(Step(s, e), name, Step(s, e).shared.entries[name])
  {
    assert ReaderOk(s, s.readers[e.reader]);
  }

  lemma StepKeeps(s: State, e: Event)
    requires Invariant(s)
    ensures Invariant(Step(s, e))
    ensures s.history <= Step(s, e).history && s.established <= Step(s, e).established
  {
    var t := Step(s, e);
    StepTimeline(s, e);
    hide Step, OnDiskSince, Timeline, ReaderOk;
    forall name | name in t.shared.entries ensures EntryOk(t, name, t.shared.entries[name]) {
      if name in s.shared.entries && s.shared.entries[name] == t.shared.entries[name] {
        StillOnDisk(s, t, name, s.shared.entries[name].gen, s.shared.entries[name].nodes);
      } else {
        NewEntry(s, e, name);
      }
    }
    forall r | r in t.readers ensures ReaderOk(t, t.readers[r]) {
      if r in s.readers && s.readers[r] == t.readers[r] {
        ReaderStays(s, t, s.readers[r]);
      } else {
        NewReader(s, e, r);
      }
    }
  }

  /**
   Freshness: in every run, a list returned to a caller that observed
   generation g was on disk at some moment after g began, even when an older
   reader has overwritten a newer entry in between.
   */
  lemma {:induction false} RunKeeps(disk: Disk, events: seq<Event>)
    ensures Invariant(Run(Start(disk), events))
  {
    if events != [] {
      RunKeeps(disk, events[..|events| - 1]);
      StepKeeps(Run(Start(disk), events[..|events| - 1]), events[|events| - 1]);
    }
  }

  /** An invalidation is a barrier: callers that look up after it never see what had been replaced before it. */
  lemma {:induction false} BarrierHolds(s: State, events: seq<Event>, r: nat)
    requires Invariant(s)
    requires var t := Run(Step(s, Invalidate), events);
             r in t.readers && t.readers[r].Returned? && t.readers[r].gen > s.shared.gen
    ensures var t := Run(Step(s, Invalidate), events);
            exists v :: |s.history| - 1 <= v < |t.history| && t.readers[r].name in t.history[v] &&
                        t.history[v][t.readers[r].name] == t.readers[r].nodes
  {
    var b := Step(s, Invalidate);
    var t := Run(b, events);
    StepKeeps(s, Invalidate);
    RunFrom(b, events);
    var reader := t.readers[r];
    assert ReaderOk(t, reader);
    assert t.established[s.shared.gen + 1] == b.established[s.shared.gen + 1] == |s.history| - 1;
  }

  lemma {:induction false} RunFrom(s: State, events: seq<Event>)
    requires Invariant(s)
    ensures var t := Run(s, events); Invariant(t) && s.established <= t.established && s.history <= t.history
  {
    if events != [] {
      RunFrom(s, events[..|events| - 1]);
      StepKeeps(Run(s, events[..|events| - 1]), events[|events| - 1]);
    }
  }
}
