// A crawl saved while no thread has anything in hand and resumed from the file finds what one uninterrupted crawl
// finds, and probes nobody twice (the promise of src/state.rs).
module CrawlContinue {
  import opened Prelude
  import opened Peers
  import opened Crawl
  import opened CrawlProgress
  import opened CrawlConservation
  import opened CrawlOutcome
  import opened CrawlStart
  import opened CrawlResume
  import Wire

  // ---- Found by gossip ----

  lemma FoundReachable(cfg: Config, seeds: seq<Seed>, p: Peer, d: nat)
    requires FoundAt(cfg, seeds, p, d)
    ensures ReachableFrom(cfg, seeds, p)
  {
    var path: seq<Peer> :|
      && path != [] && path[|path| - 1] == p && Linked(cfg, path)
      && FirstMention(cfg, seeds, path[0]).Some?
      && FirstMention(cfg, seeds, path[0]).value.depth + |path| - 1 == d;
  }

  lemma FoundStep(cfg: Config, seeds: seq<Seed>, p: Peer, d: nat, q: Peer)
    requires FoundAt(cfg, seeds, p, d) && Gossips(cfg, p, q)
    ensures FoundAt(cfg, seeds, q, d + 1)
  {
    var path: seq<Peer> :|
      && path != [] && path[|path| - 1] == p && Linked(cfg, path)
      && FirstMention(cfg, seeds, path[0]).Some?
      && FirstMention(cfg, seeds, path[0]).value.depth + |path| - 1 == d;
    assert (path + [q])[0] == path[0] && Linked(cfg, path + [q]);
  }

  lemma SeedFound(cfg: Config, seeds: seq<Seed>, p: Peer)
    requires FirstMention(cfg, seeds, p).Some?
    ensures FoundAt(cfg, seeds, p, FirstMention(cfg, seeds, p).value.depth)
  {
    assert [p][0] == p && Linked(cfg, [p]);
  }

  lemma LinkedStep(cfg: Config, path: seq<Peer>, k: nat)
    requires 0 < k < |path| && Linked(cfg, path)
    ensures Gossips(cfg, path[k - 1], path[k])
  {}

  lemma {:induction false} FoundAlong(cfg: Config, seeds: seq<Seed>, path: seq<Peer>, d: nat, k: nat)
    requires k < |path| && Linked(cfg, path) && FoundAt(cfg, seeds, path[0], d)
    ensures FoundAt(cfg, seeds, path[k], d + k)
  {
    if k > 0 {
      FoundAlong(cfg, seeds, path, d, k - 1);
      LinkedStep(cfg, path, k);
      FoundStep(cfg, seeds, path[k - 1], d + k - 1, path[k]);
    }
  }

  lemma RootedFound(cfg: Config, seeds: seq<Seed>, roots: seq<Task>, k: Task)
    requires forall root | root in roots :: FoundAt(cfg, seeds, root.peer, root.depth)
    requires Rooted(cfg, roots, k)
    ensures FoundAt(cfg, seeds, k.peer, k.depth)
  {
    var path :| Route(cfg, roots, path, k);
    assert Task(path[0], k.depth + 1 - |path|) in roots;
    FoundAlong(cfg, seeds, path, k.depth + 1 - |path|, |path| - 1);
  }

  lemma {:induction false} ClosedAlong(cfg: Config, known: set<Peer>, path: seq<Peer>, k: nat)
    requires forall p, q | p in known && Gossips(cfg, p, q) :: q in known
    requires k < |path| && Linked(cfg, path) && path[0] in known
    ensures path[k] in known
  {
    if k > 0 {
      ClosedAlong(cfg, known, path, k - 1);
      LinkedStep(cfg, path, k);
    }
  }

  // A set that holds the seeds and all its members' gossip holds everything reachable.
  lemma AllReached(cfg: Config, seeds: seq<Seed>, known: set<Peer>, p: Peer)
    requires forall p, q | p in known && Gossips(cfg, p, q) :: q in known
    requires forall q | FirstMention(cfg, seeds, q).Some? :: q in known
    requires ReachableFrom(cfg, seeds, p)
    ensures p in known
  {
    var path :| path != [] && FirstMention(cfg, seeds, path[0]).Some? && path[|path| - 1] == p && Linked(cfg, path);
    ClosedAlong(cfg, known, path, |path| - 1);
  }

  // Nobody gossips the placeholder: the parsers put the default port in place of port 0 (Wire.ParsedPeer).
  ghost predicate NoPlaceholder(cfg: Config) { forall p: Peer :: !Gossips(cfg, p, PLACEHOLDER) }

  // A network heard only through the parsers gossips only peers that can be written down, and never the placeholder.
  lemma HeardIsSpeakable(cfg: Config, onionHost: seq<byte> -> Option<string>, defaultPort: nat)
    requires 0 < defaultPort < 0x1_0000
    requires forall key :: onionHost(key).Some? ==> EndsWith(onionHost(key).value, ".onion")
    requires forall p: Peer, q: Peer :: Gossips(cfg, p, q) ==> Wire.Parsed(onionHost, defaultPort, q)
    ensures NoPlaceholder(cfg) && forall p: Peer, q: Peer :: Gossips(cfg, p, q) ==> WellFormed(q)
  {
    forall p: Peer, q: Peer | Gossips(cfg, p, q) ensures WellFormed(q) && q != PLACEHOLDER {
      Wire.ParsedPeer(onionHost, defaultPort, q);
    }
  }

  lemma PlaceholderIsSeed(cfg: Config, seeds: seq<Seed>)
    requires NoPlaceholder(cfg) && ReachableFrom(cfg, seeds, PLACEHOLDER)
    ensures FirstMention(cfg, seeds, PLACEHOLDER).Some?
  {
    var path :|
      path != [] && FirstMention(cfg, seeds, path[0]).Some? && path[|path| - 1] == PLACEHOLDER && Linked(cfg, path);
    if |path| > 1 { LinkedStep(cfg, path, |path| - 1); }
  }

  function RecordOf(nodes: map<Peer, NodeInfo>, p: Peer): Option<NodeInfo> {
    if p in nodes then Some(nodes[p]) else None
  }

  // The record is the one the network and the seeds determine, at the depth of some gossip path.
  ghost predicate Determined(cfg: Config, seeds: seq<Seed>, p: Peer, n: NodeInfo) {
    exists d: nat :: FoundAt(cfg, seeds, p, d) && n == RecordFor(cfg, seeds, p, d)
  }

  lemma DeterminedStored(cfg: Config, seeds: seq<Seed>, p: Peer, n: NodeInfo)
    requires Determined(cfg, seeds, p, n)
    ensures exists d: nat :: FoundAt(cfg, seeds, p, d) && Stored(cfg, seeds, p, d, n)
  {
    var d: nat :| FoundAt(cfg, seeds, p, d) && n == RecordFor(cfg, seeds, p, d);
    RecordForStored(cfg, seeds, p, d);
  }

  // ---- The first run, when it is calm ----

  // No thread has gossip yet to look at, and none has a peer in hand or found and not pushed.
  ghost predicate Calm(t: State) {
    && (forall i | 0 <= i < |t.threads| :: !t.threads[i].phase.Expanding?)
    && forall p: Peer :: !Carried(t, p)
  }

  // A standstill is calm.
  lemma StandstillIsCalm(t: State)
    requires t.active == 0 == Total(BusyCount, t.threads)
    ensures Calm(t)
  {
    forall i | 0 <= i < |t.threads| ensures !t.threads[i].phase.Expanding? { TotalAtLeast(BusyCount, t.threads, i); }
    forall p: Peer { NobodyCarries(t, p); }
  }

  // What a first run leaves of one peer: queued, with what was known of it beforehand; or recorded for good, its gossip
  // all seen and followed once if it answered; or never seen.
  ghost predicate Left(cfg: Config, seeds: seq<Seed>, t: State, p: Peer) {
    && (FirstMention(cfg, seeds, p).Some? || Queued(t, p) || p in t.nodes ==> p in t.seen)
    && (forall d: nat | Task(p, d) in t.clearnet || Task(p, d) in t.onion :: FoundAt(cfg, seeds, p, d))
    && (Queued(t, p) ==> RecordOf(t.nodes, p) == KnownBefore(cfg, seeds, p))
    && (p in t.seen && !Queued(t, p) ==> p in t.nodes && Determined(cfg, seeds, p, t.nodes[p]))
    && (p in t.seen && !Queued(t, p) ==> forall q | Gossips(cfg, p, q) :: q in t.seen)
    && Total(Is(p), t.expanded) == if p in t.seen && !Queued(t, p) && cfg.probe(p).Some? then 1 else 0
  }

  ghost predicate Checkpoint(text: AddrText, cfg: Config, seeds: seq<Seed>, t: State) {
    && Textual(text, t) && Routed(cfg, t) && Conserved({}, t)
    && t.edges == AllEdges(cfg, t.expanded)
    && forall p: Peer :: Left(cfg, seeds, t, p)
  }

  // A first run without limits, over a network that gossips only peers the parsers build.
  ghost predicate FirstRun(text: AddrText, cfg: Config, pool: seq<Thread>, seeds: seq<Seed>, schedule: seq<Event>) {
    var s := PlantSeeds(cfg, Blank(pool), seeds);
    && cfg.maxDepth == 0 && cfg.maxNodes == 0
    && Speakable(text, cfg, s) && NoPlaceholder(cfg)
    && Follows(cfg, s, schedule) && Calm(After(cfg, s, schedule))
  }

  // All that is known of a calm state t of an unlimited run from s.
  ghost predicate Still(cfg: Config, s: State, t: State) {
    && cfg.maxDepth == 0 && cfg.maxNodes == 0
    && Conserved({}, t) && Calm(t)
    && Sourced(cfg, s.clearnet + s.onion, t)
    && Recorded(cfg, s.nodes, t) && Followed(cfg, s.edges, t)
    && s.seen <= t.seen && s.nodes.Keys <= s.seen
  }

  // Everybody seen is queued or settled.
  lemma StillPlaces(t: State, p: Peer)
    requires Conserved({}, t) && Calm(t)
    ensures QueuedCount(t, p) + Total(SettledAs(p), t.settled) == if p in t.seen then 1 else 0
  {
    assert !Carried(t, p);
    TotalZero(Holds(p), t.threads);
    assert Places(t, p) == QueuedCount(t, p) + Total(SettledAs(p), t.settled);
  }

  // Gossip is followed of exactly the settled peers that answered.
  lemma StillExpanded(cfg: Config, s: State, t: State, p: Peer)
    requires Still(cfg, s, t)
    ensures Total(Is(p), t.expanded) == if cfg.probe(p).Some? then Total(SettledAs(p), t.settled) else 0
  {
    TotalZero(ExpandingAs(p), t.threads);
    assert Due(cfg, t, p);
    ExpandCount(cfg, t.settled, p);
  }

  lemma ExpandCount(cfg: Config, settled: seq<Settled>, p: Peer)
    requires cfg.maxDepth == 0 && forall x | x in settled :: !x.dropped
    ensures Total(ToExpand(cfg, p), settled) == if cfg.probe(p).Some? then Total(SettledAs(p), settled) else 0
  {
    if cfg.probe(p).Some? {
      forall i | 0 <= i < |settled| ensures ToExpand(cfg, p)(settled[i]) == SettledAs(p)(settled[i]) {
        assert settled[i] in settled;
      }
      TotalMatch(ToExpand(cfg, p), settled, SettledAs(p), settled);
    } else {
      TotalZero(ToExpand(cfg, p), settled);
    }
  }

  lemma QueuedLeft(cfg: Config, pool: seq<Thread>, seeds: seq<Seed>, t: State, p: Peer)
    requires Still(cfg, PlantSeeds(cfg, Blank(pool), seeds), t)
    ensures forall d: nat | Task(p, d) in t.clearnet || Task(p, d) in t.onion :: FoundAt(cfg, seeds, p, d)
    ensures Queued(t, p) ==> p in t.seen && RecordOf(t.nodes, p) == KnownBefore(cfg, seeds, p)
  {
    var s := PlantSeeds(cfg, Blank(pool), seeds);
    forall d: nat | Task(p, d) in t.clearnet || Task(p, d) in t.onion ensures FoundAt(cfg, seeds, p, d) {
      RootedFromSeeds(cfg, pool, seeds, Task(p, d));
    }
    if Queued(t, p) {
      QueuedIff(t, p);
      StillPlaces(t, p);
      SettledCount(t, p);
      assert !Concluded(t, p);
      assert Agree(t.nodes, s.nodes, p);
      Planted(cfg, pool, seeds);
    }
  }

  lemma SettledLeft(cfg: Config, pool: seq<Thread>, seeds: seq<Seed>, t: State, p: Peer)
    requires Still(cfg, PlantSeeds(cfg, Blank(pool), seeds), t) && p in t.seen && !Queued(t, p)
    ensures p in t.nodes && Determined(cfg, seeds, p, t.nodes[p])
    ensures forall q | Gossips(cfg, p, q) :: q in t.seen
  {
    var s := PlantSeeds(cfg, Blank(pool), seeds);
    QueuedIff(t, p);
    StillPlaces(t, p);
    SettledCount(t, p);
    var x :| x in t.settled && x.task.peer == p;
    RootedFromSeeds(cfg, pool, seeds, x.task);
    FinalIs(cfg, pool, seeds, x.task);
    StillExpanded(cfg, s, t, p);
    if cfg.probe(p).Some? {
      var j := SomewhereIn(Is(p), t.expanded);
      assert t.expanded[j] == p;
    }
  }

  lemma PeerLeft(cfg: Config, pool: seq<Thread>, seeds: seq<Seed>, t: State, p: Peer)
    requires Still(cfg, PlantSeeds(cfg, Blank(pool), seeds), t)
    ensures Left(cfg, seeds, t, p)
  {
    var s := PlantSeeds(cfg, Blank(pool), seeds);
    Planted(cfg, pool, seeds);
    QueuedLeft(cfg, pool, seeds, t, p);
    QueuedIff(t, p);
    StillPlaces(t, p);
    StillExpanded(cfg, s, t, p);
    NodesSeen(cfg, {}, s, t, p);
    if p in t.seen && !Queued(t, p) { SettledLeft(cfg, pool, seeds, t, p); }
  }

  lemma FirstCheckpoint(text: AddrText, cfg: Config, pool: seq<Thread>, seeds: seq<Seed>, schedule: seq<Event>)
    requires FirstRun(text, cfg, pool, seeds, schedule)
    requires var s := PlantSeeds(cfg, Blank(pool), seeds); Begin(cfg, s) && Distinct({}, s)
    ensures Checkpoint(text, cfg, seeds, After(cfg, PlantSeeds(cfg, Blank(pool), seeds), schedule))
  {
    var s := PlantSeeds(cfg, Blank(pool), seeds);
    var t := After(cfg, s, schedule);
    Everywhere(cfg, {}, s, schedule);
    Always(cfg, s, schedule);
    RunTextual(text, cfg, {}, s, schedule);
    SeenStays(cfg, s, schedule);
    Planted(cfg, pool, seeds);
    assert Still(cfg, s, t);
    forall p: Peer ensures Left(cfg, seeds, t, p) { PeerLeft(cfg, pool, seeds, t, p); }
    assert s.edges + AllEdges(cfg, t.expanded) == AllEdges(cfg, t.expanded);
  }

  // ---- The second start ----

  // The state resumed from a checkpoint, before the seeds.
  ghost function Resumed(t: State, threads: seq<Thread>): State {
    State(Filter(IsReal, t.clearnet), t.onion, 0,
          (t.nodes.Keys + (set k | k in t.clearnet + t.onion :: k.peer)) - {PLACEHOLDER},
          t.nodes - {PLACEHOLDER}, t.edges, threads, [], [])
  }

  lemma ResumedQueue(t: State, threads: seq<Thread>, p: Peer)
    requires OnStack(t.onion, true)
    ensures QueuedCount(Resumed(t, threads), p) == if p == PLACEHOLDER then 0 else QueuedCount(t, p)
    ensures Queued(Resumed(t, threads), p) <==> Queued(t, p) && p != PLACEHOLDER
  {
    RealNames(t.clearnet, p);
    if p == PLACEHOLDER { TotalZero(Names(p), t.onion); }
    QueuedIff(t, p);
    QueuedIff(Resumed(t, threads), p);
  }

  lemma ResumedSeen(t: State, threads: seq<Thread>, p: Peer)
    ensures p in Resumed(t, threads).seen <==> p != PLACEHOLDER && (p in t.nodes || Queued(t, p))
  {}

  // Resuming from a checkpoint makes a start whose tasks are distinct: nobody done is queued again.
  lemma ResumedDistinct(t: State, threads: seq<Thread>)
    requires Conserved({}, t) && OnStack(t.onion, true)
    requires forall i | 0 <= i < |threads| :: threads[i].phase == Ready
    ensures Distinct(Done(Resumed(t, threads)), Resumed(t, threads))
  {
    var r := Resumed(t, threads);
    forall p: Peer
      ensures Places(r, p) + (if p in Done(r) then 1 else 0) == if p in r.seen then 1 else 0
      ensures p in Done(r) ==> p in r.seen
    {
      ResumedQueue(t, threads, p);
      ResumedSeen(t, threads, p);
      TotalZero(Holds(p), threads);
      assert Places(r, p) == QueuedCount(r, p);
      assert QueuedCount(t, p) <= Places(t, p) <= 1;
      QueuedIff(r, p);
    }
  }

  // What planting the seeds onto a state makes of one peer.
  ghost predicate PlantedAt(cfg: Config, s: State, seeds: seq<Seed>, r: State, p: Peer) {
    var m := FirstMention(cfg, seeds, p);
    && (p in r.seen <==> p in s.seen || m.Some?)
    && (forall d: nat | Task(p, d) in r.clearnet || Task(p, d) in r.onion ::
          Task(p, d) in s.clearnet || Task(p, d) in s.onion || (m.Some? && m.value.depth == d))
    && RecordOf(r.nodes, p) == if p !in s.seen && m.Some? && m.value.known.Some? then m.value.known else RecordOf(s.nodes, p)
  }

  lemma {:induction false} PlantedOnto(cfg: Config, s: State, seeds: seq<Seed>, p: Peer)
    ensures var r := PlantSeeds(cfg, s, seeds);
      PlantedAt(cfg, s, seeds, r, p) && r.edges == s.edges
  {
    if seeds != [] { PlantedOnto(cfg, s, seeds[..|seeds| - 1], p); }
  }

  // ---- The second run ----

  ghost function SecondStart(cfg: Config, seeds: seq<Seed>, t: State, threads: seq<Thread>): State {
    PlantSeeds(cfg, Resumed(t, threads), seeds)
  }

  // What the end u of a second run from r says of one peer, `done` being those it took as done.
  ghost predicate Ends(cfg: Config, done: set<Peer>, r: State, u: State, p: Peer) {
    && (p in r.seen ==> p in u.seen)
    && (p in done ==> p in u.seen && RecordOf(u.nodes, p) == RecordOf(r.nodes, p))
    && (p in u.nodes ==> p in u.seen || p in r.nodes)
    && (p in u.seen && p !in done ==> exists d: nat ::
          && Rooted(cfg, r.clearnet + r.onion, Task(p, d))
          && RecordOf(u.nodes, p) == Some(Final(cfg, r.nodes, Task(p, d))))
    && (p in u.seen && p !in done ==> forall q | Gossips(cfg, p, q) :: q in u.seen)
    && Total(Is(p), u.expanded) == if p in u.seen && p !in done && cfg.probe(p).Some? then 1 else 0
  }

  ghost predicate SecondRun(cfg: Config, seeds: seq<Seed>, t: State, threads: seq<Thread>, u: State) {
    var r, done := SecondStart(cfg, seeds, t, threads), Done(Resumed(t, threads));
    && Conserved(done, u)
    && u.edges == t.edges + AllEdges(cfg, u.expanded)
    && forall p: Peer :: Ends(cfg, done, r, u, p)
  }

  lemma OverExpanded(cfg: Config, u: State, p: Peer)
    requires cfg.maxDepth == 0 && (forall x | x in u.settled :: !x.dropped) && Over(u) && Due(cfg, u, p)
    ensures Total(Is(p), u.expanded) == if cfg.probe(p).Some? then Total(SettledAs(p), u.settled) else 0
  {
    TotalZero(ExpandingAs(p), u.threads);
    ExpandCount(cfg, u.settled, p);
  }

  lemma OverPlaces(done: set<Peer>, u: State, p: Peer)
    requires Conserved(done, u) && Over(u) && u.clearnet == [] && u.onion == [] && done <= u.seen
    ensures Total(SettledAs(p), u.settled) == if p in u.seen && p !in done then 1 else 0
  {
    TotalZero(Holds(p), u.threads);
    assert Places(u, p) == Total(SettledAs(p), u.settled);
  }

  // All that is known of the end u of an unlimited run from r.
  ghost predicate RanOut(cfg: Config, done: set<Peer>, r: State, u: State) {
    && cfg.maxDepth == 0 && cfg.maxNodes == 0
    && Over(u) && u.Idle() && done <= r.seen <= u.seen
    && Conserved(done, u) && Sourced(cfg, r.clearnet + r.onion, u)
    && Recorded(cfg, r.nodes, u) && Followed(cfg, r.edges, u)
  }

  lemma EndsAt(cfg: Config, done: set<Peer>, r: State, u: State, p: Peer)
    requires RanOut(cfg, done, r, u)
    ensures Ends(cfg, done, r, u, p)
  {
    OverPlaces(done, u, p);
    OverExpanded(cfg, u, p);
    SettledCount(u, p);
    if p in u.seen && p !in done {
      ProbedEnds(cfg, done, r, u, p);
    } else {
      assert !Concluded(u, p);
      assert Agree(u.nodes, r.nodes, p);
    }
  }

  lemma ProbedEnds(cfg: Config, done: set<Peer>, r: State, u: State, p: Peer)
    requires RanOut(cfg, done, r, u) && p in u.seen && p !in done
    ensures exists d: nat ::
      && Rooted(cfg, r.clearnet + r.onion, Task(p, d))
      && RecordOf(u.nodes, p) == Some(Final(cfg, r.nodes, Task(p, d)))
    ensures forall q | Gossips(cfg, p, q) :: q in u.seen
  {
    OverPlaces(done, u, p);
    OverExpanded(cfg, u, p);
    SettledCount(u, p);
    var x :| x in u.settled && x.task.peer == p;
    assert Rooted(cfg, r.clearnet + r.onion, x.task) && x.task == Task(p, x.task.depth);
    if cfg.probe(p).Some? {
      var j := SomewhereIn(Is(p), u.expanded);
      assert u.expanded[j] == p;
    }
  }

  lemma OverIsIdle(cfg: Config, r: State, schedule: seq<Event>)
    requires Begin(cfg, r) && Follows(cfg, r, schedule) && Over(After(cfg, r, schedule))
    ensures After(cfg, r, schedule).Idle()
  {
    Always(cfg, r, schedule);
    ThreadsStay(cfg, r, schedule);
    var i :| 0 <= i < |r.threads| && !r.threads[i].onion;
    assert After(cfg, r, schedule).threads[i].phase.Exited?;
  }

  lemma SecondRunIs(cfg: Config, seeds: seq<Seed>, t: State, threads: seq<Thread>, schedule: seq<Event>)
    requires cfg.maxDepth == 0 && cfg.maxNodes == 0
    requires Conserved({}, t) && OnStack(t.onion, true)
    requires forall i | 0 <= i < |threads| :: threads[i].phase == Ready
    requires var r := SecondStart(cfg, seeds, t, threads);
      Begin(cfg, r) && Follows(cfg, r, schedule) && Over(After(cfg, r, schedule))
    ensures SecondRun(cfg, seeds, t, threads, After(cfg, SecondStart(cfg, seeds, t, threads), schedule))
  {
    var r, done := SecondStart(cfg, seeds, t, threads), Done(Resumed(t, threads));
    var u := After(cfg, r, schedule);
    ResumedDistinct(t, threads);
    SeedsDistinct(cfg, done, Resumed(t, threads), seeds);
    Everywhere(cfg, done, r, schedule);
    OverIsIdle(cfg, r, schedule);
    SeenStays(cfg, r, schedule);
    PlantedOnto(cfg, Resumed(t, threads), seeds, PLACEHOLDER);
    assert RanOut(cfg, done, r, u);
    forall p: Peer ensures Ends(cfg, done, r, u, p) { EndsAt(cfg, done, r, u, p); }
  }

  // ---- Both runs together ----

  lemma RootFound(text: AddrText, cfg: Config, seeds: seq<Seed>, t: State, threads: seq<Thread>, k: Task)
    requires Checkpoint(text, cfg, seeds, t)
    requires var r := SecondStart(cfg, seeds, t, threads); k in r.clearnet || k in r.onion
    ensures FoundAt(cfg, seeds, k.peer, k.depth)
  {
    var s := Resumed(t, threads);
    PlantedOnto(cfg, s, seeds, k.peer);
    assert k == Task(k.peer, k.depth);
    if k in s.clearnet || k in s.onion {
      FilterIn(IsReal, t.clearnet);
      assert Left(cfg, seeds, t, k.peer);
    } else {
      SeedFound(cfg, seeds, k.peer);
    }
  }

  // What was known of a peer the second run probed is what was known of it at the outset.
  lemma KnownAgain(text: AddrText, cfg: Config, seeds: seq<Seed>, t: State, threads: seq<Thread>, p: Peer)
    requires Checkpoint(text, cfg, seeds, t) && p !in Done(Resumed(t, threads))
    ensures RecordOf(SecondStart(cfg, seeds, t, threads).nodes, p) == KnownBefore(cfg, seeds, p)
  {
    PlantedOnto(cfg, Resumed(t, threads), seeds, p);
    ResumedQueue(t, threads, p);
    ResumedSeen(t, threads, p);
    assert Left(cfg, seeds, t, p);
  }

  // What the first run recorded for good is still what the second starts with.
  lemma DoneFirst(text: AddrText, cfg: Config, seeds: seq<Seed>, t: State, threads: seq<Thread>, p: Peer)
    requires Checkpoint(text, cfg, seeds, t) && p in Done(Resumed(t, threads))
    ensures var r := SecondStart(cfg, seeds, t, threads);
      p in r.nodes && Determined(cfg, seeds, p, r.nodes[p])
  {
    DoneAt(t, threads, p);
    SeenKept(cfg, Resumed(t, threads), seeds, p);
    LeftForGood(cfg, seeds, t, p);
  }

  lemma SeenKept(cfg: Config, s: State, seeds: seq<Seed>, p: Peer)
    requires p in s.seen
    ensures RecordOf(PlantSeeds(cfg, s, seeds).nodes, p) == RecordOf(s.nodes, p)
  {
    PlantedOnto(cfg, s, seeds, p);
  }

  lemma LeftForGood(cfg: Config, seeds: seq<Seed>, t: State, p: Peer)
    requires Left(cfg, seeds, t, p) && p in t.nodes && !Queued(t, p)
    ensures Determined(cfg, seeds, p, t.nodes[p])
  {}

  lemma DoneAt(t: State, threads: seq<Thread>, p: Peer)
    requires OnStack(t.onion, true) && p in Done(Resumed(t, threads))
    ensures p in t.nodes && !Queued(t, p) && p in Resumed(t, threads).seen
    ensures RecordOf(Resumed(t, threads).nodes, p) == Some(t.nodes[p])
  {
    ResumedQueue(t, threads, p);
    ResumedSeen(t, threads, p);
  }

  // The record of each peer the second run sees is the one the network and the seeds determine.
  lemma SecondRecord(text: AddrText, cfg: Config, seeds: seq<Seed>, t: State, threads: seq<Thread>, u: State, p: Peer)
    requires Checkpoint(text, cfg, seeds, t) && SecondRun(cfg, seeds, t, threads, u) && p in u.seen
    ensures p in u.nodes && Determined(cfg, seeds, p, u.nodes[p])
  {
    var s, r := Resumed(t, threads), SecondStart(cfg, seeds, t, threads);
    assert Ends(cfg, Done(s), r, u, p);
    if p in Done(s) {
      DoneFirst(text, cfg, seeds, t, threads, p);
    } else {
      var d: nat :| Rooted(cfg, r.clearnet + r.onion, Task(p, d))
        && RecordOf(u.nodes, p) == Some(Final(cfg, r.nodes, Task(p, d)));
      ProbedSecond(text, cfg, seeds, t, threads, p, d);
    }
  }

  lemma ProbedSecond(text: AddrText, cfg: Config, seeds: seq<Seed>, t: State, threads: seq<Thread>, p: Peer, d: nat)
    requires Checkpoint(text, cfg, seeds, t) && p !in Done(Resumed(t, threads))
    requires var r := SecondStart(cfg, seeds, t, threads); Rooted(cfg, r.clearnet + r.onion, Task(p, d))
    ensures FoundAt(cfg, seeds, p, d)
    ensures Final(cfg, SecondStart(cfg, seeds, t, threads).nodes, Task(p, d)) == RecordFor(cfg, seeds, p, d)
  {
    var r := SecondStart(cfg, seeds, t, threads);
    forall root | root in r.clearnet + r.onion ensures FoundAt(cfg, seeds, root.peer, root.depth) {
      RootFound(text, cfg, seeds, t, threads, root);
    }
    RootedFound(cfg, seeds, r.clearnet + r.onion, Task(p, d));
    KnownAgain(text, cfg, seeds, t, threads, p);
  }

  // Everything the first run saw, except the placeholder, is seen by the second, and so is every seed.
  lemma SeenAgain(text: AddrText, cfg: Config, seeds: seq<Seed>, t: State, threads: seq<Thread>, u: State, p: Peer)
    requires Checkpoint(text, cfg, seeds, t) && SecondRun(cfg, seeds, t, threads, u)
    requires (p in t.seen && p != PLACEHOLDER) || FirstMention(cfg, seeds, p).Some?
    ensures p in u.seen
  {
    PlantedOnto(cfg, Resumed(t, threads), seeds, p);
    ResumedSeen(t, threads, p);
    assert Left(cfg, seeds, t, p);
    assert Ends(cfg, Done(Resumed(t, threads)), SecondStart(cfg, seeds, t, threads), u, p);
  }

  lemma SecondClosed(text: AddrText, cfg: Config, seeds: seq<Seed>, t: State, threads: seq<Thread>, u: State, p: Peer, q: Peer)
    requires Checkpoint(text, cfg, seeds, t) && SecondRun(cfg, seeds, t, threads, u) && NoPlaceholder(cfg)
    requires p in u.seen && Gossips(cfg, p, q)
    ensures q in u.seen
  {
    var s := Resumed(t, threads);
    assert Ends(cfg, Done(s), SecondStart(cfg, seeds, t, threads), u, p);
    if p in Done(s) {
      ResumedQueue(t, threads, p);
      assert Left(cfg, seeds, t, p);
      SeenAgain(text, cfg, seeds, t, threads, u, q);
    }
  }

  // The second run sees exactly what is reachable.
  lemma SecondSees(text: AddrText, cfg: Config, seeds: seq<Seed>, t: State, threads: seq<Thread>, u: State, p: Peer)
    requires Checkpoint(text, cfg, seeds, t) && SecondRun(cfg, seeds, t, threads, u) && NoPlaceholder(cfg)
    ensures p in u.seen <==> ReachableFrom(cfg, seeds, p)
  {
    if p in u.seen {
      SecondRecord(text, cfg, seeds, t, threads, u, p);
      var d: nat :| FoundAt(cfg, seeds, p, d);
      FoundReachable(cfg, seeds, p, d);
    }
    if ReachableFrom(cfg, seeds, p) {
      forall x, y | x in u.seen && Gossips(cfg, x, y) ensures y in u.seen {
        SecondClosed(text, cfg, seeds, t, threads, u, x, y);
      }
      forall q | FirstMention(cfg, seeds, q).Some? ensures q in u.seen { SeenAgain(text, cfg, seeds, t, threads, u, q); }
      AllReached(cfg, seeds, u.seen, p);
    }
  }

  lemma SecondNodes(text: AddrText, cfg: Config, seeds: seq<Seed>, t: State, threads: seq<Thread>, u: State, p: Peer)
    requires Checkpoint(text, cfg, seeds, t) && SecondRun(cfg, seeds, t, threads, u)
    ensures p in u.nodes <==> p in u.seen
    ensures p in u.nodes ==> Determined(cfg, seeds, p, u.nodes[p])
  {
    var s, r := Resumed(t, threads), SecondStart(cfg, seeds, t, threads);
    assert Ends(cfg, Done(s), r, u, p);
    PlantedOnto(cfg, s, seeds, p);
    ResumedSeen(t, threads, p);
    if p in u.seen { SecondRecord(text, cfg, seeds, t, threads, u, p); }
  }

  lemma {:induction false} InCount(peers: seq<Peer>, p: Peer)
    ensures p in peers <==> Total(Is(p), peers) > 0
  {
    if peers != [] {
      InCount(peers[..|peers| - 1], p);
      assert peers == peers[..|peers| - 1] + [peers[|peers| - 1]];
    }
  }

  // Gossip followed before the stop and after it: of those that answered, and twice of nobody but the placeholder.
  lemma BothExpanded(text: AddrText, cfg: Config, seeds: seq<Seed>, t: State, threads: seq<Thread>, u: State, p: Peer)
    requires Checkpoint(text, cfg, seeds, t) && SecondRun(cfg, seeds, t, threads, u) && NoPlaceholder(cfg)
    ensures p in t.expanded + u.expanded <==> p in u.seen && cfg.probe(p).Some?
    ensures p != PLACEHOLDER ==> Total(Is(p), t.expanded + u.expanded) <= 1
  {
    var s := Resumed(t, threads);
    TotalConcat(Is(p), t.expanded, u.expanded);
    InCount(t.expanded + u.expanded, p);
    assert Left(cfg, seeds, t, p);
    assert Ends(cfg, Done(s), SecondStart(cfg, seeds, t, threads), u, p);
    ResumedQueue(t, threads, p);
    if p in t.seen {
      if p == PLACEHOLDER { SeenReachable(text, cfg, seeds, t, p); PlaceholderIsSeed(cfg, seeds); }
      SeenAgain(text, cfg, seeds, t, threads, u, p);
    }
  }

  lemma SeenReachable(text: AddrText, cfg: Config, seeds: seq<Seed>, t: State, p: Peer)
    requires Checkpoint(text, cfg, seeds, t) && p in t.seen
    ensures ReachableFrom(cfg, seeds, p)
  {
    assert Left(cfg, seeds, t, p);
    if Queued(t, p) {
      var k :| (k in t.clearnet || k in t.onion) && k.peer == p;
      assert k == Task(p, k.depth);
      FoundReachable(cfg, seeds, p, k.depth);
    } else {
      var d: nat :| FoundAt(cfg, seeds, p, d);
      FoundReachable(cfg, seeds, p, d);
    }
  }

  // A peer probed before the stop is not probed again.
  lemma NotProbedTwice(t: State, threads: seq<Thread>, u: State, x: Settled, y: Settled)
    requires Conserved({}, t) && OnStack(t.onion, true) && Conserved(Done(Resumed(t, threads)), u)
    requires x in t.settled && x.task.peer in t.nodes && x.task.peer != PLACEHOLDER
    requires y in u.settled
    ensures x.task.peer != y.task.peer
  {
    var p := x.task.peer;
    SettledSeen(Done(Resumed(t, threads)), u, y);
    var k :| 0 <= k < |t.settled| && t.settled[k] == x;
    TotalAtLeast(SettledAs(p), t.settled, k);
    assert QueuedCount(t, p) + Total(SettledAs(p), t.settled) <= Places(t, p) <= 1;
    QueuedIff(t, p);
    ResumedQueue(t, threads, p);
  }

  // What two joined runs have found, the first ending in t and the second in u: everything one run finds. The peers
  // seen and the peers recorded are exactly those gossip reaches from the seeds, each with the record the network and
  // the seeds determine; the edges are the gossip of the peers that answered, in the order the two runs followed it;
  // and nobody's gossip was followed twice, and nobody probed twice, except the placeholder's.
  ghost predicate FoundAllTogether(cfg: Config, seeds: seq<Seed>, t: State, u: State) {
    && (forall p: Peer :: p in u.seen <==> ReachableFrom(cfg, seeds, p))
    && (forall p: Peer :: p in u.nodes <==> p in u.seen)
    && (forall p | p in u.nodes :: exists d: nat ::
          FoundAt(cfg, seeds, p, d) && Stored(cfg, seeds, p, d, u.nodes[p]))
    && u.edges == AllEdges(cfg, t.expanded + u.expanded)
    && (forall p: Peer :: p in t.expanded + u.expanded <==> p in u.seen && cfg.probe(p).Some?)
    && (forall p: Peer :: p != PLACEHOLDER ==> Total(Is(p), t.expanded + u.expanded) <= 1)
    && (forall x, y | x in t.settled && x.task.peer != PLACEHOLDER && y in u.settled :: x.task.peer != y.task.peer)
  }

  lemma {:induction false} AllEdgesConcat(cfg: Config, first: seq<Peer>, second: seq<Peer>)
    ensures AllEdges(cfg, first + second) == AllEdges(cfg, first) + AllEdges(cfg, second)
  {
    if second == [] {
      assert first + second == first;
    } else {
      var front, p := second[..|second| - 1], second[|second| - 1];
      AllEdgesConcat(cfg, first, front);
      LastOfConcat(first, second);
      AllEdgesLast(cfg, first + second, first + front, p);
      AllEdgesLast(cfg, second, front, p);
      Extend(AllEdges(cfg, first + second), AllEdges(cfg, first + front), AllEdges(cfg, first), AllEdges(cfg, second),
             AllEdges(cfg, front), EdgesFrom(cfg, p));
    }
  }

  lemma Extend<T>(all: seq<T>, most: seq<T>, first: seq<T>, second: seq<T>, front: seq<T>, last: seq<T>)
    requires all == most + last && most == first + front && second == front + last
    ensures all == first + second
  {}

  lemma AllEdgesLast(cfg: Config, expanded: seq<Peer>, front: seq<Peer>, p: Peer)
    requires expanded == front + [p]
    ensures AllEdges(cfg, expanded) == AllEdges(cfg, front) + EdgesFrom(cfg, p)
  {
    assert expanded[..|front|] == front;
  }

  lemma Together(text: AddrText, cfg: Config, seeds: seq<Seed>, t: State, threads: seq<Thread>, u: State)
    requires Checkpoint(text, cfg, seeds, t) && SecondRun(cfg, seeds, t, threads, u) && NoPlaceholder(cfg)
    requires forall x | x in t.settled :: x.task.peer in t.nodes
    ensures FoundAllTogether(cfg, seeds, t, u)
  {
    forall p: Peer ensures p in u.seen <==> ReachableFrom(cfg, seeds, p) {
      SecondSees(text, cfg, seeds, t, threads, u, p);
    }
    forall p: Peer
      ensures p in u.nodes <==> p in u.seen
      ensures p in u.nodes ==> exists d: nat :: FoundAt(cfg, seeds, p, d) && Stored(cfg, seeds, p, d, u.nodes[p])
    {
      SecondNodes(text, cfg, seeds, t, threads, u, p);
      if p in u.nodes { DeterminedStored(cfg, seeds, p, u.nodes[p]); }
    }
    forall p: Peer
      ensures p in t.expanded + u.expanded <==> p in u.seen && cfg.probe(p).Some?
      ensures p != PLACEHOLDER ==> Total(Is(p), t.expanded + u.expanded) <= 1
    {
      BothExpanded(text, cfg, seeds, t, threads, u, p);
    }
    AllEdgesConcat(cfg, t.expanded, u.expanded);
    forall x, y | x in t.settled && x.task.peer != PLACEHOLDER && y in u.settled
      ensures x.task.peer != y.task.peer
    {
      NotProbedTwice(t, threads, u, x, y);
    }
  }

  // An unlimited crawl saved whenever it is calm, at any standstill for one, and resumed from that file with the same
  // seeds finds what one run finds, under any two schedules.
  lemma ResumeFindsAll(text: AddrText, port: nat, cfg: Config, threads: nat, torThreads: nat, seeds: seq<Seed>,
                       first: seq<Event>, order: seq<Peer>, second: seq<Event>)
    requires FirstRun(text, cfg, Pool(cfg, threads, torThreads), seeds, first)
    requires var t := After(cfg, Start(text, port, cfg, threads, torThreads, None, seeds), first);
      && Lists(order, t.nodes)
      && var r := Start(text, port, cfg, threads, torThreads, Some(Save(text, t, order)), seeds);
         Follows(cfg, r, second) && Over(After(cfg, r, second))
    ensures var t := After(cfg, Start(text, port, cfg, threads, torThreads, None, seeds), first);
      var u := After(cfg, Start(text, port, cfg, threads, torThreads, Some(Save(text, t, order)), seeds), second);
      FoundAllTogether(cfg, seeds, t, u)
  {
    var spawned := Pool(cfg, threads, torThreads);
    var s := PlantSeeds(cfg, Blank(spawned), seeds);
    var t := After(cfg, s, first);
    PoolReady(cfg, threads, torThreads);
    StartBegins(text, port, cfg, threads, torThreads, None, seeds);
    BlankDistinct(spawned);
    SeedsDistinct(cfg, {}, Blank(spawned), seeds);
    FirstCheckpoint(text, cfg, spawned, seeds, first);
    Everywhere(cfg, {}, s, first);
    StartBegins(text, port, cfg, threads, torThreads, Some(Save(text, t, order)), seeds);
    SaveThenResume(text, port, cfg, t, t, t, order, spawned);
    SecondRunIs(cfg, seeds, t, spawned, second);
    Together(text, cfg, seeds, t, spawned, After(cfg, SecondStart(cfg, seeds, t, spawned), second));
  }
}
