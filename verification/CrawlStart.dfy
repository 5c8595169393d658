// Where a crawl starts: the seeds, or a saved crawl and then the seeds. And what a fresh crawl without limits finds.
module CrawlStart {
  import opened Prelude
  import opened Peers
  import opened Crawl
  import opened CrawlProgress
  import opened CrawlConservation
  import opened CrawlOutcome

  function Start(text: AddrText, port: nat, cfg: Config, threads: nat, torThreads: nat,
                 saved: Option<Saved>, seeds: seq<Seed>): State
  {
    var blank := Blank(Pool(cfg, threads, torThreads));
    PlantSeeds(cfg, if saved.Some? then Resume(text, port, cfg, blank, saved.value) else blank, seeds)
  }

  // Before any thread is spawned: tasks are routed to their stacks and nothing else has happened.
  predicate Waiting(cfg: Config, threads: seq<Thread>, s: State) {
    && Routed(cfg, s) && s.threads == threads
    && s.active == 0 && s.settled == [] && s.expanded == []
  }

  // As many threads as asked for, at least one in a pool that exists, and an onion pool only with a proxy.
  lemma PoolSizes(cfg: Config, threads: nat, torThreads: nat)
    ensures var pool := Pool(cfg, threads, torThreads);
      var clearnet, onion := if threads > 0 then threads else 1, if torThreads > 0 then torThreads else 1;
      && |pool| == clearnet + (if cfg.onionEnabled then onion else 0)
      && forall i | 0 <= i < |pool| :: pool[i] == Thread(i >= clearnet, Ready)
  {}

  lemma PoolReady(cfg: Config, threads: nat, torThreads: nat)
    ensures var pool := Pool(cfg, threads, torThreads);
      && (forall i | 0 <= i < |pool| :: pool[i].phase == Ready)
      && (exists i :: 0 <= i < |pool| && !pool[i].onion)
      && (cfg.onionEnabled ==> exists i :: 0 <= i < |pool| && pool[i].onion)
  {
    var pool := Pool(cfg, threads, torThreads);
    assert !pool[0].onion;
    if cfg.onionEnabled { assert pool[|pool| - 1].onion; }
  }

  lemma PushRouted(cfg: Config, threads: seq<Thread>, s: State, t: Task)
    requires Waiting(cfg, threads, s) && cfg.Allowed(t.peer)
    ensures Waiting(cfg, threads, Push(s, t))
  {
    assert forall i | 0 <= i < |s.threads| :: PhaseRouted(cfg, s.threads[i].phase);
  }

  lemma {:induction false} SeedsWait(cfg: Config, threads: seq<Thread>, s: State, seeds: seq<Seed>)
    requires Waiting(cfg, threads, s)
    ensures Waiting(cfg, threads, PlantSeeds(cfg, s, seeds))
  {
    if seeds != [] {
      var before := PlantSeeds(cfg, s, seeds[..|seeds| - 1]);
      SeedsWait(cfg, threads, s, seeds[..|seeds| - 1]);
      var Seed(p, depth, known) := seeds[|seeds| - 1];
      if cfg.Allowed(p) && p !in before.seen {
        PushRouted(cfg, threads,
                   before.(seen := before.seen + {p},
                           nodes := if known.Some? then before.nodes[p := known.value] else before.nodes),
                   Task(p, depth));
      }
    }
  }

  lemma {:induction false} NodesWait(text: AddrText, port: nat, cfg: Config, threads: seq<Thread>, s: State, nodes: seq<NodeInfo>)
    requires Waiting(cfg, threads, s)
    ensures var t := RestoreNodes(text, port, s, nodes);
      Waiting(cfg, threads, t) && t.clearnet == s.clearnet && t.onion == s.onion
  {
    if nodes != [] {
      NodesWait(text, port, cfg, threads, s, nodes[..|nodes| - 1]);
    }
  }

  lemma {:induction false} FrontierWaits(text: AddrText, port: nat, cfg: Config, threads: seq<Thread>, s: State,
                                         frontier: seq<(string, nat)>)
    requires Waiting(cfg, threads, s)
    ensures Waiting(cfg, threads, RestoreFrontier(text, port, cfg, s, frontier))
  {
    if frontier != [] {
      FrontierWaits(text, port, cfg, threads, s, frontier[..|frontier| - 1]);
      var before := RestoreFrontier(text, port, cfg, s, frontier[..|frontier| - 1]);
      var (a, depth) := frontier[|frontier| - 1];
      match Parse(text, a, port) {
        case Some(p) =>
          if cfg.Allowed(p) {
            PushRouted(cfg, threads, before.(seen := before.seen + {p}), Task(p, depth));
          }
        case None =>
      }
    }
  }

  // However a crawl starts, fresh or from any saved file, no thread has begun and every task is on its stack: what is
  // proved of every start about progress, the end and the node cap holds of it. What is proved of distinct tasks holds
  // of it exactly when the file has no peer pending twice (FileIsDistinct).
  lemma StartBegins(text: AddrText, port: nat, cfg: Config, threads: nat, torThreads: nat,
                    saved: Option<Saved>, seeds: seq<Seed>)
    ensures Begin(cfg, Start(text, port, cfg, threads, torThreads, saved, seeds))
  {
    var pool := Pool(cfg, threads, torThreads);
    PoolReady(cfg, threads, torThreads);
    var s := Blank(pool);
    assert Waiting(cfg, pool, s);
    if saved.Some? {
      NodesWait(text, port, cfg, pool, s, saved.value.nodes);
      FrontierWaits(text, port, cfg, pool, RestoreNodes(text, port, s, saved.value.nodes), saved.value.frontier);
      s := Resume(text, port, cfg, s, saved.value);
    }
    SeedsWait(cfg, pool, s, seeds);
  }

  // ---- Seeding ----

  // The seed a peer is queued for: the first allowed one naming it.
  function FirstMention(cfg: Config, seeds: seq<Seed>, p: Peer): Option<Seed> {
    if seeds == [] then None
    else
      var earlier := FirstMention(cfg, seeds[..|seeds| - 1], p);
      var last := seeds[|seeds| - 1];
      if earlier.Some? then earlier
      else if last.peer == p && Crawlable(cfg, p) then Some(last)
      else None
  }

  lemma PlacesPush(s: State, t: Task, p: Peer)
    ensures Places(Push(s, t), p) == Places(s, p) + Names(p)(t)
  {
    TotalPush(Names(p), s.clearnet, t);
    TotalPush(Names(p), s.onion, t);
  }

  // Seeding keeps tasks distinct.
  lemma {:induction false} SeedsDistinct(cfg: Config, base: set<Peer>, s: State, seeds: seq<Seed>)
    requires Distinct(base, s)
    ensures Distinct(base, PlantSeeds(cfg, s, seeds))
  {
    if seeds != [] {
      SeedsDistinct(cfg, base, s, seeds[..|seeds| - 1]);
      SeedDistinct(cfg, base, PlantSeeds(cfg, s, seeds[..|seeds| - 1]), seeds[|seeds| - 1]);
    }
  }

  lemma SeedDistinct(cfg: Config, base: set<Peer>, s: State, seed: Seed)
    requires Distinct(base, s)
    ensures Distinct(base, PlantSeed(cfg, s, seed))
  {
    var Seed(q, depth, known) := seed;
    var marked := s.(seen := s.seen + {q}, nodes := if known.Some? then s.nodes[q := known.value] else s.nodes);
    forall p: Peer ensures Places(Push(marked, Task(q, depth)), p) == Places(s, p) + Is(q)(p) {
      PlacesPush(marked, Task(q, depth), p);
      assert Places(marked, p) == Places(s, p);
    }
  }

  // ---- Files ----

  // The peers a file has pending, those that may not be crawled or cannot be read left out.
  function Pending(text: AddrText, port: nat, cfg: Config, frontier: seq<(string, nat)>): seq<Peer> {
    if frontier == [] then []
    else
      var front := Pending(text, port, cfg, frontier[..|frontier| - 1]);
      var (a, _) := frontier[|frontier| - 1];
      match Parse(text, a, port)
      case Some(p) => if Crawlable(cfg, p) then front + [p] else front
      case None => front
  }

  predicate AllDifferent(peers: seq<Peer>) { forall i, j | 0 <= i < j < |peers| :: peers[i] != peers[j] }

  lemma {:induction false} DifferentOnce(peers: seq<Peer>, p: Peer)
    requires AllDifferent(peers)
    ensures Total(Is(p), peers) == if p in peers then 1 else 0
  {
    if peers != [] {
      var front, last := peers[..|peers| - 1], peers[|peers| - 1];
      DifferentOnce(front, p);
      assert peers == front + [last];
    }
  }

  lemma OnceDifferent(peers: seq<Peer>)
    requires forall p: Peer :: Total(Is(p), peers) <= 1
    ensures AllDifferent(peers)
  {
    forall i, j | 0 <= i < j < |peers| ensures peers[i] != peers[j] { TotalPair(Is(peers[i]), peers, i, j); }
  }

  // These peers were queued, and nothing else was done.
  ghost predicate QueuedUp(s: State, r: State, pending: seq<Peer>, p: Peer) {
    && r.nodes == s.nodes && r.threads == s.threads && r.settled == s.settled
    && QueuedCount(r, p) == QueuedCount(s, p) + Total(Is(p), pending)
    && (p in r.seen <==> p in s.seen || p in pending)
  }

  lemma QueuedOneMore(s: State, r: State, pending: seq<Peer>, q: Peer, depth: nat, p: Peer)
    requires QueuedUp(s, r, pending, p)
    ensures QueuedUp(s, Push(r.(seen := r.seen + {q}), Task(q, depth)), pending + [q], p)
  {
    PushQueued(r.(seen := r.seen + {q}), Task(q, depth), p);
    TotalPush(Is(p), pending, q);
  }

  lemma {:induction false} FrontierQueued(text: AddrText, port: nat, cfg: Config, s: State, frontier: seq<(string, nat)>,
                                          p: Peer)
    ensures QueuedUp(s, RestoreFrontier(text, port, cfg, s, frontier), Pending(text, port, cfg, frontier), p)
  {
    if frontier != [] {
      var front := frontier[..|frontier| - 1];
      var (a, depth) := frontier[|frontier| - 1];
      FrontierQueued(text, port, cfg, s, front, p);
      match Parse(text, a, port) {
        case Some(q) =>
          if cfg.Allowed(q) {
            QueuedOneMore(s, RestoreFrontier(text, port, cfg, s, front), Pending(text, port, cfg, front), q, depth, p);
          }
        case None =>
      }
    }
  }

  lemma PushQueued(s: State, t: Task, p: Peer)
    ensures QueuedCount(Push(s, t), p) == QueuedCount(s, p) + Names(p)(t)
  {
    TotalPush(Names(p), s.clearnet, t);
    TotalPush(Names(p), s.onion, t);
  }

  lemma {:induction false} NodesRestoredSeen(text: AddrText, port: nat, s: State, nodes: seq<NodeInfo>)
    requires s.seen == s.nodes.Keys
    ensures var r := RestoreNodes(text, port, s, nodes);
      r == s.(nodes := r.nodes, seen := r.nodes.Keys)
  {
    if nodes != [] { NodesRestoredSeen(text, port, s, nodes[..|nodes| - 1]); }
  }

  // What resuming from a file makes of one peer.
  lemma ResumedAt(text: AddrText, port: nat, cfg: Config, threads: seq<Thread>, saved: Saved, p: Peer)
    requires forall i | 0 <= i < |threads| :: threads[i].phase == Ready
    ensures var r := Resume(text, port, cfg, Blank(threads), saved);
      var pending := Pending(text, port, cfg, saved.frontier);
      && Places(r, p) == QueuedCount(r, p) == Total(Is(p), pending)
      && (p in r.seen <==> p in r.nodes || p in pending)
  {
    NodesRestoredSeen(text, port, Blank(threads), saved.nodes);
    FrontierQueued(text, port, cfg, RestoreNodes(text, port, Blank(threads), saved.nodes), saved.frontier, p);
    TotalZero(Holds(p), threads);
  }

  lemma {:induction false} QueuedStays(cfg: Config, s: State, seeds: seq<Seed>, p: Peer)
    ensures Places(PlantSeeds(cfg, s, seeds), p) >= Places(s, p)
  {
    if seeds != [] {
      QueuedStays(cfg, s, seeds[..|seeds| - 1], p);
      var before := PlantSeeds(cfg, s, seeds[..|seeds| - 1]);
      var Seed(q, depth, known) := seeds[|seeds| - 1];
      PlacesPush(before.(seen := before.seen + {q},
                         nodes := if known.Some? then before.nodes[q := known.value] else before.nodes),
                 Task(q, depth), p);
    }
  }

  lemma DifferentIsDistinct(text: AddrText, port: nat, cfg: Config, threads: seq<Thread>, saved: Saved)
    requires forall i | 0 <= i < |threads| :: threads[i].phase == Ready
    requires AllDifferent(Pending(text, port, cfg, saved.frontier))
    ensures var r := Resume(text, port, cfg, Blank(threads), saved); Distinct(Done(r), r)
  {
    var r, pending := Resume(text, port, cfg, Blank(threads), saved), Pending(text, port, cfg, saved.frontier);
    forall p: Peer
      ensures Places(r, p) + (if p in Done(r) then 1 else 0) == if p in r.seen then 1 else 0
      ensures p in Done(r) ==> p in r.seen
    {
      ResumedAt(text, port, cfg, threads, saved, p);
      DifferentOnce(pending, p);
      QueuedIff(r, p);
    }
  }

  lemma TwiceIsNotDistinct(text: AddrText, port: nat, cfg: Config, threads: seq<Thread>, saved: Saved, seeds: seq<Seed>,
                           base: set<Peer>)
    requires forall i | 0 <= i < |threads| :: threads[i].phase == Ready
    requires !AllDifferent(Pending(text, port, cfg, saved.frontier))
    ensures !Distinct(base, PlantSeeds(cfg, Resume(text, port, cfg, Blank(threads), saved), seeds))
  {
    var r, pending := Resume(text, port, cfg, Blank(threads), saved), Pending(text, port, cfg, saved.frontier);
    var i, j :| 0 <= i < j < |pending| && pending[i] == pending[j];
    var p := pending[i];
    TotalPair(Is(p), pending, i, j);
    ResumedAt(text, port, cfg, threads, saved, p);
    QueuedStays(cfg, r, seeds, p);
    assert Places(PlantSeeds(cfg, r, seeds), p) >= 2;
  }

  // A crawl resumed from a file has distinct tasks if and only if the file's pending peers are all different; the
  // peers it takes as done are then those recorded and not pending.
  lemma FileIsDistinct(text: AddrText, port: nat, cfg: Config, threads: nat, torThreads: nat, saved: Saved, seeds: seq<Seed>)
    ensures var s := Start(text, port, cfg, threads, torThreads, Some(saved), seeds);
      var r := Resume(text, port, cfg, Blank(Pool(cfg, threads, torThreads)), saved);
      && (AllDifferent(Pending(text, port, cfg, saved.frontier)) <==> exists base :: Distinct(base, s))
      && (AllDifferent(Pending(text, port, cfg, saved.frontier)) ==> Distinct(Done(r), s))
  {
    var pool := Pool(cfg, threads, torThreads);
    var s := Start(text, port, cfg, threads, torThreads, Some(saved), seeds);
    var r := Resume(text, port, cfg, Blank(pool), saved);
    PoolReady(cfg, threads, torThreads);
    if AllDifferent(Pending(text, port, cfg, saved.frontier)) {
      DifferentIsDistinct(text, port, cfg, pool, saved);
      SeedsDistinct(cfg, Done(r), r, seeds);
      assert Distinct(Done(r), s);
    } else {
      forall base: set<Peer> ensures !Distinct(base, s) {
        TwiceIsNotDistinct(text, port, cfg, pool, saved, seeds, base);
      }
    }
  }

  // From nothing, seeding queues exactly the first mentions, and records what was known of them.
  lemma {:induction false} Planted(cfg: Config, threads: seq<Thread>, seeds: seq<Seed>)
    ensures var s := PlantSeeds(cfg, Blank(threads), seeds);
      && s.edges == []
      && forall p: Peer :: var m := FirstMention(cfg, seeds, p);
           && (p in s.seen <==> m.Some?)
           && (p in s.nodes <==> m.Some? && m.value.known.Some?)
           && (p in s.nodes ==> s.nodes[p] == m.value.known.value)
           && (forall d: nat :: Task(p, d) in s.clearnet || Task(p, d) in s.onion <==> m.Some? && m.value.depth == d)
  {
    if seeds != [] {
      Planted(cfg, threads, seeds[..|seeds| - 1]);
    }
  }

  lemma BlankDistinct(threads: seq<Thread>)
    requires forall i | 0 <= i < |threads| :: threads[i].phase == Ready
    ensures Distinct({}, Blank(threads))
  {
    forall p: Peer { TotalZero(Holds(p), threads); }
  }

  // ---- The main result on a fresh crawl ----

  // Gossip leads from an allowed seed to p.
  ghost predicate ReachableFrom(cfg: Config, seeds: seq<Seed>, p: Peer) {
    exists path: seq<Peer> ::
      path != [] && FirstMention(cfg, seeds, path[0]).Some? && path[|path| - 1] == p && Linked(cfg, path)
  }

  // Gossip leads from a seed to p in d steps more than the seed's depth.
  ghost predicate FoundAt(cfg: Config, seeds: seq<Seed>, p: Peer, d: nat) {
    exists path: seq<Peer> ::
      && path != [] && path[|path| - 1] == p && Linked(cfg, path)
      && FirstMention(cfg, seeds, path[0]).Some?
      && FirstMention(cfg, seeds, path[0]).value.depth + |path| - 1 == d
  }

  function KnownBefore(cfg: Config, seeds: seq<Seed>, p: Peer): Option<NodeInfo> {
    match FirstMention(cfg, seeds, p)
    case Some(m) => m.known
    case None => None
  }

  // What the network and the seeds determine of the record of p, found at depth d.
  function RecordFor(cfg: Config, seeds: seq<Seed>, p: Peer, d: nat): NodeInfo {
    match cfg.probe(p)
    case Some(a) => Record(cfg, Task(p, d), a)
    case None =>
      match KnownBefore(cfg, seeds, p)
      case Some(info) => info
      case None => Stub(cfg, Task(p, d))
  }

  // The same field by field, whatever builds the records.
  predicate Stored(cfg: Config, seeds: seq<Seed>, p: Peer, d: nat, n: NodeInfo) {
    match cfg.probe(p)
    case Some(a) => AnswerStored(cfg, p, d, a, n)
    case None =>
      match KnownBefore(cfg, seeds, p)
      case Some(info) => n == info
      case None => FailureStored(cfg, p, d, n)
  }

  lemma RecordForStored(cfg: Config, seeds: seq<Seed>, p: Peer, d: nat)
    ensures Stored(cfg, seeds, p, d, RecordFor(cfg, seeds, p, d))
  {}

  lemma {:induction false} SeenAlongPath(cfg: Config, t: State, path: seq<Peer>, k: nat)
    requires k < |path| && Linked(cfg, path) && path[0] in t.seen
    requires forall p, q | p in t.seen && Gossips(cfg, p, q) :: q in t.seen
    ensures path[k] in t.seen
  {
    if k > 0 {
      SeenAlongPath(cfg, t, path, k - 1);
      assert Gossips(cfg, path[k - 1], path[k]);
    }
  }

  lemma RootedFromSeeds(cfg: Config, threads: seq<Thread>, seeds: seq<Seed>, t: Task)
    requires var s := PlantSeeds(cfg, Blank(threads), seeds); Rooted(cfg, s.clearnet + s.onion, t)
    ensures FoundAt(cfg, seeds, t.peer, t.depth) && ReachableFrom(cfg, seeds, t.peer)
  {
    Planted(cfg, threads, seeds);
    var s := PlantSeeds(cfg, Blank(threads), seeds);
    var path :| Route(cfg, s.clearnet + s.onion, path, t);
    var root := Task(path[0], t.depth + 1 - |path|);
    assert root in s.clearnet || root in s.onion;
    assert FirstMention(cfg, seeds, path[0]).Some?;
  }

  lemma {:induction false} SeenStays(cfg: Config, s: State, schedule: seq<Event>)
    requires Follows(cfg, s, schedule)
    ensures s.seen <= After(cfg, s, schedule).seen
  {
    if schedule != [] {
      SeenStays(cfg, s, schedule[..|schedule| - 1]);
      SeenGrows(cfg, After(cfg, s, schedule[..|schedule| - 1]), schedule[|schedule| - 1]);
    }
  }

  lemma {:induction false} NodesStay(cfg: Config, s: State, schedule: seq<Event>)
    requires Follows(cfg, s, schedule)
    ensures s.nodes.Keys <= After(cfg, s, schedule).nodes.Keys
  {
    if schedule != [] {
      NodesStay(cfg, s, schedule[..|schedule| - 1]);
      NodesGrow(cfg, After(cfg, s, schedule[..|schedule| - 1]), schedule[|schedule| - 1]);
    }
  }

  // What is known of the end t of an unlimited crawl that began at s.
  ghost predicate Finished(cfg: Config, s: State, t: State) {
    && cfg.maxDepth == 0 && cfg.maxNodes == 0
    && Over(t) && s.seen <= t.seen
    && Conserved({}, t)
    && Sourced(cfg, s.clearnet + s.onion, t)
    && Recorded(cfg, s.nodes, t)
    && Followed(cfg, s.edges, t)
    && (forall p | p in t.seen :: exists x :: x in t.settled && x.task.peer == p)
    && (forall p, q | p in t.seen && Gossips(cfg, p, q) :: q in t.seen)
  }

  lemma CrawlFinished(cfg: Config, s: State, schedule: seq<Event>)
    requires cfg.maxDepth == 0 && cfg.maxNodes == 0
    requires Begin(cfg, s) && Distinct({}, s) && Follows(cfg, s, schedule) && Over(After(cfg, s, schedule))
    ensures Finished(cfg, s, After(cfg, s, schedule))
  {
    SeenStays(cfg, s, schedule);
    Everywhere(cfg, {}, s, schedule);
    WhenOver(cfg, {}, s, schedule);
  }

  // Nobody is settled who was not seen, or who was only restored.
  lemma SettledSeen(base: set<Peer>, s: State, x: Settled)
    requires Conserved(base, s) && x in s.settled
    ensures x.task.peer in s.seen && x.task.peer !in base
  {
    var p := x.task.peer;
    var k :| 0 <= k < |s.settled| && s.settled[k] == x;
    TotalAtLeast(SettledAs(p), s.settled, k);
    assert Places(s, p) > 0;
  }

  lemma FreshSeen(cfg: Config, pool: seq<Thread>, seeds: seq<Seed>, t: State, p: Peer)
    requires Finished(cfg, PlantSeeds(cfg, Blank(pool), seeds), t)
    ensures p in t.seen <==> ReachableFrom(cfg, seeds, p)
  {
    Planted(cfg, pool, seeds);
    if p in t.seen {
      var x :| x in t.settled && x.task.peer == p;
      RootedFromSeeds(cfg, pool, seeds, x.task);
    }
    if ReachableFrom(cfg, seeds, p) {
      var path :| path != [] && FirstMention(cfg, seeds, path[0]).Some? && path[|path| - 1] == p && Linked(cfg, path);
      SeenAlongPath(cfg, t, path, |path| - 1);
    }
  }

  lemma FinalIs(cfg: Config, pool: seq<Thread>, seeds: seq<Seed>, t: Task)
    ensures Final(cfg, PlantSeeds(cfg, Blank(pool), seeds).nodes, t) == RecordFor(cfg, seeds, t.peer, t.depth)
  {
    Planted(cfg, pool, seeds);
  }

  lemma NotSeenNotRecorded(cfg: Config, s: State, t: State, p: Peer)
    requires Finished(cfg, s, t) && p !in t.seen && p !in s.nodes
    ensures p !in t.nodes
  {
    forall x | x in t.settled ensures x.task.peer != p { SettledSeen({}, t, x); }
    assert !Concluded(t, p);
    assert Agree(t.nodes, s.nodes, p);
  }

  lemma FreshRecord(cfg: Config, pool: seq<Thread>, seeds: seq<Seed>, t: State, p: Peer)
    requires Finished(cfg, PlantSeeds(cfg, Blank(pool), seeds), t)
    ensures p in t.nodes <==> p in t.seen
    ensures p in t.nodes ==> exists d: nat :: FoundAt(cfg, seeds, p, d) && Stored(cfg, seeds, p, d, t.nodes[p])
  {
    var s := PlantSeeds(cfg, Blank(pool), seeds);
    Planted(cfg, pool, seeds);
    if p in t.seen {
      var x :| x in t.settled && x.task.peer == p;
      RecordForStored(cfg, seeds, p, x.task.depth);
      RootedFromSeeds(cfg, pool, seeds, x.task);
      FinalIs(cfg, pool, seeds, x.task);
    } else {
      NotSeenNotRecorded(cfg, s, t, p);
    }
  }

  lemma FreshExpanded(cfg: Config, s: State, t: State, p: Peer)
    requires Finished(cfg, s, t)
    ensures Total(Is(p), t.expanded) <= 1
    ensures p in t.expanded <==> p in t.seen && cfg.probe(p).Some?
  {
    TotalZero(ExpandingAs(p), t.threads);
    TotalLess(ToExpand(cfg, p), SettledAs(p), t.settled);
    assert Due(cfg, t, p);
    assert Places(t, p) <= 1;
    if p in t.expanded {
      var k :| 0 <= k < |t.expanded| && t.expanded[k] == p;
      TotalAtLeast(Is(p), t.expanded, k);
      var j := SomewhereIn(ToExpand(cfg, p), t.settled);
      SettledSeen({}, t, t.settled[j]);
    }
    if p in t.seen && cfg.probe(p).Some? {
      var x :| x in t.settled && x.task.peer == p;
      IsFollowed(cfg, t, x);
    }
  }

  // The peers seen and the peers recorded are exactly those gossip reaches from the seeds; each has the record the
  // network determines, at the depth of some gossip path; the edges are the gossip of the peers that answered, each
  // followed once.
  ghost predicate FoundAll(cfg: Config, seeds: seq<Seed>, t: State) {
    && (forall p :: p in t.seen <==> ReachableFrom(cfg, seeds, p))
    && (forall p :: p in t.nodes <==> p in t.seen)
    && (forall p | p in t.nodes :: exists d: nat ::
          FoundAt(cfg, seeds, p, d) && Stored(cfg, seeds, p, d, t.nodes[p]))
    && t.edges == AllEdges(cfg, t.expanded)
    && (forall p :: p in t.expanded <==> p in t.seen && cfg.probe(p).Some?)
    && (forall i, j | 0 <= i < j < |t.expanded| :: t.expanded[i] != t.expanded[j])
  }

  lemma FinishedFoundAll(cfg: Config, pool: seq<Thread>, seeds: seq<Seed>, t: State)
    requires Finished(cfg, PlantSeeds(cfg, Blank(pool), seeds), t)
    ensures FoundAll(cfg, seeds, t)
  {
    var s := PlantSeeds(cfg, Blank(pool), seeds);
    forall p: Peer ensures p in t.seen <==> ReachableFrom(cfg, seeds, p) { FreshSeen(cfg, pool, seeds, t, p); }
    forall p: Peer
      ensures p in t.nodes <==> p in t.seen
      ensures p in t.nodes ==> exists d: nat :: FoundAt(cfg, seeds, p, d) && Stored(cfg, seeds, p, d, t.nodes[p])
    {
      FreshRecord(cfg, pool, seeds, t, p);
    }
    forall p: Peer ensures p in t.expanded <==> p in t.seen && cfg.probe(p).Some? { FreshExpanded(cfg, s, t, p); }
    forall i, j | 0 <= i < j < |t.expanded| ensures t.expanded[i] != t.expanded[j] {
      FreshExpanded(cfg, s, t, t.expanded[i]);
      TotalPair(Is(t.expanded[i]), t.expanded, i, j);
    }
    Planted(cfg, pool, seeds);
    assert s.edges + AllEdges(cfg, t.expanded) == AllEdges(cfg, t.expanded);
  }

  // With neither a depth nor a node limit, once every thread has returned the crawl has found everything there is,
  // whatever the schedule and however many threads each pool had.
  lemma FreshCrawlFindsAll(text: AddrText, port: nat, cfg: Config, threads: nat, torThreads: nat, seeds: seq<Seed>,
                           schedule: seq<Event>)
    requires cfg.maxDepth == 0 && cfg.maxNodes == 0
    requires Follows(cfg, Start(text, port, cfg, threads, torThreads, None, seeds), schedule)
    requires Over(After(cfg, Start(text, port, cfg, threads, torThreads, None, seeds), schedule))
    ensures FoundAll(cfg, seeds, After(cfg, Start(text, port, cfg, threads, torThreads, None, seeds), schedule))
  {
    var pool := Pool(cfg, threads, torThreads);
    var s := Start(text, port, cfg, threads, torThreads, None, seeds);
    StartBegins(text, port, cfg, threads, torThreads, None, seeds);
    PoolReady(cfg, threads, torThreads);
    BlankDistinct(pool);
    SeedsDistinct(cfg, {}, Blank(pool), seeds);
    CrawlFinished(cfg, s, schedule);
    FinishedFoundAll(cfg, pool, seeds, After(cfg, s, schedule));
  }
}
