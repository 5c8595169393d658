// How far a crawl can overshoot its node cap: the check and the insertion take the `nodes` lock separately.
module CrawlCap {
  import opened Prelude
  import opened Peers
  import opened Crawl
  import opened CrawlProgress
  import opened CrawlConservation
  import opened CrawlOutcome
  import opened CrawlStart
  import opened CrawlTermination

  function UnderWay(t: Thread): nat { if t.phase.Probing? then 1 else 0 }

  // Recorded nodes, and those about to be.
  function Load(s: State): nat { |s.nodes| + Total(UnderWay, s.threads) }

  // The most nodes a crawl capped at c can hold when it started with n and has w threads.
  function Ceiling(n: nat, c: nat, w: nat): int { if n >= c then n else c - 1 + w }

  lemma UnderWayMoved(s: State, t: State, i: nat, c: bool, o: bool)
    requires i < |s.threads| && Moves(s, t, i, c, o)
    ensures Total(UnderWay, t.threads) + UnderWay(s.threads[i]) == Total(UnderWay, s.threads) + UnderWay(t.threads[i])
  {
    var moved := s.threads[i := s.threads[i].(phase := t.threads[i].phase)];
    TotalSame(UnderWay, t.threads, moved);
    TotalUpdate(UnderWay, s.threads, i, moved[i]);
  }

  lemma LoadConclude(cfg: Config, s: State, i: nat)
    requires i < |s.threads| && s.threads[i].phase.Probing?
    ensures Load(Conclude(cfg, s, i)) <= Load(s)
  {
    var t := Conclude(cfg, s, i);
    TotalUpdate(UnderWay, s.threads, i, t.threads[i]);
    assert t.nodes.Keys == s.nodes.Keys + {s.threads[i].phase.task.peer};
  }

  // A step adds to the load only when the cap lets a probe begin.
  lemma LoadStep(cfg: Config, s: State, e: Event)
    requires Enabled(s, e)
    ensures var t := Step(cfg, s, e);
      || Load(t) <= Load(s)
      || (!cfg.Capped(s.nodes) && |t.nodes| == |s.nodes|)
  {
    if s.threads[e.i].phase.Probing? {
      LoadConclude(cfg, s, e.i);
    } else {
      var c, o := ThreadsAfter(cfg, s, e);
      UnderWayMoved(s, Step(cfg, s, e), e.i, c, o);
    }
  }

  // In every state of every run, the nodes recorded and the probes under way stay within the ceiling; a crawl that
  // starts at its cap records nothing more.
  lemma {:induction false} NodeCapOvershoot(cfg: Config, s: State, schedule: seq<Event>)
    requires Begin(cfg, s) && Follows(cfg, s, schedule) && cfg.maxNodes > 0
    ensures |After(cfg, s, schedule).nodes| <= Load(After(cfg, s, schedule))
         <= Ceiling(|s.nodes|, cfg.maxNodes, |s.threads|)
    ensures |s.nodes| >= cfg.maxNodes ==> After(cfg, s, schedule).nodes == s.nodes
  {
    if schedule == [] {
      TotalZero(UnderWay, s.threads);
    } else {
      var front, e := schedule[..|schedule| - 1], schedule[|schedule| - 1];
      NodeCapOvershoot(cfg, s, front);
      ThreadsStay(cfg, s, schedule);
      LoadStep(cfg, After(cfg, s, front), e);
      TotalAtMost(UnderWay, After(cfg, s, schedule).threads, 1);
      if |s.nodes| >= cfg.maxNodes && After(cfg, s, front).threads[e.i].phase.Probing? {
        TotalAtLeast(UnderWay, After(cfg, s, front).threads, e.i);
      }
    }
  }

  // ---- The end of a capped crawl ----

  // No answer names more than `most` peers.
  ghost predicate GossipWithin(cfg: Config, most: nat) {
    forall p: Peer | cfg.probe(p).Some? :: |cfg.probe(p).value.peers| <= most
  }

  // Threads hold only what answers contain.
  ghost predicate FoundWithin(most: nat, s: State) {
    forall i | 0 <= i < |s.threads| && s.threads[i].phase.Expanding? :: |s.threads[i].phase.found| <= most
  }

  lemma {:induction false} FilterCount<T>(keep: T -> bool, xs: seq<T>)
    ensures |Filter(keep, xs)| <= |xs|
  {
    if xs != [] { FilterCount(keep, xs[..|xs| - 1]); }
  }

  lemma {:induction false} FreshCount(seen: set<Peer>, peers: seq<Peer>)
    ensures |Crawl.Fresh(seen, peers)| <= |peers|
  {
    if peers != [] { FreshCount(seen, peers[..|peers| - 1]); }
  }

  lemma ExpandSeen(cfg: Config, most: nat, s: State, i: nat)
    requires FoundWithin(most, s) && i < |s.threads| && s.threads[i].phase.Expanding?
    ensures |Expand(cfg, s, i).seen| <= |s.seen| + most
  {
    var allowed := AllowedPeers(cfg, s.threads[i].phase.found);
    NewcomerCount(s.seen, allowed);
    FreshCount(s.seen, allowed);
    FilterCount(cfg.Allowed, s.threads[i].phase.found);
  }

  lemma TurnFound(cfg: Config, most: nat, s: State, e: Event)
    requires GossipWithin(cfg, most) && Enabled(s, e)
    ensures Step(cfg, s, e).threads[e.i].phase.Expanding? ==> |Step(cfg, s, e).threads[e.i].phase.found| <= most
  {}

  lemma FoundStep(cfg: Config, most: nat, s: State, e: Event)
    requires GossipWithin(cfg, most) && FoundWithin(most, s) && Enabled(s, e)
    ensures FoundWithin(most, Step(cfg, s, e))
  {
    var t := Step(cfg, s, e);
    var c, o := ThreadsAfter(cfg, s, e);
    TurnFound(cfg, most, s, e);
    forall i: nat | i < |t.threads| && t.threads[i].phase.Expanding? ensures |t.threads[i].phase.found| <= most {
      OthersStay(s, t, e.i, c, o, i);
    }
  }

  lemma SeenStep(cfg: Config, most: nat, s: State, e: Event)
    requires FoundWithin(most, s) && Enabled(s, e)
    ensures var t := Step(cfg, s, e);
      || (t.seen == s.seen && t.expanded == s.expanded)
      || (|t.seen| <= |s.seen| + most && |t.expanded| == |s.expanded| + 1)
  {
    if e.Turn? && s.threads[e.i].phase.Expanding? {
      ExpandSeen(cfg, most, s, e.i);
    } else {
      SeenAlone(cfg, s, e);
    }
  }

  lemma SeenAlone(cfg: Config, s: State, e: Event)
    requires Enabled(s, e) && !(e.Turn? && s.threads[e.i].phase.Expanding?)
    ensures Step(cfg, s, e).seen == s.seen && Step(cfg, s, e).expanded == s.expanded
  {}

  lemma MulNext(m: nat, n: nat)
    ensures m * (n + 1) == m * n + m
  {}

  // Each list of peers followed adds at most its length to the peers seen.
  lemma {:induction false} SeenCount(cfg: Config, most: nat, s: State, schedule: seq<Event>)
    requires GossipWithin(cfg, most) && Begin(cfg, s) && Follows(cfg, s, schedule)
    ensures var t := After(cfg, s, schedule);
      FoundWithin(most, t) && |t.seen| <= |s.seen| + most * |t.expanded|
  {
    if schedule != [] {
      var front, e := schedule[..|schedule| - 1], schedule[|schedule| - 1];
      SeenCount(cfg, most, s, front);
      FoundStep(cfg, most, After(cfg, s, front), e);
      SeenStep(cfg, most, After(cfg, s, front), e);
      MulNext(most, |After(cfg, s, front).expanded|);
    }
  }

  lemma {:induction false} DifferentCount(peers: seq<Peer>, within: set<Peer>)
    requires forall p: Peer :: Total(Is(p), peers) <= 1
    requires forall p | p in peers :: p in within
    ensures |peers| <= |within|
  {
    OnceDifferent(peers);
    ListCount(peers);
    SubsetCount(SetOf(peers), within);
  }

  lemma {:induction false} ListCount(peers: seq<Peer>)
    requires AllDifferent(peers)
    ensures |SetOf(peers)| == |peers|
  {
    if peers != [] {
      var front, p := peers[..|peers| - 1], peers[|peers| - 1];
      ListCount(front);
      assert p !in front;
    }
  }

  // Gossip is followed only of recorded peers, and once of each.
  lemma ExpandedCount(cfg: Config, base: set<Peer>, s: State, t: State)
    requires Conserved(base, t) && Recorded(cfg, s.nodes, t) && Followed(cfg, s.edges, t)
    ensures |t.expanded| <= |t.nodes|
  {
    forall p: Peer
      ensures Total(Is(p), t.expanded) <= 1
      ensures p in t.expanded ==> p in t.nodes
    {
      assert Due(cfg, t, p) && Places(t, p) <= 1;
      TotalLess(ToExpand(cfg, p), SettledAs(p), t.settled);
      if k :| 0 <= k < |t.expanded| && t.expanded[k] == p {
        TotalAtLeast(Is(p), t.expanded, k);
        var j := SomewhereIn(ToExpand(cfg, p), t.settled);
        assert t.settled[j] in t.settled;
      }
    }
    DifferentCount(t.expanded, t.nodes.Keys);
  }

  lemma MulAtMost(m: nat, a: nat, b: int)
    requires a <= b
    ensures m * a <= m * b
  {}

  // A capped crawl ends whatever peers there are, with no finite set of them assumed: the cap bounds the probes, and so
  // the gossip followed, the peers seen and the steps. `most` is the longest list of peers an answer names.
  lemma CappedCrawlEnds(cfg: Config, base: set<Peer>, s: State, most: nat, schedule: seq<Event>)
    requires cfg.maxNodes > 0 && GossipWithin(cfg, most)
    requires Begin(cfg, s) && Distinct(base, s) && Follows(cfg, s, schedule)
    ensures var ceiling := Ceiling(|s.nodes|, cfg.maxNodes, |s.threads|);
      && |After(cfg, s, schedule).expanded| <= ceiling
      && |After(cfg, s, schedule).seen| <= |s.seen| + most * ceiling
      && |schedule| <= BudgetFor(|s.seen| + most * ceiling, s) + 2 * SpuriousCount(schedule)
  {
    var t, ceiling := After(cfg, s, schedule), Ceiling(|s.nodes|, cfg.maxNodes, |s.threads|);
    Everywhere(cfg, base, s, schedule);
    NodeCapOvershoot(cfg, s, schedule);
    ExpandedCount(cfg, base, s, t);
    SeenCount(cfg, most, s, schedule);
    MulAtMost(most, |t.expanded|, ceiling);
    SeenBounds(cfg, t.seen, s, schedule);
    BudgetGrows(|t.seen|, |s.seen| + most * ceiling, s);
  }

  // ---- The ceiling is reached ----

  // A full house: a capped crawl one node short of its cap, w clearnet threads and then the onion threads all about to
  // poll, and on top of each stack as many new peers as its pool has threads.
  ghost predicate FullHouse(cfg: Config, s: State, w: nat) {
    && cfg.maxNodes > 0 && |s.nodes| == cfg.maxNodes - 1
    && (forall i | 0 <= i < |s.threads| :: s.threads[i] == Thread(i >= w, Ready))
    && w <= |s.threads| && w <= |s.clearnet| && |s.threads| - w <= |s.onion|
    && (forall i: nat | i < |s.threads| :: Next(s, w, i).peer !in s.nodes)
    && (forall i: nat, j: nat | i < j < |s.threads| :: Next(s, w, i).peer != Next(s, w, j).peer)
  }

  // The task the i-th thread takes when they poll in turn.
  function Next(s: State, w: nat, i: nat): Task
    requires if i < w then i < |s.clearnet| else i - w < |s.onion|
  {
    if i < w then s.clearnet[|s.clearnet| - 1 - i] else s.onion[|s.onion| - 1 - (i - w)]
  }

  // Threads below k have moved to `after`, the others are still at `before`.
  function ThreadsAt(s: State, w: nat, k: nat, before: Task -> Phase, after: Task -> Phase): (r: seq<Thread>)
    requires w <= |s.threads| && w <= |s.clearnet| && |s.threads| - w <= |s.onion|
    ensures |r| == |s.threads|
    ensures forall i: nat | i < |s.threads| ::
      r[i] == Thread(i >= w, if i < k then after(Next(s, w, i)) else before(Next(s, w, i)))
  {
    seq(|s.threads|, i requires 0 <= i < |s.threads| =>
      Thread(i >= w, if i < k then after(Next(s, w, i)) else before(Next(s, w, i))))
  }

  ghost predicate Partway(s: State, w: nat, t: State, k: nat, before: Task -> Phase, after: Task -> Phase)
    requires w <= |s.threads| && w <= |s.clearnet| && |s.threads| - w <= |s.onion|
  {
    t.threads == ThreadsAt(s, w, k, before, after)
  }

  function ToPoll(t: Task): Phase { Ready }

  function ToCheck(t: Task): Phase { Popped(t) }

  function ToProbe(t: Task): Phase { Probing(t) }

  function Fewer(a: nat, b: nat): nat { if a < b then a else b }

  // The first k threads have polled.
  ghost predicate Polled(s: State, w: nat, t: State, k: nat)
    requires w <= |s.threads| && w <= |s.clearnet| && k <= |s.threads| && |s.threads| - w <= |s.onion|
  {
    && Partway(s, w, t, k, ToPoll, ToCheck) && t.nodes == s.nodes
    && t.clearnet == s.clearnet[..|s.clearnet| - Fewer(k, w)]
    && t.onion == s.onion[..|s.onion| - (k - Fewer(k, w))]
  }

  lemma OnePolls(cfg: Config, s: State, w: nat, t: State, k: nat)
    requires FullHouse(cfg, s, w) && k < |s.threads| && Polled(s, w, t, k)
    ensures Enabled(t, Turn(k)) && Polled(s, w, Step(cfg, t, Turn(k)), k + 1)
  {
    assert t.threads[k] == Thread(k >= w, Ready);
    var own := t.Stack(k >= w);
    assert own[|own| - 1] == Next(s, w, k);
    var u := Poll(t, k);
    assert u.threads == t.threads[k := Thread(k >= w, Popped(Next(s, w, k)))];
  }

  lemma NonePolled(cfg: Config, s: State, w: nat) returns (schedule: seq<Event>)
    requires FullHouse(cfg, s, w)
    ensures Follows(cfg, s, schedule) && Polled(s, w, After(cfg, s, schedule), 0)
  {
    schedule := [];
    assert s.clearnet[..|s.clearnet| - 0] == s.clearnet && s.onion[..|s.onion| - 0] == s.onion;
  }

  lemma {:induction false} AllPoll(cfg: Config, s: State, w: nat, k: nat) returns (schedule: seq<Event>)
    requires FullHouse(cfg, s, w) && k <= |s.threads|
    ensures Follows(cfg, s, schedule) && Polled(s, w, After(cfg, s, schedule), k)
  {
    if k == 0 {
      schedule := NonePolled(cfg, s, w);
    } else {
      var front := AllPoll(cfg, s, w, k - 1);
      schedule := OneMorePolls(cfg, s, w, front, k - 1);
    }
  }

  lemma OneMorePolls(cfg: Config, s: State, w: nat, front: seq<Event>, k: nat) returns (schedule: seq<Event>)
    requires FullHouse(cfg, s, w) && k < |s.threads|
    requires Follows(cfg, s, front) && Polled(s, w, After(cfg, s, front), k)
    ensures Follows(cfg, s, schedule) && Polled(s, w, After(cfg, s, schedule), k + 1)
  {
    var t := After(cfg, s, front);
    OnePolls(cfg, s, w, t, k);
    Then(cfg, s, front, Turn(k));
    schedule := front + [Turn(k)];
    assert After(cfg, s, schedule) == Step(cfg, t, Turn(k));
  }

  lemma {:induction false} AllCheck(cfg: Config, s: State, w: nat, k: nat) returns (schedule: seq<Event>)
    requires FullHouse(cfg, s, w) && k <= |s.threads|
    ensures Follows(cfg, s, schedule)
    ensures var t := After(cfg, s, schedule); Partway(s, w, t, k, ToCheck, ToProbe) && t.nodes == s.nodes
  {
    if k == 0 {
      schedule := AllPoll(cfg, s, w, |s.threads|);
    } else {
      var front := AllCheck(cfg, s, w, k - 1);
      Then(cfg, s, front, Turn(k - 1));
      schedule := front + [Turn(k - 1)];
    }
  }

  // The first k threads have recorded the peers they probed.
  ghost predicate Merged(cfg: Config, s: State, w: nat, t: State, k: nat)
    requires w <= |s.threads| && w <= |s.clearnet| && |s.threads| - w <= |s.onion|
  {
    && |t.nodes| == cfg.maxNodes - 1 + k
    && |t.threads| == |s.threads|
    && (forall i: nat | k <= i < |s.threads| ::
          t.threads[i].phase == Probing(Next(s, w, i)) && Next(s, w, i).peer !in t.nodes)
  }

  lemma OneConcludes(cfg: Config, s: State, w: nat, t: State, k: nat)
    requires FullHouse(cfg, s, w) && k < |s.threads| && Merged(cfg, s, w, t, k)
    ensures Enabled(t, Turn(k)) && Merged(cfg, s, w, Step(cfg, t, Turn(k)), k + 1)
  {
    var u := Conclude(cfg, t, k);
    assert u.nodes.Keys == t.nodes.Keys + {Next(s, w, k).peer};
    forall i: nat | k + 1 <= i < |s.threads|
      ensures u.threads[i].phase == Probing(Next(s, w, i)) && Next(s, w, i).peer !in u.nodes
    {
      assert Next(s, w, k).peer != Next(s, w, i).peer;
    }
  }

  lemma {:induction false} AllConclude(cfg: Config, s: State, w: nat, k: nat) returns (schedule: seq<Event>)
    requires FullHouse(cfg, s, w) && k <= |s.threads|
    ensures Follows(cfg, s, schedule) && Merged(cfg, s, w, After(cfg, s, schedule), k)
  {
    if k == 0 {
      schedule := AllCheck(cfg, s, w, |s.threads|);
    } else {
      var front := AllConclude(cfg, s, w, k - 1);
      OneConcludes(cfg, s, w, After(cfg, s, front), k - 1);
      Then(cfg, s, front, Turn(k - 1));
      schedule := front + [Turn(k - 1)];
    }
  }

  // Different peers, the first n of them clearnet and the rest onion, records known of exactly the first m.
  ghost predicate MixedSeeds(seeds: seq<Seed>, n: nat, m: nat) {
    && (forall i | 0 <= i < |seeds| ::
          (seeds[i].peer.Clearnet? <==> i < n) && (seeds[i].known.Some? <==> i < m))
    && (forall i, j | 0 <= i < j < |seeds| :: seeds[i].peer != seeds[j].peer)
  }

  function PeersOf(seeds: seq<Seed>): set<Peer> { set x | x in seeds :: x.peer }

  // The state such seeds make.
  ghost predicate Mixed(s: State, threads: seq<Thread>, seeds: seq<Seed>, n: nat, m: nat) {
    && s.threads == threads
    && |s.nodes| == Fewer(|seeds|, m)
    && |s.clearnet| == Fewer(|seeds|, n) && |s.onion| == |seeds| - |s.clearnet|
    && (forall i | 0 <= i < |s.clearnet| :: s.clearnet[i].peer == seeds[i].peer)
    && (forall i | 0 <= i < |s.onion| :: s.onion[i].peer == seeds[|s.clearnet| + i].peer)
    && (forall i | m <= i < |seeds| :: seeds[i].peer !in s.nodes)
    && s.seen <= PeersOf(seeds) && s.nodes.Keys <= PeersOf(seeds)
  }

  lemma LastIsNew(front: seq<Seed>, seed: Seed, n: nat, m: nat)
    requires MixedSeeds(front + [seed], n, m)
    ensures PeersOf(front + [seed]) == PeersOf(front) + {seed.peer} && seed.peer !in PeersOf(front)
  {
    var seeds := front + [seed];
    assert seeds[|front|] == seed;
    forall i | 0 <= i < |front| ensures front[i].peer != seed.peer { assert seeds[i] == front[i]; }
  }

  // The seed joins its stack, and the records too when something is known of it.
  ghost predicate Joins(s: State, t: State, seed: Seed) {
    && t.threads == s.threads
    && t.clearnet == s.clearnet + (if seed.peer.Clearnet? then [Task(seed.peer, seed.depth)] else [])
    && t.onion == s.onion + (if seed.peer.Onion? then [Task(seed.peer, seed.depth)] else [])
    && t.seen == s.seen + {seed.peer}
    && t.nodes.Keys == s.nodes.Keys + (if seed.known.Some? then {seed.peer} else {})
    && |t.nodes| == |s.nodes| + if seed.known.Some? then 1 else 0
  }

  lemma NewSeed(cfg: Config, s: State, seed: Seed)
    requires cfg.Allowed(seed.peer) && seed.peer !in s.seen && seed.peer !in s.nodes
    ensures Joins(s, PlantSeed(cfg, s, seed), seed)
  {
    var t := PlantSeed(cfg, s, seed);
    assert t.nodes.Keys == s.nodes.Keys + if seed.known.Some? then {seed.peer} else {};
  }

  lemma MixedStacks(s: State, t: State, threads: seq<Thread>, front: seq<Seed>, seed: Seed, n: nat, m: nat)
    requires seed.peer.Clearnet? <==> |front| < n
    requires Mixed(s, threads, front, n, m) && Joins(s, t, seed)
    ensures var seeds := front + [seed];
      && |t.clearnet| == Fewer(|seeds|, n) && |t.onion| == |seeds| - |t.clearnet|
      && (forall i | 0 <= i < |t.clearnet| :: t.clearnet[i].peer == seeds[i].peer)
      && (forall i | 0 <= i < |t.onion| :: t.onion[i].peer == seeds[|t.clearnet| + i].peer)
  {
    var seeds := front + [seed];
    forall i | 0 <= i < |t.clearnet| ensures t.clearnet[i].peer == seeds[i].peer {
      if i < |s.clearnet| { assert t.clearnet[i] == s.clearnet[i] && seeds[i] == front[i]; }
    }
    forall i | 0 <= i < |t.onion| ensures t.onion[i].peer == seeds[|t.clearnet| + i].peer {
      if i < |s.onion| { assert t.onion[i] == s.onion[i] && seeds[|s.clearnet| + i] == front[|s.clearnet| + i]; }
    }
  }

  lemma MixedGrows(s: State, t: State, threads: seq<Thread>, front: seq<Seed>, seed: Seed, n: nat, m: nat)
    requires (seed.peer.Clearnet? <==> |front| < n) && (seed.known.Some? <==> |front| < m)
    requires PeersOf(front + [seed]) == PeersOf(front) + {seed.peer} && seed.peer !in PeersOf(front)
    requires Mixed(s, threads, front, n, m) && Joins(s, t, seed)
    ensures Mixed(t, threads, front + [seed], n, m)
  {
    var seeds := front + [seed];
    MixedStacks(s, t, threads, front, seed, n, m);
    forall i | m <= i < |seeds| ensures seeds[i].peer !in t.nodes {
      if i < |front| { assert seeds[i] == front[i] && front[i].peer in PeersOf(front); }
    }
  }

  lemma MixedStep(cfg: Config, s: State, threads: seq<Thread>, front: seq<Seed>, seed: Seed, n: nat, m: nat)
    requires MixedSeeds(front + [seed], n, m) && Mixed(s, threads, front, n, m) && cfg.Allowed(seed.peer)
    ensures Mixed(PlantSeed(cfg, s, seed), threads, front + [seed], n, m)
  {
    LastIsNew(front, seed, n, m);
    assert (front + [seed])[|front|] == seed;
    NewSeed(cfg, s, seed);
    MixedGrows(s, PlantSeed(cfg, s, seed), threads, front, seed, n, m);
  }

  lemma MixedFront(cfg: Config, seeds: seq<Seed>, front: seq<Seed>, seed: Seed, n: nat, m: nat)
    requires MixedSeeds(seeds, n, m) && forall i | 0 <= i < |seeds| :: cfg.Allowed(seeds[i].peer)
    requires seeds != [] && front == seeds[..|seeds| - 1] && seed == seeds[|seeds| - 1]
    ensures seeds == front + [seed] && MixedSeeds(front, n, m) && cfg.Allowed(seed.peer)
    ensures forall i | 0 <= i < |front| :: cfg.Allowed(front[i].peer)
  {}

  lemma {:induction false} MixedPlanted(cfg: Config, threads: seq<Thread>, seeds: seq<Seed>, n: nat, m: nat)
    requires MixedSeeds(seeds, n, m) && forall i | 0 <= i < |seeds| :: cfg.Allowed(seeds[i].peer)
    ensures Mixed(PlantSeeds(cfg, Blank(threads), seeds), threads, seeds, n, m)
  {
    if seeds != [] {
      var front, seed := seeds[..|seeds| - 1], seeds[|seeds| - 1];
      MixedFront(cfg, seeds, front, seed, n, m);
      MixedPlanted(cfg, threads, front, n, m);
      MixedStep(cfg, PlantSeeds(cfg, Blank(threads), front), threads, front, seed, n, m);
    }
  }

  lemma MixedFullHouse(cfg: Config, s: State, threads: seq<Thread>, seeds: seq<Seed>, w: nat)
    requires cfg.maxNodes > 0 && w <= |threads| && |seeds| == cfg.maxNodes - 1 + |threads|
    requires forall i | 0 <= i < |threads| :: threads[i] == Thread(i >= w, Ready)
    requires MixedSeeds(seeds, cfg.maxNodes - 1 + w, cfg.maxNodes - 1)
    requires Mixed(s, threads, seeds, cfg.maxNodes - 1 + w, cfg.maxNodes - 1)
    ensures FullHouse(cfg, s, w)
  {
    forall i: nat | i < |threads|
      ensures cfg.maxNodes - 1 <= Taken(seeds, |threads|, w, i) < |seeds|
      ensures Next(s, w, i).peer == seeds[Taken(seeds, |threads|, w, i)].peer
    {
      TakesSeed(cfg, s, threads, seeds, w, i);
    }
  }

  // The seed the i-th thread takes, by index: each pool takes its own from the last.
  function Taken(seeds: seq<Seed>, threads: nat, w: nat, i: nat): int {
    if i < w then |seeds| - threads + w - 1 - i else |seeds| - 1 - (i - w)
  }

  lemma TakesSeed(cfg: Config, s: State, threads: seq<Thread>, seeds: seq<Seed>, w: nat, i: nat)
    requires cfg.maxNodes > 0 && w <= |threads| && |seeds| == cfg.maxNodes - 1 + |threads| && i < |threads|
    requires Mixed(s, threads, seeds, cfg.maxNodes - 1 + w, cfg.maxNodes - 1)
    ensures if i < w then i < |s.clearnet| else i - w < |s.onion|
    ensures cfg.maxNodes - 1 <= Taken(seeds, |threads|, w, i) < |seeds|
    ensures Next(s, w, i).peer == seeds[Taken(seeds, |threads|, w, i)].peer
  {}

  // For every cap, every split of the threads between the two pools and every network, a crawl seeded with one known
  // node less than the cap and as many new peers of each kind as its pool has threads can end with the ceiling's
  // number of nodes: the bound cannot be lowered.
  lemma CeilingIsReached(text: AddrText, port: nat, cfg: Config, w: nat, torThreads: nat, seeds: seq<Seed>)
    returns (schedule: seq<Event>)
    requires cfg.maxNodes > 0 && w > 0 && (cfg.onionEnabled <==> torThreads > 0)
    requires |seeds| == cfg.maxNodes - 1 + w + torThreads
    requires MixedSeeds(seeds, cfg.maxNodes - 1 + w, cfg.maxNodes - 1)
    ensures var s := Start(text, port, cfg, w, torThreads, None, seeds);
      && |s.threads| == w + torThreads && |s.nodes| == cfg.maxNodes - 1
      && Follows(cfg, s, schedule)
      && |After(cfg, s, schedule).nodes| == Ceiling(|s.nodes|, cfg.maxNodes, w + torThreads)
  {
    var s, pool := Start(text, port, cfg, w, torThreads, None, seeds), Pool(cfg, w, torThreads);
    MixedPlanted(cfg, pool, seeds, cfg.maxNodes - 1 + w, cfg.maxNodes - 1);
    MixedFullHouse(cfg, s, pool, seeds, w);
    schedule := AllConclude(cfg, s, w, w + torThreads);
  }
}
