// What an unlimited crawl finds from any start, and so from any file: what it takes as done, and what gossip owes it from
// the peers pending. A save made while threads work can leave gossip unfollowed for good (src/crawler.rs, src/state.rs).
module CrawlOwed {
  import opened Prelude
  import opened Peers
  import opened Crawl
  import opened CrawlProgress
  import opened CrawlConservation
  import opened CrawlOutcome
  import opened CrawlStart
  import opened CrawlResume
  import opened CrawlContinue

  ghost predicate OwedBy(cfg: Config, base: set<Peer>, s: State, path: seq<Peer>, p: Peer) {
    && path != [] && path[|path| - 1] == p
    && Queued(s, path[0]) && Linked(cfg, path)
    && forall i | 0 <= i < |path| :: path[i] !in base
  }

  // Gossip leads from a queued peer to this one through peers not taken as done.
  ghost predicate Owed(cfg: Config, base: set<Peer>, s: State, p: Peer) {
    exists path :: OwedBy(cfg, base, s, path, p)
  }

  lemma QueuedIsOwed(cfg: Config, base: set<Peer>, s: State, p: Peer)
    requires Queued(s, p) && p !in base
    ensures Owed(cfg, base, s, p)
  {
    assert OwedBy(cfg, base, s, [p], p);
  }

  lemma GossipIsOwed(cfg: Config, base: set<Peer>, s: State, p: Peer, q: Peer)
    requires Owed(cfg, base, s, p) && Gossips(cfg, p, q) && q !in base
    ensures Owed(cfg, base, s, q)
  {
    var path :| OwedBy(cfg, base, s, path, p);
    assert OwedBy(cfg, base, s, path + [q], q);
  }

  // ---- What is seen is done or owed ----

  ghost predicate DoneOrOwed(cfg: Config, base: set<Peer>, s: State, seen: set<Peer>) {
    forall p | p in seen :: p in base || Owed(cfg, base, s, p)
  }

  lemma StartIsOwed(cfg: Config, base: set<Peer>, s: State)
    requires Begin(cfg, s) && Distinct(base, s)
    ensures DoneOrOwed(cfg, base, s, s.seen)
  {
    forall p | p in s.seen && p !in base ensures Owed(cfg, base, s, p) {
      TotalZero(Holds(p), s.threads);
      assert Places(s, p) == QueuedCount(s, p);
      QueuedIff(s, p);
      QueuedIsOwed(cfg, base, s, p);
    }
  }

  // A peer whose gossip a thread is about to look at was not taken as done.
  lemma ExpandingNotDone(cfg: Config, base: set<Peer>, t: State, i: nat)
    requires i < |t.threads| && t.threads[i].phase.Expanding?
    requires Conserved(base, t) && Due(cfg, t, t.threads[i].phase.task.peer)
    ensures t.threads[i].phase.task.peer in t.seen && t.threads[i].phase.task.peer !in base
  {
    var p := t.threads[i].phase.task.peer;
    TotalAtLeast(ExpandingAs(p), t.threads, i);
    var k := SomewhereIn(ToExpand(cfg, p), t.settled);
    assert t.settled[k] in t.settled;
    SettledSeen(base, t, t.settled[k]);
  }

  lemma SeenAlone(cfg: Config, t: State, e: Event)
    requires Enabled(t, e) && !(e.Turn? && t.threads[e.i].phase.Expanding?)
    ensures Step(cfg, t, e).seen == t.seen
  {}

  lemma OwedStep(cfg: Config, base: set<Peer>, s: State, roots: seq<Task>, t: State, e: Event)
    requires Enabled(t, e) && DoneOrOwed(cfg, base, s, t.seen)
    requires Conserved(base, t) && Sourced(cfg, roots, t) && forall p: Peer :: Due(cfg, t, p)
    ensures DoneOrOwed(cfg, base, s, Step(cfg, t, e).seen)
  {
    if e.Turn? && t.threads[e.i].phase.Expanding? {
      var Expanding(task, found) := t.threads[e.i].phase;
      ExpandingNotDone(cfg, base, t, e.i);
      assert PhaseRooted(cfg, roots, t.threads[e.i].phase);
      FilterIn(cfg.Allowed, found);
      forall q | q in Expand(cfg, t, e.i).seen && q !in t.seen && q !in base ensures Owed(cfg, base, s, q) {
        assert Gossips(cfg, task.peer, q);
        GossipIsOwed(cfg, base, s, task.peer, q);
      }
    } else {
      SeenAlone(cfg, t, e);
    }
  }

  lemma {:induction false} SeenIsOwed(cfg: Config, base: set<Peer>, s: State, schedule: seq<Event>)
    requires Begin(cfg, s) && Distinct(base, s) && Follows(cfg, s, schedule)
    ensures DoneOrOwed(cfg, base, s, After(cfg, s, schedule).seen)
  {
    if schedule == [] {
      StartIsOwed(cfg, base, s);
    } else {
      var front, e := schedule[..|schedule| - 1], schedule[|schedule| - 1];
      SeenIsOwed(cfg, base, s, front);
      Everywhere(cfg, base, s, front);
      OwedStep(cfg, base, s, s.clearnet + s.onion, After(cfg, s, front), e);
    }
  }

  // ---- What is owed is seen in the end ----

  lemma {:induction false} OwedAlong(cfg: Config, base: set<Peer>, s: State, t: State, path: seq<Peer>, p: Peer, k: nat)
    requires OwedBy(cfg, base, s, path, p) && k < |path| && path[0] in t.seen
    requires forall x: Peer :: Ends(cfg, base, s, t, x)
    ensures path[k] in t.seen
  {
    if k > 0 {
      OwedAlong(cfg, base, s, t, path, p, k - 1);
      LinkedStep(cfg, path, k);
      assert Ends(cfg, base, s, t, path[k - 1]);
    }
  }

  lemma OwedIsSeen(cfg: Config, base: set<Peer>, s: State, t: State, p: Peer)
    requires Conserved(base, s) && (forall x: Peer :: Ends(cfg, base, s, t, x)) && Owed(cfg, base, s, p)
    ensures p in t.seen
  {
    var path :| OwedBy(cfg, base, s, path, p);
    QueuedIff(s, path[0]);
    assert Places(s, path[0]) > 0;
    assert Ends(cfg, base, s, t, path[0]);
    OwedAlong(cfg, base, s, t, path, p, |path| - 1);
  }

  lemma RunEnds(cfg: Config, base: set<Peer>, s: State, schedule: seq<Event>)
    requires cfg.maxDepth == 0 && cfg.maxNodes == 0
    requires Begin(cfg, s) && Distinct(base, s) && Follows(cfg, s, schedule) && Over(After(cfg, s, schedule))
    ensures forall p: Peer :: Ends(cfg, base, s, After(cfg, s, schedule), p)
  {
    var t := After(cfg, s, schedule);
    Everywhere(cfg, base, s, schedule);
    OverIsIdle(cfg, s, schedule);
    SeenStays(cfg, s, schedule);
    assert RanOut(cfg, base, s, t);
    forall p: Peer { EndsAt(cfg, base, s, t, p); }
  }

  // What an unlimited crawl has seen at its end, from any start with distinct tasks and under any schedule: exactly what
  // it took as done and what it was owed.
  lemma RunFinds(cfg: Config, base: set<Peer>, s: State, schedule: seq<Event>, p: Peer)
    requires cfg.maxDepth == 0 && cfg.maxNodes == 0
    requires Begin(cfg, s) && Distinct(base, s) && Follows(cfg, s, schedule) && Over(After(cfg, s, schedule))
    ensures p in After(cfg, s, schedule).seen <==> p in base || Owed(cfg, base, s, p)
  {
    SeenIsOwed(cfg, base, s, schedule);
    RunEnds(cfg, base, s, schedule);
    assert Ends(cfg, base, s, After(cfg, s, schedule), p);
    if Owed(cfg, base, s, p) { OwedIsSeen(cfg, base, s, After(cfg, s, schedule), p); }
  }

  // ---- A run resumed from a save made at any moment ----

  // What the resumed crawl takes as done, in terms of what was copied.
  lemma SavedDone(text: AddrText, port: nat, cfg: Config, f: State, n: State, e: State, order: seq<Peer>,
                  threads: seq<Thread>, p: Peer)
    requires TextualQueue(text, f) && Routed(cfg, f) && TextualNodes(text, n) && Lists(order, n.nodes)
    ensures var r := Resume(text, port, cfg, Blank(threads), SaveAcross(text, f, n, e, order));
      && (Queued(r, p) <==> Queued(f, p) && p != PLACEHOLDER)
      && (p in Done(r) <==> p in n.nodes && !Queued(f, p) && p != PLACEHOLDER)
  {
    var r := Resume(text, port, cfg, Blank(threads), SaveAcross(text, f, n, e, order));
    SaveThenResume(text, port, cfg, f, n, e, order, threads);
    RealNames(f.clearnet, p);
    if p == PLACEHOLDER { TotalZero(Names(p), f.onion); }
    QueuedIff(f, p);
    QueuedIff(r, p);
  }

  // A second run without limits, over whatever network there is by then, resumed from a save made at any moment of the
  // first: it finds exactly what it took as done, the peers recorded when the records were copied and not pending when
  // the stacks were, and what gossip owes it from the peers pending and the seeds.
  lemma ResumedRunFinds(text: AddrText, port: nat, cfg: Config, then': Config, s: State, first: seq<Event>,
                        next: seq<Event>, last: seq<Event>, order: seq<Peer>, threads: nat, torThreads: nat,
                        seeds: seq<Seed>, schedule: seq<Event>, p: Peer)
    requires GoodStart(text, cfg, s) && Follows(cfg, s, first + next) && Follows(cfg, s, first + next + last)
    requires Follows(cfg, s, first) && Lists(order, After(cfg, s, first + next).nodes) && TextualSeeds(text, seeds)
    requires SpeakableNetwork(text, then') && then'.onionEnabled == cfg.onionEnabled
    requires then'.maxDepth == 0 && then'.maxNodes == 0
    requires var f, n, e := After(cfg, s, first), After(cfg, s, first + next), After(cfg, s, first + next + last);
      var start := Start(text, port, then', threads, torThreads, Some(SaveAcross(text, f, n, e, order)), seeds);
      Follows(then', start, schedule) && Over(After(then', start, schedule))
    ensures var f, n, e := After(cfg, s, first), After(cfg, s, first + next), After(cfg, s, first + next + last);
      var saved := SaveAcross(text, f, n, e, order);
      var done := Done(Resume(text, port, then', Blank(Pool(then', threads, torThreads)), saved));
      var start := Start(text, port, then', threads, torThreads, Some(saved), seeds);
      && (p in done <==> p in n.nodes && !Queued(f, p) && p != PLACEHOLDER)
      && (p in After(then', start, schedule).seen <==> p in done || Owed(then', done, start, p))
  {
    var f, n, e := After(cfg, s, first), After(cfg, s, first + next), After(cfg, s, first + next + last);
    var saved := SaveAcross(text, f, n, e, order);
    var pool := Pool(then', threads, torThreads);
    ResumedIsGood(text, port, cfg, then', s, first, next, last, order, threads, torThreads, seeds);
    SavedFacts(text, cfg, s, first, p);
    SavedFacts(text, cfg, s, first + next, p);
    RoutedSame(cfg, then', f);
    SavedDone(text, port, then', f, n, e, order, pool, p);
    RunFinds(then', Done(Resume(text, port, then', Blank(pool), saved)),
             Start(text, port, then', threads, torThreads, Some(saved), seeds), schedule, p);
  }

  // ---- When it finds everything ----

  // What is owed from peers that are reachable is reachable.
  lemma {:induction false} ReachableAlong(cfg: Config, seeds: seq<Seed>, path: seq<Peer>, k: nat)
    requires k < |path| && Linked(cfg, path) && ReachableFrom(cfg, seeds, path[0])
    ensures ReachableFrom(cfg, seeds, path[k])
  {
    if k > 0 {
      ReachableAlong(cfg, seeds, path, k - 1);
      LinkedStep(cfg, path, k);
      ReachableStep(cfg, seeds, path[k - 1], path[k]);
    }
  }

  lemma ReachableStep(cfg: Config, seeds: seq<Seed>, p: Peer, q: Peer)
    requires ReachableFrom(cfg, seeds, p) && Gossips(cfg, p, q)
    ensures ReachableFrom(cfg, seeds, q)
  {
    var path :| path != [] && FirstMention(cfg, seeds, path[0]).Some? && path[|path| - 1] == p && Linked(cfg, path);
    assert (path + [q])[0] == path[0] && Linked(cfg, path + [q]);
  }

  lemma OwedReachable(cfg: Config, seeds: seq<Seed>, base: set<Peer>, s: State, p: Peer)
    requires forall q: Peer | Queued(s, q) :: ReachableFrom(cfg, seeds, q)
    requires Owed(cfg, base, s, p)
    ensures ReachableFrom(cfg, seeds, p)
  {
    var path :| OwedBy(cfg, base, s, path, p);
    ReachableAlong(cfg, seeds, path, |path| - 1);
  }

  // What a first run has queued or recorded, at any moment, is reachable from its seeds.
  lemma FirstReachable(text: AddrText, port: nat, cfg: Config, threads: nat, torThreads: nat, seeds: seq<Seed>,
                       schedule: seq<Event>, p: Peer)
    requires Follows(cfg, Start(text, port, cfg, threads, torThreads, None, seeds), schedule)
    requires var t := After(cfg, Start(text, port, cfg, threads, torThreads, None, seeds), schedule);
      Queued(t, p) || p in t.nodes
    ensures ReachableFrom(cfg, seeds, p)
  {
    var s := Start(text, port, cfg, threads, torThreads, None, seeds);
    FreshDistinct(text, port, cfg, threads, torThreads, seeds);
    SeenIsOwed(cfg, {}, s, schedule);
    KeptSeen(cfg, s, schedule, p);
    forall q: Peer | Queued(s, q) ensures ReachableFrom(cfg, seeds, q) {
      SeedsReachable(cfg, Pool(cfg, threads, torThreads), seeds, q);
    }
    OwedReachable(cfg, seeds, {}, s, p);
  }

  lemma FreshDistinct(text: AddrText, port: nat, cfg: Config, threads: nat, torThreads: nat, seeds: seq<Seed>)
    ensures var s := Start(text, port, cfg, threads, torThreads, None, seeds);
      Begin(cfg, s) && Distinct({}, s) && s.nodes.Keys <= s.seen
  {
    var pool := Pool(cfg, threads, torThreads);
    StartBegins(text, port, cfg, threads, torThreads, None, seeds);
    PoolReady(cfg, threads, torThreads);
    BlankDistinct(pool);
    SeedsDistinct(cfg, {}, Blank(pool), seeds);
    PlantedSeen(cfg, Blank(pool), seeds);
  }

  // What a run has queued or recorded it has seen.
  lemma KeptSeen(cfg: Config, s: State, schedule: seq<Event>, p: Peer)
    requires Begin(cfg, s) && Distinct({}, s) && s.nodes.Keys <= s.seen && Follows(cfg, s, schedule)
    ensures var t := After(cfg, s, schedule); Queued(t, p) || p in t.nodes ==> p in t.seen
  {
    Everywhere(cfg, {}, s, schedule);
    SeenStays(cfg, s, schedule);
    NodesSeen(cfg, {}, s, After(cfg, s, schedule), p);
  }

  lemma SeedsReachable(cfg: Config, pool: seq<Thread>, seeds: seq<Seed>, q: Peer)
    requires Queued(PlantSeeds(cfg, Blank(pool), seeds), q)
    ensures ReachableFrom(cfg, seeds, q)
  {
    QueuedAfterSeeds(cfg, Blank(pool), seeds, q);
    SeedFound(cfg, seeds, q);
    FoundReachable(cfg, seeds, q, FirstMention(cfg, seeds, q).value.depth);
  }

  lemma {:induction false} PlantedSeen(cfg: Config, s: State, seeds: seq<Seed>)
    requires s.nodes.Keys <= s.seen
    ensures PlantSeeds(cfg, s, seeds).nodes.Keys <= PlantSeeds(cfg, s, seeds).seen
  {
    if seeds != [] { PlantedSeen(cfg, s, seeds[..|seeds| - 1]); }
  }

  // Nothing a done peer gossips is out of reach.
  ghost predicate NothingLost(cfg: Config, done: set<Peer>, s: State) {
    forall d, q | d in done && Gossips(cfg, d, q) :: q in done || Owed(cfg, done, s, q)
  }

  ghost predicate FindsEverything(cfg: Config, seeds: seq<Seed>, t: State) {
    forall p: Peer :: p in t.seen <==> ReachableFrom(cfg, seeds, p)
  }

  // The end t of an unlimited run from a start whose tasks, and what it took as done, are reachable, and that has the
  // seeds: it finds everything exactly when everything reachable is done or owed, and exactly when no gossip of a done
  // peer is lost.
  lemma FindsEverythingIff(cfg: Config, seeds: seq<Seed>, done: set<Peer>, s: State, t: State)
    requires forall p: Peer :: p in t.seen <==> p in done || Owed(cfg, done, s, p)
    requires forall p, q | p in t.seen && p !in done && Gossips(cfg, p, q) :: q in t.seen
    requires forall p: Peer | Queued(s, p) || p in done :: ReachableFrom(cfg, seeds, p)
    requires forall p: Peer | FirstMention(cfg, seeds, p).Some? :: p in t.seen
    ensures FindsEverything(cfg, seeds, t) <==>
            forall p: Peer :: ReachableFrom(cfg, seeds, p) ==> p in done || Owed(cfg, done, s, p)
    ensures FindsEverything(cfg, seeds, t) <==> NothingLost(cfg, done, s)
  {
    forall p | p in t.seen ensures ReachableFrom(cfg, seeds, p) {
      if p !in done { OwedReachable(cfg, seeds, done, s, p); }
    }
    if NothingLost(cfg, done, s) {
      forall p: Peer | ReachableFrom(cfg, seeds, p) ensures p in t.seen { AllReached(cfg, seeds, t.seen, p); }
    }
    if FindsEverything(cfg, seeds, t) {
      forall d, q | d in done && Gossips(cfg, d, q) ensures q in done || Owed(cfg, done, s, q) {
        ReachableStep(cfg, seeds, d, q);
      }
    }
  }

  // The promise that a crawl continues where it left off, for a save made at any moment of an unlimited first run and a
  // second with the same seeds: the two find everything if and only if everything reachable is done or owed, and if and
  // only if no gossip of a peer taken as done is lost.
  lemma ResumeIsExact(text: AddrText, port: nat, cfg: Config, threads: nat, torThreads: nat, seeds: seq<Seed>,
                      first: seq<Event>, next: seq<Event>, last: seq<Event>, order: seq<Peer>, schedule: seq<Event>)
    requires cfg.maxDepth == 0 && cfg.maxNodes == 0
    requires text.Lawful() && SpeakableNetwork(text, cfg) && TextualSeeds(text, seeds)
    requires var s := Start(text, port, cfg, threads, torThreads, None, seeds);
      && Follows(cfg, s, first) && Follows(cfg, s, first + next) && Follows(cfg, s, first + next + last)
      && Lists(order, After(cfg, s, first + next).nodes)
      && var f, n, e := After(cfg, s, first), After(cfg, s, first + next), After(cfg, s, first + next + last);
         var start := Start(text, port, cfg, threads, torThreads, Some(SaveAcross(text, f, n, e, order)), seeds);
         Follows(cfg, start, schedule) && Over(After(cfg, start, schedule))
    ensures var s := Start(text, port, cfg, threads, torThreads, None, seeds);
      var f, n, e := After(cfg, s, first), After(cfg, s, first + next), After(cfg, s, first + next + last);
      var saved := SaveAcross(text, f, n, e, order);
      var done := Done(Resume(text, port, cfg, Blank(Pool(cfg, threads, torThreads)), saved));
      var start := Start(text, port, cfg, threads, torThreads, Some(saved), seeds);
      var u := After(cfg, start, schedule);
      && (FindsEverything(cfg, seeds, u) <==>
          forall p: Peer :: ReachableFrom(cfg, seeds, p) ==> p in done || Owed(cfg, done, start, p))
      && (FindsEverything(cfg, seeds, u) <==> NothingLost(cfg, done, start))
  {
    var s, pool := Start(text, port, cfg, threads, torThreads, None, seeds), Pool(cfg, threads, torThreads);
    var f, n, e := After(cfg, s, first), After(cfg, s, first + next), After(cfg, s, first + next + last);
    var saved := SaveAcross(text, f, n, e, order);
    var r := Resume(text, port, cfg, Blank(pool), saved);
    var start := Start(text, port, cfg, threads, torThreads, Some(saved), seeds);
    FreshIsGood(text, port, cfg, threads, torThreads, seeds);
    ResumedIsGood(text, port, cfg, cfg, s, first, next, last, order, threads, torThreads, seeds);
    RunEnds(cfg, Done(r), start, schedule);
    forall p: Peer
      ensures p in After(cfg, start, schedule).seen <==> p in Done(r) || Owed(cfg, Done(r), start, p)
      ensures p in After(cfg, start, schedule).seen && p !in Done(r) ==>
                forall q | Gossips(cfg, p, q) :: q in After(cfg, start, schedule).seen
      ensures FirstMention(cfg, seeds, p).Some? ==> p in After(cfg, start, schedule).seen
      ensures Queued(start, p) || p in Done(r) ==> ReachableFrom(cfg, seeds, p)
    {
      RunFinds(cfg, Done(r), start, schedule, p);
      assert Ends(cfg, Done(r), start, After(cfg, start, schedule), p);
      PlantedOnto(cfg, r, seeds, p);
      if Queued(start, p) || p in Done(r) {
        StartReachable(text, port, cfg, threads, torThreads, seeds, first, next, last, order, p);
      }
    }
    FindsEverythingIff(cfg, seeds, Done(r), start, After(cfg, start, schedule));
  }

  lemma StartReachable(text: AddrText, port: nat, cfg: Config, threads: nat, torThreads: nat, seeds: seq<Seed>,
                       first: seq<Event>, next: seq<Event>, last: seq<Event>, order: seq<Peer>, p: Peer)
    requires text.Lawful() && SpeakableNetwork(text, cfg) && TextualSeeds(text, seeds)
    requires var s := Start(text, port, cfg, threads, torThreads, None, seeds);
      && Follows(cfg, s, first) && Follows(cfg, s, first + next) && Follows(cfg, s, first + next + last)
      && Lists(order, After(cfg, s, first + next).nodes)
      && var f, n, e := After(cfg, s, first), After(cfg, s, first + next), After(cfg, s, first + next + last);
         var saved := SaveAcross(text, f, n, e, order);
         || Queued(Start(text, port, cfg, threads, torThreads, Some(saved), seeds), p)
         || p in Done(Resume(text, port, cfg, Blank(Pool(cfg, threads, torThreads)), saved))
    ensures ReachableFrom(cfg, seeds, p)
  {
    var s, pool := Start(text, port, cfg, threads, torThreads, None, seeds), Pool(cfg, threads, torThreads);
    var f, n, e := After(cfg, s, first), After(cfg, s, first + next), After(cfg, s, first + next + last);
    FreshIsGood(text, port, cfg, threads, torThreads, seeds);
    SavedFacts(text, cfg, s, first, p);
    SavedFacts(text, cfg, s, first + next, p);
    SavedDone(text, port, cfg, f, n, e, order, pool, p);
    QueuedAfterSeeds(cfg, Resume(text, port, cfg, Blank(pool), SaveAcross(text, f, n, e, order)), seeds, p);
    if Queued(f, p) {
      FirstReachable(text, port, cfg, threads, torThreads, seeds, first, p);
    } else if p in n.nodes {
      FirstReachable(text, port, cfg, threads, torThreads, seeds, first + next, p);
    } else {
      SeedFound(cfg, seeds, p);
      FoundReachable(cfg, seeds, p, FirstMention(cfg, seeds, p).value.depth);
    }
  }

  lemma QueuedAfterSeeds(cfg: Config, s: State, seeds: seq<Seed>, p: Peer)
    ensures Queued(PlantSeeds(cfg, s, seeds), p) ==> Queued(s, p) || FirstMention(cfg, seeds, p).Some?
  {
    var r := PlantSeeds(cfg, s, seeds);
    PlantedOnto(cfg, s, seeds, p);
    if k :| (k in r.clearnet || k in r.onion) && k.peer == p {
      assert k == Task(p, k.depth);
    }
  }

  // ---- A run that loses gossip ----

  // One peer answers, naming another.
  function TellTale(text: AddrText, p: Peer, q: Peer): Config {
    Config(false, 0, 0, 0, [], 0, (x: Peer) => Show(text, x),
           (x: Peer) => if x == p then Some(Answer("", 0, "", "", [q], [])) else None)
  }

  function OneSeed(text: AddrText, port: nat, p: Peer, q: Peer): State {
    Start(text, port, TellTale(text, p, q), 1, 0, None, [Seed(p, 0, None)])
  }

  function ToldState(text: AddrText, p: Peer, q: Peer, k: nat): State {
    var task := Task(p, 0);
    if k == 0 then State([task], [], 0, {p}, map[], [], [Thread(false, Ready)], [], [])
    else if k == 1 then State([], [], 1, {p}, map[], [], [Thread(false, Popped(task))], [], [])
    else if k == 2 then State([], [], 1, {p}, map[], [], [Thread(false, Probing(task))], [], [])
    else
      State([], [], 1, {p}, map[p := Record(TellTale(text, p, q), task, Answer("", 0, "", "", [q], []))], [],
            [Thread(false, Expanding(task, [q]))], [Settled(task, false)], [])
  }

  lemma ToldStep(text: AddrText, p: Peer, q: Peer, k: nat)
    requires k < 3
    ensures Enabled(ToldState(text, p, q, k), Turn(0))
    ensures Step(TellTale(text, p, q), ToldState(text, p, q, k), Turn(0)) == ToldState(text, p, q, k + 1)
  {}

  lemma OneSeedIs(text: AddrText, port: nat, p: Peer, q: Peer)
    requires p.Clearnet?
    ensures OneSeed(text, port, p, q) == ToldState(text, p, q, 0)
  {
    var cfg, blank := TellTale(text, p, q), Blank([Thread(false, Ready)]);
    assert Pool(cfg, 1, 0) == [Thread(false, Ready)];
    PlantOne(cfg, blank, Seed(p, 0, None));
    assert PlantSeed(cfg, blank, Seed(p, 0, None)).clearnet == [Task(p, 0)];
  }

  lemma PlantOne(cfg: Config, s: State, seed: Seed)
    ensures PlantSeeds(cfg, s, [seed]) == PlantSeed(cfg, s, seed)
  {
    assert [seed][..0] == [];
    assert PlantSeeds(cfg, s, []) == s;
  }

  lemma ThreeTurns(text: AddrText, port: nat, p: Peer, q: Peer)
    requires p.Clearnet?
    ensures Follows(TellTale(text, p, q), OneSeed(text, port, p, q), [Turn(0), Turn(0), Turn(0)])
    ensures After(TellTale(text, p, q), OneSeed(text, port, p, q), [Turn(0), Turn(0), Turn(0)]) == ToldState(text, p, q, 3)
  {
    var cfg, s := TellTale(text, p, q), OneSeed(text, port, p, q);
    OneSeedIs(text, port, p, q);
    ToldStep(text, p, q, 0);
    ToldStep(text, p, q, 1);
    ToldStep(text, p, q, 2);
    Then(cfg, s, [], Turn(0));
    Then(cfg, s, [] + [Turn(0)], Turn(0));
    Then(cfg, s, [] + [Turn(0)] + [Turn(0)], Turn(0));
    assert [] + [Turn(0)] + [Turn(0)] + [Turn(0)] == [Turn(0), Turn(0), Turn(0)];
  }

  // The start resumed from the save after three turns, with the seed.
  function LaterStart(text: AddrText, p: Peer, q: Peer): State {
    State([], [], 0, {p}, ToldState(text, p, q, 3).nodes, [], [Thread(false, Ready)], [], [])
  }

  lemma LaterStartIs(text: AddrText, port: nat, p: Peer, q: Peer)
    requires text.Lawful() && p.Clearnet? && p != PLACEHOLDER
    ensures Lists([p], ToldState(text, p, q, 3).nodes)
    ensures Start(text, port, TellTale(text, p, q), 1, 0, Some(Save(text, ToldState(text, p, q, 3), [p])), [Seed(p, 0, None)])
         == LaterStart(text, p, q)
  {
    var cfg, pool := TellTale(text, p, q), [Thread(false, Ready)];
    assert Pool(cfg, 1, 0) == pool;
    LaterResumed(text, port, p, q, pool);
    PlantOne(cfg, LaterStart(text, p, q), Seed(p, 0, None));
  }

  lemma LaterResumed(text: AddrText, port: nat, p: Peer, q: Peer, pool: seq<Thread>)
    requires text.Lawful() && p.Clearnet? && p != PLACEHOLDER && pool == [Thread(false, Ready)]
    ensures Lists([p], ToldState(text, p, q, 3).nodes)
    ensures Resume(text, port, TellTale(text, p, q), Blank(pool), Save(text, ToldState(text, p, q, 3), [p]))
         == LaterStart(text, p, q)
  {
    var t := ToldState(text, p, q, 3);
    ToldTextual(text, p, q);
    SaveThenResume(text, port, TellTale(text, p, q), t, t, t, [p], pool);
    assert t.nodes - {PLACEHOLDER} == t.nodes;
    assert t.nodes.Keys + (set k | k in t.clearnet + t.onion :: k.peer) == {p};
  }

  lemma ToldTextual(text: AddrText, p: Peer, q: Peer)
    requires text.Lawful() && p.Clearnet?
    ensures var t := ToldState(text, p, q, 3);
      Textual(text, t) && Routed(TellTale(text, p, q), t) && Lists([p], t.nodes)
  {}

  // It ends after one turn.
  lemma LaterEnds(text: AddrText, p: Peer, q: Peer)
    ensures Follows(TellTale(text, p, q), LaterStart(text, p, q), [Turn(0)])
    ensures Over(After(TellTale(text, p, q), LaterStart(text, p, q), [Turn(0)]))
    ensures After(TellTale(text, p, q), LaterStart(text, p, q), [Turn(0)]).seen == {p}
  {
    var cfg, r := TellTale(text, p, q), LaterStart(text, p, q);
    Then(cfg, r, [], Turn(0));
    assert [] + [Turn(0)] == [Turn(0)];
    assert Poll(r, 0).threads == [Thread(false, Exited)];
  }

  lemma QIsReachable(text: AddrText, p: Peer, q: Peer)
    requires p.Clearnet? && q.Clearnet?
    ensures ReachableFrom(TellTale(text, p, q), [Seed(p, 0, None)], q)
  {
    var cfg, seeds := TellTale(text, p, q), [Seed(p, 0, None)];
    assert seeds[..0] == [];
    assert FirstMention(cfg, seeds, p).Some?;
    SeedFound(cfg, seeds, p);
    FoundReachable(cfg, seeds, p, 0);
    assert Gossips(cfg, p, q);
    ReachableStep(cfg, seeds, p, q);
  }

  // Saved between the record of an answer and the look at its gossip, a crawl forgets nobody it has seen, and yet the
  // crawl resumed from the file ends without the peer the answer named: its informant counts as done.
  lemma GossipIsLost(text: AddrText, port: nat, p: Peer, q: Peer)
    requires text.Lawful() && p.Clearnet? && q.Clearnet? && p != q && p != PLACEHOLDER
    ensures Follows(TellTale(text, p, q), OneSeed(text, port, p, q), [Turn(0), Turn(0), Turn(0)])
    ensures var cfg, turns := TellTale(text, p, q), [Turn(0), Turn(0), Turn(0)];
      var t := After(cfg, OneSeed(text, port, p, q), turns);
      && (forall x: Peer :: !Carried(t, x) && !Dropped(t, x)) && Lists([p], t.nodes)
      && var r := Start(text, port, cfg, 1, 0, Some(Save(text, t, [p])), [Seed(p, 0, None)]);
         && t.seen <= r.seen
         && Follows(cfg, r, [Turn(0)]) && Over(After(cfg, r, [Turn(0)]))
         && ReachableFrom(cfg, [Seed(p, 0, None)], q) && q !in After(cfg, r, [Turn(0)]).seen
  {
    ThreeTurns(text, port, p, q);
    LaterStartIs(text, port, p, q);
    QIsReachable(text, p, q);
    NobodyHolds(text, p, q);
    LaterEnds(text, p, q);
  }

  lemma NobodyHolds(text: AddrText, p: Peer, q: Peer)
    ensures forall x: Peer :: !Carried(ToldState(text, p, q, 3), x) && !Dropped(ToldState(text, p, q, 3), x)
  {}
}
