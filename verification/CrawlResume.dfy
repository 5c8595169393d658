// Saving a crawl at any time and resuming from the file, and exactly what is forgotten (src/crawler.rs, src/state.rs).
module CrawlResume {
  import opened Prelude
  import opened Peers
  import opened Crawl
  import opened CrawlProgress
  import opened CrawlConservation
  import opened CrawlOutcome
  import opened CrawlStart

  predicate IsReal(t: Task) { t.peer != PLACEHOLDER }

  function FrontierText(text: AddrText, tasks: seq<Task>): seq<(string, nat)> {
    if tasks == [] then []
    else
      var front, t := tasks[..|tasks| - 1], tasks[|tasks| - 1];
      if Show(text, t.peer) == PLACEHOLDER_TEXT then FrontierText(text, front)
      else FrontierText(text, front) + [(Show(text, t.peer), t.depth)]
  }

  // The records in the order the hash map happens to list its keys.
  function NodeList(nodes: map<Peer, NodeInfo>, order: seq<Peer>): seq<NodeInfo>
    requires forall p | p in order :: p in nodes
  {
    if order == [] then []
    else
      var front, p := order[..|order| - 1], order[|order| - 1];
      assert p in order;
      assert forall q | q in front :: q in order;
      if nodes[p].addr == PLACEHOLDER_TEXT then NodeList(nodes, front)
      else NodeList(nodes, front) + [nodes[p]]
  }

  ghost predicate Lists(order: seq<Peer>, nodes: map<Peer, NodeInfo>) {
    forall p :: p in order <==> p in nodes
  }

  // save_state takes the frontier's lock, then the nodes', then the edges': what it writes are the stacks of one moment,
  // the records of a later one and the edges of a third.
  ghost function SaveAcross(text: AddrText, f: State, n: State, e: State, order: seq<Peer>): Saved
    requires Lists(order, n.nodes)
  {
    Saved(FrontierText(text, f.clearnet + f.onion), NodeList(n.nodes, order), e.edges)
  }

  // A save during which nothing happens.
  ghost function Save(text: AddrText, s: State, order: seq<Peer>): Saved
    requires Lists(order, s.nodes)
  {
    SaveAcross(text, s, s, s, order)
  }

  // Every peer of the state can be written and read back, and records carry their peer's text as their address.
  ghost predicate Textual(text: AddrText, s: State) { TextualQueue(text, s) && TextualNodes(text, s) }

  ghost predicate TextualQueue(text: AddrText, s: State) {
    text.Lawful() && forall t | t in s.clearnet || t in s.onion :: WellFormed(t.peer)
  }

  ghost predicate TextualNodes(text: AddrText, s: State) {
    text.Lawful() && forall p | p in s.nodes :: WellFormed(p) && s.nodes[p].addr == Show(text, p)
  }

  lemma PlaceholderText(text: AddrText, p: Peer)
    requires text.Lawful() && WellFormed(p)
    ensures Show(text, p) == PLACEHOLDER_TEXT <==> p == PLACEHOLDER
  {
    if Show(text, p) == PLACEHOLDER_TEXT { ShowInjective(text, p, PLACEHOLDER); }
  }

  lemma {:induction false} NodesRestored(text: AddrText, port: nat, s: State, nodes: map<Peer, NodeInfo>, order: seq<Peer>)
    requires text.Lawful() && s.nodes == map[] && s.seen == {}
    requires forall p | p in order :: p in nodes && WellFormed(p) && nodes[p].addr == Show(text, p)
    ensures var r := RestoreNodes(text, port, s, NodeList(nodes, order));
      && r == s.(nodes := r.nodes, seen := r.seen)
      && (forall p :: p in r.nodes <==> p in order && p != PLACEHOLDER)
      && (forall p | p in r.nodes :: r.nodes[p] == nodes[p])
      && r.seen == r.nodes.Keys
  {
    if order != [] {
      var front, p := order[..|order| - 1], order[|order| - 1];
      assert order == front + [p];
      NodesRestored(text, port, s, nodes, front);
      PlaceholderText(text, p);
      ParseShow(text, p, port);
      if p != PLACEHOLDER {
        var listed := NodeList(nodes, order);
        assert listed[..|listed| - 1] == NodeList(nodes, front);
      }
    }
  }

  // The real tasks of one pool.
  function RealOf(onionPool: bool, tasks: seq<Task>): seq<Task> {
    if tasks == [] then []
    else
      var front, t := tasks[..|tasks| - 1], tasks[|tasks| - 1];
      if IsReal(t) && t.peer.Onion? == onionPool then RealOf(onionPool, front) + [t] else RealOf(onionPool, front)
  }

  function RealPeers(tasks: seq<Task>): set<Peer> {
    if tasks == [] then {}
    else
      var front, t := tasks[..|tasks| - 1], tasks[|tasks| - 1];
      if IsReal(t) then RealPeers(front) + {t.peer} else RealPeers(front)
  }

  // Restoring the text of tasks pushes the real ones back, each on its own pool's stack, in order.
  lemma {:induction false} TasksRestored(text: AddrText, port: nat, cfg: Config, s: State, tasks: seq<Task>)
    requires text.Lawful()
    requires forall t | t in tasks :: WellFormed(t.peer) && cfg.Allowed(t.peer)
    ensures RestoreFrontier(text, port, cfg, s, FrontierText(text, tasks))
         == s.(clearnet := s.clearnet + RealOf(false, tasks), onion := s.onion + RealOf(true, tasks),
               seen := s.seen + RealPeers(tasks))
  {
    if tasks == [] {
      assert s.clearnet + [] == s.clearnet && s.onion + [] == s.onion && s.seen + {} == s.seen;
    } else {
      var front, t := tasks[..|tasks| - 1], tasks[|tasks| - 1];
      TasksRestored(text, port, cfg, s, front);
      PlaceholderText(text, t.peer);
      ParseShow(text, t.peer, port);
      if IsReal(t) {
        var listed := FrontierText(text, tasks);
        assert listed[..|listed| - 1] == FrontierText(text, front);
        assert s.seen + RealPeers(tasks) == s.seen + RealPeers(front) + {t.peer};
        assert s.clearnet + (RealOf(false, front) + [t]) == s.clearnet + RealOf(false, front) + [t];
        assert s.onion + (RealOf(true, front) + [t]) == s.onion + RealOf(true, front) + [t];
      }
    }
  }

  lemma RealOfLast(front: seq<Task>, t: Task, tasks: seq<Task>)
    requires tasks == front + [t]
    ensures forall pool: bool ::
      RealOf(pool, tasks) == if IsReal(t) && t.peer.Onion? == pool then RealOf(pool, front) + [t] else RealOf(pool, front)
  {
    assert tasks[..|tasks| - 1] == front;
  }

  lemma NoMore<T>(xs: seq<T>)
    ensures xs + [] == xs && [] + xs == xs
  {}

  lemma OnStackFront(tasks: seq<Task>, onionPool: bool)
    requires OnStack(tasks, onionPool) && tasks != []
    ensures OnStack(tasks[..|tasks| - 1], onionPool) && tasks[|tasks| - 1].peer.Onion? == onionPool
  {
    assert tasks[|tasks| - 1] in tasks;
  }

  lemma {:induction false} RealOfRouted(clearnet: seq<Task>, onion: seq<Task>)
    requires OnStack(clearnet, false) && OnStack(onion, true)
    ensures RealOf(false, clearnet + onion) == Filter(IsReal, clearnet)
    ensures RealOf(true, clearnet + onion) == onion
    decreases |clearnet| + |onion|
  {
    var tasks := clearnet + onion;
    if onion != [] {
      var front := onion[..|onion| - 1];
      var t := onion[|onion| - 1];
      OnStackFront(onion, true);
      RealOfRouted(clearnet, front);
      LastOfConcat(clearnet, onion);
      RealOfLast(clearnet + front, t, tasks);
    } else if clearnet != [] {
      var front, t := clearnet[..|clearnet| - 1], clearnet[|clearnet| - 1];
      OnStackFront(clearnet, false);
      RealOfRouted(front, []);
      NoMore(clearnet);
      NoMore(front);
      LastOfConcat([], clearnet);
      RealOfLast(front, t, clearnet);
    }
  }

  lemma {:induction false} RealPeersAre(tasks: seq<Task>)
    ensures RealPeers(tasks) == (set t | t in tasks :: t.peer) - {PLACEHOLDER}
  {
    if tasks != [] {
      var front, t := tasks[..|tasks| - 1], tasks[|tasks| - 1];
      RealPeersAre(front);
      assert tasks == front + [t];
      assert (set k | k in tasks :: k.peer) == (set k | k in front :: k.peer) + {t.peer};
    }
  }

  lemma NodesRestoredFromBlank(text: AddrText, port: nat, s: State, order: seq<Peer>, threads: seq<Thread>)
    requires TextualNodes(text, s) && Lists(order, s.nodes)
    ensures var nodes := s.nodes - {PLACEHOLDER};
      RestoreNodes(text, port, Blank(threads), NodeList(s.nodes, order))
      == Blank(threads).(nodes := nodes, seen := nodes.Keys)
  {
    NodesRestored(text, port, Blank(threads), s.nodes, order);
    LessPlaceholder(s.nodes, RestoreNodes(text, port, Blank(threads), NodeList(s.nodes, order)).nodes, order);
  }

  lemma LessPlaceholder(nodes: map<Peer, NodeInfo>, restored: map<Peer, NodeInfo>, order: seq<Peer>)
    requires Lists(order, nodes)
    requires forall p :: p in restored <==> p in order && p != PLACEHOLDER
    requires forall p | p in restored :: restored[p] == nodes[p]
    ensures restored == nodes - {PLACEHOLDER}
  {}

  lemma FrontierAllowed(cfg: Config, s: State)
    requires Routed(cfg, s)
    ensures forall t | t in s.clearnet + s.onion :: cfg.Allowed(t.peer)
  {}

  // What any save is resumed as: both stacks in their order and all records and edges, each as its lock was held, less
  // the placeholder; `seen` is rebuilt from the records and the stacks; and nothing has been done yet.
  lemma SaveThenResume(text: AddrText, port: nat, cfg: Config, f: State, n: State, e: State, order: seq<Peer>,
                       threads: seq<Thread>)
    requires TextualQueue(text, f) && Routed(cfg, f) && TextualNodes(text, n) && Lists(order, n.nodes)
    ensures Resume(text, port, cfg, Blank(threads), SaveAcross(text, f, n, e, order))
         == State(Filter(IsReal, f.clearnet), f.onion, 0,
                  (n.nodes.Keys + (set t | t in f.clearnet + f.onion :: t.peer)) - {PLACEHOLDER},
                  n.nodes - {PLACEHOLDER}, e.edges, threads, [], [])
  {
    var tasks, nodes := f.clearnet + f.onion, n.nodes - {PLACEHOLDER};
    NodesRestoredFromBlank(text, port, n, order, threads);
    FrontierAllowed(cfg, f);
    TasksRestored(text, port, cfg, Blank(threads).(nodes := nodes, seen := nodes.Keys), tasks);
    RealOfRouted(f.clearnet, f.onion);
    RealPeersAre(tasks);
    NothingBefore(Filter(IsReal, f.clearnet), f.onion, e.edges);
    assert nodes.Keys + RealPeers(tasks) == (n.nodes.Keys + (set t | t in tasks :: t.peer)) - {PLACEHOLDER};
  }

  lemma NothingBefore(clearnet: seq<Task>, onion: seq<Task>, edges: seq<Edge>)
    ensures [] + clearnet == clearnet && [] + onion == onion && [] + edges == edges
  {}

  // ---- After a run ----

  // The network gossips only peers that can be written down, and the crawl's own inputs can be.
  ghost predicate Speakable(text: AddrText, cfg: Config, s: State) {
    && text.Lawful() && Textual(text, s)
    && (forall p: Peer :: cfg.show(p) == Show(text, p))
    && (forall p: Peer, q: Peer :: Gossips(cfg, p, q) ==> WellFormed(q))
  }

  lemma RootedWellFormed(text: AddrText, cfg: Config, s: State, t: Task)
    requires Speakable(text, cfg, s) && Rooted(cfg, s.clearnet + s.onion, t)
    ensures WellFormed(t.peer)
  {
    var path :| Route(cfg, s.clearnet + s.onion, path, t);
    if |path| > 1 {
      assert Gossips(cfg, path[|path| - 2], path[|path| - 1]);
    } else {
      assert t in s.clearnet + s.onion;
    }
  }

  lemma RunTextual(text: AddrText, cfg: Config, base: set<Peer>, s: State, schedule: seq<Event>)
    requires Begin(cfg, s) && Distinct(base, s) && Follows(cfg, s, schedule) && Speakable(text, cfg, s)
    ensures Textual(text, After(cfg, s, schedule))
  {
    Everywhere(cfg, base, s, schedule);
    var t := After(cfg, s, schedule);
    forall k | k in t.clearnet || k in t.onion ensures WellFormed(k.peer) { RootedWellFormed(text, cfg, s, k); }
    forall p | p in t.nodes ensures WellFormed(p) && t.nodes[p].addr == Show(text, p) {
      if Concluded(t, p) {
        var x :| x in t.settled && x.task.peer == p && !x.dropped;
        RootedWellFormed(text, cfg, s, x.task);
      } else {
        assert Agree(t.nodes, s.nodes, p);
      }
    }
  }

  lemma ResumedSees(text: AddrText, port: nat, cfg: Config, f: State, n: State, e: State, order: seq<Peer>,
                    threads: seq<Thread>, p: Peer)
    requires TextualQueue(text, f) && Routed(cfg, f) && TextualNodes(text, n) && Lists(order, n.nodes)
    ensures p in Resume(text, port, cfg, Blank(threads), SaveAcross(text, f, n, e, order)).seen
        <==> p != PLACEHOLDER && (p in n.nodes || Queued(f, p))
  {
    SaveThenResume(text, port, cfg, f, n, e, order, threads);
  }

  // ---- What a save forgets ----

  // A thread has the peer in hand, or has found it and not pushed it.
  ghost predicate Carried(s: State, p: Peer) {
    exists i :: 0 <= i < |s.threads| && Held(p, s.threads[i].phase) > 0
  }

  // The node cap dropped the peer.
  ghost predicate Dropped(s: State, p: Peer) {
    exists x :: x in s.settled && x.task.peer == p && x.dropped
  }

  // The start of a crawl whose recorded peers are seen, and whose pending ones are all different.
  ghost predicate GoodStart(text: AddrText, cfg: Config, s: State) {
    Begin(cfg, s) && Speakable(text, cfg, s) && s.nodes.Keys <= s.seen && Distinct(Done(s), s)
  }

  lemma CarriedIff(s: State, p: Peer)
    ensures Carried(s, p) <==> Total(Holds(p), s.threads) > 0
  {
    if i :| 0 <= i < |s.threads| && Held(p, s.threads[i].phase) > 0 { TotalAtLeast(Holds(p), s.threads, i); }
    if Total(Holds(p), s.threads) > 0 {
      var i := SomewhereIn(Holds(p), s.threads);
    }
  }

  lemma SettledCount(s: State, p: Peer)
    ensures (exists x :: x in s.settled && x.task.peer == p) <==> Total(SettledAs(p), s.settled) > 0
  {
    if x :| x in s.settled && x.task.peer == p {
      var k :| 0 <= k < |s.settled| && s.settled[k] == x;
      TotalAtLeast(SettledAs(p), s.settled, k);
    }
    if Total(SettledAs(p), s.settled) > 0 {
      var k := SomewhereIn(SettledAs(p), s.settled);
      assert s.settled[k] in s.settled;
    }
  }

  // Where a seen peer is that is neither queued nor recorded.
  lemma Whereabouts(cfg: Config, base: set<Peer>, s: State, t: State, p: Peer)
    requires Conserved(base, t) && Recorded(cfg, s.nodes, t) && base <= s.nodes.Keys <= t.nodes.Keys
    ensures p in t.seen && !Queued(t, p) && p !in t.nodes ==> Carried(t, p) || Dropped(t, p)
    ensures Carried(t, p) || Dropped(t, p) ==> p in t.seen && !Queued(t, p)
  {
    QueuedIff(t, p);
    CarriedIff(t, p);
    SettledCount(t, p);
    assert Places(t, p) == QueuedCount(t, p) + Total(Holds(p), t.threads) + Total(SettledAs(p), t.settled);
  }

  lemma {:induction false} Onward(cfg: Config, s: State, first: seq<Event>, next: seq<Event>)
    requires Follows(cfg, s, first + next)
    ensures Follows(cfg, s, first)
    ensures var t, u := After(cfg, s, first), After(cfg, s, first + next);
      t.seen <= u.seen && t.nodes.Keys <= u.nodes.Keys
  {
    if next == [] {
      assert first + next == first;
    } else {
      var front := next[..|next| - 1];
      assert (first + next)[..|first + next| - 1] == first + front;
      Onward(cfg, s, first, front);
      SeenGrows(cfg, After(cfg, s, first + front), next[|next| - 1]);
      NodesGrow(cfg, After(cfg, s, first + front), next[|next| - 1]);
    }
  }

  // A save at any time, the other threads running on between its locks: the records are those of a moment after the
  // stacks', the edges of one after that. Of the peers seen by the time the records are copied, the resumed crawl has
  // forgotten exactly the placeholder and those without a record that were, when the stacks were copied, in a thread's
  // hands, found and not pushed, dropped by the cap, or not seen yet.
  lemma SaveForgets(text: AddrText, port: nat, cfg: Config, s: State, first: seq<Event>, next: seq<Event>,
                    last: seq<Event>, order: seq<Peer>, threads: seq<Thread>, p: Peer)
    requires GoodStart(text, cfg, s) && Follows(cfg, s, first + next) && Follows(cfg, s, first + next + last)
    requires Follows(cfg, s, first) && Lists(order, After(cfg, s, first + next).nodes)
    ensures var f, n, e := After(cfg, s, first), After(cfg, s, first + next), After(cfg, s, first + next + last);
      var r := Resume(text, port, cfg, Blank(threads), SaveAcross(text, f, n, e, order));
      && (p in r.seen ==> p in n.seen)
      && (p in n.seen && p !in r.seen <==>
            p in n.seen && (p == PLACEHOLDER || (p !in n.nodes && (p !in f.seen || Carried(f, p) || Dropped(f, p)))))
  {
    var f, n, e := After(cfg, s, first), After(cfg, s, first + next), After(cfg, s, first + next + last);
    SavedFacts(text, cfg, s, first, p);
    SavedFacts(text, cfg, s, first + next, p);
    Onward(cfg, s, first, next);
    ResumedSees(text, port, cfg, f, n, e, order, threads, p);
  }

  // What a save needs of the state it copies.
  lemma SavedFacts(text: AddrText, cfg: Config, s: State, schedule: seq<Event>, p: Peer)
    requires GoodStart(text, cfg, s) && Follows(cfg, s, schedule)
    ensures var t := After(cfg, s, schedule);
      && Textual(text, t) && Routed(cfg, t)
      && (p in t.nodes || Queued(t, p) ==> p in t.seen)
      && (p in t.seen && !Queued(t, p) && p !in t.nodes ==> Carried(t, p) || Dropped(t, p))
      && (Carried(t, p) || Dropped(t, p) ==> p in t.seen && !Queued(t, p))
  {
    var t := After(cfg, s, schedule);
    Everywhere(cfg, Done(s), s, schedule);
    RunTextual(text, cfg, Done(s), s, schedule);
    Always(cfg, s, schedule);
    SeenStays(cfg, s, schedule);
    NodesStay(cfg, s, schedule);
    NodesSeen(cfg, Done(s), s, t, p);
    Whereabouts(cfg, Done(s), s, t, p);
  }

  // A save during which nothing happens, in any state: what is forgotten is exactly the placeholder and the peers
  // without a record that a thread has in hand or has found and not pushed, or that the cap dropped.
  lemma SaveForgetsAt(text: AddrText, port: nat, cfg: Config, s: State, schedule: seq<Event>,
                      order: seq<Peer>, threads: seq<Thread>, p: Peer)
    requires GoodStart(text, cfg, s) && Follows(cfg, s, schedule) && Lists(order, After(cfg, s, schedule).nodes)
    ensures var t := After(cfg, s, schedule);
      var r := Resume(text, port, cfg, Blank(threads), Save(text, t, order));
      && (p in r.seen ==> p in t.seen)
      && (p in t.seen && p !in r.seen <==>
            p in t.seen && (p == PLACEHOLDER || (p !in t.nodes && (Carried(t, p) || Dropped(t, p)))))
  {
    assert schedule + [] == schedule;
    SaveForgets(text, port, cfg, s, schedule, [], [], order, threads, p);
  }

  // At a standstill no thread has anything in hand, so only the placeholder and dropped peers are forgotten.
  lemma StandstillSeen(text: AddrText, port: nat, cfg: Config, s: State, schedule: seq<Event>,
                       order: seq<Peer>, threads: seq<Thread>, p: Peer)
    requires GoodStart(text, cfg, s) && Follows(cfg, s, schedule)
    requires var t := After(cfg, s, schedule); t.active == 0 && Lists(order, t.nodes)
    ensures var t := After(cfg, s, schedule);
      var r := Resume(text, port, cfg, Blank(threads), Save(text, t, order));
      && (p in r.seen ==> p in t.seen)
      && (p in t.seen && p !in r.seen <==> p in t.seen && (p == PLACEHOLDER || (p !in t.nodes && Dropped(t, p))))
  {
    SaveForgetsAt(text, port, cfg, s, schedule, order, threads, p);
    Always(cfg, s, schedule);
    NobodyCarries(After(cfg, s, schedule), p);
  }

  lemma NobodyCarries(t: State, p: Peer)
    requires t.active == 0 == Total(BusyCount, t.threads)
    ensures !Carried(t, p)
  {
    forall i | 0 <= i < |t.threads| ensures Held(p, t.threads[i].phase) == 0 { TotalAtLeast(BusyCount, t.threads, i); }
  }

  lemma {:induction false} RealNames(tasks: seq<Task>, p: Peer)
    ensures Total(Names(p), Filter(IsReal, tasks)) == if p == PLACEHOLDER then 0 else Total(Names(p), tasks)
  {
    if tasks != [] {
      var front, t := tasks[..|tasks| - 1], tasks[|tasks| - 1];
      RealNames(front, p);
      assert Total(Names(p), tasks) == Total(Names(p), front) + Names(p)(t);
      if IsReal(t) {
        TotalPush(Names(p), Filter(IsReal, front), t);
        assert Filter(IsReal, tasks) == Filter(IsReal, front) + [t];
      } else {
        assert Filter(IsReal, tasks) == Filter(IsReal, front);
      }
    }
  }

  // Every save of such a crawl is a file without a peer pending twice: what is proved of distinct tasks holds of the
  // crawl resumed from it, whenever it was written.
  lemma SavedAreDifferent(text: AddrText, port: nat, cfg: Config, then': Config, s: State, first: seq<Event>,
                          next: seq<Event>, last: seq<Event>, order: seq<Peer>)
    requires GoodStart(text, cfg, s) && Follows(cfg, s, first + next) && Follows(cfg, s, first + next + last)
    requires Follows(cfg, s, first) && Lists(order, After(cfg, s, first + next).nodes)
    requires then'.onionEnabled == cfg.onionEnabled
    ensures var f, n, e := After(cfg, s, first), After(cfg, s, first + next), After(cfg, s, first + next + last);
      AllDifferent(Pending(text, port, then', SaveAcross(text, f, n, e, order).frontier))
  {
    var f, n, e := After(cfg, s, first), After(cfg, s, first + next), After(cfg, s, first + next + last);
    var saved := SaveAcross(text, f, n, e, order);
    var pending := Pending(text, port, then', saved.frontier);
    SavedFacts(text, cfg, s, first, PLACEHOLDER);
    SavedFacts(text, cfg, s, first + next, PLACEHOLDER);
    Everywhere(cfg, Done(s), s, first);
    RoutedSame(cfg, then', f);
    SaveThenResume(text, port, then', f, n, e, order, []);
    forall p: Peer ensures Total(Is(p), pending) <= 1 {
      ResumedAt(text, port, then', [], saved, p);
      RealNames(f.clearnet, p);
      assert QueuedCount(f, p) <= Places(f, p) <= 1;
    }
    OnceDifferent(pending);
  }

  // Routing depends on the proxy alone.
  lemma RoutedSame(cfg: Config, then': Config, s: State)
    requires Routed(cfg, s) && then'.onionEnabled == cfg.onionEnabled
    ensures Routed(then', s)
  {}

  // ---- Two runs that lose a peer ----

  // A crawl of two dead peers with one thread.
  function TwoDead(text: AddrText, cap: nat): Config {
    Config(false, 0, cap, 0, [], 0, (p: Peer) => Show(text, p), (p: Peer) => None)
  }

  function TwoSeeds(text: AddrText, port: nat, cap: nat, p: Peer, q: Peer): State {
    Start(text, port, TwoDead(text, cap), 1, 0, None, [Seed(p, 0, None), Seed(q, 0, None)])
  }

  lemma TwoSeedsAre(text: AddrText, port: nat, cap: nat, p: Peer, q: Peer)
    requires p.Clearnet? && q.Clearnet? && p != q
    ensures TwoSeeds(text, port, cap, p, q)
         == State([Task(p, 0), Task(q, 0)], [], 0, {p, q}, map[], [], [Thread(false, Ready)], [], [])
  {
    var cfg, blank := TwoDead(text, cap), Blank([Thread(false, Ready)]);
    var seeds := [Seed(p, 0, None), Seed(q, 0, None)];
    assert Pool(cfg, 1, 0) == [Thread(false, Ready)];
    assert seeds[..1] == [seeds[0]] && [seeds[0]][..0] == [];
    assert PlantSeeds(cfg, blank, [seeds[0]]) == PlantSeed(cfg, blank, seeds[0]);
    assert PlantSeed(cfg, blank, seeds[0]).clearnet == [Task(p, 0)];
    assert [Task(p, 0)] + [Task(q, 0)] == [Task(p, 0), Task(q, 0)];
    assert {p} + {q} == {p, q};
  }

  // Probed on the way, the second seed fills a cap of one; the first is then dropped, and a crawl resumed from the file
  // written at the end has never heard of it.
  lemma DroppedIsForgotten(text: AddrText, port: nat, p: Peer, q: Peer, threads: seq<Thread>)
    returns (schedule: seq<Event>, order: seq<Peer>)
    requires text.Lawful() && p.Clearnet? && q.Clearnet? && p != q
    ensures Follows(TwoDead(text, 1), TwoSeeds(text, port, 1, p, q), schedule)
    ensures var t := After(TwoDead(text, 1), TwoSeeds(text, port, 1, p, q), schedule);
      && t.active == 0 && Lists(order, t.nodes) && p in t.seen
      && p !in Resume(text, port, TwoDead(text, 1), Blank(threads), Save(text, t, order)).seen
  {
    var cfg, s := TwoDead(text, 1), TwoSeeds(text, port, 1, p, q);
    TwoSeedsAre(text, port, 1, p, q);
    schedule, order := [], [q];
    for k := 0 to 7
      invariant Follows(cfg, s, schedule) && After(cfg, s, schedule) == DropRun(text, p, q, k)
    {
      DropRunStep(text, p, q, k);
      Then(cfg, s, schedule, Turn(0));
      schedule := schedule + [Turn(0)];
    }
    var t := DropRun(text, p, q, 7);
    ResumedSees(text, port, cfg, t, t, t, order, threads, p);
  }

  // Its states, one turn after another.
  function DropRun(text: AddrText, p: Peer, q: Peer, k: nat): State {
    var a, b := Task(p, 0), Task(q, 0);
    var none, filled := map[], map[q := Stub(TwoDead(text, 1), b)];
    var one, two := [Settled(b, false)], [Settled(b, false), Settled(a, true)];
    if k == 0 then State([a, b], [], 0, {p, q}, none, [], [Thread(false, Ready)], [], [])
    else if k == 1 then State([a], [], 1, {p, q}, none, [], [Thread(false, Popped(b))], [], [])
    else if k == 2 then State([a], [], 1, {p, q}, none, [], [Thread(false, Probing(b))], [], [])
    else if k == 3 then State([a], [], 1, {p, q}, filled, [], [Thread(false, Finishing(b, [], []))], one, [])
    else if k == 4 then State([a], [], 0, {p, q}, filled, [], [Thread(false, Ready)], one, [])
    else if k == 5 then State([], [], 1, {p, q}, filled, [], [Thread(false, Popped(a))], one, [])
    else if k == 6 then State([], [], 1, {p, q}, filled, [], [Thread(false, Finishing(a, [], []))], two, [])
    else State([], [], 0, {p, q}, filled, [], [Thread(false, Ready)], two, [])
  }

  lemma DropRunStep(text: AddrText, p: Peer, q: Peer, k: nat)
    requires k < 7
    ensures Enabled(DropRun(text, p, q, k), Turn(0))
    ensures Step(TwoDead(text, 1), DropRun(text, p, q, k), Turn(0)) == DropRun(text, p, q, k + 1)
  {
    if k < 4 { DropRunFirst(text, p, q, k); } else { DropRunLast(text, p, q, k); }
  }

  lemma DropRunFirst(text: AddrText, p: Peer, q: Peer, k: nat)
    requires k < 4
    ensures Enabled(DropRun(text, p, q, k), Turn(0))
    ensures Step(TwoDead(text, 1), DropRun(text, p, q, k), Turn(0)) == DropRun(text, p, q, k + 1)
  {}

  lemma DropRunLast(text: AddrText, p: Peer, q: Peer, k: nat)
    requires 4 <= k < 7
    ensures Enabled(DropRun(text, p, q, k), Turn(0))
    ensures Step(TwoDead(text, 1), DropRun(text, p, q, k), Turn(0)) == DropRun(text, p, q, k + 1)
  {}

  // Its stacks copied before the first turn and its records after the third, the file still has pending a peer that was
  // probed meanwhile, and the resumed crawl probes it again.
  lemma ProbedInBothRuns(text: AddrText, port: nat, p: Peer, q: Peer, threads: seq<Thread>)
    requires text.Lawful() && p.Clearnet? && q.Clearnet? && p != q && q != PLACEHOLDER
    ensures Follows(TwoDead(text, 1), TwoSeeds(text, port, 1, p, q), [Turn(0), Turn(0), Turn(0)])
    ensures var cfg, s := TwoDead(text, 1), TwoSeeds(text, port, 1, p, q);
      var n := After(cfg, s, [Turn(0), Turn(0), Turn(0)]);
      && Lists([q], n.nodes) && Settled(Task(q, 0), false) in n.settled
      && var r := Resume(text, port, cfg, Blank(threads), SaveAcross(text, s, n, n, [q]));
         Task(q, 0) in r.clearnet && q in r.nodes
  {
    TwoSeedsAre(text, port, 1, p, q);
    ThreeTurns(text, port, p, q);
    StaleQueue(text, port, TwoDead(text, 1), DropRun(text, p, q, 0), DropRun(text, p, q, 3), q, threads);
  }

  lemma StaleQueue(text: AddrText, port: nat, cfg: Config, f: State, n: State, q: Peer, threads: seq<Thread>)
    requires TextualQueue(text, f) && Routed(cfg, f) && TextualNodes(text, n) && Lists([q], n.nodes)
    requires Task(q, 0) in f.clearnet && q != PLACEHOLDER
    ensures var r := Resume(text, port, cfg, Blank(threads), SaveAcross(text, f, n, n, [q]));
      Task(q, 0) in r.clearnet && q in r.nodes
  {
    SaveThenResume(text, port, cfg, f, n, n, [q], threads);
    FilterIn(IsReal, f.clearnet);
  }

  lemma ThreeTurns(text: AddrText, port: nat, p: Peer, q: Peer)
    requires p.Clearnet? && q.Clearnet? && p != q
    ensures var cfg, s := TwoDead(text, 1), TwoSeeds(text, port, 1, p, q);
      var turns := [Turn(0), Turn(0), Turn(0)];
      Follows(cfg, s, turns) && After(cfg, s, turns) == DropRun(text, p, q, 3)
  {
    var cfg, s := TwoDead(text, 1), TwoSeeds(text, port, 1, p, q);
    TwoSeedsAre(text, port, 1, p, q);
    DropRunStep(text, p, q, 0);
    DropRunStep(text, p, q, 1);
    DropRunStep(text, p, q, 2);
    Then(cfg, s, [], Turn(0));
    Then(cfg, s, [] + [Turn(0)], Turn(0));
    Then(cfg, s, [] + [Turn(0)] + [Turn(0)], Turn(0));
    assert [] + [Turn(0)] + [Turn(0)] + [Turn(0)] == [Turn(0), Turn(0), Turn(0)];
  }

  // Saved while a thread has it in hand, a peer without a record is forgotten too.
  lemma InHandIsForgotten(text: AddrText, port: nat, p: Peer, q: Peer, threads: seq<Thread>)
    requires text.Lawful() && p.Clearnet? && q.Clearnet? && p != q
    ensures Follows(TwoDead(text, 0), TwoSeeds(text, port, 0, p, q), [Turn(0)])
    ensures var t := After(TwoDead(text, 0), TwoSeeds(text, port, 0, p, q), [Turn(0)]);
      && Lists([], t.nodes) && q in t.seen
      && q !in Resume(text, port, TwoDead(text, 0), Blank(threads), Save(text, t, [])).seen
  {
    var cfg, s := TwoDead(text, 0), TwoSeeds(text, port, 0, p, q);
    TwoSeedsAre(text, port, 0, p, q);
    Then(cfg, s, [], Turn(0));
    var t := After(cfg, s, [] + [Turn(0)]);
    assert [] + [Turn(0)] == [Turn(0)];
    assert t.clearnet == [Task(p, 0)];
    ResumedSees(text, port, cfg, t, t, t, [], threads, q);
  }

  lemma NodesSeen(cfg: Config, base: set<Peer>, s: State, t: State, p: Peer)
    requires Conserved(base, t) && Recorded(cfg, s.nodes, t)
    requires s.nodes.Keys <= s.seen <= t.seen
    ensures p in t.nodes ==> p in t.seen
    ensures p in s.nodes ==> p in t.nodes
    ensures (exists k :: (k in t.clearnet || k in t.onion) && k.peer == p) ==> p in t.seen
  {
    if Concluded(t, p) {
      var x :| x in t.settled && x.task.peer == p && !x.dropped;
      var k :| 0 <= k < |t.settled| && t.settled[k] == x;
      TotalAtLeast(SettledAs(p), t.settled, k);
    } else {
      assert Agree(t.nodes, s.nodes, p);
    }
    forall q | (q in t.clearnet || q in t.onion) && q.peer == p ensures p in t.seen {
      QueuedTask(t, q);
    }
  }

  // ---- Any number of stops ----

  ghost predicate TextualSeeds(text: AddrText, seeds: seq<Seed>) {
    forall x | x in seeds :: WellFormed(x.peer) && (x.known.Some? ==> x.known.value.addr == Show(text, x.peer))
  }

  ghost predicate SpeakableNetwork(text: AddrText, cfg: Config) {
    && (forall p: Peer :: cfg.show(p) == Show(text, p))
    && (forall p: Peer, q: Peer :: Gossips(cfg, p, q) ==> WellFormed(q))
  }

  lemma {:induction false} PlantTextual(text: AddrText, cfg: Config, s: State, seeds: seq<Seed>)
    requires Textual(text, s) && TextualSeeds(text, seeds) && s.nodes.Keys <= s.seen
    ensures var r := PlantSeeds(cfg, s, seeds); Textual(text, r) && r.nodes.Keys <= r.seen && s.nodes.Keys <= r.nodes.Keys
  {
    if seeds != [] {
      assert seeds[|seeds| - 1] in seeds && forall x | x in seeds[..|seeds| - 1] :: x in seeds;
      PlantTextual(text, cfg, s, seeds[..|seeds| - 1]);
    }
  }

  // The peers a start took as done are those recorded and not queued.
  lemma DoneIsBase(cfg: Config, base: set<Peer>, s: State)
    requires Begin(cfg, s) && Distinct(base, s) && base <= s.nodes.Keys <= s.seen
    ensures Distinct(Done(s), s)
  {
    forall p: Peer ensures p in base <==> p in Done(s) {
      TotalZero(Holds(p), s.threads);
      assert Places(s, p) == QueuedCount(s, p);
      QueuedIff(s, p);
    }
    assert base == Done(s);
  }

  // A fresh start is good.
  lemma FreshIsGood(text: AddrText, port: nat, cfg: Config, threads: nat, torThreads: nat, seeds: seq<Seed>)
    requires text.Lawful() && SpeakableNetwork(text, cfg) && TextualSeeds(text, seeds)
    ensures GoodStart(text, cfg, Start(text, port, cfg, threads, torThreads, None, seeds))
  {
    var pool := Pool(cfg, threads, torThreads);
    StartBegins(text, port, cfg, threads, torThreads, None, seeds);
    PoolReady(cfg, threads, torThreads);
    BlankDistinct(pool);
    SeedsDistinct(cfg, {}, Blank(pool), seeds);
    PlantTextual(text, cfg, Blank(pool), seeds);
    DoneIsBase(cfg, {}, PlantSeeds(cfg, Blank(pool), seeds));
  }

  lemma ResumedTextual(text: AddrText, f: State, n: State, r: State)
    requires TextualQueue(text, f) && TextualNodes(text, n)
    requires r.clearnet == Filter(IsReal, f.clearnet) && r.onion == f.onion && r.nodes == n.nodes - {PLACEHOLDER}
    ensures Textual(text, r)
  {
    FilterIn(IsReal, f.clearnet);
  }

  // So is a start resumed from a save of a good start's run, whenever it was written, and whatever else has changed
  // since, the network included, as long as the proxy setting has not. What is proved of good starts, and of distinct
  // tasks, therefore holds through any number of stops.
  lemma ResumedIsGood(text: AddrText, port: nat, cfg: Config, then': Config, s: State, first: seq<Event>,
                      next: seq<Event>, last: seq<Event>, order: seq<Peer>, threads: nat, torThreads: nat, seeds: seq<Seed>)
    requires GoodStart(text, cfg, s) && Follows(cfg, s, first + next) && Follows(cfg, s, first + next + last)
    requires Follows(cfg, s, first) && Lists(order, After(cfg, s, first + next).nodes) && TextualSeeds(text, seeds)
    requires SpeakableNetwork(text, then') && then'.onionEnabled == cfg.onionEnabled
    ensures var f, n, e := After(cfg, s, first), After(cfg, s, first + next), After(cfg, s, first + next + last);
      var saved := SaveAcross(text, f, n, e, order);
      var r := Resume(text, port, then', Blank(Pool(then', threads, torThreads)), saved);
      var start := Start(text, port, then', threads, torThreads, Some(saved), seeds);
      GoodStart(text, then', start) && Distinct(Done(r), start)
  {
    var f, n, e := After(cfg, s, first), After(cfg, s, first + next), After(cfg, s, first + next + last);
    var saved, pool := SaveAcross(text, f, n, e, order), Pool(then', threads, torThreads);
    SavedFacts(text, cfg, s, first, PLACEHOLDER);
    SavedFacts(text, cfg, s, first + next, PLACEHOLDER);
    RoutedSame(cfg, then', f);
    SaveThenResume(text, port, then', f, n, e, order, pool);
    SavedAreDifferent(text, port, cfg, then', s, first, next, last, order);
    FileIsDistinct(text, port, then', threads, torThreads, saved, seeds);
    StartBegins(text, port, then', threads, torThreads, Some(saved), seeds);
    var r := Resume(text, port, then', Blank(pool), saved);
    ResumedTextual(text, f, n, r);
    PlantTextual(text, then', r, seeds);
    DoneIsBase(then', Done(r), PlantSeeds(then', r, seeds));
  }
}
