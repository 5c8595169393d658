// What a finished crawl has found: exactly the peers reachable through gossip, each with the record the network
// determines, whatever the schedule and however many threads there were.
module CrawlOutcome {
  import opened Prelude
  import opened Peers
  import opened Crawl
  import opened CrawlProgress
  import opened CrawlConservation

  // ---- Reachability through gossip ----

  // Clearnet peers always, onion peers with a proxy.
  predicate Crawlable(cfg: Config, p: Peer) { p.Clearnet? || cfg.onionEnabled }

  // p answered and named q among the peers it knows, and q may be crawled.
  ghost predicate Gossips(cfg: Config, p: Peer, q: Peer) {
    cfg.probe(p).Some? && q in cfg.probe(p).value.peers && Crawlable(cfg, q)
  }

  ghost predicate Linked(cfg: Config, path: seq<Peer>) {
    forall i, j | 0 <= i && j == i + 1 && j < |path| :: Gossips(cfg, path[i], path[j])
  }

  ghost predicate Route(cfg: Config, roots: seq<Task>, path: seq<Peer>, t: Task) {
    && 0 < |path| <= t.depth + 1
    && path[|path| - 1] == t.peer
    && Task(path[0], t.depth + 1 - |path|) in roots
    && Linked(cfg, path)
  }

  // Gossip leads from a root to this peer in as many steps as its depth exceeds the root's.
  ghost predicate Rooted(cfg: Config, roots: seq<Task>, t: Task) {
    exists path :: Route(cfg, roots, path, t)
  }

  lemma RootIsRooted(cfg: Config, roots: seq<Task>, t: Task)
    requires t in roots
    ensures Rooted(cfg, roots, t)
  {
    assert Route(cfg, roots, [t.peer], t);
  }

  lemma ChildIsRooted(cfg: Config, roots: seq<Task>, t: Task, q: Peer)
    requires Rooted(cfg, roots, t) && Gossips(cfg, t.peer, q)
    ensures Rooted(cfg, roots, Task(q, t.depth + 1))
  {
    var path :| Route(cfg, roots, path, t);
    assert Route(cfg, roots, path + [q], Task(q, t.depth + 1));
  }

  // ---- Where every task comes from ----

  ghost predicate AllRooted(cfg: Config, roots: seq<Task>, tasks: seq<Task>) {
    forall t | t in tasks :: Rooted(cfg, roots, t)
  }

  ghost predicate PhaseRooted(cfg: Config, roots: seq<Task>, ph: Phase) {
    && (InHand(ph) || ph.Expanding? ==> Rooted(cfg, roots, ph.task))
    && (ph.Expanding? ==> cfg.probe(ph.task.peer).Some? && ph.found == cfg.probe(ph.task.peer).value.peers)
    && (ph.Finishing? ==> AllRooted(cfg, roots, ph.newClearnet) && AllRooted(cfg, roots, ph.newOnion))
  }

  ghost predicate Sourced(cfg: Config, roots: seq<Task>, s: State) {
    && AllRooted(cfg, roots, s.clearnet) && AllRooted(cfg, roots, s.onion)
    && (forall i | 0 <= i < |s.threads| :: PhaseRooted(cfg, roots, s.threads[i].phase))
    && (forall x | x in s.settled :: Rooted(cfg, roots, x.task))
  }

  lemma ChildrenSourced(cfg: Config, roots: seq<Task>, s: State, i: nat)
    requires i < |s.threads| && s.threads[i].phase.Expanding? && PhaseRooted(cfg, roots, s.threads[i].phase)
    ensures PhaseRooted(cfg, roots, Expand(cfg, s, i).threads[i].phase)
  {
    var Expanding(task, found) := s.threads[i].phase;
    var newcomers := Crawl.Fresh(s.seen, AllowedPeers(cfg, found));
    FilterIn(cfg.Allowed, found);
    NewcomersIn(s.seen, AllowedPeers(cfg, found));
    FilterIn(IsClearnet, newcomers);
    FilterIn(IsOnion, newcomers);
    TasksIn(Filter(IsClearnet, newcomers), task.depth + 1);
    TasksIn(Filter(IsOnion, newcomers), task.depth + 1);
    forall q | q in newcomers ensures Rooted(cfg, roots, Task(q, task.depth + 1)) {
      ChildIsRooted(cfg, roots, task, q);
    }
  }

  lemma TurnSourced(cfg: Config, roots: seq<Task>, s: State, e: Event)
    requires Sourced(cfg, roots, s) && Enabled(s, e)
    ensures PhaseRooted(cfg, roots, Step(cfg, s, e).threads[e.i].phase)
  {
    assert PhaseRooted(cfg, roots, s.threads[e.i].phase);
    if e.Turn? {
      match s.threads[e.i].phase
      case Ready => PollSourced(cfg, roots, s, e.i);
      case Popped(_) => CheckSourced(cfg, roots, s, e.i);
      case Probing(_) => ConcludeSourced(cfg, roots, s, e.i);
      case Expanding(_, _) => ChildrenSourced(cfg, roots, s, e.i);
      case Finishing(_, _, _) =>
        MovesFinish(s, e.i);
        assert Finish(s, e.i).threads[e.i].phase == Ready;
    }
  }

  lemma PollSourced(cfg: Config, roots: seq<Task>, s: State, i: nat)
    requires AllRooted(cfg, roots, s.clearnet) && AllRooted(cfg, roots, s.onion)
    requires i < |s.threads| && s.threads[i].phase.Ready?
    ensures PhaseRooted(cfg, roots, Poll(s, i).threads[i].phase)
  {}

  lemma CheckSourced(cfg: Config, roots: seq<Task>, s: State, i: nat)
    requires i < |s.threads| && s.threads[i].phase.Popped? && PhaseRooted(cfg, roots, s.threads[i].phase)
    ensures PhaseRooted(cfg, roots, Check(cfg, s, i).threads[i].phase)
  {}

  lemma ConcludeSourced(cfg: Config, roots: seq<Task>, s: State, i: nat)
    requires i < |s.threads| && s.threads[i].phase.Probing? && PhaseRooted(cfg, roots, s.threads[i].phase)
    ensures PhaseRooted(cfg, roots, Conclude(cfg, s, i).threads[i].phase)
  {}

  lemma StacksSourced(cfg: Config, roots: seq<Task>, s: State, e: Event)
    requires Sourced(cfg, roots, s) && Enabled(s, e)
    ensures var t := Step(cfg, s, e);
      && AllRooted(cfg, roots, t.clearnet) && AllRooted(cfg, roots, t.onion)
      && forall x | x in t.settled :: Rooted(cfg, roots, x.task)
  {
    assert PhaseRooted(cfg, roots, s.threads[e.i].phase);
  }

  lemma SourcedStep(cfg: Config, roots: seq<Task>, s: State, e: Event)
    requires Sourced(cfg, roots, s) && Enabled(s, e)
    ensures Sourced(cfg, roots, Step(cfg, s, e))
  {
    var t := Step(cfg, s, e);
    var c, o := ThreadsAfter(cfg, s, e);
    TurnSourced(cfg, roots, s, e);
    StacksSourced(cfg, roots, s, e);
    forall i: nat | i < |t.threads| ensures PhaseRooted(cfg, roots, t.threads[i].phase) {
      OthersStay(s, t, e.i, c, o, i);
      assert PhaseRooted(cfg, roots, s.threads[i].phase);
    }
  }

  // ---- What is recorded of each peer ----

  // The record of a settled task: an answer is recorded as it is; a failure keeps a record known beforehand.
  function Final(cfg: Config, known: map<Peer, NodeInfo>, t: Task): NodeInfo {
    match cfg.probe(t.peer)
    case Some(a) => Record(cfg, t, a)
    case None => if t.peer in known then known[t.peer] else Stub(cfg, t)
  }

  ghost predicate Concluded(s: State, p: Peer) {
    exists x :: x in s.settled && x.task.peer == p && !x.dropped
  }

  ghost predicate Agree(m: map<Peer, NodeInfo>, n: map<Peer, NodeInfo>, p: Peer) {
    (p in m <==> p in n) && (p in m ==> m[p] == n[p])
  }

  // Concluded peers have their final record; nothing else was touched.
  ghost predicate Recorded(cfg: Config, known: map<Peer, NodeInfo>, s: State) {
    && (forall x | x in s.settled && !x.dropped ::
          x.task.peer in s.nodes && s.nodes[x.task.peer] == Final(cfg, known, x.task))
    && (forall p: Peer :: !Concluded(s, p) ==> Agree(s.nodes, known, p))
    && (cfg.maxNodes == 0 ==> forall x | x in s.settled :: !x.dropped)
  }

  // Nobody settles a peer that a thread still has in hand.
  lemma InHandNotSettled(base: set<Peer>, s: State, i: nat)
    requires Conserved(base, s) && i < |s.threads| && InHand(s.threads[i].phase)
    ensures forall x | x in s.settled :: x.task.peer != s.threads[i].phase.task.peer
  {
    var p := s.threads[i].phase.task.peer;
    TotalAtLeast(Holds(p), s.threads, i);
    forall x | x in s.settled ensures x.task.peer != p {
      var k :| 0 <= k < |s.settled| && s.settled[k] == x;
      TotalAtLeast(SettledAs(p), s.settled, k);
      assert Places(s, p) <= 1;
    }
  }

  lemma RecordedConclude(cfg: Config, base: set<Peer>, known: map<Peer, NodeInfo>, s: State, i: nat)
    requires Conserved(base, s) && Recorded(cfg, known, s)
    requires i < |s.threads| && s.threads[i].phase.Probing?
    ensures Recorded(cfg, known, Conclude(cfg, s, i))
  {
    InHandNotSettled(base, s, i);
    var t := Conclude(cfg, s, i);
    var task := s.threads[i].phase.task;
    assert t.settled == s.settled + [Settled(task, false)];
    assert Settled(task, false) in t.settled;
    assert !Concluded(s, task.peer) && Agree(s.nodes, known, task.peer);
    forall p: Peer | !Concluded(t, p) ensures Agree(t.nodes, known, p) {
      assert p != task.peer;
      assert !Concluded(s, p) by { assert forall x | x in s.settled :: x in t.settled; }
    }
  }

  lemma RecordedCheck(cfg: Config, known: map<Peer, NodeInfo>, s: State, i: nat)
    requires Recorded(cfg, known, s)
    requires i < |s.threads| && s.threads[i].phase.Popped?
    ensures Recorded(cfg, known, Check(cfg, s, i))
  {
    var t := Check(cfg, s, i);
    forall p: Peer | !Concluded(t, p) ensures Agree(t.nodes, known, p) {
      assert !Concluded(s, p) by { assert forall x | x in s.settled :: x in t.settled; }
    }
  }

  lemma RecordedStep(cfg: Config, base: set<Peer>, known: map<Peer, NodeInfo>, s: State, e: Event)
    requires Conserved(base, s) && Recorded(cfg, known, s) && Enabled(s, e)
    ensures Recorded(cfg, known, Step(cfg, s, e))
  {
    var t := Step(cfg, s, e);
    if e.Turn? && s.threads[e.i].phase.Probing? {
      RecordedConclude(cfg, base, known, s, e.i);
    } else if e.Turn? && s.threads[e.i].phase.Popped? {
      RecordedCheck(cfg, known, s, e.i);
    } else {
      assert t.settled == s.settled && t.nodes == s.nodes;
      forall p: Peer | !Concluded(t, p) ensures Agree(t.nodes, known, p) {
        assert !Concluded(s, p);
      }
    }
  }

  // ---- Whose gossip was followed ----

  function ExpandingAs(p: Peer): Thread -> nat {
    (t: Thread) => if t.phase.Expanding? && t.phase.task.peer == p then 1 else 0
  }

  // The task's gossip is to be looked at: it was probed, it answered, and there was depth left.
  function ToExpand(cfg: Config, p: Peer): Settled -> nat {
    (x: Settled) =>
      if x.task.peer == p && !x.dropped && cfg.probe(p).Some? && cfg.Expands(x.task.depth) then 1 else 0
  }

  function AllEdges(cfg: Config, expanded: seq<Peer>): seq<Edge> {
    if expanded == [] then []
    else
      var p := expanded[|expanded| - 1];
      AllEdges(cfg, expanded[..|expanded| - 1]) + EdgesFrom(cfg, p)
  }

  // The edges recorded when the gossip of p is followed.
  function EdgesFrom(cfg: Config, p: Peer): seq<Edge> {
    match cfg.probe(p)
    case None => []
    case Some(a) => EdgesOf(cfg, p, AllowedPeers(cfg, a.peers))
  }

  // For one peer: its gossip was looked at, or is about to be, exactly when it has to be.
  predicate Due(cfg: Config, s: State, p: Peer) {
    Total(Is(p), s.expanded) + Total(ExpandingAs(p), s.threads) == Total(ToExpand(cfg, p), s.settled)
  }

  ghost predicate Followed(cfg: Config, edges: seq<Edge>, s: State) {
    && (forall p: Peer :: Due(cfg, s, p))
    && (forall p, q | p in s.expanded && Gossips(cfg, p, q) :: q in s.seen)
    && s.edges == edges + AllEdges(cfg, s.expanded)
  }

  lemma ExpandingMoved(p: Peer, s: State, t: State, i: nat, c: bool, o: bool)
    requires i < |s.threads| && Moves(s, t, i, c, o)
    ensures Total(ExpandingAs(p), t.threads) + ExpandingAs(p)(s.threads[i])
         == Total(ExpandingAs(p), s.threads) + ExpandingAs(p)(t.threads[i])
  {
    var moved := s.threads[i := s.threads[i].(phase := t.threads[i].phase)];
    TotalSame(ExpandingAs(p), t.threads, moved);
    TotalUpdate(ExpandingAs(p), s.threads, i, moved[i]);
  }

  lemma DueCheck(cfg: Config, s: State, i: nat, p: Peer)
    requires i < |s.threads| && s.threads[i].phase.Popped?
    ensures Due(cfg, s, p) ==> Due(cfg, Check(cfg, s, i), p)
  {
    TotalUpdate(ExpandingAs(p), s.threads, i, Check(cfg, s, i).threads[i]);
    TotalPush(ToExpand(cfg, p), s.settled, Settled(s.threads[i].phase.task, true));
  }

  lemma DueConclude(cfg: Config, s: State, i: nat, p: Peer)
    requires i < |s.threads| && s.threads[i].phase.Probing?
    ensures Due(cfg, s, p) ==> Due(cfg, Conclude(cfg, s, i), p)
  {
    TotalUpdate(ExpandingAs(p), s.threads, i, Conclude(cfg, s, i).threads[i]);
    TotalPush(ToExpand(cfg, p), s.settled, Settled(s.threads[i].phase.task, false));
  }

  lemma DueExpand(cfg: Config, s: State, i: nat, p: Peer)
    requires i < |s.threads| && s.threads[i].phase.Expanding?
    ensures Due(cfg, s, p) ==> Due(cfg, Expand(cfg, s, i), p)
  {
    TotalUpdate(ExpandingAs(p), s.threads, i, Expand(cfg, s, i).threads[i]);
    TotalPush(Is(p), s.expanded, s.threads[i].phase.task.peer);
  }

  lemma DueStep(cfg: Config, s: State, e: Event, p: Peer)
    requires Due(cfg, s, p) && Enabled(s, e)
    ensures Due(cfg, Step(cfg, s, e), p)
  {
    var ph := s.threads[e.i].phase;
    if ph.Popped? {
      DueCheck(cfg, s, e.i, p);
    } else if ph.Probing? {
      DueConclude(cfg, s, e.i, p);
    } else if ph.Expanding? {
      DueExpand(cfg, s, e.i, p);
    } else {
      var c, o := ThreadsAfter(cfg, s, e);
      ExpandingMoved(p, s, Step(cfg, s, e), e.i, c, o);
    }
  }

  lemma FollowedExpand(cfg: Config, roots: seq<Task>, edges: seq<Edge>, s: State, i: nat)
    requires Sourced(cfg, roots, s) && Followed(cfg, edges, s)
    requires i < |s.threads| && s.threads[i].phase.Expanding?
    ensures var t := Expand(cfg, s, i);
      && (forall p, q | p in t.expanded && Gossips(cfg, p, q) :: q in t.seen)
      && t.edges == edges + AllEdges(cfg, t.expanded)
  {
    var t := Expand(cfg, s, i);
    var Expanding(task, found) := s.threads[i].phase;
    assert PhaseRooted(cfg, roots, s.threads[i].phase);
    FilterIn(cfg.Allowed, found);
    AllEdgesPush(cfg, edges, s.expanded, task.peer);
  }

  lemma AllEdgesPush(cfg: Config, edges: seq<Edge>, expanded: seq<Peer>, p: Peer)
    requires cfg.probe(p).Some?
    ensures edges + AllEdges(cfg, expanded + [p])
         == edges + AllEdges(cfg, expanded) + EdgesOf(cfg, p, AllowedPeers(cfg, cfg.probe(p).value.peers))
  {
    assert (expanded + [p])[..|expanded|] == expanded;
    Reassociate(edges, AllEdges(cfg, expanded), EdgesOf(cfg, p, AllowedPeers(cfg, cfg.probe(p).value.peers)));
  }

  lemma NothingFollowed(cfg: Config, s: State, e: Event)
    requires Enabled(s, e) && !(e.Turn? && s.threads[e.i].phase.Expanding?)
    ensures var t := Step(cfg, s, e); t.edges == s.edges && t.expanded == s.expanded && t.seen == s.seen
  {}

  lemma GossipFollowed(cfg: Config, roots: seq<Task>, edges: seq<Edge>, s: State, e: Event)
    requires Sourced(cfg, roots, s) && Followed(cfg, edges, s) && Enabled(s, e)
    ensures var t := Step(cfg, s, e);
      && (forall p, q | p in t.expanded && Gossips(cfg, p, q) :: q in t.seen)
      && t.edges == edges + AllEdges(cfg, t.expanded)
  {
    if e.Turn? && s.threads[e.i].phase.Expanding? {
      FollowedExpand(cfg, roots, edges, s, e.i);
    } else {
      NothingFollowed(cfg, s, e);
    }
  }

  lemma FollowedStep(cfg: Config, roots: seq<Task>, edges: seq<Edge>, s: State, e: Event)
    requires Sourced(cfg, roots, s) && Followed(cfg, edges, s) && Enabled(s, e)
    ensures Followed(cfg, edges, Step(cfg, s, e))
  {
    forall p: Peer ensures Due(cfg, Step(cfg, s, e), p) { DueStep(cfg, s, e, p); }
    GossipFollowed(cfg, roots, edges, s, e);
  }

  // ---- Every run ----

  // A start whose queued peers are all different, all seen, and were not seen otherwise except as the nodes in `base`.
  ghost predicate Distinct(base: set<Peer>, s: State) {
    Conserved(base, s) && base <= s.seen
  }

  // The state after any schedule, from any start with distinct tasks.
  lemma {:induction false} Everywhere(cfg: Config, base: set<Peer>, s: State, schedule: seq<Event>)
    requires Begin(cfg, s) && Distinct(base, s) && Follows(cfg, s, schedule)
    ensures var t := After(cfg, s, schedule);
      && Conserved(base, t)
      && Sourced(cfg, s.clearnet + s.onion, t)
      && Recorded(cfg, s.nodes, t)
      && Followed(cfg, s.edges, t)
  {
    var roots := s.clearnet + s.onion;
    if schedule == [] {
      forall t | t in s.clearnet || t in s.onion { RootIsRooted(cfg, roots, t); }
      forall p: Peer ensures Due(cfg, s, p) { TotalZero(ExpandingAs(p), s.threads); }
      assert s.edges + [] == s.edges;
    } else {
      var front, e := schedule[..|schedule| - 1], schedule[|schedule| - 1];
      Everywhere(cfg, base, s, front);
      var t := After(cfg, s, front);
      assert forall p | p in base :: p in t.seen;
      ConservedStep(cfg, base, t, e);
      SourcedStep(cfg, roots, t, e);
      RecordedStep(cfg, base, s.nodes, t, e);
      FollowedStep(cfg, roots, s.edges, t, e);
    }
  }

  // Each peer in one place only: two threads never work on the same peer, no queued or waiting peer was worked on
  // before, and no peer is settled twice.
  lemma OnePlaceEach(cfg: Config, base: set<Peer>, s: State, schedule: seq<Event>, p: Peer)
    requires Begin(cfg, s) && Distinct(base, s) && Follows(cfg, s, schedule)
    ensures var t := After(cfg, s, schedule);
      Places(t, p) == if p in t.seen && p !in base then 1 else 0
  {
    Everywhere(cfg, base, s, schedule);
  }

  lemma IdleSettled(base: set<Peer>, s: State, p: Peer) returns (x: Settled)
    requires Conserved(base, s) && s.clearnet == [] && s.onion == []
    requires forall i | 0 <= i < |s.threads| :: !s.threads[i].phase.Busy()
    requires p in s.seen && p !in base
    ensures x in s.settled && x.task.peer == p
  {
    TotalZero(Holds(p), s.threads);
    var k := SomewhereIn(SettledAs(p), s.settled);
    x := s.settled[k];
  }

  // When the crawl is over, every peer seen was restored, dropped by the node cap, or has its final record, and
  // everything gossiped by a peer whose gossip had to be followed was seen.
  lemma WhenOver(cfg: Config, base: set<Peer>, s: State, schedule: seq<Event>)
    requires Begin(cfg, s) && Distinct(base, s) && Follows(cfg, s, schedule)
    requires Over(After(cfg, s, schedule))
    ensures var t := After(cfg, s, schedule);
      && (forall p | p in t.seen && p !in base :: exists x ::
            x in t.settled && x.task.peer == p && Rooted(cfg, s.clearnet + s.onion, x.task)
            && (!x.dropped ==> p in t.nodes && t.nodes[p] == Final(cfg, s.nodes, x.task)))
      && (forall x, q | x in t.settled && !x.dropped && cfg.Expands(x.task.depth) && Gossips(cfg, x.task.peer, q) ::
            q in t.seen)
  {
    Everywhere(cfg, base, s, schedule);
    Always(cfg, s, schedule);
    ThreadsStay(cfg, s, schedule);
    var t := After(cfg, s, schedule);
    var i :| 0 <= i < |s.threads| && !s.threads[i].onion;
    assert t.threads[i].phase.Exited?;
    forall p | p in t.seen && p !in base ensures exists x ::
      x in t.settled && x.task.peer == p && Rooted(cfg, s.clearnet + s.onion, x.task)
      && (!x.dropped ==> p in t.nodes && t.nodes[p] == Final(cfg, s.nodes, x.task))
    {
      var x := IdleSettled(base, t, p);
    }
    forall x, q | x in t.settled && !x.dropped && cfg.Expands(x.task.depth) && Gossips(cfg, x.task.peer, q)
      ensures q in t.seen
    {
      IsFollowed(cfg, t, x);
    }
  }

  lemma IsFollowed(cfg: Config, t: State, x: Settled)
    requires Over(t) && Due(cfg, t, x.task.peer) && x in t.settled
    requires !x.dropped && cfg.Expands(x.task.depth) && cfg.probe(x.task.peer).Some?
    ensures x.task.peer in t.expanded
  {
    var p := x.task.peer;
    TotalZero(ExpandingAs(p), t.threads);
    var k :| 0 <= k < |t.settled| && t.settled[k] == x;
    TotalAtLeast(ToExpand(cfg, p), t.settled, k);
    var j := SomewhereIn(Is(p), t.expanded);
    assert t.expanded[j] == p;
  }
}
