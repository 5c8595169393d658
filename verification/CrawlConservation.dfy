// Every peer seen is in exactly one place: queued, in a thread's hands, found but not pushed, or settled. So no peer
// is probed twice, and what is recorded of each peer is fixed by the network alone.
module CrawlConservation {
  import opened Prelude
  import opened Peers
  import opened Crawl
  import opened CrawlProgress

  function Names(p: Peer): Task -> nat { (t: Task) => if t.peer == p then 1 else 0 }

  function Is(p: Peer): Peer -> nat { (q: Peer) => if q == p then 1 else 0 }

  // The thread has taken a task and not settled it.
  predicate InHand(ph: Phase) { ph.Popped? || ph.Probing? }

  // Tasks for p a thread has in hand or has found and not pushed.
  function Held(p: Peer, ph: Phase): nat {
    if InHand(ph) then Names(p)(ph.task)
    else if ph.Finishing? then Total(Names(p), ph.newClearnet) + Total(Names(p), ph.newOnion)
    else 0
  }

  function Holds(p: Peer): Thread -> nat { (t: Thread) => Held(p, t.phase) }

  function SettledAs(p: Peer): Settled -> nat { (x: Settled) => if x.task.peer == p then 1 else 0 }

  // How many tasks for p the crawl knows of, in every place one can be.
  function Places(s: State, p: Peer): nat {
    Total(Names(p), s.clearnet) + Total(Names(p), s.onion) + Total(Holds(p), s.threads) + Total(SettledAs(p), s.settled)
  }

  // `base` are the peers restored as nodes and not queued: seen, but never a task.
  ghost predicate Conserved(base: set<Peer>, s: State) {
    forall p: Peer :: Places(s, p) + (if p in base then 1 else 0) == if p in s.seen then 1 else 0
  }

  // How many tasks for p are queued.
  function QueuedCount(s: State, p: Peer): nat { Total(Names(p), s.clearnet) + Total(Names(p), s.onion) }

  lemma QueuedTask(s: State, t: Task)
    requires t in s.clearnet || t in s.onion
    ensures QueuedCount(s, t.peer) > 0
  {
    if t in s.clearnet {
      var k :| 0 <= k < |s.clearnet| && s.clearnet[k] == t;
      TotalAtLeast(Names(t.peer), s.clearnet, k);
    } else {
      var k :| 0 <= k < |s.onion| && s.onion[k] == t;
      TotalAtLeast(Names(t.peer), s.onion, k);
    }
  }

  // ---- The queue ----

  ghost predicate Queued(s: State, p: Peer) {
    exists t :: (t in s.clearnet || t in s.onion) && t.peer == p
  }

  lemma QueuedIff(s: State, p: Peer)
    ensures Queued(s, p) <==> QueuedCount(s, p) > 0
  {
    if t :| (t in s.clearnet || t in s.onion) && t.peer == p { QueuedTask(s, t); }
    if Total(Names(p), s.clearnet) > 0 {
      var k := SomewhereIn(Names(p), s.clearnet);
      assert s.clearnet[k] in s.clearnet;
    }
    if Total(Names(p), s.onion) > 0 {
      var k := SomewhereIn(Names(p), s.onion);
      assert s.onion[k] in s.onion;
    }
  }

  // The peers a start takes as done: recorded, and not queued.
  ghost function Done(s: State): set<Peer> { set p | p in s.nodes && !Queued(s, p) }

  // ---- Children ----

  lemma {:induction false} TasksNames(p: Peer, peers: seq<Peer>, depth: nat)
    ensures Total(Names(p), Tasks(peers, depth)) == Total(Is(p), peers)
  {
    if peers != [] {
      TasksNames(p, peers[..|peers| - 1], depth);
      assert Tasks(peers, depth)[..|peers| - 1] == Tasks(peers[..|peers| - 1], depth);
    }
  }

  lemma {:induction false} SplitNames(p: Peer, peers: seq<Peer>, depth: nat)
    ensures Total(Names(p), ClearnetTasks(peers, depth)) + Total(Names(p), OnionTasks(peers, depth))
         == Total(Is(p), peers)
  {
    TasksNames(p, Filter(IsClearnet, peers), depth);
    TasksNames(p, Filter(IsOnion, peers), depth);
    SplitCounts(Is(p), peers);
  }

  lemma {:induction false} SplitCounts(f: Peer -> nat, peers: seq<Peer>)
    ensures Total(f, Filter(IsClearnet, peers)) + Total(f, Filter(IsOnion, peers))
         == Total(f, peers)
  {
    if peers != [] {
      var front, p := peers[..|peers| - 1], peers[|peers| - 1];
      SplitCounts(f, front);
      if p.Clearnet? {
        TotalPush(f, Filter(IsClearnet, front), p);
      } else {
        TotalPush(f, Filter(IsOnion, front), p);
      }
    }
  }

  lemma {:induction false} NewcomersOnce(p: Peer, seen: set<Peer>, peers: seq<Peer>)
    ensures Total(Is(p), Crawl.Fresh(seen, peers))
         == if p in peers && p !in seen then 1 else 0
  {
    if peers != [] {
      var front, q := peers[..|peers| - 1], peers[|peers| - 1];
      NewcomersOnce(p, seen, front);
      assert peers == front + [q];
      if q !in seen && q !in front {
        TotalPush(Is(p), Crawl.Fresh(seen, front), q);
      }
    }
  }

  // ---- One step, for one peer ----

  lemma HoldsMoved(p: Peer, threads: seq<Thread>, i: nat, ph: Phase, c: bool, o: bool)
    requires i < |threads|
    ensures Total(Holds(p), Notify(threads[i := threads[i].(phase := ph)], c, o)) + Held(p, threads[i].phase)
         == Total(Holds(p), threads) + Held(p, ph)
  {
    var moved := threads[i := threads[i].(phase := ph)];
    TotalSame(Holds(p), Notify(moved, c, o), moved);
    TotalUpdate(Holds(p), threads, i, threads[i].(phase := ph));
  }

  lemma PlacesPoll(s: State, i: nat, p: Peer)
    requires i < |s.threads| && s.threads[i].phase.Ready?
    ensures Places(Poll(s, i), p) == Places(s, p)
  {
    var ph := Poll(s, i).threads[i].phase;
    MovesPoll(s, i);
    HoldsMoved(p, s.threads, i, ph, ph.Exited?, ph.Exited?);
  }

  lemma PlacesSettle(s: State, i: nat, p: Peer, ph: Phase, dropped: bool)
    requires i < |s.threads| && InHand(s.threads[i].phase)
    requires !InHand(ph) && ph.Unpushed() == []
    ensures var task := s.threads[i].phase.task;
      Places(s.(settled := s.settled + [Settled(task, dropped)]).At(i, ph), p) == Places(s, p)
  {
    var task := s.threads[i].phase.task;
    TotalPush(SettledAs(p), s.settled, Settled(task, dropped));
    TotalUpdate(Holds(p), s.threads, i, s.threads[i].(phase := ph));
  }

  lemma PlacesCheck(cfg: Config, s: State, i: nat, p: Peer)
    requires i < |s.threads| && s.threads[i].phase.Popped?
    ensures Places(Check(cfg, s, i), p) == Places(s, p)
  {
    var task := s.threads[i].phase.task;
    PlacesSettle(s, i, p, Finishing(task, [], []), true);
    TotalUpdate(Holds(p), s.threads, i, s.threads[i].(phase := Probing(task)));
  }

  lemma PlacesExpand(cfg: Config, s: State, i: nat, p: Peer)
    requires i < |s.threads| && s.threads[i].phase.Expanding?
    ensures var t := Expand(cfg, s, i);
      Places(t, p) - Places(s, p) == if p in t.seen && p !in s.seen then 1 else 0
  {
    var Expanding(task, found) := s.threads[i].phase;
    var allowed := AllowedPeers(cfg, found);
    SplitNames(p, Crawl.Fresh(s.seen, allowed), task.depth + 1);
    NewcomersOnce(p, s.seen, allowed);
    TotalUpdate(Holds(p), s.threads, i, Expand(cfg, s, i).threads[i]);
  }

  lemma PlacesFinish(s: State, i: nat, p: Peer)
    requires i < |s.threads| && s.threads[i].phase.Finishing?
    ensures Places(Finish(s, i), p) == Places(s, p)
  {
    var t := Finish(s, i);
    var Finishing(_, newClearnet, newOnion) := s.threads[i].phase;
    var c, o := newClearnet != [] || t.Idle(), newOnion != [] || t.Idle();
    MovesFinish(s, i);
    HoldsMoved(p, s.threads, i, Ready, c, o);
    TotalConcat(Names(p), s.clearnet, newClearnet);
    TotalConcat(Names(p), s.onion, newOnion);
  }

  lemma PlacesStep(cfg: Config, s: State, e: Event, p: Peer)
    requires Enabled(s, e)
    ensures var t := Step(cfg, s, e);
      Places(t, p) - Places(s, p) == if p in t.seen && p !in s.seen then 1 else 0
  {
    if e.Spurious? {
      TotalUpdate(Holds(p), s.threads, e.i, s.threads[e.i].(phase := Ready));
    } else {
      match s.threads[e.i].phase
      case Ready => PlacesPoll(s, e.i, p);
      case Popped(_) => PlacesCheck(cfg, s, e.i, p);
      case Probing(_) => PlacesSettle(s, e.i, p, Conclude(cfg, s, e.i).threads[e.i].phase, false);
      case Expanding(_, _) => PlacesExpand(cfg, s, e.i, p);
      case Finishing(_, _, _) => PlacesFinish(s, e.i, p);
    }
  }

  lemma SeenGrows(cfg: Config, s: State, e: Event)
    requires Enabled(s, e)
    ensures s.seen <= Step(cfg, s, e).seen
  {}

  lemma NodesGrow(cfg: Config, s: State, e: Event)
    requires Enabled(s, e)
    ensures s.nodes.Keys <= Step(cfg, s, e).nodes.Keys
  {}

  lemma ConservedStep(cfg: Config, base: set<Peer>, s: State, e: Event)
    requires Conserved(base, s) && Enabled(s, e) && base <= s.seen
    ensures Conserved(base, Step(cfg, s, e)) && base <= Step(cfg, s, e).seen
  {
    SeenGrows(cfg, s, e);
    forall p: Peer { PlacesStep(cfg, s, e, p); }
  }
}
