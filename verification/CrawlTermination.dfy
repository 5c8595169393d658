// Every run of the crawl ends, in a number of steps fixed by the peers there are and the threads there are.
module CrawlTermination {
  import opened Prelude
  import opened Peers
  import opened Crawl
  import opened CrawlProgress
  import opened CrawlStart

  // A finite set of peers holding everything any of its members gossips.
  ghost predicate ClosedUniverse(cfg: Config, universe: set<Peer>) {
    forall p, q | p in universe && cfg.probe(p).Some? && q in cfg.probe(p).value.peers && cfg.Allowed(q) ::
      q in universe
  }

  ghost predicate TasksWithin(universe: set<Peer>, tasks: seq<Task>) {
    forall t | t in tasks :: t.peer in universe
  }

  ghost predicate ThreadWithin(cfg: Config, universe: set<Peer>, t: Thread) {
    t.phase.Busy() ==>
      && t.phase.task.peer in universe
      && (t.phase.Expanding? ==> forall q | q in t.phase.found && cfg.Allowed(q) :: q in universe)
      && TasksWithin(universe, t.phase.Unpushed())
  }

  ghost predicate Within(cfg: Config, universe: set<Peer>, s: State) {
    && s.seen <= universe
    && TasksWithin(universe, s.clearnet) && TasksWithin(universe, s.onion)
    && forall i | 0 <= i < |s.threads| :: ThreadWithin(cfg, universe, s.threads[i])
  }

  // Steps still owed by a thread, 5 for each child it has yet to push.
  function Weight(t: Thread): nat {
    match t.phase
    case Ready => 1
    case Asleep => 1
    case Popped(_) => 5
    case Probing(_) => 4
    case Expanding(_, _) => 3
    case Finishing(_, c, o) => 2 + 5 * (|c| + |o|)
    case Exited => 0
  }

  function Awake(t: Thread): nat { if t.phase.Runnable() then 1 else 0 }

  // Work left: 5 for each unseen peer and each queued task.
  ghost function Work(universe: set<Peer>, s: State): int { WorkFor(|universe|, s) }

  // The same with so many peers in all.
  function WorkFor(peers: nat, s: State): int {
    5 * (peers - |s.seen| + |s.clearnet| + |s.onion|) + Total(Weight, s.threads)
  }

  ghost function Budget(universe: set<Peer>, s: State): int { BudgetFor(|universe|, s) }

  function BudgetFor(peers: nat, s: State): int {
    WorkFor(peers, s) * (|s.threads| + 1) + Total(Awake, s.threads)
  }

  lemma BudgetGrows(few: nat, many: nat, s: State)
    requires few <= many
    ensures BudgetFor(few, s) <= BudgetFor(many, s)
  {
    Scale(WorkFor(few, s), WorkFor(many, s), |s.threads| + 1);
  }

  lemma {:induction false} NewcomerCount(seen: set<Peer>, peers: seq<Peer>)
    ensures |seen + SetOf(peers)| == |seen| + |Crawl.Fresh(seen, peers)|
  {
    if peers != [] {
      var front, p := peers[..|peers| - 1], peers[|peers| - 1];
      NewcomerCount(seen, front);
      var before := seen + SetOf(front);
      assert seen + SetOf(peers) == before + {p};
      assert p in seen || p in front <==> p in before;
      if p in before { assert before + {p} == before; }
    } else {
      assert seen + SetOf(peers) == seen;
    }
  }

  lemma {:induction false} SplitLengths(peers: seq<Peer>)
    ensures |Filter(IsClearnet, peers)| + |Filter(IsOnion, peers)| == |peers|
  {
    if peers != [] {
      SplitLengths(peers[..|peers| - 1]);
    }
  }

  lemma ChildCount(cfg: Config, s: State, i: nat)
    requires i < |s.threads| && s.threads[i].phase.Expanding?
    ensures var t := Expand(cfg, s, i);
      |t.seen| == |s.seen| + |t.threads[i].phase.newClearnet| + |t.threads[i].phase.newOnion|
  {
    var Expanding(task, found) := s.threads[i].phase;
    var allowed := AllowedPeers(cfg, found);
    NewcomerCount(s.seen, allowed);
    SplitLengths(Crawl.Fresh(s.seen, allowed));
  }

  lemma ExpandWithin(cfg: Config, universe: set<Peer>, s: State, i: nat)
    requires Within(cfg, universe, s) && i < |s.threads| && s.threads[i].phase.Expanding?
    ensures var t := Expand(cfg, s, i);
      t.seen <= universe && ThreadWithin(cfg, universe, t.threads[i])
  {
    var Expanding(task, found) := s.threads[i].phase;
    var newcomers := Crawl.Fresh(s.seen, AllowedPeers(cfg, found));
    assert ThreadWithin(cfg, universe, s.threads[i]);
    FilterIn(cfg.Allowed, found);
    NewcomersIn(s.seen, AllowedPeers(cfg, found));
    FilterIn(IsClearnet, newcomers);
    FilterIn(IsOnion, newcomers);
    TasksIn(Filter(IsClearnet, newcomers), task.depth + 1);
    TasksIn(Filter(IsOnion, newcomers), task.depth + 1);
  }

  lemma TurnWithin(cfg: Config, universe: set<Peer>, s: State, e: Event)
    requires ClosedUniverse(cfg, universe) && Within(cfg, universe, s) && Enabled(s, e)
    ensures ThreadWithin(cfg, universe, Step(cfg, s, e).threads[e.i])
  {
    assert ThreadWithin(cfg, universe, s.threads[e.i]);
    if s.threads[e.i].phase.Expanding? { ExpandWithin(cfg, universe, s, e.i); }
  }

  lemma WithinStep(cfg: Config, universe: set<Peer>, s: State, e: Event)
    requires ClosedUniverse(cfg, universe) && Within(cfg, universe, s) && Enabled(s, e)
    ensures Within(cfg, universe, Step(cfg, s, e))
  {
    var t := Step(cfg, s, e);
    var c, o := ThreadsAfter(cfg, s, e);
    assert ThreadWithin(cfg, universe, s.threads[e.i]);
    if s.threads[e.i].phase.Expanding? { ExpandWithin(cfg, universe, s, e.i); }
    assert ThreadWithin(cfg, universe, t.threads[e.i]) by { TurnWithin(cfg, universe, s, e); }
    forall i: nat | i < |t.threads| ensures ThreadWithin(cfg, universe, t.threads[i]) {
      OthersStay(s, t, e.i, c, o, i);
      assert ThreadWithin(cfg, universe, s.threads[i]);
    }
  }

  lemma WeightMoved(threads: seq<Thread>, i: nat, p: Phase, c: bool, o: bool)
    requires i < |threads|
    ensures Total(Weight, Notify(threads[i := threads[i].(phase := p)], c, o)) + Weight(threads[i])
         == Total(Weight, threads) + Weight(Thread(threads[i].onion, p))
  {
    var moved := threads[i := threads[i].(phase := p)];
    TotalSame(Weight, Notify(moved, c, o), moved);
    TotalUpdate(Weight, threads, i, threads[i].(phase := p));
  }

  lemma WorkPoll(universe: set<Peer>, s: State, i: nat)
    requires i < |s.threads| && s.threads[i].phase.Ready?
    ensures var t := Poll(s, i);
      || Work(universe, t) < Work(universe, s)
      || (t == s.At(i, Asleep) && Work(universe, t) == Work(universe, s))
  {
    var ph := Poll(s, i).threads[i].phase;
    MovesPoll(s, i);
    WeightMoved(s.threads, i, ph, ph.Exited?, ph.Exited?);
  }

  lemma WorkFinish(universe: set<Peer>, s: State, i: nat)
    requires i < |s.threads| && s.threads[i].phase.Finishing?
    ensures Work(universe, Finish(s, i)) == Work(universe, s) - 1
  {
    var t := Finish(s, i);
    MovesFinish(s, i);
    WeightMoved(s.threads, i, Ready, s.threads[i].phase.newClearnet != [] || t.Idle(),
                s.threads[i].phase.newOnion != [] || t.Idle());
  }

  lemma WorkExpand(cfg: Config, universe: set<Peer>, s: State, i: nat)
    requires i < |s.threads| && s.threads[i].phase.Expanding?
    ensures Work(universe, Expand(cfg, s, i)) == Work(universe, s) - 1
  {
    ChildCount(cfg, s, i);
    TotalUpdate(Weight, s.threads, i, Expand(cfg, s, i).threads[i]);
  }

  // A turn does some of the work, or puts its thread to sleep and leaves the rest alone.
  lemma WorkStep(cfg: Config, universe: set<Peer>, s: State, i: nat)
    requires Enabled(s, Turn(i))
    ensures var t := Step(cfg, s, Turn(i));
      || Work(universe, t) < Work(universe, s)
      || (t == s.At(i, Asleep) && Work(universe, t) == Work(universe, s))
  {
    match s.threads[i].phase
    case Ready => WorkPoll(universe, s, i);
    case Popped(_) => TotalUpdate(Weight, s.threads, i, Check(cfg, s, i).threads[i]);
    case Probing(_) => TotalUpdate(Weight, s.threads, i, Conclude(cfg, s, i).threads[i]);
    case Expanding(_, _) => WorkExpand(cfg, universe, s, i);
    case Finishing(_, _, _) => WorkFinish(universe, s, i);
  }

  lemma BudgetTurn(cfg: Config, universe: set<Peer>, s: State, i: nat)
    requires Enabled(s, Turn(i))
    ensures Budget(universe, Step(cfg, s, Turn(i))) < Budget(universe, s)
  {
    var t := Step(cfg, s, Turn(i));
    WorkStep(cfg, universe, s, i);
    if Work(universe, t) < Work(universe, s) {
      var c, o := ThreadsAfter(cfg, s, Turn(i));
      TotalAtMost(Awake, t.threads, 1);
      LessWork(Work(universe, t), Work(universe, s), |s.threads|, Total(Awake, t.threads), Total(Awake, s.threads));
    } else {
      TotalUpdate(Awake, s.threads, i, s.threads[i].(phase := Asleep));
    }
  }

  lemma BudgetSpurious(universe: set<Peer>, s: State, i: nat)
    requires Enabled(s, Spurious(i))
    ensures Budget(universe, s.At(i, Ready)) == Budget(universe, s) + 1
  {
    var woken := s.threads[i].(phase := Ready);
    TotalUpdate(Weight, s.threads, i, woken);
    TotalUpdate(Awake, s.threads, i, woken);
  }

  lemma LessWork(before: int, after: int, n: nat, awakeBefore: nat, awakeAfter: nat)
    requires before < after && awakeBefore <= n
    ensures before * (n + 1) + awakeBefore < after * (n + 1) + awakeAfter
  {
    Scale(before + 1, after, n + 1);
  }

  lemma Scale(a: int, b: int, k: nat)
    requires a <= b
    ensures a * k <= b * k
  {}

  function SpuriousCount(schedule: seq<Event>): nat {
    Total((e: Event) => if e.Spurious? then 1 else 0, schedule)
  }

  lemma {:induction false} WithinRun(cfg: Config, universe: set<Peer>, s: State, schedule: seq<Event>)
    requires ClosedUniverse(cfg, universe) && Within(cfg, universe, s) && Follows(cfg, s, schedule)
    ensures Within(cfg, universe, After(cfg, s, schedule))
  {
    if schedule != [] {
      var front, e := schedule[..|schedule| - 1], schedule[|schedule| - 1];
      WithinRun(cfg, universe, s, front);
      WithinStep(cfg, universe, After(cfg, s, front), e);
    }
  }

  lemma {:induction false} BudgetRun(cfg: Config, universe: set<Peer>, s: State, schedule: seq<Event>)
    requires Follows(cfg, s, schedule)
    ensures |schedule| + Budget(universe, After(cfg, s, schedule)) <= Budget(universe, s) + 2 * SpuriousCount(schedule)
  {
    if schedule != [] {
      var front, e := schedule[..|schedule| - 1], schedule[|schedule| - 1];
      BudgetRun(cfg, universe, s, front);
      if e.Turn? { BudgetTurn(cfg, universe, After(cfg, s, front), e.i); }
      else { BudgetSpurious(universe, After(cfg, s, front), e.i); }
    }
  }

  // No run is longer than its budget, plus two steps for each wakeup that nobody asked for.
  lemma Terminates(cfg: Config, universe: set<Peer>, s: State, schedule: seq<Event>)
    requires ClosedUniverse(cfg, universe) && Within(cfg, universe, s) && Follows(cfg, s, schedule)
    ensures |schedule| <= Budget(universe, s) + 2 * SpuriousCount(schedule)
  {
    WithinRun(cfg, universe, s, schedule);
    SeenBounds(cfg, universe, s, schedule);
  }

  // Any set that holds all peers seen at the end bounds the run.
  lemma SeenBounds(cfg: Config, universe: set<Peer>, s: State, schedule: seq<Event>)
    requires Follows(cfg, s, schedule) && After(cfg, s, schedule).seen <= universe
    ensures |schedule| <= Budget(universe, s) + 2 * SpuriousCount(schedule)
  {
    BudgetRun(cfg, universe, s, schedule);
    var t := After(cfg, s, schedule);
    SubsetCount(t.seen, universe);
    assert Work(universe, t) >= 0;
    assert Budget(universe, t) >= 0 by { Scale(0, Work(universe, t), |t.threads| + 1); }
  }

  // ---- From any start ----

  // An address names a peer of the universe, or none.
  ghost predicate Known(text: AddrText, port: nat, universe: set<Peer>, addr: string) {
    match Parse(text, addr, port)
    case Some(p) => p in universe
    case None => true
  }

  lemma {:induction false} NodesWithin(text: AddrText, port: nat, cfg: Config, universe: set<Peer>, s: State,
                                       nodes: seq<NodeInfo>)
    requires Within(cfg, universe, s)
    requires forall n | n in nodes :: Known(text, port, universe, n.addr)
    ensures Within(cfg, universe, RestoreNodes(text, port, s, nodes))
  {
    if nodes != [] {
      var front := nodes[..|nodes| - 1];
      assert nodes[|nodes| - 1] in nodes && forall n | n in front :: n in nodes;
      NodesWithin(text, port, cfg, universe, s, front);
    }
  }

  lemma PushWithin(cfg: Config, universe: set<Peer>, s: State, t: Task)
    requires Within(cfg, universe, s) && t.peer in universe
    ensures Within(cfg, universe, Push(s, t))
  {
    assert forall i | 0 <= i < |s.threads| :: ThreadWithin(cfg, universe, s.threads[i]);
  }

  lemma {:induction false} FrontierWithin(text: AddrText, port: nat, cfg: Config, universe: set<Peer>, s: State,
                                          frontier: seq<(string, nat)>)
    requires Within(cfg, universe, s)
    requires forall x | x in frontier :: Known(text, port, universe, x.0)
    ensures Within(cfg, universe, RestoreFrontier(text, port, cfg, s, frontier))
  {
    if frontier != [] {
      var front := frontier[..|frontier| - 1];
      assert frontier[|frontier| - 1] in frontier && forall x | x in front :: x in frontier;
      FrontierWithin(text, port, cfg, universe, s, front);
      var before := RestoreFrontier(text, port, cfg, s, front);
      var (a, depth) := frontier[|frontier| - 1];
      match Parse(text, a, port) {
        case Some(p) =>
          if cfg.Allowed(p) { PushWithin(cfg, universe, before.(seen := before.seen + {p}), Task(p, depth)); }
        case None =>
      }
    }
  }

  lemma {:induction false} SeedsWithin(cfg: Config, universe: set<Peer>, s: State, seeds: seq<Seed>)
    requires Within(cfg, universe, s)
    requires forall x | x in seeds && cfg.Allowed(x.peer) :: x.peer in universe
    ensures Within(cfg, universe, PlantSeeds(cfg, s, seeds))
  {
    if seeds != [] {
      var front := seeds[..|seeds| - 1];
      assert seeds[|seeds| - 1] in seeds && forall x | x in front :: x in seeds;
      SeedsWithin(cfg, universe, s, front);
      var before := PlantSeeds(cfg, s, front);
      var Seed(p, depth, known) := seeds[|seeds| - 1];
      if cfg.Allowed(p) && p !in before.seen {
        PushWithin(cfg, universe,
                   before.(seen := before.seen + {p},
                           nodes := if known.Some? then before.nodes[p := known.value] else before.nodes),
                   Task(p, depth));
      }
    }
  }

  // Every crawl ends, fresh or resumed from any file: with a finite set of peers that holds the seeds, the file's
  // peers and all its members' gossip, no schedule is longer than the start's budget and two steps for each spurious
  // wakeup.
  lemma EveryCrawlEnds(text: AddrText, port: nat, cfg: Config, threads: nat, torThreads: nat, saved: Option<Saved>,
                       seeds: seq<Seed>, universe: set<Peer>, schedule: seq<Event>)
    requires ClosedUniverse(cfg, universe)
    requires forall x | x in seeds && cfg.Allowed(x.peer) :: x.peer in universe
    requires saved.Some? ==> forall n | n in saved.value.nodes :: Known(text, port, universe, n.addr)
    requires saved.Some? ==> forall x | x in saved.value.frontier :: Known(text, port, universe, x.0)
    requires Follows(cfg, Start(text, port, cfg, threads, torThreads, saved, seeds), schedule)
    ensures |schedule| <= Budget(universe, Start(text, port, cfg, threads, torThreads, saved, seeds))
                          + 2 * SpuriousCount(schedule)
  {
    var s := Blank(Pool(cfg, threads, torThreads));
    PoolReady(cfg, threads, torThreads);
    if saved.Some? {
      NodesWithin(text, port, cfg, universe, s, saved.value.nodes);
      var nodes := RestoreNodes(text, port, s, saved.value.nodes);
      FrontierWithin(text, port, cfg, universe, nodes, saved.value.frontier);
      s := Resume(text, port, cfg, s, saved.value);
    }
    SeedsWithin(cfg, universe, s, seeds);
    Terminates(cfg, universe, PlantSeeds(cfg, s, seeds), schedule);
  }

  lemma {:induction false} SubsetCount<T>(a: set<T>, b: set<T>)
    requires a <= b
    ensures |a| <= |b|
  {
    if a != {} {
      var x :| x in a;
      SubsetCount(a - {x}, b - {x});
    }
  }
}
