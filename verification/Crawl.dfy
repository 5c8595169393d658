// The crawl engine of src/crawler.rs as a transition system. Two pools of threads, clearnet and onion, share two
// stacks under one lock, a count of busy threads, and the sets of peers seen and recorded. One step is what a thread
// does while it holds its locks; a schedule is any sequence of steps.
module Crawl {
  import opened Prelude
  import opened Peers
  import opened ChainSurvey

  datatype Task = Task(peer: Peer, depth: nat)

  // What a successful probe brings back; the two stamps are the clock readings taken for the record.
  datatype Answer = Answer(client: string, latency: nat, firstStamp: string, lastStamp: string,
                           peers: seq<Peer>, headers: seq<PeerHeader>)

  // `probe` is the network: what the last attempt at a peer gives, retries included. Every limit of 0 is "none".
  datatype Config = Config(
    onionEnabled: bool, maxDepth: nat, maxNodes: nat, edgesPerNode: nat,
    locator: seq<LocatorEntry>, refHeight: int,
    show: Peer -> string, probe: Peer -> Option<Answer>)
  {
    // Onion peers are only crawlable through a proxy.
    predicate Allowed(p: Peer) { p.Onion? ==> onionEnabled }

    predicate Expands(depth: nat) { maxDepth == 0 || depth < maxDepth }

    predicate Capped(nodes: map<Peer, NodeInfo>) { maxNodes != 0 && |nodes| >= maxNodes }
  }

  // Where a thread is between two of its atomic steps.
  datatype Phase =
    | Ready                                    // about to run the loop of next_task
    | Asleep                                   // waiting on its pool's condition variable, not notified
    | Popped(task: Task)                       // before the node-cap check
    | Probing(task: Task)                      // past the check, the probe under way
    | Expanding(task: Task, found: seq<Peer>)  // recorded, gossip not yet looked at
    | Finishing(task: Task, newClearnet: seq<Task>, newOnion: seq<Task>)  // before finish_task
    | Exited
  {
    predicate Busy() { Popped? || Probing? || Expanding? || Finishing? }
    predicate Runnable() { !Asleep? && !Exited? }
    // Children this thread has found but not yet pushed.
    function Unpushed(): seq<Task> { if Finishing? then newClearnet + newOnion else [] }
  }

  datatype Thread = Thread(onion: bool, phase: Phase)

  // What became of a task: its probe's outcome was recorded, or the node cap dropped it.
  datatype Settled = Settled(task: Task, dropped: bool)

  // The last two fields are history: the tasks settled so far, and the peers whose gossip was looked at.
  datatype State = State(
    clearnet: seq<Task>, onion: seq<Task>, active: int,
    seen: set<Peer>, nodes: map<Peer, NodeInfo>, edges: seq<Edge>,
    threads: seq<Thread>,
    settled: seq<Settled>, expanded: seq<Peer>)
  {
    function Stack(onionPool: bool): seq<Task> { if onionPool then onion else clearnet }
    predicate Idle() { clearnet == [] && onion == [] && active == 0 }
    function At(i: nat, p: Phase): State
      requires i < |threads|
    { this.(threads := threads[i := threads[i].(phase := p)]) }
  }

  // Threads of the named pools stop waiting.
  function Notify(threads: seq<Thread>, clearnet: bool, onion: bool): (r: seq<Thread>)
    ensures |r| == |threads|
    ensures forall i | 0 <= i < |r| ::
      r[i] == if threads[i].phase.Asleep? && (if threads[i].onion then onion else clearnet)
              then threads[i].(phase := Ready) else threads[i]
  {
    seq(|threads|, i requires 0 <= i < |threads| =>
      if threads[i].phase.Asleep? && (if threads[i].onion then onion else clearnet)
      then threads[i].(phase := Ready) else threads[i])
  }

  // One turn of the loop in next_task.
  function Poll(s: State, i: nat): State
    requires i < |s.threads| && s.threads[i].phase.Ready?
  {
    var pool := s.threads[i].onion;
    var own := s.Stack(pool);
    if own != [] then
      var rest, task := own[..|own| - 1], own[|own| - 1];
      (if pool then s.(onion := rest) else s.(clearnet := rest))
      .(active := s.active + 1).At(i, Popped(task))
    else if s.Idle() then
      var exited := s.At(i, Exited);
      exited.(threads := Notify(exited.threads, true, true))
    else s.At(i, Asleep)
  }

  // The node-cap check of worker.
  function Check(cfg: Config, s: State, i: nat): State
    requires i < |s.threads| && s.threads[i].phase.Popped?
  {
    var task := s.threads[i].phase.task;
    if cfg.Capped(s.nodes) then
      s.(settled := s.settled + [Settled(task, true)]).At(i, Finishing(task, [], []))
    else s.At(i, Probing(task))
  }

  function Record(cfg: Config, task: Task, a: Answer): NodeInfo {
    NodeInfo(cfg.show(task.peer), task.depth, a.client, PeerHashAt(a.headers, cfg.locator, cfg.refHeight), true,
             a.firstStamp, a.lastStamp, 0, true, Some(a.latency))
  }

  function Stub(cfg: Config, task: Task): NodeInfo {
    NodeInfo(cfg.show(task.peer), task.depth, "Unreachable", "", false, "", "", 0, false, None)
  }

  // What is kept of a peer that answered, field by field: its own block at the reference height, what it said of itself,
  // when, and how fast.
  predicate AnswerStored(cfg: Config, p: Peer, depth: nat, a: Answer, n: NodeInfo) {
    && n.addr == cfg.show(p) && n.depth == depth && n.client == a.client
    && n.chainHash == PeerHashAt(a.headers, cfg.locator, cfg.refHeight)
    && n.handshaked && n.online && n.latency == Some(a.latency)
    && n.firstSeen == a.firstStamp && n.lastSeen == a.lastStamp && n.timesSeen == 0
  }

  // And of one that did not, when nothing was known of it: no handshake, nothing seen, nothing measured.
  predicate FailureStored(cfg: Config, p: Peer, depth: nat, n: NodeInfo) {
    && n.addr == cfg.show(p) && n.depth == depth && n.client == "Unreachable"
    && n.chainHash == "" && !n.handshaked && !n.online && n.latency == None
    && n.firstSeen == "" && n.lastSeen == "" && n.timesSeen == 0
  }

  // The probe's outcome is recorded: an answer replaces any record, a failure only fills a gap.
  function Conclude(cfg: Config, s: State, i: nat): State
    requires i < |s.threads| && s.threads[i].phase.Probing?
  {
    var task := s.threads[i].phase.task;
    match cfg.probe(task.peer)
    case Some(a) =>
      s.(nodes := s.nodes[task.peer := Record(cfg, task, a)], settled := s.settled + [Settled(task, false)])
      .At(i, if cfg.Expands(task.depth) then Expanding(task, a.peers) else Finishing(task, [], []))
    case None =>
      s.(nodes := if task.peer in s.nodes then s.nodes else s.nodes[task.peer := Stub(cfg, task)],
         settled := s.settled + [Settled(task, false)])
      .At(i, Finishing(task, [], []))
  }

  predicate IsClearnet(p: Peer) { p.Clearnet? }

  predicate IsOnion(p: Peer) { p.Onion? }

  function Filter<T>(keep: T -> bool, xs: seq<T>): seq<T> {
    if xs == [] then []
    else
      var front, x := xs[..|xs| - 1], xs[|xs| - 1];
      if keep(x) then Filter(keep, front) + [x] else Filter(keep, front)
  }

  function AllowedPeers(cfg: Config, found: seq<Peer>): seq<Peer> {
    Filter(cfg.Allowed, found)
  }

  // The peers not seen before, each at its first mention.
  function Fresh(seen: set<Peer>, peers: seq<Peer>): seq<Peer> {
    if peers == [] then []
    else
      var front, p := peers[..|peers| - 1], peers[|peers| - 1];
      if p in seen || p in front then Fresh(seen, front) else Fresh(seen, front) + [p]
  }

  function SetOf(xs: seq<Peer>): (r: set<Peer>)
    ensures forall x :: x in r <==> x in xs
  {
    if xs == [] then {}
    else
      var front, x := xs[..|xs| - 1], xs[|xs| - 1];
      assert xs == front + [x];
      SetOf(front) + {x}
  }

  function Tasks(peers: seq<Peer>, depth: nat): seq<Task> {
    seq(|peers|, k requires 0 <= k < |peers| => Task(peers[k], depth))
  }

  function ClearnetTasks(peers: seq<Peer>, depth: nat): seq<Task> {
    Tasks(Filter(IsClearnet, peers), depth)
  }

  function OnionTasks(peers: seq<Peer>, depth: nat): seq<Task> {
    Tasks(Filter(IsOnion, peers), depth)
  }

  // The edges recorded for a peer: to the first `edgesPerNode` allowed peers it gossiped.
  function EdgesOf(cfg: Config, from: Peer, allowed: seq<Peer>): seq<Edge> {
    var n := if cfg.edgesPerNode == 0 || |allowed| < cfg.edgesPerNode then |allowed| else cfg.edgesPerNode;
    seq(n, k requires 0 <= k < n => Edge(cfg.show(from), cfg.show(allowed[k])))
  }

  // A peer's gossip is looked at under the `seen` and `edges` locks.
  function Expand(cfg: Config, s: State, i: nat): State
    requires i < |s.threads| && s.threads[i].phase.Expanding?
  {
    var Expanding(task, found) := s.threads[i].phase;
    var allowed := AllowedPeers(cfg, found);
    var newcomers := Fresh(s.seen, allowed);
    s.(seen := s.seen + SetOf(allowed),
       edges := s.edges + EdgesOf(cfg, task.peer, allowed),
       expanded := s.expanded + [task.peer])
    .At(i, Finishing(task, ClearnetTasks(newcomers, task.depth + 1), OnionTasks(newcomers, task.depth + 1)))
  }

  // finish_task: the children are pushed and their pools woken, everyone when the crawl is over.
  function Finish(s: State, i: nat): State
    requires i < |s.threads| && s.threads[i].phase.Finishing?
  {
    var Finishing(_, newClearnet, newOnion) := s.threads[i].phase;
    var next := s.(active := s.active - 1, clearnet := s.clearnet + newClearnet, onion := s.onion + newOnion)
                .At(i, Ready);
    var over := next.Idle();
    next.(threads := Notify(next.threads, newClearnet != [] || over, newOnion != [] || over))
  }

  // A step of one thread, or a wakeup the condition variable gives for no reason.
  datatype Event = Turn(i: nat) | Spurious(i: nat)

  predicate Enabled(s: State, e: Event) {
    && e.i < |s.threads|
    && (e.Turn? ==> s.threads[e.i].phase.Runnable())
    && (e.Spurious? ==> s.threads[e.i].phase.Asleep?)
  }

  function Step(cfg: Config, s: State, e: Event): State
    requires Enabled(s, e)
  {
    if e.Spurious? then s.At(e.i, Ready)
    else
      match s.threads[e.i].phase
      case Ready => Poll(s, e.i)
      case Popped(_) => Check(cfg, s, e.i)
      case Probing(_) => Conclude(cfg, s, e.i)
      case Expanding(_, _) => Expand(cfg, s, e.i)
      case Finishing(_, _, _) => Finish(s, e.i)
  }

  // The schedule can be followed from s.
  predicate Follows(cfg: Config, s: State, schedule: seq<Event>)
    decreases |schedule|, 0
  {
    schedule == [] ||
    (Follows(cfg, s, schedule[..|schedule| - 1]) &&
     Enabled(After(cfg, s, schedule[..|schedule| - 1]), schedule[|schedule| - 1]))
  }

  // The state the schedule leads to.
  function After(cfg: Config, s: State, schedule: seq<Event>): State
    requires Follows(cfg, s, schedule)
    decreases |schedule|, 1
  {
    if schedule == [] then s
    else Step(cfg, After(cfg, s, schedule[..|schedule| - 1]), schedule[|schedule| - 1])
  }

  // ---- The starting state: resume, then seeds ----

  // A saved crawl: pending tasks and records by address text, and the edges.
  datatype Saved = Saved(frontier: seq<(string, nat)>, nodes: seq<NodeInfo>, edges: seq<Edge>)

  datatype Seed = Seed(peer: Peer, depth: nat, known: Option<NodeInfo>)

  function Push(s: State, task: Task): State {
    if task.peer.Onion? then s.(onion := s.onion + [task]) else s.(clearnet := s.clearnet + [task])
  }

  function RestoreNodes(text: AddrText, port: nat, s: State, nodes: seq<NodeInfo>): State {
    if nodes == [] then s
    else
      var before := RestoreNodes(text, port, s, nodes[..|nodes| - 1]);
      var n := nodes[|nodes| - 1];
      match Parse(text, n.addr, port)
      case Some(p) => before.(seen := before.seen + {p}, nodes := before.nodes[p := n])
      case None => before
  }

  function RestoreFrontier(text: AddrText, port: nat, cfg: Config, s: State, frontier: seq<(string, nat)>): State {
    if frontier == [] then s
    else
      var before := RestoreFrontier(text, port, cfg, s, frontier[..|frontier| - 1]);
      var (a, depth) := frontier[|frontier| - 1];
      match Parse(text, a, port)
      case Some(p) =>
        if cfg.Allowed(p) then Push(before.(seen := before.seen + {p}), Task(p, depth)) else before
      case None => before
  }

  function Resume(text: AddrText, port: nat, cfg: Config, s: State, saved: Saved): State {
    var restored := RestoreFrontier(text, port, cfg, RestoreNodes(text, port, s, saved.nodes), saved.frontier);
    restored.(edges := restored.edges + saved.edges)
  }

  function PlantSeed(cfg: Config, s: State, seed: Seed): State {
    var Seed(p, depth, known) := seed;
    if !cfg.Allowed(p) || p in s.seen then s
    else
      Push(s.(seen := s.seen + {p}, nodes := if known.Some? then s.nodes[p := known.value] else s.nodes), Task(p, depth))
  }

  function PlantSeeds(cfg: Config, s: State, seeds: seq<Seed>): State {
    if seeds == [] then s else PlantSeed(cfg, PlantSeeds(cfg, s, seeds[..|seeds| - 1]), seeds[|seeds| - 1])
  }

  // Every thread about to poll: at least one clearnet thread, and an onion pool only with a proxy.
  function Pool(cfg: Config, threads: nat, torThreads: nat): seq<Thread> {
    seq(if threads == 0 then 1 else threads, _ => Thread(false, Ready))
    + if cfg.onionEnabled then seq(if torThreads == 0 then 1 else torThreads, _ => Thread(true, Ready)) else []
  }

  function Blank(threads: seq<Thread>): State {
    State([], [], 0, {}, map[], [], threads, [], [])
  }
}
