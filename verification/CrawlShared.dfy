// The shared state of a crawl as the program updates it in place: one method for each stretch of code that runs
// under its locks, each proved to be the step of the transition system it stands for.
module CrawlShared {
  import opened Prelude
  import opened Peers
  import opened Crawl
  import opened ChainSurvey

  // ---- How the closed forms of Expand grow by one peer ----

  lemma FilterPush<T>(keep: T -> bool, xs: seq<T>, x: T)
    ensures Filter(keep, xs + [x]) == if keep(x) then Filter(keep, xs) + [x] else Filter(keep, xs)
  {
    assert (xs + [x])[..|xs|] == xs;
  }

  lemma NewcomersPush(seen: set<Peer>, peers: seq<Peer>, p: Peer)
    ensures Crawl.Fresh(seen, peers + [p])
         == if p in seen || p in peers then Crawl.Fresh(seen, peers) else Crawl.Fresh(seen, peers) + [p]
  {
    assert (peers + [p])[..|peers|] == peers;
  }

  lemma ChildTasksPush(peers: seq<Peer>, p: Peer, depth: nat)
    ensures ClearnetTasks(peers + [p], depth)
         == if p.Clearnet? then ClearnetTasks(peers, depth) + [Task(p, depth)] else ClearnetTasks(peers, depth)
    ensures OnionTasks(peers + [p], depth)
         == if p.Onion? then OnionTasks(peers, depth) + [Task(p, depth)] else OnionTasks(peers, depth)
  {
    FilterPush(IsClearnet, peers, p);
    FilterPush(IsOnion, peers, p);
  }

  lemma EdgesPush(cfg: Config, from: Peer, allowed: seq<Peer>, p: Peer)
    ensures EdgesOf(cfg, from, allowed + [p])
         == if cfg.edgesPerNode == 0 || |allowed| < cfg.edgesPerNode
            then EdgesOf(cfg, from, allowed) + [Edge(cfg.show(from), cfg.show(p))]
            else EdgesOf(cfg, from, allowed)
  {
    assert forall k | 0 <= k < |allowed| :: (allowed + [p])[k] == allowed[k];
  }

  // The variables of the children loop.
  datatype Gathering = Gathering(seen: set<Peer>, edges: seq<Edge>, recorded: nat,
                                 newClearnet: seq<Task>, newOnion: seq<Task>)

  // One child: skipped when it may not be crawled, else recorded as an edge while the quota lasts, and queued when new.
  function GatherOne(cfg: Config, task: Task, g: Gathering, child: Peer): Gathering {
    if !cfg.Allowed(child) then g
    else
      var edge := cfg.edgesPerNode == 0 || g.recorded < cfg.edgesPerNode;
      var isNew := child !in g.seen;
      Gathering(
        g.seen + {child},
        if edge then g.edges + [Edge(cfg.show(task.peer), cfg.show(child))] else g.edges,
        if edge then g.recorded + 1 else g.recorded,
        if isNew && child.Clearnet? then g.newClearnet + [Task(child, task.depth + 1)] else g.newClearnet,
        if isNew && child.Onion? then g.newOnion + [Task(child, task.depth + 1)] else g.newOnion)
  }

  function Gather(cfg: Config, task: Task, g: Gathering, found: seq<Peer>): Gathering {
    if found == [] then g
    else GatherOne(cfg, task, Gather(cfg, task, g, found[..|found| - 1]), found[|found| - 1])
  }

  // The closed form of the loop, over the allowed peers looked at so far.
  function Gathered(cfg: Config, task: Task, seen: set<Peer>, edges: seq<Edge>, allowed: seq<Peer>): Gathering {
    var newcomers := Crawl.Fresh(seen, allowed);
    Gathering(seen + SetOf(allowed), edges + EdgesOf(cfg, task.peer, allowed),
              |EdgesOf(cfg, task.peer, allowed)|,
              ClearnetTasks(newcomers, task.depth + 1), OnionTasks(newcomers, task.depth + 1))
  }

  lemma EdgesGathered(cfg: Config, task: Task, seen: set<Peer>, edges: seq<Edge>, allowed: seq<Peer>, child: Peer)
    requires cfg.Allowed(child)
    ensures var more := Gathered(cfg, task, seen, edges, allowed + [child]);
      var one := GatherOne(cfg, task, Gathered(cfg, task, seen, edges, allowed), child);
      more.edges == one.edges && more.recorded == one.recorded
  {
    EdgesPush(cfg, task.peer, allowed, child);
    Associate(edges, EdgesOf(cfg, task.peer, allowed), Edge(cfg.show(task.peer), cfg.show(child)));
  }

  lemma ChildrenGathered(cfg: Config, task: Task, seen: set<Peer>, edges: seq<Edge>, allowed: seq<Peer>, child: Peer)
    requires cfg.Allowed(child)
    ensures var more := Gathered(cfg, task, seen, edges, allowed + [child]);
      var one := GatherOne(cfg, task, Gathered(cfg, task, seen, edges, allowed), child);
      more.newClearnet == one.newClearnet && more.newOnion == one.newOnion
  {
    NewcomersPush(seen, allowed, child);
    if child !in seen && child !in allowed {
      ChildTasksPush(Crawl.Fresh(seen, allowed), child, task.depth + 1);
    }
  }

  lemma GatheredPush(cfg: Config, task: Task, seen: set<Peer>, edges: seq<Edge>, allowed: seq<Peer>, child: Peer)
    requires cfg.Allowed(child)
    ensures Gathered(cfg, task, seen, edges, allowed + [child])
         == GatherOne(cfg, task, Gathered(cfg, task, seen, edges, allowed), child)
  {
    EdgesGathered(cfg, task, seen, edges, allowed, child);
    ChildrenGathered(cfg, task, seen, edges, allowed, child);
    SeenPush(seen, allowed, child);
  }

  lemma SeenPush(seen: set<Peer>, allowed: seq<Peer>, child: Peer)
    ensures seen + SetOf(allowed + [child]) == seen + SetOf(allowed) + {child}
  {
    assert (allowed + [child])[..|allowed|] == allowed;
  }

  lemma Associate<T>(xs: seq<T>, ys: seq<T>, z: T)
    ensures xs + (ys + [z]) == xs + ys + [z]
  {}

  lemma {:induction false} GatherIs(cfg: Config, task: Task, seen: set<Peer>, edges: seq<Edge>, found: seq<Peer>)
    ensures Gather(cfg, task, Gathering(seen, edges, 0, [], []), found)
         == Gathered(cfg, task, seen, edges, AllowedPeers(cfg, found))
  {
    if found == [] {
      assert seen + {} == seen && edges + [] == edges;
      assert seen + SetOf([]) == seen;
    } else {
      var front, child := found[..|found| - 1], found[|found| - 1];
      GatherIs(cfg, task, seen, edges, front);
      if cfg.Allowed(child) {
        GatheredPush(cfg, task, seen, edges, AllowedPeers(cfg, front), child);
      }
    }
  }

  class Shared {
    var clearnet: seq<Task>
    var onion: seq<Task>
    var active: int
    var seen: set<Peer>
    var nodes: map<Peer, NodeInfo>
    var edges: seq<Edge>
    var threads: seq<Thread>
    ghost var settled: seq<Settled>
    ghost var expanded: seq<Peer>

    ghost function View(): State
      reads this
    {
      State(clearnet, onion, active, seen, nodes, edges, threads, settled, expanded)
    }

    constructor (pool: seq<Thread>)
      ensures View() == Blank(pool)
    {
      clearnet, onion, active := [], [], 0;
      seen, nodes, edges := {}, map[], [];
      threads := pool;
      settled, expanded := [], [];
    }

    method SetPhase(i: nat, phase: Phase)
      requires i < |threads|
      modifies this`threads
      ensures View() == old(View()).At(i, phase)
    {
      threads := threads[i := threads[i].(phase := phase)];
    }

    method PushTask(t: Task)
      modifies this`clearnet, this`onion
      ensures View() == Push(old(View()), t)
    {
      if t.peer.Onion? {
        onion := onion + [t];
      } else {
        clearnet := clearnet + [t];
      }
    }

    // The resumed part of `crawl`, before any thread runs.
    method Restore(text: AddrText, port: nat, cfg: Config, saved: Saved)
      modifies this
      ensures View() == Resume(text, port, cfg, old(View()), saved)
    {
      ghost var start := View();
      for k := 0 to |saved.nodes|
        invariant View() == RestoreNodes(text, port, start, saved.nodes[..k])
      {
        assert saved.nodes[..k + 1][..k] == saved.nodes[..k];
        var n := saved.nodes[k];
        match Parse(text, n.addr, port) {
          case Some(p) =>
            seen := seen + {p};
            nodes := nodes[p := n];
          case None =>
        }
      }
      assert saved.nodes[..|saved.nodes|] == saved.nodes;
      ghost var restored := View();
      for k := 0 to |saved.frontier|
        invariant View() == RestoreFrontier(text, port, cfg, restored, saved.frontier[..k])
      {
        assert saved.frontier[..k + 1][..k] == saved.frontier[..k];
        var (s, d) := saved.frontier[k];
        match Parse(text, s, port) {
          case Some(p) =>
            if cfg.Allowed(p) {
              seen := seen + {p};
              PushTask(Task(p, d));
            }
          case None =>
        }
      }
      assert saved.frontier[..|saved.frontier|] == saved.frontier;
      edges := edges + saved.edges;
    }

    // The seeding part of `crawl`.
    method Plant(cfg: Config, seeds: seq<Seed>)
      modifies this
      ensures View() == PlantSeeds(cfg, old(View()), seeds)
    {
      ghost var start := View();
      for k := 0 to |seeds|
        invariant View() == PlantSeeds(cfg, start, seeds[..k])
      {
        assert seeds[..k + 1][..k] == seeds[..k];
        var Seed(p, depth, known) := seeds[k];
        if cfg.Allowed(p) && p !in seen {
          seen := seen + {p};
          if known.Some? {
            nodes := nodes[p := known.value];
          }
          PushTask(Task(p, depth));
        }
      }
      assert seeds[..|seeds|] == seeds;
    }

    // One turn of the loop in next_task: a task popped from the thread's own stack, last in first out, or the news
    // that the crawl is over, or sleep.
    method NextTask(i: nat) returns (task: Option<Task>, over: bool)
      requires i < |threads| && threads[i].phase.Ready?
      modifies this
      ensures View() == Poll(old(View()), i)
      ensures var own := old(View().Stack(threads[i].onion));
        && (own != [] ==> task == Some(own[|own| - 1]))
        && (own == [] ==> task == None && over == old(View()).Idle())
      ensures over ==> threads[i].phase == Exited
    {
      task, over := None, false;
      if threads[i].onion {
        if onion != [] {
          task := Some(onion[|onion| - 1]);
          onion := onion[..|onion| - 1];
        }
      } else {
        if clearnet != [] {
          task := Some(clearnet[|clearnet| - 1]);
          clearnet := clearnet[..|clearnet| - 1];
        }
      }
      if task.Some? {
        active := active + 1;
        SetPhase(i, Popped(task.value));
        return;
      }
      if clearnet == [] && onion == [] && active == 0 {
        SetPhase(i, Exited);
        threads := Notify(threads, true, true);
        over := true;
        return;
      }
      SetPhase(i, Asleep);
    }

    // The node-cap check.
    method CheckCap(cfg: Config, i: nat)
      requires i < |threads| && threads[i].phase.Popped?
      modifies this
      ensures View() == Check(cfg, old(View()), i)
    {
      var task := threads[i].phase.task;
      if cfg.maxNodes != 0 && |nodes| >= cfg.maxNodes {
        settled := settled + [Settled(task, true)];
        SetPhase(i, Finishing(task, [], []));
      } else {
        SetPhase(i, Probing(task));
      }
    }

    // The outcome of the probe goes into `nodes`.
    method RecordProbe(cfg: Config, i: nat)
      requires i < |threads| && threads[i].phase.Probing?
      modifies this
      ensures View() == Conclude(cfg, old(View()), i)
      ensures var task := old(threads[i].phase.task);
        && task.peer in nodes && nodes.Keys == old(nodes).Keys + {task.peer}
        && (forall p | p in old(nodes) && p != task.peer :: nodes[p] == old(nodes)[p])
        && match cfg.probe(task.peer)
           case Some(a) => AnswerStored(cfg, task.peer, task.depth, a, nodes[task.peer])
           case None =>
             if task.peer in old(nodes) then nodes[task.peer] == old(nodes)[task.peer]
             else FailureStored(cfg, task.peer, task.depth, nodes[task.peer])
    {
      var task := threads[i].phase.task;
      settled := settled + [Settled(task, false)];
      match cfg.probe(task.peer) {
        case Some(a) =>
          var chainHash := PeerHashAt(a.headers, cfg.locator, cfg.refHeight);
          var info := NodeInfo(cfg.show(task.peer), task.depth, a.client, chainHash, true, a.firstStamp, a.lastStamp, 0,
                               true, Some(a.latency));
          nodes := nodes[task.peer := info];
          if cfg.maxDepth == 0 || task.depth < cfg.maxDepth {
            SetPhase(i, Expanding(task, a.peers));
          } else {
            SetPhase(i, Finishing(task, [], []));
          }
        case None =>
          if task.peer !in nodes {
            var info := NodeInfo(cfg.show(task.peer), task.depth, "Unreachable", "", false, "", "", 0, false, None);
            nodes := nodes[task.peer := info];
          }
          SetPhase(i, Finishing(task, [], []));
      }
    }

    // The children loop, under the `seen` and `edges` locks.
    method FollowGossip(cfg: Config, i: nat)
      requires i < |threads| && threads[i].phase.Expanding?
      modifies this
      ensures View() == Expand(cfg, old(View()), i)
    {
      var Expanding(task, found) := threads[i].phase;
      var newClearnet: seq<Task>, newOnion: seq<Task> := [], [];
      var recorded := 0;
      ghost var start := View();
      ghost var g := Gathering(seen, edges, 0, [], []);
      for k := 0 to |found|
        invariant Gathering(seen, edges, recorded, newClearnet, newOnion) == Gather(cfg, task, g, found[..k])
        invariant View() == start.(seen := seen, edges := edges)
      {
        assert found[..k + 1][..k] == found[..k];
        var child := found[k];
        if child.Onion? && !cfg.onionEnabled {
          continue;
        }
        if cfg.edgesPerNode == 0 || recorded < cfg.edgesPerNode {
          edges := edges + [Edge(cfg.show(task.peer), cfg.show(child))];
          recorded := recorded + 1;
        }
        if child !in seen {
          if child.Onion? {
            newOnion := newOnion + [Task(child, task.depth + 1)];
          } else {
            newClearnet := newClearnet + [Task(child, task.depth + 1)];
          }
        }
        seen := seen + {child};
      }
      assert found[..|found|] == found;
      GatherIs(cfg, task, start.seen, start.edges, found);
      expanded := expanded + [task.peer];
      SetPhase(i, Finishing(task, newClearnet, newOnion));
    }

    // finish_task.
    method FinishTask(i: nat)
      requires i < |threads| && threads[i].phase.Finishing?
      modifies this
      ensures View() == Finish(old(View()), i)
    {
      var Finishing(_, newClearnet, newOnion) := threads[i].phase;
      active := active - 1;
      clearnet := clearnet + newClearnet;
      onion := onion + newOnion;
      SetPhase(i, Ready);
      var over := active == 0 && clearnet == [] && onion == [];
      threads := Notify(threads, newClearnet != [] || over, newOnion != [] || over);
    }

    // Whatever a runnable thread does next is its turn.
    method TakeTurn(cfg: Config, i: nat)
      requires i < |threads| && threads[i].phase.Runnable()
      modifies this
      ensures View() == Step(cfg, old(View()), Turn(i))
    {
      match threads[i].phase {
        case Ready => var _, _ := NextTask(i);
        case Popped(_) => CheckCap(cfg, i);
        case Probing(_) => RecordProbe(cfg, i);
        case Expanding(_, _) => FollowGossip(cfg, i);
        case Finishing(_, _, _) => FinishTask(i);
      }
    }
  }
}
