// The depth limit: no task lies deeper than it, whatever the schedule, and everything gossiped above it is followed.
module CrawlDepth {
  import opened Prelude
  import opened Peers
  import opened Crawl
  import opened CrawlProgress
  import opened CrawlConservation
  import opened CrawlOutcome

  ghost predicate Shallow(limit: nat, tasks: seq<Task>) { forall t | t in tasks :: t.depth <= limit }

  // Gossip is looked at only one level above the limit or higher.
  ghost predicate PhaseShallow(limit: nat, ph: Phase) {
    && (ph.Popped? || ph.Probing? ==> ph.task.depth <= limit)
    && (ph.Expanding? ==> ph.task.depth < limit)
    && (ph.Finishing? ==> Shallow(limit, ph.newClearnet) && Shallow(limit, ph.newOnion))
  }

  ghost predicate Within(limit: nat, s: State) {
    && Shallow(limit, s.clearnet) && Shallow(limit, s.onion)
    && (forall i | 0 <= i < |s.threads| :: PhaseShallow(limit, s.threads[i].phase))
    && (forall x | x in s.settled :: x.task.depth <= limit)
  }

  lemma ChildrenShallow(cfg: Config, limit: nat, s: State, i: nat)
    requires i < |s.threads| && s.threads[i].phase.Expanding? && PhaseShallow(limit, s.threads[i].phase)
    ensures PhaseShallow(limit, Expand(cfg, s, i).threads[i].phase)
  {
    var Expanding(task, found) := s.threads[i].phase;
    var newcomers := Crawl.Fresh(s.seen, AllowedPeers(cfg, found));
    TasksIn(Filter(IsClearnet, newcomers), task.depth + 1);
    TasksIn(Filter(IsOnion, newcomers), task.depth + 1);
  }

  lemma TurnShallow(cfg: Config, limit: nat, s: State, e: Event)
    requires 0 < cfg.maxDepth <= limit && Within(limit, s) && Enabled(s, e)
    ensures PhaseShallow(limit, Step(cfg, s, e).threads[e.i].phase)
  {
    assert PhaseShallow(limit, s.threads[e.i].phase);
    if e.Turn? && s.threads[e.i].phase.Expanding? {
      ChildrenShallow(cfg, limit, s, e.i);
    }
    if e.Turn? && s.threads[e.i].phase.Finishing? {
      MovesFinish(s, e.i);
      assert Finish(s, e.i).threads[e.i].phase == Ready;
    }
  }

  lemma WithinStep(cfg: Config, limit: nat, s: State, e: Event)
    requires 0 < cfg.maxDepth <= limit && Within(limit, s) && Enabled(s, e)
    ensures Within(limit, Step(cfg, s, e))
  {
    var t := Step(cfg, s, e);
    var c, o := ThreadsAfter(cfg, s, e);
    assert PhaseShallow(limit, s.threads[e.i].phase);
    TurnShallow(cfg, limit, s, e);
    forall i: nat | i < |t.threads| ensures PhaseShallow(limit, t.threads[i].phase) {
      OthersStay(s, t, e.i, c, o, i);
      assert PhaseShallow(limit, s.threads[i].phase);
    }
  }

  // With a limit, nothing queued, in hand or settled lies deeper than the limit, unless the crawl began deeper.
  lemma {:induction false} DepthLimit(cfg: Config, s: State, schedule: seq<Event>, limit: nat)
    requires Begin(cfg, s) && Follows(cfg, s, schedule)
    requires 0 < cfg.maxDepth <= limit && forall t | t in s.clearnet + s.onion :: t.depth <= limit
    ensures Within(limit, After(cfg, s, schedule))
  {
    if schedule == [] {
      assert forall t | t in s.clearnet || t in s.onion :: t in s.clearnet + s.onion;
    } else {
      DepthLimit(cfg, s, schedule[..|schedule| - 1], limit);
      WithinStep(cfg, limit, After(cfg, s, schedule[..|schedule| - 1]), schedule[|schedule| - 1]);
    }
  }

  // And nothing above it is missed: when the crawl is over, whatever an answering peer gossiped was seen if that peer
  // was taken at a depth below the limit, or if there is none.
  lemma AboveTheLimit(cfg: Config, base: set<Peer>, s: State, schedule: seq<Event>)
    requires Begin(cfg, s) && Distinct(base, s) && Follows(cfg, s, schedule)
    requires Over(After(cfg, s, schedule))
    ensures var t := After(cfg, s, schedule);
      forall x, q | x in t.settled && !x.dropped && (cfg.maxDepth == 0 || x.task.depth < cfg.maxDepth)
                    && Gossips(cfg, x.task.peer, q) :: q in t.seen
  {
    WhenOver(cfg, base, s, schedule);
  }
}
