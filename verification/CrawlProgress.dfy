// No lost wakeup, no early exit, no deadlock, and an end to every run of the crawl.
module CrawlProgress {
  import opened Prelude
  import opened Peers
  import opened Crawl

  function BusyCount(t: Thread): nat { if t.phase.Busy() then 1 else 0 }

  predicate OnStack(tasks: seq<Task>, onion: bool) {
    forall t | t in tasks :: t.peer.Onion? == onion
  }

  predicate PhaseRouted(cfg: Config, ph: Phase) {
    ph.Finishing? ==>
      && OnStack(ph.newClearnet, false) && OnStack(ph.newOnion, true)
      && (!cfg.onionEnabled ==> ph.newOnion == [])
  }

  // Clearnet and onion tasks never mix, and without a proxy there is no onion task anywhere.
  predicate Routed(cfg: Config, s: State) {
    && OnStack(s.clearnet, false) && OnStack(s.onion, true)
    && (!cfg.onionEnabled ==> s.onion == [])
    && forall i | 0 <= i < |s.threads| :: PhaseRouted(cfg, s.threads[i].phase)
  }

  // Each pool whose stack may fill has a thread, and `active` counts the threads between next_task and finish_task.
  predicate Staffed(cfg: Config, s: State) {
    && (exists i :: 0 <= i < |s.threads| && !s.threads[i].onion)
    && (cfg.onionEnabled ==> exists i :: 0 <= i < |s.threads| && s.threads[i].onion)
    && s.active == Total(BusyCount, s.threads)
  }

  // Nobody sleeps through a wakeup: a sleeper's own stack is empty and there is work elsewhere still.
  predicate NoLostWakeup(s: State) {
    forall i | 0 <= i < |s.threads| && s.threads[i].phase.Asleep? ::
      s.Stack(s.threads[i].onion) == [] && (s.active > 0 || s.Stack(!s.threads[i].onion) != [])
  }

  // A thread has left only once nothing is queued and nobody is busy.
  predicate NoEarlyExit(s: State) {
    (exists i :: 0 <= i < |s.threads| && s.threads[i].phase.Exited?) ==> s.Idle()
  }

  predicate Inv(cfg: Config, s: State) {
    Routed(cfg, s) && Staffed(cfg, s) && NoLostWakeup(s) && NoEarlyExit(s)
  }

  // ---- Facts about one step ----

  lemma {:induction false} NotifyKeepsBusy(threads: seq<Thread>, c: bool, o: bool)
    ensures Total(BusyCount, Notify(threads, c, o)) == Total(BusyCount, threads)
  {
    TotalSame(BusyCount, Notify(threads, c, o), threads);
  }

  lemma {:induction false} FilterIn<T>(keep: T -> bool, xs: seq<T>)
    ensures forall x :: x in Filter(keep, xs) <==> x in xs && keep(x)
  {
    if xs != [] {
      FilterIn(keep, xs[..|xs| - 1]);
      assert xs == xs[..|xs| - 1] + [xs[|xs| - 1]];
    }
  }

  lemma {:induction false} FilterNone<T>(keep: T -> bool, xs: seq<T>)
    requires forall x | x in xs :: !keep(x)
    ensures Filter(keep, xs) == []
  {
    if xs != [] {
      FilterNone(keep, xs[..|xs| - 1]);
    }
  }

  lemma {:induction false} NewcomersIn(seen: set<Peer>, peers: seq<Peer>)
    ensures forall p :: p in Crawl.Fresh(seen, peers) <==> p in peers && p !in seen
  {
    if peers != [] {
      NewcomersIn(seen, peers[..|peers| - 1]);
      assert peers == peers[..|peers| - 1] + [peers[|peers| - 1]];
    }
  }

  lemma TasksIn(peers: seq<Peer>, depth: nat)
    ensures forall t: Task :: t in Tasks(peers, depth) <==> t.peer in peers && t.depth == depth
  {
    forall t: Task | t.peer in peers && t.depth == depth ensures t in Tasks(peers, depth) {
      var k :| 0 <= k < |peers| && peers[k] == t.peer;
      assert Tasks(peers, depth)[k] == t;
    }
  }

  lemma ChildrenRouted(cfg: Config, seen: set<Peer>, found: seq<Peer>, depth: nat)
    ensures var newcomers := Crawl.Fresh(seen, AllowedPeers(cfg, found));
      && OnStack(ClearnetTasks(newcomers, depth), false)
      && OnStack(OnionTasks(newcomers, depth), true)
      && (!cfg.onionEnabled ==> OnionTasks(newcomers, depth) == [])
  {
    var newcomers := Crawl.Fresh(seen, AllowedPeers(cfg, found));
    FilterIn(cfg.Allowed, found);
    NewcomersIn(seen, AllowedPeers(cfg, found));
    var clearnet, onion := Filter(IsClearnet, newcomers), Filter(IsOnion, newcomers);
    FilterIn(IsClearnet, newcomers);
    FilterIn(IsOnion, newcomers);
    TasksIn(clearnet, depth);
    TasksIn(onion, depth);
    if !cfg.onionEnabled {
      FilterNone(IsOnion, newcomers);
    }
  }

  // How a step changes the threads: one moves to its new phase, then sleepers of some pools are woken.
  predicate Moves(s: State, t: State, i: nat, c: bool, o: bool)
    requires i < |s.threads|
  {
    && |t.threads| == |s.threads|
    && t.threads == Notify(s.threads[i := s.threads[i].(phase := t.threads[i].phase)], c, o)
    && t.active - s.active == BusyCount(t.threads[i]) - BusyCount(s.threads[i])
  }

  lemma MovesPoll(s: State, i: nat)
    requires i < |s.threads| && s.threads[i].phase.Ready?
    ensures var t := Poll(s, i); Moves(s, t, i, t.threads[i].phase.Exited?, t.threads[i].phase.Exited?)
  {
    var t := Poll(s, i);
    if !t.threads[i].phase.Exited? {
      assert t.threads == s.threads[i := s.threads[i].(phase := t.threads[i].phase)];
    }
  }

  lemma MovesFinish(s: State, i: nat)
    requires i < |s.threads| && s.threads[i].phase.Finishing?
    ensures var t := Finish(s, i);
      Moves(s, t, i, s.threads[i].phase.newClearnet != [] || t.Idle(), s.threads[i].phase.newOnion != [] || t.Idle())
  {}

  // A step that leaves `active` alone wakes nobody.
  lemma MovesAlone(s: State, t: State, i: nat)
    requires i < |s.threads| == |t.threads| && t.active == s.active
    requires t.threads == s.threads[i := s.threads[i].(phase := t.threads[i].phase)]
    requires BusyCount(t.threads[i]) == BusyCount(s.threads[i])
    ensures Moves(s, t, i, false, false)
  {}

  lemma ThreadsAfter(cfg: Config, s: State, e: Event) returns (c: bool, o: bool)
    requires Enabled(s, e)
    ensures Moves(s, Step(cfg, s, e), e.i, c, o)
  {
    var t := Step(cfg, s, e);
    c, o := false, false;
    if e.Spurious? {
      MovesAlone(s, t, e.i);
    } else {
      match s.threads[e.i].phase
      case Ready =>
        MovesPoll(s, e.i);
        c, o := t.threads[e.i].phase.Exited?, t.threads[e.i].phase.Exited?;
      case Popped(_) => MovesAlone(s, t, e.i);
      case Probing(_) => MovesAlone(s, t, e.i);
      case Expanding(_, _) => MovesAlone(s, t, e.i);
      case Finishing(_, newClearnet, newOnion) =>
        MovesFinish(s, e.i);
        c, o := newClearnet != [] || t.Idle(), newOnion != [] || t.Idle();
    }
  }

  // What one move leaves of any other thread.
  lemma OthersStay(s: State, t: State, i: nat, c: bool, o: bool, j: nat)
    requires i < |s.threads| && Moves(s, t, i, c, o) && j < |s.threads|
    ensures t.threads[j].onion == s.threads[j].onion
    ensures j != i ==>
      t.threads[j] == s.threads[j] || (s.threads[j].phase.Asleep? && t.threads[j].phase == Ready)
  {}

  lemma StaffedStep(cfg: Config, s: State, e: Event)
    requires Staffed(cfg, s) && Enabled(s, e)
    ensures Staffed(cfg, Step(cfg, s, e))
  {
    var t := Step(cfg, s, e);
    var c, o := ThreadsAfter(cfg, s, e);
    var moved := s.threads[e.i].(phase := t.threads[e.i].phase);
    TotalUpdate(BusyCount, s.threads, e.i, moved);
    NotifyKeepsBusy(s.threads[e.i := moved], c, o);
    forall j: nat | j < |s.threads| ensures t.threads[j].onion == s.threads[j].onion {
      OthersStay(s, t, e.i, c, o, j);
    }
  }

  lemma StacksRouted(cfg: Config, s: State, e: Event)
    requires Routed(cfg, s) && Enabled(s, e)
    ensures var t := Step(cfg, s, e);
      OnStack(t.clearnet, false) && OnStack(t.onion, true) && (!cfg.onionEnabled ==> t.onion == [])
  {
    assert PhaseRouted(cfg, s.threads[e.i].phase);
  }

  lemma ExpandRouted(cfg: Config, s: State, i: nat)
    requires i < |s.threads| && s.threads[i].phase.Expanding?
    ensures PhaseRouted(cfg, Expand(cfg, s, i).threads[i].phase)
  {
    var Expanding(task, found) := s.threads[i].phase;
    ChildrenRouted(cfg, s.seen, found, task.depth + 1);
  }

  lemma TurnRouted(cfg: Config, s: State, e: Event)
    requires Enabled(s, e)
    ensures PhaseRouted(cfg, Step(cfg, s, e).threads[e.i].phase)
  {
    if s.threads[e.i].phase.Expanding? {
      ExpandRouted(cfg, s, e.i);
    }
  }

  lemma RoutedStep(cfg: Config, s: State, e: Event)
    requires Routed(cfg, s) && Enabled(s, e)
    ensures Routed(cfg, Step(cfg, s, e))
  {
    var t := Step(cfg, s, e);
    var c, o := ThreadsAfter(cfg, s, e);
    forall i: nat | i < |t.threads| ensures PhaseRouted(cfg, t.threads[i].phase) {
      if i == e.i {
        TurnRouted(cfg, s, e);
      } else {
        OthersStay(s, t, e.i, c, o, i);
        assert PhaseRouted(cfg, s.threads[i].phase);
      }
    }
    StacksRouted(cfg, s, e);
  }

  lemma BusyMeansActive(s: State, i: nat)
    requires i < |s.threads| && s.threads[i].phase.Busy() && s.active == Total(BusyCount, s.threads)
    ensures s.active > 0
  {
    TotalAtLeast(BusyCount, s.threads, i);
  }

  // The end is absorbing: once nothing is queued and nobody is busy, no step changes anything but who is asleep.
  lemma IdleIsAbsorbing(cfg: Config, s: State, e: Event)
    requires Staffed(cfg, s) && s.Idle() && Enabled(s, e)
    ensures var t := Step(cfg, s, e);
      t == s.(threads := t.threads) && (e.Turn? ==> t.threads[e.i].phase.Exited?)
  {
    if s.threads[e.i].phase.Busy() {
      BusyMeansActive(s, e.i);
    }
  }

  lemma WakeupPoll(s: State, i: nat)
    requires i < |s.threads| && s.threads[i].phase.Ready?
    requires NoLostWakeup(s) && s.active >= 0
    ensures NoLostWakeup(Poll(s, i))
  {
    var t := Poll(s, i);
    if t.threads[i].phase.Exited? {
      assert forall j | 0 <= j < |t.threads| :: !t.threads[j].phase.Asleep?;
    } else {
      assert forall j | 0 <= j < |t.threads| && j != i :: t.threads[j] == s.threads[j];
    }
  }

  lemma WakeupFinish(s: State, i: nat)
    requires i < |s.threads| && s.threads[i].phase.Finishing?
    requires NoLostWakeup(s) && s.active > 0
    ensures NoLostWakeup(Finish(s, i))
  {
    var t := Finish(s, i);
    var Finishing(_, newClearnet, newOnion) := s.threads[i].phase;
    forall j | 0 <= j < |t.threads| && t.threads[j].phase.Asleep?
      ensures t.Stack(t.threads[j].onion) == [] && (t.active > 0 || t.Stack(!t.threads[j].onion) != [])
    {
      assert t.threads[j] == s.threads[j];
      assert !t.Idle();
    }
  }

  lemma WakeupStep(cfg: Config, s: State, e: Event)
    requires Inv(cfg, s) && Enabled(s, e)
    ensures NoLostWakeup(Step(cfg, s, e))
  {
    var t := Step(cfg, s, e);
    if e.Turn? && s.threads[e.i].phase.Ready? {
      WakeupPoll(s, e.i);
    } else if e.Turn? && s.threads[e.i].phase.Finishing? {
      BusyMeansActive(s, e.i);
      WakeupFinish(s, e.i);
    } else {
      WakeupAlone(s, t, e.i);
    }
  }

  lemma WakeupAlone(s: State, t: State, i: nat)
    requires i < |s.threads| == |t.threads| && NoLostWakeup(s) && !t.threads[i].phase.Asleep?
    requires t.clearnet == s.clearnet && t.onion == s.onion && t.active == s.active
    requires t.threads == s.threads[i := t.threads[i]]
    ensures NoLostWakeup(t)
  {
    assert forall j | 0 <= j < |t.threads| && j != i :: t.threads[j] == s.threads[j];
  }

  lemma ExitStep(cfg: Config, s: State, e: Event)
    requires Inv(cfg, s) && Enabled(s, e)
    ensures NoEarlyExit(Step(cfg, s, e))
  {
    var c, o := ThreadsAfter(cfg, s, e);
    if s.Idle() {
      IdleIsAbsorbing(cfg, s, e);
    }
  }

  lemma InvStep(cfg: Config, s: State, e: Event)
    requires Inv(cfg, s) && Enabled(s, e)
    ensures Inv(cfg, Step(cfg, s, e))
  {
    RoutedStep(cfg, s, e);
    StaffedStep(cfg, s, e);
    WakeupStep(cfg, s, e);
    ExitStep(cfg, s, e);
  }

  // ---- Every run ----

  // Where the threads are spawned: nobody has started, and onion tasks are queued only with a proxy.
  predicate Begin(cfg: Config, s: State) {
    && Routed(cfg, s)
    && s.active == 0 && s.settled == [] && s.expanded == []
    && (forall i | 0 <= i < |s.threads| :: s.threads[i].phase == Ready)
    && (exists i :: 0 <= i < |s.threads| && !s.threads[i].onion)
    && (cfg.onionEnabled ==> exists i :: 0 <= i < |s.threads| && s.threads[i].onion)
  }

  lemma BeginInv(cfg: Config, s: State)
    requires Begin(cfg, s)
    ensures Inv(cfg, s)
  {
    TotalZero(BusyCount, s.threads);
  }

  // Whatever the schedule: `active` counts the busy threads, no sleeper is forgotten, nobody leaves early.
  lemma {:induction false} Always(cfg: Config, s: State, schedule: seq<Event>)
    requires Begin(cfg, s) && Follows(cfg, s, schedule)
    ensures Inv(cfg, After(cfg, s, schedule))
  {
    if schedule == [] {
      BeginInv(cfg, s);
    } else {
      var front := schedule[..|schedule| - 1];
      Always(cfg, s, front);
      InvStep(cfg, After(cfg, s, front), schedule[|schedule| - 1]);
    }
  }

  lemma Then(cfg: Config, s: State, schedule: seq<Event>, e: Event)
    requires Follows(cfg, s, schedule) && Enabled(After(cfg, s, schedule), e)
    ensures Follows(cfg, s, schedule + [e]) && After(cfg, s, schedule + [e]) == Step(cfg, After(cfg, s, schedule), e)
  {
    assert (schedule + [e])[..|schedule|] == schedule;
  }

  // Every thread has returned.
  predicate Over(s: State) {
    forall i | 0 <= i < |s.threads| :: s.threads[i].phase.Exited?
  }

  // No deadlock: as long as some thread has not returned, some thread can take a step, without spurious wakeups.
  lemma NoDeadlock(cfg: Config, s: State, schedule: seq<Event>) returns (i: nat)
    requires Begin(cfg, s) && Follows(cfg, s, schedule)
    requires !Over(After(cfg, s, schedule))
    ensures Enabled(After(cfg, s, schedule), Turn(i))
  {
    Always(cfg, s, schedule);
    i := SomeoneRunnable(cfg, After(cfg, s, schedule));
  }

  lemma SomeoneRunnable(cfg: Config, s: State) returns (i: nat)
    requires Inv(cfg, s)
    requires !Over(s)
    ensures Enabled(s, Turn(i))
  {
    if s.active > 0 {
      i := SomeoneBusy(s.threads);
    } else if s.clearnet == [] && s.onion != [] {
      i :| 0 <= i < |s.threads| && s.threads[i].onion;
    } else if s.clearnet != [] {
      i :| 0 <= i < |s.threads| && !s.threads[i].onion;
    } else {
      i :| 0 <= i < |s.threads| && !s.threads[i].phase.Exited?;
    }
  }

  lemma {:induction false} SomeoneBusy(threads: seq<Thread>) returns (i: nat)
    requires Total(BusyCount, threads) > 0
    ensures i < |threads| && threads[i].phase.Busy()
  {
    if threads[|threads| - 1].phase.Busy() {
      i := |threads| - 1;
    } else {
      i := SomeoneBusy(threads[..|threads| - 1]);
    }
  }

  lemma {:induction false} ThreadsStay(cfg: Config, s: State, schedule: seq<Event>)
    requires Follows(cfg, s, schedule)
    ensures |After(cfg, s, schedule).threads| == |s.threads|
    ensures forall i | 0 <= i < |s.threads| :: After(cfg, s, schedule).threads[i].onion == s.threads[i].onion
  {
    if schedule != [] {
      var front := schedule[..|schedule| - 1];
      ThreadsStay(cfg, s, front);
      var c, o := ThreadsAfter(cfg, After(cfg, s, front), schedule[|schedule| - 1]);
    }
  }
}
