// Admission control of the API server (src/serve.rs): four dispatchers and any number of handler threads around one
// atomic counter.
module Admission {
  import opened Prelude

  const MAX_IN_FLIGHT := 64
  const DISPATCHERS := 4

  // A dispatcher waits for a request, or has counted one it will refuse, or has admitted one and not yet spawned
  // its handler.
  datatype Dispatcher = Waiting | Refusing | Spawning

  datatype Server = Server(inFlight: nat, dispatchers: seq<Dispatcher>, handlers: nat)

  function IsSpawning(d: Dispatcher): nat { if d.Spawning? then 1 else 0 }

  function IsRefusing(d: Dispatcher): nat { if d.Refusing? then 1 else 0 }

  // Handlers counted as running: spawned, or admitted and about to be.
  function Admitted(s: Server): nat { s.handlers + Total(IsSpawning, s.dispatchers) }

  function Overcounted(s: Server): nat { Total(IsRefusing, s.dispatchers) }

  datatype Event =
    | Request(i: nat)   // fetch_add, and the comparison with what it returned
    | Refuse(i: nat)    // fetch_sub, then the 503
    | Spawn(i: nat)     // the handler thread starts
    | Done              // a handler's fetch_sub

  predicate Enabled(s: Server, e: Event) {
    match e
    case Request(i) => i < |s.dispatchers| && s.dispatchers[i].Waiting?
    case Refuse(i) => i < |s.dispatchers| && s.dispatchers[i].Refusing?
    case Spawn(i) => i < |s.dispatchers| && s.dispatchers[i].Spawning?
    case Done => s.handlers > 0
  }

  // The counter is unsigned: a decrement at zero would wrap around to the largest 64-bit value.
  function Decrement(n: nat): nat { if n == 0 then 0xFFFF_FFFF_FFFF_FFFF else n - 1 }

  function Step(s: Server, e: Event): Server
    requires Enabled(s, e)
  {
    match e
    case Request(i) =>
      s.(inFlight := s.inFlight + 1,
         dispatchers := s.dispatchers[i := if s.inFlight >= MAX_IN_FLIGHT then Refusing else Spawning])
    case Refuse(i) => s.(inFlight := Decrement(s.inFlight), dispatchers := s.dispatchers[i := Waiting])
    case Spawn(i) => s.(handlers := s.handlers + 1, dispatchers := s.dispatchers[i := Waiting])
    case Done => s.(inFlight := Decrement(s.inFlight), handlers := s.handlers - 1)
  }

  const START := Server(0, [Waiting, Waiting, Waiting, Waiting], 0)

  predicate Follows(schedule: seq<Event>)
    decreases |schedule|, 0
  {
    schedule == [] ||
    (Follows(schedule[..|schedule| - 1]) && Enabled(After(schedule[..|schedule| - 1]), schedule[|schedule| - 1]))
  }

  function After(schedule: seq<Event>): Server
    requires Follows(schedule)
    decreases |schedule|, 1
  {
    if schedule == [] then START else Step(After(schedule[..|schedule| - 1]), schedule[|schedule| - 1])
  }

  // The counter is exact up to the requests being refused, and admission holds.
  predicate Inv(s: Server) {
    && |s.dispatchers| == DISPATCHERS
    && s.inFlight == Admitted(s) + Overcounted(s)
    && Admitted(s) <= MAX_IN_FLIGHT
  }

  lemma InvStep(s: Server, e: Event)
    requires Inv(s) && Enabled(s, e)
    ensures Inv(Step(s, e))
  {
    if !e.Done? {
      var d := Step(s, e).dispatchers[e.i];
      TotalUpdate(IsSpawning, s.dispatchers, e.i, d);
      TotalUpdate(IsRefusing, s.dispatchers, e.i, d);
    }
  }

  lemma {:induction false} Always(schedule: seq<Event>)
    requires Follows(schedule)
    ensures Inv(After(schedule))
  {
    if schedule == [] {
      TotalZero(IsSpawning, START.dispatchers);
      TotalZero(IsRefusing, START.dispatchers);
    } else {
      Always(schedule[..|schedule| - 1]);
      InvStep(After(schedule[..|schedule| - 1]), schedule[|schedule| - 1]);
    }
  }

  lemma OthersRefusing(s: Server, i: nat)
    requires |s.dispatchers| == DISPATCHERS && i < DISPATCHERS
    ensures Overcounted(s) <= DISPATCHERS
    ensures !s.dispatchers[i].Refusing? ==> Overcounted(s) <= DISPATCHERS - 1
  {
    TotalAtMost(IsRefusing, s.dispatchers, 1);
    TotalUpdate(IsRefusing, s.dispatchers, i, Refusing);
    TotalAtMost(IsRefusing, s.dispatchers[i := Refusing], 1);
  }

  lemma RefusedOnlyWhenBusy(s: Server, i: nat)
    requires Inv(s) && Enabled(s, Request(i)) && s.inFlight >= MAX_IN_FLIGHT
    ensures Admitted(s) >= MAX_IN_FLIGHT - DISPATCHERS + 1
  {
    OthersRefusing(s, i);
  }

  lemma NeverWraps(s: Server, e: Event)
    requires Inv(s) && Enabled(s, e) && (e.Refuse? || e.Done?)
    ensures s.inFlight > 0
  {
    if e.Refuse? { TotalAtLeast(IsRefusing, s.dispatchers, e.i); }
  }

  predicate Quiet(s: Server) {
    s.handlers == 0 && forall i | 0 <= i < |s.dispatchers| :: s.dispatchers[i].Waiting?
  }

  // A request is either refused, and then at least 61 handlers are running, or admitted, as it is whenever the counter
  // is below 64.
  ghost predicate Judged(s: Server, i: nat)
    requires Enabled(s, Request(i))
  {
    var after := Step(s, Request(i)).dispatchers[i];
    && (after.Refusing? || after.Spawning?)
    && (after.Refusing? ==> Admitted(s) >= 61)
    && (s.inFlight < 64 ==> after.Spawning?)
  }

  // At most 64 handlers run and the counter stays within 68; it is never lowered at 0, so it never wraps around; a
  // request is refused only while at least 61 handlers are running; and an idle server's counter is 0, so it admits.
  ghost predicate Safe(s: Server) {
    && s.handlers <= Admitted(s) <= 64
    && s.inFlight <= 68
    && (forall e: Event | Enabled(s, e) && (e.Refuse? || e.Done?) :: s.inFlight > 0)
    && (forall i: nat | Enabled(s, Request(i)) :: Judged(s, i))
    && (Quiet(s) ==> s.inFlight == 0)
  }

  lemma InvSafe(s: Server)
    requires Inv(s)
    ensures Safe(s)
  {
    OthersRefusing(s, 0);
    forall e: Event | Enabled(s, e) && (e.Refuse? || e.Done?) ensures s.inFlight > 0 { NeverWraps(s, e); }
    forall i: nat | Enabled(s, Request(i)) ensures Judged(s, i) {
      if s.inFlight >= MAX_IN_FLIGHT { RefusedOnlyWhenBusy(s, i); }
    }
    if Quiet(s) {
      TotalZero(IsSpawning, s.dispatchers);
      TotalZero(IsRefusing, s.dispatchers);
    }
  }

  // Admission control, whatever the schedule.
  lemma AdmissionControl(schedule: seq<Event>)
    requires Follows(schedule)
    ensures Safe(After(schedule))
  {
    Always(schedule);
    InvSafe(After(schedule));
  }

  lemma Then(schedule: seq<Event>, e: Event)
    requires Follows(schedule) && Enabled(After(schedule), e)
    ensures Follows(schedule + [e]) && After(schedule + [e]) == Step(After(schedule), e)
  {
    assert (schedule + [e])[..|schedule|] == schedule;
  }

  lemma {:induction false} Fill(n: nat) returns (schedule: seq<Event>)
    requires n <= MAX_IN_FLIGHT
    ensures Follows(schedule) && After(schedule) == Server(n, START.dispatchers, n)
  {
    if n == 0 {
      schedule := [];
    } else {
      schedule := Fill(n - 1);
      Then(schedule, Request(0));
      Then(schedule + [Request(0)], Spawn(0));
      schedule := schedule + [Request(0)] + [Spawn(0)];
      assert START.dispatchers[0 := Spawning][0 := Waiting] == START.dispatchers;
    }
  }

  const THREE_REFUSING := [Refusing, Refusing, Refusing, Waiting]

  // 64 handlers running, and three dispatchers that found the counter full.
  lemma Crowd() returns (schedule: seq<Event>)
    ensures Follows(schedule) && After(schedule) == Server(67, THREE_REFUSING, 64)
  {
    var full := Fill(64);
    Then(full, Request(0));
    Then(full + [Request(0)], Request(1));
    Then(full + [Request(0)] + [Request(1)], Request(2));
    schedule := full + [Request(0)] + [Request(1)] + [Request(2)];
    assert START.dispatchers[0 := Refusing][1 := Refusing][2 := Refusing] == THREE_REFUSING;
  }

  // Both bounds are reached: a counter of 68, and a request refused while only 61 handlers run.
  lemma CounterReaches68() returns (schedule: seq<Event>)
    ensures Follows(schedule) && After(schedule).inFlight == 68
  {
    var three := Crowd();
    Then(three, Request(3));
    schedule := three + [Request(3)];
  }

  lemma RefusedAt61() returns (schedule: seq<Event>)
    ensures Follows(schedule) && After(schedule).handlers == Admitted(After(schedule)) == 61
    ensures Enabled(After(schedule), Request(3)) && Step(After(schedule), Request(3)).dispatchers[3].Refusing?
  {
    schedule := Crowd();
    schedule := OneDone(schedule, 66, 63, THREE_REFUSING);
    schedule := OneDone(schedule, 65, 62, THREE_REFUSING);
    schedule := OneDone(schedule, 64, 61, THREE_REFUSING);
    TotalZero(IsSpawning, THREE_REFUSING);
  }

  lemma OneDone(before: seq<Event>, inFlight: nat, handlers: nat, dispatchers: seq<Dispatcher>)
    returns (schedule: seq<Event>)
    requires Follows(before) && After(before) == Server(inFlight + 1, dispatchers, handlers + 1)
    ensures Follows(schedule) && After(schedule) == Server(inFlight, dispatchers, handlers)
  {
    Then(before, Done);
    schedule := before + [Done];
  }

  // The counter and the threads around it, as they change in place.
  class Gate {
    var inFlight: nat
    var dispatchers: seq<Dispatcher>
    var handlers: nat

    function View(): Server
      reads this
    {
      Server(inFlight, dispatchers, handlers)
    }

    constructor ()
      ensures View() == START
    {
      inFlight, dispatchers, handlers := 0, [Waiting, Waiting, Waiting, Waiting], 0;
    }

    method FetchAdd() returns (before: nat)
      modifies this`inFlight
      ensures before == old(inFlight) && inFlight == before + 1
    {
      before := inFlight;
      inFlight := inFlight + 1;
    }

    method FetchSub()
      modifies this`inFlight
      ensures inFlight == Decrement(old(inFlight))
    {
      inFlight := if inFlight == 0 then 0xFFFF_FFFF_FFFF_FFFF else inFlight - 1;
    }

    // A dispatcher counts the request it received and decides.
    method Receive(i: nat) returns (admitted: bool)
      requires Enabled(View(), Request(i))
      modifies this
      ensures View() == Step(old(View()), Request(i))
      ensures admitted <==> old(inFlight) < 64
    {
      var before := FetchAdd();
      admitted := before < MAX_IN_FLIGHT;
      dispatchers := dispatchers[i := if admitted then Spawning else Refusing];
    }

    method TurnAway(i: nat)
      requires Enabled(View(), Refuse(i))
      modifies this
      ensures View() == Step(old(View()), Refuse(i))
    {
      FetchSub();
      dispatchers := dispatchers[i := Waiting];
    }

    method SpawnHandler(i: nat)
      requires Enabled(View(), Spawn(i))
      modifies this
      ensures View() == Step(old(View()), Spawn(i))
    {
      handlers := handlers + 1;
      dispatchers := dispatchers[i := Waiting];
    }

    method HandlerDone()
      requires Enabled(View(), Done)
      modifies this
      ensures View() == Step(old(View()), Done)
    {
      FetchSub();
      handlers := handlers - 1;
    }
  }
}
