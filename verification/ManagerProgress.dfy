/**
 Nothing ever blocks a shutdown for good: from every reachable state some continuation of the run
 brings it to its end, with every session cleaned up on the ordinary way.
 */
module ManagerProgress {
  import opened Wrappers
  import opened Capacity
  import opened Tickets
  import opened PtyBackend
  import opened Supervision
  import opened Manager
  import opened ManagerOwnership
  import opened ManagerLeases
  import opened ManagerSafety
  import opened ManagerTheorems
  import opened ManagerStories
  import Audit

  lemma {:induction false} RunAppend(s: System, a: seq<Event>, b: seq<Event>)
    ensures Run(s, a + b) == Run(Run(s, a), b)
    decreases |a|
  {
    if a == [] {
      assert a + b == b;
    } else {
      assert (a + b)[1..] == a[1..] + b;
      RunAppend(Step(s, a[0]), a[1..], b);
    }
  }

  lemma RunOne(s: System, e: Event)
    ensures Run(s, [e]) == Step(s, e)
  {
    assert [e][1..] == [];
  }

  // ----- a task that waits has a call that will start it -----

  predicate StartedBy(s: System, k: TaskId, r: nat) {
    r in s.parties.starters && s.parties.starters[r] == Registered(k)
  }

  ghost predicate WaitingHeld(s: System) {
    forall k :: k in s.parties.tasks && s.parties.tasks[k].phase.Waiting? ==> exists r :: StartedBy(s, k, r)
  }

  lemma WaitsNoLonger(k: TaskId, t: Task, e: TaskEvent, audited: bool, sink: Sink)
    ensures TaskStep(k, t, e, audited, sink).0.phase.Waiting? <==> t.phase.Waiting? && !e.Go?
  {
  }

  lemma TicketingKeepsStarter(s: System, e: TicketEvent, k: TaskId, r: nat)
    requires StartedBy(s, k, r)
    ensures StartedBy(Step(s, Ticketing(e)), k, r)
  {
  }

  lemma LaunchingKeepsStarter(s: System, e: StartEvent, k: TaskId, r: nat)
    requires StartedBy(s, k, r) && e != Signal(r)
    ensures StartedBy(Step(s, Launching(e)), k, r)
  {
  }

  lemma RegisteringKeepsStarter(s: System, e: RegistryEvent, k: TaskId, r: nat)
    requires StartedBy(s, k, r)
    ensures StartedBy(Step(s, Registering(e)), k, r)
  {
  }

  lemma StarterStays(s: System, e: Event, k: TaskId, r: nat)
    requires StartedBy(s, k, r) && e != Launching(Signal(r))
    ensures StartedBy(Step(s, e), k, r)
  {
    match e {
      case Ticketing(t) => TicketingKeepsStarter(s, t, k, r);
      case Launching(l) => LaunchingKeepsStarter(s, l, k, r);
      case Registering(v) => RegisteringKeepsStarter(s, v, k, r);
      case _ =>
    }
  }

  lemma RegisterStarts(s: System, e: Event, k: TaskId)
    requires Acts(s, e).None? && k !in s.parties.tasks && k in Step(s, e).parties.tasks
    ensures exists r :: StartedBy(Step(s, e), k, r)
  {
    match e {
      case Ticketing(t) => TicketingLeavesTasks(s, t);
      case Launching(l) =>
        LaunchingFrame(s, l);
        if l.Register? {
          assert StartedBy(Step(s, e), k, l.starter);
        }
      case Registering(r) => RegisteringActsOnNobody(s, r);
      case _ =>
    }
  }

  lemma WaitingKept(s: System, e: Event)
    requires OwnedInv(s) && WaitingHeld(s)
    ensures WaitingHeld(Step(s, e))
  {
    var after := Step(s, e);
    forall k | k in after.parties.tasks && after.parties.tasks[k].phase.Waiting?
      ensures exists r :: StartedBy(after, k, r)
    {
      WaitedBefore(s, e, k);
      if k in s.parties.tasks {
        var r :| StartedBy(s, k, r);
        StarterStays(s, e, k, r);
      } else {
        RegisterStarts(s, e, k);
      }
    }
  }

  lemma WaitedBefore(s: System, e: Event, k: TaskId)
    requires OwnedInv(s) && k in Step(s, e).parties.tasks && Step(s, e).parties.tasks[k].phase.Waiting?
    ensures k in s.parties.tasks ==>
      s.parties.tasks[k].phase.Waiting? && forall r :: StartedBy(s, k, r) ==> e != Launching(Signal(r))
    ensures k !in s.parties.tasks ==> Acts(s, e).None?
  {
    if Acts(s, e).Some? {
      var (j, effect) := Acts(s, e).value;
      ActorSteps(s, e, j, effect);
      WaitsNoLonger(j, s.parties.tasks[j], effect, s.config.audited, s.sink);
    } else {
      NobodyActs(s, e);
    }
  }

  lemma {:induction false} RunKeepsWaiting(s: System, events: seq<Event>)
    requires Inv(s) && WaitingHeld(s)
    ensures Inv(Run(s, events)) && WaitingHeld(Run(s, events))
    decreases |events|
  {
    if events != [] {
      StepKeepsInv(s, events[0]);
      WaitingKept(s, events[0]);
      RunKeepsWaiting(Step(s, events[0]), events[1..]);
    }
  }

  // ----- calls under way can be brought to their end -----

  /** The last events of a starting call. */
  function Wrapup(s: System, r: nat): seq<Event>
    requires r in s.parties.starters
  {
    match s.parties.starters[r]
    case Reserving(_, _) => [Ticketing(DropRequest(r)), Ticketing(FinishReserve(r, s.now, s.now))]
    case Starting(_, _) => [Launching(FailStart(r))]
    case Activated(_) => [Launching(FailStart(r))]
    case ChildSpawned(_) => [Launching(Register(r)), Launching(Signal(r))]
    case Registered(_) => [Launching(Signal(r))]
  }

  lemma RunTwo(s: System, d: Event, e: Event)
    ensures Run(s, [d, e]) == Step(Step(s, d), e)
  {
    assert [d, e][1..] == [e];
    RunOne(Step(s, d), e);
  }

  lemma DropsItsRequest(s: System, r: nat)
    ensures
      var after := Step(s, Ticketing(DropRequest(r)));
      && r !in after.parties.requests && after.parties.starters == s.parties.starters
      && after.now == s.now && after.registry == s.registry
  {
  }

  lemma ReservingEnds(s: System, r: nat)
    requires r in s.parties.starters && s.parties.starters[r].Reserving? && r !in s.parties.requests
    ensures
      var after := Step(s, Ticketing(FinishReserve(r, s.now, s.now)));
      after.parties.starters == s.parties.starters - {r} && after.registry == s.registry
  {
  }

  lemma FailingEnds(s: System, r: nat)
    requires r in s.parties.starters && (s.parties.starters[r].Starting? || s.parties.starters[r].Activated?)
    ensures
      var after := Step(s, Launching(FailStart(r)));
      after.parties.starters == s.parties.starters - {r} && after.registry == s.registry
  {
  }

  lemma SignallingEnds(s: System, r: nat)
    requires r in s.parties.starters && s.parties.starters[r].Registered?
    ensures
      var after := Step(s, Launching(Signal(r)));
      after.parties.starters == s.parties.starters - {r} && after.registry == s.registry
  {
  }

  lemma RegisteringGoesOn(s: System, r: nat)
    requires r in s.parties.starters && s.parties.starters[r].ChildSpawned?
    ensures
      var after := Step(s, Launching(Register(r)));
      && after.parties.starters.Keys == s.parties.starters.Keys && after.parties.starters[r].Registered?
      && after.registry.shutdown == s.registry.shutdown
  {
  }

  lemma CallEnds(s: System, r: nat)
    requires r in s.parties.starters
    ensures
      var after := Run(s, Wrapup(s, r));
      && after.parties.starters.Keys == s.parties.starters.Keys - {r}
      && after.registry.shutdown == s.registry.shutdown
  {
    match s.parties.starters[r] {
      case Reserving(_, _) =>
        RunTwo(s, Ticketing(DropRequest(r)), Ticketing(FinishReserve(r, s.now, s.now)));
        DropsItsRequest(s, r);
        ReservingEnds(Step(s, Ticketing(DropRequest(r))), r);
      case ChildSpawned(_) =>
        RunTwo(s, Launching(Register(r)), Launching(Signal(r)));
        RegisteringGoesOn(s, r);
        SignallingEnds(Step(s, Launching(Register(r))), r);
      case Registered(_) =>
        RunOne(s, Launching(Signal(r)));
        SignallingEnds(s, r);
      case _ =>
        RunOne(s, Launching(FailStart(r)));
        FailingEnds(s, r);
    }
  }

  lemma {:induction false} CallsEnd(s: System) returns (more: seq<Event>)
    ensures Run(s, more).parties.starters == map[] && Run(s, more).registry.shutdown == s.registry.shutdown
    decreases |s.parties.starters.Keys|
  {
    if s.parties.starters == map[] {
      more := [];
    } else {
      var r :| r in s.parties.starters;
      var first := Wrapup(s, r);
      CallEnds(s, r);
      var rest := CallsEnd(Run(s, first));
      RunAppend(s, first, rest);
      more := first + rest;
    }
  }

  // ----- tasks can be brought to their end -----

  const CLEAN := Environment(NeverObserved, Some(0), 0, true)

  /** The next effect on a task that is not over. */
  function NextEffect(phase: Phase): TaskEvent {
    match phase
    case Connecting => Decide(Rejected)
    case Admitted => RecordStart(true, Audit.Persisted)
    case Started => TakeHandoff
    case HandedOff => Deliver
    case Supervising => Stop(AbsoluteTimeout)
    case Cleaning(_) => Terminate(CLEAN)
    case Cleaned(_) => Finalise(true, Audit.Persisted)
    case _ => CallerDrops
  }

  /** The next event on the ordinary way of a task to its end. */
  function NextMove(k: TaskId, phase: Phase): Event {
    if phase.Releasing? then Registering(ReleaseLease(k))
    else if phase.Released? then Registering(CompleteTask(k))
    else Registering(OnTask(k, NextEffect(phase)))
  }

  function Distance(phase: Phase): nat {
    match phase
    case Waiting => 10
    case Connecting => 9
    case Admitted => 8
    case Started => 7
    case HandedOff => 6
    case Supervising => 5
    case Cleaning(_) => 4
    case Cleaned(_) => 3
    case Releasing => 2
    case Released => 1
    case Finished => 0
  }

  lemma CleanCallSucceeds(c: Child)
    ensures TerminateCall(c, CLEAN).1.Some?
  {
  }

  predicate OnTheWay(s: System, after: System, k: TaskId) {
    && after.parties.starters == s.parties.starters && after.registry.shutdown == s.registry.shutdown
    && k in s.parties.tasks && k in after.parties.tasks && after.parties.tasks.Keys == s.parties.tasks.Keys
    && (forall j :: j in s.parties.tasks && j != k ==> after.parties.tasks[j] == s.parties.tasks[j])
    && (after.parties.tasks[k].phase.Waiting? ==> s.parties.tasks[k].phase.Waiting?)
  }

  lemma CleaningGoesOn(k: TaskId, t: Task, audited: bool, sink: Sink)
    requires t.phase.Cleaning?
    ensures TaskStep(k, t, Terminate(CLEAN), audited, sink).0.phase.Cleaned?
  {
    CleanCallSucceeds(t.child);
  }

  lemma CleanedGoesOn(k: TaskId, t: Task, audited: bool, sink: Sink)
    requires t.phase.Cleaned?
    ensures TaskStep(k, t, Finalise(true, Audit.Persisted), audited, sink).0.phase.Releasing?
  {
  }

  lemma EffectGoesOn(k: TaskId, t: Task, audited: bool, sink: Sink)
    requires 3 <= Distance(t.phase) < 10
    ensures
      var after := TaskStep(k, t, NextEffect(t.phase), audited, sink).0;
      Distance(after.phase) < Distance(t.phase)
  {
    if t.phase.Cleaning? {
      CleaningGoesOn(k, t, audited, sink);
    } else if t.phase.Cleaned? {
      CleanedGoesOn(k, t, audited, sink);
    }
  }

  lemma EffectIsOnTheWay(s: System, k: TaskId, effect: TaskEvent)
    requires k in s.parties.tasks && !effect.Go?
    ensures OnTheWay(s, Step(s, Registering(OnTask(k, effect))), k)
  {
    ActorSteps(s, Registering(OnTask(k, effect)), k, effect);
    WaitsNoLonger(k, s.parties.tasks[k], effect, s.config.audited, s.sink);
  }

  lemma MoveGoesOn(s: System, k: TaskId)
    requires k in s.parties.tasks && !s.parties.tasks[k].phase.Waiting? && !s.parties.tasks[k].phase.Finished?
    ensures
      var after := Step(s, NextMove(k, s.parties.tasks[k].phase));
      OnTheWay(s, after, k) && Distance(after.parties.tasks[k].phase) < Distance(s.parties.tasks[k].phase)
  {
    var phase := s.parties.tasks[k].phase;
    if phase.Releasing? {
      ReleasingGoesOn(s, k);
    } else if phase.Released? {
      ReleasedGoesOn(s, k);
    } else {
      var effect := NextEffect(phase);
      EffectGoesOn(k, s.parties.tasks[k], s.config.audited, s.sink);
      EffectIsOnTheWay(s, k, effect);
      ActorSteps(s, Registering(OnTask(k, effect)), k, effect);
    }
  }

  lemma ReleasingGoesOn(s: System, k: TaskId)
    requires k in s.parties.tasks && s.parties.tasks[k].phase.Releasing?
    ensures
      var after := Step(s, Registering(ReleaseLease(k)));
      OnTheWay(s, after, k) && after.parties.tasks[k].phase.Released?
  {
  }

  lemma ReleasedGoesOn(s: System, k: TaskId)
    requires k in s.parties.tasks && s.parties.tasks[k].phase.Released?
    ensures
      var after := Step(s, Registering(CompleteTask(k)));
      OnTheWay(s, after, k) && after.parties.tasks[k].phase.Finished?
  {
  }

  lemma {:induction false} TaskEnds(s: System, k: TaskId) returns (more: seq<Event>)
    requires k in s.parties.tasks && !s.parties.tasks[k].phase.Waiting?
    ensures OnTheWay(s, Run(s, more), k) && Run(s, more).parties.tasks[k].phase.Finished?
    decreases Distance(s.parties.tasks[k].phase)
  {
    if s.parties.tasks[k].phase.Finished? {
      more := [];
    } else {
      var e := NextMove(k, s.parties.tasks[k].phase);
      MoveGoesOn(s, k);
      var rest := TaskEnds(Step(s, e), k);
      more := [e] + rest;
      assert more[1..] == rest;
    }
  }

  lemma OneLessActive(s: System, after: System, k: TaskId)
    requires TasksInv(s) && TasksInv(after) && OnTheWay(s, after, k) && after.parties.tasks[k].phase.Finished?
    ensures after.registry.active == s.registry.active - {k}
  {
    OneLessUnfinished(s.parties.tasks, s.registry.active, after.parties.tasks, after.registry.active, k);
  }

  lemma OneLessUnfinished(tasks: map<TaskId, Task>, active: set<TaskId>, later: map<TaskId, Task>,
                          laterActive: set<TaskId>, k: TaskId)
    requires forall j :: j in active <==> j in tasks && !tasks[j].phase.Finished?
    requires forall j :: j in laterActive <==> j in later && !later[j].phase.Finished?
    requires later.Keys == tasks.Keys && k in tasks && later[k].phase.Finished?
    requires forall j :: j in tasks && j != k ==> later[j] == tasks[j]
    ensures laterActive == active - {k}
  {
  }

  lemma ActiveIsNoLongerWaiting(s: System, k: TaskId)
    requires TasksInv(s) && WaitingHeld(s) && s.parties.starters == map[] && k in s.registry.active
    ensures k in s.parties.tasks && !s.parties.tasks[k].phase.Waiting?
  {
    assert forall r :: !StartedBy(s, k, r);
  }

  lemma {:induction false} TasksEnd(s: System) returns (more: seq<Event>)
    requires Inv(s) && WaitingHeld(s) && s.parties.starters == map[]
    ensures
      var after := Run(s, more);
      && Inv(after) && after.registry.active == {} && after.parties.starters == map[]
      && after.registry.shutdown == s.registry.shutdown
    decreases |s.registry.active|
  {
    if s.registry.active == {} {
      more := [];
    } else {
      var k :| k in s.registry.active;
      ActiveIsNoLongerWaiting(s, k);
      var first := TaskEnds(s, k);
      var after := Run(s, first);
      RunKeepsWaiting(s, first);
      OneLessActive(s, after, k);
      var rest := TasksEnd(after);
      RunAppend(s, first, rest);
      more := first + rest;
    }
  }

  // ----- the shutdown -----

  lemma SignalGoesOn(s: System, k: TaskId)
    requires s.registry.shutdown.Signalling? && k in s.registry.shutdown.pending
    ensures
      var after := Step(s, Registering(SignalClose(k)));
      after.registry.shutdown == Signalling(s.registry.shutdown.pending - {k})
  {
  }

  lemma {:induction false} SignalsEnd(s: System) returns (more: seq<Event>)
    requires s.registry.shutdown.Signalling?
    ensures Run(s, more).registry.shutdown == Signalling({})
    decreases |s.registry.shutdown.pending|
  {
    if s.registry.shutdown.pending == {} {
      more := [];
    } else {
      var k :| k in s.registry.shutdown.pending;
      SignalGoesOn(s, k);
      var rest := SignalsEnd(Step(s, Registering(SignalClose(k))));
      more := [Registering(SignalClose(k))] + rest;
      assert more[1..] == rest;
    }
  }

  lemma SignalledReturns(s: System) returns (more: seq<Event>)
    requires Inv(s) && WaitingHeld(s) && s.registry.shutdown.Signalling?
    ensures Run(s, more).registry.drained && Run(s, more).registry.shutdown.Idle?
  {
    var signals := SignalsEnd(s);
    RunKeepsWaiting(s, signals);
    var told := Run(s, signals);
    var ends := TasksEnd(told);
    var ended := Run(told, ends);
    RunAppend(s, signals, ends);
    RunAppend(s, signals + ends, [Registering(ReturnFromShutdown)]);
    RunOne(ended, Registering(ReturnFromShutdown));
    more := signals + ends + [Registering(ReturnFromShutdown)];
  }

  lemma RequestedReturns(s: System) returns (more: seq<Event>)
    requires Inv(s) && WaitingHeld(s) && s.registry.shutdown.Requested?
    ensures Run(s, more).registry.drained && Run(s, more).registry.shutdown.Idle?
  {
    var calls := CallsEnd(s);
    RunKeepsWaiting(s, calls);
    var quiet := Run(s, calls);
    var close := [Registering(CloseAdmission)];
    RunOne(quiet, Registering(CloseAdmission));
    RunKeepsWaiting(quiet, close);
    var rest := SignalledReturns(Run(quiet, close));
    RunAppend(s, calls, close);
    RunAppend(s, calls + close, rest);
    more := calls + close + rest;
  }

  /**
   From every reachable state a shutdown can be begun, or gone on with, and returns: the calls under
   way come to their end, every supervisor is told, and every session ends as it ordinarily does.
   */
  lemma ShutdownCanReturn(config: Config, start: int, events: seq<Event>) returns (more: seq<Event>)
    ensures
      var s := Run(Reached(config, start, events), more);
      && s.registry.drained && s.registry.shutdown.Idle?
      && s.registry.active == {} && s.table.leases == map[]
  {
    InitInv(config, start);
    RunKeepsWaiting(Init(config, start), events);
    var s := Reached(config, start, events);
    match s.registry.shutdown {
      case Signalling(_) => more := SignalledReturns(s);
      case Requested => more := RequestedReturns(s);
      case Idle =>
        var begin := [Registering(BeginShutdown)];
        RunOne(s, Registering(BeginShutdown));
        RunKeepsWaiting(s, begin);
        var rest := RequestedReturns(Run(s, begin));
        RunAppend(s, begin, rest);
        more := begin + rest;
    }
    RunKeepsInv(s, more);
    DrainedIsEmpty(Run(s, more));
  }
}
