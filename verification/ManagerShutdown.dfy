/**
 What `shutdown` promises the supervisors and its caller: every supervisor struck off the list has
 been asked to close, the reason a session is asked with is the first one, and it returns only when
 all have been told and none is left.
 */
module ManagerShutdown {
  import opened Wrappers
  import opened Capacity
  import opened Tickets
  import opened PtyBackend
  import opened Supervision
  import opened SupervisionStory
  import opened Manager
  import opened ManagerOwnership
  import opened ManagerLeases
  import opened ManagerSafety
  import opened ManagerTheorems
  import opened ManagerStories
  import Audit

  // ----- the reason a session is asked to close with -----

  /** The event asks task `k` to close, for this reason. */
  function AskAt(s: System, e: Event, k: TaskId): Option<CloseReason> {
    match e
    case Registering(OnTask(j, RequestClose(reason))) =>
      if j == k && k in s.parties.tasks && CanBeAsked(reason) then Some(reason) else None
    case Registering(SignalClose(j)) =>
      if j == k && k in s.parties.tasks && s.registry.shutdown.Signalling? then Some(ManagerShutdown) else None
    case _ => None
  }

  function FirstAsk(s: System, events: seq<Event>, k: TaskId): Option<CloseReason>
    decreases |events|
  {
    if events == [] then None
    else if AskAt(s, events[0], k).Some? then AskAt(s, events[0], k)
    else FirstAsk(Step(s, events[0]), events[1..], k)
  }

  function TellsAsk(hs: Stories, k: TaskId): Option<CloseReason> {
    if k in hs then hs[k].asked else None
  }

  lemma AskingActs(s: System, e: Event, k: TaskId, h: Story)
    requires k in s.parties.tasks
    ensures
      var later := if Acts(s, e).Some? && Acts(s, e).value.0 == k then
                     Remember(h, s.parties.tasks[k], Acts(s, e).value.1, s.config.audited, s.sink)
                   else h;
      later.asked == if h.asked.Some? then h.asked else AskAt(s, e, k)
  {
  }

  lemma AskIsTold(s: System, hs: Stories, e: Event, k: TaskId)
    requires AllTold(s, hs) && OwnedInv(s)
    ensures TellsAsk(NextStories(s, hs, e), k) ==
            if TellsAsk(hs, k).Some? then TellsAsk(hs, k) else AskAt(s, e, k)
  {
    NobodyLeaves(s, e);
    if k in hs {
      assert k in s.parties.tasks && k in NextStories(s, hs, e);
      AskingActs(s, e, k, hs[k]);
    } else {
      assert AskAt(s, e, k).None?;
    }
  }

  lemma {:induction false} AsksAreTold(s: System, hs: Stories, events: seq<Event>, k: TaskId)
    requires Inv(s) && AllTold(s, hs)
    ensures TellsAsk(StoriesFrom(s, hs, events), k) ==
            if TellsAsk(hs, k).Some? then TellsAsk(hs, k) else FirstAsk(s, events, k)
    decreases |events|
  {
    if events != [] {
      StepKeepsInv(s, events[0]);
      StepIsTold(s, hs, events[0]);
      AskIsTold(s, hs, events[0], k);
      AsksAreTold(Step(s, events[0]), NextStories(s, hs, events[0]), events[1..], k);
    }
  }

  /** In every run the reason a session is asked to close with is that of the first request, and it stays. */
  lemma ReasonIsTheFirstAsk(config: Config, start: int, events: seq<Event>, k: TaskId)
    requires k in Reached(config, start, events).parties.tasks
    ensures
      Reached(config, start, events).parties.tasks[k].closeRequest == FirstAsk(Init(config, start), events, k)
  {
    TasksShowTheirStories(config, start, events, k);
    InitInv(config, start);
    AsksAreTold(Init(config, start), map[], events, k);
  }

  // ----- every supervisor is told -----

  predicate Asked(tasks: map<TaskId, Task>, k: TaskId) {
    k in tasks && tasks[k].closeRequest.Some?
  }

  /** While a shutdown tells the supervisors, those no longer on its list have been asked to close. */
  ghost predicate ToldInv(s: System) {
    s.registry.shutdown.Signalling? ==>
      forall k :: k in s.registry.active && k !in s.registry.shutdown.pending ==> Asked(s.parties.tasks, k)
  }

  lemma AskingStays(s: System, e: Event, k: TaskId)
    requires OwnedInv(s) && Asked(s.parties.tasks, k)
    ensures Asked(Step(s, e).parties.tasks, k)
  {
    if Acts(s, e).Some? {
      var (j, effect) := Acts(s, e).value;
      ActorSteps(s, e, j, effect);
      RequestStays(j, s.parties.tasks[j], effect, s.config.audited, s.sink);
    } else {
      NobodyActs(s, e);
    }
  }

  lemma RequestStays(k: TaskId, t: Task, e: TaskEvent, audited: bool, sink: Sink)
    ensures t.closeRequest.Some? ==> TaskStep(k, t, e, audited, sink).0.closeRequest.Some?
  {
  }

  lemma SignalAsks(s: System, k: TaskId)
    requires k in s.parties.tasks && s.registry.shutdown.Signalling?
    ensures Asked(Step(s, Registering(SignalClose(k))).parties.tasks, k)
  {
    ActorSteps(s, Registering(SignalClose(k)), k, RequestClose(ManagerShutdown));
  }

  /** Where the registry's list of active tasks and the list of whom to tell come from. */
  predicate ListsMove(before: Registry, after: Registry, told: set<TaskId>) {
    after.shutdown.Signalling? ==>
      || after.shutdown.pending == after.active
      || (before.shutdown.Signalling? && after.active <= before.active
          && after.shutdown.pending == before.shutdown.pending - told)
  }

  function ToldBy(e: Event): set<TaskId> {
    match e
    case Registering(SignalClose(k)) => {k}
    case _ => {}
  }

  lemma LaunchingMovesLists(s: System, e: StartEvent)
    requires ShutdownInv(s)
    ensures ListsMove(s.registry, StartStep(s, e).registry, {})
  {
  }

  lemma RegisteringMovesLists(s: System, e: RegistryEvent)
    ensures ListsMove(s.registry, RegistryStep(s, e).registry, ToldBy(Registering(e)))
  {
  }

  lemma ListsMoveOn(s: System, e: Event)
    requires ShutdownInv(s)
    ensures ListsMove(s.registry, Step(s, e).registry, ToldBy(e))
  {
    match e {
      case Ticketing(t) => TicketingLeavesTasks(s, t);
      case Launching(l) => LaunchingMovesLists(s, l);
      case Registering(r) => RegisteringMovesLists(s, r);
      case _ =>
    }
  }

  lemma ToldKept(s: System, e: Event)
    requires Inv(s) && ToldInv(s)
    ensures ToldInv(Step(s, e))
  {
    var after := Step(s, e);
    ListsMoveOn(s, e);
    if after.registry.shutdown.Signalling? {
      forall k | k in after.registry.active && k !in after.registry.shutdown.pending
        ensures Asked(after.parties.tasks, k)
      {
        if s.registry.shutdown.Signalling? && k in s.registry.active {
          if k in s.registry.shutdown.pending {
            SignalAsks(s, k);
          } else {
            AskingStays(s, e, k);
          }
        }
      }
    }
  }

  lemma {:induction false} RunKeepsTold(s: System, events: seq<Event>)
    requires Inv(s) && ToldInv(s)
    ensures ToldInv(Run(s, events))
    decreases |events|
  {
    if events != [] {
      StepKeepsInv(s, events[0]);
      ToldKept(s, events[0]);
      RunKeepsTold(Step(s, events[0]), events[1..]);
    }
  }

  /**
   In every reachable state of a shutdown each supervisor it no longer has to tell has been asked to
   close: with the shutdown's own reason, or with that of a request that came before it in the run.
   */
  lemma ShutdownTellsEverySupervisor(config: Config, start: int, events: seq<Event>, k: TaskId)
    requires
      var r := Reached(config, start, events).registry;
      r.shutdown.Signalling? && k in r.active && k !in r.shutdown.pending
    ensures
      var tasks := Reached(config, start, events).parties.tasks;
      && k in tasks && tasks[k].closeRequest.Some?
      && tasks[k].closeRequest == FirstAsk(Init(config, start), events, k)
      && (tasks[k].closeRequest == Some(ManagerShutdown)
          || Registering(OnTask(k, RequestClose(tasks[k].closeRequest.value))) in events)
  {
    InitInv(config, start);
    RunKeepsTold(Init(config, start), events);
    ReasonIsTheFirstAsk(config, start, events, k);
    AsksAreEvents(Init(config, start), events, k);
  }

  lemma {:induction false} AsksAreEvents(s: System, events: seq<Event>, k: TaskId)
    ensures
      var asked := FirstAsk(s, events, k);
      asked.None? || asked == Some(ManagerShutdown) || Registering(OnTask(k, RequestClose(asked.value))) in events
    decreases |events|
  {
    if events != [] && AskAt(s, events[0], k).None? {
      AsksAreEvents(Step(s, events[0]), events[1..], k);
    }
  }

  /** In every run a shutdown returns exactly when it has told all on its list and none is active any more. */
  lemma ShutdownReturnsExactly(config: Config, start: int, events: seq<Event>, e: Event)
    requires Reached(config, start, events).registry.shutdown.Signalling?
    ensures
      var s := Reached(config, start, events);
      !Step(s, e).registry.shutdown.Signalling? <==>
        e == Registering(ReturnFromShutdown) && s.registry.shutdown.pending == {} && s.registry.active == {}
  {
    var s := Reached(config, start, events);
    ReachedInv(config, start, events);
    if e.Registering? {
      SignallingEnds(s, e.registering);
    } else {
      ListsMoveOn(s, e);
    }
  }

  lemma SignallingEnds(s: System, e: RegistryEvent)
    requires s.registry.shutdown.Signalling?
    ensures !RegistryStep(s, e).registry.shutdown.Signalling? <==>
            e == ReturnFromShutdown && s.registry.shutdown.pending == {} && s.registry.active == {}
  {
  }
}
