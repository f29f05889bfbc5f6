/**
 The story of every session over whole runs of the manager, told from the events of the run and
 from where they found the session; and what follows for admission, shutdown, final results and
 the audit sink.
 */
module ManagerStories {
  import opened Wrappers
  import opened Capacity
  import opened Tickets
  import opened PtyBackend
  import opened Supervision
  import opened SupervisionStory
  import opened Manager
  import opened ManagerOwnership
  import opened ManagerSafety
  import opened ManagerTheorems
  import Audit

  // ----- whom an event acts on -----

  /** The task that an event acts on, and what reaches it. */
  function Acts(s: System, e: Event): Option<(TaskId, TaskEvent)> {
    match e
    case Registering(OnTask(k, effect)) => if k in s.parties.tasks && !effect.Go? then Some((k, effect)) else None
    case Registering(SignalClose(k)) =>
      if k in s.parties.tasks && s.registry.shutdown.Signalling? then Some((k, RequestClose(ManagerShutdown))) else None
    case Launching(Signal(r)) =>
      if r in s.parties.starters && s.parties.starters[r].Registered? && s.parties.starters[r].task in s.parties.tasks
      then Some((s.parties.starters[r].task, Go)) else None
    case _ => None
  }

  /** Letting go of the lease and leaving the registry are the last two moves of a task. */
  predicate Moved(t: Task, after: Task) {
    || after == t
    || (t.phase.Releasing? && after == t.(phase := Released))
    || (t.phase.Released? && after == t.(phase := Finished))
  }

  lemma ActorSteps(s: System, e: Event, k: TaskId, effect: TaskEvent)
    requires Acts(s, e) == Some((k, effect))
    ensures
      var (task, sink) := TaskStep(k, s.parties.tasks[k], effect, s.config.audited, s.sink);
      Step(s, e).parties.tasks == s.parties.tasks[k := task] && Step(s, e).sink == sink
  {
  }

  lemma LaunchingActsOnNobody(s: System, e: StartEvent)
    requires Acts(s, Launching(e)).None? && OwnedInv(s)
    ensures
      var after := StartStep(s, e);
      && after.sink == s.sink
      && (forall k :: k in s.parties.tasks ==> k in after.parties.tasks && after.parties.tasks[k] == s.parties.tasks[k])
      && (forall k :: k in after.parties.tasks && k !in s.parties.tasks ==>
            exists lease :: after.parties.tasks[k] == Spawned(lease, SPAWNED))
  {
    LaunchingFrame(s, e);
    match e {
      case Register(r) =>
        if r in s.parties.starters && s.parties.starters[r].ChildSpawned? {
          var k, lease := s.registry.nextTask, s.parties.starters[r].lease;
          assert StartStep(s, e).parties.tasks == s.parties.tasks[k := Spawned(lease, SPAWNED)];
        }
      case _ =>
    }
  }

  lemma RegisteringActsOnNobody(s: System, e: RegistryEvent)
    requires Acts(s, Registering(e)).None?
    ensures
      var after := RegistryStep(s, e);
      && after.sink == s.sink && after.parties.tasks.Keys == s.parties.tasks.Keys
      && forall k :: k in s.parties.tasks ==> Moved(s.parties.tasks[k], after.parties.tasks[k])
  {
  }

  // ----- all stories of a run -----

  type Stories = map<TaskId, Story>

  function NextStories(s: System, hs: Stories, e: Event): Stories {
    map k | k in Step(s, e).parties.tasks ::
      if k !in hs || k !in s.parties.tasks then UNTOLD
      else if Acts(s, e).Some? && Acts(s, e).value.0 == k then
        Remember(hs[k], s.parties.tasks[k], Acts(s, e).value.1, s.config.audited, s.sink)
      else hs[k]
  }

  function StoriesFrom(s: System, hs: Stories, events: seq<Event>): Stories
    decreases |events|
  {
    if events == [] then hs else StoriesFrom(Step(s, events[0]), NextStories(s, hs, events[0]), events[1..])
  }

  function StoriesOf(config: Config, start: int, events: seq<Event>): Stories {
    StoriesFrom(Init(config, start), map[], events)
  }

  function StoryOf(config: Config, start: int, events: seq<Event>, k: TaskId): Story {
    if k in StoriesOf(config, start, events) then StoriesOf(config, start, events)[k] else UNTOLD
  }

  ghost predicate TasksTold(tasks: map<TaskId, Task>, hs: Stories, audited: bool) {
    && hs.Keys == tasks.Keys
    && forall k :: k in hs ==> StoryInv(tasks[k], hs[k], audited)
  }

  ghost predicate AllTold(s: System, hs: Stories) {
    TasksTold(s.parties.tasks, hs, s.config.audited)
  }

  lemma OneIsTold(tasks: map<TaskId, Task>, hs: Stories, k: TaskId, task: Task, h: Story, audited: bool)
    requires TasksTold(tasks, hs, audited) && k in tasks && StoryInv(task, h, audited)
    ensures TasksTold(tasks[k := task], hs[k := h], audited)
  {
  }

  lemma NextOfActor(s: System, hs: Stories, e: Event, k: TaskId, effect: TaskEvent)
    requires hs.Keys == s.parties.tasks.Keys && Acts(s, e) == Some((k, effect))
    ensures NextStories(s, hs, e) == hs[k := Remember(hs[k], s.parties.tasks[k], effect, s.config.audited, s.sink)]
  {
    ActorSteps(s, e, k, effect);
    assert Step(s, e).parties.tasks.Keys == s.parties.tasks.Keys;
  }

  lemma ActorIsTold(s: System, hs: Stories, e: Event)
    requires AllTold(s, hs) && Acts(s, e).Some?
    ensures AllTold(Step(s, e), NextStories(s, hs, e))
  {
    var (k, effect) := Acts(s, e).value;
    var audited := s.config.audited;
    ActorSteps(s, e, k, effect);
    NextOfActor(s, hs, e, k, effect);
    ConfigStays(s, e);
    StoryKept(k, s.parties.tasks[k], hs[k], effect, audited, s.sink);
    OneIsTold(s.parties.tasks, hs, k, TaskStep(k, s.parties.tasks[k], effect, audited, s.sink).0,
              Remember(hs[k], s.parties.tasks[k], effect, audited, s.sink), audited);
  }

  lemma MovingIsTold(t: Task, after: Task, h: Story, audited: bool)
    requires StoryInv(t, h, audited) && Moved(t, after)
    ensures StoryInv(after, h, audited)
  {
  }

  /** What an event does that acts on no task. */
  ghost predicate LeftAlone(tasks: map<TaskId, Task>, after: map<TaskId, Task>) {
    && (forall k :: k in tasks ==> k in after && Moved(tasks[k], after[k]))
    && (forall k :: k in after && k !in tasks ==> exists lease :: after[k] == Spawned(lease, SPAWNED))
  }

  lemma NobodyActs(s: System, e: Event)
    requires Acts(s, e).None? && OwnedInv(s)
    ensures LeftAlone(s.parties.tasks, Step(s, e).parties.tasks)
    ensures !e.OtherRecord? ==> Step(s, e).sink == s.sink
  {
    match e {
      case Ticketing(t) => TicketingLeavesTasks(s, t);
      case Launching(l) => LaunchingActsOnNobody(s, l);
      case Registering(r) => RegisteringActsOnNobody(s, r);
      case _ =>
    }
  }

  lemma NextOfNobody(s: System, hs: Stories, e: Event, k: TaskId)
    requires Acts(s, e).None? && k in Step(s, e).parties.tasks && hs.Keys == s.parties.tasks.Keys
    ensures k in NextStories(s, hs, e) && NextStories(s, hs, e)[k] == if k in hs then hs[k] else UNTOLD
  {
  }

  lemma AloneIsTold(tasks: map<TaskId, Task>, after: map<TaskId, Task>, hs: Stories, audited: bool, k: TaskId)
    requires TasksTold(tasks, hs, audited) && LeftAlone(tasks, after) && k in after
    ensures StoryInv(after[k], if k in hs then hs[k] else UNTOLD, audited)
  {
    if k in tasks {
      MovingIsTold(tasks[k], after[k], hs[k], audited);
    } else {
      var lease :| after[k] == Spawned(lease, SPAWNED);
      SpawnedIsUntold(lease, SPAWNED, audited);
    }
  }

  lemma NobodyIsTold(s: System, hs: Stories, e: Event)
    requires AllTold(s, hs) && Acts(s, e).None? && OwnedInv(s)
    ensures AllTold(Step(s, e), NextStories(s, hs, e))
  {
    ConfigStays(s, e);
    NobodyActs(s, e);
    var after, next := Step(s, e).parties.tasks, NextStories(s, hs, e);
    assert next.Keys == after.Keys;
    forall k | k in after ensures StoryInv(after[k], next[k], s.config.audited) {
      NextOfNobody(s, hs, e, k);
      AloneIsTold(s.parties.tasks, after, hs, s.config.audited, k);
    }
  }

  lemma StepIsTold(s: System, hs: Stories, e: Event)
    requires AllTold(s, hs) && OwnedInv(s)
    ensures AllTold(Step(s, e), NextStories(s, hs, e))
  {
    if Acts(s, e).Some? {
      ActorIsTold(s, hs, e);
    } else {
      NobodyIsTold(s, hs, e);
    }
  }

  lemma {:induction false} RunIsTold(s: System, hs: Stories, events: seq<Event>)
    requires Inv(s) && AllTold(s, hs)
    ensures AllTold(Run(s, events), StoriesFrom(s, hs, events))
    decreases |events|
  {
    if events != [] {
      StepKeepsInv(s, events[0]);
      StepIsTold(s, hs, events[0]);
      RunIsTold(Step(s, events[0]), NextStories(s, hs, events[0]), events[1..]);
    }
  }

  /**
   In every run the phase of every task, the results of its caller, its final reason and its records
   are those its story tells.
   */
  lemma TasksShowTheirStories(config: Config, start: int, events: seq<Event>, k: TaskId)
    requires k in Reached(config, start, events).parties.tasks
    ensures
      var hs := StoriesOf(config, start, events);
      k in hs && StoryInv(Reached(config, start, events).parties.tasks[k], hs[k], config.audited)
  {
    InitInv(config, start);
    RunIsTold(Init(config, start), map[], events);
    ReachedInv(config, start, events);
  }

  // ----- admission -----

  /** At this moment task `k` is connecting and this decision is taken. */
  predicate DecisionAt(s: System, e: Event, k: TaskId, decision: Decision) {
    e == Registering(OnTask(k, Decide(decision))) && k in s.parties.tasks && Decides(s.parties.tasks[k], decision)
  }

  predicate DecidedIn(s: System, events: seq<Event>, k: TaskId, decision: Decision)
    decreases |events|
  {
    events != [] && (DecisionAt(s, events[0], k, decision) || DecidedIn(Step(s, events[0]), events[1..], k, decision))
  }

  predicate TellsDecision(hs: Stories, k: TaskId, decision: Decision) {
    k in hs && hs[k].decided == Some(decision)
  }

  lemma NobodyLeaves(s: System, e: Event)
    requires OwnedInv(s)
    ensures s.parties.tasks.Keys <= Step(s, e).parties.tasks.Keys
  {
    if Acts(s, e).Some? {
      ActorSteps(s, e, Acts(s, e).value.0, Acts(s, e).value.1);
    } else {
      NobodyActs(s, e);
    }
  }

  lemma DecisionIsTold(s: System, hs: Stories, e: Event, k: TaskId, decision: Decision)
    requires AllTold(s, hs) && OwnedInv(s)
    ensures TellsDecision(NextStories(s, hs, e), k, decision) <==>
            TellsDecision(hs, k, decision) || DecisionAt(s, e, k, decision)
  {
    NobodyLeaves(s, e);
    if k in hs {
      assert k in s.parties.tasks && k in NextStories(s, hs, e);
      OneDecision(s, e, k, hs[k], decision);
    }
  }

  lemma OneDecision(s: System, e: Event, k: TaskId, h: Story, decision: Decision)
    requires k in s.parties.tasks && StoryInv(s.parties.tasks[k], h, s.config.audited)
    ensures
      var later := if Acts(s, e).Some? && Acts(s, e).value.0 == k then
                     Remember(h, s.parties.tasks[k], Acts(s, e).value.1, s.config.audited, s.sink)
                   else h;
      later.decided == Some(decision) <==> h.decided == Some(decision) || DecisionAt(s, e, k, decision)
  {
    DecidesOnce(s.parties.tasks[k], h, s.config.audited, decision);
    DecidingActs(s, e, k, decision);
  }

  lemma DecidesOnce(t: Task, h: Story, audited: bool, decision: Decision)
    requires StoryInv(t, h, audited)
    ensures Decides(t, decision) ==> h.decided.None?
  {
  }

  lemma DecidingActs(s: System, e: Event, k: TaskId, decision: Decision)
    requires k in s.parties.tasks
    ensures DecisionAt(s, e, k, decision) <==>
            Acts(s, e) == Some((k, Decide(decision))) && Decides(s.parties.tasks[k], decision)
  {
  }

  lemma {:induction false} DecisionsAreTold(s: System, hs: Stories, events: seq<Event>, k: TaskId, decision: Decision)
    requires Inv(s) && AllTold(s, hs)
    ensures TellsDecision(StoriesFrom(s, hs, events), k, decision) <==>
            TellsDecision(hs, k, decision) || DecidedIn(s, events, k, decision)
    decreases |events|
  {
    if events != [] {
      StepKeepsInv(s, events[0]);
      StepIsTold(s, hs, events[0]);
      DecisionIsTold(s, hs, events[0], k, decision);
      DecisionsAreTold(Step(s, events[0]), NextStories(s, hs, events[0]), events[1..], k, decision);
    }
  }

  /** Past the connecting phase, other than to be turned away or to recover from an unwind. */
  predicate PastAdmission(t: Task) {
    || t.phase.Admitted? || t.phase.Started? || t.phase.HandedOff? || t.phase.Supervising?
    || ((t.phase.Cleaning? || t.phase.Cleaned?) && (t.phase.next.AbortAudit? || t.phase.next.Complete?))
  }

  /**
   Only an authenticated connection becomes a session: a task that is past its admission, has a
   record of its start, has been delivered or has a final result was decided Authenticated while it
   was connecting.
   */
  lemma OnlyAuthenticatedSessionsStart(config: Config, start: int, events: seq<Event>, k: TaskId)
    requires k in Reached(config, start, events).parties.tasks
    ensures
      var s := Reached(config, start, events);
      var t := s.parties.tasks[k];
      PastAdmission(t) || t.startRecorded || SessionStarted(k) in s.sink.records
      || SessionDelivered in t.results || t.final.Some? ==>
        DecidedIn(Init(config, start), events, k, Authenticated)
  {
    var s := Reached(config, start, events);
    TasksShowTheirStories(config, start, events, k);
    InitInv(config, start);
    DecisionsAreTold(Init(config, start), map[], events, k, Authenticated);
    ReachedInv(config, start, events);
    RecordMeansStarted(s, k);
    OnlyAuthenticatedStarts(s.parties.tasks[k], StoriesOf(config, start, events)[k], config.audited);
  }

  lemma RecordMeansStarted(s: System, k: TaskId)
    requires RecordsInv(s) && k in s.parties.tasks
    ensures SessionStarted(k) in s.sink.records <==> s.parties.tasks[k].startRecorded
  {
    assert multiset(s.sink.records)[SessionStarted(k)] == One(StartIn(s.parties.tasks, k));
  }

  lemma OnlyAuthenticatedStarts(t: Task, h: Story, audited: bool)
    requires StoryInv(t, h, audited)
    ensures PastAdmission(t) || t.startRecorded || SessionDelivered in t.results || t.final.Some? ==>
              h.decided == Some(Authenticated)
  {
  }

  /** A connection is decided once; one that is not authenticated is never delivered, and its start never recorded. */
  lemma OthersAreTurnedAway(config: Config, start: int, events: seq<Event>, k: TaskId, decision: Decision)
    requires DecidedIn(Init(config, start), events, k, decision)
    ensures
      var s := Reached(config, start, events);
      && k in s.parties.tasks
      && (forall other :: DecidedIn(Init(config, start), events, k, other) ==> other == decision)
      && (decision != Authenticated ==>
            && SessionDelivered !in s.parties.tasks[k].results && SessionStarted(k) !in s.sink.records
            && !PastAdmission(s.parties.tasks[k]) && s.parties.tasks[k].final.None?)
  {
    DecidedTasksStay(config, start, events, k, decision);
    forall other | DecidedIn(Init(config, start), events, k, other) ensures other == decision {
      DecidedTasksStay(config, start, events, k, other);
    }
    if decision != Authenticated {
      OnlyAuthenticatedSessionsStart(config, start, events, k);
    }
  }

  lemma DecidedTasksStay(config: Config, start: int, events: seq<Event>, k: TaskId, decision: Decision)
    requires DecidedIn(Init(config, start), events, k, decision)
    ensures k in Reached(config, start, events).parties.tasks
    ensures TellsDecision(StoriesOf(config, start, events), k, decision)
  {
    InitInv(config, start);
    RunIsTold(Init(config, start), map[], events);
    DecisionsAreTold(Init(config, start), map[], events, k, decision);
  }

  // ----- denials on record -----

  function Denied(hs: Stories, audited: bool): set<TaskId> {
    set k | k in hs && DenialKept(hs[k], audited)
  }

  /** Denials from elsewhere that the sink has taken. */
  function OtherDenial(s: System, e: Event): nat {
    if e.OtherRecord? && e.outcome.Persisted? && !s.sink.failed then 1 else 0
  }

  function OtherDenials(s: System, events: seq<Event>): nat
    decreases |events|
  {
    if events == [] then 0 else OtherDenial(s, events[0]) + OtherDenials(Step(s, events[0]), events[1..])
  }

  function Denials(records: seq<Record>): nat {
    multiset(records)[AccessDenied]
  }

  lemma DenialsAppend(records: seq<Record>, gained: seq<Record>)
    ensures Denials(records + gained) == Denials(records) + Denials(gained)
  {
    assert multiset(records + gained) == multiset(records) + multiset(gained);
  }

  lemma DenialStays(t: Task, h: Story, e: TaskEvent, audited: bool, sink: Sink)
    requires StoryInv(t, h, audited) && DenialKept(h, audited)
    ensures DenialKept(Remember(h, t, e, audited, sink), audited)
  {
    OverTellsNothing(t, h, e, audited, sink);
  }

  lemma DenialIsGained(k: TaskId, h: Story, later: Story, audited: bool)
    ensures Denials(Gained(k, h, later, audited)) ==
            if DenialKept(later, audited) && !DenialKept(h, audited) then 1 else 0
  {
  }

  lemma OneMoreDenied(hs: Stories, k: TaskId, later: Story, audited: bool)
    requires k in hs && (DenialKept(hs[k], audited) ==> DenialKept(later, audited))
    ensures |Denied(hs[k := later], audited)| ==
            |Denied(hs, audited)| + if DenialKept(later, audited) && !DenialKept(hs[k], audited) then 1 else 0
  {
    var denied := Denied(hs, audited);
    assert Denied(hs[k := later], audited) == if DenialKept(later, audited) then denied + {k} else denied;
  }

  lemma ActorDenies(s: System, hs: Stories, e: Event)
    requires AllTold(s, hs) && Acts(s, e).Some?
    ensures
      Denials(Step(s, e).sink.records) - |Denied(NextStories(s, hs, e), s.config.audited)| ==
      Denials(s.sink.records) - |Denied(hs, s.config.audited)|
  {
    var (k, effect) := Acts(s, e).value;
    var t, h, audited := s.parties.tasks[k], hs[k], s.config.audited;
    var later := Remember(h, t, effect, audited, s.sink);
    ActorSteps(s, e, k, effect);
    NextOfActor(s, hs, e, k, effect);
    RecordsAreTold(k, t, h, effect, audited, s.sink);
    DenialsAppend(s.sink.records, Gained(k, h, later, audited));
    DenialIsGained(k, h, later, audited);
    if DenialKept(h, audited) {
      DenialStays(t, h, effect, audited, s.sink);
    }
    OneMoreDenied(hs, k, later, audited);
  }

  lemma NobodyIsDenied(s: System, hs: Stories, e: Event)
    requires hs.Keys == s.parties.tasks.Keys && Acts(s, e).None? && OwnedInv(s)
    ensures Denied(NextStories(s, hs, e), s.config.audited) == Denied(hs, s.config.audited)
  {
    var next := NextStories(s, hs, e);
    NobodyLeaves(s, e);
    forall k | k in next ensures next[k] == if k in hs then hs[k] else UNTOLD {
      NextOfNobody(s, hs, e, k);
    }
    assert !DenialKept(UNTOLD, s.config.audited);
    assert forall k :: k in hs ==> k in next;
  }

  lemma NobodyDenies(s: System, e: Event)
    requires Acts(s, e).None? && OwnedInv(s)
    ensures Denials(Step(s, e).sink.records) == Denials(s.sink.records) + OtherDenial(s, e)
  {
    if e.OtherRecord? {
      DenialsAppend(s.sink.records, [AccessDenied]);
    } else {
      NobodyActs(s, e);
    }
  }

  lemma StepDenies(s: System, hs: Stories, e: Event)
    requires AllTold(s, hs) && OwnedInv(s)
    ensures
      Denials(Step(s, e).sink.records) - |Denied(NextStories(s, hs, e), s.config.audited)| ==
      Denials(s.sink.records) - |Denied(hs, s.config.audited)| + OtherDenial(s, e)
  {
    if Acts(s, e).Some? {
      ActorDenies(s, hs, e);
    } else {
      NobodyDenies(s, e);
      NobodyIsDenied(s, hs, e);
    }
  }

  lemma {:induction false} RunDenies(s: System, hs: Stories, events: seq<Event>)
    requires Inv(s) && AllTold(s, hs)
    ensures
      Denials(Run(s, events).sink.records) - |Denied(StoriesFrom(s, hs, events), s.config.audited)| ==
      Denials(s.sink.records) - |Denied(hs, s.config.audited)| + OtherDenials(s, events)
    decreases |events|
  {
    if events != [] {
      StepKeepsInv(s, events[0]);
      StepIsTold(s, hs, events[0]);
      StepDenies(s, hs, events[0]);
      ConfigStays(s, events[0]);
      RunDenies(Step(s, events[0]), NextStories(s, hs, events[0]), events[1..]);
    }
  }

  /**
   In every run the sink holds one denial for each connection turned away whose record was taken, and
   one for each denial from elsewhere, and no other.
   */
  lemma DenialsAreRecorded(config: Config, start: int, events: seq<Event>)
    ensures
      Denials(Reached(config, start, events).sink.records) ==
      |Denied(StoriesOf(config, start, events), config.audited)| + OtherDenials(Init(config, start), events)
  {
    InitInv(config, start);
    assert Denied(map[], config.audited) == {};
    RunDenies(Init(config, start), map[], events);
  }

  // ----- healthy runs -----

  ghost predicate AllRecorded(hs: Stories) {
    forall k :: k in hs && hs[k].finished ==> hs[k].recorded
  }

  lemma HealthyIsRecorded(h: Story, t: Task, e: TaskEvent, audited: bool, sink: Sink)
    requires (h.finished ==> h.recorded) && Healthy(e) && !sink.failed
    ensures
      var later := Remember(h, t, e, audited, sink);
      later.finished ==> later.recorded
  {
  }

  lemma HealthyStepIsRecorded(s: System, hs: Stories, e: Event)
    requires AllTold(s, hs) && OwnedInv(s) && AllRecorded(hs) && HealthyEvent(e) && !s.sink.failed
    ensures AllRecorded(NextStories(s, hs, e))
  {
    if Acts(s, e).Some? {
      var (k, effect) := Acts(s, e).value;
      NextOfActor(s, hs, e, k, effect);
      HealthyIsRecorded(hs[k], s.parties.tasks[k], effect, s.config.audited, s.sink);
    } else {
      var next := NextStories(s, hs, e);
      forall k | k in next ensures next[k] == if k in hs then hs[k] else UNTOLD {
        NextOfNobody(s, hs, e, k);
      }
    }
  }

  lemma {:induction false} HealthyRunIsRecorded(s: System, hs: Stories, events: seq<Event>)
    requires Inv(s) && AllTold(s, hs) && AllRecorded(hs) && EndsOk(s)
    requires forall i :: 0 <= i < |events| ==> HealthyEvent(events[i])
    ensures AllRecorded(StoriesFrom(s, hs, events))
    decreases |events|
  {
    if events != [] {
      StepKeepsInv(s, events[0]);
      StepIsTold(s, hs, events[0]);
      HealthyStepIsRecorded(s, hs, events[0]);
      EndsAfterStep(s, events[0]);
      HealthyRunIsRecorded(Step(s, events[0]), NextStories(s, hs, events[0]), events[1..]);
    }
  }

  /** A decision for which a denial is due. */
  predicate CallsForDenial(decision: Decision) {
    decision.Rejected? || decision.CallerDropped? || decision.ExitObserved?
  }

  /**
   While sink, clock and id generator stay healthy under audit, a connection that was turned away, and
   neither told to close nor unwound on the way, has its denial on record as soon as its task is over.
   */
  lemma RejectionsAreOnRecord(config: Config, start: int, events: seq<Event>, k: TaskId, decision: Decision)
    requires forall i :: 0 <= i < |events| ==> HealthyEvent(events[i])
    requires config.audited && DecidedIn(Init(config, start), events, k, decision) && CallsForDenial(decision)
    requires
      var s := Reached(config, start, events);
      k in s.parties.tasks && Over(s.parties.tasks[k].phase) && !StoryOf(config, start, events, k).unwound
    ensures k in Denied(StoriesOf(config, start, events), true)
  {
    DecidedTasksStay(config, start, events, k, decision);
    TasksShowTheirStories(config, start, events, k);
    InitInv(config, start);
    HealthyRunIsRecorded(Init(config, start), map[], events);
    RejectionIsKept(Reached(config, start, events).parties.tasks[k], StoriesOf(config, start, events)[k], decision);
  }

  lemma RejectionIsKept(t: Task, h: Story, decision: Decision)
    requires StoryInv(t, h, true) && Over(t.phase) && !h.unwound && (h.finished ==> h.recorded)
    requires h.decided == Some(decision) && CallsForDenial(decision)
    ensures DenialKept(h, true)
  {
  }
}
