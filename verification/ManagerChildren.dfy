/** What every run of the manager does to the child of a session, and which callers have gone away. */
module ManagerChildren {
  import opened Wrappers
  import opened PtyBackend
  import opened Supervision
  import opened SupervisionStory
  import opened Manager
  import opened ManagerOwnership
  import opened ManagerSafety
  import opened ManagerTheorems
  import opened ManagerStories

  // ----- the calls on one child -----

  /** The call that an event makes on the child of a task it finds in this phase. */
  function CallOf(phase: Phase, effect: TaskEvent): Option<Call> {
    match effect
    case ObserveExit(waitid) => if phase.Connecting? || phase.Supervising? then Some(Polled(waitid)) else None
    case Terminate(env) => if phase.Cleaning? then Some(Terminated(env)) else None
    case _ => None
  }

  function CallAt(s: System, e: Event, k: TaskId): Option<Call> {
    if Acts(s, e).Some? && Acts(s, e).value.0 == k && k in s.parties.tasks
    then CallOf(s.parties.tasks[k].phase, Acts(s, e).value.1) else None
  }

  /** The calls on the child of task `k`, in the order of the run. */
  function CallsIn(s: System, events: seq<Event>, k: TaskId): seq<Call>
    decreases |events|
  {
    if events == [] then []
    else
      var rest := CallsIn(Step(s, events[0]), events[1..], k);
      match CallAt(s, events[0], k)
      case None => rest
      case Some(call) => [call] + rest
  }

  /** The child of task `k`; a task that is not there yet is going to start with a new one. */
  function ChildAt(s: System, k: TaskId): Child {
    if k in s.parties.tasks then s.parties.tasks[k].child else SPAWNED
  }

  function AfterCall(c: Child, call: Option<Call>): Child {
    if call.Some? then Do(c, call.value).0 else c
  }

  lemma EffectCalls(k: TaskId, t: Task, effect: TaskEvent, audited: bool, sink: Sink)
    ensures TaskStep(k, t, effect, audited, sink).0.child == AfterCall(t.child, CallOf(t.phase, effect))
  {
    match effect {
      case RecordStart(idReady, start) =>
        if t.phase.Admitted? {
          FrameOfStart(k, t, idReady, start, audited, sink);
        }
      case Finalise(ready, outcome) =>
        if t.phase.Cleaned? {
          FrameOfFinish(k, t, ready, outcome, audited, sink);
        }
      case _ =>
    }
  }

  lemma StepCalls(s: System, e: Event, k: TaskId)
    requires OwnedInv(s)
    ensures ChildAt(Step(s, e), k) == AfterCall(ChildAt(s, k), CallAt(s, e, k))
  {
    if Acts(s, e).Some? {
      var (j, effect) := Acts(s, e).value;
      ActorSteps(s, e, j, effect);
      EffectCalls(j, s.parties.tasks[j], effect, s.config.audited, s.sink);
    } else {
      NobodyActs(s, e);
    }
  }

  lemma {:induction false} RunCalls(s: System, events: seq<Event>, k: TaskId)
    requires Inv(s)
    ensures ChildAt(Run(s, events), k) == Calls(ChildAt(s, k), CallsIn(s, events, k)).0
    decreases |events|
  {
    if events != [] {
      var rest := CallsIn(Step(s, events[0]), events[1..], k);
      StepKeepsInv(s, events[0]);
      StepCalls(s, events[0], k);
      RunCalls(Step(s, events[0]), events[1..], k);
      match CallAt(s, events[0], k) {
        case None =>
        case Some(call) => assert ([call] + rest)[0] == call && ([call] + rest)[1..] == rest;
      }
    }
  }

  /**
   In every run every session's child is what the calls of its own task made of a new one: no call of
   another task reaches it, and none of its own is lost.  So it is never signalled after its reap,
   killed at most once, and every status reported for it is the same.
   */
  lemma EveryChildIsHandledSafely(config: Config, start: int, events: seq<Event>, k: TaskId)
    requires k in Reached(config, start, events).parties.tasks
    ensures
      var child := Reached(config, start, events).parties.tasks[k].child;
      var calls := CallsIn(Init(config, start), events, k);
      var (last, statuses) := Calls(SPAWNED, calls);
      && child == last && SafeTrace(child.trace)
      && forall i, j :: 0 <= i < j < |statuses| ==> statuses[i] == statuses[j]
  {
    InitInv(config, start);
    RunCalls(Init(config, start), events, k);
    CleanupIsSafe(CallsIn(Init(config, start), events, k));
  }

  // ----- callers -----

  predicate LeavesAt(s: System, e: Event, k: TaskId) {
    e == Registering(OnTask(k, CallerDrops)) && k in s.parties.tasks
  }

  predicate LeftIn(s: System, events: seq<Event>, k: TaskId)
    decreases |events|
  {
    events != [] && (LeavesAt(s, events[0], k) || LeftIn(Step(s, events[0]), events[1..], k))
  }

  predicate HasLeft(s: System, k: TaskId) {
    k in s.parties.tasks && s.parties.tasks[k].callerGone
  }

  lemma EffectLeaves(k: TaskId, t: Task, effect: TaskEvent, audited: bool, sink: Sink)
    ensures TaskStep(k, t, effect, audited, sink).0.callerGone <==> t.callerGone || effect.CallerDrops?
  {
  }

  lemma StepLeaves(s: System, e: Event, k: TaskId)
    requires OwnedInv(s)
    ensures HasLeft(Step(s, e), k) <==> HasLeft(s, k) || LeavesAt(s, e, k)
  {
    if Acts(s, e).Some? {
      var (j, effect) := Acts(s, e).value;
      ActorSteps(s, e, j, effect);
      EffectLeaves(j, s.parties.tasks[j], effect, s.config.audited, s.sink);
    } else {
      NobodyActs(s, e);
    }
  }

  /** A session is abandoned by its caller exactly when that caller has gone away. */
  lemma {:induction false} CallersLeaveOnTheirOwn(s: System, events: seq<Event>, k: TaskId)
    requires Inv(s)
    ensures HasLeft(Run(s, events), k) <==> HasLeft(s, k) || LeftIn(s, events, k)
    decreases |events|
  {
    if events != [] {
      StepKeepsInv(s, events[0]);
      StepLeaves(s, events[0], k);
      CallersLeaveOnTheirOwn(Step(s, events[0]), events[1..], k);
    }
  }

  /**
   The caller of a connection is left without an answer only if it went away itself: whoever stays
   hears of a session that is over.
   */
  lemma WhoStaysIsAnswered(config: Config, start: int, events: seq<Event>, k: TaskId)
    requires k in Reached(config, start, events).parties.tasks
    ensures
      var t := Reached(config, start, events).parties.tasks[k];
      Over(t.phase) && t.results == [] ==> LeftIn(Init(config, start), events, k)
  {
    InitInv(config, start);
    CallersLeaveOnTheirOwn(Init(config, start), events, k);
    TasksShowTheirStories(config, start, events, k);
    SilenceMeansLeft(Reached(config, start, events).parties.tasks[k], StoriesOf(config, start, events)[k],
                     config.audited);
  }

  lemma SilenceMeansLeft(t: Task, h: Story, audited: bool)
    requires StoryInv(t, h, audited)
    ensures Over(t.phase) && t.results == [] ==> t.callerGone
  {
  }
}
