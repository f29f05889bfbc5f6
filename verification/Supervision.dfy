/**
 One supervised session (crates/ttygated/src/session.rs, from `supervise_connecting` to
 `complete_supervisor`).

 A task owns the child process and the lease of its session.  Its phases are the places where it
 can be observed between two visible effects; `TaskStep` is one such effect.  Unwinds are events
 of their own.  A session id is named by the task that generates it, because generated ids are
 taken to be distinct.
 */
module Supervision {
  import opened Wrappers
  import opened PtyBackend
  import Audit
  import opened Capacity

  type TaskId = nat

  datatype CloseReason =
    | ChildExited | Explicit | TransportDropped | ProtocolViolation | PolicyViolation
    | InternalFailure | HandleDropped | SupervisorUnwind | ManagerShutdown
    | IdleTimeout | AbsoluteTimeout | BackendFailure

  datatype Record = SessionStarted(task: TaskId) | SessionEnded(task: TaskId) | AccessDenied

  type Sink = Audit.Sink<Record>

  datatype Decision = Authenticated | Rejected | Closed(reason: CloseReason) | CallerDropped | ExitObserved

  /** What follows once the child's process group is proven gone. */
  datatype Continuation =
    | Deny(decision: Decision)
    | AbortAudit
    | Recover(audit: bool)
    | Complete(reason: CloseReason)

  datatype Phase =
    | Waiting | Connecting | Admitted | Started | HandedOff | Supervising
    | Cleaning(next: Continuation) | Cleaned(next: Continuation)
    | Releasing | Released | Finished

  datatype CallerResult = SessionDelivered | StartRefused

  datatype Task = Task(
    lease: LeaseId,
    child: Child,
    phase: Phase,
    closeRequest: Option<CloseReason>,
    callerGone: bool,
    startRecorded: bool,
    endRecorded: bool,
    results: seq<CallerResult>,
    final: Option<CloseReason>,
    abandoned: bool)

  datatype TaskEvent =
    | Go
    | CallerDrops
    | RequestClose(reason: CloseReason)
    | ObserveExit(waitid: Option<bool>)
    | Decide(decision: Decision)
    | RecordStart(idReady: bool, start: Audit.Outcome)
    | TakeHandoff
    | Deliver
    | Stop(stop: CloseReason)
    | Unwind
    | Terminate(env: Environment)
    | Finalise(ready: bool, outcome: Audit.Outcome)

  function Spawned(lease: LeaseId, child: Child): Task {
    Task(lease, child, Waiting, None, false, false, false, [], None, false)
  }

  // ----- guards -----

  predicate Requestable(reason: CloseReason) {
    reason in {Explicit, TransportDropped, ProtocolViolation, PolicyViolation, InternalFailure, HandleDropped,
      ManagerShutdown}
  }

  predicate MayDecide(t: Task, decision: Decision) {
    && (decision.Closed? ==> t.closeRequest == Some(decision.reason))
    && (decision.CallerDropped? ==> t.callerGone)
  }

  predicate MayStop(t: Task, reason: CloseReason) {
    reason in {AbsoluteTimeout, IdleTimeout, ChildExited, BackendFailure} || t.closeRequest == Some(reason)
  }

  /**
   The recovery code of both supervisors.  Nothing that could still clean up catches an unwind of
   it: that of `supervise_connecting` is outside every `catch_unwind`, and that of `supervise` is
   inside one whose handler finds an execution that is already empty.  So an unwind here takes the
   session's context down with it.
   */
  predicate InRecovery(phase: Phase) {
    (phase.Cleaning? || phase.Cleaned?) && (phase.next.Recover? || phase.next == Complete(SupervisorUnwind))
  }

  /** Where an unwind that is caught leads, None where the model admits none. */
  function AfterUnwind(phase: Phase, audited: bool): Option<Phase> {
    match phase
    case Connecting => Some(Cleaning(Recover(false)))
    case Admitted => Some(Cleaning(Recover(false)))
    case Started => Some(Cleaning(Recover(audited)))
    case HandedOff => Some(Cleaning(Recover(audited)))
    case Supervising => Some(Cleaning(Complete(SupervisorUnwind)))
    case Cleaning(next) => Some(Cleaning(if next.Complete? then Complete(SupervisorUnwind) else Recover(false)))
    case Cleaned(next) => Some(Cleaning(if next.Complete? then Complete(SupervisorUnwind) else Recover(false)))
    case _ => None
  }

  /** Dropping the context drops the reservation, and a caller still waiting is refused. */
  function Abandon(t: Task): Task
    requires InRecovery(t.phase)
  {
    t.(phase := Releasing, abandoned := true,
       results := t.results + if t.phase.next.Recover? then [StartRefused] else [])
  }

  /** A retried cleanup turns the close reason of a running session into a backend failure. */
  function AfterFailedCleanup(next: Continuation): Continuation {
    if next.Complete? && !next.reason.SupervisorUnwind? then Complete(BackendFailure) else next
  }

  // ----- one effect -----

  /** Whether finishing `next` writes a record, and which. */
  function FinalRecord(k: TaskId, next: Continuation, audited: bool): Option<Record> {
    match next
    case Deny(Closed(_)) => None
    case Deny(_) => if audited then Some(AccessDenied) else None
    case AbortAudit => None
    case Recover(audit) => if audit then Some(SessionEnded(k)) else None
    case Complete(_) => if audited then Some(SessionEnded(k)) else None
  }

  function FinishCleaned(k: TaskId, t: Task, next: Continuation, ready: bool, outcome: Audit.Outcome, audited: bool,
                         sink: Sink): (Task, Sink)
  {
    var record := FinalRecord(k, next, audited);
    var (after, ok) :=
      if record.Some? && ready then Audit.Append(sink, record.value, outcome) else (sink, false);
    var told := if next.Complete? || next == Deny(CallerDropped) then [] else [StartRefused];
    (t.(phase := Releasing,
        endRecorded := t.endRecorded || (ok && record == Some(SessionEnded(k))),
        results := t.results + told,
        final := if next.Complete? then Some(next.reason) else t.final),
     after)
  }

  function StartSession(k: TaskId, t: Task, idReady: bool, start: Audit.Outcome, audited: bool, sink: Sink)
    : (Task, Sink)
  {
    if !audited then (t.(phase := Started), sink)
    else if !idReady then (t.(phase := Cleaning(AbortAudit)), sink)
    else
      var (after, ok) := Audit.Append(sink, SessionStarted(k), start);
      (if ok then t.(phase := Started, startRecorded := true) else t.(phase := Cleaning(AbortAudit)), after)
  }

  /** An event that is not enabled leaves everything unchanged. */
  function TaskStep(k: TaskId, t: Task, e: TaskEvent, audited: bool, sink: Sink): (Task, Sink) {
    match e
    case Go => (if t.phase.Waiting? then t.(phase := Connecting) else t, sink)
    case CallerDrops => (t.(callerGone := true), sink)
    case RequestClose(reason) =>
      (if Requestable(reason) && t.closeRequest.None? then t.(closeRequest := Some(reason)) else t, sink)
    case ObserveExit(waitid) =>
      (if t.phase.Connecting? || t.phase.Supervising? then t.(child := PollCall(t.child, waitid).0) else t, sink)
    case Decide(decision) =>
      (if !t.phase.Connecting? || !MayDecide(t, decision) then t
       else t.(phase := if decision.Authenticated? then Admitted else Cleaning(Deny(decision))), sink)
    case RecordStart(idReady, start) =>
      if t.phase.Admitted? then StartSession(k, t, idReady, start, audited, sink) else (t, sink)
    case TakeHandoff => (if t.phase.Started? then t.(phase := HandedOff) else t, sink)
    case Deliver =>
      (if t.phase.HandedOff? then t.(phase := Supervising, results := t.results + [SessionDelivered]) else t, sink)
    case Stop(reason) =>
      (if t.phase.Supervising? && MayStop(t, reason) then t.(phase := Cleaning(Complete(reason))) else t, sink)
    case Unwind =>
      var next := AfterUnwind(t.phase, audited);
      (if InRecovery(t.phase) then Abandon(t) else if next.Some? then t.(phase := next.value) else t, sink)
    case Terminate(env) =>
      if !t.phase.Cleaning? then (t, sink)
      else
        var (child, status) := TerminateCall(t.child, env);
        (t.(child := child,
            phase := if status.Some? then Cleaned(t.phase.next) else Cleaning(AfterFailedCleanup(t.phase.next))),
         sink)
    case Finalise(ready, outcome) =>
      if t.phase.Cleaned? then FinishCleaned(k, t, t.phase.next, ready, outcome, audited, sink) else (t, sink)
  }

  // ----- what every task keeps -----

  predicate HoldsLease(phase: Phase) {
    !phase.Released? && !phase.Finished?
  }

  predicate BeforeStart(phase: Phase) {
    match phase
    case Waiting => true
    case Connecting => true
    case Admitted => true
    case Cleaning(next) => next.Deny? || next.AbortAudit? || next == Recover(false)
    case Cleaned(next) => next.Deny? || next.AbortAudit? || next == Recover(false)
    case _ => false
  }

  predicate Over(phase: Phase) {
    phase.Releasing? || phase.Released? || phase.Finished?
  }

  predicate Delivering(phase: Phase) {
    phase.Supervising? || ((phase.Cleaning? || phase.Cleaned?) && phase.next.Complete?)
  }

  predicate Recovering(phase: Phase, audit: bool) {
    (phase.Cleaning? || phase.Cleaned?) && phase.next == Recover(audit)
  }

  /** Past the cleanup, and not by an unwind. */
  predicate CleanedUp(t: Task) {
    t.phase.Cleaned? || (Over(t.phase) && !t.abandoned)
  }

  /** Cleaned up means that some `terminate` returned Ok for this child. */
  predicate ChildPart(t: Task) {
    ChildInv(t.child) && (CleanedUp(t) ==> ProvenAbsent(t.child)) && (t.abandoned ==> Over(t.phase))
  }

  predicate RecordPart(t: Task, audited: bool) {
    && (t.startRecorded ==> audited)
    && (BeforeStart(t.phase) ==> !t.startRecorded)
    && (!BeforeStart(t.phase) && !Over(t.phase) ==> t.startRecorded == audited)
    && (Recovering(t.phase, true) ==> audited)
    && (t.endRecorded ==> t.startRecorded && Over(t.phase) && !t.abandoned)
    && (t.abandoned ==> Over(t.phase))
  }

  predicate CallerPart(t: Task, audited: bool) {
    && (Delivering(t.phase) ==> t.results == [SessionDelivered])
    && (!Delivering(t.phase) && !Over(t.phase) ==> t.results == [])
    && |t.results| <= 1
    && (SessionDelivered in t.results ==> t.startRecorded == audited)
    && (t.final.Some? ==> Over(t.phase) && !t.abandoned)
    && (t.abandoned ==> Over(t.phase))
  }

  predicate TaskInv(t: Task, audited: bool) {
    ChildPart(t) && RecordPart(t, audited) && CallerPart(t, audited)
  }

  predicate TouchesChild(e: TaskEvent) {
    e.ObserveExit? || e.Terminate?
  }

  lemma RecordPartKept(k: TaskId, t: Task, e: TaskEvent, audited: bool, sink: Sink)
    requires RecordPart(t, audited)
    ensures RecordPart(TaskStep(k, t, e, audited, sink).0, audited)
  {
  }

  lemma FinishKeepsCallerPart(k: TaskId, t: Task, ready: bool, outcome: Audit.Outcome, audited: bool, sink: Sink)
    requires t.phase.Cleaned? && RecordPart(t, audited) && CallerPart(t, audited)
    ensures CallerPart(FinishCleaned(k, t, t.phase.next, ready, outcome, audited, sink).0, audited)
  {
  }

  lemma StartKeepsCallerPart(k: TaskId, t: Task, idReady: bool, start: Audit.Outcome, audited: bool, sink: Sink)
    requires t.phase.Admitted? && RecordPart(t, audited) && CallerPart(t, audited)
    ensures CallerPart(StartSession(k, t, idReady, start, audited, sink).0, audited)
  {
  }

  lemma CallerPartKept(k: TaskId, t: Task, e: TaskEvent, audited: bool, sink: Sink)
    requires RecordPart(t, audited) && CallerPart(t, audited)
    ensures CallerPart(TaskStep(k, t, e, audited, sink).0, audited)
  {
    match e {
      case RecordStart(idReady, start) =>
        if t.phase.Admitted? {
          StartKeepsCallerPart(k, t, idReady, start, audited, sink);
        }
      case Finalise(ready, outcome) =>
        if t.phase.Cleaned? {
          FinishKeepsCallerPart(k, t, ready, outcome, audited, sink);
        }
      case _ =>
    }
  }

  /** The lease is as it was, and held or let go as it was. */
  predicate LeaseIsKept(t: Task, after: Task) {
    && after.lease == t.lease
    && HoldsLease(after.phase) == HoldsLease(t.phase)
    && after.phase.Finished? == t.phase.Finished?
  }

  lemma FrameOfFinish(k: TaskId, t: Task, ready: bool, outcome: Audit.Outcome, audited: bool, sink: Sink)
    requires t.phase.Cleaned?
    ensures
      var after := FinishCleaned(k, t, t.phase.next, ready, outcome, audited, sink).0;
      LeaseIsKept(t, after) && after.child == t.child && after.abandoned == t.abandoned
  {
  }

  lemma FrameOfStart(k: TaskId, t: Task, idReady: bool, start: Audit.Outcome, audited: bool, sink: Sink)
    requires t.phase.Admitted?
    ensures
      var after := StartSession(k, t, idReady, start, audited, sink).0;
      LeaseIsKept(t, after) && after.child == t.child && after.abandoned == t.abandoned
      && !CleanedUp(after)
  {
  }

  lemma FrameOfStep(k: TaskId, t: Task, e: TaskEvent, audited: bool, sink: Sink)
    ensures LeaseIsKept(t, TaskStep(k, t, e, audited, sink).0)
  {
    match e {
      case RecordStart(idReady, start) =>
        if t.phase.Admitted? {
          FrameOfStart(k, t, idReady, start, audited, sink);
        }
      case Finalise(ready, outcome) =>
        if t.phase.Cleaned? {
          FrameOfFinish(k, t, ready, outcome, audited, sink);
        }
      case _ =>
    }
  }

  lemma ChildOfStep(k: TaskId, t: Task, e: TaskEvent, audited: bool, sink: Sink)
    requires !TouchesChild(e)
    ensures
      var after := TaskStep(k, t, e, audited, sink).0;
      after.child == t.child && (CleanedUp(after) ==> CleanedUp(t)) && (t.abandoned ==> after.abandoned)
  {
    match e {
      case RecordStart(idReady, start) =>
        if t.phase.Admitted? {
          FrameOfStart(k, t, idReady, start, audited, sink);
        }
      case Finalise(ready, outcome) =>
        if t.phase.Cleaned? {
          FrameOfFinish(k, t, ready, outcome, audited, sink);
        }
      case _ =>
    }
  }

  lemma TerminationKeepsChildPart(k: TaskId, t: Task, env: Environment, audited: bool, sink: Sink)
    requires ChildPart(t)
    ensures
      var after := TaskStep(k, t, Terminate(env), audited, sink).0;
      ChildPart(after) && (ProvenAbsent(t.child) ==> ProvenAbsent(after.child))
  {
    TerminateKeepsInv(t.child, env);
  }

  lemma ChildPartKept(k: TaskId, t: Task, e: TaskEvent, audited: bool, sink: Sink)
    requires ChildPart(t)
    ensures
      var after := TaskStep(k, t, e, audited, sink).0;
      ChildPart(after) && (ProvenAbsent(t.child) ==> ProvenAbsent(after.child))
  {
    match e {
      case ObserveExit(waitid) => PollKeepsInv(t.child, waitid);
      case Terminate(env) => TerminationKeepsChildPart(k, t, env, audited, sink);
      case _ => ChildOfStep(k, t, e, audited, sink);
    }
  }

  /**
   Every effect of a task keeps its invariant and keeps its lease, so a task that reaches the
   point of releasing the lease has had a successful `terminate`.
   */
  lemma TaskStepKeepsInv(k: TaskId, t: Task, e: TaskEvent, audited: bool, sink: Sink)
    requires TaskInv(t, audited)
    ensures
      var after := TaskStep(k, t, e, audited, sink).0;
      && TaskInv(after, audited)
      && after.lease == t.lease
      && HoldsLease(after.phase) == HoldsLease(t.phase)
      && after.phase.Finished? == t.phase.Finished?
      && (ProvenAbsent(t.child) ==> ProvenAbsent(after.child))
  {
    ChildPartKept(k, t, e, audited, sink);
    RecordPartKept(k, t, e, audited, sink);
    CallerPartKept(k, t, e, audited, sink);
    FrameOfStep(k, t, e, audited, sink);
  }

  /** A context is abandoned exactly by an unwind of the recovery code, and for good. */
  lemma AbandonedExactly(k: TaskId, t: Task, e: TaskEvent, audited: bool, sink: Sink)
    ensures TaskStep(k, t, e, audited, sink).0.abandoned <==> t.abandoned || (e.Unwind? && InRecovery(t.phase))
  {
  }

  /** Over although no `terminate` has returned Ok. */
  predicate Unproven(t: Task) {
    Over(t.phase) && !ProvenAbsent(t.child)
  }

  lemma UnprovenExactly(k: TaskId, t: Task, e: TaskEvent, audited: bool, sink: Sink)
    requires TaskInv(t, audited)
    ensures
      Unproven(TaskStep(k, t, e, audited, sink).0)
      <==> Unproven(t) || (e.Unwind? && InRecovery(t.phase) && !ProvenAbsent(t.child))
  {
    ChildPartKept(k, t, e, audited, sink);
    if Over(t.phase) {
      OverIsFrozen(k, t, e, audited, sink);
    }
  }

  lemma OverIsFrozen(k: TaskId, t: Task, e: TaskEvent, audited: bool, sink: Sink)
    requires Over(t.phase)
    ensures
      var after := TaskStep(k, t, e, audited, sink).0;
      after.phase == t.phase && after.child == t.child && after.abandoned == t.abandoned
  {
  }

  predicate SameFlags(t: Task, after: Task) {
    after.startRecorded == t.startRecorded && after.endRecorded == t.endRecorded
  }

  /** The records added to the sink are exactly those the task's two flags account for. */
  predicate Accounted(k: TaskId, t: Task, after: Task, before: seq<Record>, now: seq<Record>) {
    || (now == before && SameFlags(t, after))
    || (now == before + [AccessDenied] && SameFlags(t, after))
    || (now == before + [SessionStarted(k)] && !t.startRecorded && !t.endRecorded
        && after.startRecorded && !after.endRecorded)
    || (now == before + [SessionEnded(k)] && t.startRecorded && !t.endRecorded
        && after.startRecorded && after.endRecorded)
  }

  lemma TaskStepIsAccountedFor(k: TaskId, t: Task, e: TaskEvent, audited: bool, sink: Sink)
    requires TaskInv(t, audited)
    ensures
      var (after, log) := TaskStep(k, t, e, audited, sink);
      Accounted(k, t, after, sink.records, log.records) && (sink.failed ==> log == sink)
  {
  }

  /** Neither the sink nor the clock and id generator fail during this event. */
  predicate Healthy(e: TaskEvent) {
    match e
    case RecordStart(idReady, start) => idReady && start.Persisted?
    case Finalise(ready, outcome) => ready && outcome.Persisted?
    case _ => true
  }

  predicate EndsAccountedFor(t: Task) {
    Over(t.phase) && t.startRecorded && !t.abandoned ==> t.endRecorded
  }

  /** While everything is healthy, a session that is over and was started has its end recorded. */
  lemma HealthyStepRecordsEnd(k: TaskId, t: Task, e: TaskEvent, audited: bool, sink: Sink)
    requires TaskInv(t, audited) && EndsAccountedFor(t) && !sink.failed && Healthy(e)
    ensures EndsAccountedFor(TaskStep(k, t, e, audited, sink).0)
    ensures !TaskStep(k, t, e, audited, sink).1.failed
  {
  }
}
