/**
 What has happened to a session decides where it is, what its caller was told, what its final
 result says and what the audit sink holds of it.  A story keeps only which events found the task
 where they could act; everything a task shows is then read off its story.
 */
module SupervisionStory {
  import opened Wrappers
  import opened PtyBackend
  import opened Capacity
  import opened Supervision
  import Audit

  /**
   `begun`: the start signal came.  `asked`: the first request to close.  `decided`: how the connecting
   phase ended.  `admitted`: whether its start could be recorded, if it came to that.  `retried`: a
   cleanup call failed.  `unwound`: an unwind was caught.  `proven`: since the last of these a cleanup
   succeeded.  `recorded`: whether the last record could be written.
   */
  datatype Story = Story(
    begun: bool,
    asked: Option<CloseReason>,
    decided: Option<Decision>,
    admitted: Option<bool>,
    taken: bool,
    delivered: bool,
    stopped: Option<CloseReason>,
    retried: bool,
    unwound: bool,
    proven: bool,
    finished: bool,
    recorded: bool,
    abandoned: bool)

  const UNTOLD := Story(false, None, None, None, false, false, None, false, false, false, false, false, false)

  /** Phases in which an unwind is caught. */
  predicate Caught(phase: Phase) {
    phase.Connecting? || phase.Admitted? || phase.Started? || phase.HandedOff? || phase.Supervising? ||
    ((phase.Cleaning? || phase.Cleaned?) && !InRecovery(phase))
  }

  /** The reasons for which a supervised session stops of itself. */
  predicate StopsFor(t: Task, reason: CloseReason) {
    reason == AbsoluteTimeout || reason == IdleTimeout || reason == ChildExited || reason == BackendFailure ||
    t.closeRequest == Some(reason)
  }

  predicate Decides(t: Task, decision: Decision) {
    && t.phase.Connecting?
    && (decision.Closed? ==> t.closeRequest == Some(decision.reason))
    && (decision.CallerDropped? ==> t.callerGone)
  }

  predicate CanBeAsked(reason: CloseReason) {
    reason != ChildExited && reason != SupervisorUnwind && reason != IdleTimeout && reason != AbsoluteTimeout &&
    reason != BackendFailure
  }

  function AfterCleanup(h: Story, succeeded: bool): (later: Story)
    ensures later.admitted == h.admitted && later.recorded == h.recorded
    ensures later.decided == h.decided && later.asked == h.asked && later.finished == h.finished
  {
    if succeeded then h.(proven := true) else h.(retried := true)
  }

  /** The story after an event, going by where the task was found. */
  function Remember(h: Story, t: Task, e: TaskEvent, audited: bool, sink: Sink): (later: Story)
    ensures !e.RecordStart? ==> later.admitted == h.admitted
    ensures !e.Finalise? ==> later.recorded == h.recorded && later.finished == h.finished
    ensures later.decided == if e.Decide? && Decides(t, e.decision) then Some(e.decision) else h.decided
    ensures later.asked ==
            if e.RequestClose? && CanBeAsked(e.reason) && h.asked.None? then Some(e.reason) else h.asked
  {
    match e
    case Go => if t.phase.Waiting? then h.(begun := true) else h
    case CallerDrops => h
    case RequestClose(reason) => if CanBeAsked(reason) && h.asked.None? then h.(asked := Some(reason)) else h
    case ObserveExit(_) => h
    case Decide(decision) => if Decides(t, decision) then h.(decided := Some(decision)) else h
    case RecordStart(idReady, start) =>
      if t.phase.Admitted? then h.(admitted := Some(!audited || (idReady && start.Persisted? && !sink.failed))) else h
    case TakeHandoff => if t.phase.Started? then h.(taken := true) else h
    case Deliver => if t.phase.HandedOff? then h.(delivered := true) else h
    case Stop(reason) => if t.phase.Supervising? && StopsFor(t, reason) then h.(stopped := Some(reason)) else h
    case Unwind =>
      if Caught(t.phase) then h.(unwound := true, proven := false)
      else if InRecovery(t.phase) then h.(abandoned := true)
      else h
    case Terminate(env) =>
      if t.phase.Cleaning? then AfterCleanup(h, TerminateCall(t.child, env).1.Some?) else h
    case Finalise(ready, outcome) =>
      if t.phase.Cleaned? then h.(finished := true, recorded := ready && outcome.Persisted? && !sink.failed) else h
  }

  // ----- what a story means -----

  predicate Accepted(h: Story) {
    h.admitted.Some? && h.admitted.value
  }

  predicate Refused(h: Story) {
    h.admitted.Some? && !h.admitted.value
  }

  /** Something has made the child's cleanup due. */
  predicate CleanupDue(h: Story) {
    h.unwound || (h.decided.Some? && h.decided != Some(Authenticated)) || Refused(h) || h.stopped.Some?
  }

  /** How far a session has come to which nothing has happened yet. */
  function Progress(h: Story): Phase {
    if !h.begun then Waiting
    else if h.decided.None? then Connecting
    else if h.admitted.None? then Admitted
    else if !h.taken then Started
    else if !h.delivered then HandedOff
    else Supervising
  }

  /** The close reason of a delivered session: an unwind outweighs a failed cleanup, which outweighs why it stopped. */
  function Ending(h: Story): CloseReason {
    if h.unwound then SupervisorUnwind
    else if h.retried then BackendFailure
    else if h.stopped.Some? then h.stopped.value
    else BackendFailure
  }

  /** What is left to do once the child is gone. */
  function Remaining(h: Story, audited: bool): Continuation {
    if h.delivered then Complete(Ending(h))
    else if h.unwound then Recover(audited && Accepted(h))
    else if Refused(h) then AbortAudit
    else if h.decided.Some? then Deny(h.decided.value)
    else AbortAudit
  }

  predicate Ended(h: Story) {
    h.finished || h.abandoned
  }

  predicate PhaseTold(t: Task, h: Story, audited: bool) {
    && t.abandoned == h.abandoned
    && (Over(t.phase) <==> Ended(h))
    && (!Ended(h) ==>
          t.phase ==
          if !CleanupDue(h) then Progress(h)
          else if h.proven then Cleaned(Remaining(h, audited))
          else Cleaning(Remaining(h, audited)))
  }

  /** What the caller that started the session has been told. */
  function Told(h: Story): seq<CallerResult> {
    if h.delivered then [SessionDelivered]
    else if !Ended(h) then []
    else if h.decided == Some(CallerDropped) && !h.unwound then []
    else [StartRefused]
  }

  /** A session that was started, and ended by its own supervisor or by the recovery of its start. */
  predicate StartedAndEnded(h: Story) {
    h.finished && (h.delivered || (h.unwound && Accepted(h)))
  }

  predicate ResultsTold(t: Task, h: Story, audited: bool) {
    && t.closeRequest == h.asked
    && t.results == Told(h)
    && t.final == (if h.finished && h.delivered then Some(Ending(h)) else None)
    && (t.startRecorded <==> audited && Accepted(h))
    && (t.endRecorded <==> audited && h.recorded && StartedAndEnded(h))
    && (h.decided == Some(CallerDropped) ==> t.callerGone)
  }

  /** Nothing is remembered before what has to come first. */
  predicate InOrder(h: Story) {
    && (h.asked.Some? ==> CanBeAsked(h.asked.value))
    && (h.stopped.Some? ==> h.delivered && h.stopped != Some(SupervisorUnwind))
    && (h.delivered ==> h.taken) && (h.taken ==> Accepted(h))
    && (h.admitted.Some? ==> h.decided == Some(Authenticated)) && (h.decided.Some? ==> h.begun)
    && (h.unwound ==> h.begun)
    && (h.proven || h.retried || Ended(h) ==> CleanupDue(h))
    && (h.finished ==> h.proven && !h.abandoned) && (h.abandoned ==> h.unwound)
    && (h.recorded ==> h.finished)
  }

  predicate StoryInv(t: Task, h: Story, audited: bool) {
    InOrder(h) && PhaseTold(t, h, audited) && ResultsTold(t, h, audited)
  }

  lemma SpawnedIsUntold(lease: LeaseId, child: Child, audited: bool)
    ensures StoryInv(Spawned(lease, child), UNTOLD, audited)
  {
  }

  // ----- every event is told -----

  predicate IsTold(k: TaskId, t: Task, h: Story, e: TaskEvent, audited: bool, sink: Sink) {
    var (after, later) := (TaskStep(k, t, e, audited, sink).0, Remember(h, t, e, audited, sink));
    PhaseTold(after, later, audited) && ResultsTold(after, later, audited)
  }

  lemma OrderKept(t: Task, h: Story, e: TaskEvent, audited: bool, sink: Sink)
    requires StoryInv(t, h, audited)
    ensures InOrder(Remember(h, t, e, audited, sink))
  {
    match e {
      case Unwind => UnwindKeepsOrder(t, h, audited, sink);
      case _ =>
    }
  }

  lemma UnwindKeepsOrder(t: Task, h: Story, audited: bool, sink: Sink)
    requires StoryInv(t, h, audited)
    ensures InOrder(Remember(h, t, Unwind, audited, sink))
  {
  }

  lemma CaughtIsTold(k: TaskId, t: Task, h: Story, audited: bool, sink: Sink)
    requires StoryInv(t, h, audited) && Caught(t.phase)
    ensures IsTold(k, t, h, Unwind, audited, sink)
  {
    assert !Ended(h) && !InRecovery(t.phase);
  }

  lemma UnwindIsTold(k: TaskId, t: Task, h: Story, audited: bool, sink: Sink)
    requires StoryInv(t, h, audited)
    ensures IsTold(k, t, h, Unwind, audited, sink)
  {
    if Caught(t.phase) {
      CaughtIsTold(k, t, h, audited, sink);
    }
  }

  lemma DecideIsTold(k: TaskId, t: Task, h: Story, decision: Decision, audited: bool, sink: Sink)
    requires StoryInv(t, h, audited)
    ensures IsTold(k, t, h, Decide(decision), audited, sink)
  {
  }

  lemma RecordStartIsTold(k: TaskId, t: Task, h: Story, idReady: bool, start: Audit.Outcome, audited: bool, sink: Sink)
    requires StoryInv(t, h, audited)
    ensures IsTold(k, t, h, RecordStart(idReady, start), audited, sink)
  {
  }

  predicate BothTold(t: Task, h: Story, audited: bool) {
    PhaseTold(t, h, audited) && ResultsTold(t, h, audited)
  }

  lemma ProofIsTold(t: Task, h: Story, child: Child, audited: bool)
    requires StoryInv(t, h, audited) && t.phase.Cleaning?
    ensures BothTold(t.(child := child, phase := Cleaned(t.phase.next)), h.(proven := true), audited)
  {
  }

  lemma RetryIsTold(t: Task, h: Story, child: Child, audited: bool)
    requires StoryInv(t, h, audited) && t.phase.Cleaning?
    ensures
      BothTold(t.(child := child, phase := Cleaning(AfterFailedCleanup(t.phase.next))), h.(retried := true), audited)
  {
  }

  lemma TerminateIsTold(k: TaskId, t: Task, h: Story, env: Environment, audited: bool, sink: Sink)
    requires StoryInv(t, h, audited)
    ensures IsTold(k, t, h, Terminate(env), audited, sink)
  {
    if t.phase.Cleaning? {
      var (child, status) := TerminateCall(t.child, env);
      if status.Some? {
        ProofIsTold(t, h, child, audited);
      } else {
        RetryIsTold(t, h, child, audited);
      }
    }
  }

  lemma FinaliseIsTold(k: TaskId, t: Task, h: Story, ready: bool, outcome: Audit.Outcome, audited: bool, sink: Sink)
    requires StoryInv(t, h, audited)
    ensures IsTold(k, t, h, Finalise(ready, outcome), audited, sink)
  {
  }

  lemma AdvanceIsTold(k: TaskId, t: Task, h: Story, e: TaskEvent, audited: bool, sink: Sink)
    requires StoryInv(t, h, audited) && (e.Go? || e.TakeHandoff? || e.Deliver?)
    ensures IsTold(k, t, h, e, audited, sink)
  {
  }

  lemma StopIsTold(k: TaskId, t: Task, h: Story, reason: CloseReason, audited: bool, sink: Sink)
    requires StoryInv(t, h, audited)
    ensures IsTold(k, t, h, Stop(reason), audited, sink)
  {
  }

  lemma AskingIsTold(t: Task, h: Story, asked: Option<CloseReason>, audited: bool)
    requires StoryInv(t, h, audited)
    ensures BothTold(t.(closeRequest := asked), h.(asked := asked), audited)
  {
    assert CleanupDue(h.(asked := asked)) == CleanupDue(h) && Ended(h.(asked := asked)) == Ended(h);
    assert Remaining(h.(asked := asked), audited) == Remaining(h, audited);
  }

  /** Neither the child nor a caller that goes away is part of a story. */
  lemma AsideIsTold(t: Task, h: Story, child: Child, callerGone: bool, audited: bool)
    requires StoryInv(t, h, audited) && (t.callerGone ==> callerGone)
    ensures BothTold(t.(child := child, callerGone := callerGone), h, audited)
  {
  }

  lemma RequestIsTold(k: TaskId, t: Task, h: Story, e: TaskEvent, audited: bool, sink: Sink)
    requires StoryInv(t, h, audited) && (e.CallerDrops? || e.RequestClose? || e.ObserveExit?)
    ensures IsTold(k, t, h, e, audited, sink)
  {
    match e {
      case RequestClose(reason) => AskingIsTold(t, h, Some(reason), audited);
      case CallerDrops => AsideIsTold(t, h, t.child, true, audited);
      case ObserveExit(waitid) => AsideIsTold(t, h, PollCall(t.child, waitid).0, t.callerGone, audited);
    }
  }

  /** Whatever an event does to a task, the task shows what its story says. */
  lemma StoryKept(k: TaskId, t: Task, h: Story, e: TaskEvent, audited: bool, sink: Sink)
    requires StoryInv(t, h, audited)
    ensures StoryInv(TaskStep(k, t, e, audited, sink).0, Remember(h, t, e, audited, sink), audited)
  {
    OrderKept(t, h, e, audited, sink);
    match e {
      case Unwind => UnwindIsTold(k, t, h, audited, sink);
      case Decide(decision) => DecideIsTold(k, t, h, decision, audited, sink);
      case RecordStart(idReady, start) => RecordStartIsTold(k, t, h, idReady, start, audited, sink);
      case Terminate(env) => TerminateIsTold(k, t, h, env, audited, sink);
      case Finalise(ready, outcome) => FinaliseIsTold(k, t, h, ready, outcome, audited, sink);
      case Stop(reason) => StopIsTold(k, t, h, reason, audited, sink);
      case Go => AdvanceIsTold(k, t, h, e, audited, sink);
      case TakeHandoff => AdvanceIsTold(k, t, h, e, audited, sink);
      case Deliver => AdvanceIsTold(k, t, h, e, audited, sink);
      case _ => RequestIsTold(k, t, h, e, audited, sink);
    }
  }

  // ----- what the sink holds of it -----

  predicate StartKept(h: Story, audited: bool) {
    audited && Accepted(h)
  }

  predicate EndKept(h: Story, audited: bool) {
    audited && h.recorded && StartedAndEnded(h)
  }

  /** A connection that was turned away, and not because it was told to close. */
  predicate DenialKept(h: Story, audited: bool) {
    && audited && h.recorded && !h.delivered && !h.unwound
    && h.decided.Some? && h.decided != Some(Authenticated) && !h.decided.value.Closed?
  }

  /** The records that a story gains from one moment to the next. */
  function Gained(k: TaskId, h: Story, later: Story, audited: bool): seq<Record> {
    (if StartKept(later, audited) && !StartKept(h, audited) then [SessionStarted(k)] else []) +
    (if EndKept(later, audited) && !EndKept(h, audited) then [SessionEnded(k)] else []) +
    (if DenialKept(later, audited) && !DenialKept(h, audited) then [AccessDenied] else [])
  }

  lemma StartIsRecorded(k: TaskId, t: Task, h: Story, idReady: bool, start: Audit.Outcome, audited: bool, sink: Sink)
    requires StoryInv(t, h, audited)
    ensures
      var e := RecordStart(idReady, start);
      TaskStep(k, t, e, audited, sink).1.records ==
      sink.records + Gained(k, h, Remember(h, t, e, audited, sink), audited)
  {
    assert sink.records + [] == sink.records;
  }

  lemma EndIsRecorded(k: TaskId, t: Task, h: Story, ready: bool, outcome: Audit.Outcome, audited: bool, sink: Sink)
    requires StoryInv(t, h, audited)
    ensures
      var e := Finalise(ready, outcome);
      TaskStep(k, t, e, audited, sink).1.records ==
      sink.records + Gained(k, h, Remember(h, t, e, audited, sink), audited)
  {
    assert sink.records + [] == sink.records;
  }

  lemma NothingGained(k: TaskId, h: Story, later: Story, audited: bool)
    requires later.admitted == h.admitted && later.recorded == h.recorded
    requires h.recorded ==> later == h.(asked := later.asked)
    ensures Gained(k, h, later, audited) == []
  {
  }

  /** Once a task is over, nothing but a late request to close is remembered. */
  lemma OverTellsNothing(t: Task, h: Story, e: TaskEvent, audited: bool, sink: Sink)
    requires Over(t.phase)
    ensures
      Remember(h, t, e, audited, sink) ==
      if e.RequestClose? && CanBeAsked(e.reason) && h.asked.None? then h.(asked := Some(e.reason)) else h
  {
    var phase := t.phase;
    assert !phase.Waiting? && !phase.Connecting? && !phase.Admitted? && !phase.Started? && !phase.HandedOff?;
    assert !phase.Supervising? && !phase.Cleaning? && !phase.Cleaned?;
  }

  lemma OthersRecordNothing(k: TaskId, t: Task, h: Story, e: TaskEvent, audited: bool, sink: Sink)
    requires !e.RecordStart? && !e.Finalise?
    ensures TaskStep(k, t, e, audited, sink).1 == sink
  {
  }

  /** Each event adds to the sink exactly what the story gains. */
  lemma RecordsAreTold(k: TaskId, t: Task, h: Story, e: TaskEvent, audited: bool, sink: Sink)
    requires StoryInv(t, h, audited)
    ensures TaskStep(k, t, e, audited, sink).1.records ==
            sink.records + Gained(k, h, Remember(h, t, e, audited, sink), audited)
  {
    match e {
      case RecordStart(idReady, start) => StartIsRecorded(k, t, h, idReady, start, audited, sink);
      case Finalise(ready, outcome) => EndIsRecorded(k, t, h, ready, outcome, audited, sink);
      case _ =>
        OthersRecordNothing(k, t, h, e, audited, sink);
        if h.recorded {
          OverTellsNothing(t, h, e, audited, sink);
        }
        NothingGained(k, h, Remember(h, t, e, audited, sink), audited);
        assert sink.records + [] == sink.records;
    }
  }
}
