/** The invariants of whole runs of the manager, and the theorems that follow from them. */
module ManagerSafety {
  import opened Wrappers
  import opened Capacity
  import opened Tickets
  import opened PtyBackend
  import opened Supervision
  import opened Manager
  import opened ManagerOwnership
  import opened ManagerLeases
  import Audit

  // ----- tasks and the registry -----

  /** Every task keeps its own invariant and is registered exactly until it is finished. */
  ghost predicate TasksOk(tasks: map<TaskId, Task>, active: set<TaskId>, audited: bool) {
    && (forall k :: k in tasks ==> TaskInv(tasks[k], audited))
    && (forall k :: k in active <==> k in tasks && !tasks[k].phase.Finished?)
  }

  ghost predicate TasksInv(s: System) {
    TasksOk(s.parties.tasks, s.registry.active, s.config.audited)
  }

  lemma TaskReplaced(tasks: map<TaskId, Task>, active: set<TaskId>, audited: bool, k: TaskId, task: Task)
    requires TasksOk(tasks, active, audited) && k in tasks && TaskInv(task, audited)
    requires task.phase.Finished? == tasks[k].phase.Finished?
    ensures TasksOk(tasks[k := task], active, audited)
  {
  }

  lemma TaskFinished(tasks: map<TaskId, Task>, active: set<TaskId>, audited: bool, k: TaskId, task: Task)
    requires TasksOk(tasks, active, audited) && k in tasks && TaskInv(task, audited) && task.phase.Finished?
    ensures TasksOk(tasks[k := task], active - {k}, audited)
  {
  }

  lemma TasksAfterEffect(s: System, k: TaskId, e: TaskEvent)
    requires TasksInv(s)
    ensures TasksInv(DoOnTask(s, k, e))
  {
    if k in s.parties.tasks {
      var (task, sink) := TaskStep(k, s.parties.tasks[k], e, s.config.audited, s.sink);
      TaskStepKeepsInv(k, s.parties.tasks[k], e, s.config.audited, s.sink);
      TaskReplaced(s.parties.tasks, s.registry.active, s.config.audited, k, task);
      TasksCommitted(s, k, task, sink);
    }
  }

  lemma TasksCommitted(s: System, k: TaskId, task: Task, sink: Sink)
    requires TasksOk(s.parties.tasks[k := task], s.registry.active, s.config.audited)
    ensures TasksInv(CommitEffect(s, k, task, sink))
  {
  }

  lemma PhaseChangeKeepsInv(task: Task, audited: bool)
    requires TaskInv(task, audited)
    ensures task.phase.Releasing? ==> TaskInv(task.(phase := Released), audited)
    ensures task.phase.Released? ==> TaskInv(task.(phase := Finished), audited)
  {
  }

  lemma TasksAfterReleaseLease(s: System, k: TaskId)
    requires TasksInv(s)
    ensures TasksInv(DoReleaseLease(s, k))
  {
    if k in s.parties.tasks && s.parties.tasks[k].phase.Releasing? {
      PhaseChangeKeepsInv(s.parties.tasks[k], s.config.audited);
      TaskReplaced(s.parties.tasks, s.registry.active, s.config.audited, k, s.parties.tasks[k].(phase := Released));
    }
  }

  lemma TasksAfterCompleteTask(s: System, k: TaskId)
    requires TasksInv(s)
    ensures TasksInv(DoCompleteTask(s, k))
  {
    if k in s.parties.tasks && s.parties.tasks[k].phase.Released? {
      PhaseChangeKeepsInv(s.parties.tasks[k], s.config.audited);
      TaskFinished(s.parties.tasks, s.registry.active, s.config.audited, k, s.parties.tasks[k].(phase := Finished));
    }
  }

  lemma TasksAfterRegister(s: System, r: nat)
    requires TasksInv(s) && OwnedInv(s)
    ensures TasksInv(DoRegister(s, r))
  {
    SpawnedChildIsSafe();
  }

  /** What no launching event touches. */
  predicate LaunchFrame(s: System, after: System) {
    after.parties.tickets == s.parties.tickets && after.history == s.history && after.config == s.config
  }

  predicate QuietFrame(s: System, after: System) {
    && LaunchFrame(s, after)
    && after.parties.tasks == s.parties.tasks && after.registry == s.registry && after.sink == s.sink
  }

  lemma CommitFrames(s: System, r: nat, lease: LeaseId, reading: int, table: Table, reserved: Reserved,
                     error: Option<SessionError>)
    ensures QuietFrame(s, CommitLive(s, r, reading, table, reserved))
    ensures QuietFrame(s, CommitActivation(s, r, lease, reading, table, error))
  {
  }

  lemma TakeLeaseFrame(s: System, r: nat, reading: int)
    ensures QuietFrame(s, DoTakeLease(s, r, reading))
  {
    if r in s.parties.starters && s.parties.starters[r].Starting? && s.now <= reading {
      var Starting(identity, claim) := s.parties.starters[r];
      if claim.None? {
        var (table, reserved) := ReserveWith(s.table, s.config.limits, identity, Live, reading);
        CommitFrames(s, r, 0, reading, table, reserved, None);
      } else {
        var (table, error) := Activate(s.table, claim.value.lease, identity, reading);
        CommitFrames(s, r, claim.value.lease, reading, table, Granted(0), error);
      }
    }
  }

  lemma EffectFrame(s: System, k: TaskId, task: Task, sink: Sink)
    ensures LaunchFrame(s, CommitEffect(s, k, task, sink))
  {
  }

  lemma OnTaskFrame(s: System, k: TaskId, e: TaskEvent)
    ensures LaunchFrame(s, DoOnTask(s, k, e))
  {
    if k in s.parties.tasks {
      var (task, sink) := TaskStep(k, s.parties.tasks[k], e, s.config.audited, s.sink);
      EffectFrame(s, k, task, sink);
    }
  }

  lemma LaunchingFrame(s: System, e: StartEvent)
    ensures LaunchFrame(s, StartStep(s, e))
    ensures !e.Register? && !e.Signal? ==> QuietFrame(s, StartStep(s, e))
  {
    match e {
      case TakeLease(r, reading) => TakeLeaseFrame(s, r, reading);
      case Signal(r) =>
        if r in s.parties.starters && s.parties.starters[r].Registered? {
          OnTaskFrame(s, s.parties.starters[r].task, Go);
        }
      case _ =>
    }
  }

  lemma TasksAfterSignal(s: System, r: nat)
    requires TasksInv(s)
    ensures TasksInv(DoSignal(s, r))
  {
    if r in s.parties.starters && s.parties.starters[r].Registered? {
      TasksAfterEffect(s, s.parties.starters[r].task, Go);
    }
  }

  lemma TasksAfterLaunching(s: System, e: StartEvent)
    requires TasksInv(s) && OwnedInv(s)
    ensures TasksInv(StartStep(s, e))
  {
    LaunchingFrame(s, e);
    match e {
      case Register(r) => TasksAfterRegister(s, r);
      case Signal(r) => TasksAfterSignal(s, r);
      case _ =>
    }
  }

  lemma TasksAfterRegistering(s: System, e: RegistryEvent)
    requires TasksInv(s)
    ensures TasksInv(RegistryStep(s, e))
  {
    match e {
      case OnTask(k, effect) => TasksAfterEffect(s, k, effect);
      case SignalClose(k) => TasksAfterEffect(s, k, RequestClose(ManagerShutdown));
      case ReleaseLease(k) => TasksAfterReleaseLease(s, k);
      case CompleteTask(k) => TasksAfterCompleteTask(s, k);
      case _ => assert RegistryStep(s, e).parties.tasks == s.parties.tasks;
    }
  }

  lemma TicketingLeavesTasks(s: System, e: TicketEvent)
    ensures
      var after := TicketStep(s, e);
      after.parties.tasks == s.parties.tasks && after.registry == s.registry && after.sink == s.sink &&
      after.config == s.config
  {
  }

  lemma TasksKept(s: System, e: Event)
    requires TasksInv(s) && OwnedInv(s)
    ensures TasksInv(Step(s, e))
  {
    match e {
      case Ticketing(t) => TicketingLeavesTasks(s, t);
      case Launching(l) => TasksAfterLaunching(s, l);
      case Registering(v) => TasksAfterRegistering(s, v);
      case _ =>
    }
  }

  // ----- shutdown -----

  /** After the exclusive section nothing is admitted, and only Live leases are left to be released. */
  ghost predicate ShutdownInv(s: System) {
    && s.table.closed == s.registry.shuttingDown
    && (s.registry.shuttingDown ==> s.parties.starters == map[])
    && (s.registry.shuttingDown ==> forall id :: id in s.table.leases ==> s.table.leases[id].state.Live?)
    && (s.registry.shutdown.Signalling? || s.registry.drained ==> s.registry.shuttingDown)
    && (s.registry.drained ==> s.registry.active == {})
  }

  lemma ShutdownAfterTicketing(s: System, e: TicketEvent)
    requires ShutdownInv(s)
    ensures ShutdownInv(TicketStep(s, e))
  {
  }

  lemma ShutdownAfterLaunching(s: System, e: StartEvent)
    requires ShutdownInv(s)
    ensures ShutdownInv(StartStep(s, e))
  {
  }

  lemma ShutdownAfterRegistering(s: System, e: RegistryEvent)
    requires ShutdownInv(s)
    ensures ShutdownInv(RegistryStep(s, e))
  {
  }

  lemma ShutdownKept(s: System, e: Event)
    requires ShutdownInv(s)
    ensures ShutdownInv(Step(s, e))
  {
    match e {
      case Ticketing(t) => ShutdownAfterTicketing(s, t);
      case Launching(l) => ShutdownAfterLaunching(s, l);
      case Registering(v) => ShutdownAfterRegistering(s, v);
      case _ =>
    }
  }

  // ----- tokens -----

  function Stored(tickets: Store, t: Token): nat {
    if t in tickets then 1 else 0
  }

  /** A stored ticket accounts for one issue of its token that no redemption has used up. */
  ghost predicate TokensOk(tickets: Store, h: History) {
    && (forall t :: h.redeemed[t] + Stored(tickets, t) <= h.issued[t])
    && (forall t :: t in tickets ==> WellFormed(t))
  }

  lemma TokensIssued(tickets: Store, h: History, entry: Entry, now: int, after: Store, result: Result<Token>,
                     released: set<LeaseId>)
    requires TokensOk(tickets, h) && IssueConserves(tickets, entry, now, after, result, released)
    ensures TokensOk(after, if result.Ok? then h.(issued := h.issued + multiset{result.value}) else h)
  {
    var now' := if result.Ok? then h.(issued := h.issued + multiset{result.value}) else h;
    forall t
      ensures now'.redeemed[t] + Stored(after, t) <= now'.issued[t]
    {
      assert h.redeemed[t] + Stored(tickets, t) <= h.issued[t];
    }
  }

  lemma TokensRedeemed(tickets: Store, h: History, token: Token, after: Store, result: Result<Entry>,
                       released: set<LeaseId>)
    requires TokensOk(tickets, h) && RedeemConserves(tickets, token, after, result, released)
    ensures TokensOk(after, if result.Ok? then h.(redeemed := h.redeemed + multiset{token}) else h)
  {
    var now' := if result.Ok? then h.(redeemed := h.redeemed + multiset{token}) else h;
    forall t
      ensures now'.redeemed[t] + Stored(after, t) <= now'.issued[t]
    {
      assert h.redeemed[t] + Stored(tickets, t) <= h.issued[t];
    }
  }

  lemma TokensAfterIssue(s: System, r: nat, target: string, reading: int, tries: seq<Try>)
    requires TokensOk(s.parties.tickets, s.history)
    ensures
      var after := DoIssue(s, r, target, reading, tries);
      TokensOk(after.parties.tickets, after.history)
  {
    if r in s.parties.requests && ClockRuns(reading, tries) && !s.sink.failed {
      var Claim(identity, deadline, lease) := s.parties.requests[r];
      var entry := Entry(identity, target, deadline, lease);
      var (tickets, result, released) := IssueAt(s.parties.tickets, s.config.ticketCapacity, entry, reading, tries);
      IssueConservesReservations(s.parties.tickets, s.config.ticketCapacity, entry, reading, tries);
      TokensIssued(s.parties.tickets, s.history, entry, reading, tickets, result, released);
    }
  }

  lemma TokensAfterRedeem(s: System, g: nat, token: Token, identity: Identity, reading: int)
    requires TokensOk(s.parties.tickets, s.history)
    ensures
      var after := DoRedeem(s, g, token, identity, reading);
      TokensOk(after.parties.tickets, after.history)
  {
    if g !in s.parties.grants {
      var (tickets, result, released) := Redeem(s.parties.tickets, token, identity, reading);
      RedeemConservesReservations(s.parties.tickets, token, identity, reading);
      TokensRedeemed(s.parties.tickets, s.history, token, tickets, result, released);
    }
  }

  lemma TokensAfterTicketing(s: System, e: TicketEvent)
    requires TokensOk(s.parties.tickets, s.history)
    ensures
      var after := TicketStep(s, e);
      TokensOk(after.parties.tickets, after.history)
  {
    match e {
      case Issue(r, target, reading, tries) => TokensAfterIssue(s, r, target, reading, tries);
      case RedeemTicket(g, token, identity, reading) => TokensAfterRedeem(s, g, token, identity, reading);
      case ClearTickets =>
        forall t
          ensures s.history.redeemed[t] <= s.history.issued[t]
        {
          assert s.history.redeemed[t] + Stored(s.parties.tickets, t) <= s.history.issued[t];
        }
      case _ => assert TicketStep(s, e).parties.tickets == s.parties.tickets;
    }
  }

  lemma RegisteringFrame(s: System, e: RegistryEvent)
    ensures LaunchFrame(s, RegistryStep(s, e))
  {
    match e {
      case OnTask(k, effect) => OnTaskFrame(s, k, effect);
      case SignalClose(k) => OnTaskFrame(s, k, RequestClose(ManagerShutdown));
      case _ =>
    }
  }

  lemma TokensKept(s: System, e: Event)
    requires TokensOk(s.parties.tickets, s.history)
    ensures TokensOk(Step(s, e).parties.tickets, Step(s, e).history)
  {
    match e {
      case Ticketing(t) => TokensAfterTicketing(s, t);
      case Launching(l) => LaunchingFrame(s, l);
      case Registering(v) => RegisteringFrame(s, v);
      case _ =>
    }
  }

  // ----- records -----

  predicate StartIn(tasks: map<TaskId, Task>, k: TaskId) {
    k in tasks && tasks[k].startRecorded
  }

  predicate EndIn(tasks: map<TaskId, Task>, k: TaskId) {
    k in tasks && tasks[k].endRecorded
  }

  function One(b: bool): nat {
    if b then 1 else 0
  }

  /** The sink holds each start and each end exactly as often as its task accounts for, ends last. */
  ghost predicate RecordsOk(records: seq<Record>, tasks: map<TaskId, Task>) {
    && (forall k: TaskId :: multiset(records)[SessionStarted(k)] == One(StartIn(tasks, k)))
    && (forall k: TaskId :: multiset(records)[SessionEnded(k)] == One(EndIn(tasks, k)))
    && (forall j :: 0 <= j < |records| && records[j].SessionEnded? ==> SessionStarted(records[j].task) in records[..j])
  }

  lemma RecordsAppend(records: seq<Record>, record: Record, tasks: map<TaskId, Task>)
    requires forall j :: 0 <= j < |records| && records[j].SessionEnded? ==>
             SessionStarted(records[j].task) in records[..j]
    requires record.SessionEnded? ==> SessionStarted(record.task) in records
    ensures
      var longer := records + [record];
      forall j :: 0 <= j < |longer| && longer[j].SessionEnded? ==> SessionStarted(longer[j].task) in longer[..j]
  {
    var longer := records + [record];
    forall j | 0 <= j < |longer| && longer[j].SessionEnded?
      ensures SessionStarted(longer[j].task) in longer[..j]
    {
      assert longer[..j] == records[..j];
      if j == |records| {
        assert records[..j] == records;
      }
    }
  }

  lemma CountsAppend(records: seq<Record>, record: Record, other: Record)
    ensures multiset(records + [record])[other] == multiset(records)[other] + One(record == other)
  {
    assert multiset(records + [record]) == multiset(records) + multiset{record};
  }

  lemma CountsAfterTask(records: seq<Record>, record: Record, tasks: map<TaskId, Task>, k: TaskId, task: Task,
                        j: TaskId)
    requires k in tasks && Accounted(k, tasks[k], task, records, records + [record])
    requires multiset(records)[SessionStarted(j)] == One(StartIn(tasks, j))
    requires multiset(records)[SessionEnded(j)] == One(EndIn(tasks, j))
    ensures multiset(records + [record])[SessionStarted(j)] == One(StartIn(tasks[k := task], j))
    ensures multiset(records + [record])[SessionEnded(j)] == One(EndIn(tasks[k := task], j))
  {
    CountsAppend(records, record, SessionStarted(j));
    CountsAppend(records, record, SessionEnded(j));
    assert (records + [record])[|records|] == record;
    assert records + [record] == records + [AccessDenied] ==> (records + [AccessDenied])[|records|] == record;
    assert records + [record] == records + [SessionStarted(k)] ==> (records + [SessionStarted(k)])[|records|] == record;
    assert records + [record] == records + [SessionEnded(k)] ==> (records + [SessionEnded(k)])[|records|] == record;
  }

  lemma RecordsAfterTask(records: seq<Record>, now: seq<Record>, tasks: map<TaskId, Task>, k: TaskId, task: Task)
    requires RecordsOk(records, tasks) && k in tasks && Accounted(k, tasks[k], task, records, now)
    ensures RecordsOk(now, tasks[k := task])
  {
    if now == records {
      SameFlagsSameRecords(records, tasks, tasks[k := task]);
    } else {
      var record := now[|records|];
      assert now == records + [record];
      forall j: TaskId
        ensures multiset(now)[SessionStarted(j)] == One(StartIn(tasks[k := task], j))
        ensures multiset(now)[SessionEnded(j)] == One(EndIn(tasks[k := task], j))
      {
        CountsAfterTask(records, record, tasks, k, task, j);
      }
      assert multiset(records)[SessionStarted(k)] == One(StartIn(tasks, k));
      RecordsAppend(records, record, tasks);
    }
  }

  lemma SameFlagsSameRecords(records: seq<Record>, tasks: map<TaskId, Task>, after: map<TaskId, Task>)
    requires RecordsOk(records, tasks)
    requires forall k: TaskId :: StartIn(after, k) == StartIn(tasks, k) && EndIn(after, k) == EndIn(tasks, k)
    ensures RecordsOk(records, after)
  {
  }

  ghost predicate RecordsInv(s: System) {
    RecordsOk(s.sink.records, s.parties.tasks)
  }

  lemma RecordsCommitted(s: System, k: TaskId, task: Task, sink: Sink)
    requires RecordsOk(sink.records, s.parties.tasks[k := task])
    ensures RecordsInv(CommitEffect(s, k, task, sink))
  {
  }

  lemma RecordsAfterEffect(s: System, k: TaskId, e: TaskEvent)
    requires TasksInv(s) && RecordsInv(s)
    ensures RecordsInv(DoOnTask(s, k, e))
  {
    if k in s.parties.tasks {
      var (task, sink) := TaskStep(k, s.parties.tasks[k], e, s.config.audited, s.sink);
      TaskStepIsAccountedFor(k, s.parties.tasks[k], e, s.config.audited, s.sink);
      RecordsAfterTask(s.sink.records, sink.records, s.parties.tasks, k, task);
      RecordsCommitted(s, k, task, sink);
    }
  }

  lemma RecordsAfterRegister(s: System, r: nat)
    requires OwnedInv(s) && RecordsInv(s)
    ensures RecordsInv(DoRegister(s, r))
  {
    SameFlagsSameRecords(s.sink.records, s.parties.tasks, DoRegister(s, r).parties.tasks);
  }

  lemma RecordsAfterSignal(s: System, r: nat)
    requires TasksInv(s) && RecordsInv(s)
    ensures RecordsInv(DoSignal(s, r))
  {
    if r in s.parties.starters && s.parties.starters[r].Registered? {
      RecordsAfterEffect(s, s.parties.starters[r].task, Go);
    }
  }

  lemma RecordsAfterLaunching(s: System, e: StartEvent)
    requires TasksInv(s) && OwnedInv(s) && RecordsInv(s)
    ensures RecordsInv(StartStep(s, e))
  {
    LaunchingFrame(s, e);
    match e {
      case Register(r) => RecordsAfterRegister(s, r);
      case Signal(r) => RecordsAfterSignal(s, r);
      case _ =>
    }
  }

  lemma RecordsAfterPhaseChange(s: System, after: System, k: TaskId)
    requires RecordsInv(s) && after.sink == s.sink && k in s.parties.tasks && k in after.parties.tasks
    requires SameFlags(s.parties.tasks[k], after.parties.tasks[k])
    requires after.parties.tasks == s.parties.tasks[k := after.parties.tasks[k]]
    ensures RecordsInv(after)
  {
    SameFlagsSameRecords(s.sink.records, s.parties.tasks, after.parties.tasks);
  }

  lemma RecordsAfterRelease(s: System, k: TaskId)
    requires RecordsInv(s)
    ensures RecordsInv(DoReleaseLease(s, k)) && RecordsInv(DoCompleteTask(s, k))
  {
    if k in s.parties.tasks {
      RecordsAfterPhaseChange(s, DoReleaseLease(s, k), k);
      RecordsAfterPhaseChange(s, DoCompleteTask(s, k), k);
    }
  }

  lemma RecordsAfterSignalClose(s: System, k: TaskId)
    requires TasksInv(s) && RecordsInv(s)
    ensures RecordsInv(DoSignalClose(s, k))
  {
    RecordsAfterEffect(s, k, RequestClose(ManagerShutdown));
  }

  lemma RecordsAfterRegistering(s: System, e: RegistryEvent)
    requires TasksInv(s) && RecordsInv(s)
    ensures RecordsInv(RegistryStep(s, e))
  {
    match e {
      case OnTask(k, effect) => RecordsAfterEffect(s, k, effect);
      case SignalClose(k) => RecordsAfterSignalClose(s, k);
      case ReleaseLease(k) => RecordsAfterRelease(s, k);
      case CompleteTask(k) => RecordsAfterRelease(s, k);
      case _ =>
    }
  }

  lemma RecordsAfterDenial(records: seq<Record>, tasks: map<TaskId, Task>)
    requires RecordsOk(records, tasks)
    ensures RecordsOk(records + [AccessDenied], tasks)
  {
    RecordsAppend(records, AccessDenied, tasks);
  }

  lemma RecordsKept(s: System, e: Event)
    requires TasksInv(s) && OwnedInv(s) && RecordsInv(s)
    ensures RecordsInv(Step(s, e))
  {
    match e {
      case OtherRecord(_) => RecordsAfterDenial(s.sink.records, s.parties.tasks);
      case Ticketing(t) => TicketingLeavesTasks(s, t);
      case Launching(l) => RecordsAfterLaunching(s, l);
      case Registering(v) => RecordsAfterRegistering(s, v);
      case Tick(_) =>
    }
  }

  // ----- every reachable state -----

  ghost predicate Inv(s: System) {
    && LeasesInv(s)
    && WithinLimits(s.table, s.config.limits)
    && TasksInv(s)
    && ShutdownInv(s)
    && TokensOk(s.parties.tickets, s.history)
    && RecordsInv(s)
  }

  lemma InitInv(config: Config, now: int)
    ensures Inv(Init(config, now))
  {
    var s := Init(config, now);
    assert forall identity :: HeldBy(s.table.leases, identity) == {};
  }

  lemma StepKeepsInv(s: System, e: Event)
    requires Inv(s)
    ensures Inv(Step(s, e))
  {
    ConfigStays(s, e);
    LeasesKept(s, e);
    LimitsKept(s, e);
    TasksKept(s, e);
    ShutdownKept(s, e);
    TokensKept(s, e);
    RecordsKept(s, e);
  }

  lemma ConfigStays(s: System, e: Event)
    ensures Step(s, e).config == s.config
  {
    match e {
      case Ticketing(t) => TicketingLeavesTasks(s, t);
      case Launching(l) => LaunchingFrame(s, l);
      case Registering(v) => RegisteringFrame(s, v);
      case _ =>
    }
  }

  lemma {:induction false} RunKeepsInv(s: System, events: seq<Event>)
    requires Inv(s)
    ensures Inv(Run(s, events)) && Run(s, events).config == s.config
    decreases |events|
  {
    if events != [] {
      StepKeepsInv(s, events[0]);
      ConfigStays(s, events[0]);
      RunKeepsInv(Step(s, events[0]), events[1..]);
    }
  }
}
