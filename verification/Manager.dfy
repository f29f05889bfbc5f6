/**
 The admission and supervision protocol as one step system (crates/ttygated/src/session.rs with
 its callers in server.rs and websocket.rs, and ticket.rs and audit.rs behind them).

 `Step` performs one atomic effect of one concurrent party; an event that is not enabled changes
 nothing, so a run is any sequence of events.  One clock, never running backwards, serves the
 ticket store and the capacity table; `now` is the latest reading so far.  A reading under the
 lock of the capacity table is no older than that, one made before a lock may be.  Every member
 of `starters` holds the admission lock for reading; the exclusive section of `shutdown` waits
 until there is none.
 */
module Manager {
  import opened Wrappers
  import opened Capacity
  import opened Tickets
  import opened PtyBackend
  import opened Supervision
  import Audit

  /** Where a reservation object can sit. */
  datatype Owner =
    | RequestOwner(request: nat)
    | TicketOwner(token: Token)
    | GrantOwner(grant: nat)
    | StarterOwner(starter: nat)
    | TaskOwner(task: TaskId)

  type Index = map<LeaseId, Owner>

  /** A pending reservation in the hands of `create_session` or of a redeemed ticket's connection. */
  datatype Claim = Claim(identity: Identity, deadline: int, lease: LeaseId)

  /** A call that holds the admission lock for reading and has seen that no shutdown is under way. */
  datatype Starter =
    | Reserving(identity: Identity, deadline: int)
    | Starting(identity: Identity, claim: Option<Claim>)
    | Activated(lease: LeaseId)
    | ChildSpawned(lease: LeaseId)
    | Registered(task: TaskId)

  datatype Parties = Parties(
    requests: map<nat, Claim>,
    tickets: Store,
    grants: map<nat, Claim>,
    starters: map<nat, Starter>,
    tasks: map<TaskId, Task>)

  datatype ShutdownPhase = Idle | Requested | Signalling(pending: set<TaskId>)

  datatype Registry = Registry(
    active: set<TaskId>,
    nextTask: TaskId,
    shuttingDown: bool,
    shutdown: ShutdownPhase,
    drained: bool)

  datatype Config = Config(limits: Limits, ticketCapacity: nat, audited: bool)

  /** How often each token was returned by an issue and accepted by a redemption. */
  datatype History = History(issued: multiset<Token>, redeemed: multiset<Token>)

  datatype System = System(
    config: Config,
    now: int,
    table: Table,
    parties: Parties,
    index: Index,
    registry: Registry,
    sink: Sink,
    history: History)

  function Init(config: Config, now: int): System {
    System(config, now, EMPTY, Parties(map[], map[], map[], map[], map[]), map[],
           Registry({}, 0, false, Idle, false), Audit.Sink([], false), History(multiset{}, multiset{}))
  }

  datatype TicketEvent =
    | AdmitReserve(starter: nat, identity: Identity, deadline: int)
    | FinishReserve(starter: nat, early: int, reading: int)
    | Issue(request: nat, target: string, reading: int, tries: seq<Try>)
    | DropRequest(request: nat)
    | RedeemTicket(grant: nat, token: Token, identity: Identity, reading: int)
    | DropGrant(grant: nat)
    | ClearTickets

  datatype StartEvent =
    | AdmitStart(starter: nat, identity: Identity)
    | AdmitReservedStart(starter: nat, grant: nat, identity: Identity)
    | TakeLease(starter: nat, reading: int)
    | FailStart(starter: nat)
    | SpawnChild(starter: nat)
    | Register(starter: nat)
    | Signal(starter: nat)

  datatype RegistryEvent =
    | OnTask(task: TaskId, effect: TaskEvent)
    | ReleaseLease(task: TaskId)
    | CompleteTask(task: TaskId)
    | BeginShutdown
    | CloseAdmission
    | SignalClose(task: TaskId)
    | ReturnFromShutdown

  datatype Event =
    | Tick(reading: int)
    | OtherRecord(outcome: Audit.Outcome)
    | Ticketing(ticketing: TicketEvent)
    | Launching(launching: StartEvent)
    | Registering(registering: RegistryEvent)

  // ----- the parties -----

  function StarterLease(starter: Starter): Option<LeaseId> {
    match starter
    case Starting(_, Some(claim)) => Some(claim.lease)
    case Activated(lease) => Some(lease)
    case ChildSpawned(lease) => Some(lease)
    case _ => None
  }

  function DropRequestOf(p: Parties, r: nat): Parties {
    p.(requests := p.requests - {r})
  }

  function DropGrantOf(p: Parties, g: nat): Parties {
    p.(grants := p.grants - {g})
  }

  function DropStarter(p: Parties, r: nat): Parties {
    p.(starters := p.starters - {r})
  }

  function PutStarter(p: Parties, r: nat, starter: Starter): Parties {
    p.(starters := p.starters[r := starter])
  }

  function PutTask(p: Parties, k: TaskId, task: Task): Parties {
    p.(tasks := p.tasks[k := task])
  }

  // ----- effects -----

  function DoAdmitReserve(s: System, r: nat, identity: Identity, deadline: int): System {
    if r in s.parties.starters || s.registry.shuttingDown then s
    else s.(parties := PutStarter(s.parties, r, Reserving(identity, deadline)))
  }

  /** What a call stores once the capacity table has answered. */
  function CommitReserve(s: System, r: nat, identity: Identity, deadline: int, reading: int, table: Table,
                         reserved: Reserved): System
  {
    var left := DropStarter(s.parties, r);
    if reserved.Denied? then s.(now := reading, table := table, parties := left)
    else
      s.(now := reading, table := table,
         parties := left.(requests := left.requests[r := Claim(identity, deadline, reserved.id)]),
         index := s.index[reserved.id := RequestOwner(r)])
  }

  function DoFinishReserve(s: System, r: nat, early: int, reading: int): System {
    if r !in s.parties.starters || !s.parties.starters[r].Reserving? || r in s.parties.requests
       || reading < s.now || reading < early then s
    else
      var Reserving(identity, deadline) := s.parties.starters[r];
      var (table, reserved) := ReservePending(s.table, s.config.limits, identity, deadline, early, reading);
      CommitReserve(s, r, identity, deadline, reading, table, reserved)
  }

  function Latest(now: int, reading: int): int {
    if now < reading then reading else now
  }

  /** The loop draws four times at most, on a clock that never runs backwards. */
  predicate ClockRuns(now: int, tries: seq<Try>) {
    && |tries| == GENERATION_TRIES
    && (forall i :: 0 <= i < |tries| ==> now <= tries[i].now)
    && (forall i :: 0 <= i < |tries| && tries[i].token.Some? ==> WellFormed(tries[i].token.value))
  }

  function CommitIssue(s: System, r: nat, lease: LeaseId, reading: int, tickets: Store, result: Result<Token>,
                       released: set<LeaseId>): System
  {
    s.(now := Latest(s.now, reading),
       table := Release(s.table, released),
       parties := DropRequestOf(s.parties, r).(tickets := tickets),
       index := if result.Ok? then (s.index - released)[lease := TicketOwner(result.value)] else s.index - released,
       history := if result.Ok? then s.history.(issued := s.history.issued + multiset{result.value}) else s.history)
  }

  /**
   The authority guard is held around the whole of `issue_at`, so the sink cannot fail inside it;
   `reading` was made before the entries were locked, so other calls may be ahead of it.
   */
  function DoIssue(s: System, r: nat, target: string, reading: int, tries: seq<Try>): System {
    if r !in s.parties.requests || !ClockRuns(reading, tries) then s
    else if s.sink.failed then DoDropRequest(s, r)
    else
      var Claim(identity, deadline, lease) := s.parties.requests[r];
      var (tickets, result, released) :=
        IssueAt(s.parties.tickets, s.config.ticketCapacity, Entry(identity, target, deadline, lease), reading, tries);
      CommitIssue(s, r, lease, reading, tickets, result, released)
  }

  function DoDropRequest(s: System, r: nat): System {
    if r !in s.parties.requests then s
    else
      var lease := s.parties.requests[r].lease;
      s.(table := Release(s.table, {lease}), parties := DropRequestOf(s.parties, r), index := s.index - {lease})
  }

  function CommitRedeem(s: System, g: nat, token: Token, reading: int, tickets: Store, result: Result<Entry>,
                        released: set<LeaseId>): System
  {
    var left := s.parties.(tickets := tickets);
    if result.Err? then
      s.(now := Latest(s.now, reading), table := Release(s.table, released),
         parties := left, index := s.index - released)
    else
      var Entry(holder, _, deadline, lease) := result.value;
      s.(now := Latest(s.now, reading),
         parties := left.(grants := left.grants[g := Claim(holder, deadline, lease)]),
         index := s.index[lease := GrantOwner(g)],
         history := s.history.(redeemed := s.history.redeemed + multiset{token}))
  }

  /** Here too the reading is older than the lock. */
  function DoRedeem(s: System, g: nat, token: Token, identity: Identity, reading: int): System {
    if g in s.parties.grants then s
    else
      var (tickets, result, released) := Redeem(s.parties.tickets, token, identity, reading);
      CommitRedeem(s, g, token, reading, tickets, result, released)
  }

  function DoDropGrant(s: System, g: nat): System {
    if g !in s.parties.grants then s
    else
      var lease := s.parties.grants[g].lease;
      s.(table := Release(s.table, {lease}), parties := DropGrantOf(s.parties, g), index := s.index - {lease})
  }

  function DoClearTickets(s: System): System {
    var released := Dropped(s.parties.tickets, map[]);
    s.(table := Release(s.table, released), parties := s.parties.(tickets := map[]), index := s.index - released)
  }

  function DoAdmitStart(s: System, r: nat, identity: Identity): System {
    if r in s.parties.starters || s.registry.shuttingDown then s
    else s.(parties := PutStarter(s.parties, r, Starting(identity, None)))
  }

  function DoAdmitReservedStart(s: System, r: nat, g: nat, identity: Identity): System {
    if r in s.parties.starters || g !in s.parties.grants then s
    else if s.registry.shuttingDown then DoDropGrant(s, g)
    else
      var claim := s.parties.grants[g];
      s.(parties := PutStarter(DropGrantOf(s.parties, g), r, Starting(identity, Some(claim))),
         index := s.index[claim.lease := StarterOwner(r)])
  }

  function CommitLive(s: System, r: nat, reading: int, table: Table, reserved: Reserved): System {
    if reserved.Denied? then s.(now := reading, table := table, parties := DropStarter(s.parties, r))
    else
      s.(now := reading, table := table,
         parties := PutStarter(s.parties, r, Activated(reserved.id)),
         index := s.index[reserved.id := StarterOwner(r)])
  }

  function CommitActivation(s: System, r: nat, lease: LeaseId, reading: int, table: Table,
                            error: Option<SessionError>): System
  {
    if error.Some? then
      s.(now := reading, table := table, parties := DropStarter(s.parties, r), index := s.index - {lease})
    else s.(now := reading, table := table, parties := PutStarter(s.parties, r, Activated(lease)))
  }

  /** `Capacity::reserve` for a plain start, activation of the reservation for a reserved one. */
  function DoTakeLease(s: System, r: nat, reading: int): System {
    if r !in s.parties.starters || !s.parties.starters[r].Starting? || reading < s.now then s
    else
      var Starting(identity, claim) := s.parties.starters[r];
      if claim.None? then
        var (table, reserved) := ReserveWith(s.table, s.config.limits, identity, Live, reading);
        CommitLive(s, r, reading, table, reserved)
      else
        var (table, error) := Activate(s.table, claim.value.lease, identity, reading);
        CommitActivation(s, r, claim.value.lease, reading, table, error)
  }

  /** A start that fails between admission and spawning drops what it holds. */
  function DoFailStart(s: System, r: nat): System {
    if r !in s.parties.starters || !(s.parties.starters[r].Starting? || s.parties.starters[r].Activated?) then s
    else
      var lease := StarterLease(s.parties.starters[r]);
      var ids := if lease.Some? then {lease.value} else {};
      s.(table := Release(s.table, ids), parties := DropStarter(s.parties, r), index := s.index - ids)
  }

  function DoSpawnChild(s: System, r: nat): System {
    if r !in s.parties.starters || !s.parties.starters[r].Activated? then s
    else s.(parties := PutStarter(s.parties, r, ChildSpawned(s.parties.starters[r].lease)))
  }

  function DoRegister(s: System, r: nat): System {
    if r !in s.parties.starters || !s.parties.starters[r].ChildSpawned? then s
    else
      var k, lease := s.registry.nextTask, s.parties.starters[r].lease;
      s.(parties := PutTask(PutStarter(s.parties, r, Registered(k)), k, Spawned(lease, SPAWNED)),
         registry := s.registry.(active := s.registry.active + {k}, nextTask := k + 1),
         index := s.index[lease := TaskOwner(k)])
  }

  function CommitEffect(s: System, k: TaskId, task: Task, sink: Sink): System {
    s.(parties := PutTask(s.parties, k, task), sink := sink)
  }

  function DoOnTask(s: System, k: TaskId, e: TaskEvent): System {
    if k !in s.parties.tasks then s
    else
      var (task, sink) := TaskStep(k, s.parties.tasks[k], e, s.config.audited, s.sink);
      CommitEffect(s, k, task, sink)
  }

  /** The start signal is sent and only then is the admission lock released. */
  function DoSignal(s: System, r: nat): System {
    if r !in s.parties.starters || !s.parties.starters[r].Registered? then s
    else
      var signalled := DoOnTask(s, s.parties.starters[r].task, Go);
      signalled.(parties := DropStarter(signalled.parties, r))
  }

  function DoReleaseLease(s: System, k: TaskId): System {
    if k !in s.parties.tasks || !s.parties.tasks[k].phase.Releasing? then s
    else
      var task := s.parties.tasks[k];
      s.(table := Release(s.table, {task.lease}),
         parties := PutTask(s.parties, k, task.(phase := Released)),
         index := s.index - {task.lease})
  }

  function DoCompleteTask(s: System, k: TaskId): System {
    if k !in s.parties.tasks || !s.parties.tasks[k].phase.Released? then s
    else
      s.(parties := PutTask(s.parties, k, s.parties.tasks[k].(phase := Finished)),
         registry := s.registry.(active := s.registry.active - {k}))
  }

  function DoBeginShutdown(s: System): System {
    if s.registry.shutdown.Idle? then s.(registry := s.registry.(shutdown := Requested)) else s
  }

  /** The exclusive section: no new admission, no pending lease, and the tasks to be told. */
  function DoCloseAdmission(s: System): System {
    if !s.registry.shutdown.Requested? || s.parties.starters != map[] then s
    else
      s.(table := ClosePending(s.table),
         registry := s.registry.(shuttingDown := true, shutdown := Signalling(s.registry.active)))
  }

  function DoSignalClose(s: System, k: TaskId): System {
    if !s.registry.shutdown.Signalling? then s
    else
      DoOnTask(s, k, RequestClose(ManagerShutdown))
        .(registry := s.registry.(shutdown := Signalling(s.registry.shutdown.pending - {k})))
  }

  function DoReturnFromShutdown(s: System): System {
    if s.registry.shutdown == Signalling({}) && s.registry.active == {} then
      s.(registry := s.registry.(shutdown := Idle, drained := true))
    else s
  }

  function TicketStep(s: System, e: TicketEvent): System {
    match e
    case AdmitReserve(r, identity, deadline) => DoAdmitReserve(s, r, identity, deadline)
    case FinishReserve(r, early, reading) => DoFinishReserve(s, r, early, reading)
    case Issue(r, target, reading, tries) => DoIssue(s, r, target, reading, tries)
    case DropRequest(r) => DoDropRequest(s, r)
    case RedeemTicket(g, token, identity, reading) => DoRedeem(s, g, token, identity, reading)
    case DropGrant(g) => DoDropGrant(s, g)
    case ClearTickets => DoClearTickets(s)
  }

  function StartStep(s: System, e: StartEvent): System {
    match e
    case AdmitStart(r, identity) => DoAdmitStart(s, r, identity)
    case AdmitReservedStart(r, g, identity) => DoAdmitReservedStart(s, r, g, identity)
    case TakeLease(r, reading) => DoTakeLease(s, r, reading)
    case FailStart(r) => DoFailStart(s, r)
    case SpawnChild(r) => DoSpawnChild(s, r)
    case Register(r) => DoRegister(s, r)
    case Signal(r) => DoSignal(s, r)
  }

  function RegistryStep(s: System, e: RegistryEvent): System {
    match e
    case OnTask(k, effect) => if effect.Go? then s else DoOnTask(s, k, effect)
    case ReleaseLease(k) => DoReleaseLease(s, k)
    case CompleteTask(k) => DoCompleteTask(s, k)
    case BeginShutdown => DoBeginShutdown(s)
    case CloseAdmission => DoCloseAdmission(s)
    case SignalClose(k) => DoSignalClose(s, k)
    case ReturnFromShutdown => DoReturnFromShutdown(s)
  }

  function Step(s: System, e: Event): System {
    match e
    case Tick(reading) => if s.now <= reading then s.(now := reading) else s
    case OtherRecord(outcome) => s.(sink := Audit.Append(s.sink, AccessDenied, outcome).0)
    case Ticketing(t) => TicketStep(s, t)
    case Launching(l) => StartStep(s, l)
    case Registering(r) => RegistryStep(s, r)
  }

  function Run(s: System, events: seq<Event>): System
    decreases |events|
  {
    if events == [] then s else Run(Step(s, events[0]), events[1..])
  }
}
