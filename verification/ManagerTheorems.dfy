/** What every run of the manager guarantees, for all configurations and all event sequences. */
module ManagerTheorems {
  import opened Wrappers
  import opened Capacity
  import opened Tickets
  import opened PtyBackend
  import opened Supervision
  import opened Manager
  import opened ManagerOwnership
  import opened ManagerLeases
  import opened ManagerSafety
  import Audit

  function Reached(config: Config, start: int, events: seq<Event>): System {
    Run(Init(config, start), events)
  }

  lemma ReachedInv(config: Config, start: int, events: seq<Event>)
    ensures Inv(Reached(config, start, events)) && Reached(config, start, events).config == config
  {
    InitInv(config, start);
    RunKeepsInv(Init(config, start), events);
  }

  // ----- leases and children -----

  /** The unwind of a recovery that is at work for task `k`, with or without its child proven gone. */
  predicate RecoveryUnwound(s: System, e: Event, k: TaskId, unproven: bool) {
    && e == Registering(OnTask(k, Unwind)) && k in s.parties.tasks && InRecovery(s.parties.tasks[k].phase)
    && (unproven ==> !ProvenAbsent(s.parties.tasks[k].child))
  }

  /** Such an unwind happens somewhere in the run. */
  predicate UnwoundIn(s: System, events: seq<Event>, k: TaskId, unproven: bool)
    decreases |events|
  {
    events != [] &&
    (RecoveryUnwound(s, events[0], k, unproven) || UnwoundIn(Step(s, events[0]), events[1..], k, unproven))
  }

  predicate GivenUp(t: Task, unproven: bool) {
    if unproven then Unproven(t) else t.abandoned
  }

  predicate AbandonedIn(s: System, k: TaskId, unproven: bool) {
    k in s.parties.tasks && GivenUp(s.parties.tasks[k], unproven)
  }

  lemma TaskAbandons(k: TaskId, t: Task, e: TaskEvent, audited: bool, sink: Sink, unproven: bool)
    requires TaskInv(t, audited)
    ensures
      GivenUp(TaskStep(k, t, e, audited, sink).0, unproven)
      <==> GivenUp(t, unproven) || (e.Unwind? && InRecovery(t.phase) && (unproven ==> !ProvenAbsent(t.child)))
  {
    AbandonedExactly(k, t, e, audited, sink);
    UnprovenExactly(k, t, e, audited, sink);
  }

  lemma EffectAbandons(s: System, k: TaskId, j: TaskId, e: TaskEvent, unproven: bool)
    requires TasksInv(s)
    ensures
      AbandonedIn(DoOnTask(s, j, e), k, unproven)
      <==> AbandonedIn(s, k, unproven) || RecoveryUnwound(s, Registering(OnTask(j, e)), k, unproven)
  {
    if j in s.parties.tasks {
      var (task, sink) := TaskStep(j, s.parties.tasks[j], e, s.config.audited, s.sink);
      assert DoOnTask(s, j, e).parties.tasks == s.parties.tasks[j := task];
      TaskAbandons(j, s.parties.tasks[j], e, s.config.audited, s.sink, unproven);
    }
  }

  lemma LaunchingAbandonsNothing(s: System, e: StartEvent, k: TaskId, unproven: bool)
    requires TasksInv(s) && OwnedInv(s)
    ensures AbandonedIn(StartStep(s, e), k, unproven) <==> AbandonedIn(s, k, unproven)
  {
    LaunchingFrame(s, e);
    match e {
      case Register(r) =>
      case Signal(r) =>
        if r in s.parties.starters && s.parties.starters[r].Registered? {
          EffectAbandons(s, k, s.parties.starters[r].task, Go, unproven);
        }
      case _ =>
    }
  }

  lemma RegisteringAbandons(s: System, e: RegistryEvent, k: TaskId, unproven: bool)
    requires TasksInv(s)
    ensures
      AbandonedIn(RegistryStep(s, e), k, unproven)
      <==> AbandonedIn(s, k, unproven) || RecoveryUnwound(s, Registering(e), k, unproven)
  {
    match e {
      case OnTask(j, effect) => EffectAbandons(s, k, j, effect, unproven);
      case SignalClose(j) => EffectAbandons(s, k, j, RequestClose(ManagerShutdown), unproven);
      case _ =>
    }
  }

  lemma StepAbandons(s: System, e: Event, k: TaskId, unproven: bool)
    requires Inv(s)
    ensures AbandonedIn(Step(s, e), k, unproven) <==> AbandonedIn(s, k, unproven) || RecoveryUnwound(s, e, k, unproven)
  {
    match e {
      case Ticketing(t) => TicketingLeavesTasks(s, t);
      case Launching(l) => LaunchingAbandonsNothing(s, l, k, unproven);
      case Registering(r) => RegisteringAbandons(s, r, k, unproven);
      case _ =>
    }
  }

  lemma {:induction false} RunAbandons(s: System, events: seq<Event>, k: TaskId, unproven: bool)
    requires Inv(s)
    ensures AbandonedIn(Run(s, events), k, unproven) <==>
            AbandonedIn(s, k, unproven) || UnwoundIn(s, events, k, unproven)
    decreases |events|
  {
    if events != [] {
      StepKeepsInv(s, events[0]);
      StepAbandons(s, events[0], k, unproven);
      RunAbandons(Step(s, events[0]), events[1..], k, unproven);
    }
  }

  /**
   A task comes to its end without a proof that its child is gone exactly when the recovery code
   itself unwinds before it has that proof.
   */
  lemma EndsUnprovenExactly(config: Config, start: int, events: seq<Event>, k: TaskId)
    requires k in Reached(config, start, events).parties.tasks
    ensures
      Unproven(Reached(config, start, events).parties.tasks[k]) <==> UnwoundIn(Init(config, start), events, k, true)
  {
    InitInv(config, start);
    RunAbandons(Init(config, start), events, k, true);
  }

  /**
   A spawned child keeps its lease in the table until `terminate` has returned Ok for it: in every
   reachable state a task's lease is there and Live, or its child was reaped and then probed absent,
   or the recovery code itself unwound before that.
   */
  lemma LeaseOutlivesChild(config: Config, start: int, events: seq<Event>, k: TaskId)
    requires k in Reached(config, start, events).parties.tasks
    ensures
      var s := Reached(config, start, events);
      || LiveAt(s.table, s.parties.tasks[k].lease)
      || ProvenAbsent(s.parties.tasks[k].child)
      || UnwoundIn(Init(config, start), events, k, true)
  {
    var s := Reached(config, start, events);
    ReachedInv(config, start, events);
    EndsUnprovenExactly(config, start, events, k);
    if HoldsLease(s.parties.tasks[k].phase) {
      OnlyLease(s.parties, s.index, TaskOwner(k), s.parties.tasks[k].lease);
    }
  }

  /** Between spawning and registration the child is covered by the starting call's Live lease. */
  lemma UnregisteredChildHasLease(config: Config, start: int, events: seq<Event>, r: nat)
    requires r in Reached(config, start, events).parties.starters
    requires Reached(config, start, events).parties.starters[r].ChildSpawned?
    ensures
      var s := Reached(config, start, events);
      LiveAt(s.table, s.parties.starters[r].lease)
  {
    var s := Reached(config, start, events);
    ReachedInv(config, start, events);
    OnlyLease(s.parties, s.index, StarterOwner(r), s.parties.starters[r].lease);
  }

  /** A caller waiting for the close of its session is answered only after the cleanup is proven. */
  lemma ClosedSessionIsCleanedUp(config: Config, start: int, events: seq<Event>, k: TaskId)
    requires k in Reached(config, start, events).parties.tasks
    ensures
      var task := Reached(config, start, events).parties.tasks[k];
      task.final.Some? ==> ProvenAbsent(task.child)
  {
    ReachedInv(config, start, events);
  }

  // ----- shutdown -----

  lemma {:induction false} DrainedForever(s: System, events: seq<Event>)
    requires Inv(s) && s.registry.drained
    ensures Inv(Run(s, events)) && Run(s, events).registry.drained
    decreases |events|
  {
    if events != [] {
      StepKeepsInv(s, events[0]);
      DrainedStays(s, events[0]);
      DrainedForever(Step(s, events[0]), events[1..]);
    }
  }

  lemma DrainedStays(s: System, e: Event)
    ensures s.registry.drained ==> Step(s, e).registry.drained
  {
    match e {
      case Ticketing(t) => TicketingLeavesTasks(s, t);
      case _ =>
    }
  }

  /** While shutting down, every lease still in the table belongs to a registered supervisor. */
  lemma LeftoverLeaseIsSupervised(s: System, id: LeaseId)
    requires Inv(s) && s.registry.shuttingDown && id in s.table.leases
    ensures id in s.index && s.index[id].TaskOwner? && s.index[id].task in s.registry.active
  {
    assert LeaseOf(s.parties, s.index[id]) == Some(id);
    assert LiveAt(s.table, id);
  }

  lemma DrainedIsEmpty(s: System)
    requires Inv(s) && s.registry.drained
    ensures s.registry.active == {} && s.table.leases == map[]
  {
    forall id | id in s.table.leases
      ensures id in s.index && s.index[id].TaskOwner? && s.index[id].task in s.registry.active
    {
      LeftoverLeaseIsSupervised(s, id);
    }
    assert s.table.leases.Keys == {};
  }

  /**
   Once some `shutdown` has returned, no supervisor is active and the lease table is empty, and no
   interleaving of calls that began before or begin later makes either non-empty again.
   */
  lemma ShutdownIsFinal(config: Config, start: int, before: seq<Event>, later: seq<Event>)
    requires Reached(config, start, before).registry.drained
    ensures
      var s := Run(Reached(config, start, before), later);
      s.registry.active == {} && s.table.leases == map[] && s.parties.starters == map[]
  {
    ReachedInv(config, start, before);
    DrainedForever(Reached(config, start, before), later);
    DrainedIsEmpty(Run(Reached(config, start, before), later));
  }

  // ----- ownership and limits -----

  /** Every lease in the table is held by exactly one party, and both limits hold. */
  lemma OneOwnerWithinLimits(config: Config, start: int, events: seq<Event>)
    ensures
      var s := Reached(config, start, events);
      && (forall id :: id in s.table.leases ==> exists o :: LeaseOf(s.parties, o) == Some(id))
      && (forall o, other :: LeaseOf(s.parties, o).Some? && LeaseOf(s.parties, o) == LeaseOf(s.parties, other) ==>
           o == other)
      && |s.table.leases| <= config.limits.maxSessions
      && (forall identity :: |HeldBy(s.table.leases, identity)| <= config.limits.maxPerIdentity)
  {
    var s := Reached(config, start, events);
    ReachedInv(config, start, events);
    forall id | id in s.table.leases
      ensures exists o :: LeaseOf(s.parties, o) == Some(id)
    {
      assert LeaseOf(s.parties, s.index[id]) == Some(id);
    }
    forall o, other | LeaseOf(s.parties, o).Some? && LeaseOf(s.parties, o) == LeaseOf(s.parties, other)
      ensures o == other
    {
      SameOwner(s.parties, s.index, o, other);
    }
  }

  /** Dropping one party's reservation, purged or not, never frees a lease another party holds. */
  lemma DropFreesOnlyItsOwn(config: Config, start: int, events: seq<Event>, o: Owner, other: Owner, mine: LeaseId,
                            theirs: LeaseId)
    requires
      var s := Reached(config, start, events);
      LeaseOf(s.parties, o) == Some(mine) && LeaseOf(s.parties, other) == Some(theirs) && o != other
    ensures
      var s := Reached(config, start, events);
      var dropped := Release(s.table, {mine});
      && (theirs in dropped.leases <==> theirs in s.table.leases)
      && (theirs in s.table.leases ==> dropped.leases[theirs] == s.table.leases[theirs])
  {
    var s := Reached(config, start, events);
    ReachedInv(config, start, events);
    OnlyLease(s.parties, s.index, o, mine);
    OnlyLease(s.parties, s.index, other, theirs);
  }

  // ----- tickets -----

  /**
   While the manager is open, a ticket is redeemed by its identity on every reading before its
   deadline, however old, and it is backed until some party has read its deadline.
   */
  lemma UnexpiredTicketRedeems(config: Config, start: int, events: seq<Event>, token: Token, reading: int)
    requires
      var s := Reached(config, start, events);
      && token in s.parties.tickets && !s.registry.shuttingDown
      && reading < s.parties.tickets[token].expiresAt
    ensures
      var s := Reached(config, start, events);
      var entry := s.parties.tickets[token];
      && Redeem(s.parties.tickets, token, entry.identity, reading).1 == Ok(entry)
      && (s.now < entry.expiresAt ==>
            && entry.lease in s.table.leases
            && s.table.leases[entry.lease] == Lease(entry.identity, Pending(entry.expiresAt)))
  {
    var s := Reached(config, start, events);
    ReachedInv(config, start, events);
    assert ClaimOf(s.parties, TicketOwner(token)).Some?;
  }

  /** A redeemed grant keeps that backing for as long as its deadline lies ahead. */
  lemma UnexpiredGrantIsBacked(config: Config, start: int, events: seq<Event>, g: nat)
    requires
      var s := Reached(config, start, events);
      g in s.parties.grants && !s.registry.shuttingDown && s.now < s.parties.grants[g].deadline
    ensures
      var s := Reached(config, start, events);
      var claim := s.parties.grants[g];
      && claim.lease in s.table.leases
      && s.table.leases[claim.lease] == Lease(claim.identity, Pending(claim.deadline))
  {
    var s := Reached(config, start, events);
    ReachedInv(config, start, events);
    assert ClaimOf(s.parties, GrantOwner(g)).Some?;
  }

  lemma ClaimActivates(t: Table, now: int, claim: Claim, reading: int)
    requires Backed(t, now, claim) && !t.closed && now <= reading
    ensures
      var (after, error) := Activate(t, claim.lease, claim.identity, reading);
      if reading < claim.deadline then error.None? && LiveAt(after, claim.lease)
      else error.Some? && claim.lease !in after.leases
  {
  }

  lemma ClaimOfStarter(s: System, r: nat, claim: Claim)
    requires Inv(s) && r in s.parties.starters && s.parties.starters[r] == Starting(claim.identity, Some(claim))
    ensures Backed(s.table, s.now, claim) && !s.table.closed
  {
    assert ClaimOf(s.parties, StarterOwner(r)) == Some(claim);
  }

  lemma ClaimTakesLease(s: System, r: nat, claim: Claim, reading: int)
    requires r in s.parties.starters && s.parties.starters[r] == Starting(claim.identity, Some(claim))
    requires Backed(s.table, s.now, claim) && !s.table.closed && s.now <= reading
    ensures
      var after := DoTakeLease(s, r, reading);
      if reading < claim.deadline then
        && r in after.parties.starters && after.parties.starters[r] == Activated(claim.lease)
        && LiveAt(after.table, claim.lease)
      else r !in after.parties.starters && claim.lease !in after.table.leases
  {
    ClaimActivates(s.table, s.now, claim, reading);
  }

  /**
   A start that was admitted with a claim of its own identity gets its lease exactly before the
   deadline, whatever else ran in between and however old the reading was that redeemed its ticket;
   from the deadline on it is refused and its lease is gone.
   */
  lemma ActivationSucceeds(config: Config, start: int, events: seq<Event>, r: nat, claim: Claim, reading: int)
    requires
      var s := Reached(config, start, events);
      && r in s.parties.starters && s.parties.starters[r] == Starting(claim.identity, Some(claim))
      && s.now <= reading
    ensures
      var s := Reached(config, start, events);
      var after := Step(s, Launching(TakeLease(r, reading)));
      if reading < claim.deadline then
        && r in after.parties.starters && after.parties.starters[r] == Activated(claim.lease)
        && LiveAt(after.table, claim.lease)
      else r !in after.parties.starters && claim.lease !in after.table.leases
  {
    var s := Reached(config, start, events);
    ReachedInv(config, start, events);
    ClaimOfStarter(s, r, claim);
    ClaimTakesLease(s, r, claim, reading);
  }

  /**
   A lease is Live exactly while its holder is past activation: the clock can advance as far as it
   likes, and only the starting call or the task that holds the lease makes it go.
   */
  lemma ActivatedLeaseNeverExpires(config: Config, start: int, events: seq<Event>, o: Owner, id: LeaseId)
    requires LeaseOf(Reached(config, start, events).parties, o) == Some(id)
    ensures
      var s := Reached(config, start, events);
      LiveAt(s.table, id) <==> HoldsLive(s.parties, o)
  {
    var s := Reached(config, start, events);
    ReachedInv(config, start, events);
    OnlyLease(s.parties, s.index, o, id);
  }

  /** Of a token's redemptions, no more succeed than issues returned it. */
  lemma RedemptionsNeverExceedIssues(config: Config, start: int, events: seq<Event>, token: Token)
    ensures
      var s := Reached(config, start, events);
      s.history.redeemed[token] <= s.history.issued[token]
  {
    var s := Reached(config, start, events);
    ReachedInv(config, start, events);
    assert s.history.redeemed[token] + Stored(s.parties.tickets, token) <= s.history.issued[token];
  }

  // ----- the audit record -----

  function Times(s: System, record: Record): nat {
    multiset(s.sink.records)[record]
  }

  /** At most one start and one end per session, and no end without an earlier start. */
  lemma RecordsArePaired(config: Config, start: int, events: seq<Event>, k: TaskId)
    ensures
      var s := Reached(config, start, events);
      && Times(s, SessionStarted(k)) <= 1 && Times(s, SessionEnded(k)) <= 1
      && (forall j :: 0 <= j < |s.sink.records| && s.sink.records[j] == SessionEnded(k) ==>
            SessionStarted(k) in s.sink.records[..j])
  {
    var s := Reached(config, start, events);
    ReachedInv(config, start, events);
    assert Times(s, SessionStarted(k)) == One(StartIn(s.parties.tasks, k));
    assert Times(s, SessionEnded(k)) == One(EndIn(s.parties.tasks, k));
  }

  /** A session reaches its caller only after its start is persisted, and a caller hears once. */
  lemma DeliveredSessionIsRecorded(config: Config, start: int, events: seq<Event>, k: TaskId)
    requires k in Reached(config, start, events).parties.tasks
    ensures
      var s := Reached(config, start, events);
      && |s.parties.tasks[k].results| <= 1
      && (SessionDelivered in s.parties.tasks[k].results && config.audited ==> SessionStarted(k) in s.sink.records)
  {
    var s := Reached(config, start, events);
    ReachedInv(config, start, events);
    assert Times(s, SessionStarted(k)) == One(StartIn(s.parties.tasks, k));
  }

  predicate HealthyEvent(e: Event) {
    match e
    case OtherRecord(outcome) => outcome.Persisted?
    case Registering(OnTask(_, effect)) => Healthy(effect)
    case _ => true
  }

  ghost predicate EndsOk(s: System) {
    !s.sink.failed && forall k :: k in s.parties.tasks ==> EndsAccountedFor(s.parties.tasks[k])
  }

  lemma EndsAfterEffect(s: System, k: TaskId, e: TaskEvent)
    requires TasksInv(s) && EndsOk(s) && Healthy(e)
    ensures EndsOk(DoOnTask(s, k, e))
  {
    if k in s.parties.tasks {
      var (task, sink) := TaskStep(k, s.parties.tasks[k], e, s.config.audited, s.sink);
      assert DoOnTask(s, k, e).parties.tasks == s.parties.tasks[k := task] && DoOnTask(s, k, e).sink == sink;
      HealthyStepRecordsEnd(k, s.parties.tasks[k], e, s.config.audited, s.sink);
    }
  }

  lemma EndsAfterLaunching(s: System, e: StartEvent)
    requires TasksInv(s) && EndsOk(s)
    ensures EndsOk(StartStep(s, e))
  {
    LaunchingFrame(s, e);
    match e {
      case Register(r) =>
      case Signal(r) =>
        if r in s.parties.starters && s.parties.starters[r].Registered? {
          EndsAfterEffect(s, s.parties.starters[r].task, Go);
        }
      case _ =>
    }
  }

  lemma EndsAfterStep(s: System, e: Event)
    requires TasksInv(s) && EndsOk(s) && HealthyEvent(e)
    ensures EndsOk(Step(s, e))
  {
    match e {
      case Ticketing(t) => TicketingLeavesTasks(s, t);
      case Launching(l) => EndsAfterLaunching(s, l);
      case Registering(OnTask(k, effect)) => EndsAfterEffect(s, k, effect);
      case Registering(SignalClose(k)) => EndsAfterEffect(s, k, RequestClose(ManagerShutdown));
      case _ =>
    }
  }

  lemma {:induction false} EndsAfterRun(s: System, events: seq<Event>)
    requires Inv(s) && EndsOk(s)
    requires forall i :: 0 <= i < |events| ==> HealthyEvent(events[i])
    ensures EndsOk(Run(s, events))
    decreases |events|
  {
    if events != [] {
      StepKeepsInv(s, events[0]);
      EndsAfterStep(s, events[0]);
      EndsAfterRun(Step(s, events[0]), events[1..]);
    }
  }

  /**
   If sink, clock and id generator stay healthy, every started session whose task is over has
   exactly one end record, whichever way it ended and wherever it unwound, unless the recovery
   code itself unwound: then it has none.
   */
  lemma HealthyRunsRecordEveryEnd(config: Config, start: int, events: seq<Event>, k: TaskId)
    requires forall i :: 0 <= i < |events| ==> HealthyEvent(events[i])
    requires k in Reached(config, start, events).parties.tasks
    ensures
      var s := Reached(config, start, events);
      Over(s.parties.tasks[k].phase) ==>
        Times(s, SessionEnded(k))
        == if UnwoundIn(Init(config, start), events, k, false) then 0 else Times(s, SessionStarted(k))
  {
    var s := Reached(config, start, events);
    InitInv(config, start);
    RunAbandons(Init(config, start), events, k, false);
    EndsAfterRun(Init(config, start), events);
    ReachedInv(config, start, events);
    assert Times(s, SessionStarted(k)) == One(StartIn(s.parties.tasks, k));
    assert Times(s, SessionEnded(k)) == One(EndIn(s.parties.tasks, k));
  }

  // ----- after the sink fails -----

  lemma FailedSinkStep(s: System, e: Event)
    requires TasksInv(s) && s.sink.failed
    ensures Step(s, e).sink == s.sink
    ensures forall t :: t in Step(s, e).parties.tickets ==>
              t in s.parties.tickets && Step(s, e).parties.tickets[t] == s.parties.tickets[t]
  {
    match e {
      case Ticketing(t) => FailedSinkTicketing(s, t);
      case Launching(l) => FailedSinkLaunching(s, l);
      case Registering(v) => FailedSinkRegistering(s, v);
      case _ =>
    }
  }

  lemma FailedSinkTicketing(s: System, e: TicketEvent)
    requires s.sink.failed
    ensures TicketStep(s, e).sink == s.sink
    ensures forall t :: t in TicketStep(s, e).parties.tickets ==>
              t in s.parties.tickets && TicketStep(s, e).parties.tickets[t] == s.parties.tickets[t]
  {
  }

  lemma FailedSinkEffect(s: System, k: TaskId, e: TaskEvent)
    requires TasksInv(s) && s.sink.failed
    ensures DoOnTask(s, k, e).sink == s.sink
  {
    if k in s.parties.tasks {
      TaskStepIsAccountedFor(k, s.parties.tasks[k], e, s.config.audited, s.sink);
    }
  }

  lemma FailedSinkLaunching(s: System, e: StartEvent)
    requires TasksInv(s) && s.sink.failed
    ensures StartStep(s, e).sink == s.sink && StartStep(s, e).parties.tickets == s.parties.tickets
  {
    LaunchingFrame(s, e);
    if e.Signal? && e.starter in s.parties.starters && s.parties.starters[e.starter].Registered? {
      FailedSinkEffect(s, s.parties.starters[e.starter].task, Go);
    }
  }

  lemma FailedSinkRegistering(s: System, e: RegistryEvent)
    requires TasksInv(s) && s.sink.failed
    ensures RegistryStep(s, e).sink == s.sink && RegistryStep(s, e).parties.tickets == s.parties.tickets
  {
    RegisteringFrame(s, e);
    match e {
      case OnTask(k, effect) => FailedSinkEffect(s, k, effect);
      case SignalClose(k) => FailedSinkEffect(s, k, RequestClose(ManagerShutdown));
      case _ =>
    }
  }

  /** After the first failed append nothing is appended, and no ticket is ever inserted. */
  lemma {:induction false} NoTicketAfterSinkFailure(s: System, events: seq<Event>)
    requires Inv(s) && s.sink.failed
    ensures Run(s, events).sink == s.sink
    ensures forall t :: t in Run(s, events).parties.tickets ==>
              t in s.parties.tickets && Run(s, events).parties.tickets[t] == s.parties.tickets[t]
    decreases |events|
  {
    if events != [] {
      StepKeepsInv(s, events[0]);
      FailedSinkStep(s, events[0]);
      NoTicketAfterSinkFailure(Step(s, events[0]), events[1..]);
    }
  }
}
