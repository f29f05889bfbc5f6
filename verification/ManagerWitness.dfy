/** A run that uses the one exception to "a lease outlives its child". */
module ManagerWitness {
  import opened Wrappers
  import opened Capacity
  import opened PtyBackend
  import opened Supervision
  import opened Manager
  import opened ManagerTheorems

  /** A start, up to a supervisor that waits for its child to connect. */
  function Begun(start: int, identity: Identity): seq<Event> {
    [Launching(AdmitStart(0, identity))] + [Launching(TakeLease(0, start))] + [Launching(SpawnChild(0))]
    + [Launching(Register(0))] + [Launching(Signal(0))]
  }

  /** The supervisor unwinds while connecting, and again while it recovers. */
  function TwiceUnwound(start: int, identity: Identity): seq<Event> {
    Begun(start, identity)
    + [Registering(OnTask(0, Unwind))] + [Registering(OnTask(0, Unwind))] + [Registering(ReleaseLease(0))]
  }

  lemma {:induction false} RunNext(s: System, events: seq<Event>, e: Event)
    ensures Run(s, events + [e]) == Step(Run(s, events), e)
    decreases |events|
  {
    if events == [] {
      assert [] + [e] == [e] && [e][1..] == [];
    } else {
      assert (events + [e])[1..] == events[1..] + [e];
      RunNext(Step(s, events[0]), events[1..], e);
    }
  }

  lemma TakesALiveLease(s: System, identity: Identity)
    requires s.parties.starters == map[0 := Starting(identity, None)] && s.table == EMPTY
    requires s.config.limits.maxSessions > 0 && s.config.limits.maxPerIdentity > 0
    ensures
      var after := Step(s, Launching(TakeLease(0, s.now)));
      && after.parties == s.parties.(starters := map[0 := Activated(0)])
      && after.table.leases == map[0 := Lease(identity, Live)] && after.registry == s.registry
  {
    assert Purge(s.table.leases, s.now) == map[];
    assert HeldBy(map[], identity) == {};
  }

  lemma Registers(s: System, lease: LeaseId)
    requires s.parties.starters == map[0 := Activated(lease)] && s.parties.tasks == map[] && s.registry.nextTask == 0
    ensures
      var after := Step(Step(s, Launching(SpawnChild(0))), Launching(Register(0)));
      && after.parties.starters == map[0 := Registered(0)] && after.table == s.table
      && after.parties.tasks == map[0 := Spawned(lease, SPAWNED)]
  {
  }

  lemma Connects(s: System, task: Task)
    requires s.parties.starters == map[0 := Registered(0)] && s.parties.tasks == map[0 := task] && task.phase.Waiting?
    ensures
      var after := Step(s, Launching(Signal(0)));
      after.table == s.table && after.parties.tasks == map[0 := task.(phase := Connecting)]
  {
  }

  lemma Unwinds(s: System, task: Task)
    requires s.parties.tasks == map[0 := task] && task.phase == Connecting
    ensures
      var after := Step(s, Registering(OnTask(0, Unwind)));
      after.table == s.table && after.parties.tasks == map[0 := task.(phase := Cleaning(Recover(false)))]
  {
  }

  lemma Abandons(s: System, task: Task)
    requires s.parties.tasks == map[0 := task] && task.phase == Cleaning(Recover(false))
    ensures
      var after := Step(s, Registering(OnTask(0, Unwind)));
      after.table == s.table && after.parties.tasks == map[0 := Abandon(task)]
  {
  }

  lemma Releases(s: System, task: Task)
    requires s.parties.tasks == map[0 := task] && task.phase == Releasing
    requires s.table.leases.Keys == {task.lease}
    ensures
      var after := Step(s, Registering(ReleaseLease(0)));
      after.table.leases == map[] && after.parties.tasks == map[0 := task.(phase := Released)]
  {
  }

  lemma BeginsConnecting(config: Config, start: int, identity: Identity)
    requires config.limits.maxSessions > 0 && config.limits.maxPerIdentity > 0
    ensures
      var s := Reached(config, start, Begun(start, identity));
      && s.parties.tasks == map[0 := Spawned(0, SPAWNED).(phase := Connecting)]
      && s.table.leases == map[0 := Lease(identity, Live)]
  {
    var s0 := Init(config, start);
    var e1 := [Launching(AdmitStart(0, identity))];
    var e2 := e1 + [Launching(TakeLease(0, start))];
    var e3 := e2 + [Launching(SpawnChild(0))];
    var e4 := e3 + [Launching(Register(0))];
    RunNext(s0, [], Launching(AdmitStart(0, identity)));
    assert [] + e1 == e1;
    RunNext(s0, e1, Launching(TakeLease(0, start)));
    RunNext(s0, e2, Launching(SpawnChild(0)));
    RunNext(s0, e3, Launching(Register(0)));
    RunNext(s0, e4, Launching(Signal(0)));
    TakesALiveLease(Run(s0, e1), identity);
    Registers(Run(s0, e2), 0);
    Connects(Run(s0, e4), Spawned(0, SPAWNED));
  }

  /** The lease goes while nothing is known about the child. */
  lemma LeaseCanLeaveUnproven(config: Config, start: int, identity: Identity)
    requires config.limits.maxSessions > 0 && config.limits.maxPerIdentity > 0
    ensures
      var s := Reached(config, start, TwiceUnwound(start, identity));
      && s.table.leases == map[] && 0 in s.parties.tasks
      && s.parties.tasks[0].child == SPAWNED && !ProvenAbsent(SPAWNED)
  {
    var s0 := Init(config, start);
    var e5 := Begun(start, identity);
    var e6 := e5 + [Registering(OnTask(0, Unwind))];
    var e7 := e6 + [Registering(OnTask(0, Unwind))];
    var connecting := Spawned(0, SPAWNED).(phase := Connecting);
    var recovering := connecting.(phase := Cleaning(Recover(false)));
    BeginsConnecting(config, start, identity);
    RunNext(s0, e5, Registering(OnTask(0, Unwind)));
    RunNext(s0, e6, Registering(OnTask(0, Unwind)));
    RunNext(s0, e7, Registering(ReleaseLease(0)));
    Unwinds(Run(s0, e5), connecting);
    Abandons(Run(s0, e6), recovering);
    Releases(Run(s0, e7), Abandon(recovering));
  }
}
