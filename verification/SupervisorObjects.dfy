/**
 The objects behind the protocol's registry steps (crates/ttygated/src/session.rs): the
 supervisor registry, whose methods are the corresponding steps of the system, and the state
 machine of one session.
 */
module SupervisorObjects {
  import opened Wrappers
  import opened Capacity
  import opened Supervision
  import opened Manager

  /** What the mutex of the registry guards. */
  class SupervisorRegistry {
    var nextId: TaskId
    var shuttingDown: bool
    var active: set<TaskId>

    ghost predicate Matches(r: Registry)
      reads this
    {
      active == r.active && nextId == r.nextTask && shuttingDown == r.shuttingDown
    }

    constructor ()
      ensures forall config, now :: Matches(Init(config, now).registry)
    {
      nextId, shuttingDown, active := 0, false, {};
    }

    /** The task is in the registry before its start signal can be sent. */
    method Register(ghost s: System, ghost starter: nat) returns (id: TaskId)
      requires Matches(s.registry) && starter in s.parties.starters && s.parties.starters[starter].ChildSpawned?
      modifies this
      ensures Matches(DoRegister(s, starter).registry) && id in DoRegister(s, starter).parties.tasks
      ensures DoRegister(s, starter).parties.starters[starter] == Registered(id)
    {
      id := nextId;
      nextId := nextId + 1;
      active := active + {id};
    }

    /** Dropping the completion of a task whose lease is already gone. */
    method DropCompletion(id: TaskId, ghost s: System)
      requires Matches(s.registry) && id in s.parties.tasks && s.parties.tasks[id].phase.Released?
      modifies this`active
      ensures Matches(DoCompleteTask(s, id).registry)
    {
      active := active - {id};
    }

    /** The exclusive section of `shutdown`; the result is whom to tell. */
    method CloseAdmission(capacity: CapacityTable, ghost s: System) returns (toldToClose: set<TaskId>)
      requires Matches(s.registry) && capacity.View() == s.table
      requires s.registry.shutdown.Requested? && s.parties.starters == map[]
      modifies this, capacity
      ensures Matches(DoCloseAdmission(s).registry) && capacity.View() == DoCloseAdmission(s).table
      ensures DoCloseAdmission(s).registry.shutdown == Signalling(toldToClose)
    {
      shuttingDown := true;
      capacity.ClosePendingLeases();
      toldToClose := active;
    }

    /** What the waiting loop of `shutdown` looks at. */
    method IsEmpty(ghost s: System) returns (empty: bool)
      requires Matches(s.registry) && s.registry.shutdown == Signalling({})
      ensures empty <==> DoReturnFromShutdown(s).registry.shutdown.Idle?
    {
      empty := active == {};
    }
  }

  // ----- the state machine of a session -----

  datatype SessionState = Created | Running | ClosedState

  datatype Machine = Machine(state: SessionState, terminal: Option<CloseReason>)

  const NEW := Machine(Created, None)

  function StartMachine(m: Machine): (Machine, bool) {
    if m.state != Created then (m, false) else (m.(state := Running), true)
  }

  /** The reason that is reported: that of the first close, however often it is asked for. */
  function CloseMachine(m: Machine, reason: CloseReason): (Machine, Option<CloseReason>) {
    if m.terminal.Some? then (m, m.terminal)
    else if m.state != Running then (m, None)
    else (Machine(ClosedState, Some(reason)), Some(reason))
  }

  class StateMachine {
    var state: SessionState
    var terminal: Option<CloseReason>

    function View(): Machine
      reads this
    {
      Machine(state, terminal)
    }

    constructor ()
      ensures View() == NEW
    {
      state, terminal := Created, None;
    }

    method Start() returns (ok: bool)
      modifies this
      ensures (View(), ok) == StartMachine(old(View()))
    {
      if state != Created {
        return false;
      }
      state := Running;
      return true;
    }

    method Close(reason: CloseReason) returns (closed: Option<CloseReason>)
      modifies this
      ensures (View(), closed) == CloseMachine(old(View()), reason)
    {
      if terminal.Some? {
        return terminal;
      }
      if state != Running {
        return None;
      }
      state := ClosedState;
      terminal := Some(reason);
      return terminal;
    }
  }

  datatype MachineCall = StartCall | CloseCall(reason: CloseReason)

  function After(m: Machine, calls: seq<MachineCall>): Machine
    decreases |calls|
  {
    if calls == [] then m
    else
      After(match calls[0]
            case StartCall => StartMachine(m).0
            case CloseCall(reason) => CloseMachine(m, reason).0, calls[1..])
  }

  /** A session closes at most once: every later close reports the reason of the first. */
  lemma {:induction false} ClosedForGood(m: Machine, calls: seq<MachineCall>, reason: CloseReason)
    requires m.state == Running && m.terminal.None?
    ensures var closed := CloseMachine(m, reason).0;
            After(closed, calls) == closed &&
            forall again :: CloseMachine(After(closed, calls), again).1 == Some(reason)
    decreases |calls|
  {
    var closed := CloseMachine(m, reason).0;
    if calls != [] {
      ClosedForGood(m, calls[1..], reason);
    }
  }

  predicate HasStarted(m: Machine) {
    m.state != Created && (m.state == Running || m.terminal.Some?)
  }

  /** A close succeeds exactly when some start came before it. */
  lemma {:induction false} ClosesExactlyAfterAStart(calls: seq<MachineCall>, reason: CloseReason)
    ensures CloseMachine(After(NEW, calls), reason).1.Some? <==> StartCall in calls
  {
    AfterNew(calls);
  }

  /** A session starts at most once. */
  lemma {:induction false} StartsOnce(calls: seq<MachineCall>)
    ensures StartMachine(After(NEW, calls)).1 <==> StartCall !in calls
    ensures StartMachine(After(NEW, calls)).1 ==> StartMachine(After(NEW, calls)).0 == Machine(Running, None)
  {
    AfterNew(calls);
  }

  lemma {:induction false} AfterNew(calls: seq<MachineCall>)
    ensures if StartCall in calls then HasStarted(After(NEW, calls)) else After(NEW, calls) == NEW
    decreases |calls|
  {
    if calls != [] {
      if calls[0] == StartCall {
        AfterStart(Machine(Running, None), calls[1..]);
      } else {
        AfterNew(calls[1..]);
      }
    }
  }

  lemma {:induction false} AfterStart(m: Machine, calls: seq<MachineCall>)
    requires m == Machine(Running, None)
    ensures HasStarted(After(m, calls))
    decreases |calls|
  {
    if calls != [] {
      match calls[0] {
        case StartCall => AfterStart(m, calls[1..]);
        case CloseCall(reason) => ClosedForGood(m, calls[1..], reason);
      }
    }
  }
}
