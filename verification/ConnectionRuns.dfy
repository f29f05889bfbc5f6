/** What superseded callbacks and the exit status come to over whole runs of the controller. */
module ConnectionRuns {
  import opened Wrappers
  import opened Connection
  import ControlCodec

  // ----- superseded callbacks -----

  /** The generation an event's callback was made in, if it has one. */
  function MadeIn(w: World, event: Event): Option<nat> {
    match event
    case ReplyArrives(index, _) =>
      if index < |w.awaited| && !w.awaited[index].Settled? then Some(w.awaited[index].generation) else None
    case SocketOpens(id) => if id < |w.sockets| then Some(w.sockets[id].generation) else None
    case SocketReceives(id, _) => if id < |w.sockets| then Some(w.sockets[id].generation) else None
    case SocketFails(id, _) => if id < |w.sockets| then Some(w.sockets[id].generation) else None
    case UserTypes(id, _, _) => if id < |w.sockets| then Some(w.sockets[id].generation) else None
    case OutputDrains(id, _) => if id < |w.sockets| then Some(w.sockets[id].generation) else None
    case TimerFires(index) => if index < |w.timers| then Some(w.timers[index].generation) else None
    case _ => None
  }

  predicate Superseded(w: World, event: Event) {
    MadeIn(w, event).Some? && MadeIn(w, event).value != w.generation
  }

  /** The run without the callbacks that were superseded when they came. */
  function Pruned(w: World, events: seq<Event>): seq<Event>
    decreases |events|
  {
    if events == [] then []
    else (if Superseded(w, events[0]) then [] else [events[0]]) + Pruned(Step(w, events[0]), events[1..])
  }

  /** All that a socket has been told; whether it is open matters only in its own generation. */
  predicate AlikeSocket(s: Socket, t: Socket, generation: nat) {
    && t.generation == s.generation && t.ticket == s.ticket && t.target == s.target
    && t.sent == s.sent && t.closes == s.closes && (s.generation == generation ==> t.ready == s.ready)
  }

  predicate AlikeTimer(s: Timer, t: Timer, generation: nat) {
    t.generation == s.generation && t.target == s.target && (s.generation == generation ==> t.live == s.live)
  }

  predicate AlikeReply(a: Awaited, b: Awaited, generation: nat) {
    Waiting(a, generation) || Waiting(b, generation) ==> a == b
  }

  ghost predicate AlikePorts(w: World, v: World, generation: nat) {
    && |v.sockets| == |w.sockets| && |v.timers| == |w.timers| && |v.awaited| == |w.awaited|
    && (forall i :: 0 <= i < |w.sockets| ==> AlikeSocket(w.sockets[i], v.sockets[i], generation))
    && (forall i :: 0 <= i < |w.timers| ==> AlikeTimer(w.timers[i], v.timers[i], generation))
    && (forall i :: 0 <= i < |w.awaited| ==> AlikeReply(w.awaited[i], v.awaited[i], generation))
  }

  predicate AlikeController(w: World, v: World) {
    && v.generation == w.generation && v.targets == w.targets && v.snapshot == w.snapshot
    && v.socket == w.socket && v.timer == w.timer && v.activated == w.activated && v.exitStatus == w.exitStatus
  }

  /** Two worlds that differ only in the ports of superseded generations. */
  ghost predicate Alike(w: World, v: World) {
    AlikeController(w, v) && AlikePorts(w, v, w.generation)
  }

  lemma SupersededStepIsAlike(w: World, v: World, event: Event)
    requires Inv(w) && Alike(w, v) && Superseded(w, event)
    ensures Alike(Step(w, event), v)
  {
    if SocketEvent(event) {
      SupersededSocketIsAlike(w, v, event);
    }
  }

  lemma SupersededSocketIsAlike(w: World, v: World, event: Event)
    requires SocketsInv(w) && Alike(w, v) && Superseded(w, event) && SocketEvent(event)
    ensures Alike(Step(w, event), v)
  {
  }

  /** Giving up a connection does the same to its socket on both sides. */
  lemma DiscardedAlike(w: World, v: World, orderly: bool)
    requires SocketsInv(w) && SocketsInv(v) && AlikeController(w, v) && |v.sockets| == |w.sockets|
    requires forall i :: 0 <= i < |w.sockets| ==> AlikeSocket(w.sockets[i], v.sockets[i], w.generation)
    ensures
      var w', v' := Replace(w, orderly), Replace(v, orderly);
      && |v'.sockets| == |w'.sockets|
      && forall i :: 0 <= i < |w'.sockets| ==> AlikeSocket(w'.sockets[i], v'.sockets[i], w'.generation)
  {
  }

  /** A new generation has no ports yet, so nothing distinguishes the old ones. */
  lemma ReplacedAlike(w: World, v: World, orderly: bool)
    requires SocketsInv(w) && TimersInv(w) && AwaitedInv(w) && SocketsInv(v) && TimersInv(v) && AwaitedInv(v)
    requires Alike(w, v)
    ensures Alike(Replace(w, orderly), Replace(v, orderly))
  {
    DiscardedAlike(w, v, orderly);
  }

  lemma FinishedAlike(w: World, v: World, phase: Phase, target: Option<Target>)
    requires SocketsInv(w) && TimersInv(w) && AwaitedInv(w) && SocketsInv(v) && TimersInv(v) && AwaitedInv(v)
    requires Alike(w, v)
    ensures Alike(Finish(w, phase, target), Finish(v, phase, target))
  {
    ReplacedAlike(w, v, false);
  }

  lemma AwaitingAlike(w: World, v: World, reply: Awaited)
    requires Alike(w, v)
    ensures Alike(Await(w, reply), Await(v, reply))
  {
  }

  lemma ShownAlike(w: World, v: World, phase: Phase, active: Option<Target>, exitStatus: Option<ExitStatus>)
    requires Alike(w, v)
    ensures Alike(Show(w, phase, active, exitStatus), Show(v, phase, active, exitStatus))
  {
  }

  lemma StartAlike(w: World, v: World)
    requires Inv(w) && Inv(v) && Alike(w, v)
    ensures Alike(StartCall(w), StartCall(v))
  {
    ReplacedAlike(w, v, false);
    var w', v' := Replace(w, false), Replace(v, false);
    var snapshot := Snapshot(EstablishingIdentity, [], None, None);
    AwaitingAlike(w'.(snapshot := snapshot), v'.(snapshot := snapshot), Identity(w'.generation));
  }

  /** Setting the deadline timer of a new request. */
  lemma ArmedAlike(w: World, v: World, timer: Timer)
    requires Alike(w, v)
    ensures
      Alike(w.(timer := Some(|w.timers|), timers := w.timers + [timer]),
            v.(timer := Some(|v.timers|), timers := v.timers + [timer]))
  {
  }

  lemma ConnectAlike(w: World, v: World, name: string)
    requires Inv(w) && Inv(v) && Alike(w, v)
    ensures Alike(ConnectCall(w, name), ConnectCall(v, name))
  {
    var configured := Find(w.targets, name);
    var w', v' := Replace(w, true), Replace(v, true);
    ReplacedAlike(w, v, true);
    ShownAlike(w', v', Denied, None, None);
    if configured.Some? {
      ShownAlike(w', v', RequestingAuthorization, configured, None);
      var w2 := Show(w', RequestingAuthorization, configured, None);
      var v2 := Show(v', RequestingAuthorization, configured, None);
      var timer := Timer(w'.generation, configured.value, true);
      ReplaceKeepsTimers(w, true);
      ReplaceKeepsTimers(v, true);
      ArmedAlike(w2, v2, timer);
      AwaitingAlike(w2.(timer := Some(|w2.timers|), timers := w2.timers + [timer]),
                    v2.(timer := Some(|v2.timers|), timers := v2.timers + [timer]),
                    Grant(w'.generation, configured.value));
    }
  }

  lemma ReplaceKeepsTimers(w: World, orderly: bool)
    ensures |Replace(w, orderly).timers| == |w.timers|
  {
  }

  lemma CloseAlike(w: World, v: World)
    requires Inv(w) && Inv(v) && Alike(w, v)
    ensures Alike(CloseCall(w), CloseCall(v))
  {
    ReplacedAlike(w, v, true);
    ShownAlike(Replace(w, true), Replace(v, true), UserClosed, w.snapshot.active, None);
  }

  lemma SettledAlike(w: World, v: World, index: nat)
    requires Alike(w, v) && index < |w.awaited|
    ensures Alike(w.(awaited := w.awaited[index := Settled]), v.(awaited := v.awaited[index := Settled]))
  {
  }

  /** A settled reply is no longer waited for, so forgetting it in one world only shows nothing. */
  lemma SettledOnceAlike(w: World, v: World, index: nat)
    requires Alike(w, v) && index < |w.awaited| && !Waiting(w.awaited[index], w.generation)
    ensures Alike(w, v.(awaited := v.awaited[index := Settled]))
  {
  }

  lemma AttachedAlike(w: World, v: World, s: Socket)
    requires Alike(w, v)
    ensures
      Alike(w.(socket := Some(|w.sockets|), sockets := w.sockets + [s]),
            v.(socket := Some(|v.sockets|), sockets := v.sockets + [s]))
  {
  }

  lemma IdentityAlike(w: World, v: World, index: nat, reply: Reply)
    requires Inv(w) && Inv(v) && Alike(w, v) && index < |w.awaited| && w.awaited[index] == Identity(w.generation)
    ensures Alike(Replied(w, index, reply), Replied(v, index, reply))
  {
    SettledQuiets(w, index);
    SettledQuiets(v, index);
    SettledAlike(w, v, index);
    var w', v' := w.(awaited := w.awaited[index := Settled]), v.(awaited := v.awaited[index := Settled]);
    AwaitingAlike(w', v', Targets(w.generation));
    FinishedAlike(w', v', if reply.Failed? then reply.phase else InternalError, None);
  }

  lemma TargetsAlike(w: World, v: World, index: nat, reply: Reply)
    requires Inv(w) && Inv(v) && Alike(w, v) && index < |w.awaited| && w.awaited[index] == Targets(w.generation)
    ensures Alike(Replied(w, index, reply), Replied(v, index, reply))
  {
    SettledQuiets(w, index);
    SettledQuiets(v, index);
    SettledAlike(w, v, index);
    var w', v' := w.(awaited := w.awaited[index := Settled]), v.(awaited := v.awaited[index := Settled]);
    FinishedAlike(w', v', if reply.Failed? then reply.phase else InternalError, None);
  }

  lemma GrantAlike(w: World, v: World, index: nat, reply: Reply)
    requires Inv(w) && Inv(v) && Alike(w, v) && index < |w.awaited|
    requires w.awaited[index].Grant? && w.awaited[index].generation == w.generation
    ensures Alike(Replied(w, index, reply), Replied(v, index, reply))
  {
    SettledQuiets(w, index);
    SettledQuiets(v, index);
    SettledAlike(w, v, index);
    var w', v' := w.(awaited := w.awaited[index := Settled]), v.(awaited := v.awaited[index := Settled]);
    var configured := Some(w.awaited[index].configured);
    if !reply.GrantOk? {
      FinishedAlike(w', v', if reply.Failed? then reply.phase else InternalError, configured);
    } else if reply.target.name != configured.value.name {
      FinishedAlike(w', v', InternalError, configured);
    } else if reply.socketFails {
      FinishedAlike(w', v', InternalError, Some(reply.target));
    } else {
      AttachedAlike(w', v', Socket(Opening, w.generation, reply.ticket, reply.target, [], 0));
    }
  }

  lemma ReplyAlike(w: World, v: World, index: nat, reply: Reply)
    requires Inv(w) && Inv(v) && Alike(w, v) && index < |w.awaited|
    requires !Superseded(w, ReplyArrives(index, reply))
    ensures Alike(Replied(w, index, reply), Replied(v, index, reply))
  {
    match w.awaited[index] {
      case Identity(_) => IdentityAlike(w, v, index, reply);
      case Targets(_) => TargetsAlike(w, v, index, reply);
      case Grant(_, _) => GrantAlike(w, v, index, reply);
      case Settled =>
        SettledOnceAlike(w, v, index);
        assert !Waiting(v.awaited[index], v.generation);
    }
  }

  // The events of a socket of the current generation.

  predicate Current(w: World, id: nat) {
    id < |w.sockets| && w.sockets[id].generation == w.generation
  }

  lemma ClearedAlike(w: World, v: World)
    requires TimersInv(w) && TimersInv(v) && Alike(w, v)
    ensures Alike(ClearTimer(w), ClearTimer(v))
  {
  }

  lemma SentAlike(w: World, v: World, id: nat, message: Message)
    requires Alike(w, v) && id < |w.sockets|
    ensures Alike(SendOn(w, id, message), SendOn(v, id, message))
  {
  }

  lemma ReadyAlike(w: World, v: World, id: nat, ready: ReadyState)
    requires Alike(w, v) && id < |w.sockets|
    ensures
      Alike(w.(sockets := w.sockets[id := w.sockets[id].(ready := ready)]),
            v.(sockets := v.sockets[id := v.sockets[id].(ready := ready)]))
  {
  }

  lemma OpenedAlike(w: World, v: World, id: nat)
    requires Inv(w) && Inv(v) && Alike(w, v) && Current(w, id)
    ensures Alike(Opened(w, id), Opened(v, id))
  {
    var w1 := w.(sockets := w.sockets[id := w.sockets[id].(ready := Open)]);
    var v1 := v.(sockets := v.sockets[id := v.sockets[id].(ready := Open)]);
    ReadyAlike(w, v, id, Open);
    ClearedAlike(w1, v1);
    var w2, v2 := ClearTimer(w1), ClearTimer(v1);
    var ticket := Ticket(w.sockets[id].ticket);
    GreetedAlike(w2, v2, id, ticket);
    var w3, v3 := Greeted(w2, id, ticket), Greeted(v2, id, ticket);
    ShownAlike(w3.(activated := true), v3.(activated := true), Active, Some(w.sockets[id].target), None);
  }

  /** What a socket is told when it opens. */
  function Greeted(w: World, id: nat, ticket: Message): World
    requires id < |w.sockets|
  {
    SendOn(SendOn(w, id, ticket), id, ResizeMessage)
  }

  lemma GreetedAlike(w: World, v: World, id: nat, ticket: Message)
    requires Alike(w, v) && id < |w.sockets|
    ensures Alike(Greeted(w, id, ticket), Greeted(v, id, ticket))
  {
    SentAlike(w, v, id, ticket);
    SentAlike(SendOn(w, id, ticket), SendOn(v, id, ticket), id, ResizeMessage);
  }

  lemma StatusAlike(w: World, v: World, status: ExitStatus)
    requires Alike(w, v)
    ensures
      Alike(w.(exitStatus := Some(status), snapshot := w.snapshot.(exitStatus := Some(status))),
            v.(exitStatus := Some(status), snapshot := v.snapshot.(exitStatus := Some(status))))
  {
  }

  lemma ExitAlike(w: World, v: World, id: nat, status: ExitStatus)
    requires Inv(w) && Inv(v) && Alike(w, v) && Current(w, id)
    ensures Alike(Received(w, id, ExitData(status)), Received(v, id, ExitData(status)))
  {
    StatusAlike(w, v, status);
  }

  lemma ErrorAlike(w: World, v: World, id: nat, code: string)
    requires Inv(w) && Inv(v) && Alike(w, v) && Current(w, id)
    ensures Alike(Received(w, id, ErrorData(code)), Received(v, id, ErrorData(code)))
  {
    FinishedAlike(w, v, ErrorPhase(code), Some(w.sockets[id].target));
  }

  lemma ClosureAlike(w: World, v: World, id: nat, reason: ControlCodec.CloseReason)
    requires Inv(w) && Inv(v) && Alike(w, v) && Current(w, id)
    ensures Alike(Received(w, id, CloseData(reason)), Received(v, id, CloseData(reason)))
  {
    FinishedAlike(w, v, ClosePhase(reason), Some(w.sockets[id].target));
  }

  lemma OutputAlike(w: World, v: World, id: nat, overflows: bool)
    requires Inv(w) && Inv(v) && Alike(w, v) && Current(w, id)
    ensures Alike(Received(w, id, OutputData(overflows)), Received(v, id, OutputData(overflows)))
  {
    FinishedAlike(w, v, InternalError, Some(w.sockets[id].target));
  }

  lemma MalformedAlike(w: World, v: World, id: nat)
    requires Inv(w) && Inv(v) && Alike(w, v) && Current(w, id)
    ensures Alike(Received(w, id, Malformed), Received(v, id, Malformed))
  {
    FinishedAlike(w, v, ProtocolError, Some(w.sockets[id].target));
  }

  lemma ReceivedAlike(w: World, v: World, id: nat, data: Data)
    requires Inv(w) && Inv(v) && Alike(w, v) && Current(w, id)
    ensures Alike(Received(w, id, data), Received(v, id, data))
  {
    match data {
      case ExitData(status) => ExitAlike(w, v, id, status);
      case ErrorData(code) => ErrorAlike(w, v, id, code);
      case CloseData(reason) => ClosureAlike(w, v, id, reason);
      case OutputData(overflows) => OutputAlike(w, v, id, overflows);
      case Malformed => MalformedAlike(w, v, id);
    }
  }

  lemma ClosedKeepsInv(w: World, id: nat)
    requires SocketsInv(w) && TimersInv(w) && AwaitedInv(w) && id < |w.sockets|
    requires w.sockets[id].ready == Open ==> w.sockets[id].sent != []
    ensures
      var closed := w.(sockets := w.sockets[id := w.sockets[id].(ready := Closed)]);
      SocketsInv(closed) && TimersInv(closed) && AwaitedInv(closed)
  {
  }

  lemma DrainedAlike(w: World, v: World, id: nat)
    requires Inv(w) && Inv(v) && Alike(w, v) && Current(w, id)
    ensures Alike(OutputFailed(w, id), OutputFailed(v, id))
  {
    FinishedAlike(w, v, InternalError, Some(w.sockets[id].target));
  }

  lemma LostAlike(w: World, v: World, id: nat, closed: bool)
    requires Inv(w) && Inv(v) && Alike(w, v) && Current(w, id)
    ensures Alike(Lost(w, id, closed), Lost(v, id, closed))
  {
    var w' := if closed then w.(sockets := w.sockets[id := w.sockets[id].(ready := Closed)]) else w;
    var v' := if closed then v.(sockets := v.sockets[id := v.sockets[id].(ready := Closed)]) else v;
    ReadyAlike(w, v, id, Closed);
    ClosedKeepsInv(w, id);
    ClosedKeepsInv(v, id);
    FinishedAlike(w', v', TransportDisconnected, Some(w.sockets[id].target));
  }

  lemma TypedAlike(w: World, v: World, id: nat, message: Message, overflows: bool)
    requires Inv(w) && Inv(v) && Alike(w, v) && Current(w, id)
    ensures Alike(Typed(w, id, message, overflows), Typed(v, id, message, overflows))
  {
    FinishedAlike(w, v, InternalError, Some(w.sockets[id].target));
    SentAlike(w, v, id, message);
  }

  lemma SocketStepIsAlike(w: World, v: World, event: Event)
    requires Inv(w) && Inv(v) && Alike(w, v)
    requires SocketEvent(event) && Current(w, event.id)
    ensures Alike(Step(w, event), Step(v, event))
  {
    var id := event.id;
    assert AlikeSocket(w.sockets[id], v.sockets[id], w.generation);
    match event {
      case SocketOpens(_) => OpenedAlike(w, v, id);
      case SocketReceives(_, data) => ReceivedAlike(w, v, id, data);
      case SocketFails(_, closed) => LostAlike(w, v, id, closed);
      case UserTypes(_, message, overflows) => TypedAlike(w, v, id, message, overflows);
      case OutputDrains(_, _) => DrainedAlike(w, v, id);
    }
  }

  lemma ExpiredAlike(w: World, v: World, index: nat)
    requires Inv(w) && Inv(v) && Alike(w, v) && index < |w.timers|
    requires w.timers[index].live && w.timers[index].generation == w.generation
    ensures Alike(Expired(w, index), Expired(v, index))
  {
    var target := Some(w.timers[index].target);
    FinishedAlike(w, v, TimedOut, target);
    FiringIsClearing(w, index, target);
    FiringIsClearing(v, index, target);
  }

  /** Only the current timer is live, and finishing clears it anyway. */
  lemma FiringIsClearing(w: World, index: nat, target: Option<Target>)
    requires TimersInv(w) && index < |w.timers| && w.timers[index].live
    ensures
      Finish(w.(timers := w.timers[index := w.timers[index].(live := false)]), TimedOut, target) ==
      Finish(w, TimedOut, target)
  {
  }

  lemma UserStepIsAlike(w: World, v: World, event: Event)
    requires Inv(w) && Inv(v) && Alike(w, v) && UserEvent(event)
    ensures Alike(Step(w, event), Step(v, event))
  {
    match event {
      case UserStarts => StartAlike(w, v);
      case UserConnects(name) => ConnectAlike(w, v, name);
      case UserCloses => CloseAlike(w, v);
    }
  }

  predicate SocketEvent(event: Event) {
    event.SocketOpens? || event.SocketReceives? || event.SocketFails? || event.UserTypes? || event.OutputDrains?
  }

  lemma KeptStepIsAlike(w: World, v: World, event: Event)
    requires Inv(w) && Inv(v) && Alike(w, v) && !Superseded(w, event)
    ensures Alike(Step(w, event), Step(v, event))
  {
    if UserEvent(event) {
      UserStepIsAlike(w, v, event);
    } else if event.ReplyArrives? {
      if event.index < |w.awaited| {
        ReplyAlike(w, v, event.index, event.reply);
      }
    } else if event.TimerFires? {
      if event.index < |w.timers| && w.timers[event.index].live {
        ExpiredAlike(w, v, event.index);
      }
    } else if event.id < |w.sockets| {
      SocketStepIsAlike(w, v, event);
    }
  }

  lemma {:induction false} PruningShowsNothing(w: World, v: World, events: seq<Event>)
    requires Inv(w) && Inv(v) && Alike(w, v)
    requires forall i :: 0 <= i < |events| ==> Plausible(events[i])
    ensures Alike(Run(w, events), Run(v, Pruned(w, events)))
    decreases |events|
  {
    if events != [] {
      var first, rest := events[0], events[1..];
      StepKeepsInv(w, first);
      if Superseded(w, first) {
        SupersededStepIsAlike(w, v, first);
        PruningShowsNothing(Step(w, first), v, rest);
        assert [] + Pruned(Step(w, first), rest) == Pruned(Step(w, first), rest);
      } else {
        StepKeepsInv(v, first);
        KeptStepIsAlike(w, v, first);
        PruningShowsNothing(Step(w, first), Step(v, first), rest);
        assert ([first] + Pruned(Step(w, first), rest))[1..] == Pruned(Step(w, first), rest);
      }
    }
  }

  /**
   Deleting from any run every callback that was superseded when it came (replies, timers, socket
   events, input and drains) changes nothing that is shown, sent or closed, nor the controller.
   */
  lemma SupersededCallbacksAreHarmless(events: seq<Event>)
    requires forall i :: 0 <= i < |events| ==> Plausible(events[i])
    ensures
      var w, v := Run(START, events), Run(START, Pruned(START, events));
      SameOutside(w, v) && AlikeController(w, v)
  {
    PruningShowsNothing(START, START, events);
  }

  // ----- the exit status -----

  /** What is kept of the current connection's exit status is what is shown of it. */
  ghost predicate StatusInv(w: World) {
    && (w.socket.None? ==> w.exitStatus.None?)
    && (w.socket.Some? ==> w.snapshot.exitStatus == w.exitStatus)
    && (w.socket.Some? && w.socket.value < |w.sockets| && w.sockets[w.socket.value].ready == Opening ==>
         w.exitStatus.None?)
  }

  lemma FinishKeepsStatus(w: World, phase: Phase, target: Option<Target>)
    ensures StatusInv(Finish(w, phase, target))
  {
  }

  lemma ReceivedKeepsStatus(w: World, id: nat, data: Data)
    requires StatusInv(w) && id < |w.sockets| && w.sockets[id].ready != Opening
    ensures StatusInv(Received(w, id, data))
  {
    var target := Some(w.sockets[id].target);
    match data {
      case ExitData(_) =>
      case ErrorData(code) => FinishKeepsStatus(w, ErrorPhase(code), target);
      case CloseData(reason) => FinishKeepsStatus(w, ClosePhase(reason), target);
      case OutputData(_) => FinishKeepsStatus(w, InternalError, target);
      case Malformed => FinishKeepsStatus(w, ProtocolError, target);
    }
  }

  lemma OtherEventKeepsStatus(w: World, event: Event)
    requires event.SocketOpens? || event.SocketFails? || event.UserTypes? || event.OutputDrains?
    requires SocketsInv(w) && StatusInv(w) && event.id < |w.sockets|
    ensures StatusInv(Step(w, event))
  {
    FinishKeepsStatus(w, InternalError, Some(w.sockets[event.id].target));
  }

  lemma SocketEventKeepsStatus(w: World, event: Event)
    requires SocketsInv(w) && StatusInv(w) && SocketEvent(event) && event.id < |w.sockets|
    ensures StatusInv(Step(w, event))
  {
    if !event.SocketReceives? {
      OtherEventKeepsStatus(w, event);
    } else if w.sockets[event.id].ready != Opening {
      ReceivedKeepsStatus(w, event.id, event.data);
    }
  }

  lemma ReplyKeepsStatus(w: World, index: nat, reply: Reply)
    requires Inv(w) && StatusInv(w) && index < |w.awaited| && (reply.Failed? ==> !InProgress(reply.phase))
    ensures StatusInv(Replied(w, index, reply))
  {
  }

  lemma StepKeepsStatus(w: World, event: Event)
    requires Inv(w) && StatusInv(w) && Plausible(event)
    ensures StatusInv(Step(w, event))
  {
    if event.ReplyArrives? {
      if event.index < |w.awaited| {
        ReplyKeepsStatus(w, event.index, event.reply);
      }
    } else if SocketEvent(event) {
      if event.id < |w.sockets| {
        SocketEventKeepsStatus(w, event);
      }
    }
  }

  lemma {:induction false} RunKeepsStatus(w: World, events: seq<Event>)
    requires Inv(w) && StatusInv(w)
    requires forall i :: 0 <= i < |events| ==> Plausible(events[i])
    ensures Inv(Run(w, events)) && StatusInv(Run(w, events))
    decreases |events|
  {
    if events != [] {
      StepKeepsInv(w, events[0]);
      StepKeepsStatus(w, events[0]);
      RunKeepsStatus(Step(w, events[0]), events[1..]);
    }
  }

  /** The event ends what was under way and leaves an outcome on show. */
  predicate Ends(w: World, event: Event) {
    var after := Step(w, event);
    after.generation != w.generation && !InProgress(after.snapshot.phase)
  }

  /** Of the user's calls, those that leave an outcome: closing, and connecting to an unknown name. */
  predicate UserEnds(w: World, event: Event) {
    event.UserCloses? || (event.UserConnects? && Find(w.targets, event.name).None? && w.targets != [])
  }

  lemma UserEndShowsStatus(w: World, event: Event)
    requires Ends(w, event) && UserEvent(event)
    ensures UserEnds(w, event) && Step(w, event).snapshot.exitStatus.None?
  {
  }

  lemma ReplyEndShowsStatus(w: World, event: Event)
    requires Ends(w, event) && event.ReplyArrives?
    ensures Step(w, event).snapshot.exitStatus == w.exitStatus
  {
  }

  lemma SocketEndShowsStatus(w: World, event: Event)
    requires Ends(w, event) && (SocketEvent(event) || event.TimerFires?)
    ensures Step(w, event).snapshot.exitStatus == w.exitStatus
  {
  }

  /** Every outcome but the user's own shows the exit status that was kept, in any state. */
  lemma EndShowsStatus(w: World, event: Event)
    requires Ends(w, event)
    ensures Step(w, event).snapshot.exitStatus == if UserEnds(w, event) then None else w.exitStatus
  {
    if UserEvent(event) {
      UserEndShowsStatus(w, event);
    } else if event.ReplyArrives? {
      ReplyEndShowsStatus(w, event);
    } else {
      SocketEndShowsStatus(w, event);
    }
  }

  /**
   When a connection ends, in any run, the exit status it showed stays on show exactly when it
   showed none or its end was not the user's doing; without a connection none is kept at all.
   */
  lemma ExitStatusStaysExactly(events: seq<Event>, event: Event)
    requires forall i :: 0 <= i < |events| ==> Plausible(events[i])
    requires Ends(Run(START, events), event)
    ensures
      var w := Run(START, events);
      var shown := Step(w, event).snapshot.exitStatus;
      if w.socket.Some? then
        shown == w.snapshot.exitStatus <==> w.snapshot.exitStatus.None? || !UserEnds(w, event)
      else shown.None?
  {
    RunKeepsStatus(START, events);
    EndShowsStatus(Run(START, events), event);
  }

  const SHELL := Target("shell", false)

  /** A connection that has shown the exit status 7. */
  const EXITED: seq<Event> :=
    [UserStarts] + [ReplyArrives(0, IdentityOk)] + [ReplyArrives(1, TargetsOk([SHELL]))]
    + [UserConnects("shell")] + [ReplyArrives(2, GrantOk("ticket", SHELL, false))]
    + [SocketOpens(0)] + [SocketReceives(0, ExitData(7))]

  lemma {:induction false} RunNext(w: World, events: seq<Event>, event: Event)
    ensures Run(w, events + [event]) == Step(Run(w, events), event)
    decreases |events|
  {
    if events == [] {
      assert [] + [event] == [event] && [event][1..] == [];
    } else {
      assert (events + [event])[1..] == events[1..] + [event];
      RunNext(Step(w, events[0]), events[1..], event);
    }
  }

  /** A world in which the targets are known and nothing is under way. */
  lemma BecomesReady()
    ensures
      var w := Run(START, [UserStarts] + [ReplyArrives(0, IdentityOk)] + [ReplyArrives(1, TargetsOk([SHELL]))]);
      && w.generation == 1 && w.targets == [SHELL] && w.socket.None? && w.timer.None? && w.exitStatus.None?
      && w.sockets == [] && w.timers == [] && w.awaited == [Settled, Settled] && !w.activated
  {
    RunNext(START, [], UserStarts);
    assert [] + [UserStarts] == [UserStarts];
    RunNext(START, [UserStarts], ReplyArrives(0, IdentityOk));
    RunNext(START, [UserStarts] + [ReplyArrives(0, IdentityOk)], ReplyArrives(1, TargetsOk([SHELL])));
  }

  /** From there to a socket that is about to open. */
  lemma GetsASocket(w: World)
    requires w.targets == [SHELL] && w.socket.None? && w.timer.None? && w.generation == 1 && !w.activated
    requires w.sockets == [] && w.timers == [] && w.awaited == [Settled, Settled] && w.exitStatus.None?
    ensures
      var after := Step(Step(w, UserConnects("shell")), ReplyArrives(2, GrantOk("ticket", SHELL, false)));
      && after.sockets == [Socket(Opening, 2, "ticket", SHELL, [], 0)] && after.socket == Some(0)
      && after.generation == 2 && after.targets == [SHELL] && after.exitStatus.None?
  {
  }

  lemma OpensAndExits(w: World)
    requires w.sockets == [Socket(Opening, 2, "ticket", SHELL, [], 0)] && w.socket == Some(0)
    requires w.generation == 2 && w.targets == [SHELL]
    ensures
      var after := Step(Step(w, SocketOpens(0)), SocketReceives(0, ExitData(7)));
      && after.snapshot == Snapshot(Active, [SHELL], Some(SHELL), Some(7))
      && after.exitStatus == Some(7) && after.targets == [SHELL]
  {
  }

  lemma ShowsTheStatus()
    ensures
      var w := Run(START, EXITED);
      && w.snapshot == Snapshot(Active, [SHELL], Some(SHELL), Some(7))
      && w.exitStatus == Some(7) && w.targets == [SHELL]
  {
    var ready := [UserStarts] + [ReplyArrives(0, IdentityOk)] + [ReplyArrives(1, TargetsOk([SHELL]))];
    var granted := ready + [UserConnects("shell")] + [ReplyArrives(2, GrantOk("ticket", SHELL, false))];
    BecomesReady();
    RunNext(START, ready, UserConnects("shell"));
    RunNext(START, ready + [UserConnects("shell")], ReplyArrives(2, GrantOk("ticket", SHELL, false)));
    RunNext(START, granted, SocketOpens(0));
    RunNext(START, granted + [SocketOpens(0)], SocketReceives(0, ExitData(7)));
    GetsASocket(Run(START, ready));
    OpensAndExits(Run(START, granted));
  }

  /** Closing after that forgets the status, though `close` means to show it. */
  lemma ClosingForgets()
    ensures Run(START, EXITED + [UserCloses]).snapshot == Snapshot(UserClosed, [SHELL], Some(SHELL), None)
  {
    ShowsTheStatus();
    RunNext(START, EXITED, UserCloses);
  }

  /** So does connecting to a target the page does not know. */
  lemma ConnectingElsewhereForgets()
    ensures Run(START, EXITED + [UserConnects("other")]).snapshot == Snapshot(Denied, [SHELL], None, None)
  {
    ShowsTheStatus();
    assert "other"[0] != "shell"[0];
    RunNext(START, EXITED, UserConnects("other"));
  }
}
