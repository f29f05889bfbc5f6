/**
 The connection controller of the browser (frontend/src/connection.ts) with everything it has
 started: sockets, deadline timers and awaited replies.  A socket becomes open in the step in
 which its open event fires, sending on an open socket does not fail, and reporting a state does
 not call back into the controller.
 */
module Connection {
  import opened Wrappers
  import ControlCodec

  datatype Target = Target(name: string, readOnly: bool)

  datatype Phase =
    | EstablishingIdentity | Ready | RequestingAuthorization | Connecting | Active
    | Denied | SshHostKeyFailed | SshConnectionFailed | SshAuthenticationFailed | SshPolicyDenied | SshFailed
    | ProtocolError | InternalError | TimedOut | Exited | TransportDisconnected | UserClosed

  type ExitStatus = int

  datatype Snapshot = Snapshot(phase: Phase, targets: seq<Target>, active: Option<Target>,
    exitStatus: Option<ExitStatus>)

  datatype Message = Ticket(ticket: string) | ResizeMessage | CloseMessage | Binary

  datatype ReadyState = Opening | Open | Closing | Closed

  /** A socket and what its handlers have captured. */
  datatype Socket = Socket(ready: ReadyState, generation: nat, ticket: string, target: Target, sent: seq<Message>,
    closes: nat)

  datatype Timer = Timer(generation: nat, target: Target, live: bool)

  datatype Awaited =
    | Identity(generation: nat)
    | Targets(generation: nat)
    | Grant(generation: nat, configured: Target)
    | Settled

  datatype World = World(
    generation: nat, targets: seq<Target>, snapshot: Snapshot, socket: Option<nat>, timer: Option<nat>,
    activated: bool, exitStatus: Option<ExitStatus>,
    sockets: seq<Socket>, timers: seq<Timer>, awaited: seq<Awaited>)

  const START := World(0, [], Snapshot(EstablishingIdentity, [], None, None), None, None, false, None, [], [], [])

  // ----- the private methods -----

  function ClearTimer(w: World): World {
    if w.timer.Some? && w.timer.value < |w.timers| then
      w.(timer := None, timers := w.timers[w.timer.value := w.timers[w.timer.value].(live := false)])
    else w.(timer := None)
  }

  function Discarded(s: Socket, orderly: bool): Socket {
    s.(sent := if orderly && s.ready == Open then s.sent + [CloseMessage] else s.sent,
       ready := if s.ready == Closed then Closed else Closing,
       closes := s.closes + 1)
  }

  function Discard(w: World, orderly: bool): World {
    if w.socket.Some? && w.socket.value < |w.sockets| then
      w.(socket := None, sockets := w.sockets[w.socket.value := Discarded(w.sockets[w.socket.value], orderly)])
    else w.(socket := None)
  }

  function Replace(w: World, orderly: bool): World {
    Discard(ClearTimer(w.(generation := w.generation + 1, activated := false)), orderly).(exitStatus := None)
  }

  function Show(w: World, phase: Phase, active: Option<Target>, exitStatus: Option<ExitStatus>): World {
    w.(snapshot := Snapshot(phase, w.targets, active, exitStatus))
  }

  /** The exit status outlives the connection it came from. */
  function Finish(w: World, phase: Phase, target: Option<Target>): World {
    var retained := if target.Some? then target else w.snapshot.active;
    Show(Replace(w, false), phase, retained, w.exitStatus)
  }

  function Await(w: World, reply: Awaited): World {
    w.(awaited := w.awaited + [reply])
  }

  predicate IsCurrent(w: World, generation: nat) {
    generation == w.generation
  }

  function SendOn(w: World, id: nat, message: Message): World
    requires id < |w.sockets|
  {
    w.(sockets := w.sockets[id := w.sockets[id].(sent := w.sockets[id].sent + [message])])
  }

  // ----- what the user asks for -----

  function StartCall(w: World): World {
    var replaced := Replace(w, false);
    Await(replaced.(snapshot := Snapshot(EstablishingIdentity, [], None, None)), Identity(replaced.generation))
  }

  function Find(targets: seq<Target>, name: string): (found: Option<Target>)
    ensures found.Some? ==> found.value in targets && found.value.name == name
  {
    if targets == [] then None
    else if targets[0].name == name then Some(targets[0])
    else Find(targets[1..], name)
  }

  function ConnectCall(w: World, name: string): World {
    var configured := Find(w.targets, name);
    if configured.None? && w.targets == [] then w
    else
      var replaced := Replace(w, true);
      if configured.None? then Show(replaced, Denied, None, None)
      else
        var shown := Show(replaced, RequestingAuthorization, configured, None);
        Await(shown.(timer := Some(|w.timers|),
          timers := shown.timers + [Timer(shown.generation, configured.value, true)]),
              Grant(shown.generation, configured.value))
  }

  /** The exit status is forgotten before it is shown. */
  function CloseCall(w: World): World {
    var replaced := Replace(w, true);
    Show(replaced, UserClosed, w.snapshot.active, replaced.exitStatus)
  }

  // ----- what comes back -----

  datatype Reply =
    | Failed(phase: Phase)
    | IdentityOk
    | TargetsOk(targets: seq<Target>)
    | GrantOk(ticket: string, target: Target, socketFails: bool)

  function Replied(w: World, index: nat, reply: Reply): World
    requires index < |w.awaited|
  {
    var settled := w.(awaited := w.awaited[index := Settled]);
    match w.awaited[index]
    case Identity(generation) =>
      if !IsCurrent(w, generation) then settled
      else if reply.IdentityOk? then Await(settled, Targets(generation))
      else Finish(settled, if reply.Failed? then reply.phase else InternalError, None)
    case Targets(generation) =>
      if !IsCurrent(w, generation) then settled
      else if reply.TargetsOk? && reply.targets != [] then Show(settled.(targets := reply.targets), Ready, None, None)
      else Finish(settled, if reply.Failed? then reply.phase else InternalError, None)
    case Grant(generation, configured) =>
      if !IsCurrent(w, generation) then settled
      else if !reply.GrantOk? then
        Finish(settled, if reply.Failed? then reply.phase else InternalError, Some(configured))
      else if reply.target.name != configured.name then Finish(settled, InternalError, Some(configured))
      else if reply.socketFails then Finish(settled, InternalError, Some(reply.target))
      else
        Show(settled.(socket := Some(|w.sockets|),
                      sockets := w.sockets + [Socket(Opening, generation, reply.ticket, reply.target, [], 0)]),
             Connecting, Some(reply.target), None)
    case Settled => w
  }

  predicate Attached(w: World, id: nat)
    requires id < |w.sockets|
  {
    IsCurrent(w, w.sockets[id].generation) && w.socket == Some(id)
  }

  function Opened(w: World, id: nat): World
    requires id < |w.sockets|
  {
    var ready := w.(sockets := w.sockets[id := w.sockets[id].(ready := Open)]);
    if !Attached(w, id) then ready
    else
      var s := w.sockets[id];
      var greeted := SendOn(ClearTimer(ready), id, Ticket(s.ticket));
      Show(SendOn(greeted, id, ResizeMessage).(activated := true), Active, Some(s.target), None)
  }

  datatype Data =
    | ExitData(status: ExitStatus)
    | ErrorData(code: string)
    | CloseData(reason: ControlCodec.CloseReason)
    | OutputData(overflows: bool)
    | Malformed

  function ErrorPhase(code: string): Phase {
    if code == "authorization-denied" || code == "session-denied" then Denied
    else if code == "ssh-host-key-failed" then SshHostKeyFailed
    else if code == "ssh-connection-failed" then SshConnectionFailed
    else if code == "ssh-authentication-failed" then SshAuthenticationFailed
    else if code == "ssh-policy-denied" then SshPolicyDenied
    else if code == "ssh-failed" then SshFailed
    else if code == "protocol-error" then ProtocolError
    else InternalError
  }

  function ClosePhase(reason: ControlCodec.CloseReason): Phase {
    match reason
    case ClientRequest => UserClosed
    case Exited => Phase.Exited
    case Timeout => TimedOut
    case Policy => Denied
    case ProtocolFailure => ProtocolError
    case TransportError => TransportDisconnected
    case InternalError => Phase.InternalError
  }

  function Received(w: World, id: nat, data: Data): World
    requires id < |w.sockets|
  {
    if !Attached(w, id) then w
    else
      var target := Some(w.sockets[id].target);
      match data
      case ExitData(status) => w.(exitStatus := Some(status), snapshot := w.snapshot.(exitStatus := Some(status)))
      case ErrorData(code) => Finish(w, ErrorPhase(code), target)
      case CloseData(reason) => Finish(w, ClosePhase(reason), target)
      case OutputData(overflows) => if w.activated && overflows then Finish(w, InternalError, target) else w
      case Malformed => Finish(w, ProtocolError, target)
  }

  function Lost(w: World, id: nat, closed: bool): World
    requires id < |w.sockets|
  {
    var after := if closed then w.(sockets := w.sockets[id := w.sockets[id].(ready := Closed)]) else w;
    if Attached(w, id) then Finish(after, TransportDisconnected, Some(w.sockets[id].target)) else after
  }

  /** Input or a resize typed into a terminal that was attached to the socket. */
  function Typed(w: World, id: nat, message: Message, overflows: bool): World
    requires id < |w.sockets|
  {
    if !IsCurrent(w, w.sockets[id].generation) || w.sockets[id].ready != Open then w
    else if message == Binary && overflows then Finish(w, InternalError, Some(w.sockets[id].target))
    else SendOn(w, id, message)
  }

  /** The terminal refuses the next bytes of a socket's output queue, or the queue overflows. */
  function OutputFailed(w: World, id: nat): World
    requires id < |w.sockets|
  {
    if IsCurrent(w, w.sockets[id].generation) then Finish(w, InternalError, Some(w.sockets[id].target)) else w
  }

  function Expired(w: World, index: nat): World
    requires index < |w.timers|
  {
    var fired := w.(timers := w.timers[index := w.timers[index].(live := false)]);
    if IsCurrent(w, w.timers[index].generation) then Finish(fired, TimedOut, Some(w.timers[index].target)) else fired
  }

  // ----- the object -----

  /** The last three fields stand for the ports outside and the replies awaited from them. */
  class TerminalConnectionController {
    var generation: nat
    var targets: seq<Target>
    var snapshot: Snapshot
    var socket: Option<nat>
    var connectionTimer: Option<nat>
    var activated: bool
    var exitStatus: Option<ExitStatus>
    var sockets: seq<Socket>
    var timers: seq<Timer>
    var awaited: seq<Awaited>

    function View(): World
      reads this
    {
      World(generation, targets, snapshot, socket, connectionTimer, activated, exitStatus, sockets, timers, awaited)
    }

    /** The ports the fields name exist, and the timer's callback has not run. */
    ghost predicate Wired()
      reads this
    {
      && (socket.Some? ==> socket.value < |sockets|)
      && (connectionTimer.Some? ==> connectionTimer.value < |timers|)
    }

    constructor ()
      ensures View() == START && Wired()
    {
      generation, targets, snapshot, socket, connectionTimer, activated, exitStatus, sockets, timers, awaited :=
        0, [], Snapshot(EstablishingIdentity, [], None, None), None, None, false, None, [], [], [];
    }

    method ClearConnectionTimer()
      requires Wired()
      modifies this`connectionTimer, this`timers
      ensures View() == ClearTimer(old(View())) && Wired()
    {
      if connectionTimer.None? {
        return;
      }
      var index := connectionTimer.value;
      timers := timers[index := timers[index].(live := false)];
      connectionTimer := None;
    }

    method SendControl(id: nat, message: Message)
      requires id < |sockets|
      modifies this`sockets
      ensures View() == SendOn(old(View()), id, message)
    {
      sockets := sockets[id := sockets[id].(sent := sockets[id].sent + [message])];
    }

    method DiscardSocket(orderly: bool)
      requires Wired()
      modifies this`socket, this`sockets
      ensures View() == Discard(old(View()), orderly) && Wired()
    {
      if socket.None? {
        return;
      }
      var id := socket.value;
      socket := None;
      if orderly && sockets[id].ready == Open {
        SendControl(id, CloseMessage);
      }
      var ready := if sockets[id].ready == Closed then Closed else Closing;
      sockets := sockets[id := sockets[id].(ready := ready, closes := sockets[id].closes + 1)];
    }

    method ReplaceConnection(orderly: bool) returns (current: nat)
      requires Wired()
      modifies this
      ensures View() == Replace(old(View()), orderly) && Wired() && current == generation
    {
      generation := generation + 1;
      activated := false;
      ClearConnectionTimer();
      DiscardSocket(orderly);
      exitStatus := None;
      return generation;
    }

    method Emit(phase: Phase, active: Option<Target>, shownStatus: Option<ExitStatus>)
      modifies this`snapshot
      ensures View() == Show(old(View()), phase, active, shownStatus)
    {
      snapshot := Snapshot(phase, targets, active, shownStatus);
    }

    method FinishConnection(phase: Phase, target: Option<Target>)
      requires Wired()
      modifies this
      ensures View() == Finish(old(View()), phase, target) && Wired()
    {
      var retainedStatus := exitStatus;
      var retainedTarget := if target.Some? then target else snapshot.active;
      var _ := ReplaceConnection(false);
      Emit(phase, retainedTarget, retainedStatus);
    }

    method StartSession()
      requires Wired()
      modifies this
      ensures View() == StartCall(old(View())) && Wired()
    {
      var current := ReplaceConnection(false);
      snapshot := Snapshot(EstablishingIdentity, [], None, None);
      awaited := awaited + [Identity(current)];
    }

    method Connect(name: string)
      requires Wired()
      modifies this
      ensures View() == ConnectCall(old(View()), name) && Wired()
    {
      var configured := Find(targets, name);
      if configured.None? && |targets| == 0 {
        return;
      }
      var current := ReplaceConnection(true);
      if configured.None? {
        Emit(Denied, None, None);
        return;
      }
      Emit(RequestingAuthorization, configured, None);
      connectionTimer := Some(|timers|);
      timers := timers + [Timer(current, configured.value, true)];
      awaited := awaited + [Grant(current, configured.value)];
    }

    method Close()
      requires Wired()
      modifies this
      ensures View() == CloseCall(old(View())) && Wired()
    {
      var target := snapshot.active;
      var _ := ReplaceConnection(true);
      Emit(UserClosed, target, exitStatus);
    }

    /** The rest of `connect` after its grant has come or failed to come. */
    method GrantArrives(index: nat, reply: Reply)
      requires Wired() && index < |awaited| && awaited[index].Grant?
      modifies this
      ensures View() == Replied(old(View()), index, reply) && Wired()
    {
      var made, configured := awaited[index].generation, awaited[index].configured;
      awaited := awaited[index := Settled];
      if made != generation {
        return;
      }
      if !reply.GrantOk? {
        FinishConnection(if reply.Failed? then reply.phase else InternalError, Some(configured));
        return;
      }
      if reply.target.name != configured.name {
        FinishConnection(InternalError, Some(configured));
        return;
      }
      if reply.socketFails {
        FinishConnection(InternalError, Some(reply.target));
        return;
      }
      socket := Some(|sockets|);
      sockets := sockets + [Socket(Opening, made, reply.ticket, reply.target, [], 0)];
      Emit(Connecting, Some(reply.target), None);
    }

    method OnOpen(id: nat)
      requires Wired() && id < |sockets|
      modifies this
      ensures View() == Opened(old(View()), id) && Wired()
    {
      sockets := sockets[id := sockets[id].(ready := Open)];
      var s := sockets[id];
      if s.generation != generation || socket != Some(id) {
        return;
      }
      ClearConnectionTimer();
      SendControl(id, Ticket(s.ticket));
      SendControl(id, ResizeMessage);
      activated := true;
      Emit(Active, Some(s.target), None);
    }

    method OnMessage(id: nat, data: Data)
      requires Wired() && id < |sockets|
      modifies this
      ensures View() == Received(old(View()), id, data) && Wired()
    {
      if sockets[id].generation != generation || socket != Some(id) {
        return;
      }
      var target := Some(sockets[id].target);
      match data {
        case ExitData(status) =>
          exitStatus := Some(status);
          snapshot := snapshot.(exitStatus := Some(status));
        case ErrorData(code) => FinishConnection(ErrorPhase(code), target);
        case CloseData(reason) => FinishConnection(ClosePhase(reason), target);
        case OutputData(overflows) =>
          if activated && overflows {
            FinishConnection(InternalError, target);
          }
        case Malformed => FinishConnection(ProtocolError, target);
      }
    }

    method OnLost(id: nat, closed: bool)
      requires Wired() && id < |sockets|
      modifies this
      ensures View() == Lost(old(View()), id, closed) && Wired()
    {
      if closed {
        sockets := sockets[id := sockets[id].(ready := Closed)];
      }
      if sockets[id].generation == generation && socket == Some(id) {
        FinishConnection(TransportDisconnected, Some(sockets[id].target));
      }
    }
  }

  // ----- runs -----

  datatype Event =
    | UserStarts
    | UserConnects(name: string)
    | UserCloses
    | ReplyArrives(index: nat, reply: Reply)
    | SocketOpens(id: nat)
    | SocketReceives(id: nat, data: Data)
    | SocketFails(id: nat, closed: bool)
    | UserTypes(id: nat, message: Message, overflows: bool)
    | OutputDrains(id: nat, fails: bool)
    | TimerFires(index: nat)

  /** An event that cannot happen in this state changes nothing. */
  function Step(w: World, event: Event): World {
    match event
    case UserStarts => StartCall(w)
    case UserConnects(name) => ConnectCall(w, name)
    case UserCloses => CloseCall(w)
    case ReplyArrives(index, reply) => if index < |w.awaited| then Replied(w, index, reply) else w
    case SocketOpens(id) => if id < |w.sockets| && w.sockets[id].ready == Opening then Opened(w, id) else w
    case SocketReceives(id, data) =>
      if id < |w.sockets| && w.sockets[id].ready != Opening then Received(w, id, data) else w
    case SocketFails(id, closed) => if id < |w.sockets| then Lost(w, id, closed) else w
    case UserTypes(id, message, overflows) =>
      if id < |w.sockets| && w.sockets[id].sent != [] &&
         (message == ResizeMessage || (message == Binary && !w.sockets[id].target.readOnly))
      then Typed(w, id, message, overflows) else w
    case OutputDrains(id, fails) =>
      if id < |w.sockets| && w.sockets[id].sent != [] && fails then OutputFailed(w, id) else w
    case TimerFires(index) => if index < |w.timers| && w.timers[index].live then Expired(w, index) else w
  }

  function Run(w: World, events: seq<Event>): World
    decreases |events|
  {
    if events == [] then w else Run(Step(w, events[0]), events[1..])
  }

  // ----- invariants -----

  /** The ticket goes first and only once. */
  predicate WellSent(s: Socket) {
    s.sent != [] ==> s.sent[0] == Ticket(s.ticket) && forall k :: 1 <= k < |s.sent| ==> !s.sent[k].Ticket?
  }

  predicate SocketOk(s: Socket, current: bool) {
    && WellSent(s)
    && (s.ready == Opening ==> s.sent == [])
    && (s.ready == Open ==> s.sent != [])
    && s.closes == (if current then 0 else 1)
  }

  ghost predicate SocketsInv(w: World) {
    && (w.socket.Some? ==> w.socket.value < |w.sockets| && w.sockets[w.socket.value].generation == w.generation)
    && (forall i :: 0 <= i < |w.sockets| ==> SocketOk(w.sockets[i], w.socket == Some(i)))
    && (forall i :: 0 <= i < |w.sockets| && w.socket != Some(i) ==>
         w.sockets[i].generation < w.generation && w.sockets[i].ready != Open && w.sockets[i].ready != Opening)
  }

  ghost predicate TimersInv(w: World) {
    && (w.timer.Some? ==>
          && w.timer.value < |w.timers|
          && w.timers[w.timer.value].generation == w.generation && w.timers[w.timer.value].live)
    && (forall i :: 0 <= i < |w.timers| && w.timer != Some(i) ==> !w.timers[i].live)
  }

  predicate Waiting(a: Awaited, generation: nat) {
    !a.Settled? && a.generation == generation
  }

  ghost predicate AwaitedInv(w: World) {
    && (forall i :: 0 <= i < |w.awaited| && !w.awaited[i].Settled? ==> w.awaited[i].generation <= w.generation)
    && (forall i, j :: 0 <= i < j < |w.awaited| && Waiting(w.awaited[i], w.generation) ==>
         !Waiting(w.awaited[j], w.generation))
    && (forall i :: 0 <= i < |w.awaited| && Waiting(w.awaited[i], w.generation) && !w.awaited[i].Grant? ==>
         w.timer.None?)
    && (w.socket.Some? ==> NothingAwaited(w))
  }

  ghost predicate NothingAwaited(w: World) {
    forall i :: 0 <= i < |w.awaited| ==> !Waiting(w.awaited[i], w.generation)
  }

  /** Nothing of the current generation is under way. */
  ghost predicate Quiet(w: World) {
    w.socket.None? && w.timer.None? && NothingAwaited(w)
  }

  predicate InProgress(phase: Phase) {
    phase == EstablishingIdentity || phase == RequestingAuthorization || phase == Connecting || phase == Active
  }

  ghost predicate PhaseInv(w: World) {
    && (!InProgress(w.snapshot.phase) ==> Quiet(w))
    && (w.socket.Some? <==> w.snapshot.phase == Connecting || w.snapshot.phase == Active)
    && (w.snapshot.phase == Active <==> w.activated)
    && (w.activated && w.socket.Some? && w.socket.value < |w.sockets| ==> w.sockets[w.socket.value].sent != [])
  }

  ghost predicate Inv(w: World) {
    SocketsInv(w) && TimersInv(w) && AwaitedInv(w) && PhaseInv(w)
  }

  lemma ReplaceQuiets(w: World, orderly: bool)
    requires SocketsInv(w) && TimersInv(w) && AwaitedInv(w)
    ensures var r := Replace(w, orderly);
            SocketsInv(r) && TimersInv(r) && AwaitedInv(r) && Quiet(r) && !r.activated &&
            r.generation == w.generation + 1
  {
    ClearQuiets(w);
  }

  lemma ClearQuiets(w: World)
    requires TimersInv(w)
    ensures TimersInv(ClearTimer(w)) && ClearTimer(w).timer.None?
    ensures forall i :: 0 <= i < |ClearTimer(w).timers| ==> !ClearTimer(w).timers[i].live
  {
  }

  lemma FinishKeepsInv(w: World, phase: Phase, target: Option<Target>)
    requires SocketsInv(w) && TimersInv(w) && AwaitedInv(w) && !InProgress(phase)
    ensures Inv(Finish(w, phase, target)) && Quiet(Finish(w, phase, target))
  {
    ReplaceQuiets(w, false);
  }

  lemma StartKeepsInv(w: World)
    requires Inv(w)
    ensures Inv(StartCall(w))
  {
    ReplaceQuiets(w, false);
  }

  lemma RequestKeepsInv(r: World, target: Target)
    requires SocketsInv(r) && TimersInv(r) && AwaitedInv(r) && Quiet(r) && !r.activated &&
             r.snapshot.phase == RequestingAuthorization
    ensures Inv(Await(r.(timer := Some(|r.timers|), timers := r.timers + [Timer(r.generation, target, true)]),
              Grant(r.generation, target)))
  {
  }

  lemma ConnectKeepsInv(w: World, name: string)
    requires Inv(w)
    ensures Inv(ConnectCall(w, name))
  {
    ReplaceQuiets(w, true);
    var configured := Find(w.targets, name);
    if configured.Some? {
      RequestKeepsInv(Show(Replace(w, true), RequestingAuthorization, configured, None), configured.value);
    }
  }

  lemma CloseKeepsInv(w: World)
    requires Inv(w)
    ensures Inv(CloseCall(w)) && Quiet(CloseCall(w))
  {
    ReplaceQuiets(w, true);
  }

  /** Once a reply is in, nothing else is awaited in its generation. */
  lemma SettledQuiets(w: World, index: nat)
    requires SocketsInv(w) && TimersInv(w) && AwaitedInv(w) && index < |w.awaited|
    ensures var settled := w.(awaited := w.awaited[index := Settled]);
            SocketsInv(settled) && TimersInv(settled) && AwaitedInv(settled) &&
            (NothingAwaited(w) ==> NothingAwaited(settled)) &&
            (Waiting(w.awaited[index], w.generation) ==> NothingAwaited(settled))
  {
  }

  lemma AttachKeepsInv(w: World, s: Socket)
    requires SocketsInv(w) && TimersInv(w) && AwaitedInv(w) && w.socket.None? && NothingAwaited(w) && !w.activated
    requires s.ready == Opening && s.generation == w.generation && s.sent == [] && s.closes == 0
    ensures Inv(Show(w.(socket := Some(|w.sockets|), sockets := w.sockets + [s]), Connecting, Some(s.target), None))
  {
  }

  lemma IdentityReplyKeepsInv(w: World, index: nat, reply: Reply)
    requires Inv(w) && index < |w.awaited| && (reply.Failed? ==> !InProgress(reply.phase))
    requires w.awaited[index] == Identity(w.generation)
    ensures Inv(Replied(w, index, reply))
  {
    SettledQuiets(w, index);
    if !reply.IdentityOk? {
      FinishKeepsInv(w.(awaited := w.awaited[index := Settled]),
                     if reply.Failed? then reply.phase else InternalError, None);
    }
  }

  lemma TargetsReplyKeepsInv(w: World, index: nat, reply: Reply)
    requires Inv(w) && index < |w.awaited| && (reply.Failed? ==> !InProgress(reply.phase))
    requires w.awaited[index] == Targets(w.generation)
    ensures Inv(Replied(w, index, reply))
  {
    SettledQuiets(w, index);
    if !(reply.TargetsOk? && reply.targets != []) {
      FinishKeepsInv(w.(awaited := w.awaited[index := Settled]),
                     if reply.Failed? then reply.phase else InternalError, None);
    }
  }

  lemma ReplyKeepsInv(w: World, index: nat, reply: Reply)
    requires Inv(w) && index < |w.awaited| && (reply.Failed? ==> !InProgress(reply.phase))
    ensures Inv(Replied(w, index, reply))
  {
    var a := w.awaited[index];
    if Waiting(a, w.generation) {
      match a {
        case Identity(_) => IdentityReplyKeepsInv(w, index, reply);
        case Targets(_) => TargetsReplyKeepsInv(w, index, reply);
        case Grant(_, _) => GrantKeepsInv(w, index, reply);
      }
    } else {
      SettledQuiets(w, index);
    }
  }

  lemma GrantKeepsInv(w: World, index: nat, reply: Reply)
    requires Inv(w) && index < |w.awaited| && (reply.Failed? ==> !InProgress(reply.phase))
    requires w.awaited[index].Grant? && w.awaited[index].generation == w.generation
    ensures Inv(Replied(w, index, reply))
  {
    SettledQuiets(w, index);
    var settled := w.(awaited := w.awaited[index := Settled]);
    var configured := w.awaited[index].configured;
    if !reply.GrantOk? {
      FinishKeepsInv(settled, if reply.Failed? then reply.phase else InternalError, Some(configured));
    } else if reply.target.name != configured.name {
      FinishKeepsInv(settled, InternalError, Some(configured));
    } else if reply.socketFails {
      FinishKeepsInv(settled, InternalError, Some(reply.target));
    } else {
      AttachKeepsInv(settled, Socket(Opening, w.generation, reply.ticket, reply.target, [], 0));
    }
  }

  lemma OpenKeepsInv(w: World, id: nat)
    requires Inv(w) && id < |w.sockets| && w.sockets[id].ready == Opening
    ensures Inv(Opened(w, id))
  {
    ClearQuiets(w);
  }

  lemma SendKeepsInv(w: World, id: nat, message: Message)
    requires Inv(w) && id < |w.sockets| && w.sockets[id].sent != [] && !message.Ticket?
    ensures Inv(SendOn(w, id, message))
  {
  }

  lemma LostKeepsInv(w: World, id: nat, closed: bool)
    requires Inv(w) && id < |w.sockets|
    ensures Inv(Lost(w, id, closed))
  {
    var after := if closed then w.(sockets := w.sockets[id := w.sockets[id].(ready := Closed)]) else w;
    assert Inv(after);
    if Attached(w, id) {
      FinishKeepsInv(after, TransportDisconnected, Some(w.sockets[id].target));
    }
  }

  lemma ReceivedKeepsInv(w: World, id: nat, data: Data)
    requires Inv(w) && id < |w.sockets|
    ensures Inv(Received(w, id, data))
  {
    var target := Some(w.sockets[id].target);
    match data {
      case ExitData(status) => StatusKeepsInv(w, status);
      case ErrorData(code) => FinishKeepsInv(w, ErrorPhase(code), target);
      case CloseData(reason) => FinishKeepsInv(w, ClosePhase(reason), target);
      case OutputData(_) => FinishKeepsInv(w, InternalError, target);
      case Malformed => FinishKeepsInv(w, ProtocolError, target);
    }
  }

  lemma StatusKeepsInv(w: World, status: ExitStatus)
    requires Inv(w)
    ensures Inv(w.(exitStatus := Some(status), snapshot := w.snapshot.(exitStatus := Some(status))))
  {
  }

  lemma ExpiredKeepsInv(w: World, index: nat)
    requires Inv(w) && index < |w.timers| && w.timers[index].live
    ensures Inv(Expired(w, index))
  {
    var r := Replace(w.(timers := w.timers[index := w.timers[index].(live := false)]), false);
    ReplaceQuiets(w, false);
    assert r == Replace(w, false);
  }

  /** A failure the server or the network reports is shown as one of the final phases. */
  predicate Plausible(event: Event) {
    event.ReplyArrives? && event.reply.Failed? ==> !InProgress(event.reply.phase)
  }

  lemma TypedKeepsInv(w: World, id: nat, message: Message, overflows: bool)
    requires Inv(w) && id < |w.sockets| && w.sockets[id].sent != [] && !message.Ticket?
    ensures Inv(Typed(w, id, message, overflows))
  {
    SendKeepsInv(w, id, message);
    FinishKeepsInv(w, InternalError, Some(w.sockets[id].target));
  }

  lemma SocketEventKeepsInv(w: World, event: Event)
    requires Inv(w) && (event.SocketOpens? || event.SocketReceives? || event.SocketFails? || event.UserTypes?)
    ensures Inv(Step(w, event))
  {
    if event.id < |w.sockets| {
      match event {
        case SocketOpens(id) => if w.sockets[id].ready == Opening { OpenKeepsInv(w, id); }
        case SocketReceives(id, data) => ReceivedKeepsInv(w, id, data);
        case SocketFails(id, closed) => LostKeepsInv(w, id, closed);
        case UserTypes(id, message, overflows) =>
          if w.sockets[id].sent != [] && !message.Ticket? {
            TypedKeepsInv(w, id, message, overflows);
          }
      }
    }
  }

  lemma StepKeepsInv(w: World, event: Event)
    requires Inv(w) && Plausible(event)
    ensures Inv(Step(w, event))
  {
    match event {
      case UserStarts => StartKeepsInv(w);
      case UserConnects(name) => ConnectKeepsInv(w, name);
      case UserCloses => CloseKeepsInv(w);
      case ReplyArrives(index, reply) => if index < |w.awaited| { ReplyKeepsInv(w, index, reply); }
      case TimerFires(index) => if index < |w.timers| && w.timers[index].live { ExpiredKeepsInv(w, index); }
      case OutputDrains(id, _) => if id < |w.sockets| { FinishKeepsInv(w, InternalError, Some(w.sockets[id].target)); }
      case _ => SocketEventKeepsInv(w, event);
    }
  }

  lemma {:induction false} RunKeepsInv(w: World, events: seq<Event>)
    requires Inv(w) && forall i :: 0 <= i < |events| ==> Plausible(events[i])
    ensures Inv(Run(w, events))
    decreases |events|
  {
    if events != [] {
      StepKeepsInv(w, events[0]);
      RunKeepsInv(Step(w, events[0]), events[1..]);
    }
  }

  // ----- the promises -----

  /**
   In every run: a socket that is not the current one has been closed exactly once, so at most
   one is in use; and whatever a socket was sent begins with its own ticket, sent once.
   */
  lemma SocketsAreWellUsed(events: seq<Event>, i: nat)
    requires forall k :: 0 <= k < |events| ==> Plausible(events[k])
    ensures var w := Run(START, events);
            i < |w.sockets| ==>
              && WellSent(w.sockets[i])
              && w.sockets[i].closes == (if w.socket == Some(i) then 0 else 1)
              && (w.socket != Some(i) ==> w.sockets[i].generation < w.generation)
              && (w.snapshot.phase == Active && w.socket == Some(i) ==> w.sockets[i].sent != [])
  {
    RunKeepsInv(START, events);
  }

  predicate UserEvent(event: Event) {
    event.UserStarts? || event.UserConnects? || event.UserCloses?
  }

  /** What a page shows and what its sockets have been told. */
  predicate SameOutside(w: World, later: World) {
    && later.snapshot == w.snapshot && later.generation == w.generation && |later.sockets| == |w.sockets|
    && forall i :: 0 <= i < |w.sockets| ==>
         later.sockets[i].sent == w.sockets[i].sent && later.sockets[i].closes == w.sockets[i].closes
  }

  lemma QuietStep(w: World, event: Event)
    requires Inv(w) && Quiet(w) && !UserEvent(event)
    ensures SameOutside(w, Step(w, event)) && Quiet(Step(w, event))
  {
  }

  /**
   When nothing of the current generation is under way, no late reply, socket event, timer,
   input or output failure changes what is shown or sends anything, until the user acts.
   */
  lemma {:induction false} QuietUntilUserActs(w: World, events: seq<Event>)
    requires Inv(w) && Quiet(w)
    requires forall i :: 0 <= i < |events| ==> Plausible(events[i]) && !UserEvent(events[i])
    ensures SameOutside(w, Run(w, events))
    decreases |events|
  {
    if events != [] {
      QuietStep(w, events[0]);
      StepKeepsInv(w, events[0]);
      QuietUntilUserActs(Step(w, events[0]), events[1..]);
    }
  }

  /** Whatever the page shows as an outcome stays until the user acts. */
  lemma OutcomesAreFinal(before: seq<Event>, after: seq<Event>)
    requires forall i :: 0 <= i < |before| ==> Plausible(before[i])
    requires forall i :: 0 <= i < |after| ==> Plausible(after[i]) && !UserEvent(after[i])
    ensures var w := Run(START, before);
            !InProgress(w.snapshot.phase) ==> SameOutside(w, Run(w, after))
  {
    RunKeepsInv(START, before);
    var w := Run(START, before);
    if !InProgress(w.snapshot.phase) {
      QuietUntilUserActs(w, after);
    }
  }
}
