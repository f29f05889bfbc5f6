/**
 What every event of a connection leads to: what the page shows, what its sockets are told, and
 what is asked for next.  The lemmas speak of events and of the state before and after them, in
 every state the controller can be in.
 */
module ConnectionOutcomes {
  import opened Wrappers
  import opened Connection
  import ControlCodec

  /** An open socket in use is told to close when the user leaves it, and only then. */
  function Farewell(s: Socket, used: bool, orderly: bool): seq<Message> {
    if used && orderly && s.ready == Open then s.sent + [CloseMessage] else s.sent
  }

  ghost predicate SocketsLeft(w: World, later: World, orderly: bool) {
    && later.socket.None? && |later.sockets| == |w.sockets|
    && forall i :: 0 <= i < |w.sockets| ==>
         && later.sockets[i].sent == Farewell(w.sockets[i], w.socket == Some(i), orderly)
         && later.sockets[i].closes == w.sockets[i].closes + if w.socket == Some(i) then 1 else 0
  }

  /** What was under way is over: its socket closed, its timer cleared, its replies and input unheard. */
  ghost predicate Left(w: World, later: World, orderly: bool) {
    && later.generation == w.generation + 1 && !later.activated && later.exitStatus.None?
    && later.targets == w.targets && SocketsLeft(w, later, orderly)
  }

  /** No deadline runs and no reply is awaited. */
  ghost predicate AtRest(w: World) {
    && w.timer.None? && (forall i :: 0 <= i < |w.timers| ==> !w.timers[i].live)
    && NothingAwaited(w)
  }

  /** The attempt has come to its end with this outcome on show. */
  ghost predicate EndsWith(w: World, later: World, phase: Phase, active: Option<Target>) {
    && Left(w, later, false) && AtRest(later)
    && later.snapshot == Snapshot(phase, w.targets, active, w.exitStatus)
  }

  lemma FinishEnds(w: World, settled: World, phase: Phase, target: Option<Target>)
    requires SocketsInv(w) && TimersInv(w) && AwaitedInv(w)
    requires settled == w.(awaited := settled.awaited) && AwaitedInv(settled)
    ensures EndsWith(w, Finish(settled, phase, target), phase, if target.Some? then target else w.snapshot.active)
  {
    ReplaceQuiets(settled, false);
  }

  // ----- replies -----

  /** The reply is to the request that is under way. */
  predicate Answers(w: World, index: nat) {
    index < |w.awaited| && Waiting(w.awaited[index], w.generation)
  }

  /** A refused grant shows the refusal's own phase and the target that was asked for. */
  lemma RefusedGrantIsShown(w: World, index: nat, phase: Phase)
    requires Inv(w) && Answers(w, index) && w.awaited[index].Grant?
    ensures EndsWith(w, Step(w, ReplyArrives(index, Failed(phase))), phase, Some(w.awaited[index].configured))
  {
    SettledQuiets(w, index);
    FinishEnds(w, w.(awaited := w.awaited[index := Settled]), phase, Some(w.awaited[index].configured));
  }

  /** A grant for another target than the one asked for opens nothing and shows an internal error. */
  lemma GrantForAnotherIsRefused(w: World, index: nat, ticket: string, target: Target, fails: bool)
    requires Inv(w) && Answers(w, index) && w.awaited[index].Grant? && target.name != w.awaited[index].configured.name
    ensures
      EndsWith(w, Step(w, ReplyArrives(index, GrantOk(ticket, target, fails))),
               InternalError, Some(w.awaited[index].configured))
  {
    SettledQuiets(w, index);
    FinishEnds(w, w.(awaited := w.awaited[index := Settled]), InternalError, Some(w.awaited[index].configured));
  }

  /** So does a grant for which no socket can be made. */
  lemma GrantWithoutASocketIsShown(w: World, index: nat, ticket: string, target: Target)
    requires Inv(w) && Answers(w, index) && w.awaited[index].Grant? && target.name == w.awaited[index].configured.name
    ensures EndsWith(w, Step(w, ReplyArrives(index, GrantOk(ticket, target, true))), InternalError, Some(target))
  {
    SettledQuiets(w, index);
    FinishEnds(w, w.(awaited := w.awaited[index := Settled]), InternalError, Some(target));
  }

  /** A grant for the target asked for opens exactly one socket, with its own ticket and target. */
  lemma GoodGrantOpensOneSocket(w: World, index: nat, ticket: string, target: Target)
    requires Inv(w) && Answers(w, index) && w.awaited[index].Grant? && target.name == w.awaited[index].configured.name
    ensures
      var later := Step(w, ReplyArrives(index, GrantOk(ticket, target, false)));
      && later.sockets == w.sockets + [Socket(Opening, w.generation, ticket, target, [], 0)]
      && later.socket == Some(|w.sockets|) && NothingAwaited(later)
      && later.snapshot == Snapshot(Phase.Connecting, w.targets, Some(target), None)
      && later.timer == w.timer && later.timers == w.timers && later.generation == w.generation
      && later.targets == w.targets && !later.activated
  {
    SettledQuiets(w, index);
  }

  /** The identity is followed by a request for the targets, in the same attempt, and by nothing else. */
  lemma IdentityAsksForTargets(w: World, index: nat)
    requires Inv(w) && Answers(w, index) && w.awaited[index].Identity?
    ensures
      var later := Step(w, ReplyArrives(index, IdentityOk));
      && later == w.(awaited := w.awaited[index := Settled] + [Targets(w.generation)])
      && Answers(later, |w.awaited|)
  {
  }

  /** The targets are shown and the page is ready; none at all is an internal error. */
  lemma TargetsAreShown(w: World, index: nat, targets: seq<Target>)
    requires Inv(w) && Answers(w, index) && w.awaited[index].Targets?
    ensures
      var later := Step(w, ReplyArrives(index, TargetsOk(targets)));
      if targets == [] then EndsWith(w, later, InternalError, w.snapshot.active)
      else
        && later.targets == targets && later.snapshot == Snapshot(Ready, targets, None, None)
        && later.sockets == w.sockets && later.generation == w.generation && NothingAwaited(later)
  {
    SettledQuiets(w, index);
    FinishEnds(w, w.(awaited := w.awaited[index := Settled]), InternalError, None);
  }

  /** A refusal on the way to the targets shows its own phase. */
  lemma RefusedStartIsShown(w: World, index: nat, phase: Phase)
    requires Inv(w) && Answers(w, index) && !w.awaited[index].Grant?
    ensures EndsWith(w, Step(w, ReplyArrives(index, Failed(phase))), phase, w.snapshot.active)
  {
    SettledQuiets(w, index);
    FinishEnds(w, w.(awaited := w.awaited[index := Settled]), phase, None);
  }

  // ----- the socket -----

  /** A socket that opens is sent its ticket and then the terminal's size, and the session is active. */
  lemma OpeningSendsTheTicket(w: World, id: nat)
    requires Inv(w) && w.socket == Some(id) && w.sockets[id].ready == Opening
    ensures
      var later := Step(w, SocketOpens(id));
      && later.sockets ==
           w.sockets[id := w.sockets[id].(ready := Open, sent := [Ticket(w.sockets[id].ticket), ResizeMessage])]
      && later.snapshot == Snapshot(Active, w.targets, Some(w.sockets[id].target), None)
      && later.socket == w.socket && later.generation == w.generation && later.activated && AtRest(later)
  {
    ClearQuiets(w);
    var s := w.sockets[id];
    assert s.sent == [] && [] + [Ticket(s.ticket)] + [ResizeMessage] == [Ticket(s.ticket), ResizeMessage];
    var ready := w.sockets[id := s.(ready := Open)];
    var greeted := ready[id := ready[id].(sent := [Ticket(s.ticket)])];
    assert ready[id := greeted[id]] == greeted;
  }

  predicate Listening(w: World, id: nat) {
    w.socket == Some(id) && id < |w.sockets| && w.sockets[id].ready != Opening
  }

  /** An exit status is kept and shown; nothing else changes. */
  lemma ExitStatusIsShown(w: World, id: nat, status: ExitStatus)
    requires Inv(w) && Listening(w, id)
    ensures
      Step(w, SocketReceives(id, ExitData(status))) ==
      w.(exitStatus := Some(status), snapshot := w.snapshot.(exitStatus := Some(status)))
  {
  }

  /** The phase each error code of the server is shown as; every other code is an internal error. */
  const ERROR_PHASES: map<string, Phase> :=
    map["authorization-denied" := Denied,
        "session-denied" := Denied,
        "ssh-host-key-failed" := SshHostKeyFailed,
        "ssh-connection-failed" := SshConnectionFailed,
        "ssh-authentication-failed" := SshAuthenticationFailed,
        "ssh-policy-denied" := SshPolicyDenied,
        "ssh-failed" := SshFailed,
        "protocol-error" := ProtocolError]

  lemma ErrorPhaseIsTheTables(code: string)
    ensures ErrorPhase(code) == if code in ERROR_PHASES then ERROR_PHASES[code] else InternalError
  {
  }

  lemma ServerErrorIsShown(w: World, id: nat, code: string)
    requires Inv(w) && Listening(w, id)
    ensures
      EndsWith(w, Step(w, SocketReceives(id, ErrorData(code))),
               if code in ERROR_PHASES then ERROR_PHASES[code] else InternalError, Some(w.sockets[id].target))
  {
    ErrorPhaseIsTheTables(code);
    FinishEnds(w, w, ErrorPhase(code), Some(w.sockets[id].target));
  }

  /** The phase each close reason of the server is shown as. */
  const CLOSE_PHASES: map<ControlCodec.CloseReason, Phase> :=
    map[ControlCodec.ClientRequest := UserClosed,
        ControlCodec.CloseReason.Exited := Phase.Exited,
        ControlCodec.Timeout := TimedOut,
        ControlCodec.Policy := Denied,
        ControlCodec.ProtocolFailure := ProtocolError,
        ControlCodec.TransportError := TransportDisconnected,
        ControlCodec.CloseReason.InternalError := Phase.InternalError]

  lemma ClosePhaseIsTheTables(reason: ControlCodec.CloseReason)
    ensures reason in CLOSE_PHASES && ClosePhase(reason) == CLOSE_PHASES[reason]
  {
  }

  lemma ServerCloseIsShown(w: World, id: nat, reason: ControlCodec.CloseReason)
    requires Inv(w) && Listening(w, id) && reason in CLOSE_PHASES
    ensures
      EndsWith(w, Step(w, SocketReceives(id, CloseData(reason))), CLOSE_PHASES[reason], Some(w.sockets[id].target))
  {
    ClosePhaseIsTheTables(reason);
    FinishEnds(w, w, ClosePhase(reason), Some(w.sockets[id].target));
  }

  /** What cannot be decoded is a protocol error. */
  lemma NonsenseIsAProtocolError(w: World, id: nat)
    requires Inv(w) && Listening(w, id)
    ensures EndsWith(w, Step(w, SocketReceives(id, Malformed)), ProtocolError, Some(w.sockets[id].target))
  {
    FinishEnds(w, w, ProtocolError, Some(w.sockets[id].target));
  }

  /** Output ends an active session exactly when it overflows the queue. */
  lemma OutputEndsTheSessionExactly(w: World, id: nat, overflows: bool)
    requires Inv(w) && Listening(w, id)
    ensures
      var later := Step(w, SocketReceives(id, OutputData(overflows)));
      if w.snapshot.phase == Active && overflows then EndsWith(w, later, InternalError, Some(w.sockets[id].target))
      else later == w
  {
    FinishEnds(w, w, InternalError, Some(w.sockets[id].target));
  }

  /** A lost connection is shown as such. */
  lemma LossIsShown(w: World, id: nat, closed: bool)
    requires Inv(w) && w.socket == Some(id)
    ensures EndsWith(w, Step(w, SocketFails(id, closed)), TransportDisconnected, Some(w.sockets[id].target))
    ensures closed ==> Step(w, SocketFails(id, closed)).sockets[id].ready == Closed
  {
    var after := if closed then w.(sockets := w.sockets[id := w.sockets[id].(ready := Closed)]) else w;
    ReplaceQuiets(after, false);
  }

  /** The terminal of an active session sends what it is given, read-only ones only their size. */
  lemma InputIsSent(w: World, id: nat, message: Message, overflows: bool)
    requires Inv(w) && w.socket == Some(id) && w.sockets[id].ready == Open && (message == Binary ==> !overflows)
    ensures
      Step(w, UserTypes(id, message, overflows)) ==
      if message == ResizeMessage || (message == Binary && !w.sockets[id].target.readOnly) then
        w.(sockets := w.sockets[id := w.sockets[id].(sent := w.sockets[id].sent + [message])])
      else w
  {
  }

  /** What is typed where no connection is open goes nowhere. */
  lemma LateInputIsDropped(w: World, id: nat, message: Message, overflows: bool)
    requires Inv(w) && (w.socket == Some(id) ==> w.sockets[id].ready != Open)
    ensures Step(w, UserTypes(id, message, overflows)) == w
  {
  }

  /** Input that the socket cannot take ends the session, and so does output the terminal cannot take. */
  lemma OverflowEndsTheSession(w: World, id: nat)
    requires Inv(w) && w.socket == Some(id) && w.sockets[id].ready == Open
    ensures !w.sockets[id].target.readOnly ==>
              EndsWith(w, Step(w, UserTypes(id, Binary, true)), InternalError, Some(w.sockets[id].target))
    ensures EndsWith(w, Step(w, OutputDrains(id, true)), InternalError, Some(w.sockets[id].target))
    ensures Step(w, OutputDrains(id, false)) == w
  {
    FinishEnds(w, w, InternalError, Some(w.sockets[id].target));
  }

  /** A deadline that passes is shown, with the target the attempt was for. */
  lemma DeadlineIsShown(w: World, index: nat)
    requires Inv(w) && w.timer == Some(index)
    ensures EndsWith(w, Step(w, TimerFires(index)), TimedOut, Some(w.timers[index].target))
  {
    var fired := w.(timers := w.timers[index := w.timers[index].(live := false)]);
    assert Replace(fired, false) == Replace(w, false);
    FinishEnds(w, w, TimedOut, Some(w.timers[index].target));
    assert Step(w, TimerFires(index)) == Finish(w, TimedOut, Some(w.timers[index].target));
  }

  // ----- the user -----

  lemma ReplaceLeaves(w: World, orderly: bool)
    requires SocketsInv(w) && TimersInv(w) && AwaitedInv(w)
    ensures Left(w, Replace(w, orderly), orderly) && AtRest(Replace(w, orderly))
  {
    ReplaceQuiets(w, orderly);
  }

  /** A start forgets the targets on show and asks for an identity. */
  lemma StartAsksForAnIdentity(w: World)
    requires Inv(w)
    ensures
      var later := Step(w, UserStarts);
      && Left(w, later, false) && later.timer.None?
      && later.snapshot == Snapshot(EstablishingIdentity, [], None, None)
      && later.awaited == w.awaited + [Identity(later.generation)]
  {
    ReplaceLeaves(w, false);
  }

  /** Connecting to a known name leaves the old session in good order and asks for a grant, under a deadline. */
  lemma ConnectAsksForAGrant(w: World, target: Target)
    requires Inv(w) && Find(w.targets, target.name) == Some(target)
    ensures
      var later := Step(w, UserConnects(target.name));
      && Left(w, later, true)
      && later.snapshot == Snapshot(RequestingAuthorization, w.targets, Some(target), None)
      && later.awaited == w.awaited + [Grant(later.generation, target)]
      && later.timer == Some(|w.timers|) && |later.timers| == |w.timers| + 1
      && later.timers[|w.timers|] == Timer(later.generation, target, true)
  {
    ReplaceLeaves(w, true);
  }

  /** Of several targets of one name the first is meant. */
  lemma {:induction false} FirstOfTheNameIsMeant(targets: seq<Target>, i: nat)
    requires i < |targets| && forall j :: 0 <= j < i ==> targets[j].name != targets[i].name
    ensures Find(targets, targets[i].name) == Some(targets[i])
  {
    if i > 0 {
      FirstOfTheNameIsMeant(targets[1..], i - 1);
    }
  }

  /** An unknown name is denied, unless nothing has been fetched yet. */
  lemma UnknownNameIsDenied(w: World, name: string)
    requires Inv(w) && forall i :: 0 <= i < |w.targets| ==> w.targets[i].name != name
    ensures
      var later := Step(w, UserConnects(name));
      if w.targets == [] then later == w
      else Left(w, later, true) && AtRest(later) && later.snapshot == Snapshot(Denied, w.targets, None, None)
  {
    ReplaceLeaves(w, true);
    assert Find(w.targets, name).None?;
  }

  /** Closing leaves the session in good order. */
  lemma CloseLeavesInOrder(w: World)
    requires Inv(w)
    ensures
      var later := Step(w, UserCloses);
      && Left(w, later, true) && AtRest(later)
      && later.snapshot == Snapshot(UserClosed, w.targets, w.snapshot.active, None)
  {
    ReplaceLeaves(w, true);
  }
}
