/**
 Child-process cleanup (crates/ttygated/src/pty_backend.rs).

 `PtyChild` is the object the server mutates; `Child` is its value, extended with the trace of
 process-group operations the object has issued.  Every system call result is a choice of the
 environment: `Environment` lists the choices one call of `terminate` can observe.
 */
module PtyBackend {
  import opened Wrappers

  datatype CleanupState = Running | ExitObservedUnreaped | FinalSignalAttempted | Reaped

  /** What reaches the operating system for this process group, in order. */
  datatype GroupOp = Observe | Hup | Kill | Reap | ProbePresent | ProbeAbsent

  datatype Child = Child(cleanup: CleanupState, exitStatus: Option<int>, trace: seq<GroupOp>)

  const SPAWNED := Child(Running, None, [])

  /** How the polling loop that follows SIGHUP ends. */
  datatype PollOutcome = NeverObserved | Observed | PollFailed

  /**
   `status` is the result of the bounded wait (None: timeout or error), `present` the number of
   probes that still find the group, and `absent` whether the probe after them reports ESRCH.
   */
  datatype Environment = Environment(poll: PollOutcome, status: Option<int>, present: nat, absent: bool)

  function Probes(n: nat): (ops: seq<GroupOp>)
    ensures |ops| == n && forall i :: 0 <= i < n ==> ops[i] == ProbePresent
  {
    seq(n, i => ProbePresent)
  }

  predicate Unsignalled(c: Child) {
    c.cleanup.Running? || c.cleanup.ExitObservedUnreaped?
  }

  predicate AbortsEarly(c: Child, env: Environment) {
    c.cleanup.Running? && env.poll.PollFailed?
  }

  /** SIGHUP, the polling loop and SIGKILL; only an unsignalled leader reaches them. */
  function Signalled(c: Child, env: Environment): Child {
    if !Unsignalled(c) then c
    else
      var seen := if c.cleanup.Running? && env.poll.Observed? then [Observe] else [];
      Child(FinalSignalAttempted, c.exitStatus, c.trace + [Hup] + seen + [Kill])
  }

  /** The bounded wait: a cached status is returned without touching the child. */
  function Waited(c: Child, env: Environment): Child {
    if c.exitStatus.Some? || env.status.None? then c
    else Child(Reaped, env.status, c.trace + [Reap])
  }

  function Probed(c: Child, env: Environment): Child {
    c.(trace := c.trace + Probes(env.present) + if env.absent then [ProbeAbsent] else [])
  }

  /** One call of `terminate`: the child afterwards and the status it returns, None for an error. */
  function TerminateCall(c: Child, env: Environment): (Child, Option<int>) {
    if AbortsEarly(c, env) then (c.(trace := c.trace + [Hup]), None)
    else
      var waited := Waited(Signalled(c, env), env);
      if waited.exitStatus.None? then (waited, None)
      else (Probed(waited, env), if env.absent then waited.exitStatus else None)
  }

  /** One call of `poll_exit_observed`; `waitid` is the system call's answer. */
  function PollCall(c: Child, waitid: Option<bool>): (Child, Option<bool>) {
    if !c.cleanup.Running? then (c, Some(true))
    else if waitid == Some(true) then (Child(ExitObservedUnreaped, c.exitStatus, c.trace + [Observe]), waitid)
    else (c, waitid)
  }

  // ----- the object -----

  class PtyChild {
    var cleanupState: CleanupState
    var exitStatus: Option<int>
    ghost var trace: seq<GroupOp>
    ghost var killedAt: Option<int>

    ghost function View(): Child
      reads this
    {
      Child(cleanupState, exitStatus, trace)
    }

    constructor ()
      ensures View() == SPAWNED && killedAt == None
    {
      cleanupState := Running;
      exitStatus := None;
      trace := [];
      killedAt := None;
    }

    method PollExitObserved() returns (observed: Option<bool>, ghost waitid: Option<bool>)
      modifies this`cleanupState, this`trace
      ensures (View(), observed) == PollCall(old(View()), waitid)
    {
      waitid := None;
      if cleanupState != Running {
        return Some(true), None;
      }
      var answer := SystemCall();
      if answer == Some(true) {
        cleanupState := ExitObservedUnreaped;
        trace := trace + [Observe];
      }
      return answer, answer;
    }

    /** The child's own wait under a timeout: a cached status always wins over the timeout. */
    method WaitAfterFinalSignal() returns (status: Option<int>, ghost answer: Option<int>)
      modifies this`cleanupState, this`exitStatus, this`trace
      ensures View() == Waited(old(View()), Environment(NeverObserved, answer, 0, false))
      ensures status == exitStatus
    {
      answer := None;
      if exitStatus.Some? {
        return exitStatus, None;
      }
      var reaped := ReapCall();
      answer := reaped;
      if reaped.Some? {
        exitStatus := reaped;
        cleanupState := Reaped;
        trace := trace + [Reap];
      }
      return reaped, reaped;
    }

    /**
     Probes until the group is gone, a probe fails, or the time is over: `answers` are those of the
     probes, `ended` the time at the last one.
     */
    method WaitForGroupAbsence(grace: nat, start: int)
      returns (absent: bool, ghost present: nat, ghost answers: seq<Option<bool>>, ghost ended: int)
      modifies this`trace
      ensures trace == old(trace) + Probes(present) + if absent then [ProbeAbsent] else []
      ensures answers != [] && forall i :: 0 <= i < |answers| - 1 ==> answers[i] == Some(false)
      ensures absent <==> answers[|answers| - 1] == Some(true)
      ensures !absent ==> answers[|answers| - 1] == None || ended >= start + grace
      ensures present == |answers| - if answers[|answers| - 1] == Some(false) then 0 else 1
    {
      present, answers, ended := 0, [], start;
      var now := start;
      var deadline := start + grace;
      while true
        invariant trace == old(trace) + Probes(present) && present == |answers|
        invariant forall i :: 0 <= i < |answers| ==> answers[i] == Some(false)
        decreases deadline - now
      {
        var probe := SystemCall();
        answers, ended := answers + [probe], now;
        if probe.None? {
          return false, present, answers, ended;
        }
        if probe.value {
          trace := trace + [ProbeAbsent];
          return true, present, answers, ended;
        }
        trace := trace + [ProbePresent];
        present := present + 1;
        if now >= deadline {
          return false, present, answers, ended;
        }
        now := SleepUntil(if deadline < now + 10 then deadline else now + 10);
      }
    }

    method SendFinalSignal(now: int)
      modifies this`cleanupState, this`trace, this`killedAt
      ensures cleanupState == FinalSignalAttempted && trace == old(trace) + [Kill] && killedAt == Some(now)
    {
      cleanupState := FinalSignalAttempted;
      trace := trace + [Kill];
      killedAt := Some(now);
    }

    /** SIGKILL, when it is sent, is sent no sooner than `grace` after the start. */
    method Terminate(grace: nat, start: int) returns (status: Option<int>, ghost env: Environment)
      modifies this
      ensures (View(), status) == TerminateCall(old(View()), env)
      ensures if Unsignalled(old(View())) && !AbortsEarly(old(View()), env) then
                killedAt.Some? && killedAt.value >= start + grace
              else killedAt == old(killedAt)
    {
      env := Environment(NeverObserved, None, 0, false);
      ghost var before := View();
      var now := start;
      if cleanupState == Running || cleanupState == ExitObservedUnreaped {
        trace := trace + [Hup];
        var deadline := now + grace;
        while cleanupState == Running && now < deadline
          invariant Unsignalled(View()) && exitStatus == before.exitStatus
          invariant before.cleanup.ExitObservedUnreaped? ==> cleanupState == before.cleanup
          invariant killedAt == old(killedAt)
          invariant trace == before.trace + [Hup] + if cleanupState != before.cleanup then [Observe] else []
          decreases cleanupState == Running, deadline - now
        {
          var observed, _ := PollExitObserved();
          if observed.None? {
            env := env.(poll := PollFailed);
            return None, env;
          }
          if cleanupState == Running {
            now := SleepUntil(if deadline < now + 10 then deadline else now + 10);
          }
        }
        if cleanupState != before.cleanup {
          env := env.(poll := Observed);
        }
        now := SleepUntil(deadline);
        SendFinalSignal(now);
        assert View() == Signalled(before, env);
      }
      ghost var answer;
      status, answer := WaitAfterFinalSignal();
      env := env.(status := answer);
      if status.None? {
        return None, env;
      }
      var absent, present, _, _ := WaitForGroupAbsence(grace, now);
      env := env.(present := present, absent := absent);
      if !absent {
        return None, env;
      }
      return status, env;
    }
  }

  /** A kernel answer nobody controls: Some(b) for a successful call, None for an error. */
  method SystemCall() returns (answer: Option<bool>)
  {
    answer := *;
  }

  /** The kernel's answer to a bounded wait for the leader: None for a timeout or an error. */
  method ReapCall() returns (answer: Option<int>)
  {
    answer := *;
  }

  method SleepUntil(deadline: int) returns (now: int)
    ensures now >= deadline
  {
    now := *;
    if now < deadline {
      now := deadline;
    }
  }

  // ----- which answer is given when -----

  /**
   A call of `terminate` succeeds exactly when its polling does not fail, the leader's status is
   known or comes in time, and the group is found gone; it kills in every call whose polling does
   not fail, unless it has killed before.
   */
  lemma TerminateAnswersExactly(c: Child, env: Environment, status: int)
    requires ChildInv(c)
    ensures
      var (after, result) := TerminateCall(c, env);
      var aborts := c.cleanup.Running? && env.poll.PollFailed?;
      && (result == Some(status) <==>
            && !aborts && env.absent
            && (c.exitStatus == Some(status) || (c.exitStatus.None? && env.status == Some(status))))
      && (Kill in after.trace <==> Kill in c.trace || !aborts)
      && (after.exitStatus == Some(status) <==>
            c.exitStatus == Some(status) || (!aborts && c.exitStatus.None? && env.status == Some(status)))
  {
    TerminateKeepsInv(c, env);
    if !AbortsEarly(c, env) {
      var signalled := Signalled(c, env);
      SignalledKeepsInv(c, env);
      assert Kill in signalled.trace;
      WaitedKeepsInv(signalled, env);
      assert forall op :: op in signalled.trace ==> op in Waited(signalled, env).trace;
    }
  }

  /** A call begins with SIGHUP, what its polling saw, and SIGKILL; one after SIGKILL sends neither again. */
  lemma SignalsComeInOrder(c: Child, env: Environment)
    ensures
      var trace := TerminateCall(c, env).0.trace;
      if !Unsignalled(c) then
        c.trace <= trace && forall i :: |c.trace| <= i < |trace| ==> trace[i] != Hup && trace[i] != Kill
      else if c.cleanup.Running? && env.poll.PollFailed? then trace == c.trace + [Hup]
      else if c.cleanup.Running? && env.poll.Observed? then c.trace + [Hup, Observe, Kill] <= trace
      else c.trace + [Hup, Kill] <= trace
  {
    if Unsignalled(c) {
      assert c.trace + [Hup] + [Observe] + [Kill] == c.trace + [Hup, Observe, Kill];
      assert c.trace + [Hup] + [] + [Kill] == c.trace + [Hup, Kill];
    }
  }

  /** A poll asks the system only until the exit is observed, and remembers that. */
  lemma PollAnswersExactly(c: Child, waitid: Option<bool>, later: Option<bool>)
    ensures
      var (after, observed) := PollCall(c, waitid);
      && observed == (if c.cleanup.Running? then waitid else Some(true))
      && (after.trace == if c.cleanup.Running? && waitid == Some(true) then c.trace + [Observe] else c.trace)
      && (observed == Some(true) ==> PollCall(after, later) == (after, Some(true)))
      && (observed != Some(true) ==> after == c)
  {
  }

  // ----- what every sequence of calls keeps -----

  predicate Before(trace: seq<GroupOp>, a: GroupOp, b: GroupOp) {
    exists i, j :: 0 <= i < j < |trace| && trace[i] == a && trace[j] == b
  }

  /** The leader was reaped, and a later probe found its process group gone. */
  predicate ProvenAbsent(c: Child) {
    Before(c.trace, Reap, ProbeAbsent)
  }

  /**
   Nothing signals a group whose leader is reaped, SIGKILL and the reap happen at most once, and
   the reap only after SIGKILL.
   */
  predicate SafeTrace(trace: seq<GroupOp>) {
    && !Before(trace, Reap, Hup) && !Before(trace, Reap, Kill)
    && !Before(trace, Kill, Kill) && !Before(trace, Reap, Reap)
    && (Reap in trace ==> Before(trace, Kill, Reap))
  }

  predicate ChildInv(c: Child) {
    && SafeTrace(c.trace)
    && (c.cleanup.Reaped? <==> c.exitStatus.Some?)
    && (c.cleanup.Reaped? <==> Reap in c.trace)
    && (Unsignalled(c) <==> Kill !in c.trace)
  }

  lemma SpawnedChildIsSafe()
    ensures ChildInv(SPAWNED)
  {
  }

  lemma BeforeInLonger(trace: seq<GroupOp>, op: GroupOp, a: GroupOp, b: GroupOp)
    requires Before(trace, a, b) || (op == b && a in trace)
    ensures Before(trace + [op], a, b)
  {
    var longer := trace + [op];
    if Before(trace, a, b) {
      var i, j :| 0 <= i < j < |trace| && trace[i] == a && trace[j] == b;
      assert longer[i] == a && longer[j] == b;
    } else {
      var i :| 0 <= i < |trace| && trace[i] == a;
      assert longer[i] == a && longer[|trace|] == b;
    }
  }

  lemma BeforeInShorter(trace: seq<GroupOp>, op: GroupOp, a: GroupOp, b: GroupOp)
    requires Before(trace + [op], a, b)
    ensures Before(trace, a, b) || (op == b && a in trace)
  {
    var longer := trace + [op];
    var i, j :| 0 <= i < j < |longer| && longer[i] == a && longer[j] == b;
    assert trace[i] == a;
    if j < |trace| {
      assert trace[j] == b;
    }
  }

  lemma BeforeAppend(trace: seq<GroupOp>, op: GroupOp, a: GroupOp, b: GroupOp)
    ensures Before(trace + [op], a, b) <==> Before(trace, a, b) || (op == b && a in trace)
  {
    if Before(trace + [op], a, b) {
      BeforeInShorter(trace, op, a, b);
    } else if Before(trace, a, b) || (op == b && a in trace) {
      BeforeInLonger(trace, op, a, b);
    }
  }

  predicate MayFollow(trace: seq<GroupOp>, op: GroupOp) {
    && (op == Hup || op == Kill ==> Reap !in trace)
    && (op == Kill ==> Kill !in trace)
    && (op == Reap ==> Kill in trace && Reap !in trace)
  }

  lemma AppendKeepsSafe(trace: seq<GroupOp>, op: GroupOp)
    requires SafeTrace(trace) && MayFollow(trace, op)
    ensures SafeTrace(trace + [op])
  {
    BeforeAppend(trace, op, Reap, Hup);
    BeforeAppend(trace, op, Reap, Kill);
    BeforeAppend(trace, op, Kill, Kill);
    BeforeAppend(trace, op, Reap, Reap);
    BeforeAppend(trace, op, Kill, Reap);
  }

  lemma {:induction false} ProbesKeepSafe(trace: seq<GroupOp>, n: nat)
    requires SafeTrace(trace)
    ensures SafeTrace(trace + Probes(n))
  {
    if n == 0 {
      assert trace + Probes(0) == trace;
    } else {
      ProbesKeepSafe(trace, n - 1);
      assert trace + Probes(n) == trace + Probes(n - 1) + [ProbePresent];
      AppendKeepsSafe(trace + Probes(n - 1), ProbePresent);
    }
  }

  lemma SignalledKeepsInv(c: Child, env: Environment)
    requires ChildInv(c)
    ensures ChildInv(Signalled(c, env)) && !Unsignalled(Signalled(c, env))
    ensures c.trace <= Signalled(c, env).trace
  {
    if Unsignalled(c) {
      AppendKeepsSafe(c.trace, Hup);
      AppendKeepsSafe(c.trace + [Hup], Observe);
      AppendKeepsSafe(c.trace + [Hup] + [Observe], Kill);
      AppendKeepsSafe(c.trace + [Hup], Kill);
      assert c.trace + [Hup] + [] == c.trace + [Hup];
    }
  }

  lemma WaitedKeepsInv(c: Child, env: Environment)
    requires ChildInv(c) && !Unsignalled(c)
    ensures ChildInv(Waited(c, env)) && !Unsignalled(Waited(c, env))
    ensures c.trace <= Waited(c, env).trace
  {
    if c.exitStatus.None? && env.status.Some? {
      AppendKeepsSafe(c.trace, Reap);
    }
  }

  lemma ProbedKeepsInv(c: Child, env: Environment)
    requires ChildInv(c) && c.exitStatus.Some?
    ensures ChildInv(Probed(c, env)) && (env.absent ==> ProvenAbsent(Probed(c, env)))
    ensures c.trace <= Probed(c, env).trace
  {
    ProbesKeepSafe(c.trace, env.present);
    var probed := c.trace + Probes(env.present);
    assert probed + [] == probed;
    assert Reap in probed && Kill in probed;
    AppendKeepsSafe(probed, ProbeAbsent);
    BeforeAppend(probed, ProbeAbsent, Reap, ProbeAbsent);
  }

  /**
   One call, whatever the system answers: the invariant survives, the trace only grows, a status
   once known never changes, and an Ok result carries it with the group reaped and probed absent.
   */
  lemma TerminateKeepsInv(c: Child, env: Environment)
    requires ChildInv(c)
    ensures
      var (after, status) := TerminateCall(c, env);
      && ChildInv(after) && c.trace <= after.trace
      && (c.exitStatus.Some? ==> after.exitStatus == c.exitStatus)
      && (status.Some? ==> status == after.exitStatus && ProvenAbsent(after))
      && (ProvenAbsent(c) ==> ProvenAbsent(after))
  {
    if AbortsEarly(c, env) {
      AppendKeepsSafe(c.trace, Hup);
    } else {
      SignalledKeepsInv(c, env);
      WaitedKeepsInv(Signalled(c, env), env);
      if Waited(Signalled(c, env), env).exitStatus.Some? {
        ProbedKeepsInv(Waited(Signalled(c, env), env), env);
      }
    }
    ExtensionKeepsProof(c, TerminateCall(c, env).0);
  }

  lemma ExtensionKeepsProof(c: Child, after: Child)
    requires c.trace <= after.trace
    ensures ProvenAbsent(c) ==> ProvenAbsent(after)
  {
    if ProvenAbsent(c) {
      var i, j :| 0 <= i < j < |c.trace| && c.trace[i] == Reap && c.trace[j] == ProbeAbsent;
      assert after.trace[i] == Reap && after.trace[j] == ProbeAbsent;
    }
  }

  lemma PollKeepsInv(c: Child, waitid: Option<bool>)
    requires ChildInv(c)
    ensures
      var (after, _) := PollCall(c, waitid);
      && ChildInv(after) && c.trace <= after.trace && after.exitStatus == c.exitStatus
      && (ProvenAbsent(c) ==> ProvenAbsent(after))
  {
    AppendKeepsSafe(c.trace, Observe);
    ExtensionKeepsProof(c, PollCall(c, waitid).0);
  }

  datatype Call = Polled(waitid: Option<bool>) | Terminated(env: Environment)

  function Do(c: Child, call: Call): (Child, Option<int>) {
    match call
    case Polled(waitid) => (PollCall(c, waitid).0, None)
    case Terminated(env) => TerminateCall(c, env)
  }

  /** Any sequence of calls on one child: the final child and every Ok status, in order. */
  function Calls(c: Child, calls: seq<Call>): (Child, seq<int>)
    decreases |calls|
  {
    if calls == [] then (c, [])
    else
      var (next, status) := Do(c, calls[0]);
      var (last, statuses) := Calls(next, calls[1..]);
      (last, Reported(status) + statuses)
  }

  function Reported(status: Option<int>): seq<int> {
    if status.Some? then [status.value] else []
  }

  lemma {:induction false} CallsKeepInv(c: Child, calls: seq<Call>)
    requires ChildInv(c)
    ensures
      var (last, statuses) := Calls(c, calls);
      && ChildInv(last)
      && (c.exitStatus.Some? ==> last.exitStatus == c.exitStatus)
      && (ProvenAbsent(c) || statuses != [] ==> ProvenAbsent(last))
      && forall i :: 0 <= i < |statuses| ==> last.exitStatus == Some(statuses[i])
    decreases |calls|
  {
    if calls != [] {
      match calls[0] {
        case Polled(waitid) => PollKeepsInv(c, waitid);
        case Terminated(env) => TerminateKeepsInv(c, env);
      }
      CallsKeepInv(Do(c, calls[0]).0, calls[1..]);
    }
  }

  /**
   For every sequence of `terminate` and polling calls on a spawned child, with any failures and
   timeouts: no signal after the reap, at most one SIGKILL, and every Ok result is the one status
   of a leader that was reaped before its group was probed absent.
   */
  lemma CleanupIsSafe(calls: seq<Call>)
    ensures
      var (last, statuses) := Calls(SPAWNED, calls);
      && SafeTrace(last.trace)
      && (statuses != [] ==> ProvenAbsent(last))
      && forall i, j :: 0 <= i < j < |statuses| ==> statuses[i] == statuses[j]
  {
    SpawnedChildIsSafe();
    CallsKeepInv(SPAWNED, calls);
  }

  // ----- SIGHUP, unlike SIGKILL, can be sent again -----

  function Aborts(c: Child, calls: seq<Call>): nat
    decreases |calls|
  {
    if calls == [] then 0
    else
      (if calls[0].Terminated? && AbortsEarly(c, calls[0].env) then 1 else 0) + Aborts(Do(c, calls[0]).0, calls[1..])
  }

  function Hups(trace: seq<GroupOp>): nat {
    if trace == [] then 0
    else Hups(trace[..|trace| - 1]) + if trace[|trace| - 1] == Hup then 1 else 0
  }

  lemma HupsAppend(trace: seq<GroupOp>, op: GroupOp)
    ensures Hups(trace + [op]) == Hups(trace) + if op == Hup then 1 else 0
  {
    assert (trace + [op])[..|trace|] == trace;
  }

  lemma {:induction false} HupsProbes(trace: seq<GroupOp>, n: nat)
    ensures Hups(trace + Probes(n)) == Hups(trace)
  {
    if n == 0 {
      assert trace + Probes(0) == trace;
    } else {
      HupsProbes(trace, n - 1);
      assert trace + Probes(n) == trace + Probes(n - 1) + [ProbePresent];
      HupsAppend(trace + Probes(n - 1), ProbePresent);
    }
  }

  lemma HupsOfSignalled(c: Child, env: Environment)
    ensures Hups(Signalled(c, env).trace) == Hups(c.trace) + if Unsignalled(c) then 1 else 0
  {
    HupsAppend(c.trace, Hup);
    HupsAppend(c.trace + [Hup], Observe);
    HupsAppend(c.trace + [Hup] + [Observe], Kill);
    HupsAppend(c.trace + [Hup], Kill);
    assert c.trace + [Hup] + [] == c.trace + [Hup];
  }

  lemma HupsOfProbed(c: Child, env: Environment)
    ensures Hups(Probed(c, env).trace) == Hups(c.trace)
  {
    HupsProbes(c.trace, env.present);
    var probed := c.trace + Probes(env.present);
    HupsAppend(probed, ProbeAbsent);
    assert probed + [] == probed;
  }

  lemma HupsOfWaited(c: Child, env: Environment)
    ensures Hups(Waited(c, env).trace) == Hups(c.trace)
    ensures !Unsignalled(c) ==> !Unsignalled(Waited(c, env))
  {
    HupsAppend(c.trace, Reap);
  }

  /** After the signals neither the wait nor the probes send another. */
  lemma HupsOfTheRest(signalled: Child, env: Environment)
    requires !Unsignalled(signalled)
    ensures
      var waited := Waited(signalled, env);
      && Hups(waited.trace) == Hups(signalled.trace) && Hups(Probed(waited, env).trace) == Hups(signalled.trace)
      && !Unsignalled(waited) && !Unsignalled(Probed(waited, env))
  {
    HupsOfWaited(signalled, env);
    HupsOfProbed(Waited(signalled, env), env);
  }

  lemma HupsOfFullCall(c: Child, env: Environment)
    requires !AbortsEarly(c, env)
    ensures
      var after := TerminateCall(c, env).0;
      Hups(after.trace) == Hups(c.trace) + (if Unsignalled(c) then 1 else 0) && !Unsignalled(after)
  {
    var signalled := Signalled(c, env);
    assert !Unsignalled(signalled);
    HupsOfSignalled(c, env);
    HupsOfTheRest(signalled, env);
    var waited := Waited(signalled, env);
    assert TerminateCall(c, env).0 == if waited.exitStatus.None? then waited else Probed(waited, env);
  }

  lemma HupsOfOneCall(c: Child, env: Environment)
    ensures
      var after := TerminateCall(c, env).0;
      && Hups(after.trace) == Hups(c.trace) + (if Unsignalled(c) then 1 else 0)
      && (Unsignalled(after) <==> AbortsEarly(c, env))
  {
    if AbortsEarly(c, env) {
      HupsAppend(c.trace, Hup);
    } else {
      HupsOfFullCall(c, env);
    }
  }

  /**
   SIGHUPs sent are exactly the calls that returned early on a failed poll, plus one for the call
   that went on to SIGKILL: the signal is repeated if and only if some call aborted before it.
   */
  lemma {:induction false} HupsAreAbortsPlusFinal(c: Child, calls: seq<Call>)
    requires ChildInv(c)
    ensures
      var last := Calls(c, calls).0;
      Hups(last.trace)
        == Hups(c.trace) + Aborts(c, calls) + if Unsignalled(c) && !Unsignalled(last) then 1 else 0
    ensures !Unsignalled(c) ==> !Unsignalled(Calls(c, calls).0) && Aborts(c, calls) == 0
    decreases |calls|
  {
    if calls != [] {
      match calls[0] {
        case Polled(waitid) =>
          PollKeepsInv(c, waitid);
          HupsAppend(c.trace, Observe);
        case Terminated(env) =>
          TerminateKeepsInv(c, env);
          HupsOfOneCall(c, env);
      }
      HupsAreAbortsPlusFinal(Do(c, calls[0]).0, calls[1..]);
    }
  }

  lemma OneCall(c: Child, call: Call)
    ensures Calls(c, [call]) == (Do(c, call).0, Reported(Do(c, call).1))
  {
    var once := Do(c, call).0;
    assert [call][1..] == [];
    assert Calls(once, []) == (once, []);
    assert Reported(Do(c, call).1) + [] == Reported(Do(c, call).1);
  }

  lemma TwoCalls(c: Child, first: Call, second: Call)
    ensures
      var (once, status) := Do(c, first);
      Calls(c, [first, second]) == (Do(once, second).0, Reported(status) + Reported(Do(once, second).1))
  {
    assert [first, second][1..] == [second];
    OneCall(Do(c, first).0, second);
  }

  const FAILED_POLL := Environment(PollFailed, None, 0, false)
  const CLEAN_EXIT := Environment(Observed, Some(0), 0, true)

  /** Such a run: the first call's polling fails, the second call goes through. */
  lemma HupCanBeSentTwice()
    ensures
      var (last, statuses) := Calls(SPAWNED, [Terminated(FAILED_POLL), Terminated(CLEAN_EXIT)]);
      Hups(last.trace) == 2 && statuses == [0] && ProvenAbsent(last)
  {
    TwoCalls(SPAWNED, Terminated(FAILED_POLL), Terminated(CLEAN_EXIT));
    var once := TerminateCall(SPAWNED, FAILED_POLL).0;
    HupsOfOneCall(SPAWNED, FAILED_POLL);
    HupsOfOneCall(once, CLEAN_EXIT);
    CleanupIsSafe([Terminated(FAILED_POLL), Terminated(CLEAN_EXIT)]);
  }
}
