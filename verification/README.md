# ttygate: admission, supervision, limiting and wire formats

ttygate lets browser users into terminal sessions. A login passes a rate limiter, is given a
single-use ticket backed by a reserved place in a bounded capacity table, redeems the ticket over a
WebSocket, and is then served by a supervisor that owns one child process group. Starts and ends of
sessions go to an append-only audit sink. Browser and server talk through a small JSON control
protocol, and the SSH backend adds two parsers of its own.

This project models those parts and proves what they promise about whole runs, over every
configuration and every interleaving the model allows.

- `Capacity`, `Tickets`, `PtyBackend` and `Audit` are the objects the server mutates: classes whose
  methods are proved equal to value functions.
- `Supervision` is one session's task, from its first wait to the release of its lease, with an
  event for every effect and for an unwind at every point `ConnectingPanicPoint` names, in
  `run_supervisor`, in every loop that terminates the child and while workers are joined after
  it, in the recovery code too. What it leaves out is listed at the end.
- `Manager` puts tasks, tickets, grants, starting calls and `shutdown` into one step system over
  those value functions; `ManagerOwnership`, `ManagerLeases` and `ManagerSafety` prove its
  invariant; `ManagerTheorems` states what follows for every run; `ManagerWitness` is one run.
- `SupervisionStory` reads off the events of a run what a session has to show for it, and
  `ManagerStories`, `ManagerShutdown`, `ManagerTickets` and `ManagerChildren` prove for every run
  that it shows just that. `ManagerSessions` and `ManagerProgress` say what every reachable state
  still allows: a ticket, a session, an end of the shutdown.
- `SupervisorObjects` ties the registry object to the registry steps of that system.
- `RateLimit` is the limiter; `RateLimitLog` refines it against a plain log of attempts;
  `RateLimitReturns` is about attempts that are given back while others come and go, and
  `RateLimitTable` about when the table is full.
- `JsonText`, `JsonParse` and `JsonDuplicates` treat JSON as concrete syntax trees, a reader of
  them, and the two duplicate-key detectors. `ControlCodec`, `ControlWire` and `ControlRoundTrip`
  are the control codec of both sides; `ControlAnswers` says which text each decoder answers how,
  without the decoders.
- `Diagnostics` and `Identity` are the SSH diagnostic classifier and the OpenSSH key envelope;
  `DiagnosticMessages` spells out what the classifier's line matchers and UTF-8 check accept, and
  `DiagnosticVerdicts` what the classifier makes of them.
- `InputChunks`, `OutputQueue` and `Connection` are the browser side; `ConnectionRuns` proves what
  late callbacks and the exit status come to over whole runs of the controller, and
  `ConnectionOutcomes` what every event leads to.
- `Wrappers`, `Collections`, `Unicode` and `Lines` hold what several modules need.

## Where the code and the expectation differ

- The browser refuses every error message with a character outside the basic plane, because
  `isSurrogate` looks at the first UTF-16 unit of each character
  (frontend/src/protocol.ts:250-271). The server's encoder accepts such messages
  (crates/ttygated/src/protocol.rs:371-377). `ControlRoundTrip.ServerControlsRoundTrip` says
  exactly which messages survive, `ControlRoundTrip.AstralMessageIsRefused` that all others are
  refused, `ControlRoundTrip.SomeMessageIsRefused` is one of them.
- An outcome the user brings about shows no exit status, because the status is forgotten before
  it is read (frontend/src/connection.ts:242-254, 376-389, 419): `close()`, and `connect()` to a
  name that is not configured. `ConnectionRuns.ExitStatusStaysExactly` says that these are the only
  ones; `ConnectionRuns.ClosingForgets` and `ConnectionRuns.ConnectingElsewhereForgets` are runs.
- No handler cleans up after an unwind of the recovery code: that of `supervise_connecting` runs
  outside every `catch_unwind` (crates/ttygated/src/session.rs:1406-1425, 1749-1834), and that of
  `supervise` inside one whose handler finds an execution that is already empty (1908-1922). Such
  an unwind drops the session's lease. `ManagerTheorems.EndsUnprovenExactly` says that a task ends
  without proof that its child is gone exactly when that happens,
  `ManagerWitness.LeaseCanLeaveUnproven` is a run.
- A private block that is already aligned is refused without padding
  (crates/ttygated/src/ssh.rs:1028-1071). `Identity.LeastPaddingIsAcceptedExactly` says which
  comment lengths this meets, `Identity.AlignedWithoutPaddingIsRefused` names such a key.
- A verdict of the SSH classifier can be withdrawn while the stream ends inside a character
  (crates/ttygated/src/ssh.rs:449-460): `Diagnostics.VerdictFallsOnlyInsideACharacter` says that
  this is the only case, `DiagnosticMessages.VerdictCanBeWithdrawn` names such a stream.
- A successful authentication can leave the anchor of its window behind, for attempts of the same
  key that began while it was open (crates/ttygated/src/rate_limit.rs:90-113, 148-168).
  `RateLimitReturns.GivingBackLeavesOnlyTheAnchor` says when, and that nothing else is left;
  `RateLimitReturns.InterleavedSuccessLeavesItsAnchor` is a run.
- The limiter draws a generation on every lookup, because the argument of `or_insert` is evaluated
  whether or not the key is there (crates/ttygated/src/rate_limit.rs:90-94):
  `RateLimitTable.EveryLookupDraws`.
- SIGHUP can be sent again by a retry: `PtyBackend.HupsAreAbortsPlusFinal` counts how often,
  `PtyBackend.HupCanBeSentTwice` is a run of two calls.

## Model

| member | source | states |
|---|---|---|
| ManagerTheorems.LeaseOutlivesChild | crates/ttygated/src/session.rs:1406-1849 | in every run, a session whose child was spawned has its lease in the table, Live, until a `terminate` returned Ok for that child (leader reaped, group later probed absent) or the recovery code itself unwound before that; covers rejection, caller drop, audit failure, close, timeout and every unwind modelled |
| ManagerTheorems.EndsUnprovenExactly | crates/ttygated/src/session.rs:1749-1834 | in every run, a task comes to its end without that proof exactly when an unwind hits its recovery before the proof is there |
| ManagerWitness.LeaseCanLeaveUnproven | crates/ttygated/src/session.rs:1416-1425 | a run from the start, for every configuration with room, in which supervisor and recovery unwind and the table is empty while nothing is known about the child |
| ManagerTheorems.UnregisteredChildHasLease | crates/ttygated/src/session.rs:791-896 | between spawning and registration the starting call holds a Live lease for the child |
| ManagerTheorems.ClosedSessionIsCleanedUp | crates/ttygated/src/session.rs:2004-2038 | a final result is published only after the cleanup of the child is proven |
| ManagerTheorems.ShutdownIsFinal | crates/ttygated/src/session.rs:946-981 | once `shutdown` has returned, no supervisor is active, no start is in progress and the lease table is empty, and no later run of any calls changes that |
| ManagerTheorems.LeftoverLeaseIsSupervised | crates/ttygated/src/session.rs:946-981 | while shutting down, every lease left belongs to a registered supervisor, so waiting for supervisors empties the table |
| ManagerShutdown.ShutdownTellsEverySupervisor | crates/ttygated/src/session.rs:966-968 | in every reachable state of a shutdown, each supervisor it no longer has to tell has been asked to close: with the shutdown's reason, or with that of a request that came before it in the run |
| ManagerShutdown.ReasonIsTheFirstAsk | crates/ttygated/src/session.rs:1105-1113 | in every run the reason a session is asked to close with is that of the first such event found in the run, and there is none exactly when there was no such event |
| ManagerShutdown.ShutdownReturnsExactly | crates/ttygated/src/session.rs:966-980 | in every run a shutdown that is telling supervisors comes to its end exactly by returning, when all on its list were told and none is active |
| ManagerProgress.ShutdownCanReturn | crates/ttygated/src/session.rs:946-981 | from every reachable state some continuation brings a shutdown to its end, with no supervisor and no lease left: no state blocks it for good |
| ManagerTheorems.OneOwnerWithinLimits | crates/ttygated/src/session.rs:276-337 | every lease has exactly one holder among requests, tickets, grants, starts and tasks, and both session limits hold in every state |
| ManagerTheorems.DropFreesOnlyItsOwn | crates/ttygated/src/session.rs:411-424 | dropping one reservation, purged or not, leaves every other party's lease as it was |
| ManagerTheorems.UnexpiredTicketRedeems | crates/ttygated/src/ticket.rs:208-234 | while the manager is open, a ticket redeems for its identity on every reading before its deadline, stale ones included, and until some party has read that deadline it is backed by a Pending lease of the same identity and deadline |
| ManagerTickets.TicketWaitsForItsOwner | crates/ttygated/src/ticket.rs:208-234 | whatever else is issued, redeemed, started, ended or tried on this ticket by others, a ticket stays and redeems for its identity, until that identity redeems it, a reading of the store reaches its deadline or the store is emptied |
| ManagerTickets.StrangerChangesNothing | crates/ttygated/src/ticket.rs:226-228 | a redemption by another identity, or of an unknown token, changes nothing in the whole system but the latest reading |
| ManagerTickets.RedemptionHandsOverOnce | crates/ttygated/src/ticket.rs:208-234 | a redemption makes a grant exactly for an unexpired ticket of that identity; the grant is the ticket's own reservation and the ticket is gone |
| ManagerSessions.TicketIsIssuedExactly | crates/ttygated/src/server.rs:601-659 | from every reachable state a request gets a ticket with its identity, target and deadline exactly when the manager is open with room under both limits, the deadline lies ahead, the sink is healthy and the store has room for the token; otherwise no lease is left behind |
| ManagerSessions.TicketIsUsedExactly | crates/ttygated/src/websocket.rs:293-335 | from every reachable state a connection gets the ticket's lease, Live, exactly when the ticket is unexpired and of the identity that redeems it and starts, and the manager is open; a grant that fails takes its lease with it |
| ManagerSessions.PlainStartIsAdmittedExactly | crates/ttygated/src/session.rs:638-680 | a start without a ticket takes a lease of its own exactly when the manager is open with room under both limits, and otherwise leaves none |
| ManagerTheorems.UnexpiredGrantIsBacked | crates/ttygated/src/websocket.rs:293-335 | the same backing holds for a redeemed grant on its way to a start |
| ManagerTheorems.ActivationSucceeds | crates/ttygated/src/session.rs:385-409 | an admitted start with a claim of its identity gets its lease exactly on readings before the claim's deadline, even if a stale reading redeemed its ticket; from the deadline on it is refused and the lease is gone |
| ManagerTheorems.ActivatedLeaseNeverExpires | crates/ttygated/src/session.rs:369-377 | a held lease is in the table and Live exactly while its holder is past activation, however far the clock runs |
| ManagerTheorems.RedemptionsNeverExceedIssues | crates/ttygated/src/ticket.rs:167-234 | a token is redeemed successfully at most as often as it was issued |
| ManagerTickets.EveryRedemptionHasItsIssue | crates/ttygated/src/ticket.rs:167-234 | counted from the events: between any two moments of any run a token is redeemed at most as often as it was issued, a ticket still in the store counted against it |
| ManagerTickets.HistoryIsTrue | crates/ttygated/src/ticket.rs:167-234 | the history kept by the system counts exactly the issues and redemptions among the events of the run |
| ManagerTheorems.RecordsArePaired | crates/ttygated/src/session.rs:1537-1604 | at most one start and one end record per session, and no end without an earlier start |
| ManagerTheorems.DeliveredSessionIsRecorded | crates/ttygated/src/session.rs:1537-1604 | a caller gets its session only after the start is persisted, and hears once |
| ManagerStories.TasksShowTheirStories | crates/ttygated/src/session.rs:1427-1849 | in every run the phase of every task, what its caller was told, its close reason, its final result and its two record flags are those told by its story, which is read off the events of the run alone: first request to close, decision, recorded start, hand-off, delivery, stop, failed cleanups, unwinds |
| SupervisionStory.RecordsAreTold | crates/ttygated/src/session.rs:2004-2038 | each effect adds to the sink exactly the records the story gains: a start when it was admitted, an end for a session started and over, a denial for a connection turned away other than by a request to close |
| ManagerStories.OnlyAuthenticatedSessionsStart | crates/ttygated/src/session.rs:1427-1536 | in every run a task that is past its admission, has a recorded start, was delivered or has a final result was decided Authenticated while it was connecting |
| ManagerStories.OthersAreTurnedAway | crates/ttygated/src/session.rs:1465-1536 | a connection is decided once; one decided otherwise is never delivered, never past admission, and its start never recorded |
| ManagerStories.DenialsAreRecorded | crates/ttygated/src/session.rs:1465-1536 | in every run the sink holds one denial for each connection turned away whose record was taken and one for each denial from elsewhere, and no other |
| ManagerStories.RejectionsAreOnRecord | crates/ttygated/src/session.rs:1465-1536 | while sink, clock and id source stay healthy, a rejected connection, a caller gone and an early exit are on record as soon as the task is over, an unwind apart |
| ManagerSessions.StartedSessionIsDelivered | crates/ttygated/src/session.rs:1537-1604 | from every reachable state a call that holds a lease, its child connecting authenticated and undisturbed, becomes a session of that lease; its caller gets it exactly when there is no audit or the sink takes its start, and then that record is there |
| ManagerChildren.EveryChildIsHandledSafely | crates/ttygated/src/session.rs:1406-1849 | in every run the child of every session is what the calls of its own task made of a new one, so it is never signalled after its reap, killed at most once and reported with one status |
| ManagerChildren.WhoStaysIsAnswered | crates/ttygated/src/session.rs:1448-1491 | in every run a session that is over without a word to its caller is one whose caller went away |
| ManagerTheorems.HealthyRunsRecordEveryEnd | crates/ttygated/src/session.rs:1737-1834 | with a healthy sink, clock and id source every started session that is over has exactly one end record, or none exactly when its recovery code unwound |
| ManagerTheorems.NoTicketAfterSinkFailure | crates/ttygated/src/server.rs:652-659 | after the first failed append nothing more is appended and no ticket is inserted, in any further run |
| ManagerSafety.RunKeepsInv | crates/ttygated/src/session.rs:638-750 | the global invariant survives every event sequence |
| SupervisorObjects.SupervisorRegistry.Register | crates/ttygated/src/session.rs:865-890 | registering is the system's registration step, before the task may run |
| SupervisorObjects.SupervisorRegistry.CloseAdmission | crates/ttygated/src/session.rs:946-965 | the exclusive section of `shutdown` is the system's step on registry and capacity table |
| SupervisorObjects.SupervisorRegistry.DropCompletion | crates/ttygated/src/session.rs:549-559 | dropping a completion is the system's last step of a task |
| SupervisorObjects.ClosedForGood | crates/ttygated/src/session.rs:185-213 | after the first close every call changes nothing and every close reports the first reason |
| SupervisorObjects.ClosesExactlyAfterAStart | crates/ttygated/src/session.rs:185-213 | a close succeeds exactly when some start came before it |
| SupervisorObjects.StartsOnce | crates/ttygated/src/session.rs:185-213 | a start succeeds exactly when none came before it |
| Supervision.TaskStepKeepsInv | crates/ttygated/src/session.rs:1427-1740 | each effect of a task, unwinds included, keeps child, record and caller invariants and leaves the lease held as it was; past the cleanup means a `terminate` returned Ok, an unwind of the recovery apart |
| Supervision.TaskStepIsAccountedFor | crates/ttygated/src/session.rs:2004-2038 | each effect adds to the sink exactly what the task's start and end flags account for |
| Supervision.HealthyStepRecordsEnd | crates/ttygated/src/session.rs:1749-1834 | while nothing fails, a started session is over only with its end recorded |
| PtyBackend.PtyChild.Terminate | crates/ttygated/src/pty_backend.rs:320-372 | for every answer of the system the whole new state and the result are those of `TerminateCall`, and SIGKILL is sent no sooner than the grace after the call's own SIGHUP |
| PtyBackend.PtyChild.PollExitObserved | crates/ttygated/src/pty_backend.rs:291-311 | the exit is observed once and remembered |
| PtyBackend.PtyChild.WaitForGroupAbsence | crates/ttygated/src/pty_backend.rs:374-389 | success means the last probe found the group gone; it gives up only on a failed probe or when its time is over; only probes reach the system |
| PtyBackend.PtyChild.WaitAfterFinalSignal | crates/ttygated/src/pty_backend.rs:391-405 | a known status wins over the wait; the leader is reaped at most once |
| PtyBackend.CleanupIsSafe | crates/ttygated/src/pty_backend.rs:265-405 | for every sequence of calls: no signal after the reap, SIGKILL at most once and before the reap, all Ok results equal and reported only after the group was probed absent |
| PtyBackend.TerminateAnswersExactly | crates/ttygated/src/pty_backend.rs:320-372 | a call returns a status if and only if its polling does not fail, the status is known or comes in time, and the group is found gone; it has killed unless its polling failed |
| PtyBackend.SignalsComeInOrder | crates/ttygated/src/pty_backend.rs:329-345 | a call on a child that was not killed begins with SIGHUP, what its polling saw and SIGKILL, or sends SIGHUP alone when the polling fails; a call after SIGKILL sends neither again |
| PtyBackend.PollAnswersExactly | crates/ttygated/src/pty_backend.rs:291-311 | what polling answers, and that only the first observation reaches the system |
| PtyBackend.HupsAreAbortsPlusFinal | crates/ttygated/src/pty_backend.rs:329-345 | SIGHUP is sent once for every call that ends while polling and once before SIGKILL |
| PtyBackend.HupCanBeSentTwice | crates/ttygated/src/pty_backend.rs:329-345 | a call whose polling fails and one that goes through send two and reap with status 0 |
| Audit.AuditLog.Record | crates/ttygated/src/audit.rs:370-404 | Ok exactly when the whole record was written and flushed; the first failure is permanent; bytes written are the accepted records and at most one broken tail |
| Audit.FailureIsPermanent | crates/ttygated/src/audit.rs:370-404 | accepted records are never withdrawn and a failed sink never changes again |
| Audit.AcceptedEventsCanBeReadBack | crates/ttygated/src/audit.rs:370-404 | the bytes of a healthy sink split by lines into exactly the accepted events |
| Capacity.CapacityTable.ReserveWithState | crates/ttygated/src/session.rs:291-337 | table and answer after purge, deadline, closed, global and identity checks, in that order |
| Capacity.CapacityTable.ActivateLease | crates/ttygated/src/session.rs:385-409 | a Pending lease of the identity becomes Live in place; a refusal drops the reservation |
| Capacity.ReserveKeepsLimits | crates/ttygated/src/session.rs:291-337 | a reservation never breaks the global or a per-identity limit |
| Capacity.ActivateKeepsLimits | crates/ttygated/src/session.rs:385-409 | activation moves a lease without changing any count upwards |
| Capacity.ReserveIsGrantedExactly | crates/ttygated/src/session.rs:291-337 | granted exactly when the table is open, the deadline lies ahead, and unexpired leases leave room under both limits |
| Capacity.ReserveHasEffect | crates/ttygated/src/session.rs:291-337 | only expired leases leave, only one lease under a fresh id arrives |
| Capacity.ActivateHasEffect | crates/ttygated/src/session.rs:385-409 | activation succeeds exactly for an unexpired Pending lease of the identity in an open table; then only its state changes, otherwise it is gone |
| Capacity.ReserveAnswersExactly | crates/ttygated/src/session.rs:291-337 | each refusal of a reservation if and only if its cause holds and none that is checked before it; afterwards the table holds exactly the unexpired leases and the new one |
| Capacity.ReservePendingAnswersExactly | crates/ttygated/src/session.rs:277-289 | the same for a pending reservation, whose deadline is looked at before the lock is taken too |
| Capacity.ActivateAnswersExactly | crates/ttygated/src/session.rs:385-409 | each answer of an activation if and only if its cause holds; afterwards the table holds exactly the unexpired leases, its own only on success |
| Capacity.ClosingKeepsExactlyTheLive | crates/ttygated/src/session.rs:356-367 | closing keeps the Live leases as they are and no other |
| Tickets.TicketStore.Issue | crates/ttygated/src/ticket.rs:167-206 | entries, result and dropped reservations of an issue, including its four tries |
| Tickets.TicketStore.RedeemTicket | crates/ttygated/src/ticket.rs:208-234 | entries, result and dropped reservation of a redemption |
| Tickets.IssueConservesReservations | crates/ttygated/src/ticket.rs:167-206 | every reservation is afterwards in the store or dropped, never both and never lost |
| Tickets.RedeemConservesReservations | crates/ttygated/src/ticket.rs:208-234 | a redemption hands out the entry's own reservation or drops it or leaves it |
| Tickets.RedeemAnswersExactly | crates/ttygated/src/ticket.rs:208-234 | each of the five answers if and only if its cause holds, in the order of the checks; success and expiry take the ticket out, every other answer leaves entries and reservations as they were |
| Tickets.IssueAnswersExactly | crates/ttygated/src/ticket.rs:167-206 | before its deadline an issue purges exactly the expired entries, lacks room exactly when the others fill the store, and otherwise is answered by the first of the draws that settles it |
| RateLimit.FixedWindowLimiter.BeginAttempt | crates/ttygated/src/rate_limit.rs:73-113 | table, generation counter and answer of one `begin` |
| RateLimit.Attempt.Rollback | crates/ttygated/src/rate_limit.rs:143-179 | rolling back gives back once, with the drop that follows it |
| RateLimit.AuthenticateLimited | crates/ttygated/src/server.rs:728-751 | success rolls the attempt back, every failure commits it |
| RateLimitLog.RunKeepsCounted | crates/ttygated/src/rate_limit.rs:73-113 | with any clock, every bucket counts the standing attempts of its generation, within 1 to limit |
| RateLimitTable.RefusedForRoomExactly | crates/ttygated/src/rate_limit.rs:77-88 | in every run with ordered readings a key is turned away for want of room exactly when it has no bucket and the keys with a standing attempt in a window that covers the reading are as many as the table holds |
| RateLimitTable.TableIsFullExactly | crates/ttygated/src/rate_limit.rs:77-88 | a key is turned away for want of room exactly when it has no bucket and the windows still running fill the table; then just these stay, and the delay is the window |
| RateLimitTable.TableIsBounded | crates/ttygated/src/rate_limit.rs:73-113 | the table never holds more buckets than its capacity, in every run with any clock |
| RateLimitTable.EveryLookupDraws | crates/ttygated/src/rate_limit.rs:90-94 | a lookup draws one generation although the key is there, and another for a window that is over |
| RateLimitLog.RollbackFindsItsCount | crates/ttygated/src/rate_limit.rs:148-168 | the saturating subtraction never saturates |
| RateLimitLog.LateRollbackChangesNothing | crates/ttygated/src/rate_limit.rs:157-164 | giving back an attempt of an older window changes nothing |
| RateLimitLog.RunsDecideAsTheLog | crates/ttygated/src/rate_limit.rs:73-113 | with readings in lock order, every decision of every run equals that of an unbounded plain log, a full table apart |
| RateLimitLog.CommittedAttemptsAreBounded | crates/ttygated/src/rate_limit.rs:95-106 | at most limit attempts stand in an anchored window and at most twice limit are committed in any half-open interval of one window's length |
| RateLimitLog.RetryAfterIsExact | crates/ttygated/src/rate_limit.rs:100-105 | the delay told to an exhausted key is positive, refused before and admitted from then on |
| RateLimitLog.RetryAfterFullTableSuffices | crates/ttygated/src/rate_limit.rs:80-88 | waiting the delay told by a full table is always enough |
| RateLimitLog.OnlyFailuresAreCharged | crates/ttygated/src/server.rs:728-751 | with no other call between begin and verdict, a successful authentication leaves every window as it was and a failed one takes one place in its own |
| RateLimitReturns.GivenBackIsNotCounted | crates/ttygated/src/rate_limit.rs:143-179 | in every run, with any calls in between, every decision is that of a log holding only the attempts that were not given back, a full table apart |
| RateLimitReturns.GivingBackLeavesOnlyTheAnchor | crates/ttygated/src/rate_limit.rs:148-168 | at any moment of any run, giving an attempt back frees its place and no other and leaves other keys alone; while its window lasts the key's bucket is gone exactly if no other attempt stands in the window, and otherwise keeps its anchor and counts those |
| RateLimitReturns.InterleavedSuccessLeavesItsAnchor | crates/ttygated/src/rate_limit.rs:90-113 | a run in which an attempt that began alone would have opened its own window, but counts in the window of one given back |
| JsonDuplicates.DetectDuplicateKeys | frontend/src/protocol.ts:320-357 | the index loops compute the recursive scan of the text |
| JsonDuplicates.VisitValue | crates/ttygated/src/protocol.rs:416-486 | the visitor reports a duplicate exactly when some object at some depth repeats a decoded key |
| JsonDuplicates.VisitMap | crates/ttygated/src/protocol.rs:434-446 | stopping at the first repetition loses nothing |
| JsonDuplicates.DetectorsAgree | frontend/src/protocol.ts:320-357 | on every JSON text the scanner reports a duplicate exactly when the visitor does |
| ControlRoundTrip.DetectorsAgreeOnTexts | frontend/src/protocol.ts:320-357 | the same for every text that reads as JSON |
| JsonDuplicates.BrowserDecodes | frontend/src/protocol.ts:104-109 | a key decodes in the browser to the UTF-16 form of its decoding on the server |
| JsonParse.DocumentReadsBack | crates/ttygated/src/protocol.rs:265-276 | a text has at most one tree and the reader finds it |
| JsonParse.DocumentRenders | crates/ttygated/src/protocol.rs:265-276 | whatever the reader accepts is spelt by the tree it returns |
| ControlCodec.BoundedUtf8Length | frontend/src/protocol.ts:297-318 | the index loop computes the bounded measure, stray surrogates and its early stop included |
| ControlCodec.MeasureDecides | frontend/src/protocol.ts:297-318 | on well-formed text the bounded measure decides whether the whole text fits |
| ControlWire.SizeIsUtf8Length | frontend/src/protocol.ts:297-318 | that size is the length of the UTF-8 encoding |
| ControlRoundTrip.ClientControlsRoundTrip | crates/ttygated/src/protocol.rs:161-231 | an accepted client control is below 4096 bytes, reads back as itself on both sides, is an invalid direction to the other decoder; the size check never fails |
| ControlRoundTrip.ServerControlsRoundTrip | frontend/src/protocol.ts:95-152 | the same for server controls between any writer and reader, with the exact exception |
| ControlRoundTrip.AstralMessageIsRefused | frontend/src/protocol.ts:243-271 | every server message with a character outside the basic plane is refused by every browser |
| ControlRoundTrip.SomeMessageIsRefused | frontend/src/protocol.ts:243-271 | the server sends the message U+1F600 and every browser answers that a field is invalid |
| ControlRoundTrip.DecodedControlsEncode | crates/ttygated/src/protocol.rs:161-255 | whatever a decoder returns its side's encoder accepts |
| ControlAnswers.ClientDecodesExactly | crates/ttygated/src/protocol.rs:161-213 | a text decodes to a client control if and only if it is within the size, repeats no key at any depth, and is an object whose keys are the field names of that control and no other, with version 1, its type and its values in range |
| ControlAnswers.ServerDecodesExactly | frontend/src/protocol.ts:95-152 | the same for server controls, down to the keys and values of the status object |
| ControlAnswers.ClientNamesUnknownFieldExactly | crates/ttygated/src/protocol.rs:299-307 | an unknown field is answered if and only if every field of the control is there and another key is too |
| ControlAnswers.ServerNamesUnknownFieldExactly | frontend/src/protocol.ts:191-198 | the same for server controls and for the status object |
| ControlAnswers.TextAnswersExactly | crates/ttygated/src/protocol.rs:265-276 | which texts get past the size, the syntax, the duplicate check and the object check, and what each other is answered |
| ControlAnswers.HeaderAnswersExactly | crates/ttygated/src/protocol.rs:278-287 | what version and type are answered, in the order they are looked at |
| ControlAnswers.ClientEncodesExactly | crates/ttygated/src/protocol.rs:215-231 | the encoder writes exactly the controls within their ranges, and answers every other with an invalid field |
| ControlAnswers.ServerEncodesExactly | crates/ttygated/src/protocol.rs:233-255 | the same for server controls on both sides |
| ControlAnswers.CodesAreHyphenatedWords | crates/ttygated/src/protocol.rs:359-369 | an error code is valid if and only if it is up to 64 characters that are words of lower-case letters and digits joined by single hyphens, led by a letter |
| ControlAnswers.MessagesAreShortAndPlain | frontend/src/protocol.ts:243-271 | an error message is valid exactly when it has 1 to 256 characters, none of them an ASCII control, and in a browser as many UTF-16 units as characters |
| ControlRoundTrip.DirectionsAreDisjoint | crates/ttygated/src/protocol.rs:161-213 | no text is a control of both directions |
| Diagnostics.Classifier.Push | crates/ttygated/src/ssh.rs:402-442 | after any pieces, flag, buffer and counters are those of the whole stream; the flag is set exactly when the stream breaks a bound |
| Diagnostics.ClassifyChunks | crates/ttygated/src/ssh.rs:402-460 | however a stream is cut up, the verdict is that of the whole stream |
| Diagnostics.BoundsArePrefixClosed | crates/ttygated/src/ssh.rs:402-442 | a broken bound stays broken |
| Diagnostics.VerdictFallsOnlyInsideACharacter | crates/ttygated/src/ssh.rs:449-460 | the verdict's precedence falls exactly when a stream within bounds comes to end inside a character after a verdict |
| Diagnostics.VerdictHasEvidence | crates/ttygated/src/ssh.rs:463-520 | a verdict rests on a completed line, and no line shows a graver one |
| DiagnosticVerdicts.VerdictIsExactly | crates/ttygated/src/ssh.rs:449-520 | the verdict on every stream: failure when it breaks a bound or cannot be text, none while it ends inside a character, otherwise the gravest class that a completed line shows |
| DiagnosticVerdicts.CarriageReturnIsIgnored | crates/ttygated/src/ssh.rs:463-472 | a carriage return before the end of a line changes no verdict, whatever came before |
| DiagnosticVerdicts.MismatchMessage | crates/ttygated/src/ssh.rs:464-475 | a changed host key is shown by two whole messages and nothing else |
| DiagnosticVerdicts.UnknownKeyIsShown | crates/ttygated/src/ssh.rs:475-482 | an unknown key is shown for one of three key types and the expected host, or by the fixed message |
| DiagnosticVerdicts.FailureIsShown | crates/ttygated/src/ssh.rs:511-566 | a failed connection is shown by a line of one of five kinds, each spelt out |
| Diagnostics.DrainClientLog | crates/ttygated/src/session.rs:1365-1396 | at most one class is reported: that of the first prefix of reads that decides; if none does, failure at the end of the log and nothing on cancellation |
| DiagnosticMessages.UnknownKeyMessage | crates/ttygated/src/ssh.rs:475-482 | the line is the whole message for that key type and host |
| DiagnosticMessages.AuthenticatedMessage | crates/ttygated/src/ssh.rs:483-495 | the line names the host, alone or with a bracketed address after it |
| DiagnosticMessages.DeniedMessage | crates/ttygated/src/ssh.rs:496-508 | the line is a nonempty plain user at the host, or the other fixed message |
| DiagnosticMessages.ConnectMessage | crates/ttygated/src/ssh.rs:522-538 | the line is the prefix, the host, the text ` port ` and anything that ends in one of four reasons; no number is asked for, so `h port Connection refused` is accepted |
| DiagnosticMessages.ResolutionMessage | crates/ttygated/src/ssh.rs:540-554 | the line is one of three whole messages about the host |
| DiagnosticMessages.PeerMessage | crates/ttygated/src/ssh.rs:556-566 | the line splits into prefix, host or address, and a port, in exactly one way |
| DiagnosticVerdicts.PortsAreSpelt | crates/ttygated/src/ssh.rs:556-566 | a port is accepted exactly when it is the decimal of a number from 1 to 65535, with any leading zeros and at most one plus sign before it |
| DiagnosticMessages.Utf8CompleteExactly | crates/ttygated/src/ssh.rs:453-457 | the stream is complete exactly when it is the UTF-8 encoding of some string |
| DiagnosticMessages.MalformedExactly | crates/ttygated/src/ssh.rs:453-457 | it is malformed exactly when no continuation completes it, so a truncated one can be completed |
| DiagnosticMessages.VerdictCanBeWithdrawn | crates/ttygated/src/ssh.rs:449-460 | a one-line stream has a verdict and, with the byte 0xC3 after it, none |
| Identity.ValidateIdentity | crates/ttygated/src/ssh.rs:1015-1061 | accepted exactly when the bytes are the serialisation of some key record |
| Identity.SerializationIsInjective | crates/ttygated/src/ssh.rs:1015-1061 | the record is unique |
| Identity.EnvelopeReadsBack | crates/ttygated/src/ssh.rs:1028-1071 | around a key's body, of all paddings the envelope can carry exactly one is accepted |
| Identity.LeastPaddingIsAcceptedExactly | crates/ttygated/src/ssh.rs:1028-1071 | a body padded only to the next multiple of 8 is accepted exactly when the comment's length is not 5 modulo 8, that is, when the body is not aligned already |
| Identity.AlignedWithoutPaddingIsRefused | crates/ttygated/src/ssh.rs:1063-1071 | a key with the comment `admin` is refused without padding |
| Identity.Cursor.TakeSshString | crates/ttygated/src/ssh.rs:1073-1087 | the string and the rest, or nothing taken |
| InputChunks.ChunkUtf8Input | frontend/src/terminal-io.ts:21-37 | for every sequence of UTF-16 units, chunks join to the encoding of its characters, a lone surrogate counting as U+FFFD; each encodes whole characters, sizes 1 to 65536, all but the last at least 65533 |
| Unicode.ScalarsReadBack | frontend/src/terminal-io.ts:26-27 | text without lone surrogates is iterated as it was written |
| InputChunks.ChunkBinaryInput | frontend/src/terminal-io.ts:39-45 | chunks join to the data, all but the last full |
| OutputQueue.BoundedTerminalWriter.EnqueueData | frontend/src/terminal-io.ts:128-141 | state, answer and effects of an enqueue |
| OutputQueue.OutputIsBoundedAndInOrder | frontend/src/terminal-io.ts:103-165 | exact and bounded byte count until disposal, written chunks an in-order prefix of accepted ones, one outstanding, one overflow |
| OutputQueue.EnqueueIsAcceptedExactly | frontend/src/terminal-io.ts:128-141 | in every run a chunk is accepted exactly when the queue is working and the chunk fits beside what is queued and in flight, the limit included; one that does not fit is the overflow |
| OutputQueue.DrainFreesItsBytes | frontend/src/terminal-io.ts:152-164 | a drained chunk frees its bytes and lets the next one out |
| OutputQueue.DrainedMeansDelivered | frontend/src/terminal-io.ts:152-164 | once everything handed over is drained, everything accepted was written |
| OutputQueue.EndIsFinal | frontend/src/terminal-io.ts:128-164 | after disposal or overflow nothing is written, accepted or reported, whatever callbacks fire late |
| Connection.TerminalConnectionController.ReplaceConnection | frontend/src/connection.ts:391-421 | the whole state after a supersession |
| Connection.TerminalConnectionController.GrantArrives | frontend/src/connection.ts:169-240 | the controller performs the reply step of the model; the outcomes are those of `ConnectionOutcomes` |
| ConnectionOutcomes.RefusedGrantIsShown | frontend/src/connection.ts:169-176 | a refused grant shows the refusal's own phase with the target asked for, opens no socket and leaves nothing under way |
| ConnectionOutcomes.GrantForAnotherIsRefused | frontend/src/connection.ts:181-185 | a grant for another name opens no socket and shows an internal error with the target asked for |
| ConnectionOutcomes.GoodGrantOpensOneSocket | frontend/src/connection.ts:187-240 | a grant for the name asked for opens exactly one socket with its own ticket and target, and shows Connecting |
| ConnectionOutcomes.OpeningSendsTheTicket | frontend/src/connection.ts:206-221 | a socket that opens is sent its ticket and then the size, the deadline is off and the session active |
| ConnectionOutcomes.ConnectAsksForAGrant | frontend/src/connection.ts:150-171 | connecting closes the old session in good order and asks for one grant under one deadline |
| ConnectionOutcomes.ServerErrorIsShown | frontend/src/connection.ts:343-371 | an error of the server shows the phase of its code, from a table; the session is over |
| ConnectionOutcomes.ServerCloseIsShown | frontend/src/connection.ts:447-464 | a close shows the phase of its reason, from a table |
| ConnectionOutcomes.OutputEndsTheSessionExactly | frontend/src/connection.ts:326-338 | output ends an active session exactly when it overflows the queue |
| ConnectionOutcomes.LossIsShown | frontend/src/connection.ts:226-233 | a socket that fails or closes shows a lost connection |
| ConnectionOutcomes.InputIsSent | frontend/src/connection.ts:256-321 | an active session sends what is typed, a read-only one only its size |
| ConnectionOutcomes.DeadlineIsShown | frontend/src/connection.ts:164-167 | a deadline that passes shows a timeout with the attempt's target |
| ConnectionOutcomes.TargetsAreShown | frontend/src/connection.ts:131-148 | targets are shown and the page is ready; none is an internal error |
| Connection.SocketsAreWellUsed | frontend/src/connection.ts:150-240 | in every run each socket but the current one is closed exactly once, and each was sent its own ticket first and once |
| Connection.OutcomesAreFinal | frontend/src/connection.ts:376-440 | a final phase stays, and nothing is sent, until the user acts, whatever replies, events, timers and drains come late |
| ConnectionRuns.SupersededCallbacksAreHarmless | frontend/src/connection.ts:169-440 | deleting from any run every reply, timer, socket event, input and drain of a generation already superseded changes nothing shown, sent or closed, nor the controller |
| ConnectionRuns.ExitStatusStaysExactly | frontend/src/connection.ts:376-389 | whenever a connection ends, in any run, the exit status on show stays exactly when there is none or the end is not the user's closing or connecting to an unknown name |
| ConnectionRuns.ClosingForgets | frontend/src/connection.ts:242-254 | a run that shows exit status 7, and none after `close()` |
| ConnectionRuns.ConnectingElsewhereForgets | frontend/src/connection.ts:150-157 | the same run, and none after `connect()` to a name that is not configured |

## Left out

Assumptions of the model:

- Lease, supervisor and generation numbers are naturals; the code's counters wrap at 2^64.
- Session ids are taken to be distinct: a session is named by its task.
- Time is an integer; limit and window of the limiter are positive, as the configuration enforces. Bounds over time assume that readings do not decrease in the order in which the lock is taken.
- System calls, timeouts, writes and flushes are arbitrary choices of the environment.
- `issue_at` is one step, from the lock of the entries to the release of the reservations it drops; the authority guard is held around it. So is `redeem`. Their readings, and the first one of `reserve_pending`, are made before the lock and may be older than what other parties have read; readings under the lock of the capacity table do not decrease. A starting call, `shutdown` and every other call are split into their visible effects.
- An unwind before the connecting execution is set up, between taking the hand-off apart and supervising, or while the final record and result are written is not modelled, nor is a spawn that fails after its fork. When the recovery code unwinds, what dropping the child does to the process is not modelled either.
- A socket becomes open in the step in which its open event fires, sending on an open socket does not throw, and `onState` and `createSocket` do not call back into the controller.
- A drain callback fires at most once. A callback fired inside `write` is treated as fired right after it, which is the same because handing a chunk over is the last thing its method does.
- The number a browser gives a JSON number lexeme is a parameter that reads decimal integers below 2^53 exactly.

Not modelled:

- Manager: the asynchronous functions of the session manager and its supervisors are a step system on values, not classes; the atomicity of their steps under the locks is by construction, and the objects behind the locks (capacity table, ticket store, registry, audit log, child, state machine) are classes. `terminate_until_proven` is a phase the task may stay in for ever.
- Supervision: worker tasks, terminal input and output, timers as such (a timeout is an event), and lifecycle broadcasts. Nothing is said about latency or fairness: `ManagerProgress` and `ManagerSessions` say what can happen next, not that it does.
- Audit.AuditLog.Record: a record whose flush failed may be in the file although its caller was told of an error; the contract allows it.
- ControlCodec.ParseControl: on text that is not JSON the server may name a duplicate field where the model names malformed text, since serde_json looks for duplicates while it parses; lone-surrogate escapes, nesting limits, number lexemes beyond the range of a double (which serde_json takes for malformed text before it can see a later duplicate) and invalid UTF-8 are outside the model, and so bound `ControlRoundTrip.DetectorsAgreeOnTexts`.
- JsonParse.ParseDocument: stands for `JSON.parse` and serde_json, which are not part of this model.
- Diagnostics.Classify: whether a string is an IP address is a parameter.
- Identity.Validate: base64 and the PEM lines around it; whether the key material is a real key pair.
- Connection: the resize coalescer inside the controller is reduced to the resize messages it sends; its "latest size wins" is not what the code does.
- HTTP routing, configuration, cookies, origins, TLS, randomness of tokens and everything in ui.ts, main.ts, api.ts and identity.ts.
