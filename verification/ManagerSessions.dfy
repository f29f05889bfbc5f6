/**
 A session from its request to its delivery: exactly when a request gets a ticket, when a ticket
 gets a connection its lease, and when a started child becomes a session, from every reachable state.
 */
module ManagerSessions {
  import opened Wrappers
  import opened Capacity
  import opened Tickets
  import opened PtyBackend
  import opened Supervision
  import opened Manager
  import opened ManagerOwnership
  import opened ManagerLeases
  import opened ManagerSafety
  import opened ManagerTheorems
  import opened ManagerProgress
  import Audit

  lemma RunThree(s: System, a: Event, b: Event, c: Event)
    ensures Run(s, [a, b, c]) == Step(Step(Step(s, a), b), c)
  {
    assert [a, b, c][1..] == [b, c];
    RunTwo(Step(s, a), b, c);
  }

  // ----- a request and its ticket -----

  /** Four draws of the same token. */
  function Draws(token: Token, now: int): seq<Try> {
    var draw := Try(Some(token), now);
    [draw, draw, draw, draw]
  }

  /** A request for a ticket, with no time passing. */
  function Requesting(s: System, r: nat, identity: Identity, target: string, deadline: int, token: Token): seq<Event> {
    [Ticketing(AdmitReserve(r, identity, deadline)),
     Ticketing(FinishReserve(r, s.now, s.now)),
     Ticketing(Issue(r, target, s.now, Draws(token, s.now)))]
  }

  /** The manager is open and both limits leave a place that is not held by an unexpired lease. */
  predicate HasPlace(s: System, identity: Identity) {
    && !s.registry.shuttingDown
    && |Taken(s.table, s.now)| < s.config.limits.maxSessions
    && |TakenBy(s.table, identity, s.now)| < s.config.limits.maxPerIdentity
  }

  /** The store may take a ticket and has room among the unexpired ones. */
  predicate HasTicketRoom(s: System, token: Token) {
    var valid := map t | t in s.parties.tickets && s.now < s.parties.tickets[t].expiresAt :: s.parties.tickets[t];
    !s.sink.failed && |valid| < s.config.ticketCapacity && token !in valid
  }

  /** What admission and reservation leave behind. */
  predicate ReservedFrom(s: System, r: nat, identity: Identity, deadline: int, after: System) {
    var granted := s.now < deadline && HasPlace(s, identity);
    && after == s.(table := after.table, parties := after.parties, index := after.index)
    && after.parties.starters == s.parties.starters && after.parties.tickets == s.parties.tickets
    && after.parties.requests ==
         (if granted then s.parties.requests[r := Claim(identity, deadline, s.table.nextId)] else s.parties.requests)
    && (s.table.nextId in after.table.leases <==> granted)
  }

  lemma CommitsReserve(s: System, r: nat, identity: Identity, deadline: int, table: Table, reserved: Reserved)
    requires ReserveEffect(s.table, identity, Pending(deadline), s.now, table, reserved)
    requires reserved.Granted? <==> s.now < deadline && HasPlace(s, identity)
    requires s.table.nextId !in s.table.leases && r !in s.parties.starters
    ensures
      var admitted := s.(parties := PutStarter(s.parties, r, Reserving(identity, deadline)));
      ReservedFrom(s, r, identity, deadline, CommitReserve(admitted, r, identity, deadline, s.now, table, reserved))
  {
    assert s.parties.starters[r := Reserving(identity, deadline)] - {r} == s.parties.starters;
  }

  lemma FinishesReserve(s: System, admitted: System, r: nat, identity: Identity, deadline: int)
    requires WithinLimits(s.table, s.config.limits) && s.table.closed == s.registry.shuttingDown
    requires r !in s.parties.requests && r !in s.parties.starters && !s.registry.shuttingDown
    requires admitted == s.(parties := PutStarter(s.parties, r, Reserving(identity, deadline)))
    ensures ReservedFrom(s, r, identity, deadline, DoFinishReserve(admitted, r, s.now, s.now))
  {
    var (table, reserved) := ReservePending(s.table, s.config.limits, identity, deadline, s.now, s.now);
    ReserveIsGrantedExactly(s.table, s.config.limits, identity, Pending(deadline), s.now);
    ReservePendingHasEffect(s.table, s.config.limits, identity, deadline, s.now, s.now);
    CommitsReserve(s, r, identity, deadline, table, reserved);
    assert DoFinishReserve(admitted, r, s.now, s.now) ==
           CommitReserve(admitted, r, identity, deadline, s.now, table, reserved);
  }

  lemma Reserves(s: System, r: nat, identity: Identity, deadline: int)
    requires WithinLimits(s.table, s.config.limits) && s.table.closed == s.registry.shuttingDown
    requires r !in s.parties.requests && r !in s.parties.starters
    ensures
      var admitted := Step(s, Ticketing(AdmitReserve(r, identity, deadline)));
      var after := Step(admitted, Ticketing(FinishReserve(r, s.now, s.now)));
      ReservedFrom(s, r, identity, deadline, after)
  {
    var admitted := DoAdmitReserve(s, r, identity, deadline);
    var after := DoFinishReserve(admitted, r, s.now, s.now);
    if !s.registry.shuttingDown {
      FinishesReserve(s, admitted, r, identity, deadline);
    }
    assert Step(admitted, Ticketing(FinishReserve(r, s.now, s.now))) == after;
  }

  /** What an issue that cannot be late leaves behind: the ticket, or no trace of the claim. */
  predicate IssuedFrom(s: System, r: nat, target: string, token: Token, after: System)
    requires r in s.parties.requests
  {
    var claim := s.parties.requests[r];
    && after.parties.requests == s.parties.requests - {r} && after.parties.starters == s.parties.starters
    && after.now == s.now && after.registry == s.registry && after.sink == s.sink
    && (if HasTicketRoom(s, token) then
          && token in after.parties.tickets
          && after.parties.tickets[token] == Entry(claim.identity, target, claim.deadline, claim.lease)
        else
          && claim.lease !in after.table.leases
          && forall t :: t in after.parties.tickets ==>
               t in s.parties.tickets && after.parties.tickets[t] == s.parties.tickets[t])
  }

  lemma DrawsToken(kept: Store, expiry: int, token: Token, now: int)
    requires now < expiry
    ensures
      if token in kept then forall j :: 0 <= j < 4 ==> !Settles(kept, expiry, Draws(token, now)[j])
      else SettlesFirst(kept, expiry, Draws(token, now), 0)
  {
  }

  lemma IssueGoesBy(s: System, entry: Entry, token: Token)
    requires s.now < entry.expiresAt && WellFormed(token) && !s.sink.failed
    ensures
      var (tickets, result, released) :=
        IssueAt(s.parties.tickets, s.config.ticketCapacity, entry, s.now, Draws(token, s.now));
      && (if HasTicketRoom(s, token) then result == Ok(token) else result.Err? && entry.lease in released)
      && IssueConserves(s.parties.tickets, entry, s.now, tickets, result, released)
  {
    var tries := Draws(token, s.now);
    var valid := map t | t in s.parties.tickets && s.now < s.parties.tickets[t].expiresAt :: s.parties.tickets[t];
    IssueAnswersExactly(s.parties.tickets, s.config.ticketCapacity, entry, s.now, tries);
    IssueConservesReservations(s.parties.tickets, s.config.ticketCapacity, entry, s.now, tries);
    DrawsToken(valid, entry.expiresAt, token, s.now);
  }

  lemma CommitsIssue(s: System, r: nat, target: string, token: Token, tickets: Store, result: Result<Token>,
                     released: set<LeaseId>)
    requires r in s.parties.requests && !s.sink.failed
    requires
      var claim := s.parties.requests[r];
      var entry := Entry(claim.identity, target, claim.deadline, claim.lease);
      && IssueConserves(s.parties.tickets, entry, s.now, tickets, result, released)
      && (if HasTicketRoom(s, token) then result == Ok(token) else result.Err? && entry.lease in released)
    ensures IssuedFrom(s, r, target, token,
                       CommitIssue(s, r, s.parties.requests[r].lease, s.now, tickets, result, released))
  {
  }

  lemma IssuesFromAStore(s: System, r: nat, target: string, token: Token)
    requires r in s.parties.requests && s.now < s.parties.requests[r].deadline && WellFormed(token) && !s.sink.failed
    ensures IssuedFrom(s, r, target, token, DoIssue(s, r, target, s.now, Draws(token, s.now)))
  {
    var claim := s.parties.requests[r];
    var entry := Entry(claim.identity, target, claim.deadline, claim.lease);
    var tries := Draws(token, s.now);
    var (tickets, result, released) := IssueAt(s.parties.tickets, s.config.ticketCapacity, entry, s.now, tries);
    assert ClockRuns(s.now, tries);
    IssueGoesBy(s, entry, token);
    CommitsIssue(s, r, target, token, tickets, result, released);
    assert DoIssue(s, r, target, s.now, tries) == CommitIssue(s, r, claim.lease, s.now, tickets, result, released);
  }

  lemma IssuesNothing(s: System, r: nat, target: string, token: Token)
    requires r in s.parties.requests && WellFormed(token) && s.sink.failed
    ensures IssuedFrom(s, r, target, token, DoIssue(s, r, target, s.now, Draws(token, s.now)))
  {
    assert ClockRuns(s.now, Draws(token, s.now));
    assert DoIssue(s, r, target, s.now, Draws(token, s.now)) == DoDropRequest(s, r);
  }

  lemma IssuesTicket(s: System, r: nat, target: string, token: Token)
    requires r in s.parties.requests && s.now < s.parties.requests[r].deadline && WellFormed(token)
    ensures IssuedFrom(s, r, target, token, Step(s, Ticketing(Issue(r, target, s.now, Draws(token, s.now)))))
  {
    if s.sink.failed {
      IssuesNothing(s, r, target, token);
    } else {
      IssuesFromAStore(s, r, target, token);
    }
    assert Step(s, Ticketing(Issue(r, target, s.now, Draws(token, s.now)))) ==
           DoIssue(s, r, target, s.now, Draws(token, s.now));
  }

  lemma FreshLeaseIsNowhere(s: System, token: Token, entry: Entry)
    requires OwnedInv(s) && entry.lease == s.table.nextId
    ensures !(token in s.parties.tickets && s.parties.tickets[token] == entry)
  {
    assert token in s.parties.tickets ==>
             LeaseOf(s.parties, TicketOwner(token)) == Some(s.parties.tickets[token].lease);
  }

  lemma NothingIssued(s: System, r: nat, target: string, token: Token)
    requires r !in s.parties.requests
    ensures Step(s, Ticketing(Issue(r, target, s.now, Draws(token, s.now)))) == s
  {
  }

  predicate HasEntry(s: System, token: Token, entry: Entry) {
    token in s.parties.tickets && s.parties.tickets[token] == entry
  }

  predicate RequestAnswered(s: System, identity: Identity, target: string, deadline: int, token: Token, after: System) {
    var issued := HasEntry(after, token, Entry(identity, target, deadline, s.table.nextId));
    && (issued <==> s.now < deadline && HasPlace(s, identity) && HasTicketRoom(s, token))
    && (!issued ==> s.table.nextId !in after.table.leases)
    && after.parties.requests == s.parties.requests && after.parties.starters == s.parties.starters
    && after.now == s.now && after.registry == s.registry && after.sink == s.sink
  }

  /** The two halves together. */
  lemma RequestIsAnswered(s: System, r: nat, identity: Identity, target: string, deadline: int, token: Token,
                          reserved: System, after: System)
    requires ReservedFrom(s, r, identity, deadline, reserved) && r !in s.parties.requests
    requires if r in reserved.parties.requests then IssuedFrom(reserved, r, target, token, after) else after == reserved
    requires !HasEntry(s, token, Entry(identity, target, deadline, s.table.nextId))
    ensures RequestAnswered(s, identity, target, deadline, token, after)
  {
    assert s.parties.requests[r := Claim(identity, deadline, s.table.nextId)] - {r} == s.parties.requests;
  }

  lemma RequestFrom(s: System, r: nat, identity: Identity, target: string, deadline: int, token: Token)
    requires Inv(s) && r !in s.parties.starters && r !in s.parties.requests && WellFormed(token)
    ensures RequestAnswered(s, identity, target, deadline, token,
                            Run(s, Requesting(s, r, identity, target, deadline, token)))
  {
    var path := Requesting(s, r, identity, target, deadline, token);
    RunThree(s, path[0], path[1], path[2]);
    FreshLeaseIsNowhere(s, token, Entry(identity, target, deadline, s.table.nextId));
    Reserves(s, r, identity, deadline);
    var reserved := Step(Step(s, path[0]), path[1]);
    if r in reserved.parties.requests {
      IssuesTicket(reserved, r, target, token);
    } else {
      NothingIssued(reserved, r, target, token);
    }
    RequestIsAnswered(s, r, identity, target, deadline, token, reserved, Step(reserved, path[2]));
  }

  /**
   From every reachable state a request gets a ticket for its identity, target and deadline exactly
   when the manager has a place, the deadline lies ahead and the store may take the token; if it
   gets none it leaves no lease behind.
   */
  lemma TicketIsIssuedExactly(config: Config, start: int, events: seq<Event>, r: nat, identity: Identity,
                              target: string, deadline: int, token: Token)
    requires
      var s := Reached(config, start, events);
      r !in s.parties.starters && r !in s.parties.requests
    requires WellFormed(token)
    ensures
      var s := Reached(config, start, events);
      var after := Run(s, Requesting(s, r, identity, target, deadline, token));
      var issued := HasEntry(after, token, Entry(identity, target, deadline, s.table.nextId));
      && (issued <==> s.now < deadline && HasPlace(s, identity) && HasTicketRoom(s, token))
      && (!issued ==> s.table.nextId !in after.table.leases)
      && after.parties.requests == s.parties.requests && after.parties.starters == s.parties.starters
      && after.now == s.now && after.registry == s.registry && after.sink == s.sink
  {
    ReachedInv(config, start, events);
    RequestFrom(Reached(config, start, events), r, identity, target, deadline, token);
  }

  // ----- a ticket and its connection -----

  /** A connection with a ticket, with no time passing: `presenter` redeems it and `starter` starts the session. */
  function Presenting(s: System, r: nat, g: nat, token: Token, presenter: Identity, starter: Identity): seq<Event> {
    [Ticketing(RedeemTicket(g, token, presenter, s.now)),
     Launching(AdmitReservedStart(r, g, starter)),
     Launching(TakeLease(r, s.now))]
  }

  predicate RedeemedFrom(s: System, g: nat, token: Token, presenter: Identity, after: System)
    requires token in s.parties.tickets
  {
    var entry := s.parties.tickets[token];
    && after.parties.starters == s.parties.starters && after.registry == s.registry && after.now == s.now
    && after.parties.grants ==
         (if s.now < entry.expiresAt && entry.identity == presenter
          then s.parties.grants[g := Claim(presenter, entry.expiresAt, entry.lease)] else s.parties.grants)
  }

  lemma RedeemsTicket(s: System, g: nat, token: Token, presenter: Identity)
    requires token in s.parties.tickets && WellFormed(token) && g !in s.parties.grants
    ensures RedeemedFrom(s, g, token, presenter, Step(s, Ticketing(RedeemTicket(g, token, presenter, s.now))))
  {
    RedeemAnswersExactly(s.parties.tickets, token, presenter, s.now);
  }

  predicate AdmittedFrom(s: System, r: nat, g: nat, starter: Identity, after: System)
    requires g in s.parties.grants
  {
    && after.parties.grants == s.parties.grants - {g} && after.now == s.now
    && (if s.registry.shuttingDown then
          after.parties.starters == s.parties.starters && s.parties.grants[g].lease !in after.table.leases
        else after.parties.starters == s.parties.starters[r := Starting(starter, Some(s.parties.grants[g]))])
  }

  lemma AdmitsGrant(s: System, r: nat, g: nat, starter: Identity)
    requires r !in s.parties.starters && g in s.parties.grants
    ensures AdmittedFrom(s, r, g, starter, Step(s, Launching(AdmitReservedStart(r, g, starter))))
  {
  }

  lemma AdmitsNothing(s: System, r: nat, g: nat, starter: Identity)
    requires r !in s.parties.starters && g !in s.parties.grants
    ensures Step(s, Launching(AdmitReservedStart(r, g, starter))) == s
    ensures Step(s, Launching(TakeLease(r, s.now))) == s
  {
  }

  predicate TakenFrom(s: System, r: nat, starter: Identity, claim: Claim, after: System) {
    && after.parties.grants == s.parties.grants
    && (if starter == claim.identity then
          && after.parties.starters == s.parties.starters[r := Activated(claim.lease)]
          && claim.lease in after.table.leases && after.table.leases[claim.lease] == Lease(starter, Live)
        else after.parties.starters == s.parties.starters - {r} && claim.lease !in after.table.leases)
  }

  lemma CommitsClaim(s: System, r: nat, starter: Identity, claim: Claim, table: Table, error: Option<SessionError>)
    requires r in s.parties.starters && ActivateEffect(s.table, claim.lease, starter, s.now, table, error)
    requires error.None? <==> starter == claim.identity
    ensures TakenFrom(s, r, starter, claim, CommitActivation(s, r, claim.lease, s.now, table, error))
  {
  }

  lemma ClaimIsBacked(s: System, r: nat, starter: Identity, claim: Claim)
    requires Inv(s) && r in s.parties.starters && s.parties.starters[r] == Starting(starter, Some(claim))
    requires s.now < claim.deadline
    ensures
      && !s.table.closed && claim.lease in s.table.leases
      && s.table.leases[claim.lease] == Lease(claim.identity, Pending(claim.deadline))
  {
    assert ClaimOf(s.parties, StarterOwner(r)) == Some(claim);
    assert Backed(s.table, s.now, claim);
    ClosedWithStartersIsNot(s, r);
  }

  lemma TakesClaim(s: System, r: nat, starter: Identity, claim: Claim)
    requires Inv(s) && r in s.parties.starters && s.parties.starters[r] == Starting(starter, Some(claim))
    requires s.now < claim.deadline
    ensures TakenFrom(s, r, starter, claim, Step(s, Launching(TakeLease(r, s.now))))
  {
    var (table, error) := Activate(s.table, claim.lease, starter, s.now);
    ClaimIsBacked(s, r, starter, claim);
    ActivateHasEffect(s.table, claim.lease, starter, s.now);
    CommitsClaim(s, r, starter, claim, table, error);
    assert DoTakeLease(s, r, s.now) == CommitActivation(s, r, claim.lease, s.now, table, error);
  }

  lemma ClosedWithStartersIsNot(s: System, r: nat)
    requires ShutdownInv(s) && r in s.parties.starters
    ensures !s.table.closed && !s.registry.shuttingDown
  {
  }

  lemma TakesNothing(s: System, r: nat)
    requires r !in s.parties.starters
    ensures Step(s, Launching(TakeLease(r, s.now))) == s
  {
  }

  /** What a connection with a ticket comes to. */
  predicate TicketUsed(s: System, r: nat, token: Token, presenter: Identity, starter: Identity, after: System)
    requires token in s.parties.tickets
  {
    var entry := s.parties.tickets[token];
    var redeemed := s.now < entry.expiresAt && presenter == entry.identity;
    && (r in after.parties.starters <==> redeemed && starter == presenter && !s.registry.shuttingDown)
    && (r in after.parties.starters ==>
          && after.parties.starters[r] == Activated(entry.lease)
          && entry.lease in after.table.leases && after.table.leases[entry.lease] == Lease(entry.identity, Live))
    && (redeemed && r !in after.parties.starters ==> entry.lease !in after.table.leases)
    && after.parties.starters - {r} == s.parties.starters && after.parties.grants == s.parties.grants
  }

  lemma GrantIsUsed(s: System, r: nat, g: nat, token: Token, presenter: Identity, starter: Identity, given: System,
                    admitted: System, after: System)
    requires r !in s.parties.starters && g !in s.parties.grants && token in s.parties.tickets
    requires RedeemedFrom(s, g, token, presenter, given) && g in given.parties.grants
    requires AdmittedFrom(given, r, g, starter, admitted)
    requires if r in admitted.parties.starters then TakenFrom(admitted, r, starter, given.parties.grants[g], after)
             else after == admitted
    ensures TicketUsed(s, r, token, presenter, starter, after)
  {
    var claim := given.parties.grants[g];
    assert s.parties.grants[g := claim] - {g} == s.parties.grants;
    assert s.parties.starters[r := Starting(starter, Some(claim))] - {r} == s.parties.starters;
    assert s.parties.starters - {r} == s.parties.starters;
    assert s.parties.starters[r := Starting(starter, Some(claim))][r := Activated(claim.lease)] - {r} ==
           s.parties.starters;
  }

  lemma PresentFrom(s: System, r: nat, g: nat, token: Token, presenter: Identity, starter: Identity)
    requires Inv(s) && r !in s.parties.starters && g !in s.parties.grants && token in s.parties.tickets
    ensures TicketUsed(s, r, token, presenter, starter, Run(s, Presenting(s, r, g, token, presenter, starter)))
  {
    var path := Presenting(s, r, g, token, presenter, starter);
    RunThree(s, path[0], path[1], path[2]);
    RedeemsTicket(s, g, token, presenter);
    StepKeepsInv(s, path[0]);
    var given := Step(s, path[0]);
    if g in given.parties.grants {
      GrantFrom(s, r, g, token, presenter, starter, given);
    } else {
      AdmitsNothing(given, r, g, starter);
      assert s.parties.starters - {r} == s.parties.starters;
    }
  }

  lemma GrantFrom(s: System, r: nat, g: nat, token: Token, presenter: Identity, starter: Identity, given: System)
    requires r !in s.parties.starters && g !in s.parties.grants && token in s.parties.tickets
    requires RedeemedFrom(s, g, token, presenter, given) && g in given.parties.grants && Inv(given)
    ensures
      var after := Step(Step(given, Launching(AdmitReservedStart(r, g, starter))), Launching(TakeLease(r, s.now)));
      TicketUsed(s, r, token, presenter, starter, after)
  {
    var admit, take := Launching(AdmitReservedStart(r, g, starter)), Launching(TakeLease(r, s.now));
    AdmitsGrant(given, r, g, starter);
    StepKeepsInv(given, admit);
    var admitted := Step(given, admit);
    if r in admitted.parties.starters {
      TakesClaim(admitted, r, starter, given.parties.grants[g]);
    } else {
      TakesNothing(admitted, r);
    }
    GrantIsUsed(s, r, g, token, presenter, starter, given, admitted, Step(admitted, take));
  }

  /**
   From every reachable state a connection gets the ticket's lease, Live and its own, exactly when the
   ticket is of the identity that redeems it and that starts, its deadline lies ahead and the manager
   is open.  A grant that leads to no lease is gone, and its lease with it.
   */
  lemma TicketIsUsedExactly(config: Config, start: int, events: seq<Event>, r: nat, g: nat, token: Token,
                            presenter: Identity, starter: Identity)
    requires
      var s := Reached(config, start, events);
      r !in s.parties.starters && g !in s.parties.grants && token in s.parties.tickets
    ensures
      var s := Reached(config, start, events);
      var entry := s.parties.tickets[token];
      var after := Run(s, Presenting(s, r, g, token, presenter, starter));
      var redeemed := s.now < entry.expiresAt && presenter == entry.identity;
      && (r in after.parties.starters <==> redeemed && starter == presenter && !s.registry.shuttingDown)
      && (r in after.parties.starters ==>
            && after.parties.starters[r] == Activated(entry.lease)
            && entry.lease in after.table.leases && after.table.leases[entry.lease] == Lease(entry.identity, Live))
      && (redeemed && r !in after.parties.starters ==> entry.lease !in after.table.leases)
      && after.parties.starters - {r} == s.parties.starters && after.parties.grants == s.parties.grants
  {
    ReachedInv(config, start, events);
    PresentFrom(Reached(config, start, events), r, g, token, presenter, starter);
  }

  /** A start without a ticket takes a lease of its own exactly when the manager has a place. */
  lemma PlainStartIsAdmittedExactly(config: Config, start: int, events: seq<Event>, r: nat, identity: Identity)
    requires r !in Reached(config, start, events).parties.starters
    ensures
      var s := Reached(config, start, events);
      var after := Run(s, [Launching(AdmitStart(r, identity)), Launching(TakeLease(r, s.now))]);
      && (r in after.parties.starters <==> HasPlace(s, identity))
      && (r in after.parties.starters ==>
            && after.parties.starters == s.parties.starters[r := Activated(s.table.nextId)]
            && s.table.nextId in after.table.leases && after.table.leases[s.table.nextId] == Lease(identity, Live))
      && (r !in after.parties.starters ==> s.table.nextId !in after.table.leases)
  {
    var s := Reached(config, start, events);
    var admit, take := Launching(AdmitStart(r, identity)), Launching(TakeLease(r, s.now));
    ReachedInv(config, start, events);
    RunTwo(s, admit, take);
    if !s.registry.shuttingDown {
      TakesOwnLease(Step(s, admit), r, identity);
    }
  }

  predicate OwnLeaseFrom(s: System, r: nat, identity: Identity, after: System) {
    if HasPlace(s, identity) then
      && after.parties.starters == s.parties.starters[r := Activated(s.table.nextId)]
      && s.table.nextId in after.table.leases && after.table.leases[s.table.nextId] == Lease(identity, Live)
    else after.parties.starters == s.parties.starters - {r} && s.table.nextId !in after.table.leases
  }

  lemma CommitsLive(s: System, r: nat, identity: Identity, table: Table, reserved: Reserved)
    requires ReserveEffect(s.table, identity, Live, s.now, table, reserved) && s.table.nextId !in s.table.leases
    requires reserved.Granted? <==> HasPlace(s, identity)
    ensures OwnLeaseFrom(s, r, identity, CommitLive(s, r, s.now, table, reserved))
  {
  }

  lemma TakesOwnLease(s: System, r: nat, identity: Identity)
    requires r in s.parties.starters && s.parties.starters[r] == Starting(identity, None)
    requires WithinLimits(s.table, s.config.limits) && s.table.closed == s.registry.shuttingDown
    ensures OwnLeaseFrom(s, r, identity, Step(s, Launching(TakeLease(r, s.now))))
  {
    var (table, reserved) := ReserveWith(s.table, s.config.limits, identity, Live, s.now);
    ReserveIsGrantedExactly(s.table, s.config.limits, identity, Live, s.now);
    ReserveHasEffect(s.table, s.config.limits, identity, Live, s.now);
    CommitsLive(s, r, identity, table, reserved);
    assert DoTakeLease(s, r, s.now) == CommitLive(s, r, s.now, table, reserved);
  }

  // ----- a child and its session -----

  /** From the spawned child to its registered task, and the task's way to the delivery. */
  function Launch(r: nat): seq<Event> {
    [Launching(SpawnChild(r)), Launching(Register(r)), Launching(Signal(r))]
  }

  function Admission(k: TaskId): seq<Event> {
    [Registering(OnTask(k, Decide(Authenticated))),
     Registering(OnTask(k, RecordStart(true, Audit.Persisted))),
     Registering(OnTask(k, TakeHandoff))]
  }

  predicate LaunchedFrom(s: System, r: nat, lease: LeaseId, after: System) {
    var k := s.registry.nextTask;
    var tasks := s.parties.tasks[k := Spawned(lease, SPAWNED).(phase := Connecting)];
    && after.parties == s.parties.(starters := s.parties.starters - {r}, tasks := tasks)
    && after.registry == s.registry.(active := s.registry.active + {k}, nextTask := k + 1)
    && after.sink == s.sink && after.table == s.table && after.config == s.config
  }

  lemma SpawnsAndRegisters(s: System, r: nat, lease: LeaseId)
    requires r in s.parties.starters && s.parties.starters[r] == Activated(lease)
    ensures
      var k := s.registry.nextTask;
      var after := Step(Step(s, Launching(SpawnChild(r))), Launching(Register(r)));
      && after.parties == s.parties.(starters := s.parties.starters[r := Registered(k)],
                                     tasks := s.parties.tasks[k := Spawned(lease, SPAWNED)])
      && after.registry == s.registry.(active := s.registry.active + {k}, nextTask := k + 1)
      && after.sink == s.sink && after.table == s.table && after.config == s.config
  {
    var k := s.registry.nextTask;
    assert s.parties.starters[r := ChildSpawned(lease)][r := Registered(k)] == s.parties.starters[r := Registered(k)];
  }

  lemma Signals(s: System, r: nat, k: TaskId, lease: LeaseId)
    requires r in s.parties.starters && s.parties.starters[r] == Registered(k)
    requires k in s.parties.tasks && s.parties.tasks[k] == Spawned(lease, SPAWNED)
    ensures
      var after := Step(s, Launching(Signal(r)));
      var task := Spawned(lease, SPAWNED).(phase := Connecting);
      && after.parties == s.parties.(starters := s.parties.starters - {r}, tasks := s.parties.tasks[k := task])
      && after.registry == s.registry && after.sink == s.sink && after.table == s.table && after.config == s.config
  {
  }

  lemma Launches(s: System, r: nat, lease: LeaseId)
    requires r in s.parties.starters && s.parties.starters[r] == Activated(lease)
    ensures LaunchedFrom(s, r, lease, Run(s, Launch(r)))
  {
    var k := s.registry.nextTask;
    var spawned := Spawned(lease, SPAWNED);
    RunThree(s, Launch(r)[0], Launch(r)[1], Launch(r)[2]);
    SpawnsAndRegisters(s, r, lease);
    Signals(Step(Step(s, Launch(r)[0]), Launch(r)[1]), r, k, lease);
    assert s.parties.starters[r := Registered(k)] - {r} == s.parties.starters - {r};
    assert s.parties.tasks[k := spawned][k := spawned.(phase := Connecting)] ==
           s.parties.tasks[k := spawned.(phase := Connecting)];
  }

  /** What an authenticated connection that nobody hung up on is: delivered, unless its start cannot be recorded. */
  function Delivered(k: TaskId, lease: LeaseId, audited: bool, sink: Sink): (Task, Sink) {
    var connecting := Spawned(lease, SPAWNED).(phase := Connecting);
    if audited && sink.failed then (connecting.(phase := Cleaning(AbortAudit)), sink)
    else
      (connecting.(phase := Supervising, startRecorded := audited, results := [SessionDelivered]),
       if audited then sink.(records := sink.records + [SessionStarted(k)]) else sink)
  }

  lemma EffectOnly(s: System, k: TaskId, effect: TaskEvent, after: Task, sink: Sink)
    requires k in s.parties.tasks && !effect.Go?
    requires TaskStep(k, s.parties.tasks[k], effect, s.config.audited, s.sink) == (after, sink)
    ensures Step(s, Registering(OnTask(k, effect))) == CommitEffect(s, k, after, sink)
  {
  }

  lemma CommitTwice(s: System, k: TaskId, a: Task, b: Task, sink: Sink, last: Sink)
    ensures CommitEffect(CommitEffect(s, k, a, sink), k, b, last) == CommitEffect(s, k, b, last)
  {
    assert s.parties.tasks[k := a][k := b] == s.parties.tasks[k := b];
  }

  /** The four effects of an admission on the task and the sink alone. */
  function FourEffects(k: TaskId, t: Task, audited: bool, sink: Sink): (Task, Sink) {
    var (t1, s1) := TaskStep(k, t, Decide(Authenticated), audited, sink);
    var (t2, s2) := TaskStep(k, t1, RecordStart(true, Audit.Persisted), audited, s1);
    var (t3, s3) := TaskStep(k, t2, TakeHandoff, audited, s2);
    TaskStep(k, t3, Deliver, audited, s3)
  }

  lemma AdmissionDelivers(k: TaskId, lease: LeaseId, audited: bool, sink: Sink)
    ensures FourEffects(k, Spawned(lease, SPAWNED).(phase := Connecting), audited, sink) ==
            Delivered(k, lease, audited, sink)
  {
    assert [] + [SessionDelivered] == [SessionDelivered];
  }

  /** Several effects on one task are one change of the system. */
  lemma EffectOn(s: System, base: System, k: TaskId, t: Task, sink: Sink, effect: TaskEvent)
    requires k in base.parties.tasks && !effect.Go? && s == CommitEffect(base, k, t, sink)
    ensures
      var (task, last) := TaskStep(k, t, effect, base.config.audited, sink);
      Step(s, Registering(OnTask(k, effect))) == CommitEffect(base, k, task, last)
  {
    var (task, last) := TaskStep(k, t, effect, base.config.audited, sink);
    EffectOnly(s, k, effect, task, last);
    CommitTwice(base, k, t, task, sink, last);
  }

  lemma Connected(s: System, k: TaskId, lease: LeaseId)
    requires k in s.parties.tasks && s.parties.tasks[k] == Spawned(lease, SPAWNED).(phase := Connecting)
    ensures
      var (task, sink) := Delivered(k, lease, s.config.audited, s.sink);
      Run(s, Admission(k) + [Registering(OnTask(k, Deliver))]) == CommitEffect(s, k, task, sink)
  {
    var path := Admission(k);
    var deliver := Registering(OnTask(k, Deliver));
    var t := s.parties.tasks[k];
    var audited := s.config.audited;
    RunAppend(s, path, [deliver]);
    RunOne(Run(s, path), deliver);
    RunThree(s, path[0], path[1], path[2]);
    AdmissionDelivers(k, lease, audited, s.sink);
    var (t1, s1) := TaskStep(k, t, Decide(Authenticated), audited, s.sink);
    var (t2, s2) := TaskStep(k, t1, RecordStart(true, Audit.Persisted), audited, s1);
    var (t3, s3) := TaskStep(k, t2, TakeHandoff, audited, s2);
    EffectOnly(s, k, Decide(Authenticated), t1, s1);
    EffectOn(Step(s, path[0]), s, k, t1, s1, RecordStart(true, Audit.Persisted));
    EffectOn(Step(Step(s, path[0]), path[1]), s, k, t2, s2, TakeHandoff);
    EffectOn(Run(s, path), s, k, t3, s3, Deliver);
  }

  lemma LeaseIsLive(s: System, r: nat, lease: LeaseId)
    requires Inv(s) && r in s.parties.starters && s.parties.starters[r] == Activated(lease)
    ensures LiveAt(s.table, lease) && s.registry.nextTask !in s.parties.tasks
  {
    OnlyLease(s.parties, s.index, StarterOwner(r), lease);
  }

  lemma StartFrom(s: System, r: nat, lease: LeaseId)
    requires r in s.parties.starters && s.parties.starters[r] == Activated(lease)
    ensures
      var k := s.registry.nextTask;
      var (task, sink) := Delivered(k, lease, s.config.audited, s.sink);
      && Run(s, Launch(r) + Admission(k) + [Registering(OnTask(k, Deliver))]) ==
         CommitEffect(Run(s, Launch(r)), k, task, sink)
      && LaunchedFrom(s, r, lease, Run(s, Launch(r)))
  {
    var k := s.registry.nextTask;
    var rest := Admission(k) + [Registering(OnTask(k, Deliver))];
    assert Launch(r) + Admission(k) + [Registering(OnTask(k, Deliver))] == Launch(r) + rest;
    RunAppend(s, Launch(r), rest);
    Launches(s, r, lease);
    Connected(Run(s, Launch(r)), k, lease);
  }

  /**
   From every reachable state a call that has its lease becomes a session whose caller gets it, if
   its child connects authenticated and nothing else happens to it; with audit exactly when the
   sink takes the record of its start, and then that record is there.
   */
  lemma StartedSessionIsDelivered(config: Config, start: int, events: seq<Event>, r: nat, lease: LeaseId)
    requires
      var s := Reached(config, start, events);
      r in s.parties.starters && s.parties.starters[r] == Activated(lease)
    ensures
      var s := Reached(config, start, events);
      var k := s.registry.nextTask;
      var after := Run(s, Launch(r) + Admission(k) + [Registering(OnTask(k, Deliver))]);
      var recorded := config.audited && !s.sink.failed;
      && k !in s.parties.tasks && k in after.parties.tasks && k in after.registry.active
      && after.parties.tasks[k].lease == lease && LiveAt(after.table, lease)
      && (SessionDelivered in after.parties.tasks[k].results <==> !config.audited || recorded)
      && after.sink.records == s.sink.records + (if recorded then [SessionStarted(k)] else [])
      && after.parties.starters == s.parties.starters - {r}
      && after.parties.requests == s.parties.requests && after.parties.grants == s.parties.grants
      && after.parties.tickets == s.parties.tickets && after.table == s.table
  {
    ReachedInv(config, start, events);
    LeaseIsLive(Reached(config, start, events), r, lease);
    StartFrom(Reached(config, start, events), r, lease);
  }
}
