/** What happens to one ticket over whole runs of the manager. */
module ManagerTickets {
  import opened Wrappers
  import opened Capacity
  import opened Tickets
  import opened Manager
  import opened ManagerOwnership
  import opened ManagerLeases
  import opened ManagerSafety
  import opened ManagerTheorems

  /**
   The event neither redeems the ticket for its identity, nor reads its deadline in the store, nor
   empties the store.
   */
  predicate Spares(e: Event, token: Token, entry: Entry) {
    match e
    case Ticketing(RedeemTicket(_, t, identity, reading)) =>
      t == token ==> reading < entry.expiresAt && identity != entry.identity
    case Ticketing(Issue(_, _, reading, _)) => reading < entry.expiresAt
    case Ticketing(ClearTickets) => false
    case _ => true
  }

  predicate Keeps(s: System, token: Token, entry: Entry) {
    token in s.parties.tickets && s.parties.tickets[token] == entry
  }

  lemma IssueSpares(s: System, r: nat, target: string, reading: int, tries: seq<Try>, token: Token, entry: Entry)
    requires Keeps(s, token, entry) && reading < entry.expiresAt
    ensures Keeps(DoIssue(s, r, target, reading, tries), token, entry)
  {
    if r in s.parties.requests {
      var Claim(identity, deadline, lease) := s.parties.requests[r];
      var issued := Entry(identity, target, deadline, lease);
      IssueAnswersExactly(s.parties.tickets, s.config.ticketCapacity, issued, reading, tries);
      var valid := map t | t in s.parties.tickets && reading < s.parties.tickets[t].expiresAt :: s.parties.tickets[t];
      assert token in valid;
      if ClockRuns(reading, tries) {
        IssueConservesReservations(s.parties.tickets, s.config.ticketCapacity, issued, reading, tries);
      }
    }
  }

  lemma LaunchingKeepsTickets(s: System, e: StartEvent)
    ensures StartStep(s, e).parties.tickets == s.parties.tickets
  {
    LaunchingFrame(s, e);
  }

  lemma RegisteringKeepsTickets(s: System, e: RegistryEvent)
    ensures RegistryStep(s, e).parties.tickets == s.parties.tickets
  {
  }

  lemma SparedStays(s: System, e: Event, token: Token, entry: Entry)
    requires Keeps(s, token, entry) && Spares(e, token, entry)
    ensures Keeps(Step(s, e), token, entry)
  {
    match e {
      case Ticketing(Issue(r, target, reading, tries)) => IssueSpares(s, r, target, reading, tries, token, entry);
      case Ticketing(RedeemTicket(g, t, identity, reading)) =>
        RedeemAnswersExactly(s.parties.tickets, t, identity, reading);
      case Launching(l) => LaunchingKeepsTickets(s, l);
      case Registering(r) => RegisteringKeepsTickets(s, r);
      case _ =>
    }
  }

  lemma {:induction false} SparedRunStays(s: System, events: seq<Event>, token: Token, entry: Entry)
    requires Keeps(s, token, entry) && forall i :: 0 <= i < |events| ==> Spares(events[i], token, entry)
    ensures Keeps(Run(s, events), token, entry)
    decreases |events|
  {
    if events != [] {
      SparedStays(s, events[0], token, entry);
      SparedRunStays(Step(s, events[0]), events[1..], token, entry);
    }
  }

  /**
   A ticket waits for its own identity: whatever else is issued, redeemed, started, ended or tried on
   this ticket by others, it is there and redeems, until its identity redeems it, a reading of the
   store reaches its deadline, or the store is emptied.
   */
  lemma TicketWaitsForItsOwner(config: Config, start: int, before: seq<Event>, later: seq<Event>, token: Token,
                               reading: int)
    requires token in Reached(config, start, before).parties.tickets
    requires
      var entry := Reached(config, start, before).parties.tickets[token];
      reading < entry.expiresAt && forall i :: 0 <= i < |later| ==> Spares(later[i], token, entry)
    ensures
      var entry := Reached(config, start, before).parties.tickets[token];
      var s := Run(Reached(config, start, before), later);
      && Keeps(s, token, entry)
      && Redeem(s.parties.tickets, token, entry.identity, reading).1 == Ok(entry)
  {
    var s := Reached(config, start, before);
    var entry := s.parties.tickets[token];
    ReachedInv(config, start, before);
    SparedRunStays(s, later, token, entry);
    RedeemAnswersExactly(Run(s, later).parties.tickets, token, entry.identity, reading);
  }

  /** A redemption by somebody else, or of no ticket at all, changes nothing but the clock. */
  lemma StrangerChangesNothing(s: System, g: nat, token: Token, identity: Identity, reading: int)
    requires token in s.parties.tickets ==>
               reading < s.parties.tickets[token].expiresAt && identity != s.parties.tickets[token].identity
    ensures
      var after := Step(s, Ticketing(RedeemTicket(g, token, identity, reading)));
      after == s.(now := after.now)
  {
    RedeemAnswersExactly(s.parties.tickets, token, identity, reading);
    assert s.table.leases - {} == s.table.leases && s.index - {} == s.index;
  }

  /** What a redemption hands out is the ticket's own reservation, to the identity that redeemed it, once. */
  lemma RedemptionHandsOverOnce(s: System, g: nat, token: Token, identity: Identity, reading: int)
    requires g !in s.parties.grants
    ensures
      var after := Step(s, Ticketing(RedeemTicket(g, token, identity, reading)));
      && (g in after.parties.grants <==>
            && WellFormed(token) && token in s.parties.tickets
            && reading < s.parties.tickets[token].expiresAt && s.parties.tickets[token].identity == identity)
      && (g in after.parties.grants ==>
            && after.parties.grants[g] ==
                 Claim(identity, s.parties.tickets[token].expiresAt, s.parties.tickets[token].lease)
            && token !in after.parties.tickets && after.table == s.table)
  {
    RedeemAnswersExactly(s.parties.tickets, token, identity, reading);
  }

  /** Emptying the store lets go of the reservation of every ticket, and of nothing else. */
  lemma ClearingLeavesNoTicket(config: Config, start: int, events: seq<Event>)
    ensures
      var s := Reached(config, start, events);
      var after := Step(s, Ticketing(ClearTickets));
      && after.parties == s.parties.(tickets := map[])
      && forall id :: id in after.table.leases <==>
           id in s.table.leases && forall t :: t in s.parties.tickets ==> s.parties.tickets[t].lease != id
  {
  }

  // ----- how often a token is issued and redeemed -----

  /** The event is an issue and brings a new entry for the token. */
  predicate IssuesAt(s: System, e: Event, token: Token) {
    var after := Step(s, e);
    && e.Ticketing? && e.ticketing.Issue? && token in after.parties.tickets
    && (token in s.parties.tickets ==> after.parties.tickets[token] != s.parties.tickets[token])
  }

  /** The event redeems the token. */
  predicate RedeemsAt(s: System, e: Event, token: Token) {
    && e.Ticketing? && e.ticketing.RedeemTicket? && e.ticketing.token == token
    && e.ticketing.grant !in s.parties.grants && e.ticketing.grant in Step(s, e).parties.grants
  }

  function Once(happens: bool): nat {
    if happens then 1 else 0
  }

  function Issues(s: System, events: seq<Event>, token: Token): nat
    decreases |events|
  {
    if events == [] then 0
    else Once(IssuesAt(s, events[0], token)) + Issues(Step(s, events[0]), events[1..], token)
  }

  function Redemptions(s: System, events: seq<Event>, token: Token): nat
    decreases |events|
  {
    if events == [] then 0
    else Once(RedeemsAt(s, events[0], token)) + Redemptions(Step(s, events[0]), events[1..], token)
  }

  function Held(s: System, token: Token): nat {
    Once(token in s.parties.tickets)
  }

  lemma RedemptionUsesUp(s: System, e: Event, token: Token)
    ensures RedeemsAt(s, e, token) ==> token in s.parties.tickets && token !in Step(s, e).parties.tickets
  {
    if RedeemsAt(s, e, token) {
      var RedeemTicket(g, _, identity, reading) := e.ticketing;
      RedemptionHandsOverOnce(s, g, token, identity, reading);
    }
  }

  lemma OnlyIssuesBringTickets(s: System, e: Event, token: Token)
    ensures Held(Step(s, e), token) <= Held(s, token) + Once(IssuesAt(s, e, token))
  {
    match e {
      case Ticketing(RedeemTicket(g, t, identity, reading)) =>
        RedeemAnswersExactly(s.parties.tickets, t, identity, reading);
      case Launching(l) => LaunchingKeepsTickets(s, l);
      case Registering(r) => RegisteringKeepsTickets(s, r);
      case _ =>
    }
  }

  /** Every redemption uses up an issue of its own, in every run: no ticket is redeemed twice. */
  lemma {:induction false} EveryRedemptionHasItsIssue(s: System, events: seq<Event>, token: Token)
    ensures Redemptions(s, events, token) + Held(Run(s, events), token) <= Held(s, token) + Issues(s, events, token)
    decreases |events|
  {
    if events != [] {
      RedemptionUsesUp(s, events[0], token);
      OnlyIssuesBringTickets(s, events[0], token);
      EveryRedemptionHasItsIssue(Step(s, events[0]), events[1..], token);
    }
  }

  lemma IssueIsCounted(s: System, r: nat, target: string, reading: int, tries: seq<Try>, token: Token)
    requires OwnedInv(s)
    ensures
      var e := Ticketing(Issue(r, target, reading, tries));
      && Step(s, e).history.redeemed == s.history.redeemed
      && Step(s, e).history.issued[token] == s.history.issued[token] + Once(IssuesAt(s, e, token))
  {
    if r in s.parties.requests && ClockRuns(reading, tries) && !s.sink.failed {
      var Claim(identity, deadline, lease) := s.parties.requests[r];
      var entry := Entry(identity, target, deadline, lease);
      var (tickets, result, released) := IssueAt(s.parties.tickets, s.config.ticketCapacity, entry, reading, tries);
      IssueConservesReservations(s.parties.tickets, s.config.ticketCapacity, entry, reading, tries);
      if token in s.parties.tickets {
        OnlyRequestsLease(s, r, token);
      }
      CommitIsCounted(s, r, entry, reading, tickets, result, released, token);
      assert DoIssue(s, r, target, reading, tries) == CommitIssue(s, r, lease, reading, tickets, result, released);
    }
  }

  lemma OnlyRequestsLease(s: System, r: nat, token: Token)
    requires OwnedInv(s) && r in s.parties.requests && token in s.parties.tickets
    ensures s.parties.tickets[token].lease != s.parties.requests[r].lease
  {
    OnlyLease(s.parties, s.index, RequestOwner(r), s.parties.requests[r].lease);
    OnlyLease(s.parties, s.index, TicketOwner(token), s.parties.tickets[token].lease);
  }

  lemma CommitIsCounted(s: System, r: nat, entry: Entry, reading: int, tickets: Store, result: Result<Token>,
                        released: set<LeaseId>, token: Token)
    requires IssueConserves(s.parties.tickets, entry, reading, tickets, result, released)
    requires token in s.parties.tickets ==> s.parties.tickets[token] != entry
    ensures
      var after := CommitIssue(s, r, entry.lease, reading, tickets, result, released);
      var arrives := token in tickets && (token in s.parties.tickets ==> tickets[token] != s.parties.tickets[token]);
      && after.history.redeemed == s.history.redeemed
      && after.history.issued[token] == s.history.issued[token] + Once(arrives)
  {
  }

  lemma StepIsCounted(s: System, e: Event, token: Token)
    requires OwnedInv(s)
    ensures Step(s, e).history.issued[token] == s.history.issued[token] + Once(IssuesAt(s, e, token))
    ensures Step(s, e).history.redeemed[token] == s.history.redeemed[token] + Once(RedeemsAt(s, e, token))
  {
    match e {
      case Ticketing(Issue(r, target, reading, tries)) => IssueIsCounted(s, r, target, reading, tries, token);
      case Ticketing(RedeemTicket(g, t, identity, reading)) =>
        if g !in s.parties.grants {
          RedemptionHandsOverOnce(s, g, t, identity, reading);
        }
      case Launching(l) => LaunchingFrame(s, l);
      case Registering(r) => RegisteringFrame(s, r);
      case _ =>
    }
  }

  /** The history counts exactly the issues and the redemptions of the run. */
  lemma {:induction false} HistoryIsTrue(s: System, events: seq<Event>, token: Token)
    requires Inv(s)
    ensures Run(s, events).history.issued[token] == s.history.issued[token] + Issues(s, events, token)
    ensures Run(s, events).history.redeemed[token] == s.history.redeemed[token] + Redemptions(s, events, token)
    decreases |events|
  {
    if events != [] {
      StepKeepsInv(s, events[0]);
      StepIsCounted(s, events[0], token);
      HistoryIsTrue(Step(s, events[0]), events[1..], token);
    }
  }
}
