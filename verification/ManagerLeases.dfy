/** Which leases are in the table, and in which state, in every reachable state of the manager. */
module ManagerLeases {
  import opened Wrappers
  import opened Capacity
  import opened Tickets
  import opened PtyBackend
  import opened Supervision
  import opened Manager
  import opened ManagerOwnership

  // ----- live leases -----

  predicate LiveAt(t: Table, id: LeaseId) {
    id in t.leases && t.leases[id].state.Live?
  }

  /** The parties that hold a Live lease: from activation until the task lets it go. */
  predicate HoldsLive(p: Parties, o: Owner) {
    match o
    case TaskOwner(_) => true
    case StarterOwner(r) => r in p.starters && (p.starters[r].Activated? || p.starters[r].ChildSpawned?)
    case _ => false
  }

  /** A held lease is Live in the table if and only if its holder has got past activation. */
  ghost predicate LiveOk(t: Table, p: Parties, index: Index) {
    forall id :: id in index ==> (LiveAt(t, id) <==> HoldsLive(p, index[id]))
  }

  ghost predicate LiveInv(s: System) {
    LiveOk(s.table, s.parties, s.index)
  }

  ghost predicate SameLiveHolders(p: Parties, after: Parties) {
    forall o :: HoldsLive(after, o) <==> HoldsLive(p, o)
  }

  lemma LiveReleased(t: Table, ids: set<LeaseId>, p: Parties, index: Index, after: Parties)
    requires LiveOk(t, p, index) && SameLiveHolders(p, after)
    ensures LiveOk(Release(t, ids), after, index - ids)
  {
  }

  lemma LiveMoved(t: Table, id: LeaseId, p: Parties, index: Index, after: Parties, to: Owner)
    requires LiveOk(t, p, index) && id in index
    requires forall other :: other in index && other != id ==>
             (HoldsLive(after, index[other]) <==> HoldsLive(p, index[other]))
    requires HoldsLive(after, to) <==> HoldsLive(p, index[id])
    ensures LiveOk(t, after, index[id := to])
  {
  }

  lemma LiveAfterReserve(s: System, r: nat, identity: Identity, deadline: int, reading: int, table: Table,
                         reserved: Reserved)
    requires OwnedInv(s) && LiveInv(s) && ReserveEffect(s.table, identity, Pending(deadline), reading, table, reserved)
    requires r in s.parties.starters && s.parties.starters[r].Reserving?
    ensures LiveInv(CommitReserve(s, r, identity, deadline, reading, table, reserved))
  {
  }

  lemma LiveAfterIssue(s: System, r: nat, entry: Entry, reading: int, tickets: Store, result: Result<Token>,
                       released: set<LeaseId>)
    requires OwnedInv(s) && LiveInv(s) && r in s.parties.requests && s.parties.requests[r].lease == entry.lease
    requires IssueConserves(s.parties.tickets, entry, reading, tickets, result, released)
    ensures LiveInv(CommitIssue(s, r, entry.lease, reading, tickets, result, released))
  {
    var parties := DropRequestOf(s.parties, r).(tickets := tickets);
    OnlyLease(s.parties, s.index, RequestOwner(r), entry.lease);
    LiveReleased(s.table, released, s.parties, s.index, parties);
    assert !LiveAt(Release(s.table, released), entry.lease);
  }

  lemma LiveAfterRedeem(s: System, g: nat, token: Token, reading: int, tickets: Store, result: Result<Entry>,
                        released: set<LeaseId>)
    requires OwnedInv(s) && LiveInv(s)
    requires RedeemConserves(s.parties.tickets, token, tickets, result, released)
    ensures LiveInv(CommitRedeem(s, g, token, reading, tickets, result, released))
  {
    var after := CommitRedeem(s, g, token, reading, tickets, result, released);
    if result.Ok? {
      OnlyLease(s.parties, s.index, TicketOwner(token), result.value.lease);
      LiveMoved(s.table, result.value.lease, s.parties, s.index, after.parties, GrantOwner(g));
    } else {
      LiveReleased(s.table, released, s.parties, s.index, after.parties);
    }
  }

  lemma LiveAfterDrops(s: System, n: nat)
    requires LiveInv(s)
    ensures LiveInv(DoDropRequest(s, n)) && LiveInv(DoDropGrant(s, n)) && LiveInv(DoClearTickets(s))
  {
    if n in s.parties.requests {
      LiveReleased(s.table, {s.parties.requests[n].lease}, s.parties, s.index, DropRequestOf(s.parties, n));
    }
    if n in s.parties.grants {
      LiveReleased(s.table, {s.parties.grants[n].lease}, s.parties, s.index, DropGrantOf(s.parties, n));
    }
    LiveReleased(s.table, Dropped(s.parties.tickets, map[]), s.parties, s.index, s.parties.(tickets := map[]));
  }

  lemma LiveAfterIdleStarter(s: System, r: nat, starter: Starter)
    requires OwnedInv(s) && LiveInv(s) && r !in s.parties.starters && StarterLease(starter) == None
    ensures LiveInv(s.(parties := PutStarter(s.parties, r, starter)))
  {
    NotAnOwner(s.parties, s.index, StarterOwner(r));
  }

  lemma LiveAfterAdmitReservedStart(s: System, r: nat, g: nat, identity: Identity)
    requires OwnedInv(s) && LiveInv(s)
    ensures LiveInv(DoAdmitReservedStart(s, r, g, identity))
  {
    LiveAfterDrops(s, g);
    if r !in s.parties.starters && g in s.parties.grants && !s.registry.shuttingDown {
      var claim := s.parties.grants[g];
      var parties := PutStarter(DropGrantOf(s.parties, g), r, Starting(identity, Some(claim)));
      OnlyLease(s.parties, s.index, GrantOwner(g), claim.lease);
      NotAnOwner(s.parties, s.index, StarterOwner(r));
      LiveMoved(s.table, claim.lease, s.parties, s.index, parties, StarterOwner(r));
    }
  }

  lemma LiveAfterLive(s: System, r: nat, identity: Identity, reading: int, table: Table, reserved: Reserved)
    requires OwnedInv(s) && LiveInv(s) && ReserveEffect(s.table, identity, Live, reading, table, reserved)
    requires LeaseOf(s.parties, StarterOwner(r)) == None
    ensures LiveInv(CommitLive(s, r, reading, table, reserved))
  {
    NotAnOwner(s.parties, s.index, StarterOwner(r));
  }

  lemma LiveAfterActivation(s: System, r: nat, lease: LeaseId, identity: Identity, reading: int, table: Table,
                            error: Option<SessionError>)
    requires OwnedInv(s) && LiveInv(s) && ActivateEffect(s.table, lease, identity, reading, table, error)
    requires LeaseOf(s.parties, StarterOwner(r)) == Some(lease)
    ensures LiveInv(CommitActivation(s, r, lease, reading, table, error))
  {
    OnlyLease(s.parties, s.index, StarterOwner(r), lease);
  }

  lemma LiveAfterFailStart(s: System, r: nat)
    requires OwnedInv(s) && LiveInv(s)
    ensures LiveInv(DoFailStart(s, r))
  {
    if DoFailStart(s, r) != s {
      var lease := StarterLease(s.parties.starters[r]);
      if lease.Some? {
        OnlyLease(s.parties, s.index, StarterOwner(r), lease.value);
      } else {
        NotAnOwner(s.parties, s.index, StarterOwner(r));
      }
    }
  }

  lemma LiveAfterRegister(s: System, r: nat)
    requires OwnedInv(s) && LiveInv(s)
    ensures LiveInv(DoRegister(s, r))
  {
    if r in s.parties.starters && s.parties.starters[r].ChildSpawned? {
      var lease := s.parties.starters[r].lease;
      OnlyLease(s.parties, s.index, StarterOwner(r), lease);
      LiveMoved(s.table, lease, s.parties, s.index, DoRegister(s, r).parties, TaskOwner(s.registry.nextTask));
    }
  }

  lemma LiveAfterTasks(s: System, k: TaskId, task: Task, sink: Sink)
    requires LiveInv(s)
    ensures LiveInv(CommitEffect(s, k, task, sink)) && LiveInv(DoReleaseLease(s, k)) && LiveInv(DoCompleteTask(s, k))
  {
  }

  lemma LiveAfterDropStarter(s: System, r: nat)
    requires OwnedInv(s) && LiveInv(s) && LeaseOf(s.parties, StarterOwner(r)) == None
    ensures LiveInv(s.(parties := DropStarter(s.parties, r)))
  {
    NotAnOwner(s.parties, s.index, StarterOwner(r));
  }

  // ----- deadlines -----

  /** The claim a pending holder has on its lease. */
  function ClaimOf(p: Parties, o: Owner): Option<Claim> {
    match o
    case RequestOwner(r) => if r in p.requests then Some(p.requests[r]) else None
    case TicketOwner(t) =>
      if t in p.tickets then Some(Claim(p.tickets[t].identity, p.tickets[t].expiresAt, p.tickets[t].lease)) else None
    case GrantOwner(g) => if g in p.grants then Some(p.grants[g]) else None
    case StarterOwner(r) => if r in p.starters && p.starters[r].Starting? then p.starters[r].claim else None
    case TaskOwner(_) => None
  }

  /** Until its deadline, and unless the manager closes, a claim's lease is Pending with that deadline. */
  predicate Backed(t: Table, now: int, c: Claim) {
    && (c.lease in t.leases ==> t.leases[c.lease] == Lease(c.identity, Pending(c.deadline)))
    && (!t.closed && now < c.deadline ==> c.lease in t.leases)
  }

  ghost predicate BackedInv(s: System) {
    forall o :: ClaimOf(s.parties, o).Some? ==> Backed(s.table, s.now, ClaimOf(s.parties, o).value)
  }

  predicate IsAt(index: Index, id: LeaseId, o: Owner) {
    id in index && index[id] == o
  }

  lemma ClaimsAreHeld(s: System)
    requires OwnedInv(s)
    ensures forall o :: ClaimOf(s.parties, o).Some? ==>
      && LeaseOf(s.parties, o) == Some(ClaimOf(s.parties, o).value.lease)
      && IsAt(s.index, ClaimOf(s.parties, o).value.lease, o)
      && ClaimOf(s.parties, o).value.lease < s.table.nextId
  {
    forall o | ClaimOf(s.parties, o).Some?
      ensures LeaseOf(s.parties, o) == Some(ClaimOf(s.parties, o).value.lease)
      ensures IsAt(s.index, ClaimOf(s.parties, o).value.lease, o)
    {
      var id := ClaimOf(s.parties, o).value.lease;
      assert LeaseOf(s.parties, o) == Some(id);
    }
  }

  /** Claims that stay, or move from one holder to another, keep their backing. */
  lemma BackedShift(s: System, after: System, gone: set<LeaseId>, from: Owner, to: Owner)
    requires OwnedInv(s) && BackedInv(s) && s.now <= after.now && Advanced(s.table, after.table, after.now, gone)
    requires forall o :: o != to && ClaimOf(after.parties, o).Some? ==>
      ClaimOf(after.parties, o) == ClaimOf(s.parties, o) && ClaimOf(after.parties, o).value.lease !in gone
    requires ClaimOf(after.parties, to).Some? ==>
      ClaimOf(after.parties, to) == ClaimOf(s.parties, from) && ClaimOf(after.parties, to).value.lease !in gone
    ensures BackedInv(after)
  {
    ClaimsAreHeld(s);
    forall o | ClaimOf(after.parties, o).Some?
      ensures Backed(after.table, after.now, ClaimOf(after.parties, o).value)
    {
      var source := if o == to then from else o;
      assert Backed(s.table, s.now, ClaimOf(s.parties, source).value);
    }
  }

  lemma BackedAfterReserve(s: System, r: nat, identity: Identity, deadline: int, reading: int, table: Table,
                           reserved: Reserved)
    requires OwnedInv(s) && BackedInv(s) && ReserveEffect(s.table, identity, Pending(deadline), reading, table,
               reserved)
    requires r in s.parties.starters && s.parties.starters[r].Reserving? && r !in s.parties.requests && s.now <= reading
    ensures BackedInv(CommitReserve(s, r, identity, deadline, reading, table, reserved))
  {
    var after := CommitReserve(s, r, identity, deadline, reading, table, reserved);
    var left := s.(now := reading, table := table, parties := DropStarter(s.parties, r));
    BackedShift(s, left, {}, StarterOwner(r), StarterOwner(r));
    forall o | ClaimOf(after.parties, o).Some?
      ensures Backed(table, reading, ClaimOf(after.parties, o).value)
    {
      assert o != RequestOwner(r) ==> ClaimOf(after.parties, o) == ClaimOf(left.parties, o);
    }
  }

  lemma ClaimsAfterIssue(s: System, r: nat, kept: Store, issued: Result<Token>, entry: Entry, q: Parties)
    requires OwnedInv(s)
    requires r in s.parties.requests && s.parties.requests[r] == Claim(entry.identity, entry.expiresAt, entry.lease)
    requires forall t :: t in kept ==> t in s.parties.tickets && kept[t] == s.parties.tickets[t]
    requires q == DropRequestOf(s.parties, r).(tickets := if issued.Ok? then kept[issued.value := entry] else kept)
    ensures
      var released := Dropped(s.parties.tickets, kept) + if issued.Ok? then {} else {entry.lease};
      forall o :: ClaimOf(q, o).Some? ==>
        && ClaimOf(q, o).value.lease !in released
        && (if issued.Ok? && o == TicketOwner(issued.value) then ClaimOf(q, o) == ClaimOf(s.parties, RequestOwner(r))
            else ClaimOf(q, o) == ClaimOf(s.parties, o))
  {
    ClaimsAreHeld(s);
    assert ClaimOf(s.parties, RequestOwner(r)).Some?;
    var purged := Dropped(s.parties.tickets, kept);
    forall t | t in s.parties.tickets
      ensures IsAt(s.index, s.parties.tickets[t].lease, TicketOwner(t))
    {
      assert ClaimOf(s.parties, TicketOwner(t)).Some?;
    }
    forall o | ClaimOf(q, o).Some?
      ensures ClaimOf(q, o).value.lease !in purged + if issued.Ok? then {} else {entry.lease}
      ensures if issued.Ok? && o == TicketOwner(issued.value) then ClaimOf(q, o) == ClaimOf(s.parties, RequestOwner(r))
              else ClaimOf(q, o) == ClaimOf(s.parties, o)
    {
      var source := if issued.Ok? && o == TicketOwner(issued.value) then RequestOwner(r) else o;
      assert ClaimOf(s.parties, source) == ClaimOf(q, o);
    }
  }

  lemma BackedAfterIssue(s: System, r: nat, entry: Entry, reading: int, tickets: Store, result: Result<Token>,
                         released: set<LeaseId>)
    requires OwnedInv(s) && BackedInv(s)
    requires r in s.parties.requests && s.parties.requests[r] == Claim(entry.identity, entry.expiresAt, entry.lease)
    requires IssueConserves(s.parties.tickets, entry, reading, tickets, result, released)
    ensures BackedInv(CommitIssue(s, r, entry.lease, reading, tickets, result, released))
  {
    var after := CommitIssue(s, r, entry.lease, reading, tickets, result, released);
    var kept := if result.Ok? then tickets - {result.value} else tickets;
    ClaimsAfterIssue(s, r, kept, result, entry, after.parties);
    ReleaseAdvances(s.table, released, after.now);
    BackedShift(s, after, released, RequestOwner(r), if result.Ok? then TicketOwner(result.value) else RequestOwner(r));
  }

  lemma BackedAfterRedeem(s: System, g: nat, token: Token, reading: int, tickets: Store, result: Result<Entry>,
                          released: set<LeaseId>)
    requires OwnedInv(s) && BackedInv(s) && g !in s.parties.grants
    requires RedeemConserves(s.parties.tickets, token, tickets, result, released)
    ensures BackedInv(CommitRedeem(s, g, token, reading, tickets, result, released))
  {
    var after := CommitRedeem(s, g, token, reading, tickets, result, released);
    ClaimsAreHeld(s);
    ReleaseAdvances(s.table, released, after.now);
    assert s.table.leases - {} == s.table.leases;
    if token in s.parties.tickets {
      assert ClaimOf(s.parties, TicketOwner(token)).Some?;
    }
    BackedShift(s, after, released, TicketOwner(token), GrantOwner(g));
  }

  lemma BackedAfterDrop(s: System, o: Owner, parties: Parties, id: LeaseId)
    requires OwnedInv(s) && BackedInv(s) && LeaseOf(s.parties, o) == Some(id) && ClaimOf(parties, o) == None
    requires forall other :: other != o ==> ClaimOf(parties, other) == ClaimOf(s.parties, other)
    ensures BackedInv(s.(table := Release(s.table, {id}), parties := parties, index := s.index - {id}))
  {
    ClaimsAreHeld(s);
    OnlyLease(s.parties, s.index, o, id);
    ReleaseAdvances(s.table, {id}, s.now);
    BackedShift(s, s.(table := Release(s.table, {id}), parties := parties, index := s.index - {id}), {id}, o, o);
  }

  lemma BackedAfterClearTickets(s: System)
    requires OwnedInv(s) && BackedInv(s)
    ensures BackedInv(DoClearTickets(s))
  {
    var released := Dropped(s.parties.tickets, map[]);
    ClaimsAreHeld(s);
    forall t | t in s.parties.tickets
      ensures IsAt(s.index, s.parties.tickets[t].lease, TicketOwner(t))
    {
      assert ClaimOf(s.parties, TicketOwner(t)).Some?;
    }
    ReleaseAdvances(s.table, released, s.now);
    BackedShift(s, DoClearTickets(s), released, TicketOwner(""), TicketOwner(""));
  }

  /** Changes that touch neither the table nor any claim, except to move one between holders. */
  lemma BackedAfterMove(s: System, after: System, from: Owner, to: Owner)
    requires OwnedInv(s) && BackedInv(s) && after.table == s.table && s.now <= after.now
    requires forall o :: o != to && ClaimOf(after.parties, o).Some? ==>
             ClaimOf(after.parties, o) == ClaimOf(s.parties, o)
    requires ClaimOf(after.parties, to).Some? ==> ClaimOf(after.parties, to) == ClaimOf(s.parties, from)
    ensures BackedInv(after)
  {
    BackedShift(s, after, {}, from, to);
  }

  lemma BackedAfterLive(s: System, r: nat, identity: Identity, reading: int, table: Table, reserved: Reserved)
    requires OwnedInv(s) && BackedInv(s) && ReserveEffect(s.table, identity, Live, reading, table, reserved) &&
             s.now <= reading
    ensures BackedInv(CommitLive(s, r, reading, table, reserved))
  {
    BackedShift(s, CommitLive(s, r, reading, table, reserved), {}, StarterOwner(r), StarterOwner(r));
  }

  lemma BackedAfterActivation(s: System, r: nat, lease: LeaseId, identity: Identity, reading: int, table: Table,
                              error: Option<SessionError>)
    requires OwnedInv(s) && BackedInv(s) && ActivateEffect(s.table, lease, identity, reading, table, error) &&
             s.now <= reading
    requires LeaseOf(s.parties, StarterOwner(r)) == Some(lease)
    ensures BackedInv(CommitActivation(s, r, lease, reading, table, error))
  {
    ClaimsAreHeld(s);
    OnlyLease(s.parties, s.index, StarterOwner(r), lease);
    BackedShift(s, CommitActivation(s, r, lease, reading, table, error), {lease}, StarterOwner(r), StarterOwner(r));
  }

  lemma BackedAfterCloseAdmission(s: System)
    requires BackedInv(s)
    ensures BackedInv(DoCloseAdmission(s)) && (LiveInv(s) ==> LiveInv(DoCloseAdmission(s)))
  {
  }

  // ----- every event -----

  ghost predicate LeasesInv(s: System) {
    OwnedInv(s) && LiveInv(s) && BackedInv(s)
  }

  lemma LeasesAfterFinishReserve(s: System, r: nat, early: int, reading: int)
    requires LeasesInv(s)
    ensures LeasesInv(DoFinishReserve(s, r, early, reading))
  {
    if r in s.parties.starters && s.parties.starters[r].Reserving? && r !in s.parties.requests &&
       s.now <= reading && early <= reading {
      var Reserving(identity, deadline) := s.parties.starters[r];
      var (table, reserved) := ReservePending(s.table, s.config.limits, identity, deadline, early, reading);
      ReservePendingHasEffect(s.table, s.config.limits, identity, deadline, early, reading);
      OwnedAfterReserve(s, r, identity, deadline, reading, table, reserved);
      LiveAfterReserve(s, r, identity, deadline, reading, table, reserved);
      BackedAfterReserve(s, r, identity, deadline, reading, table, reserved);
    }
  }

  lemma LeasesAfterDropRequest(s: System, r: nat)
    requires LeasesInv(s)
    ensures LeasesInv(DoDropRequest(s, r))
  {
    OwnedAfterDropRequest(s, r);
    LiveAfterDrops(s, r);
    if r in s.parties.requests {
      BackedAfterDrop(s, RequestOwner(r), DropRequestOf(s.parties, r), s.parties.requests[r].lease);
    }
  }

  lemma LeasesAfterDropGrant(s: System, g: nat)
    requires LeasesInv(s)
    ensures LeasesInv(DoDropGrant(s, g))
  {
    OwnedAfterDropGrant(s, g);
    LiveAfterDrops(s, g);
    if g in s.parties.grants {
      BackedAfterDrop(s, GrantOwner(g), DropGrantOf(s.parties, g), s.parties.grants[g].lease);
    }
  }

  lemma LeasesAfterIssue(s: System, r: nat, target: string, reading: int, tries: seq<Try>)
    requires LeasesInv(s)
    ensures LeasesInv(DoIssue(s, r, target, reading, tries))
  {
    LeasesAfterDropRequest(s, r);
    if r in s.parties.requests && ClockRuns(reading, tries) && !s.sink.failed {
      var Claim(identity, deadline, lease) := s.parties.requests[r];
      var entry := Entry(identity, target, deadline, lease);
      var (tickets, result, released) := IssueAt(s.parties.tickets, s.config.ticketCapacity, entry, reading, tries);
      IssueConservesReservations(s.parties.tickets, s.config.ticketCapacity, entry, reading, tries);
      OwnedAfterIssue(s, r, entry, reading, tickets, result, released);
      LiveAfterIssue(s, r, entry, reading, tickets, result, released);
      BackedAfterIssue(s, r, entry, reading, tickets, result, released);
    }
  }

  lemma LeasesAfterRedeem(s: System, g: nat, token: Token, identity: Identity, reading: int)
    requires LeasesInv(s)
    ensures LeasesInv(DoRedeem(s, g, token, identity, reading))
  {
    if g !in s.parties.grants {
      var (tickets, result, released) := Redeem(s.parties.tickets, token, identity, reading);
      RedeemConservesReservations(s.parties.tickets, token, identity, reading);
      OwnedAfterRedeem(s, g, token, reading, tickets, result, released);
      LiveAfterRedeem(s, g, token, reading, tickets, result, released);
      BackedAfterRedeem(s, g, token, reading, tickets, result, released);
    }
  }

  lemma LeasesAfterClearTickets(s: System)
    requires LeasesInv(s)
    ensures LeasesInv(DoClearTickets(s))
  {
    OwnedAfterClearTickets(s);
    LiveAfterDrops(s, 0);
    BackedAfterClearTickets(s);
  }

  lemma LeasesAfterIdleStarter(s: System, r: nat, starter: Starter)
    requires LeasesInv(s) && r !in s.parties.starters && StarterLease(starter) == None
    ensures LeasesInv(s.(parties := PutStarter(s.parties, r, starter)))
  {
    OwnedAfterIdleStarter(s, r, starter);
    LiveAfterIdleStarter(s, r, starter);
    BackedAfterMove(s, s.(parties := PutStarter(s.parties, r, starter)), StarterOwner(r), StarterOwner(r));
  }

  lemma LeasesAfterAdmitReservedStart(s: System, r: nat, g: nat, identity: Identity)
    requires LeasesInv(s)
    ensures LeasesInv(DoAdmitReservedStart(s, r, g, identity))
  {
    LeasesAfterDropGrant(s, g);
    OwnedAfterAdmitReservedStart(s, r, g, identity);
    LiveAfterAdmitReservedStart(s, r, g, identity);
    if r !in s.parties.starters && g in s.parties.grants && !s.registry.shuttingDown {
      BackedAfterMove(s, DoAdmitReservedStart(s, r, g, identity), GrantOwner(g), StarterOwner(r));
    }
  }

  lemma LeasesAfterTakeLease(s: System, r: nat, reading: int)
    requires LeasesInv(s)
    ensures LeasesInv(DoTakeLease(s, r, reading))
  {
    if r in s.parties.starters && s.parties.starters[r].Starting? && s.now <= reading {
      var Starting(identity, claim) := s.parties.starters[r];
      if claim.None? {
        var (table, reserved) := ReserveWith(s.table, s.config.limits, identity, Live, reading);
        ReserveHasEffect(s.table, s.config.limits, identity, Live, reading);
        OwnedAfterLive(s, r, identity, reading, table, reserved);
        LiveAfterLive(s, r, identity, reading, table, reserved);
        BackedAfterLive(s, r, identity, reading, table, reserved);
      } else {
        var lease := claim.value.lease;
        var (table, error) := Activate(s.table, lease, identity, reading);
        ActivateHasEffect(s.table, lease, identity, reading);
        OwnedAfterActivation(s, r, lease, identity, reading, table, error);
        LiveAfterActivation(s, r, lease, identity, reading, table, error);
        BackedAfterActivation(s, r, lease, identity, reading, table, error);
      }
    }
  }

  lemma LeasesAfterFailStart(s: System, r: nat)
    requires LeasesInv(s)
    ensures LeasesInv(DoFailStart(s, r))
  {
    OwnedAfterFailStart(s, r);
    LiveAfterFailStart(s, r);
    if DoFailStart(s, r) != s {
      var lease := StarterLease(s.parties.starters[r]);
      if lease.Some? {
        BackedAfterDrop(s, StarterOwner(r), DropStarter(s.parties, r), lease.value);
      } else {
        assert s.table.leases - {} == s.table.leases;
        BackedAfterMove(s, DoFailStart(s, r), StarterOwner(r), StarterOwner(r));
      }
    }
  }

  lemma LeasesAfterSpawnChild(s: System, r: nat)
    requires LeasesInv(s)
    ensures LeasesInv(DoSpawnChild(s, r))
  {
    OwnedAfterSpawnChild(s, r);
    BackedAfterMove(s, DoSpawnChild(s, r), StarterOwner(r), StarterOwner(r));
  }

  lemma LeasesAfterRegister(s: System, r: nat)
    requires LeasesInv(s)
    ensures LeasesInv(DoRegister(s, r))
  {
    OwnedAfterRegister(s, r);
    LiveAfterRegister(s, r);
    BackedAfterMove(s, DoRegister(s, r), StarterOwner(r), StarterOwner(r));
  }

  lemma LeasesAfterOnTask(s: System, k: TaskId, e: TaskEvent)
    requires LeasesInv(s)
    ensures LeasesInv(DoOnTask(s, k, e))
  {
    if k in s.parties.tasks {
      var (task, sink) := TaskStep(k, s.parties.tasks[k], e, s.config.audited, s.sink);
      OwnedAfterOnTask(s, k, e);
      LiveAfterTasks(s, k, task, sink);
      BackedAfterMove(s, CommitEffect(s, k, task, sink), TaskOwner(k), TaskOwner(k));
    }
  }

  lemma LeasesAfterSignal(s: System, r: nat)
    requires LeasesInv(s)
    ensures LeasesInv(DoSignal(s, r))
  {
    if r in s.parties.starters && s.parties.starters[r].Registered? {
      var signalled := DoOnTask(s, s.parties.starters[r].task, Go);
      LeasesAfterOnTask(s, s.parties.starters[r].task, Go);
      OwnedAfterSignal(s, r);
      LiveAfterDropStarter(signalled, r);
      BackedAfterMove(signalled, signalled.(parties := DropStarter(signalled.parties, r)), StarterOwner(r),
        StarterOwner(r));
    }
  }

  lemma LeasesAfterReleaseLease(s: System, k: TaskId)
    requires LeasesInv(s)
    ensures LeasesInv(DoReleaseLease(s, k))
  {
    OwnedAfterReleaseLease(s, k);
    if k in s.parties.tasks && s.parties.tasks[k].phase.Releasing? {
      var task := s.parties.tasks[k];
      LiveAfterTasks(s, k, task, s.sink);
      BackedAfterDrop(s, TaskOwner(k), PutTask(s.parties, k, task.(phase := Released)), task.lease);
    }
  }

  lemma LeasesAfterCompleteTask(s: System, k: TaskId)
    requires LeasesInv(s)
    ensures LeasesInv(DoCompleteTask(s, k))
  {
    OwnedAfterCompleteTask(s, k);
    if k in s.parties.tasks {
      LiveAfterTasks(s, k, s.parties.tasks[k], s.sink);
    }
    BackedAfterMove(s, DoCompleteTask(s, k), TaskOwner(k), TaskOwner(k));
  }

  lemma LeasesAfterSignalClose(s: System, k: TaskId)
    requires LeasesInv(s)
    ensures LeasesInv(DoSignalClose(s, k))
  {
    LeasesAfterOnTask(s, k, RequestClose(ManagerShutdown));
  }

  lemma LeasesAfterTicketing(s: System, e: TicketEvent)
    requires LeasesInv(s)
    ensures LeasesInv(TicketStep(s, e))
  {
    match e {
      case AdmitReserve(r, identity, deadline) =>
        if r !in s.parties.starters { LeasesAfterIdleStarter(s, r, Reserving(identity, deadline)); }
      case FinishReserve(r, early, reading) => LeasesAfterFinishReserve(s, r, early, reading);
      case Issue(r, target, reading, tries) => LeasesAfterIssue(s, r, target, reading, tries);
      case DropRequest(r) => LeasesAfterDropRequest(s, r);
      case RedeemTicket(g, token, identity, reading) => LeasesAfterRedeem(s, g, token, identity, reading);
      case DropGrant(g) => LeasesAfterDropGrant(s, g);
      case ClearTickets => LeasesAfterClearTickets(s);
    }
  }

  lemma LeasesAfterLaunching(s: System, e: StartEvent)
    requires LeasesInv(s)
    ensures LeasesInv(StartStep(s, e))
  {
    match e {
      case AdmitStart(r, identity) =>
        if r !in s.parties.starters { LeasesAfterIdleStarter(s, r, Starting(identity, None)); }
      case AdmitReservedStart(r, g, identity) => LeasesAfterAdmitReservedStart(s, r, g, identity);
      case TakeLease(r, reading) => LeasesAfterTakeLease(s, r, reading);
      case FailStart(r) => LeasesAfterFailStart(s, r);
      case SpawnChild(r) => LeasesAfterSpawnChild(s, r);
      case Register(r) => LeasesAfterRegister(s, r);
      case Signal(r) => LeasesAfterSignal(s, r);
    }
  }

  lemma LeasesAfterRegistering(s: System, e: RegistryEvent)
    requires LeasesInv(s)
    ensures LeasesInv(RegistryStep(s, e))
  {
    match e {
      case OnTask(k, effect) => LeasesAfterOnTask(s, k, effect);
      case ReleaseLease(k) => LeasesAfterReleaseLease(s, k);
      case CompleteTask(k) => LeasesAfterCompleteTask(s, k);
      case SignalClose(k) => LeasesAfterSignalClose(s, k);
      case CloseAdmission => BackedAfterCloseAdmission(s);
      case _ =>
    }
  }

  lemma LeasesKept(s: System, e: Event)
    requires LeasesInv(s)
    ensures LeasesInv(Step(s, e))
  {
    match e {
      case Ticketing(t) => LeasesAfterTicketing(s, t);
      case Launching(l) => LeasesAfterLaunching(s, l);
      case Registering(r) => LeasesAfterRegistering(s, r);
      case _ =>
    }
  }

  // ----- limits -----

  lemma LimitsAfterTicketing(s: System, e: TicketEvent)
    requires WithinLimits(s.table, s.config.limits)
    ensures WithinLimits(TicketStep(s, e).table, s.config.limits)
  {
    match e {
      case FinishReserve(r, early, reading) =>
        if r in s.parties.starters && s.parties.starters[r].Reserving? {
          var Reserving(identity, deadline) := s.parties.starters[r];
          ReserveKeepsLimits(s.table, s.config.limits, identity, Pending(deadline), reading);
        }
      case _ => RemovalKeepsLimits(s.table, TicketStep(s, e).table, s.config.limits);
    }
  }

  lemma LimitsAfterLaunching(s: System, e: StartEvent)
    requires WithinLimits(s.table, s.config.limits)
    ensures WithinLimits(StartStep(s, e).table, s.config.limits)
  {
    match e {
      case TakeLease(r, reading) =>
        if r in s.parties.starters && s.parties.starters[r].Starting? {
          var Starting(identity, claim) := s.parties.starters[r];
          ReserveKeepsLimits(s.table, s.config.limits, identity, Live, reading);
          if claim.Some? {
            ActivateKeepsLimits(s.table, s.config.limits, claim.value.lease, identity, reading);
          }
        }
      case _ => RemovalKeepsLimits(s.table, StartStep(s, e).table, s.config.limits);
    }
  }

  lemma LimitsKept(s: System, e: Event)
    requires WithinLimits(s.table, s.config.limits)
    ensures WithinLimits(Step(s, e).table, s.config.limits)
  {
    match e {
      case Ticketing(t) => LimitsAfterTicketing(s, t);
      case Launching(l) => LimitsAfterLaunching(s, l);
      case _ => RemovalKeepsLimits(s.table, Step(s, e).table, s.config.limits);
    }
  }
}
