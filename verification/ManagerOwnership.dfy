/** Every reservation has exactly one owner, in every reachable state of the manager. */
module ManagerOwnership {
  import opened Wrappers
  import opened Capacity
  import opened Tickets
  import opened PtyBackend
  import opened Supervision
  import opened Manager

  /** The lease whose reservation the party `o` holds. */
  function LeaseOf(p: Parties, o: Owner): Option<LeaseId> {
    match o
    case RequestOwner(r) => if r in p.requests then Some(p.requests[r].lease) else None
    case TicketOwner(t) => if t in p.tickets then Some(p.tickets[t].lease) else None
    case GrantOwner(g) => if g in p.grants then Some(p.grants[g].lease) else None
    case StarterOwner(r) => if r in p.starters then StarterLease(p.starters[r]) else None
    case TaskOwner(k) => if k in p.tasks && HoldsLease(p.tasks[k].phase) then Some(p.tasks[k].lease) else None
  }

  /** The index is exactly the inverse of who holds what: in particular no lease has two holders. */
  ghost predicate Owned(p: Parties, index: Index) {
    forall o, id :: LeaseOf(p, o) == Some(id) <==> id in index && index[id] == o
  }

  ghost predicate SameHolders(p: Parties, after: Parties) {
    forall o :: LeaseOf(after, o) == LeaseOf(p, o)
  }

  ghost predicate SameExcept(p: Parties, after: Parties, moved: Owner) {
    forall o :: o != moved ==> LeaseOf(after, o) == LeaseOf(p, o)
  }

  lemma NothingMoved(p: Parties, after: Parties, index: Index)
    requires Owned(p, index) && SameHolders(p, after)
    ensures Owned(after, index)
  {
    forall o, id
      ensures LeaseOf(after, o) == Some(id) <==> id in index && index[id] == o
    {
      assert LeaseOf(p, o) == Some(id) <==> id in index && index[id] == o;
    }
  }

  lemma OneDropped(p: Parties, after: Parties, index: Index, from: Owner, id: LeaseId)
    requires Owned(p, index) && SameExcept(p, after, from)
    requires LeaseOf(p, from) == Some(id) && LeaseOf(after, from) == None
    ensures Owned(after, index - {id})
  {
    forall o, other
      ensures LeaseOf(after, o) == Some(other) <==> other in index - {id} && (index - {id})[other] == o
    {
      assert LeaseOf(p, o) == Some(other) <==> other in index && index[other] == o;
      assert LeaseOf(p, from) == Some(id) <==> id in index && index[id] == from;
    }
  }

  lemma OneAdded(p: Parties, after: Parties, index: Index, to: Owner, id: LeaseId)
    requires Owned(p, index) && SameExcept(p, after, to)
    requires id !in index && LeaseOf(p, to) == None && LeaseOf(after, to) == Some(id)
    ensures Owned(after, index[id := to])
  {
    forall o, other
      ensures LeaseOf(after, o) == Some(other) <==> other in index[id := to] && index[id := to][other] == o
    {
      assert LeaseOf(p, o) == Some(other) <==> other in index && index[other] == o;
    }
  }

  lemma OneMoved(p: Parties, left: Parties, after: Parties, index: Index, from: Owner, to: Owner, id: LeaseId)
    requires Owned(p, index) && SameExcept(p, left, from) && SameExcept(left, after, to)
    requires LeaseOf(p, from) == Some(id) && LeaseOf(left, from) == None
    requires LeaseOf(left, to) == None && LeaseOf(after, to) == Some(id)
    ensures Owned(after, index[id := to])
  {
    OneDropped(p, left, index, from, id);
    OneAdded(left, after, index - {id}, to, id);
    assert (index - {id})[id := to] == index[id := to];
  }

  lemma ManyDropped(p: Parties, after: Parties, index: Index, ids: set<LeaseId>)
    requires Owned(p, index)
    requires forall o ::
      LeaseOf(after, o) == if LeaseOf(p, o).Some? && LeaseOf(p, o).value in ids then None else LeaseOf(p, o)
    ensures Owned(after, index - ids)
  {
    forall o, id
      ensures LeaseOf(after, o) == Some(id) <==> id in index - ids && (index - ids)[id] == o
    {
      assert LeaseOf(p, o) == Some(id) <==> id in index && index[id] == o;
    }
  }

  lemma SameOwner(p: Parties, index: Index, o1: Owner, o2: Owner)
    requires Owned(p, index) && LeaseOf(p, o1).Some? && LeaseOf(p, o1) == LeaseOf(p, o2)
    ensures o1 == o2
  {
    var id := LeaseOf(p, o1).value;
    assert LeaseOf(p, o1) == Some(id) && LeaseOf(p, o2) == Some(id);
  }

  lemma NotAnOwner(p: Parties, index: Index, o: Owner)
    requires Owned(p, index) && LeaseOf(p, o) == None
    ensures forall id :: id in index ==> index[id] != o
  {
    forall id | id in index
      ensures index[id] != o
    {
      assert LeaseOf(p, index[id]) == Some(id);
    }
  }

  lemma OnlyLease(p: Parties, index: Index, o: Owner, id: LeaseId)
    requires Owned(p, index) && LeaseOf(p, o) == Some(id)
    ensures id in index && index[id] == o
    ensures forall other :: other in index && index[other] == o ==> other == id
  {
    forall other | other in index && index[other] == o
      ensures other == id
    {
      assert LeaseOf(p, o) == Some(other);
    }
  }

  /** Leases in the table are held by someone, and ids are handed out in order. */
  ghost predicate Covered(table: Table, index: Index) {
    table.leases.Keys <= index.Keys && forall id :: id in index ==> id < table.nextId
  }

  ghost predicate OwnedInv(s: System) {
    && Owned(s.parties, s.index)
    && Covered(s.table, s.index)
    && (forall k :: k in s.parties.tasks ==> k < s.registry.nextTask)
  }

  // ----- the events that move reservations -----

  lemma OwnedAfterReserve(s: System, r: nat, identity: Identity, deadline: int, reading: int, table: Table,
                          reserved: Reserved)
    requires OwnedInv(s) && ReserveEffect(s.table, identity, Pending(deadline), reading, table, reserved)
    requires r in s.parties.starters && s.parties.starters[r].Reserving? && r !in s.parties.requests
    ensures OwnedInv(CommitReserve(s, r, identity, deadline, reading, table, reserved))
  {
    var left := DropStarter(s.parties, r);
    NothingMoved(s.parties, left, s.index);
    if reserved.Granted? {
      var parties := left.(requests := left.requests[r := Claim(identity, deadline, reserved.id)]);
      OneAdded(left, parties, s.index, RequestOwner(r), reserved.id);
    }
  }

  lemma TicketsDropped(p: Parties, tickets: Store, index: Index)
    requires Owned(p, index)
    requires forall t :: t in tickets ==> t in p.tickets && tickets[t] == p.tickets[t]
    ensures Owned(p.(tickets := tickets), index - Dropped(p.tickets, tickets))
  {
    var after, ids := p.(tickets := tickets), Dropped(p.tickets, tickets);
    forall o
      ensures LeaseOf(after, o) == if LeaseOf(p, o).Some? && LeaseOf(p, o).value in ids then None else LeaseOf(p, o)
    {
      if LeaseOf(p, o).Some? && LeaseOf(p, o).value in ids {
        var t :| t in p.tickets && t !in tickets && p.tickets[t].lease == LeaseOf(p, o).value;
        SameOwner(p, index, o, TicketOwner(t));
      }
      if o.TicketOwner? && o.token in p.tickets && o.token !in tickets {
        assert p.tickets[o.token].lease in ids;
      }
    }
    ManyDropped(p, after, index, ids);
  }

  lemma IndexAfterIssue(p: Parties, index: Index, r: nat, kept: Store, issued: Result<Token>, entry: Entry)
    requires Owned(p, index)
    requires r in p.requests && p.requests[r].lease == entry.lease
    requires forall t :: t in kept ==> t in p.tickets && kept[t] == p.tickets[t]
    requires issued.Ok? ==> issued.value !in kept
    ensures
      var left := DropRequestOf(p, r);
      var purged := Dropped(p.tickets, kept);
      if issued.Ok? then
        Owned(left.(tickets := kept[issued.value := entry]), (index - purged)[entry.lease := TicketOwner(issued.value)])
      else
        Owned(left.(tickets := kept), index - (purged + {entry.lease}))
  {
    var left := DropRequestOf(p, r);
    var purged := Dropped(p.tickets, kept);
    var lease := entry.lease;
    OneDropped(p, left, index, RequestOwner(r), lease);
    TicketsDropped(left, kept, index - {lease});
    assert index - {lease} - purged == index - (purged + {lease});
    if issued.Ok? {
      OneAdded(left.(tickets := kept), left.(tickets := kept[issued.value := entry]),
               index - (purged + {lease}), TicketOwner(issued.value), lease);
      assert (index - (purged + {lease}))[lease := TicketOwner(issued.value)]
          == (index - purged)[lease := TicketOwner(issued.value)];
    }
  }

  lemma OwnedAfterIssue(s: System, r: nat, entry: Entry, reading: int, tickets: Store, result: Result<Token>,
                        released: set<LeaseId>)
    requires OwnedInv(s) && r in s.parties.requests && s.parties.requests[r].lease == entry.lease
    requires IssueConserves(s.parties.tickets, entry, reading, tickets, result, released)
    ensures OwnedInv(CommitIssue(s, r, entry.lease, reading, tickets, result, released))
  {
    var kept := if result.Ok? then tickets - {result.value} else tickets;
    IndexAfterIssue(s.parties, s.index, r, kept, result, entry);
    OnlyLease(s.parties, s.index, RequestOwner(r), entry.lease);
  }

  lemma OwnedAfterRedeem(s: System, g: nat, token: Token, reading: int, tickets: Store, result: Result<Entry>,
                         released: set<LeaseId>)
    requires OwnedInv(s) && g !in s.parties.grants
    requires RedeemConserves(s.parties.tickets, token, tickets, result, released)
    ensures OwnedInv(CommitRedeem(s, g, token, reading, tickets, result, released))
  {
    assert s.index - {} == s.index;
    if tickets != s.parties.tickets {
      var lease := s.parties.tickets[token].lease;
      var left := s.parties.(tickets := tickets);
      OneDropped(s.parties, left, s.index, TicketOwner(token), lease);
      if result.Ok? {
        var parties := left.(grants := left.grants[g := Claim(result.value.identity, result.value.expiresAt, lease)]);
        OneMoved(s.parties, left, parties, s.index, TicketOwner(token), GrantOwner(g), lease);
        OnlyLease(s.parties, s.index, TicketOwner(token), lease);
      }
    }
  }

  lemma OwnedAfterDropRequest(s: System, r: nat)
    requires OwnedInv(s)
    ensures OwnedInv(DoDropRequest(s, r))
  {
    if r in s.parties.requests {
      OneDropped(s.parties, DropRequestOf(s.parties, r), s.index, RequestOwner(r), s.parties.requests[r].lease);
    }
  }

  lemma OwnedAfterDropGrant(s: System, g: nat)
    requires OwnedInv(s)
    ensures OwnedInv(DoDropGrant(s, g))
  {
    if g in s.parties.grants {
      OneDropped(s.parties, DropGrantOf(s.parties, g), s.index, GrantOwner(g), s.parties.grants[g].lease);
    }
  }

  lemma OwnedAfterClearTickets(s: System)
    requires OwnedInv(s)
    ensures OwnedInv(DoClearTickets(s))
  {
    TicketsDropped(s.parties, map[], s.index);
  }

  lemma OwnedAfterIdleStarter(s: System, r: nat, starter: Starter)
    requires OwnedInv(s) && r !in s.parties.starters && StarterLease(starter) == None
    ensures OwnedInv(s.(parties := PutStarter(s.parties, r, starter)))
  {
    NothingMoved(s.parties, PutStarter(s.parties, r, starter), s.index);
  }

  lemma OwnedAfterAdmitReservedStart(s: System, r: nat, g: nat, identity: Identity)
    requires OwnedInv(s)
    ensures OwnedInv(DoAdmitReservedStart(s, r, g, identity))
  {
    OwnedAfterDropGrant(s, g);
    if r !in s.parties.starters && g in s.parties.grants && !s.registry.shuttingDown {
      OneMoved(s.parties, DropGrantOf(s.parties, g), DoAdmitReservedStart(s, r, g, identity).parties, s.index,
               GrantOwner(g), StarterOwner(r), s.parties.grants[g].lease);
    }
  }

  lemma OwnedAfterLive(s: System, r: nat, identity: Identity, reading: int, table: Table, reserved: Reserved)
    requires OwnedInv(s) && ReserveEffect(s.table, identity, Live, reading, table, reserved)
    requires LeaseOf(s.parties, StarterOwner(r)) == None
    ensures OwnedInv(CommitLive(s, r, reading, table, reserved))
  {
    if reserved.Granted? {
      OneAdded(s.parties, PutStarter(s.parties, r, Activated(reserved.id)), s.index, StarterOwner(r), reserved.id);
    } else {
      NothingMoved(s.parties, DropStarter(s.parties, r), s.index);
    }
  }

  lemma OwnedAfterActivation(s: System, r: nat, lease: LeaseId, identity: Identity, reading: int, table: Table,
                             error: Option<SessionError>)
    requires OwnedInv(s) && ActivateEffect(s.table, lease, identity, reading, table, error)
    requires LeaseOf(s.parties, StarterOwner(r)) == Some(lease)
    ensures OwnedInv(CommitActivation(s, r, lease, reading, table, error))
  {
    if error.None? {
      NothingMoved(s.parties, PutStarter(s.parties, r, Activated(lease)), s.index);
    } else {
      OneDropped(s.parties, DropStarter(s.parties, r), s.index, StarterOwner(r), lease);
    }
  }

  lemma OwnedAfterFailStart(s: System, r: nat)
    requires OwnedInv(s)
    ensures OwnedInv(DoFailStart(s, r))
  {
    if r in s.parties.starters {
      var lease := StarterLease(s.parties.starters[r]);
      if lease.Some? {
        OneDropped(s.parties, DropStarter(s.parties, r), s.index, StarterOwner(r), lease.value);
      } else {
        NothingMoved(s.parties, DropStarter(s.parties, r), s.index);
        assert s.index - {} == s.index;
      }
    }
  }

  lemma OwnedAfterSpawnChild(s: System, r: nat)
    requires OwnedInv(s)
    ensures OwnedInv(DoSpawnChild(s, r))
  {
    NothingMoved(s.parties, DoSpawnChild(s, r).parties, s.index);
  }

  lemma OwnedAfterRegister(s: System, r: nat)
    requires OwnedInv(s)
    ensures OwnedInv(DoRegister(s, r))
  {
    if r in s.parties.starters && s.parties.starters[r].ChildSpawned? {
      var k := s.registry.nextTask;
      OneMoved(s.parties, PutStarter(s.parties, r, Registered(k)), DoRegister(s, r).parties, s.index,
               StarterOwner(r), TaskOwner(k), s.parties.starters[r].lease);
    }
  }

  lemma OwnedAfterEffect(s: System, k: TaskId, task: Task, sink: Sink)
    requires OwnedInv(s) && k in s.parties.tasks
    requires task.lease == s.parties.tasks[k].lease && HoldsLease(task.phase) == HoldsLease(s.parties.tasks[k].phase)
    ensures OwnedInv(CommitEffect(s, k, task, sink))
  {
    NothingMoved(s.parties, PutTask(s.parties, k, task), s.index);
  }

  lemma OwnedAfterOnTask(s: System, k: TaskId, e: TaskEvent)
    requires OwnedInv(s)
    ensures OwnedInv(DoOnTask(s, k, e))
  {
    if k in s.parties.tasks {
      var (task, sink) := TaskStep(k, s.parties.tasks[k], e, s.config.audited, s.sink);
      FrameOfStep(k, s.parties.tasks[k], e, s.config.audited, s.sink);
      OwnedAfterEffect(s, k, task, sink);
    }
  }

  lemma OwnedAfterReleaseLease(s: System, k: TaskId)
    requires OwnedInv(s)
    ensures OwnedInv(DoReleaseLease(s, k))
  {
    if k in s.parties.tasks && s.parties.tasks[k].phase.Releasing? {
      OneDropped(s.parties, DoReleaseLease(s, k).parties, s.index, TaskOwner(k), s.parties.tasks[k].lease);
    }
  }

  lemma OwnedAfterCompleteTask(s: System, k: TaskId)
    requires OwnedInv(s)
    ensures OwnedInv(DoCompleteTask(s, k))
  {
    if k in s.parties.tasks && s.parties.tasks[k].phase.Released? {
      NothingMoved(s.parties, DoCompleteTask(s, k).parties, s.index);
    }
  }

  lemma OwnedAfterSignal(s: System, r: nat)
    requires OwnedInv(s)
    ensures OwnedInv(DoSignal(s, r))
  {
    if r in s.parties.starters && s.parties.starters[r].Registered? {
      var signalled := DoOnTask(s, s.parties.starters[r].task, Go);
      OwnedAfterOnTask(s, s.parties.starters[r].task, Go);
      NothingMoved(signalled.parties, DropStarter(signalled.parties, r), s.index);
    }
  }
}
