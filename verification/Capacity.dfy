/**
 The session capacity table (crates/ttygated/src/session.rs, `Capacity` and `Reservation`).

 A lease is reserved Pending with a deadline, may become Live once, and leaves the table by
 expiry, by closing the manager, or because its reservation is dropped.
 */
module Capacity {
  import opened Collections
  import opened Wrappers

  type Identity = string
  type LeaseId = nat

  datatype LeaseState = Pending(expiresAt: int) | Live

  datatype Lease = Lease(identity: Identity, state: LeaseState)

  datatype Limits = Limits(maxSessions: nat, maxPerIdentity: nat)

  datatype Table = Table(nextId: LeaseId, closed: bool, leases: map<LeaseId, Lease>)

  datatype SessionError =
    GlobalLimit | IdentityLimit | ManagerClosed | ReservationUnavailable

  datatype Reserved = Granted(id: LeaseId) | Denied(error: SessionError)

  const EMPTY := Table(0, false, map[])

  predicate Expired(lease: Lease, now: int) {
    lease.state.Pending? && lease.state.expiresAt <= now
  }

  function Purge(leases: map<LeaseId, Lease>, now: int): map<LeaseId, Lease> {
    map id | id in leases && !Expired(leases[id], now) :: leases[id]
  }

  function HeldBy(leases: map<LeaseId, Lease>, identity: Identity): set<LeaseId> {
    set id | id in leases && leases[id].identity == identity
  }

  function ReserveWith(t: Table, limits: Limits, identity: Identity, state: LeaseState, now: int): (Table, Reserved) {
    var purged := t.(leases := Purge(t.leases, now));
    if state.Pending? && state.expiresAt <= now then (purged, Denied(ReservationUnavailable))
    else if t.closed then (purged, Denied(ManagerClosed))
    else if |purged.leases| >= limits.maxSessions then (purged, Denied(GlobalLimit))
    else if |HeldBy(purged.leases, identity)| >= limits.maxPerIdentity then (purged, Denied(IdentityLimit))
    else
      (Table(t.nextId + 1, false, purged.leases[t.nextId := Lease(identity, state)]), Granted(t.nextId))
  }

  /** `early` is the clock before the lock is taken, `now` the reading made under the lock. */
  function ReservePending(t: Table, limits: Limits, identity: Identity, expiresAt: int, early: int, now: int)
    : (Table, Reserved)
  {
    if expiresAt <= early then (t, Denied(ReservationUnavailable))
    else ReserveWith(t, limits, identity, Pending(expiresAt), now)
  }

  /** Dropping a reservation: a no-op on the table when its lease is already gone. */
  function Release(t: Table, ids: set<LeaseId>): Table {
    t.(leases := t.leases - ids)
  }

  /** Activation consumes the reservation, so a refusal also drops it. */
  function Activate(t: Table, id: LeaseId, identity: Identity, now: int): (Table, Option<SessionError>) {
    var purged := t.(leases := Purge(t.leases, now));
    if t.closed then (Release(purged, {id}), Some(ManagerClosed))
    else if id !in purged.leases || purged.leases[id].identity != identity || purged.leases[id].state.Live? then
      (Release(purged, {id}), Some(ReservationUnavailable))
    else (purged.(leases := purged.leases[id := Lease(identity, Live)]), None)
  }

  function ClosePending(t: Table): Table {
    Table(t.nextId, true, map id | id in t.leases && t.leases[id].state.Live? :: t.leases[id])
  }

  // ----- the object -----

  class CapacityTable {
    const limits: Limits
    var nextId: LeaseId
    var closed: bool
    var leases: map<LeaseId, Lease>

    function View(): Table
      reads this
    {
      Table(nextId, closed, leases)
    }

    constructor (limits: Limits)
      ensures View() == EMPTY && this.limits == limits
    {
      this.limits := limits;
      nextId, closed, leases := 0, false, map[];
    }

    method PurgeExpired(now: int)
      modifies this`leases
      ensures leases == Purge(old(leases), now)
    {
      leases := map id | id in leases && !(leases[id].state.Pending? && leases[id].state.expiresAt <= now) ::
                leases[id];
    }

    method ReserveWithState(identity: Identity, state: LeaseState, now: int) returns (r: Reserved)
      modifies this
      ensures (View(), r) == ReserveWith(old(View()), limits, identity, state, now)
    {
      PurgeExpired(now);
      if state.Pending? && state.expiresAt <= now {
        return Denied(ReservationUnavailable);
      }
      if closed {
        return Denied(ManagerClosed);
      }
      if |leases| >= limits.maxSessions {
        return Denied(GlobalLimit);
      }
      var mine := HeldBy(leases, identity);
      if |mine| >= limits.maxPerIdentity {
        return Denied(IdentityLimit);
      }
      var id := nextId;
      nextId := nextId + 1;
      leases := leases[id := Lease(identity, state)];
      return Granted(id);
    }

    method Reserve(identity: Identity, now: int) returns (r: Reserved)
      modifies this
      ensures (View(), r) == ReserveWith(old(View()), limits, identity, Live, now)
    {
      r := ReserveWithState(identity, Live, now);
    }

    method ReservePendingLease(identity: Identity, expiresAt: int, early: int, now: int) returns (r: Reserved)
      modifies this
      ensures (View(), r) == ReservePending(old(View()), limits, identity, expiresAt, early, now)
    {
      if expiresAt <= early {
        return Denied(ReservationUnavailable);
      }
      r := ReserveWithState(identity, Pending(expiresAt), now);
    }

    method DropReservations(ids: set<LeaseId>)
      modifies this`leases
      ensures View() == Release(old(View()), ids)
    {
      leases := leases - ids;
    }

    method ActivateLease(id: LeaseId, identity: Identity, now: int) returns (error: Option<SessionError>)
      modifies this
      ensures (View(), error) == Activate(old(View()), id, identity, now)
    {
      PurgeExpired(now);
      if closed {
        DropReservations({id});
        return Some(ManagerClosed);
      }
      if id !in leases || leases[id].identity != identity || leases[id].state == Live {
        DropReservations({id});
        return Some(ReservationUnavailable);
      }
      leases := leases[id := leases[id].(state := Live)];
      return None;
    }

    method ClosePendingLeases()
      modifies this
      ensures View() == ClosePending(old(View()))
    {
      closed := true;
      leases := map id | id in leases && leases[id].state == Live :: leases[id];
    }
  }

  // ----- limits -----

  ghost predicate WithinLimits(t: Table, limits: Limits) {
    && |t.leases| <= limits.maxSessions
    && (forall identity :: |HeldBy(t.leases, identity)| <= limits.maxPerIdentity)
    && (forall id :: id in t.leases ==> id < t.nextId)
  }

  /** Any operation that only removes leases, or keeps their owners, stays within the limits. */
  lemma RemovalKeepsLimits(t: Table, after: Table, limits: Limits)
    requires WithinLimits(t, limits)
    requires after.nextId >= t.nextId && after.leases.Keys <= t.leases.Keys
    requires forall id :: id in after.leases ==> after.leases[id].identity == t.leases[id].identity
    ensures WithinLimits(after, limits)
  {
    SubsetSize(after.leases.Keys, t.leases.Keys);
    forall identity
      ensures |HeldBy(after.leases, identity)| <= limits.maxPerIdentity
    {
      SubsetSize(HeldBy(after.leases, identity), HeldBy(t.leases, identity));
    }
  }

  lemma InsertAddsOne(leases: map<LeaseId, Lease>, id: LeaseId, lease: Lease, other: Identity)
    requires id !in leases
    ensures |leases[id := lease]| == |leases| + 1
    ensures |HeldBy(leases[id := lease], other)| == |HeldBy(leases, other)| + if other == lease.identity then 1 else 0
  {
    assert HeldBy(leases[id := lease], other) == HeldBy(leases, other) + if other == lease.identity then {id} else {};
  }

  lemma ReserveKeepsLimits(t: Table, limits: Limits, identity: Identity, state: LeaseState, now: int)
    requires WithinLimits(t, limits)
    ensures WithinLimits(ReserveWith(t, limits, identity, state, now).0, limits)
  {
    var (after, r) := ReserveWith(t, limits, identity, state, now);
    var purged := t.(leases := Purge(t.leases, now));
    RemovalKeepsLimits(t, purged, limits);
    if r.Granted? {
      forall other
        ensures |HeldBy(after.leases, other)| <= limits.maxPerIdentity
      {
        InsertAddsOne(purged.leases, t.nextId, Lease(identity, state), other);
      }
      InsertAddsOne(purged.leases, t.nextId, Lease(identity, state), identity);
    }
  }

  /** Activation keeps every count: the lease stays where it is and keeps its identity. */
  lemma ActivateKeepsLimits(t: Table, limits: Limits, id: LeaseId, identity: Identity, now: int)
    requires WithinLimits(t, limits)
    ensures WithinLimits(Activate(t, id, identity, now).0, limits)
    ensures Activate(t, id, identity, now).1.None? ==>
              && Activate(t, id, identity, now).0.leases.Keys == Purge(t.leases, now).Keys
              && forall other ::
                   HeldBy(Activate(t, id, identity, now).0.leases, other) == HeldBy(Purge(t.leases, now), other)
  {
    RemovalKeepsLimits(t, Activate(t, id, identity, now).0, limits);
  }

  // ----- what an operation leaves alone -----

  /** Leases outside `gone` only leave by expiry, and none of them changes. */
  ghost predicate Advanced(t: Table, after: Table, now: int, gone: set<LeaseId>) {
    && after.closed == t.closed && after.nextId >= t.nextId
    && (forall id :: id in t.leases && id !in gone && !Expired(t.leases[id], now) ==>
          id in after.leases && after.leases[id] == t.leases[id])
    && (forall id :: id in after.leases && id !in gone && id < t.nextId ==>
          id in t.leases && after.leases[id] == t.leases[id])
  }

  ghost predicate ReserveEffect(t: Table, identity: Identity, state: LeaseState, now: int, after: Table, r: Reserved) {
    && Advanced(t, after, now, {})
    && after.leases.Keys <= t.leases.Keys + (if r.Granted? then {r.id} else {})
    && (r.Denied? ==> after.nextId == t.nextId)
    && (r.Granted? ==>
          && r.id == t.nextId && after.nextId == t.nextId + 1
          && r.id in after.leases && after.leases[r.id] == Lease(identity, state))
  }

  lemma PurgeAdvances(t: Table, now: int)
    ensures Advanced(t, t.(leases := Purge(t.leases, now)), now, {})
  {
  }

  lemma InsertAdvances(t: Table, leases: map<LeaseId, Lease>, lease: Lease, now: int)
    requires Advanced(t, t.(leases := leases), now, {}) && leases.Keys <= t.leases.Keys
    requires forall id :: id in t.leases ==> id < t.nextId
    ensures ReserveEffect(t, lease.identity, lease.state, now,
                          Table(t.nextId + 1, t.closed, leases[t.nextId := lease]), Granted(t.nextId))
  {
  }

  lemma ReserveHasEffect(t: Table, limits: Limits, identity: Identity, state: LeaseState, now: int)
    requires forall id :: id in t.leases ==> id < t.nextId
    ensures
      var (after, r) := ReserveWith(t, limits, identity, state, now);
      ReserveEffect(t, identity, state, now, after, r)
  {
    var (after, r) := ReserveWith(t, limits, identity, state, now);
    var purged := Purge(t.leases, now);
    PurgeAdvances(t, now);
    if r.Granted? {
      assert after == Table(t.nextId + 1, t.closed, purged[t.nextId := Lease(identity, state)]);
      InsertAdvances(t, purged, Lease(identity, state), now);
    } else {
      assert after == t.(leases := purged);
    }
  }

  /** Places taken at this moment, by everybody and by one identity. */
  function Taken(t: Table, now: int): set<LeaseId> {
    set id | id in t.leases && !Expired(t.leases[id], now)
  }

  function TakenBy(t: Table, identity: Identity, now: int): set<LeaseId> {
    set id | id in t.leases && !Expired(t.leases[id], now) && t.leases[id].identity == identity
  }

  /** A reservation is refused only for a closed table, a passed deadline or a limit reached by unexpired leases. */
  lemma ReserveIsGrantedExactly(t: Table, limits: Limits, identity: Identity, state: LeaseState, now: int)
    ensures ReserveWith(t, limits, identity, state, now).1.Granted? <==>
            && !t.closed && (state.Pending? ==> now < state.expiresAt)
            && |Taken(t, now)| < limits.maxSessions && |TakenBy(t, identity, now)| < limits.maxPerIdentity
  {
    var purged := Purge(t.leases, now);
    assert purged.Keys == Taken(t, now);
    assert |purged| == |purged.Keys|;
    assert HeldBy(purged, identity) == TakenBy(t, identity, now);
  }

  lemma ReservePendingHasEffect(t: Table, limits: Limits, identity: Identity, expiresAt: int, early: int, now: int)
    requires forall id :: id in t.leases ==> id < t.nextId
    ensures
      var (after, r) := ReservePending(t, limits, identity, expiresAt, early, now);
      ReserveEffect(t, identity, Pending(expiresAt), now, after, r)
  {
    ReserveHasEffect(t, limits, identity, Pending(expiresAt), now);
  }

  ghost predicate ActivateEffect(t: Table, id: LeaseId, identity: Identity, now: int, after: Table,
                                 error: Option<SessionError>)
  {
    && Advanced(t, after, now, {id})
    && after.nextId == t.nextId && after.leases.Keys <= t.leases.Keys
    && (error.None? ==> id in after.leases && after.leases[id] == Lease(identity, Live))
    && (error.Some? ==> id !in after.leases)
  }

  lemma ActivateHasEffect(t: Table, id: LeaseId, identity: Identity, now: int)
    ensures
      var (after, error) := Activate(t, id, identity, now);
      ActivateEffect(t, id, identity, now, after, error)
    ensures
      Activate(t, id, identity, now).1.None? <==>
        !t.closed && id in t.leases && t.leases[id].identity == identity && t.leases[id].state.Pending? &&
        now < t.leases[id].state.expiresAt
  {
  }

  lemma ReleaseAdvances(t: Table, ids: set<LeaseId>, now: int)
    ensures Advanced(t, Release(t, ids), now, ids)
  {
  }

  // ----- which answer is given when -----

  /** The refusals of a reservation and the table it leaves, exactly: the checks in the order they are made. */
  lemma ReserveAnswersExactly(t: Table, limits: Limits, identity: Identity, state: LeaseState, now: int)
    ensures
      var (after, r) := ReserveWith(t, limits, identity, state, now);
      var late := state.Pending? && state.expiresAt <= now;
      var full := |Taken(t, now)| >= limits.maxSessions;
      && (r == Denied(ReservationUnavailable) <==> late)
      && (r == Denied(ManagerClosed) <==> !late && t.closed)
      && (r == Denied(GlobalLimit) <==> !late && !t.closed && full)
      && (r == Denied(IdentityLimit) <==>
            !late && !t.closed && !full && |TakenBy(t, identity, now)| >= limits.maxPerIdentity)
      && (r.Granted? ==> r.id == t.nextId)
      && forall id :: id in after.leases <==> id in Taken(t, now) || r == Granted(id)
  {
    var purged := Purge(t.leases, now);
    assert purged.Keys == Taken(t, now);
    assert |purged| == |purged.Keys|;
    assert HeldBy(purged, identity) == TakenBy(t, identity, now);
  }

  /** A pending reservation looks at the deadline before it takes the lock as well. */
  lemma ReservePendingAnswersExactly(t: Table, limits: Limits, identity: Identity, expiresAt: int, early: int, now: int)
    ensures
      var (after, r) := ReservePending(t, limits, identity, expiresAt, early, now);
      && (r == Denied(ReservationUnavailable) <==> expiresAt <= early || expiresAt <= now)
      && (expiresAt <= early ==> after == t)
      && (early < expiresAt ==> (after, r) == ReserveWith(t, limits, identity, Pending(expiresAt), now))
  {
    ReserveAnswersExactly(t, limits, identity, Pending(expiresAt), now);
  }

  /** Activation is refused as closed exactly in a closed table; either way expired leases leave. */
  lemma ActivateAnswersExactly(t: Table, id: LeaseId, identity: Identity, now: int)
    ensures
      var (after, error) := Activate(t, id, identity, now);
      && (error == Some(ManagerClosed) <==> t.closed)
      && (error == Some(ReservationUnavailable) <==>
            && !t.closed
            && !(id in t.leases && t.leases[id].identity == identity
                 && t.leases[id].state.Pending? && now < t.leases[id].state.expiresAt))
      && (error.None? || error == Some(ManagerClosed) || error == Some(ReservationUnavailable))
      && forall other :: other in after.leases <==> other in Taken(t, now) && (other == id ==> error.None?)
  {
    ActivateHasEffect(t, id, identity, now);
  }

  /** Closing drops exactly the pending leases. */
  lemma ClosingKeepsExactlyTheLive(t: Table, id: LeaseId)
    ensures
      var after := ClosePending(t);
      && after.closed && after.nextId == t.nextId
      && (id in after.leases <==> id in t.leases && t.leases[id].state.Live?)
      && (id in after.leases ==> after.leases[id] == t.leases[id])
  {
  }
}
