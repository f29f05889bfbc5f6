/**
 Single-use tickets (crates/ttygated/src/ticket.rs, `TicketStore`).

 Every entry owns the reservation of one lease; dropping an entry drops that reservation, so each
 operation reports the set of leases it releases.
 */
module Tickets {
  import opened Wrappers
  import opened Capacity

  type Token = string

  const TOKEN_LENGTH := 43
  const GENERATION_TRIES := 4

  datatype Entry = Entry(identity: Identity, target: string, expiresAt: int, lease: LeaseId)

  type Store = map<Token, Entry>

  datatype TicketError = Malformed | Unknown | TicketExpired | WrongIdentity | AtCapacity | Generation

  datatype Result<T> = Ok(value: T) | Err(error: TicketError)

  /** One pass of the generation loop: the token drawn (None: no randomness) and the clock after it. */
  datatype Try = Try(token: Option<Token>, now: int)

  /** The characters of 32 bytes in base64 without padding. */
  lemma TokenLengthIsThatOf32Bytes()
    ensures TOKEN_LENGTH == (8 * 32 + 5) / 6
  {
  }

  predicate TokenCharacter(c: char) {
    'A' <= c <= 'Z' || 'a' <= c <= 'z' || '0' <= c <= '9' || c == '-' || c == '_'
  }

  predicate WellFormed(token: Token) {
    |token| == TOKEN_LENGTH && forall i :: 0 <= i < |token| ==> TokenCharacter(token[i])
  }

  function Unexpired(entries: Store, now: int): Store {
    map t | t in entries && entries[t].expiresAt > now :: entries[t]
  }

  /** The leases of entries in `before` that are no longer in `after`. */
  function Dropped(before: Store, after: Store): set<LeaseId> {
    set t | t in before && t !in after :: before[t].lease
  }

  /** A token is only accepted fresh, and while the deadline is still ahead of the clock. */
  function Draw(entries: Store, expiry: int, tries: seq<Try>): (r: Result<Token>)
    ensures r.Ok? ==>
      && r.value !in entries
      && exists i :: 0 <= i < |tries| && tries[i].token == Some(r.value) && tries[i].now < expiry
  {
    if tries == [] || tries[0].token.None? then Err(Generation)
    else if expiry <= tries[0].now then Err(TicketExpired)
    else if tries[0].token.value !in entries then Ok(tries[0].token.value)
    else
      var rest := Draw(entries, expiry, tries[1..]);
      assert forall i :: 0 <= i < |tries| - 1 ==> tries[1..][i] == tries[i + 1];
      rest
  }

  function Insert(kept: Store, capacity: nat, entry: Entry, tries: seq<Try>): (Store, Result<Token>) {
    if |kept| >= capacity then (kept, Err(AtCapacity))
    else
      var drawn := Draw(kept, entry.expiresAt, tries);
      (if drawn.Ok? then kept[drawn.value := entry] else kept, drawn)
  }

  /** The entries afterwards, the caller's result and the leases released. */
  function IssueAt(entries: Store, capacity: nat, entry: Entry, now: int, tries: seq<Try>)
    : (Store, Result<Token>, set<LeaseId>)
  {
    if entry.expiresAt <= now then (entries, Err(TicketExpired), {entry.lease})
    else
      var kept := Unexpired(entries, now);
      var (after, result) := Insert(kept, capacity, entry, tries);
      (after, result, Dropped(entries, kept) + if result.Ok? then {} else {entry.lease})
  }

  function Redeem(entries: Store, ticket: Token, identity: Identity, now: int): (Store, Result<Entry>, set<LeaseId>) {
    if !WellFormed(ticket) then (entries, Err(Malformed), {})
    else if ticket !in entries then (entries, Err(Unknown), {})
    else if entries[ticket].expiresAt <= now then (entries - {ticket}, Err(TicketExpired), {entries[ticket].lease})
    else if entries[ticket].identity != identity then (entries, Err(WrongIdentity), {})
    else (entries - {ticket}, Ok(entries[ticket]), {})
  }

  // ----- the object -----

  class TicketStore {
    const capacity: nat
    const sessions: CapacityTable
    var entries: Store

    constructor (capacity: nat, sessions: CapacityTable)
      ensures entries == map[] && this.capacity == capacity && this.sessions == sessions
    {
      this.capacity := capacity;
      this.sessions := sessions;
      entries := map[];
    }

    /** The generation loop: at most four draws, the deadline rechecked after each. */
    method DrawToken(expiry: int, tries: seq<Try>) returns (r: Result<Token>)
      requires |tries| == GENERATION_TRIES
      ensures r == Draw(entries, expiry, tries)
    {
      for i := 0 to GENERATION_TRIES
        invariant Draw(entries, expiry, tries) == Draw(entries, expiry, tries[i..])
      {
        if tries[i].token.None? {
          return Err(Generation);
        }
        if expiry <= tries[i].now {
          return Err(TicketExpired);
        }
        if tries[i].token.value !in entries {
          return Ok(tries[i].token.value);
        }
      }
      return Err(Generation);
    }

    /** Moves the reservation into a new entry, or drops it; entries that expired drop theirs. */
    method Issue(entry: Entry, now: int, tries: seq<Try>) returns (r: Result<Token>)
      requires |tries| == GENERATION_TRIES
      modifies this, sessions`leases
      ensures
        var (after, result, released) := IssueAt(old(entries), capacity, entry, now, tries);
        entries == after && r == result && sessions.View() == Release(old(sessions.View()), released)
    {
      if entry.expiresAt <= now {
        sessions.DropReservations({entry.lease});
        return Err(TicketExpired);
      }
      var before := entries;
      entries := Unexpired(before, now);
      var released := Dropped(before, entries);
      if |entries| >= capacity {
        r := Err(AtCapacity);
      } else {
        r := DrawToken(entry.expiresAt, tries);
      }
      if r.Ok? {
        entries := entries[r.value := entry];
      } else {
        released := released + {entry.lease};
      }
      assert (entries, r, released) == IssueAt(before, capacity, entry, now, tries);
      sessions.DropReservations(released);
    }

    method RedeemTicket(ticket: Token, identity: Identity, now: int) returns (r: Result<Entry>)
      modifies this, sessions`leases
      ensures
        var (after, result, released) := Redeem(old(entries), ticket, identity, now);
        entries == after && r == result && sessions.View() == Release(old(sessions.View()), released)
    {
      if |ticket| != TOKEN_LENGTH || exists i :: 0 <= i < |ticket| && !TokenCharacter(ticket[i]) {
        return Err(Malformed);
      }
      if ticket !in entries {
        return Err(Unknown);
      }
      var entry := entries[ticket];
      if entry.expiresAt <= now {
        entries := entries - {ticket};
        sessions.DropReservations({entry.lease});
        return Err(TicketExpired);
      }
      if entry.identity != identity {
        return Err(WrongIdentity);
      }
      entries := entries - {ticket};
      return Ok(entry);
    }

    method Clear()
      modifies this, sessions`leases
      ensures entries == map[]
      ensures sessions.View() == Release(old(sessions.View()), Dropped(old(entries), map[]))
    {
      var before := entries;
      entries := map[];
      sessions.DropReservations(Dropped(before, map[]));
    }
  }

  // ----- what an issue does to the entries that were there -----

  /**
   An issue only removes old entries, none of them unexpired, and adds at most its own; the
   reservations that lose their entry, and the caller's own unless it got a ticket, are released.
   */
  ghost predicate IssueConserves(entries: Store, entry: Entry, now: int, after: Store, result: Result<Token>,
                                 released: set<LeaseId>)
  {
    var kept := if result.Ok? then after - {result.value} else after;
    && (forall t :: t in kept ==> t in entries && kept[t] == entries[t])
    && (forall t :: t in entries && entries[t].expiresAt > now ==> t in kept)
    && (result.Ok? ==>
          result.value !in kept && after == kept[result.value := entry] && entry.expiresAt > now &&
          WellFormed(result.value))
    && released == Dropped(entries, kept) + if result.Ok? then {} else {entry.lease}
  }

  lemma InsertConserves(kept: Store, capacity: nat, entry: Entry, tries: seq<Try>)
    requires forall i :: 0 <= i < |tries| && tries[i].token.Some? ==> WellFormed(tries[i].token.value)
    ensures
      var (after, result) := Insert(kept, capacity, entry, tries);
      if result.Ok? then result.value !in kept && after == kept[result.value := entry] && WellFormed(result.value)
      else after == kept
  {
  }

  lemma IssueConservesReservations(entries: Store, capacity: nat, entry: Entry, now: int, tries: seq<Try>)
    requires forall i :: 0 <= i < |tries| && tries[i].token.Some? ==> WellFormed(tries[i].token.value)
    ensures
      var (after, result, released) := IssueAt(entries, capacity, entry, now, tries);
      IssueConserves(entries, entry, now, after, result, released)
  {
    if entry.expiresAt <= now {
      assert Dropped(entries, entries) == {};
    } else {
      var kept := Unexpired(entries, now);
      var (after, result) := Insert(kept, capacity, entry, tries);
      InsertConserves(kept, capacity, entry, tries);
      if result.Ok? {
        assert after - {result.value} == kept;
      }
    }
  }

  /** A redemption hands over the entry's reservation, or drops it, or leaves everything alone. */
  predicate RedeemConserves(entries: Store, token: Token, after: Store, result: Result<Entry>, released: set<LeaseId>) {
    || (after == entries && result.Err? && released == {})
    || (token in entries && after == entries - {token}
        && (if result.Ok? then result.value == entries[token] && released == {}
            else released == {entries[token].lease}))
  }

  lemma RedeemConservesReservations(entries: Store, token: Token, identity: Identity, now: int)
    ensures
      var (after, result, released) := Redeem(entries, token, identity, now);
      && RedeemConserves(entries, token, after, result, released)
      && (result.Ok? <==>
            WellFormed(token) && token in entries && now < entries[token].expiresAt &&
            entries[token].identity == identity)
  {
  }

  // ----- which answer is given when -----

  /** What the redemption of a token by an identity on this reading is answered, exactly. */
  lemma RedeemAnswersExactly(entries: Store, token: Token, identity: Identity, now: int)
    ensures
      var (after, result, released) := Redeem(entries, token, identity, now);
      && (result == Err(Malformed) <==> !WellFormed(token))
      && (result == Err(Unknown) <==> WellFormed(token) && token !in entries)
      && (result == Err(TicketExpired) <==> WellFormed(token) && token in entries && entries[token].expiresAt <= now)
      && (result == Err(WrongIdentity) <==>
            && WellFormed(token) && token in entries
            && now < entries[token].expiresAt && entries[token].identity != identity)
      && (result.Ok? <==>
            && WellFormed(token) && token in entries
            && now < entries[token].expiresAt && entries[token].identity == identity)
      && (result.Ok? ==> result.value == entries[token] && after == entries - {token} && released == {})
      && (result == Err(TicketExpired) ==> after == entries - {token} && released == {entries[token].lease})
      && (result.Err? && result.error != TicketExpired ==> after == entries && released == {})
  {
  }

  /** A draw that ends the loop: no randomness, the deadline passed, or a fresh token. */
  predicate Settles(kept: Store, expiry: int, try: Try) {
    try.token.None? || expiry <= try.now || try.token.value !in kept
  }

  /** The `i`th draw is the first that ends the loop. */
  predicate SettlesFirst(kept: Store, expiry: int, tries: seq<Try>, i: nat) {
    i < |tries| && Settles(kept, expiry, tries[i]) && forall j :: 0 <= j < i ==> !Settles(kept, expiry, tries[j])
  }

  lemma {:induction false} DrawAnswersExactly(kept: Store, expiry: int, tries: seq<Try>)
    ensures (forall j :: 0 <= j < |tries| ==> !Settles(kept, expiry, tries[j])) ==>
              Draw(kept, expiry, tries) == Err(Generation)
    ensures forall i: nat :: SettlesFirst(kept, expiry, tries, i) ==>
              Draw(kept, expiry, tries) ==
              if tries[i].token.None? then Err(Generation)
              else if expiry <= tries[i].now then Err(TicketExpired)
              else Ok(tries[i].token.value)
  {
    if tries != [] && !Settles(kept, expiry, tries[0]) {
      var rest := tries[1..];
      DrawAnswersExactly(kept, expiry, rest);
      assert forall j :: 0 <= j < |rest| ==> rest[j] == tries[j + 1];
      forall i: nat | SettlesFirst(kept, expiry, tries, i) ensures i > 0 && SettlesFirst(kept, expiry, rest, i - 1) {
      }
    }
  }

  /** The answer of a draw: by the first try that settles it, and none if no try does. */
  ghost predicate GoesByTheTries(kept: Store, expiry: int, tries: seq<Try>, result: Result<Token>) {
    && ((forall j :: 0 <= j < |tries| ==> !Settles(kept, expiry, tries[j])) ==> result == Err(Generation))
    && forall i: nat :: SettlesFirst(kept, expiry, tries, i) ==>
         result ==
         if tries[i].token.None? then Err(Generation)
         else if expiry <= tries[i].now then Err(TicketExpired)
         else Ok(tries[i].token.value)
  }

  lemma InsertAnswersExactly(kept: Store, capacity: nat, entry: Entry, tries: seq<Try>)
    ensures
      var (after, result) := Insert(kept, capacity, entry, tries);
      && after == (if result.Ok? then kept[result.value := entry] else kept)
      && (result == Err(AtCapacity) <==> |kept| >= capacity)
      && (|kept| < capacity ==> GoesByTheTries(kept, entry.expiresAt, tries, result))
  {
    DrawAnswersExactly(kept, entry.expiresAt, tries);
    DrawNeverFills(kept, entry.expiresAt, tries);
  }

  /**
   An issue before its deadline purges exactly the expired entries, is refused for want of room
   exactly when the others fill the store, and otherwise goes by the first draw that settles it.
   */
  lemma IssueAnswersExactly(entries: Store, capacity: nat, entry: Entry, now: int, tries: seq<Try>)
    ensures
      var (after, result, released) := IssueAt(entries, capacity, entry, now, tries);
      var valid := map t | t in entries && now < entries[t].expiresAt :: entries[t];
      if entry.expiresAt <= now then after == entries && result == Err(TicketExpired) && released == {entry.lease}
      else
        && after == (if result.Ok? then valid[result.value := entry] else valid)
        && (result == Err(AtCapacity) <==> |valid| >= capacity)
        && (|valid| < capacity ==> GoesByTheTries(valid, entry.expiresAt, tries, result))
  {
    if now < entry.expiresAt {
      var valid := map t | t in entries && now < entries[t].expiresAt :: entries[t];
      assert valid == Unexpired(entries, now);
      InsertAnswersExactly(valid, capacity, entry, tries);
    }
  }

  lemma {:induction false} DrawNeverFills(kept: Store, expiry: int, tries: seq<Try>)
    ensures Draw(kept, expiry, tries) != Err(AtCapacity)
  {
    if tries != [] {
      DrawNeverFills(kept, expiry, tries[1..]);
    }
  }
}
