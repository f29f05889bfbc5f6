/**
 The fixed-window limiter (crates/ttygated/src/rate_limit.rs), refined against a plain log of
 attempts that knows nothing of generations, lazy resets, eviction or removed buckets.

 Configuration guarantees a positive limit and a positive window.
 */
module RateLimit {
  import opened Wrappers

  datatype Bucket = Bucket(startedAt: int, generation: nat, count: nat)

  datatype Limiter<K> = Limiter(limit: nat, window: nat, capacity: nat, nextGeneration: nat, buckets: map<K, Bucket>)

  datatype Outcome = Admitted(generation: nat) | Exhausted(retryAfter: nat)

  /** `saturating_duration_since` */
  function Elapsed(now: int, since: int): nat {
    if now <= since then 0 else now - since
  }

  function Fresh<K>(buckets: map<K, Bucket>, now: int, window: nat): map<K, Bucket> {
    map k | k in buckets && Elapsed(now, buckets[k].startedAt) < window :: buckets[k]
  }

  /** The buckets once room has been made for a new key, if it was needed. */
  function MakeRoom<K>(l: Limiter<K>, key: K, now: int): map<K, Bucket> {
    if key !in l.buckets && |l.buckets| >= l.capacity then Fresh(l.buckets, now, l.window) else l.buckets
  }

  predicate StorageFull<K>(l: Limiter<K>, key: K, now: int) {
    key !in l.buckets && |MakeRoom(l, key, now)| >= l.capacity
  }

  /**
   The bucket `begin` counts in and the next unused generation.  A generation is drawn for the
   lookup whether or not the key was there, and another one for a lazy reset.
   */
  function Lookup<K>(l: Limiter<K>, key: K, now: int): (Bucket, nat) {
    var found := if key in l.buckets then l.buckets[key] else Bucket(now, l.nextGeneration, 0);
    if Elapsed(now, found.startedAt) >= l.window then (Bucket(now, l.nextGeneration + 1, 0), l.nextGeneration + 2)
    else (found, l.nextGeneration + 1)
  }

  function Begin<K>(l: Limiter<K>, key: K, now: int): (Limiter<K>, Outcome) {
    var kept := MakeRoom(l, key, now);
    if StorageFull(l, key, now) then (l.(buckets := kept), Exhausted(l.window))
    else
      var (bucket, next) := Lookup(l, key, now);
      if bucket.count >= l.limit then
        (l.(nextGeneration := next, buckets := kept[key := bucket]),
         Exhausted(if l.window <= Elapsed(now, bucket.startedAt) then 0 else l.window - Elapsed(now, bucket.startedAt)))
      else
        (l.(nextGeneration := next, buckets := kept[key := bucket.(count := bucket.count + 1)]),
         Admitted(bucket.generation))
  }

  function SaturatingPred(n: nat): nat {
    if n == 0 then 0 else n - 1
  }

  /** Giving an attempt back: only the bucket of its own generation notices. */
  function Release<K>(l: Limiter<K>, key: K, generation: nat): Limiter<K> {
    if key !in l.buckets || l.buckets[key].generation != generation then l
    else
      var count := SaturatingPred(l.buckets[key].count);
      l.(buckets := if count == 0 then l.buckets - {key} else l.buckets[key := l.buckets[key].(count := count)])
  }

  // ----- the objects -----

  class FixedWindowLimiter<K(==)> {
    const limit: nat
    const window: nat
    const capacity: nat
    var nextGeneration: nat
    var buckets: map<K, Bucket>

    function View(): Limiter<K>
      reads this
    {
      Limiter(limit, window, capacity, nextGeneration, buckets)
    }

    constructor (limit: nat, window: nat, capacity: nat)
      ensures View() == Limiter(limit, window, capacity, 1, map[])
    {
      this.limit, this.window, this.capacity := limit, window, capacity;
      nextGeneration, buckets := 1, map[];
    }

    method FetchAddGeneration() returns (generation: nat)
      modifies this`nextGeneration
      ensures generation == old(nextGeneration) && nextGeneration == generation + 1
    {
      generation := nextGeneration;
      nextGeneration := nextGeneration + 1;
    }

    method BeginAttempt(key: K, now: int) returns (outcome: Outcome)
      modifies this
      ensures (View(), outcome) == Begin(old(View()), key, now)
    {
      if key !in buckets && |buckets| >= capacity {
        buckets := map k | k in buckets && Elapsed(now, buckets[k].startedAt) < window :: buckets[k];
        if |buckets| >= capacity {
          return Exhausted(window);
        }
      }
      var drawn := FetchAddGeneration();
      var bucket := if key in buckets then buckets[key] else Bucket(now, drawn, 0);
      if Elapsed(now, bucket.startedAt) >= window {
        var renewed := FetchAddGeneration();
        bucket := Bucket(now, renewed, 0);
      }
      buckets := buckets[key := bucket];
      if bucket.count >= limit {
        var elapsed := Elapsed(now, bucket.startedAt);
        return Exhausted(if window <= elapsed then 0 else window - elapsed);
      }
      buckets := buckets[key := bucket.(count := bucket.count + 1)];
      assert buckets == MakeRoom(old(View()), key, now)[key := bucket.(count := bucket.count + 1)];
      return Admitted(bucket.generation);
    }

    method ReleaseAttempt(key: K, generation: nat)
      modifies this
      ensures View() == Release(old(View()), key, generation)
    {
      if key in buckets && buckets[key].generation == generation {
        var count := SaturatingPred(buckets[key].count);
        buckets := buckets[key := buckets[key].(count := count)];
        if count == 0 {
          buckets := buckets - {key};
        }
      }
    }
  }

  /** An admitted attempt: committed, rolled back, or rolled back by being dropped, exactly once. */
  class Attempt<K(==)> {
    const limiter: FixedWindowLimiter<K>
    var key: Option<K>
    const generation: nat
    var committed: bool

    constructor (limiter: FixedWindowLimiter<K>, key: K, generation: nat)
      ensures this.limiter == limiter && this.key == Some(key) && this.generation == generation && !committed
    {
      this.limiter, this.key, this.generation, committed := limiter, Some(key), generation, false;
    }

    method ReleaseOnce()
      modifies this`key, limiter
      ensures key == None
      ensures limiter.View() == if old(key).None? then old(limiter.View())
                                else Release(old(limiter.View()), old(key).value, generation)
    {
      if key.None? {
        return;
      }
      var taken := key.value;
      key := None;
      limiter.ReleaseAttempt(taken, generation);
    }

    method Drop()
      modifies this`key, limiter
      ensures limiter.View() == if committed || old(key).None? then old(limiter.View())
                                else Release(old(limiter.View()), old(key).value, generation)
    {
      if !committed {
        ReleaseOnce();
      }
    }

    method Commit()
      modifies this, limiter
      ensures limiter.View() == old(limiter.View())
    {
      committed := true;
      Drop();
    }

    method Rollback()
      modifies this, limiter
      ensures limiter.View() == if old(key).None? then old(limiter.View())
                                else Release(old(limiter.View()), old(key).value, generation)
    {
      ReleaseOnce();
      committed := true;
      Drop();
    }
  }

  // ----- its use by authentication (crates/ttygated/src/server.rs) -----

  datatype AuthOutcome = Identified | Required | Limited(retryAfter: nat)

  /** The limiter after a call that was judged with nothing in between. */
  function Judged<K>(l: Limiter<K>, key: K, now: int, authentic: bool): (Limiter<K>, AuthOutcome) {
    match Begin(l, key, now)
    case (after, Exhausted(retryAfter)) => (after, Limited(retryAfter))
    case (after, Admitted(generation)) =>
      if authentic then (Release(after, key, generation), Identified) else (after, Required)
  }

  method AuthenticateLimited<K(==)>(limiter: FixedWindowLimiter<K>, key: K, now: int, cookieReadable: bool,
                                          authentic: bool)
    returns (outcome: AuthOutcome)
    modifies limiter
    ensures (limiter.View(), outcome) == Judged(old(limiter.View()), key, now, cookieReadable && authentic)
  {
    var begun := limiter.BeginAttempt(key, now);
    match begun {
      case Exhausted(retryAfter) => return Limited(retryAfter);
      case Admitted(generation) =>
        var attempt := new Attempt(limiter, key, generation);
        if !cookieReadable {
          attempt.Commit();
          return Required;
        }
        if authentic {
          attempt.Rollback();
          return Identified;
        }
        attempt.Commit();
        return Required;
    }
  }
}
