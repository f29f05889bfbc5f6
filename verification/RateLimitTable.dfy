/**
 The limiter's table of buckets: it never outgrows its capacity, a new key is turned away for want
 of room exactly when enough other windows are still running, and generations are never reused.
 */
module RateLimitTable {
  import opened Collections
  import opened Wrappers
  import opened RateLimit
  import opened RateLimitLog

  /** The keys whose window is still running. */
  function Running<K>(l: Limiter<K>, now: int): set<K> {
    set k | k in l.buckets && now < l.buckets[k].startedAt + l.window
  }

  /** Buckets that are over never keep a new key out, and any that is not does. */
  lemma TableIsFullExactly<K>(l: Limiter<K>, key: K, now: int)
    requires l.window > 0
    ensures StorageFull(l, key, now) <==> key !in l.buckets && |Running(l, now)| >= l.capacity
    ensures
      StorageFull(l, key, now) ==>
        && Begin(l, key, now).1 == Exhausted(l.window)
        && Begin(l, key, now).0 == l.(buckets := map k | k in Running(l, now) :: l.buckets[k])
  {
    var kept := Fresh(l.buckets, now, l.window);
    assert kept.Keys == Running(l, now);
    assert |kept| == |kept.Keys|;
    assert |l.buckets| == |l.buckets.Keys|;
    SubsetSize(Running(l, now), l.buckets.Keys);
    assert kept == map k | k in Running(l, now) :: l.buckets[k];
  }

  lemma BeginKeepsRoom<K>(l: Limiter<K>, key: K, now: int)
    requires |l.buckets| <= l.capacity
    ensures |Begin(l, key, now).0.buckets| <= l.capacity
  {
    var kept := MakeRoom(l, key, now);
    assert kept.Keys <= l.buckets.Keys;
    SubsetSize(kept.Keys, l.buckets.Keys);
    assert |kept| == |kept.Keys| && |l.buckets| == |l.buckets.Keys|;
    if !StorageFull(l, key, now) {
      var after := Begin(l, key, now).0.buckets;
      assert after.Keys == kept.Keys + {key};
      assert |after| == |after.Keys|;
      assert key in kept ==> kept.Keys + {key} == kept.Keys;
    }
  }

  lemma ReleaseKeepsRoom<K>(l: Limiter<K>, key: K, generation: nat)
    requires |l.buckets| <= l.capacity
    ensures |Release(l, key, generation).buckets| <= l.capacity
  {
    var after := Release(l, key, generation).buckets;
    assert after.Keys <= l.buckets.Keys;
    SubsetSize(after.Keys, l.buckets.Keys);
    assert |after| == |after.Keys| && |l.buckets| == |l.buckets.Keys|;
  }

  lemma {:induction false} RunKeepsRoom<K(!new)>(w: World<K>, ops: seq<Op<K>>)
    requires |w.limiter.buckets| <= w.limiter.capacity
    ensures |Run(w, ops).limiter.buckets| <= Run(w, ops).limiter.capacity
    decreases |ops|
  {
    if ops != [] {
      match ops[0] {
        case BeginOp(key, now) => BeginKeepsRoom(w.limiter, key, now);
        case RollbackOp(id) =>
          if id < |w.log| && id < |w.gens| {
            ReleaseKeepsRoom(w.limiter, w.log[id].key, w.gens[id]);
          }
        case CommitOp(_) =>
      }
      RunKeepsRoom(Step(w, ops[0]), ops[1..]);
    }
  }

  /** However many keys come, with any clock, the table holds `capacity` buckets at most. */
  lemma TableIsBounded<K(!new)>(limit: nat, window: nat, capacity: nat, began: int, ops: seq<Op<K>>)
    ensures |Run(Start(limit, window, capacity, began), ops).limiter.buckets| <= capacity
  {
    RunKeepsRoom(Start(limit, window, capacity, began), ops);
    ConfigurationIsKept(Start<K>(limit, window, capacity, began), ops);
  }

  /** In terms of the log: the keys with a standing attempt whose window covers the reading. */
  lemma RunningKeysStand<K(!new)>(w: World<K>, key: K, now: int)
    requires Refined(w) && w.last <= now
    ensures key in Running(w.limiter, now) <==>
            exists i :: 0 <= i < |w.log| && Covers(w.log[i], key, now, w.limiter.window)
  {
    if key in Running(w.limiter, now) {
      SameWindow(w, key, now);
      var b := w.limiter.buckets[key];
      assert OfGeneration(w, key, b.generation) != {};
      var i :| i in OfGeneration(w, key, b.generation);
      assert Covers(w.log[i], key, now, w.limiter.window);
    }
  }

  /**
   In every run a key is turned away for want of room exactly when it has no bucket and at least
   `capacity` keys have a standing attempt in a window that still runs.
   */
  lemma RefusedForRoomExactly<K(!new)>(limit: nat, window: nat, capacity: nat, began: int, ops: seq<Op<K>>, key: K,
                                       now: int, standing: set<K>)
    requires limit >= 1 && window >= 1 && InOrder(began, ops)
    requires
      var w := Run(Start(limit, window, capacity, began), ops);
      w.last <= now
      && forall k :: k in standing <==> exists i :: 0 <= i < |w.log| && Covers(w.log[i], k, now, window)
    ensures
      var w := Run(Start(limit, window, capacity, began), ops);
      StorageFull(w.limiter, key, now) <==> key !in w.limiter.buckets && |standing| >= capacity
  {
    StartIsRefined<K>(limit, window, capacity, began);
    RunKeepsRefined(Start(limit, window, capacity, began), ops);
    ConfigurationIsKept(Start<K>(limit, window, capacity, began), ops);
    var w := Run(Start(limit, window, capacity, began), ops);
    forall k ensures k in standing <==> k in Running(w.limiter, now) {
      RunningKeysStand(w, k, now);
    }
    assert standing == Running(w.limiter, now);
    TableIsFullExactly(w.limiter, key, now);
  }

  /** A lookup draws a generation whether or not it needs one, and a second one for a window that is over. */
  lemma EveryLookupDraws<K>(l: Limiter<K>, key: K, now: int)
    requires l.window > 0 && !StorageFull(l, key, now)
    ensures Begin(l, key, now).0.nextGeneration ==
            l.nextGeneration + if key in l.buckets && l.buckets[key].startedAt + l.window <= now then 2 else 1
  {
  }
}
