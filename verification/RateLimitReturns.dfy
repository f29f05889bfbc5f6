/**
 What an attempt that is given back leaves behind, whatever other attempts began and ended while
 it was open: nothing but the anchor of its window, and that only while others stand in it.
 */
module RateLimitReturns {
  import opened Collections
  import opened Wrappers
  import opened RateLimit
  import opened RateLimitLog

  /** The log without the attempts that were given back. */
  function Kept<K(==)>(log: seq<Entry<K>>): seq<Entry<K>> {
    if log == [] then []
    else
      var last := log[|log| - 1];
      Kept(log[..|log| - 1]) + if last.status == Returned then [] else [last]
  }

  lemma {:induction false} KeptAreTheOthers<K(!new)>(log: seq<Entry<K>>, e: Entry<K>)
    ensures e in Kept(log) <==> e in log && e.status != Returned
  {
    if log != [] {
      var init, last := log[..|log| - 1], log[|log| - 1];
      KeptAreTheOthers(init, e);
      assert log == init + [last];
    }
  }

  lemma {:induction false} KeptFillWindows<K(!new)>(log: seq<Entry<K>>, key: K, anchor: int)
    ensures |InWindow(Kept(log), key, anchor)| == |InWindow(log, key, anchor)|
  {
    if log != [] {
      var init, last := log[..|log| - 1], log[|log| - 1];
      assert log == init + [last];
      KeptFillWindows(init, key, anchor);
      InWindowAppend(init, last, key, anchor);
      if last.status == Returned {
        assert Kept(log) == Kept(init);
      } else {
        InWindowAppend(Kept(init), last, key, anchor);
      }
    }
  }

  /** Among standing attempts of a key only those of one window cover a reading. */
  lemma OneWindowCovers<K(!new)>(w: World<K>, key: K, now: int, i: nat, j: nat)
    requires Refined(w) && w.last <= now && i < |w.log| && j < |w.log|
    requires Covers(w.log[i], key, now, w.limiter.window) && Covers(w.log[j], key, now, w.limiter.window)
    ensures w.log[i].anchor == w.log[j].anchor
  {
  }

  lemma KeptHaveTheWindow<K(!new)>(w: World<K>, key: K, now: int)
    requires Refined(w) && w.last <= now
    ensures WindowAt(Kept(w.log), key, now, w.limiter.window) == WindowAt(w.log, key, now, w.limiter.window)
  {
    var log, kept, window := w.log, Kept(w.log), w.limiter.window;
    forall i | 0 <= i < |kept| && Covers(kept[i], key, now, window)
      ensures exists j :: 0 <= j < |log| && Covers(log[j], key, now, window) && log[j] == kept[i]
    {
      KeptAreTheOthers(log, kept[i]);
    }
    forall j | 0 <= j < |log| && Covers(log[j], key, now, window)
      ensures exists i :: 0 <= i < |kept| && Covers(kept[i], key, now, window)
    {
      KeptAreTheOthers(log, log[j]);
      var i :| 0 <= i < |kept| && kept[i] == log[j];
      assert Covers(kept[i], key, now, window);
    }
    forall i, j |
      0 <= i < |log| && 0 <= j < |log| && Covers(log[i], key, now, window) && Covers(log[j], key, now, window)
      ensures log[i].anchor == log[j].anchor
    {
      OneWindowCovers(w, key, now, i, j);
    }
  }

  /**
   At every moment of every run, however begins, commits and rollbacks interleave, the limiter
   decides as a log that holds only the attempts that were not given back: none that was given
   back is counted any more, whatever happened while it was open.
   */
  lemma GivenBackIsNotCounted<K(!new)>(limit: nat, window: nat, capacity: nat, began: int, ops: seq<Op<K>>,
                                       key: K, now: int)
    requires limit >= 1 && window >= 1 && InOrder(began, ops)
    ensures var w := Run(Start(limit, window, capacity, began), ops);
            w.last <= now ==>
              (Begin(w.limiter, key, now).1.Admitted? <==>
               !StorageFull(w.limiter, key, now) && LogAdmits(Kept(w.log), key, now, window, limit))
  {
    StartIsRefined<K>(limit, window, capacity, began);
    RunKeepsRefined(Start(limit, window, capacity, began), ops);
    ConfigurationIsKept(Start<K>(limit, window, capacity, began), ops);
    var w := Run(Start(limit, window, capacity, began), ops);
    if w.last <= now {
      DecidesAsTheLog(w, key, now);
      KeptHaveTheWindow(w, key, now);
      KeptFillWindows(w.log, key, WindowAt(w.log, key, now, window));
    }
  }

  /** The other attempts that stand in the window of attempt `id`. */
  function Others<K(==)>(w: World<K>, id: nat): set<nat>
    requires id < |w.log|
  {
    InWindow(w.log, w.log[id].key, w.log[id].anchor) - {id}
  }

  /** The bucket of an open attempt, while its window lasts. */
  lemma OpenAttemptHasItsBucket<K(!new)>(w: World<K>, id: nat, now: int)
    requires Refined(w) && id < |w.log| && w.log[id].status == Open
    requires w.last <= now < w.log[id].anchor + w.limiter.window
    ensures w.log[id].key in w.limiter.buckets
    ensures
      var b := w.limiter.buckets[w.log[id].key];
      && b.generation == w.gens[id] && b.startedAt == w.log[id].anchor
      && OfGeneration(w, w.log[id].key, b.generation) == InWindow(w.log, w.log[id].key, w.log[id].anchor)
  {
    var key, anchor := w.log[id].key, w.log[id].anchor;
    assert w.log[id].status != Returned;
    var b := w.limiter.buckets[key];
    forall i | i in InWindow(w.log, key, anchor) ensures w.gens[i] == b.generation {
    }
    assert OfGeneration(w, key, b.generation) == InWindow(w.log, key, anchor);
  }

  /** The bucket after giving back: gone if no other attempt stands in the window, else the anchor for them. */
  predicate LeavesTheAnchor<K(==)>(before: Limiter<K>, after: Limiter<K>, key: K, anchor: int, others: nat) {
    if others == 0 then key !in after.buckets
    else
      && key in before.buckets && before.buckets[key].startedAt == anchor
      && key in after.buckets && after.buckets[key] == before.buckets[key].(count := others)
  }

  lemma RolledBackLeavesTheAnchor<K(!new)>(w: World<K>, id: nat, now: int)
    requires Refined(w) && id < |w.log| && w.log[id].status == Open
    requires w.last <= now < w.log[id].anchor + w.limiter.window
    ensures
      var after := Step(w, RollbackOp(id));
      LeavesTheAnchor(w.limiter, after.limiter, w.log[id].key, w.log[id].anchor, |Others(w, id)|)
  {
    OpenAttemptHasItsBucket(w, id, now);
    var window := InWindow(w.log, w.log[id].key, w.log[id].anchor);
    assert id in window;
    assert |window| == |Others(w, id)| + 1;
  }

  lemma RolledBackLeavesTheRest<K(!new)>(w: World<K>, id: nat, key: K, anchor: int)
    requires id < |w.log| && |w.gens| == |w.log| && w.log[id].status == Open
    ensures
      var after := Step(w, RollbackOp(id));
      && InWindow(after.log, key, anchor) == InWindow(w.log, key, anchor) - {id}
      && (key != w.log[id].key ==>
            && (key in after.limiter.buckets <==> key in w.limiter.buckets)
            && (key in w.limiter.buckets ==> after.limiter.buckets[key] == w.limiter.buckets[key]))
  {
  }

  /**
   Giving an attempt back at any moment of any run takes its place from its window and from no
   other, leaves every other key alone, and while its window lasts leaves of the key's bucket
   exactly this: nothing if no other attempt stands in the window, else the anchor, for those.
   */
  lemma GivingBackLeavesOnlyTheAnchor<K(!new)>(limit: nat, window: nat, capacity: nat, began: int, ops: seq<Op<K>>,
                                               id: nat, key: K, anchor: int)
    requires limit >= 1 && window >= 1 && InOrder(began, ops)
    requires
      var w := Run(Start(limit, window, capacity, began), ops);
      id < |w.log| && w.log[id].status == Open
    ensures
      var w := Run(Start(limit, window, capacity, began), ops);
      var after := Step(w, RollbackOp(id));
      && |w.gens| == |w.log|
      && InWindow(after.log, key, anchor) == InWindow(w.log, key, anchor) - {id}
      && (key != w.log[id].key ==>
            && (key in after.limiter.buckets <==> key in w.limiter.buckets)
            && (key in w.limiter.buckets ==> after.limiter.buckets[key] == w.limiter.buckets[key]))
      && (w.last < w.log[id].anchor + window ==>
            LeavesTheAnchor(w.limiter, after.limiter, w.log[id].key, w.log[id].anchor, |Others(w, id)|))
  {
    var w := Run(Start(limit, window, capacity, began), ops);
    StartIsRefined<K>(limit, window, capacity, began);
    RunKeepsRefined(Start(limit, window, capacity, began), ops);
    ConfigurationIsKept(Start<K>(limit, window, capacity, began), ops);
    RolledBackLeavesTheRest(w, id, key, anchor);
    if w.last < w.log[id].anchor + window {
      RolledBackLeavesTheAnchor(w, id, w.last);
    }
  }

  /** A second attempt begins while the first is open; then the first is given back. */
  function Interleaved<K>(key: K, first: int, second: int): seq<Op<K>> {
    [BeginOp(key, first), BeginOp(key, second), RollbackOp(0)]
  }

  /** A run that leaves an anchor: the second attempt counts in a window the first one opened. */
  lemma InterleavedSuccessLeavesItsAnchor<K(!new)>(limit: nat, window: nat, capacity: nat, key: K, first: int,
                                                   second: int)
    requires limit >= 2 && capacity >= 1 && first < second < first + window
    ensures
      var together := Run(Start(limit, window, capacity, first), Interleaved(key, first, second));
      var alone := Run(Start(limit, window, capacity, first), [BeginOp(key, second)]);
      && key in together.limiter.buckets && key in alone.limiter.buckets
      && together.limiter.buckets[key].startedAt == first && alone.limiter.buckets[key].startedAt == second
      && together.limiter.buckets[key].count == 1 && alone.limiter.buckets[key].count == 1
  {
    var s := Start<K>(limit, window, capacity, first);
    var ops := Interleaved(key, first, second);
    var w1 := Step(s, ops[0]);
    var w2 := Step(w1, ops[1]);
    assert ops[1..] == [BeginOp(key, second), RollbackOp(0)] && ops[1..][1..] == [RollbackOp(0)];
    assert ops[1..][1..][1..] == [] && [BeginOp(key, second)][1..] == [];
    assert Run(s, ops) == Run(w1, ops[1..]) == Run(w2, ops[1..][1..]) == Step(w2, RollbackOp(0));
  }
}
