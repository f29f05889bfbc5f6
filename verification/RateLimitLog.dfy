/**
 Runs of the limiter beside a plain log of the attempts it admitted.  The log opens a window for
 a key when no window of that key covers the current reading, and admits an attempt exactly
 when fewer than `limit` attempts of that window have not been given back.
 */
module RateLimitLog {
  import opened Collections
  import opened Wrappers
  import opened RateLimit

  datatype Status = Open | Committed | Returned

  /** One admitted attempt: when it began and when the window it counts in was opened. */
  datatype Entry<K> = Entry(key: K, at: int, anchor: int, status: Status)

  predicate Standing<K(==)>(e: Entry<K>, key: K) {
    e.key == key && e.status != Returned
  }

  predicate Covers<K(==)>(e: Entry<K>, key: K, now: int, window: nat) {
    Standing(e, key) && now < e.anchor + window
  }

  ghost function WindowAt<K(!new)>(log: seq<Entry<K>>, key: K, now: int, window: nat): int {
    if i :| 0 <= i < |log| && Covers(log[i], key, now, window) then log[i].anchor else now
  }

  function InWindow<K(==)>(log: seq<Entry<K>>, key: K, anchor: int): set<nat> {
    set i: nat | i < |log| && Standing(log[i], key) && log[i].anchor == anchor
  }

  /** The decision of the log. */
  ghost predicate LogAdmits<K(!new)>(log: seq<Entry<K>>, key: K, now: int, window: nat, limit: nat) {
    |InWindow(log, key, WindowAt(log, key, now, window))| < limit
  }

  /** The attempts of a key that were not given back and began in [from, from + window). */
  function BegunDuring<K(==)>(log: seq<Entry<K>>, key: K, from: int, window: nat): set<nat> {
    set i: nat | i < |log| && Standing(log[i], key) && from <= log[i].at < from + window
  }

  function CommittedDuring<K(==)>(log: seq<Entry<K>>, key: K, from: int, window: nat): set<nat> {
    set i: nat | i < |log| && log[i].key == key && log[i].status == Committed && from <= log[i].at < from + window
  }

  // ----- runs -----

  /** `gens[i]` is the generation held by the `i`th admitted attempt. */
  datatype World<K> = World(limiter: Limiter<K>, log: seq<Entry<K>>, gens: seq<nat>, last: int)

  datatype Op<K> = BeginOp(key: K, now: int) | CommitOp(id: nat) | RollbackOp(id: nat)

  ghost function Step<K(!new)>(w: World<K>, op: Op<K>): World<K> {
    match op
    case BeginOp(key, now) =>
      var (l, outcome) := Begin(w.limiter, key, now);
      if outcome.Admitted? then
        World(l, w.log + [Entry(key, now, WindowAt(w.log, key, now, w.limiter.window), Open)],
          w.gens + [outcome.generation], now)
      else w.(limiter := l, last := now)
    case CommitOp(id) =>
      if id < |w.log| && w.log[id].status == Open then w.(log := w.log[id := w.log[id].(status := Committed)]) else w
    case RollbackOp(id) =>
      if id < |w.log| && id < |w.gens| && w.log[id].status == Open then
        w.(limiter := Release(w.limiter, w.log[id].key, w.gens[id]), log := w.log[id := w.log[id].(status := Returned)])
      else w
  }

  ghost function Run<K(!new)>(w: World<K>, ops: seq<Op<K>>): World<K>
    decreases |ops|
  {
    if ops == [] then w else Run(Step(w, ops[0]), ops[1..])
  }

  function Start<K>(limit: nat, window: nat, capacity: nat, now: int): World<K> {
    World(Limiter(limit, window, capacity, 1, map[]), [], [], now)
  }

  /** Readings that do not decrease in lock order. */
  predicate InOrder<K>(last: int, ops: seq<Op<K>>)
    decreases |ops|
  {
    ops == [] ||
    if ops[0].BeginOp? then last <= ops[0].now && InOrder(ops[0].now, ops[1..]) else InOrder(last, ops[1..])
  }

  // ----- what holds whatever the clock does -----

  function OfGeneration<K(==)>(w: World<K>, key: K, generation: nat): set<nat> {
    set i: nat | i < |w.log| && i < |w.gens| && Standing(w.log[i], key) && w.gens[i] == generation
  }

  ghost predicate BucketCounts<K(!new)>(w: World<K>) {
    forall k :: k in w.limiter.buckets ==>
      var b := w.limiter.buckets[k];
      b.generation < w.limiter.nextGeneration && 1 <= b.count <= w.limiter.limit &&
      b.count == |OfGeneration(w, k, b.generation)|
  }

  /** A bucket counts the attempts of its generation that were not given back. */
  ghost predicate Counted<K(!new)>(w: World<K>) {
    && |w.gens| == |w.log|
    && 1 <= w.limiter.limit
    && (forall i :: 0 <= i < |w.gens| ==> w.gens[i] < w.limiter.nextGeneration)
    && BucketCounts(w)
  }

  /** What an admission does to the table, and what anything `begin` does leaves alone. */
  predicate Admits<K(!new, ==)>(l: Limiter<K>, key: K, now: int, l': Limiter<K>, generation: nat) {
    && key in l'.buckets
    && var bucket := Lookup(l, key, now).0;
       l'.buckets[key] == bucket.(count := bucket.count + 1) && bucket.count < l.limit &&
       bucket.generation == generation
       && (if bucket.count > 0 then key in l.buckets && l.buckets[key] == bucket else generation >= l.nextGeneration)
  }

  ghost predicate LeavesOthers<K(!new)>(l: Limiter<K>, key: K, now: int, l': Limiter<K>) {
    && l'.limit == l.limit && l'.window == l.window && l'.nextGeneration >= l.nextGeneration
    && (forall k :: k in l'.buckets && k != key ==> k in l.buckets && l'.buckets[k] == l.buckets[k])
    && (forall k :: k in l.buckets && k !in l'.buckets ==> now >= l.buckets[k].startedAt + l.window)
  }

  lemma BeginEffect<K(!new)>(w: World<K>, key: K, now: int)
    requires Counted(w) && w.limiter.window > 0
    ensures var (l, outcome) := Begin(w.limiter, key, now);
            LeavesOthers(w.limiter, key, now, l) &&
            match outcome
            case Admitted(g) => Admits(w.limiter, key, now, l, g) && g < l.nextGeneration
            case Exhausted(_) => key in l.buckets ==>
                                 key in w.limiter.buckets && l.buckets[key] == w.limiter.buckets[key]
  {
  }

  lemma BeginKeepsCounted<K(!new)>(w: World<K>, key: K, now: int)
    requires Counted(w) && w.limiter.window > 0
    ensures Counted(Step(w, BeginOp(key, now)))
  {
    BeginEffect(w, key, now);
    var (l, outcome) := Begin(w.limiter, key, now);
    if outcome.Admitted? {
      AppendKeepsCounted(w, key, now, WindowAt(w.log, key, now, w.limiter.window), l, outcome.generation);
    } else {
      var w' := Step(w, BeginOp(key, now));
      forall k | k in l.buckets
        ensures OfGeneration(w', k, l.buckets[k].generation) == OfGeneration(w, k, l.buckets[k].generation)
      {
      }
    }
  }

  lemma AppendKeepsCounted<K(!new)>(w: World<K>, key: K, now: int, anchor: int, l: Limiter<K>, generation: nat)
    requires Counted(w) && generation < l.nextGeneration
    requires LeavesOthers(w.limiter, key, now, l) && Admits(w.limiter, key, now, l, generation)
    ensures Counted(World(l, w.log + [Entry(key, now, anchor, Open)], w.gens + [generation], now))
  {
    var e := Entry(key, now, anchor, Open);
    var w' := World(l, w.log + [e], w.gens + [generation], now);
    forall k | k in l.buckets
      ensures l.buckets[k].count == |OfGeneration(w', k, l.buckets[k].generation)|
    {
      var g := l.buckets[k].generation;
      OfGenerationAppend(w, w', e, generation, k, g);
      if k == key && g >= w.limiter.nextGeneration {
        assert OfGeneration(w, k, g) == {};
      }
    }
  }

  lemma CommitKeepsCounted<K(!new)>(w: World<K>, id: nat)
    requires Counted(w)
    ensures Counted(Step(w, CommitOp(id)))
  {
    var w' := Step(w, CommitOp(id));
    forall k | k in w.limiter.buckets
      ensures OfGeneration(w', k, w.limiter.buckets[k].generation) ==
              OfGeneration(w, k, w.limiter.buckets[k].generation)
    {
    }
  }

  /** Giving an attempt back never finds its bucket at zero, so the subtraction is exact. */
  lemma RollbackFindsItsCount<K(!new)>(w: World<K>, id: nat)
    requires Counted(w) && id < |w.log| && w.log[id].status == Open
    requires w.log[id].key in w.limiter.buckets && w.limiter.buckets[w.log[id].key].generation == w.gens[id]
    ensures w.limiter.buckets[w.log[id].key].count >= 1
    ensures SaturatingPred(w.limiter.buckets[w.log[id].key].count) ==
            |OfGeneration(Step(w, RollbackOp(id)), w.log[id].key, w.gens[id])|
  {
    var k, g := w.log[id].key, w.gens[id];
    assert id in OfGeneration(w, k, g);
    assert OfGeneration(Step(w, RollbackOp(id)), k, g) == OfGeneration(w, k, g) - {id};
  }

  lemma RollbackKeepsCounted<K(!new)>(w: World<K>, id: nat)
    requires Counted(w)
    ensures Counted(Step(w, RollbackOp(id)))
  {
    if id < |w.log| && w.log[id].status == Open {
      var w' := Step(w, RollbackOp(id));
      var key := w.log[id].key;
      forall k | k in w'.limiter.buckets
        ensures var b := w'.limiter.buckets[k];
                b.generation < w'.limiter.nextGeneration && 1 <= b.count <= w'.limiter.limit &&
                b.count == |OfGeneration(w', k, b.generation)|
      {
        var g := w'.limiter.buckets[k].generation;
        if k == key && g == w.gens[id] {
          RollbackFindsItsCount(w, id);
        } else {
          assert OfGeneration(w', k, g) == OfGeneration(w, k, g);
        }
      }
    }
  }

  lemma {:induction false} RunKeepsCounted<K(!new)>(w: World<K>, ops: seq<Op<K>>)
    requires Counted(w) && w.limiter.window > 0
    ensures Counted(Run(w, ops))
    decreases |ops|
  {
    if ops != [] {
      match ops[0] {
        case BeginOp(key, now) => BeginKeepsCounted(w, key, now);
        case CommitOp(id) => CommitKeepsCounted(w, id);
        case RollbackOp(id) => RollbackKeepsCounted(w, id);
      }
      RunKeepsCounted(Step(w, ops[0]), ops[1..]);
    }
  }

  // ----- what needs readings in lock order -----

  ghost predicate Dated<K(!new)>(w: World<K>) {
    forall i :: 0 <= i < |w.log| ==>
      w.log[i].anchor <= w.log[i].at <= w.last && w.log[i].at < w.log[i].anchor + w.limiter.window
  }

  /** Windows of one key never overlap. */
  ghost predicate Apart<K(!new)>(w: World<K>) {
    forall i, j ::
      0 <= i < |w.log| && 0 <= j < |w.log| && Standing(w.log[i], w.log[j].key) &&
      Standing(w.log[j], w.log[i].key) && w.log[i].anchor < w.log[j].anchor ==>
      w.log[i].anchor + w.limiter.window <= w.log[j].anchor
  }

  /** A bucket is the window of the standing attempts of its generation; all others are over. */
  ghost predicate Anchored<K(!new)>(w: World<K>)
    requires |w.gens| == |w.log|
  {
    && (forall k :: k in w.limiter.buckets ==> w.limiter.buckets[k].startedAt <= w.last)
    && (forall i :: 0 <= i < |w.log| && w.log[i].status != Returned ==>
          if w.log[i].key in w.limiter.buckets then
            var b := w.limiter.buckets[w.log[i].key];
            if w.gens[i] == b.generation then w.log[i].anchor == b.startedAt
            else w.log[i].anchor + w.limiter.window <= b.startedAt
          else w.log[i].anchor + w.limiter.window <= w.last)
  }

  ghost predicate Bounded<K(!new)>(w: World<K>) {
    forall k, a :: |InWindow(w.log, k, a)| <= w.limiter.limit
  }

  ghost predicate Refined<K(!new)>(w: World<K>) {
    w.limiter.window > 0 && Counted(w) && Dated(w) && Apart(w) && Anchored(w) && Bounded(w)
  }

  /** The window the log picks is the one the lookup counts in, with the same occupancy. */
  lemma SameWindow<K(!new)>(w: World<K>, key: K, now: int)
    requires Refined(w) && w.last <= now
    ensures WindowAt(w.log, key, now, w.limiter.window) == Lookup(w.limiter, key, now).0.startedAt
    ensures |InWindow(w.log, key, Lookup(w.limiter, key, now).0.startedAt)| == Lookup(w.limiter, key, now).0.count
  {
    var a := Lookup(w.limiter, key, now).0.startedAt;
    if key in w.limiter.buckets {
      var b := w.limiter.buckets[key];
      if now < b.startedAt + w.limiter.window {
        assert InWindow(w.log, key, b.startedAt) == OfGeneration(w, key, b.generation);
        assert OfGeneration(w, key, b.generation) != {};
        var i :| i in OfGeneration(w, key, b.generation);
        assert Covers(w.log[i], key, now, w.limiter.window);
      } else {
        assert InWindow(w.log, key, now) == {};
      }
    } else {
      assert InWindow(w.log, key, now) == {};
    }
  }

  /**
   Eviction, lazy reset and removal at zero never change a decision: apart from a full table,
   the limiter admits exactly what the log admits.
   */
  lemma DecidesAsTheLog<K(!new)>(w: World<K>, key: K, now: int)
    requires Refined(w) && w.last <= now
    ensures Begin(w.limiter, key, now).1.Admitted? <==>
            !StorageFull(w.limiter, key, now) && LogAdmits(w.log, key, now, w.limiter.window, w.limiter.limit)
  {
    SameWindow(w, key, now);
  }

  lemma AdmittedEntry<K(!new)>(w: World<K>, key: K, now: int)
    requires Refined(w) && w.last <= now && Begin(w.limiter, key, now).1.Admitted?
    ensures var w' := Step(w, BeginOp(key, now));
            w'.log == w.log + [Entry(key, now, Lookup(w.limiter, key, now).0.startedAt, Open)] && Dated(w')
  {
    SameWindow(w, key, now);
  }

  lemma BeginKeepsApart<K(!new)>(w: World<K>, key: K, now: int)
    requires Refined(w) && w.last <= now
    ensures Apart(Step(w, BeginOp(key, now)))
  {
    var (l, outcome) := Begin(w.limiter, key, now);
    if outcome.Admitted? {
      AdmittedEntry(w, key, now);
      BeginEffect(w, key, now);
      AppendKeepsApart(w, key, now, l, outcome.generation);
    }
  }

  lemma AppendKeepsApart<K(!new)>(w: World<K>, key: K, now: int, l: Limiter<K>, generation: nat)
    requires Refined(w) && w.last <= now
    requires LeavesOthers(w.limiter, key, now, l) && Admits(w.limiter, key, now, l, generation)
    ensures Apart(World(l, w.log + [Entry(key, now, l.buckets[key].startedAt, Open)], w.gens + [generation], now))
  {
    var start := l.buckets[key].startedAt;
    forall i | 0 <= i < |w.log| && Standing(w.log[i], key)
      ensures w.log[i].anchor == start || w.log[i].anchor + w.limiter.window <= start
    {
    }
  }

  lemma BeginKeepsAnchored<K(!new)>(w: World<K>, key: K, now: int)
    requires Refined(w) && w.last <= now
    ensures Anchored(Step(w, BeginOp(key, now)))
  {
    BeginEffect(w, key, now);
    var (l, outcome) := Begin(w.limiter, key, now);
    if outcome.Admitted? {
      AdmittedEntry(w, key, now);
      AppendKeepsAnchored(w, key, now, l, outcome.generation);
    }
  }

  lemma AppendKeepsAnchored<K(!new)>(w: World<K>, key: K, now: int, l: Limiter<K>, generation: nat)
    requires Refined(w) && w.last <= now
    requires LeavesOthers(w.limiter, key, now, l) && Admits(w.limiter, key, now, l, generation)
    ensures Anchored(World(l, w.log + [Entry(key, now, l.buckets[key].startedAt, Open)], w.gens + [generation], now))
  {
  }

  lemma BeginKeepsBounded<K(!new)>(w: World<K>, key: K, now: int)
    requires Refined(w) && w.last <= now
    ensures Bounded(Step(w, BeginOp(key, now)))
  {
    var (l, outcome) := Begin(w.limiter, key, now);
    if outcome.Admitted? {
      BeginEffect(w, key, now);
      SameWindow(w, key, now);
      AppendKeepsBounded(w, key, Entry(key, now, l.buckets[key].startedAt, Open));
    }
  }

  lemma AppendKeepsBounded<K(!new)>(w: World<K>, key: K, e: Entry<K>)
    requires Bounded(w) && e.key == key && |InWindow(w.log, key, e.anchor)| < w.limiter.limit
    ensures forall k, a :: |InWindow(w.log + [e], k, a)| <= w.limiter.limit
  {
    forall k, a ensures |InWindow(w.log + [e], k, a)| <= w.limiter.limit {
      InWindowAppend(w.log, e, k, a);
    }
  }

  lemma InWindowAppend<K(!new)>(log: seq<Entry<K>>, e: Entry<K>, key: K, anchor: int)
    ensures InWindow(log + [e], key, anchor) ==
            if Standing(e, key) && e.anchor == anchor then InWindow(log, key, anchor) + {|log|}
            else InWindow(log, key, anchor)
  {
    var both := log + [e];
    assert forall i :: 0 <= i < |log| ==> both[i] == log[i];
    assert both[|log|] == e;
  }

  lemma OfGenerationAppend<K(!new)>(w: World<K>, w': World<K>, e: Entry<K>, generation: nat, key: K, g: nat)
    requires |w.gens| == |w.log| && w'.log == w.log + [e] && w'.gens == w.gens + [generation]
    ensures OfGeneration(w', key, g) ==
            if Standing(e, key) && generation == g then OfGeneration(w, key, g) + {|w.log|} else OfGeneration(w, key, g)
  {
    assert forall i :: 0 <= i < |w.log| ==> w'.log[i] == w.log[i] && w'.gens[i] == w.gens[i];
    assert w'.log[|w.log|] == e && w'.gens[|w.log|] == generation;
  }

  lemma CommitKeepsRefined<K(!new)>(w: World<K>, id: nat)
    requires Refined(w)
    ensures Refined(Step(w, CommitOp(id)))
  {
    CommitKeepsCounted(w, id);
    var w' := Step(w, CommitOp(id));
    forall k, a ensures InWindow(w'.log, k, a) == InWindow(w.log, k, a) {
    }
  }

  lemma RollbackKeepsRefined<K(!new)>(w: World<K>, id: nat)
    requires Refined(w)
    ensures Refined(Step(w, RollbackOp(id)))
  {
    RollbackKeepsCounted(w, id);
    var w' := Step(w, RollbackOp(id));
    forall k, a ensures |InWindow(w'.log, k, a)| <= |InWindow(w.log, k, a)| {
      assert InWindow(w'.log, k, a) == InWindow(w.log, k, a) - if w' == w then {} else {id};
    }
    RollbackKeepsAnchored(w, id);
  }

  /** A bucket is removed only when no standing attempt is left in its generation. */
  lemma RemovedBucketIsEmpty<K(!new)>(w: World<K>, id: nat, i: nat)
    requires Counted(w) && id < |w.log| && w.log[id].status == Open
    requires w.log[id].key in w.limiter.buckets && w.log[id].key !in Step(w, RollbackOp(id)).limiter.buckets
    requires i < |w.log| && i != id && Standing(w.log[i], w.log[id].key)
    ensures w.gens[i] != w.limiter.buckets[w.log[id].key].generation
  {
    RollbackFindsItsCount(w, id);
    var w' := Step(w, RollbackOp(id));
    assert OfGeneration(w', w.log[id].key, w.gens[id]) == {};
    assert i !in OfGeneration(w', w.log[id].key, w.gens[id]);
  }

  lemma RollbackKeepsAnchored<K(!new)>(w: World<K>, id: nat)
    requires Refined(w)
    ensures Anchored(Step(w, RollbackOp(id)))
  {
    if id < |w.log| && w.log[id].status == Open {
      var w' := Step(w, RollbackOp(id));
      forall i | 0 <= i < |w'.log| && w'.log[i].status != Returned
        ensures if w'.log[i].key in w'.limiter.buckets then
                  var b := w'.limiter.buckets[w'.log[i].key];
                  if w'.gens[i] == b.generation then w'.log[i].anchor == b.startedAt
                  else w'.log[i].anchor + w'.limiter.window <= b.startedAt
                else w'.log[i].anchor + w'.limiter.window <= w'.last
      {
        assert w'.log[i] == w.log[i] && i != id;
        if w.log[i].key == w.log[id].key && w.log[id].key in w.limiter.buckets && w.log[id].key !in w'.limiter.buckets {
          RemovedBucketIsEmpty(w, id, i);
        }
      }
    }
  }

  lemma StepKeepsRefined<K(!new)>(w: World<K>, op: Op<K>)
    requires Refined(w) && (op.BeginOp? ==> w.last <= op.now)
    ensures Refined(Step(w, op))
  {
    match op {
      case BeginOp(key, now) =>
        BeginKeepsCounted(w, key, now);
        BeginKeepsApart(w, key, now);
        BeginKeepsAnchored(w, key, now);
        BeginKeepsBounded(w, key, now);
        if Begin(w.limiter, key, now).1.Admitted? {
          AdmittedEntry(w, key, now);
        }
      case CommitOp(id) => CommitKeepsRefined(w, id);
      case RollbackOp(id) => RollbackKeepsRefined(w, id);
    }
  }

  lemma {:induction false} RunKeepsRefined<K(!new)>(w: World<K>, ops: seq<Op<K>>)
    requires Refined(w) && InOrder(w.last, ops)
    ensures Refined(Run(w, ops))
    decreases |ops|
  {
    if ops != [] {
      StepKeepsRefined(w, ops[0]);
      RunKeepsRefined(Step(w, ops[0]), ops[1..]);
    }
  }

  lemma StartIsRefined<K(!new)>(limit: nat, window: nat, capacity: nat, now: int)
    requires limit >= 1 && window >= 1
    ensures Refined<K>(Start(limit, window, capacity, now))
  {
    forall k: K, a ensures InWindow<K>([], k, a) == {} {
    }
  }

  // ----- the promises -----

  /** At every moment of every run the limiter decides as the plain log does. */
  lemma RunsDecideAsTheLog<K(!new)>(limit: nat, window: nat, capacity: nat, began: int, ops: seq<Op<K>>, key: K,
                                     now: int)
    requires limit >= 1 && window >= 1 && InOrder(began, ops)
    ensures var w := Run(Start(limit, window, capacity, began), ops);
            w.last <= now ==>
              (Begin(w.limiter, key, now).1.Admitted? <==>
               !StorageFull(w.limiter, key, now) && LogAdmits(w.log, key, now, w.limiter.window, w.limiter.limit))
  {
    StartIsRefined<K>(limit, window, capacity, began);
    RunKeepsRefined(Start(limit, window, capacity, began), ops);
    var w := Run(Start(limit, window, capacity, began), ops);
    if w.last <= now {
      DecidesAsTheLog(w, key, now);
    }
  }

  lemma AtMostTwoWindows<K(!new)>(w: World<K>, key: K, from: int) returns (a: int, b: int)
    requires Refined(w)
    ensures BegunDuring(w.log, key, from, w.limiter.window) <= InWindow(w.log, key, a) + InWindow(w.log, key, b)
  {
    var begun := BegunDuring(w.log, key, from, w.limiter.window);
    a, b := from, from;
    if i :| i in begun {
      a, b := w.log[i].anchor, w.log[i].anchor;
      if j :| j in begun && w.log[j].anchor != a {
        b := w.log[j].anchor;
      }
    }
  }

  /** However the interval lies, at most two windows meet it. */
  lemma TwiceTheLimitPerInterval<K(!new)>(w: World<K>, key: K, from: int)
    requires Refined(w)
    ensures |BegunDuring(w.log, key, from, w.limiter.window)| <= 2 * w.limiter.limit
    ensures |CommittedDuring(w.log, key, from, w.limiter.window)| <= 2 * w.limiter.limit
  {
    var a, b := AtMostTwoWindows(w, key, from);
    var begun := BegunDuring(w.log, key, from, w.limiter.window);
    SubsetSize(begun, InWindow(w.log, key, a) + InWindow(w.log, key, b));
    SubsetSize(CommittedDuring(w.log, key, from, w.limiter.window), begun);
  }

  /** The two bounds over whole runs: `limit` per anchored window, twice that per interval. */
  lemma CommittedAttemptsAreBounded<K(!new)>(limit: nat, window: nat, capacity: nat, began: int, ops: seq<Op<K>>,
                                              key: K, from: int, anchor: int)
    requires limit >= 1 && window >= 1 && InOrder(began, ops)
    ensures var w := Run(Start(limit, window, capacity, began), ops);
            |InWindow(w.log, key, anchor)| <= limit && |CommittedDuring(w.log, key, from, window)| <= 2 * limit
  {
    StartIsRefined<K>(limit, window, capacity, began);
    RunKeepsRefined(Start(limit, window, capacity, began), ops);
    ConfigurationIsKept(Start<K>(limit, window, capacity, began), ops);
    TwiceTheLimitPerInterval(Run(Start(limit, window, capacity, began), ops), key, from);
  }

  lemma {:induction false} ConfigurationIsKept<K(!new)>(w: World<K>, ops: seq<Op<K>>)
    ensures var l := Run(w, ops).limiter;
            l.limit == w.limiter.limit && l.window == w.limiter.window && l.capacity == w.limiter.capacity
    decreases |ops|
  {
    if ops != [] {
      ConfigurationIsKept(Step(w, ops[0]), ops[1..]);
    }
  }

  /** An attempt from a window that is over gives back nothing. */
  lemma LateRollbackChangesNothing<K(!new)>(w: World<K>, id: nat)
    requires Refined(w) && id < |w.log| && w.log[id].status == Open
    requires w.log[id].key in w.limiter.buckets && w.limiter.buckets[w.log[id].key].startedAt != w.log[id].anchor
    ensures Step(w, RollbackOp(id)).limiter == w.limiter
  {
  }

  /**
   The delay told to an exhausted key is positive and exact: with no call in between, every
   retry before it has passed is refused and every retry from then on is admitted.
   */
  lemma RetryAfterIsExact<K(!new)>(w: World<K>, key: K, now: int, later: int)
    requires Refined(w) && w.last <= now <= later
    requires !StorageFull(w.limiter, key, now) && Begin(w.limiter, key, now).1.Exhausted?
    ensures var (l, refusal) := Begin(w.limiter, key, now);
            refusal.retryAfter > 0 && (Begin(l, key, later).1.Admitted? <==> later >= now + refusal.retryAfter)
  {
  }

  lemma AllOver<K(!new)>(buckets: map<K, Bucket>, window: nat, last: int, later: int)
    requires later >= last + window
    requires forall k :: k in buckets ==> buckets[k].startedAt <= last
    ensures Fresh(buckets, later, window) == map[]
  {
    forall k | k in buckets ensures Elapsed(later, buckets[k].startedAt) >= window {
    }
  }

  /** The delay told when the table is full is long enough. */
  lemma RetryAfterFullTableSuffices<K(!new)>(w: World<K>, key: K, now: int, later: int)
    requires Refined(w) && w.last <= now && w.limiter.capacity >= 1
    requires StorageFull(w.limiter, key, now)
    ensures var (l, refusal) := Begin(w.limiter, key, now);
            refusal == Exhausted(w.limiter.window) &&
            (later >= now + w.limiter.window ==> Begin(l, key, later).1.Admitted?)
  {
    var (l, refusal) := Begin(w.limiter, key, now);
    if later >= now + w.limiter.window {
      AllOver(l.buckets, l.window, now, later);
    }
  }

  /** An authentication whose begin and verdict are the next two steps for the limiter. */
  ghost function Authenticated<K(!new)>(w: World<K>, key: K, now: int, authentic: bool): World<K> {
    var begun := Step(w, BeginOp(key, now));
    if Begin(w.limiter, key, now).1.Admitted? then
      Step(begun, if authentic then RollbackOp(|w.log|) else CommitOp(|w.log|))
    else begun
  }

  /**
   Only failures are charged: with no call in between, success leaves every window as it was and
   failure takes one place.
   */
  lemma OnlyFailuresAreCharged<K(!new)>(w: World<K>, key: K, now: int, authentic: bool, k: K, anchor: int)
    requires Refined(w) && w.last <= now && Begin(w.limiter, key, now).1.Admitted?
    ensures var later := Authenticated(w, key, now, authentic);
            InWindow(later.log, k, anchor) ==
            if !authentic && k == key && anchor == WindowAt(w.log, key, now, w.limiter.window)
            then InWindow(w.log, k, anchor) + {|w.log|}
            else InWindow(w.log, k, anchor)
    ensures Authenticated(w, key, now, authentic).limiter == Judged(w.limiter, key, now, authentic).0
  {
    var e := Entry(key, now, WindowAt(w.log, key, now, w.limiter.window), Open);
    var closed := e.(status := if authentic then Returned else Committed);
    assert (w.log + [e])[|w.log| := closed] == w.log + [closed];
    InWindowAppend(w.log, closed, k, anchor);
  }
}
