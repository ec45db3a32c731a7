/** What evicting the oldest entry buys the process cache, and the request pattern that defeats it. */
module ProcessEviction {
  import opened Wrappers
  import opened Collections
  import opened ProcessCache

  /** Builds are stored in the order they began, and one under way began last. */
  ghost predicate StartsInOrder(s: State) {
    && (forall i, j :: 0 <= i < j < |s.log| && s.log[i].Built? && s.log[j].Built? ==>
        s.log[i].entry.start <= s.log[j].entry.start)
    && (forall i, p :: 0 <= i < |s.log| && s.log[i].Built? && ControlOf(s, p).Building? ==>
        s.log[i].entry.start <= ControlOf(s, p).now)
  }

  /** The eviction at `e` made room in a full cache, took an oldest entry, and the build stored next had
      found no fresh entry of its own key. */
  ghost predicate EvictionAt(capacity: nat, log: seq<Event>, e: nat)
    requires e < |log| && log[e].Evicted?
  {
    var cache := Replay(log[..e]);
    && |cache| >= capacity && Oldest(cache, log[e].key)
    && e + 1 < |log| && log[e + 1].Built?
    && (log[e + 1].key in cache ==> cache[log[e + 1].key].start + CACHE_TTL <= log[e + 1].entry.start)
  }

  ghost predicate EvictsOldest(capacity: nat, log: seq<Event>) {
    forall e :: 0 <= e < |log| && log[e].Evicted? ==> EvictionAt(capacity, log, e)
  }

  lemma StepKeepsStarts(capacity: nat, s: State, step: Step)
    requires Invariant(capacity, s) && StartsInOrder(s) && Enabled(capacity, s, step)
    ensures StartsInOrder(Apply(capacity, s, step))
  {
    var t := Apply(capacity, s, step);
    forall i, p | 0 <= i < |t.log| && t.log[i].Built? && ControlOf(t, p).Building?
      ensures t.log[i].entry.start <= ControlOf(t, p).now
    {
      HolderStays(capacity, s, step, p);
      assert ControlOf(t, p) == ControlOf(s, p) || (!step.Tick? && step.p == p);
    }
  }

  lemma EvictionStays(capacity: nat, log: seq<Event>, longer: seq<Event>, e: nat)
    requires e < |log| <= |longer| && longer[..|log|] == log && log[e].Evicted? && EvictionAt(capacity, log, e)
    ensures longer[e] == log[e] && EvictionAt(capacity, longer, e)
  {
    assert longer[..|log|][e] == longer[e] && longer[..|log|][e + 1] == longer[e + 1];
    assert longer[..e] == log[..e];
  }

  lemma StoreEvictsOldest(capacity: nat, s: State, step: Step)
    requires Invariant(capacity, s) && EvictsOldest(capacity, s.log) && Enabled(capacity, s, step) && step.Store?
    ensures EvictsOldest(capacity, Apply(capacity, s, step).log)
  {
    var longer := Apply(capacity, s, step).log;
    assert longer[..|s.log|] == s.log;
    forall e | 0 <= e < |longer| && longer[e].Evicted? ensures EvictionAt(capacity, longer, e) {
      if e < |s.log| {
        EvictionStays(capacity, s.log, longer, e);
      } else {
        assert e == |s.log| && longer[..e] == s.log;
      }
    }
  }

  lemma {:induction false} ReachableEvictsOldest(capacity: nat, steps: seq<Step>)
    requires capacity > 0 && Run(capacity, steps).Some?
    ensures StartsInOrder(Run(capacity, steps).value) && EvictsOldest(capacity, Run(capacity, steps).value.log)
  {
    if steps != [] {
      var before, step := steps[..|steps| - 1], steps[|steps| - 1];
      ReachableInvariant(capacity, before);
      ReachableEvictsOldest(capacity, before);
      StepKeepsStarts(capacity, Run(capacity, before).value, step);
      if step.Store? {
        StoreEvictsOldest(capacity, Run(capacity, before).value, step);
      } else {
        OtherStepsKeepLog(capacity, Run(capacity, before).value, step);
      }
    }
  }

  /** Some build of the key began between the two readings of the clock. */
  ghost predicate BuiltWithin(log: seq<Event>, key: Key, from: real, to: real) {
    exists i: nat :: BuiltAt(log, key, i) && from <= log[i].entry.start <= to
  }

  /** An eviction needs a full cache and leaves only entries that began no earlier than the one it takes. */
  lemma EvictedWhileOldest(capacity: nat, steps: seq<Step>, e: nat, key: Key)
    requires capacity > 0 && Run(capacity, steps).Some?
    requires
      var log := Run(capacity, steps).value.log;
      e < |log| && log[e].Evicted? && key in Replay(log[..e])
    ensures
      var log := Run(capacity, steps).value.log;
      var cache := Replay(log[..e]);
      |cache| >= capacity && log[e].key in cache && cache[log[e].key].start <= cache[key].start
  {
    ReachableEvictsOldest(capacity, steps);
    var log := Run(capacity, steps).value.log;
    assert EvictionAt(capacity, log, e);
  }

  /** The keys that pushed an evicted entry out: those left in the cache, and the one stored next. */
  ghost function Pushers(log: seq<Event>, e: nat): set<Key>
    requires e + 1 < |log| && log[e].Evicted? && log[e + 1].Built?
  {
    Replay(log[..e]).Keys - {log[e].key} + {log[e + 1].key}
  }

  lemma PusherBuilt(capacity: nat, s: State, key: Key, i: nat, e: nat, j: nat, k: Key)
    requires StartsInOrder(s) && EvictsOldest(capacity, s.log)
    requires BuiltAt(s.log, key, i) && BuiltAt(s.log, key, j) && i < e < j && s.log[e] == Evicted(key)
    requires e + 1 < |s.log| && s.log[e + 1].Built? && k in Pushers(s.log, e)
    ensures BuiltWithin(s.log, k, s.log[i].entry.start, s.log[j].entry.start)
  {
    var log := s.log;
    var cache := Replay(log[..e]);
    assert EvictionAt(capacity, log, e);
    var own := ReplayIsBuilt(log[..e], key);
    LastBuildIsLater(log, key, i, e);
    if k in cache {
      var b := ReplayIsBuilt(log[..e], k);
      assert log[b] == log[..e][b];
      assert BuiltAt(log, k, b) && log[i].entry.start <= log[b].entry.start;
      assert log[b].entry.start <= log[j].entry.start;
    } else {
      assert BuiltAt(log, k, e + 1);
    }
  }

  /** The cached entry of a key is its last build. */
  lemma {:induction false} ReplayIsLast(log: seq<Event>, key: Key, i: nat) returns (last: nat)
    requires key in Replay(log) && BuiltAt(log, key, i)
    ensures i <= last && BuiltAt(log, key, last) && Replay(log)[key] == log[last].entry
  {
    var n := |log| - 1;
    if log[n].Built? && log[n].key == key {
      last := n;
    } else {
      last := ReplayIsLast(log[..n], key, i);
    }
  }

  lemma LastBuildIsLater(log: seq<Event>, key: Key, i: nat, e: nat)
    requires i < e <= |log| && BuiltAt(log, key, i) && key in Replay(log[..e])
    requires forall a, b :: 0 <= a < b < |log| && log[a].Built? && log[b].Built? ==>
      log[a].entry.start <= log[b].entry.start
    ensures log[i].entry.start <= Replay(log[..e])[key].start
  {
    var last := ReplayIsLast(log[..e], key, i);
    assert log[..e][last] == log[last];
  }

  lemma ManyPushers(capacity: nat, s: State, key: Key, i: nat, e: nat, j: nat)
    requires StartsInOrder(s) && EvictsOldest(capacity, s.log)
    requires BuiltAt(s.log, key, i) && BuiltAt(s.log, key, j) && i < e < j && s.log[e] == Evicted(key)
    requires s.log[j].entry.start < s.log[i].entry.start + CACHE_TTL
    ensures e + 1 < |s.log| && s.log[e + 1].Built?
    ensures |Pushers(s.log, e)| >= capacity && key !in Pushers(s.log, e)
  {
    var log := s.log;
    var cache := Replay(log[..e]);
    assert EvictionAt(capacity, log, e);
    var next := log[e + 1];
    LastBuildIsLater(log, key, i, e);
    assert next.entry.start <= log[j].entry.start;
    assert next.key !in cache;
    assert Pushers(log, e) == cache.Keys - {key} + {next.key};
    assert |cache.Keys| == |cache|;
  }

  /** A key is rebuilt within one lifetime only if, in between, as many other keys were built as the cache holds. */
  lemma EarlyRebuildNeedsOtherKeys(capacity: nat, steps: seq<Step>, key: Key, i: nat, j: nat) returns (others: set<Key>)
    requires capacity > 0 && Run(capacity, steps).Some?
    requires
      var log := Run(capacity, steps).value.log;
      BuiltAt(log, key, i) && BuiltAt(log, key, j) && i < j && log[j].entry.start < log[i].entry.start + CACHE_TTL
    ensures |others| >= capacity && key !in others
    ensures
      var log := Run(capacity, steps).value.log;
      forall k :: k in others ==> BuiltWithin(log, k, log[i].entry.start, log[j].entry.start)
  {
    var s := Run(capacity, steps).value;
    ReachableEvictsOldest(capacity, steps);
    EarlyRebuildMeansEviction(capacity, steps, key, i, j);
    var e: nat :| i < e < j && s.log[e] == Evicted(key);
    ManyPushers(capacity, s, key, i, e, j);
    others := Pushers(s.log, e);
    forall k | k in others ensures BuiltWithin(s.log, k, s.log[i].entry.start, s.log[j].entry.start) {
      PusherBuilt(capacity, s, key, i, e, j, k);
    }
  }

  ghost function KeysBuiltWithin(log: seq<Event>, from: real, to: real): set<Key> {
    set i | 0 <= i < |log| && log[i].Built? && from <= log[i].entry.start <= to :: log[i].key
  }

  /** While no more keys are built in a lifetime than the cache holds, no key is rebuilt early. */
  lemma FewKeysNoEarlyRebuild(capacity: nat, steps: seq<Step>, key: Key, i: nat, j: nat)
    requires capacity > 0 && Run(capacity, steps).Some?
    requires
      var log := Run(capacity, steps).value.log;
      && BuiltAt(log, key, i) && BuiltAt(log, key, j) && i < j
      && |KeysBuiltWithin(log, log[i].entry.start, log[i].entry.start + CACHE_TTL)| <= capacity
    ensures
      var log := Run(capacity, steps).value.log;
      log[i].entry.start + CACHE_TTL <= log[j].entry.start
  {
    var log := Run(capacity, steps).value.log;
    if log[j].entry.start < log[i].entry.start + CACHE_TTL {
      var others := EarlyRebuildNeedsOtherKeys(capacity, steps, key, i, j);
      ManyKeysBuilt(log, key, i, j, others);
    }
  }

  lemma ManyKeysBuilt(log: seq<Event>, key: Key, i: nat, j: nat, others: set<Key>)
    requires BuiltAt(log, key, i) && BuiltAt(log, key, j) && log[j].entry.start < log[i].entry.start + CACHE_TTL
    requires key !in others && forall k :: k in others ==> BuiltWithin(log, k, log[i].entry.start, log[j].entry.start)
    ensures |KeysBuiltWithin(log, log[i].entry.start, log[i].entry.start + CACHE_TTL)| > |others|
  {
    AllBuiltWithin(log, key, i, j, others);
    SubsetSize(others + {key}, KeysBuiltWithin(log, log[i].entry.start, log[i].entry.start + CACHE_TTL));
  }

  lemma AllBuiltWithin(log: seq<Event>, key: Key, i: nat, j: nat, others: set<Key>)
    requires BuiltAt(log, key, i) && BuiltAt(log, key, j) && log[j].entry.start < log[i].entry.start + CACHE_TTL
    requires forall k :: k in others ==> BuiltWithin(log, k, log[i].entry.start, log[j].entry.start)
    ensures others + {key} <= KeysBuiltWithin(log, log[i].entry.start, log[i].entry.start + CACHE_TTL)
  {
    forall k | k in others ensures k in KeysBuiltWithin(log, log[i].entry.start, log[i].entry.start + CACHE_TTL) {
      assert BuiltWithin(log, k, log[i].entry.start, log[j].entry.start);
    }
  }

  // ---- one key more than the cache holds ----

  function KeyNo(n: nat): Key { Key(n, n, "day") }

  /** One request that builds and stores. */
  function Request(key: Key, victim: Key): seq<Step> { [Arrive(0, key), Acquire(0), Store(0, 0, victim)] }

  function Requests(n: nat): seq<Step> {
    if n == 0 then [] else Requests(n - 1) + Request(KeyNo(n - 1), KeyNo(0))
  }

  /** Nobody waits or builds. */
  ghost predicate Quiet(s: State) { s.holder == None && ControlOf(s, 0).Idle? }

  lemma RequestRuns(capacity: nat, steps: seq<Step>, key: Key, victim: Key) returns (t: State)
    requires Run(capacity, steps).Some? && Quiet(Run(capacity, steps).value) && key !in Run(capacity, steps).value.cache
    requires |Run(capacity, steps).value.cache| >= capacity ==> Oldest(Run(capacity, steps).value.cache, victim)
    ensures Run(capacity, steps + Request(key, victim)) == Some(t) && Quiet(t)
    ensures
      var s := Run(capacity, steps).value;
      var full := |s.cache| >= capacity;
      var entry := Entry(s.clock, 0);
      && t.clock == s.clock && t.cache == (if full then s.cache - {victim} else s.cache)[key := entry]
      && t.log == s.log + (if full then [Evicted(victim)] else []) + [Built(key, entry)]
  {
    var s := Run(capacity, steps).value;
    RunSnoc(capacity, steps, Arrive(0, key));
    RunSnoc(capacity, steps + [Arrive(0, key)], Acquire(0));
    RunSnoc(capacity, steps + [Arrive(0, key)] + [Acquire(0)], Store(0, 0, victim));
    t := Apply(capacity, Apply(capacity, Apply(capacity, s, Arrive(0, key)), Acquire(0)), Store(0, 0, victim));
    assert steps + Request(key, victim) == steps + [Arrive(0, key)] + [Acquire(0)] + [Store(0, 0, victim)];
  }

  ghost function FirstKeys(n: nat): set<Key> { set i: nat | i < n :: KeyNo(i) }

  lemma {:induction false} FirstKeysCount(n: nat)
    ensures |FirstKeys(n)| == n && KeyNo(n) !in FirstKeys(n) && FirstKeys(n + 1) == FirstKeys(n) + {KeyNo(n)}
  {
    if n > 0 {
      FirstKeysCount(n - 1);
    }
  }

  ghost predicate AllAtStart(cache: map<Key, Entry>) { forall k :: k in cache ==> cache[k] == Entry(0.0, 0) }

  /** The builds in the log all began at time zero, and are builds of `keys`. */
  ghost predicate LogsStart(log: seq<Event>, keys: set<Key>) {
    && (forall i :: 0 <= i < |log| && log[i].Built? ==> log[i].entry.start == 0.0 && log[i].key in keys)
    && (forall k :: k in keys ==> exists i: nat :: BuiltAt(log, k, i))
  }

  lemma LogGrows(log: seq<Event>, keys: set<Key>, middle: seq<Event>, key: Key)
    requires LogsStart(log, keys) && (middle == [] || exists v :: middle == [Evicted(v)])
    ensures LogsStart(log + middle + [Built(key, Entry(0.0, 0))], keys + {key})
  {
    var longer := log + middle + [Built(key, Entry(0.0, 0))];
    forall k | k in keys + {key} ensures exists i: nat :: BuiltAt(longer, k, i) {
      if k in keys {
        var i: nat :| BuiltAt(log, k, i);
        assert BuiltAt(longer, k, i);
      } else {
        assert BuiltAt(longer, k, |longer| - 1);
      }
    }
  }

  lemma BuiltFromStart(log: seq<Event>, keys: set<Key>)
    requires LogsStart(log, keys)
    ensures KeysBuiltWithin(log, 0.0, CACHE_TTL) == keys
  {
    forall k | k in keys ensures k in KeysBuiltWithin(log, 0.0, CACHE_TTL) {
      var i: nat :| BuiltAt(log, k, i);
    }
  }

  /** The cache holds the first `n` keys, all built at time zero. */
  ghost predicate Filled(s: State, n: nat) {
    && Quiet(s) && s.clock == 0.0 && AllAtStart(s.cache)
    && s.cache.Keys == FirstKeys(n) && LogsStart(s.log, FirstKeys(n))
    && if n == 0 then s.log == [] else BuiltAt(s.log, KeyNo(0), 0)
  }

  lemma OneMoreKey(cache: map<Key, Entry>, n: nat)
    requires AllAtStart(cache) && cache.Keys == FirstKeys(n)
    ensures
      var longer := cache[KeyNo(n) := Entry(0.0, 0)];
      AllAtStart(longer) && longer.Keys == FirstKeys(n + 1)
  {
    FirstKeysCount(n);
    assert cache[KeyNo(n) := Entry(0.0, 0)].Keys == cache.Keys + {KeyNo(n)};
  }

  lemma OneMoreBuild(log: seq<Event>, n: nat)
    requires LogsStart(log, FirstKeys(n))
    ensures LogsStart(log + [Built(KeyNo(n), Entry(0.0, 0))], FirstKeys(n + 1))
  {
    FirstKeysCount(n);
    LogGrows(log, FirstKeys(n), [], KeyNo(n));
    assert log + [] == log;
  }

  lemma OneMoreFilled(s: State, t: State, n: nat)
    requires Filled(s, n) && Quiet(t) && t.clock == s.clock
    requires t.cache == s.cache[KeyNo(n) := Entry(0.0, 0)] && t.log == s.log + [Built(KeyNo(n), Entry(0.0, 0))]
    ensures Filled(t, n + 1)
  {
    OneMoreKey(s.cache, n);
    OneMoreBuild(s.log, n);
    assert n > 0 ==> t.log[0] == s.log[0];
  }

  lemma FillStep(capacity: nat, steps: seq<Step>, s: State, n: nat) returns (t: State)
    requires n < capacity && Run(capacity, steps) == Some(s) && Filled(s, n)
    ensures Run(capacity, steps + Request(KeyNo(n), KeyNo(0))) == Some(t) && Filled(t, n + 1)
  {
    FirstKeysCount(n);
    assert |s.cache.Keys| == |s.cache|;
    t := RequestRuns(capacity, steps, KeyNo(n), KeyNo(0));
    assert s.log + [] == s.log;
    OneMoreFilled(s, t, n);
  }

  lemma {:induction false} RequestsFill(capacity: nat, n: nat)
    requires n <= capacity
    ensures Run(capacity, Requests(n)).Some? && Filled(Run(capacity, Requests(n)).value, n)
  {
    if n == 0 {
      StartFilled();
    } else {
      var before := Requests(n - 1);
      RequestsFill(capacity, n - 1);
      var t := FillStep(capacity, before, Run(capacity, before).value, n - 1);
      assert Requests(n) == before + Request(KeyNo(n - 1), KeyNo(0));
    }
  }

  lemma StartFilled()
    ensures Filled(Start, 0)
  {
    FirstKeysCount(0);
  }

  /** A full cache makes room for one key more, and then again for its first key. */
  lemma Overfill(capacity: nat, steps: seq<Step>, s: State) returns (t: State, u: State)
    requires capacity > 0 && Run(capacity, steps) == Some(s) && Filled(s, capacity)
    ensures Run(capacity, steps + Request(KeyNo(capacity), KeyNo(0)) + Request(KeyNo(0), KeyNo(1))) == Some(u)
    ensures u.log == s.log + [Evicted(KeyNo(0))] + [Built(KeyNo(capacity), Entry(0.0, 0))]
                     + [Evicted(KeyNo(1))] + [Built(KeyNo(0), Entry(0.0, 0))]
  {
    FirstKeysCount(capacity);
    assert |s.cache.Keys| == |s.cache|;
    assert KeyNo(0) in FirstKeys(capacity) && (capacity > 1 ==> KeyNo(1) in FirstKeys(capacity));
    t := RequestRuns(capacity, steps, KeyNo(capacity), KeyNo(0));
    assert t.cache.Keys == s.cache.Keys - {KeyNo(0)} + {KeyNo(capacity)};
    assert |t.cache.Keys| == |t.cache|;
    u := RequestRuns(capacity, steps + Request(KeyNo(capacity), KeyNo(0)), KeyNo(0), KeyNo(1));
  }

  lemma OverfilledLog(log: seq<Event>, capacity: nat)
    requires LogsStart(log, FirstKeys(capacity))
    ensures LogsStart(log + [Evicted(KeyNo(0))] + [Built(KeyNo(capacity), Entry(0.0, 0))]
                      + [Evicted(KeyNo(1))] + [Built(KeyNo(0), Entry(0.0, 0))], FirstKeys(capacity + 1))
  {
    FirstKeysCount(capacity);
    LogGrows(log, FirstKeys(capacity), [Evicted(KeyNo(0))], KeyNo(capacity));
    var longer := log + [Evicted(KeyNo(0))] + [Built(KeyNo(capacity), Entry(0.0, 0))];
    LogGrows(longer, FirstKeys(capacity + 1), [Evicted(KeyNo(1))], KeyNo(0));
    assert FirstKeys(capacity + 1) + {KeyNo(0)} == FirstKeys(capacity + 1);
  }

  /** With one key more than the cache holds, some run builds the first key twice at the same time. */
  lemma EarlyRebuildExample(capacity: nat) returns (steps: seq<Step>, j: nat)
    requires capacity > 0
    ensures Run(capacity, steps).Some?
    ensures
      var log := Run(capacity, steps).value.log;
      && BuiltAt(log, KeyNo(0), 0) && BuiltAt(log, KeyNo(0), j) && 0 < j
      && log[j].entry.start == log[0].entry.start
      && |KeysBuiltWithin(log, log[0].entry.start, log[0].entry.start + CACHE_TTL)| == capacity + 1
  {
    RequestsFill(capacity, capacity);
    var s := Run(capacity, Requests(capacity)).value;
    var t, u := Overfill(capacity, Requests(capacity), s);
    steps := Requests(capacity) + Request(KeyNo(capacity), KeyNo(0)) + Request(KeyNo(0), KeyNo(1));
    j := |u.log| - 1;
    OverfilledLog(s.log, capacity);
    BuiltFromStart(u.log, FirstKeys(capacity + 1));
    FirstKeysCount(capacity + 1);
    assert u.log[0] == s.log[0];
  }
}
