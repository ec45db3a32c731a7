/** The keyed process-overview cache: the double check of OverviewCache per key,
    plus eviction of the oldest entry when the cache is full. */
module ProcessCache {
  import opened Wrappers

  const CACHE_TTL: real := 300.0
  const MAX_CACHE_ENTRIES: nat := 128

  /** A request key: first day, last day and granularity. */
  datatype Key = Key(fromDay: int, toDay: int, granularity: string)

  datatype Entry = Entry(start: real, overview: int)

  /** What happened to the cache, oldest first. */
  datatype Event = Built(key: Key, entry: Entry) | Evicted(key: Key)

  datatype Hit = Hit(key: Key, checked: real, overview: int)

  datatype Control = Idle | Waiting(key: Key) | Building(key: Key, now: real)

  datatype State = State(
    clock: real,
    cache: map<Key, Entry>,
    holder: Option<int>,
    control: map<int, Control>,
    log: seq<Event>,
    hits: seq<Hit>)

  function ControlOf(s: State, p: int): Control {
    if p in s.control then s.control[p] else Idle
  }

  predicate Fresh(s: State, key: Key) {
    key in s.cache && s.clock - s.cache[key].start < CACHE_TTL
  }

  function Serve(s: State, key: Key): State
    requires key in s.cache
  {
    s.(hits := s.hits + [Hit(key, s.clock, s.cache[key].overview)])
  }

  predicate Oldest(cache: map<Key, Entry>, key: Key) {
    key in cache && forall k :: k in cache ==> cache[key].start <= cache[k].start
  }

  /** `victim` in Store is the entry that eviction picks; it matters only when the cache is full. */
  datatype Step =
    | Tick(elapsed: real)
    | Arrive(p: int, key: Key)
    | Acquire(p: int)
    | Store(p: int, overview: int, victim: Key)
    | Fail(p: int)
    | Cancel(p: int)

  predicate Enabled(capacity: nat, s: State, step: Step) {
    match step
    case Tick(elapsed) => elapsed >= 0.0
    case Arrive(p, _) => ControlOf(s, p).Idle?
    case Acquire(p) => ControlOf(s, p).Waiting? && s.holder == None
    case Store(p, _, victim) => ControlOf(s, p).Building? && (|s.cache| >= capacity ==> Oldest(s.cache, victim))
    case Fail(p) => ControlOf(s, p).Building?
    case Cancel(p) => ControlOf(s, p).Waiting?
  }

  function Apply(capacity: nat, s: State, step: Step): State
    requires Enabled(capacity, s, step)
  {
    match step
    case Tick(elapsed) => s.(clock := s.clock + elapsed)
    case Arrive(p, key) =>
      if Fresh(s, key) then Serve(s, key) else s.(control := s.control[p := Waiting(key)])
    case Acquire(p) =>
      var key := ControlOf(s, p).key;
      if Fresh(s, key) then Serve(s, key).(control := s.control[p := Idle])
      else s.(holder := Some(p), control := s.control[p := Building(key, s.clock)])
    case Store(p, overview, victim) =>
      var key := ControlOf(s, p).key;
      var entry := Entry(ControlOf(s, p).now, overview);
      var full := |s.cache| >= capacity;
      s.(cache := (if full then s.cache - {victim} else s.cache)[key := entry],
         log := s.log + (if full then [Evicted(victim)] else []) + [Built(key, entry)],
         holder := None, control := s.control[p := Idle])
    case Fail(p) => s.(holder := None, control := s.control[p := Idle])
    case Cancel(p) => s.(control := s.control[p := Idle])
  }

  const Start := State(0.0, map[], None, map[], [], [])

  function Run(capacity: nat, steps: seq<Step>): Option<State> {
    if steps == [] then Some(Start)
    else
      var before := Run(capacity, steps[..|steps| - 1]);
      var step := steps[|steps| - 1];
      if before.Some? && Enabled(capacity, before.value, step) then Some(Apply(capacity, before.value, step)) else None
  }

  /** The cache that a log of events leaves behind. */
  function Replay(log: seq<Event>): map<Key, Entry> {
    if log == [] then map[]
    else
      var before := Replay(log[..|log| - 1]);
      match log[|log| - 1]
      case Built(key, entry) => before[key := entry]
      case Evicted(key) => before - {key}
  }

  ghost predicate HolderBuilds(s: State) {
    forall p :: ControlOf(s, p).Building? ==>
      && s.holder == Some(p)
      && ControlOf(s, p).now <= s.clock
      && (ControlOf(s, p).key in s.cache ==> s.cache[ControlOf(s, p).key].start + CACHE_TTL <= ControlOf(s, p).now)
  }

  /** The lock is held exactly by a request that builds. */
  ghost predicate LockIsBuilder(s: State) {
    forall p :: s.holder == Some(p) <==> ControlOf(s, p).Building?
  }

  predicate KeptBetween(log: seq<Event>, key: Key, i: nat, j: nat)
    requires i <= j <= |log|
  {
    forall k :: i <= k < j ==> log[k] != Evicted(key)
  }

  predicate BuiltAt(log: seq<Event>, key: Key, i: nat) {
    i < |log| && log[i].Built? && log[i].key == key
  }

  ghost predicate BuildsSpaced(s: State) {
    && (forall i :: 0 <= i < |s.log| && s.log[i].Built? ==> s.log[i].entry.start <= s.clock)
    && forall key, i: nat, j: nat ::
        BuiltAt(s.log, key, i) && BuiltAt(s.log, key, j) && i < j && KeptBetween(s.log, key, i, j) ==>
          s.log[i].entry.start + CACHE_TTL <= s.log[j].entry.start
  }

  predicate HitFrom(h: Hit, e: Event) {
    && e.Built? && h.key == e.key && h.overview == e.entry.overview
    && e.entry.start <= h.checked < e.entry.start + CACHE_TTL
  }

  ghost predicate HitsMatch(s: State) {
    forall h :: h in s.hits ==> exists i :: 0 <= i < |s.log| && HitFrom(h, s.log[i])
  }

  ghost predicate Invariant(capacity: nat, s: State) {
    && |s.cache| <= capacity
    && s.cache == Replay(s.log)
    && HolderBuilds(s) && LockIsBuilder(s) && BuildsSpaced(s) && HitsMatch(s)
  }

  /** A build that was never evicted is still cached, unless a later build of its key replaced it. */
  lemma {:induction false} ReplayKeepsLastBuild(log: seq<Event>, key: Key, i: nat) returns (last: nat)
    requires BuiltAt(log, key, i) && KeptBetween(log, key, i, |log|)
    ensures i <= last && BuiltAt(log, key, last)
    ensures key in Replay(log) && Replay(log)[key] == log[last].entry
  {
    var n := |log| - 1;
    if log[n].Built? && log[n].key == key {
      last := n;
    } else {
      last := ReplayKeepsLastBuild(log[..n], key, i);
    }
  }

  lemma {:induction false} ReplayIsBuilt(log: seq<Event>, key: Key) returns (i: nat)
    requires key in Replay(log)
    ensures BuiltAt(log, key, i) && Replay(log)[key] == log[i].entry
  {
    var n := |log| - 1;
    if log[n].Built? && log[n].key == key {
      i := n;
    } else {
      i := ReplayIsBuilt(log[..n], key);
    }
  }

  lemma KeptInPrefix(log: seq<Event>, longer: seq<Event>, key: Key, i: nat, j: nat)
    requires i <= j <= |log| <= |longer| && longer[..|log|] == log && KeptBetween(longer, key, i, j)
    ensures KeptBetween(log, key, i, j)
  {
    forall k | i <= k < j ensures log[k] != Evicted(key) {
      assert longer[..|log|][k] == longer[k];
    }
  }

  /** A build about to be stored is spaced from every build of its key that was kept. */
  lemma NewBuildSpaced(capacity: nat, s: State, p: int, key: Key, i: nat)
    requires Invariant(capacity, s) && ControlOf(s, p).Building? && ControlOf(s, p).key == key
    requires BuiltAt(s.log, key, i) && KeptBetween(s.log, key, i, |s.log|)
    ensures s.log[i].entry.start + CACHE_TTL <= ControlOf(s, p).now
  {
    var last := ReplayKeepsLastBuild(s.log, key, i);
    if i < last {
      assert KeptBetween(s.log, key, i, last);
      assert s.log[i].entry.start + CACHE_TTL <= s.log[last].entry.start;
    }
  }

  lemma StoreKeepsSpacing(capacity: nat, s: State, step: Step)
    requires Invariant(capacity, s) && Enabled(capacity, s, step) && step.Store?
    ensures BuildsSpaced(Apply(capacity, s, step))
  {
    var t := Apply(capacity, s, step);
    assert t.log[..|s.log|] == s.log;
    forall key, i: nat, j: nat |
      BuiltAt(t.log, key, i) && BuiltAt(t.log, key, j) && i < j && KeptBetween(t.log, key, i, j)
      ensures t.log[i].entry.start + CACHE_TTL <= t.log[j].entry.start
    {
      assert BuiltAt(s.log, key, i);
      if j < |s.log| {
        assert BuiltAt(s.log, key, j);
        KeptInPrefix(s.log, t.log, key, i, j);
      } else {
        KeptInPrefix(s.log, t.log, key, i, |s.log|);
        NewBuildSpaced(capacity, s, step.p, key, i);
      }
    }
  }

  lemma StoreKeepsCache(capacity: nat, s: State, step: Step)
    requires capacity > 0
    requires Invariant(capacity, s) && Enabled(capacity, s, step) && step.Store?
    ensures |Apply(capacity, s, step).cache| <= capacity
    ensures Apply(capacity, s, step).cache == Replay(Apply(capacity, s, step).log)
  {
    var t := Apply(capacity, s, step);
    var key := ControlOf(s, step.p).key;
    var middle := s.log + (if |s.cache| >= capacity then [Evicted(step.victim)] else []);
    assert t.log[..|t.log| - 1] == middle;
    var kept := if |s.cache| >= capacity then s.cache - {step.victim} else s.cache;
    if |s.cache| >= capacity {
      assert middle[..|middle| - 1] == s.log;
      assert kept.Keys == s.cache.Keys - {step.victim};
    } else {
      assert middle == s.log;
    }
    assert t.cache.Keys == kept.Keys + {key};
  }

  lemma StepKeepsHolder(capacity: nat, s: State, step: Step)
    requires Invariant(capacity, s) && Enabled(capacity, s, step)
    ensures HolderBuilds(Apply(capacity, s, step))
  {
    var t := Apply(capacity, s, step);
    forall p | ControlOf(t, p).Building?
      ensures t.holder == Some(p) && ControlOf(t, p).now <= t.clock
      ensures ControlOf(t, p).key in t.cache ==> t.cache[ControlOf(t, p).key].start + CACHE_TTL <= ControlOf(t, p).now
    {
      HolderStays(capacity, s, step, p);
    }
  }

  lemma HolderStays(capacity: nat, s: State, step: Step, p: int)
    requires Invariant(capacity, s) && Enabled(capacity, s, step)
    requires ControlOf(Apply(capacity, s, step), p).Building?
    ensures
      var t := Apply(capacity, s, step);
      var building := ControlOf(t, p);
      && t.holder == Some(p) && building.now <= t.clock
      && (building.key in t.cache ==> t.cache[building.key].start + CACHE_TTL <= building.now)
  {
    assert ControlOf(Apply(capacity, s, step), p) == ControlOf(s, p) || (!step.Tick? && step.p == p);
  }

  lemma StepKeepsLock(capacity: nat, s: State, step: Step)
    requires LockIsBuilder(s) && Enabled(capacity, s, step)
    ensures LockIsBuilder(Apply(capacity, s, step))
  {
  }

  lemma StepKeepsHits(capacity: nat, s: State, step: Step)
    requires Invariant(capacity, s) && Enabled(capacity, s, step)
    ensures HitsMatch(Apply(capacity, s, step))
  {
    var t := Apply(capacity, s, step);
    forall h | h in t.hits
      ensures exists i :: 0 <= i < |t.log| && HitFrom(h, t.log[i])
    {
      if h in s.hits {
        var i :| 0 <= i < |s.log| && HitFrom(h, s.log[i]);
        assert t.log[i] == s.log[i];
      } else {
        var i := ReplayIsBuilt(s.log, h.key);
        assert HitFrom(h, t.log[i]);
      }
    }
  }

  lemma StepKeepsInvariant(capacity: nat, s: State, step: Step)
    requires capacity > 0
    requires Invariant(capacity, s) && Enabled(capacity, s, step)
    ensures Invariant(capacity, Apply(capacity, s, step))
  {
    StepKeepsHolder(capacity, s, step);
    StepKeepsLock(capacity, s, step);
    StepKeepsHits(capacity, s, step);
    if step.Store? {
      StoreKeepsCache(capacity, s, step);
      StoreKeepsSpacing(capacity, s, step);
    } else {
      OtherStepsKeepLog(capacity, s, step);
    }
  }

  lemma OtherStepsKeepLog(capacity: nat, s: State, step: Step)
    requires Invariant(capacity, s) && Enabled(capacity, s, step) && !step.Store?
    ensures
      var t := Apply(capacity, s, step);
      t.log == s.log && t.cache == s.cache && BuildsSpaced(t)
  {
    assert Apply(capacity, s, step).clock >= s.clock;
  }

  lemma {:induction false} ReachableInvariant(capacity: nat, steps: seq<Step>)
    requires capacity > 0 && Run(capacity, steps).Some?
    ensures Invariant(capacity, Run(capacity, steps).value)
  {
    if steps != [] {
      ReachableInvariant(capacity, steps[..|steps| - 1]);
      StepKeepsInvariant(capacity, Run(capacity, steps[..|steps| - 1]).value, steps[|steps| - 1]);
    }
  }

  /** The cache never exceeds its entry bound. */
  lemma BoundHolds(steps: seq<Step>)
    requires Run(MAX_CACHE_ENTRIES, steps).Some?
    ensures |Run(MAX_CACHE_ENTRIES, steps).value.cache| <= MAX_CACHE_ENTRIES
  {
    ReachableInvariant(MAX_CACHE_ENTRIES, steps);
  }

  /** A cached answer was built for the request's own key, less than one lifetime before. */
  lemma HitsMatchTheirKey(capacity: nat, steps: seq<Step>, h: Hit)
    requires capacity > 0 && Run(capacity, steps).Some? && h in Run(capacity, steps).value.hits
    ensures exists e :: e in Run(capacity, steps).value.log && HitFrom(h, e)
  {
    ReachableInvariant(capacity, steps);
    var s := Run(capacity, steps).value;
    var i :| 0 <= i < |s.log| && HitFrom(h, s.log[i]);
    assert s.log[i] in s.log;
  }

  /** A key is rebuilt within one lifetime only if it was evicted in between. */
  lemma EarlyRebuildMeansEviction(capacity: nat, steps: seq<Step>, key: Key, i: nat, j: nat)
    requires capacity > 0 && Run(capacity, steps).Some?
    requires
      var log := Run(capacity, steps).value.log;
      BuiltAt(log, key, i) && BuiltAt(log, key, j) && i < j && log[j].entry.start < log[i].entry.start + CACHE_TTL
    ensures exists k :: i < k < j && Run(capacity, steps).value.log[k] == Evicted(key)
  {
    ReachableInvariant(capacity, steps);
    EvictedBetween(Run(capacity, steps).value, key, i, j);
  }

  lemma EvictedBetween(s: State, key: Key, i: nat, j: nat)
    requires BuildsSpaced(s) && BuiltAt(s.log, key, i) && BuiltAt(s.log, key, j) && i < j
    requires s.log[j].entry.start < s.log[i].entry.start + CACHE_TTL
    ensures exists k :: i < k < j && s.log[k] == Evicted(key)
  {
    assert !KeptBetween(s.log, key, i, j);
    var k :| i <= k < j && s.log[k] == Evicted(key);
    assert i < k;
  }

  // ---- the lock is released, and the clock and the builds are those of the run ----

  lemma RunSnoc(capacity: nat, steps: seq<Step>, step: Step)
    requires Run(capacity, steps).Some? && Enabled(capacity, Run(capacity, steps).value, step)
    ensures Run(capacity, steps + [step]) == Some(Apply(capacity, Run(capacity, steps).value, step))
  {
    assert (steps + [step])[..|steps|] == steps;
  }

  /** A waiting request is never stuck: when a build runs it can end, and the lock is then free. */
  lemma WaiterProceeds(capacity: nat, steps: seq<Step>, p: int) returns (more: seq<Step>)
    requires capacity > 0 && Run(capacity, steps).Some? && ControlOf(Run(capacity, steps).value, p).Waiting?
    ensures Run(capacity, steps + more).Some? && !ControlOf(Run(capacity, steps + more).value, p).Waiting?
    ensures (forall q :: !ControlOf(Run(capacity, steps).value, q).Building?) ==> more == [Acquire(p)]
    ensures forall q :: ControlOf(Run(capacity, steps).value, q).Building? ==> more == [Fail(q), Acquire(p)]
  {
    var s := Run(capacity, steps).value;
    ReachableInvariant(capacity, steps);
    if s.holder == None {
      more := [Acquire(p)];
      RunSnoc(capacity, steps, Acquire(p));
    } else {
      var q := s.holder.value;
      more := [Fail(q), Acquire(p)];
      assert ControlOf(s, q).Building?;
      RunSnoc(capacity, steps, Fail(q));
      RunSnoc(capacity, steps + [Fail(q)], Acquire(p));
      assert steps + more == steps + [Fail(q)] + [Acquire(p)];
    }
  }

  /** A request that gives up, waiting or building, changes neither cache nor answers nor any other
      request, and leaves no lock behind. */
  lemma GivingUpLeavesNothing(capacity: nat, steps: seq<Step>, p: int, step: Step)
    requires capacity > 0 && Run(capacity, steps).Some? && Enabled(capacity, Run(capacity, steps).value, step)
    requires step == Fail(p) || step == Cancel(p)
    ensures
      var s, after := Run(capacity, steps).value, Run(capacity, steps + [step]);
      && after.Some? && after.value.cache == s.cache && after.value.log == s.log && after.value.hits == s.hits
      && ControlOf(after.value, p).Idle? && (forall q :: q != p ==> ControlOf(after.value, q) == ControlOf(s, q))
      && (after.value.holder == None <==> forall q :: q != p ==> !ControlOf(s, q).Building?)
  {
    RunSnoc(capacity, steps, step);
    ReachableInvariant(capacity, steps);
    ReachableInvariant(capacity, steps + [step]);
    var t := Run(capacity, steps + [step]).value;
    if t.holder.Some? {
      assert ControlOf(t, t.holder.value).Building?;
    }
  }

  /** The time that has passed. */
  function Elapsed(steps: seq<Step>): real {
    if steps == [] then 0.0
    else
      var last := steps[|steps| - 1];
      Elapsed(steps[..|steps| - 1]) + if last.Tick? then last.elapsed else 0.0
  }

  /** When `p` last took the lock. */
  function TookLock(steps: seq<Step>, p: int): real {
    if steps == [] then 0.0
    else if steps[|steps| - 1] == Acquire(p) then Elapsed(steps)
    else TookLock(steps[..|steps| - 1], p)
  }

  /** The key that `p` last arrived with. */
  function KeyOf(steps: seq<Step>, p: int): Option<Key> {
    if steps == [] then None
    else
      match steps[|steps| - 1]
      case Arrive(q, key) => if p == q then Some(key) else KeyOf(steps[..|steps| - 1], p)
      case _ => KeyOf(steps[..|steps| - 1], p)
  }

  /** The builds that returned: key, moment its request took the lock, and overview. */
  ghost function Returned(steps: seq<Step>): seq<(Option<Key>, real, int)> {
    if steps == [] then []
    else
      var before := steps[..|steps| - 1];
      match steps[|steps| - 1]
      case Store(p, overview, _) => Returned(before) + [(KeyOf(before, p), TookLock(before, p), overview)]
      case _ => Returned(before)
  }

  ghost function Logged(log: seq<Event>): seq<(Option<Key>, real, int)> {
    if log == [] then []
    else
      Logged(log[..|log| - 1])
      + match log[|log| - 1]
        case Built(key, entry) => [(Some(key), entry.start, entry.overview)]
        case Evicted(_) => []
  }

  lemma LoggedStore(log: seq<Event>, middle: seq<Event>, key: Key, entry: Entry)
    requires middle == [] || exists v :: middle == [Evicted(v)]
    ensures Logged(log + middle + [Built(key, entry)]) == Logged(log) + [(Some(key), entry.start, entry.overview)]
  {
    var all := log + middle + [Built(key, entry)];
    assert all[..|all| - 1] == log + middle;
    if middle != [] {
      assert (log + middle)[..|log|] == log;
      assert Logged(log + middle) == Logged(log) + [];
    } else {
      assert log + middle == log;
    }
  }

  /** What a request carries: its key from arrival on, and the time it took the lock. */
  ghost predicate CarriesHistory(s: State, steps: seq<Step>) {
    forall p ::
      && (ControlOf(s, p).Waiting? ==> KeyOf(steps, p) == Some(ControlOf(s, p).key))
      && (ControlOf(s, p).Building? ==>
            KeyOf(steps, p) == Some(ControlOf(s, p).key) && TookLock(steps, p) == ControlOf(s, p).now)
  }

  lemma StepCarries(capacity: nat, s: State, before: seq<Step>, step: Step)
    requires Enabled(capacity, s, step) && s.clock == Elapsed(before) && CarriesHistory(s, before)
    ensures CarriesHistory(Apply(capacity, s, step), before + [step])
    ensures Apply(capacity, s, step).clock == Elapsed(before + [step])
  {
    assert (before + [step])[..|before|] == before;
    var t := Apply(capacity, s, step);
    assert forall p :: ControlOf(t, p) == ControlOf(s, p) || (!step.Tick? && step.p == p);
  }

  lemma ReturnedSnoc(before: seq<Step>, step: Step)
    ensures
      Returned(before + [step]) ==
      Returned(before)
      + if step.Store? then [(KeyOf(before, step.p), TookLock(before, step.p), step.overview)] else []
  {
    assert (before + [step])[..|before|] == before;
    assert step.Store? || Returned(before) == Returned(before) + [];
  }

  lemma StepLogs(capacity: nat, s: State, before: seq<Step>, step: Step)
    requires Enabled(capacity, s, step) && CarriesHistory(s, before) && Logged(s.log) == Returned(before)
    ensures Logged(Apply(capacity, s, step).log) == Returned(before + [step])
  {
    ReturnedSnoc(before, step);
    if step.Store? {
      StoreLogs(capacity, s, step, Entry(ControlOf(s, step.p).now, step.overview));
    } else {
      assert Apply(capacity, s, step).log == s.log;
    }
  }

  lemma StoreLogs(capacity: nat, s: State, step: Step, entry: Entry)
    requires Enabled(capacity, s, step) && step.Store? && entry == Entry(ControlOf(s, step.p).now, step.overview)
    ensures
      Logged(Apply(capacity, s, step).log) ==
      Logged(s.log) + [(Some(ControlOf(s, step.p).key), entry.start, entry.overview)]
  {
    var middle := if |s.cache| >= capacity then [Evicted(step.victim)] else [];
    LoggedStore(s.log, middle, ControlOf(s, step.p).key, entry);
  }

  lemma {:induction false} RunIsHistory(capacity: nat, steps: seq<Step>)
    requires Run(capacity, steps).Some?
    ensures Run(capacity, steps).value.clock == Elapsed(steps)
    ensures CarriesHistory(Run(capacity, steps).value, steps)
    ensures Logged(Run(capacity, steps).value.log) == Returned(steps)
  {
    if steps != [] {
      var before, step := steps[..|steps| - 1], steps[|steps| - 1];
      RunIsHistory(capacity, before);
      assert steps == before + [step];
      StepCarries(capacity, Run(capacity, before).value, before, step);
      StepLogs(capacity, Run(capacity, before).value, before, step);
    }
  }

  // ---- which requests are answered from the cache ----

  /** The latest build of the key, not evicted since. */
  ghost predicate LatestKept(log: seq<Event>, key: Key, i: nat) {
    BuiltAt(log, key, i) && forall k: nat | i < k < |log| :: log[k] != Evicted(key) && !BuiltAt(log, key, k)
  }

  ghost predicate RecentAt(log: seq<Event>, key: Key, now: real, i: nat) {
    LatestKept(log, key, i) && now - log[i].entry.start < 300.0
  }

  lemma {:induction false} LatestIsCached(log: seq<Event>, key: Key, i: nat)
    requires LatestKept(log, key, i)
    ensures key in Replay(log) && Replay(log)[key] == log[i].entry
  {
    var n := |log| - 1;
    if i < n {
      assert log[n] != Evicted(key) && !BuiltAt(log, key, n);
      forall k: nat | i < k < n ensures log[..n][k] != Evicted(key) && !BuiltAt(log[..n], key, k) {
        assert log[k] != Evicted(key) && !BuiltAt(log, key, k);
      }
      LatestIsCached(log[..n], key, i);
    }
  }

  lemma {:induction false} CachedIsLatest(log: seq<Event>, key: Key) returns (i: nat)
    requires key in Replay(log)
    ensures LatestKept(log, key, i) && Replay(log)[key] == log[i].entry
  {
    var n := |log| - 1;
    if log[n].Built? && log[n].key == key {
      i := n;
    } else {
      i := CachedIsLatest(log[..n], key);
      forall k: nat | i < k < |log| ensures log[k] != Evicted(key) && !BuiltAt(log, key, k) {
        assert k == n || (log[..n][k] != Evicted(key) && !BuiltAt(log[..n], key, k));
      }
    }
  }

  /** A request for a key is answered from the cache exactly while the latest build of that key has
      not been evicted and began less than one lifetime ago; otherwise it queues, and builds once it
      has the lock. */
  lemma ServedIffRecent(capacity: nat, steps: seq<Step>, p: int, key: Key, step: Step)
    requires capacity > 0 && Run(capacity, steps).Some? && Enabled(capacity, Run(capacity, steps).value, step)
    requires step == Arrive(p, key) || (step == Acquire(p) && KeyOf(steps, p) == Some(key))
    ensures
      var s, after := Run(capacity, steps).value, Run(capacity, steps + [step]);
      && after.Some?
      && (forall i: nat | RecentAt(s.log, key, Elapsed(steps), i) ::
            && after.value.hits == s.hits + [Hit(key, Elapsed(steps), s.log[i].entry.overview)]
            && ControlOf(after.value, p).Idle?)
      && ((forall i: nat :: !RecentAt(s.log, key, Elapsed(steps), i)) ==>
            && after.value.hits == s.hits
            && ControlOf(after.value, p) == (if step.Arrive? then Waiting(key) else Building(key, Elapsed(steps))))
  {
    var s := Run(capacity, steps).value;
    RunSnoc(capacity, steps, step);
    RunIsHistory(capacity, steps);
    ReachableInvariant(capacity, steps);
    if key in s.cache {
      var i := CachedIsLatest(s.log, key);
      assert RecentAt(s.log, key, Elapsed(steps), i) <==> Fresh(s, key);
    }
    forall i: nat | RecentAt(s.log, key, Elapsed(steps), i) ensures Fresh(s, key) && s.cache[key] == s.log[i].entry {
      LatestIsCached(s.log, key, i);
    }
  }
}
