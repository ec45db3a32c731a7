/** The single-slot dashboard cache: checked, then checked again under a lock.
    Every request is a process; steps of different requests interleave freely. */
module OverviewCache {
  import opened Wrappers

  /** Cache lifetime in seconds of the monotonic clock. */
  const CACHE_TTL: real := 300.0

  /** A built overview and the clock reading taken just before its build began. */
  datatype Build = Build(start: real, overview: int)

  /** An answer served from the cache, and the clock reading of the check that allowed it. */
  datatype Hit = Hit(checked: real, overview: int)

  /** Where a request stands. */
  datatype Control = Idle | Waiting | Building(now: real)

  datatype State = State(
    clock: real,
    cache: Option<Build>,
    holder: Option<int>,           // the request that holds the lock
    control: map<int, Control>,    // absent requests are idle
    builds: seq<Build>,            // successful builds, in the order they were stored
    hits: seq<Hit>)                // answers served from the cache

  function ControlOf(s: State, p: int): Control {
    if p in s.control then s.control[p] else Idle
  }

  predicate Fresh(s: State) {
    s.cache.Some? && s.clock - s.cache.value.start < CACHE_TTL
  }

  function Serve(s: State): State
    requires s.cache.Some?
  {
    s.(hits := s.hits + [Hit(s.clock, s.cache.value.overview)])
  }

  datatype Step =
    | Tick(elapsed: real)
    | Arrive(p: int)                  // first check, outside the lock
    | Acquire(p: int)                 // lock taken, second check
    | Store(p: int, overview: int)    // the build returned
    | Fail(p: int)                    // the build raised
    | Cancel(p: int)                  // the request was cancelled while waiting for the lock

  predicate Enabled(s: State, step: Step) {
    match step
    case Tick(elapsed) => elapsed >= 0.0
    case Arrive(p) => ControlOf(s, p).Idle?
    case Acquire(p) => ControlOf(s, p).Waiting? && s.holder == None
    case Store(p, _) => ControlOf(s, p).Building?
    case Fail(p) => ControlOf(s, p).Building?
    case Cancel(p) => ControlOf(s, p).Waiting?
  }

  function Apply(s: State, step: Step): State
    requires Enabled(s, step)
  {
    match step
    case Tick(elapsed) => s.(clock := s.clock + elapsed)
    case Arrive(p) =>
      if Fresh(s) then Serve(s) else s.(control := s.control[p := Waiting])
    case Acquire(p) =>
      if Fresh(s) then Serve(s).(control := s.control[p := Idle])
      else s.(holder := Some(p), control := s.control[p := Building(s.clock)])
    case Store(p, overview) =>
      var build := Build(ControlOf(s, p).now, overview);
      s.(cache := Some(build), holder := None, control := s.control[p := Idle], builds := s.builds + [build])
    case Fail(p) => s.(holder := None, control := s.control[p := Idle])
    case Cancel(p) => s.(control := s.control[p := Idle])
  }

  const Start := State(0.0, None, None, map[], [], [])

  /** The states an interleaving can reach. */
  function Run(steps: seq<Step>): Option<State> {
    if steps == [] then Some(Start)
    else
      var before := Run(steps[..|steps| - 1]);
      var step := steps[|steps| - 1];
      if before.Some? && Enabled(before.value, step) then Some(Apply(before.value, step)) else None
  }

  /** The cache holds the last stored build, and nothing else. */
  predicate CacheIsLastBuild(s: State) {
    s.cache == (if s.builds == [] then None else Some(s.builds[|s.builds| - 1]))
  }

  /** Only the lock holder builds; it started after every stored build had expired. */
  ghost predicate HolderBuilds(s: State) {
    forall p :: ControlOf(s, p).Building? ==>
      && s.holder == Some(p)
      && ControlOf(s, p).now <= s.clock
      && (s.cache.Some? ==> s.cache.value.start + CACHE_TTL <= ControlOf(s, p).now)
  }

  /** The lock is held exactly by a request that builds. */
  ghost predicate LockIsBuilder(s: State) {
    forall p :: s.holder == Some(p) <==> ControlOf(s, p).Building?
  }

  ghost predicate BuildsSpaced(s: State) {
    && (forall i :: 0 <= i < |s.builds| ==> s.builds[i].start <= s.clock)
    && (forall i :: 0 < i < |s.builds| ==> s.builds[i - 1].start + CACHE_TTL <= s.builds[i].start)
  }

  predicate HitFrom(h: Hit, b: Build) {
    h.overview == b.overview && b.start <= h.checked < b.start + CACHE_TTL
  }

  ghost predicate HitsFresh(s: State) {
    forall h :: h in s.hits ==> exists i :: 0 <= i < |s.builds| && HitFrom(h, s.builds[i])
  }

  ghost predicate Invariant(s: State) {
    CacheIsLastBuild(s) && HolderBuilds(s) && LockIsBuilder(s) && BuildsSpaced(s) && HitsFresh(s)
  }

  lemma StepKeepsInvariant(s: State, step: Step)
    requires Invariant(s) && Enabled(s, step)
    ensures Invariant(Apply(s, step))
  {
    var t := Apply(s, step);
    forall p ensures ControlOf(t, p) == ControlOf(s, p) || (!step.Tick? && step.p == p) {
    }
    forall h | h in t.hits
      ensures exists i :: 0 <= i < |t.builds| && HitFrom(h, t.builds[i])
    {
      if h in s.hits {
        var i :| 0 <= i < |s.builds| && HitFrom(h, s.builds[i]);
        assert t.builds[i] == s.builds[i];
      } else {
        assert HitFrom(h, t.builds[|t.builds| - 1]);
      }
    }
  }

  lemma {:induction false} ReachableInvariant(steps: seq<Step>)
    requires Run(steps).Some?
    ensures Invariant(Run(steps).value)
  {
    if steps != [] {
      ReachableInvariant(steps[..|steps| - 1]);
      StepKeepsInvariant(Run(steps[..|steps| - 1]).value, steps[|steps| - 1]);
    }
  }

  /** In every interleaving at most one build runs at a time. */
  lemma OneBuildAtATime(steps: seq<Step>, p: int, q: int)
    requires Run(steps).Some?
    requires ControlOf(Run(steps).value, p).Building? && ControlOf(Run(steps).value, q).Building?
    ensures p == q
  {
    ReachableInvariant(steps);
  }

  /** Any two successful builds begin at least one lifetime apart. */
  lemma {:induction false} BuildsOneLifetimeApart(steps: seq<Step>, i: nat, j: nat)
    requires Run(steps).Some?
    requires i < j < |Run(steps).value.builds|
    ensures Run(steps).value.builds[i].start + CACHE_TTL <= Run(steps).value.builds[j].start
    decreases j - i
  {
    ReachableInvariant(steps);
    if i + 1 < j {
      BuildsOneLifetimeApart(steps, i, j - 1);
    }
  }

  /** Every cached answer was built less than one lifetime before its check. */
  lemma HitsAreFresh(steps: seq<Step>, h: Hit)
    requires Run(steps).Some? && h in Run(steps).value.hits
    ensures exists b :: b in Run(steps).value.builds && HitFrom(h, b)
  {
    ReachableInvariant(steps);
    var s := Run(steps).value;
    var i :| 0 <= i < |s.builds| && HitFrom(h, s.builds[i]);
    assert s.builds[i] in s.builds;
  }

  // ---- the lock is released, and the clock and the builds are those of the run ----

  /** A waiting request is never stuck: when a build runs it can end, and the lock is then free.
      The request leaves the queue, with an answer from the cache or with a build of its own. */
  lemma WaiterProceeds(steps: seq<Step>, p: int) returns (more: seq<Step>)
    requires Run(steps).Some? && ControlOf(Run(steps).value, p).Waiting?
    ensures Run(steps + more).Some? && !ControlOf(Run(steps + more).value, p).Waiting?
    ensures (forall q :: !ControlOf(Run(steps).value, q).Building?) ==> more == [Acquire(p)]
    ensures forall q :: ControlOf(Run(steps).value, q).Building? ==> more == [Fail(q), Acquire(p)]
  {
    var s := Run(steps).value;
    ReachableInvariant(steps);
    if s.holder == None {
      more := [Acquire(p)];
      RunOne(steps, Acquire(p));
    } else {
      var q := s.holder.value;
      more := [Fail(q), Acquire(p)];
      assert ControlOf(s, q).Building?;
      RunOne(steps, Fail(q));
      RunOne(steps + [Fail(q)], Acquire(p));
      assert steps + more == steps + [Fail(q)] + [Acquire(p)];
    }
  }

  lemma RunOne(steps: seq<Step>, step: Step)
    requires Run(steps).Some? && Enabled(Run(steps).value, step)
    ensures Run(steps + [step]) == Some(Apply(Run(steps).value, step))
  {
    assert (steps + [step])[..|steps|] == steps;
  }

  /** A request that gives up, waiting or building, changes neither cache nor answers nor any other
      request, and leaves no lock behind: then as before a waiting request can take it unless one builds. */
  lemma GivingUpLeavesNothing(steps: seq<Step>, p: int, step: Step)
    requires Run(steps).Some? && (step == Fail(p) || step == Cancel(p)) && Enabled(Run(steps).value, step)
    ensures
      var s, after := Run(steps).value, Run(steps + [step]);
      && after.Some? && after.value.cache == s.cache && after.value.builds == s.builds && after.value.hits == s.hits
      && ControlOf(after.value, p).Idle? && (forall q :: q != p ==> ControlOf(after.value, q) == ControlOf(s, q))
      && (after.value.holder == None <==> forall q :: q != p ==> !ControlOf(s, q).Building?)
  {
    var s := Run(steps).value;
    RunOne(steps, step);
    ReachableInvariant(steps);
    ReachableInvariant(steps + [step]);
    var t := Run(steps + [step]).value;
    if t.holder.Some? {
      assert ControlOf(t, t.holder.value).Building?;
    }
  }

  /** The time that has passed. */
  function Elapsed(steps: seq<Step>): real {
    if steps == [] then 0.0
    else
      var last := steps[|steps| - 1];
      Elapsed(steps[..|steps| - 1]) + if last.Tick? then last.elapsed else 0.0
  }

  /** When `p` last took the lock. */
  function TookLock(steps: seq<Step>, p: int): real {
    if steps == [] then 0.0
    else if steps[|steps| - 1] == Acquire(p) then Elapsed(steps)
    else TookLock(steps[..|steps| - 1], p)
  }

  /** The builds that returned, each with the moment its request took the lock. */
  function Returned(steps: seq<Step>): seq<Build> {
    if steps == [] then []
    else
      var before := steps[..|steps| - 1];
      match steps[|steps| - 1]
      case Store(p, overview) => Returned(before) + [Build(TookLock(before, p), overview)]
      case _ => Returned(before)
  }

  lemma {:induction false} RunIsHistory(steps: seq<Step>)
    requires Run(steps).Some?
    ensures Run(steps).value.clock == Elapsed(steps)
    ensures forall p :: ControlOf(Run(steps).value, p).Building? ==>
              ControlOf(Run(steps).value, p).now == TookLock(steps, p)
    ensures Run(steps).value.builds == Returned(steps)
  {
    if steps != [] {
      var before := steps[..|steps| - 1];
      RunIsHistory(before);
    }
  }

  /** The time of the last build that returned is less than one lifetime ago. */
  predicate Recent(steps: seq<Step>) {
    var returned := Returned(steps);
    returned != [] && Elapsed(steps) - returned[|returned| - 1].start < 300.0
  }

  /** A request is answered from the last build that returned exactly while that build began
      less than one lifetime ago; otherwise it queues on arrival, and builds once it has the lock. */
  lemma ServedIffRecent(steps: seq<Step>, p: int, step: Step)
    requires Run(steps).Some? && (step == Arrive(p) || step == Acquire(p)) && Enabled(Run(steps).value, step)
    ensures
      var s, after := Run(steps).value, Run(steps + [step]);
      && after.Some?
      && (if Recent(steps)
          then
            && after.value.hits == s.hits + [Hit(Elapsed(steps), Returned(steps)[|Returned(steps)| - 1].overview)]
            && ControlOf(after.value, p).Idle?
          else
            && after.value.hits == s.hits
            && ControlOf(after.value, p) == (if step.Arrive? then Waiting else Building(Elapsed(steps))))
  {
    RunOne(steps, step);
    RunIsHistory(steps);
    ReachableInvariant(steps);
  }
}
