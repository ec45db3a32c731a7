/** Dependency ordering of subqueries, shared by the route and execution plans. */
module TopologicalOrder {
  import opened Wrappers
  import opened Collections

  /** Binds the input `target` to the output named by `source`, a text "producer.alias". */
  datatype Binding = Binding(target: string, source: string)

  /** A subquery; `extra` is what only one of the two plan forms carries. Bindings keep
      the insertion order of the original dictionary. */
  datatype Task<+E> = Task(
    id: string,
    tool: string,
    question: string,
    dependsOn: seq<string>,
    joinKeys: seq<string>,
    inputBindings: seq<Binding>,
    extra: E)

  function Targets(bindings: seq<Binding>): seq<string> {
    seq(|bindings|, i requires 0 <= i < |bindings| => bindings[i].target)
  }

  /** Bindings come from a dictionary: each target is bound once. */
  predicate BindsOnce<E>(item: Task<E>) { NoDuplicates(Targets(item.inputBindings)) }

  datatype OrderError = DuplicateIds | CyclicDependency

  function Ids<E(==)>(items: seq<Task<E>>): set<string> {
    set item | item in items :: item.id
  }

  predicate UniqueIds<E(==)>(items: seq<Task<E>>) {
    forall i, j :: 0 <= i < j < |items| ==> items[i].id != items[j].id
  }

  /** All dependencies of `item` lie in `done`. */
  predicate Released<E(==)>(item: Task<E>, done: set<string>) {
    forall d :: d in item.dependsOn ==> d in done
  }

  predicate ReadyAfter<E(==)>(item: Task<E>, done: set<string>) {
    item.id !in done && Released(item, done)
  }

  /** The items of the next wave, in input order. */
  function Wave<E(==)>(items: seq<Task<E>>, done: set<string>): seq<Task<E>> {
    if items == [] then []
    else (if ReadyAfter(items[0], done) then [items[0]] else []) + Wave(items[1..], done)
  }

  lemma {:induction false} WaveMembers<E>(items: seq<Task<E>>, done: set<string>, item: Task<E>)
    ensures item in Wave(items, done) <==> item in items && ReadyAfter(item, done)
  {
    if items != [] {
      WaveMembers(items[1..], done, item);
    }
  }

  lemma {:induction false} WaveConcat<E>(a: seq<Task<E>>, b: seq<Task<E>>, done: set<string>)
    ensures Wave(a + b, done) == Wave(a, done) + Wave(b, done)
  {
    if a == [] {
      assert a + b == b;
    } else {
      assert (a + b)[1..] == a[1..] + b;
      WaveConcat(a[1..], b, done);
    }
  }

  lemma {:induction false} WaveAll<E>(items: seq<Task<E>>, done: set<string>)
    requires forall item :: item in items ==> ReadyAfter(item, done)
    ensures Wave(items, done) == items
  {
    if items != [] {
      WaveAll(items[1..], done);
    }
  }

  lemma {:induction false} WaveNone<E>(items: seq<Task<E>>, done: set<string>)
    requires forall item :: item in items ==> !ReadyAfter(item, done)
    ensures Wave(items, done) == []
  {
    if items != [] {
      WaveNone(items[1..], done);
    }
  }

  /** All remaining waves in order; fails when some items can never be released. */
  function Waves<E(==)>(items: seq<Task<E>>, done: set<string>): (r: Option<seq<Task<E>>>)
    decreases |Ids(items) - done|
  {
    if Ids(items) <= done then Some([])
    else
      var ready := Wave(items, done);
      if ready == [] then None
      else
        ReadyShrinks(items, done);
        match Waves(items, done + Ids(ready))
        case None => None
        case Some(later) => Some(ready + later)
  }

  lemma ReadyShrinks<E>(items: seq<Task<E>>, done: set<string>)
    requires Wave(items, done) != []
    ensures |Ids(items) - (done + Ids(Wave(items, done)))| < |Ids(items) - done|
  {
    var item := Wave(items, done)[0];
    WaveMembers(items, done, item);
    assert item.id in Ids(Wave(items, done)) && item.id in Ids(items) - done;
    assert Ids(items) - (done + Ids(Wave(items, done))) <= Ids(items) - done - {item.id};
    SubsetSize(Ids(items) - (done + Ids(Wave(items, done))), Ids(items) - done - {item.id});
  }

  function Prepend<E>(front: seq<Task<E>>, rest: Option<seq<Task<E>>>): Option<seq<Task<E>>> {
    match rest
    case None => None
    case Some(later) => Some(front + later)
  }

  lemma OneWave<E>(items: seq<Task<E>>, done: set<string>)
    requires Wave(items, done) != []
    ensures Waves(items, done) == Prepend(Wave(items, done), Waves(items, done + Ids(Wave(items, done))))
  {
    ReadyShrinks(items, done);
    var first := Wave(items, done)[0];
    WaveMembers(items, done, first);
    assert first.id in Ids(items);
  }

  lemma PrependTwice<E>(a: seq<Task<E>>, b: seq<Task<E>>, rest: Option<seq<Task<E>>>)
    ensures Prepend(a, Prepend(b, rest)) == Prepend(a + b, rest)
    ensures Prepend([], rest) == rest
  {
    if rest.Some? {
      assert a + (b + rest.value) == a + b + rest.value;
      assert [] + rest.value == rest.value;
    }
  }

  lemma WavesStep<E>(items: seq<Task<E>>, done: set<string>, order: seq<Task<E>>)
      returns (ready: seq<Task<E>>, later: seq<Task<E>>)
    requires Waves(items, done) == Some(order) && order != []
    ensures ready == Wave(items, done) && ready != []
    ensures order == ready + later && |later| < |order|
    ensures Waves(items, done + Ids(ready)) == Some(later)
  {
    ready := Wave(items, done);
    ReadyShrinks(items, done);
    later := Waves(items, done + Ids(ready)).value;
  }

  // ---- the order is a permutation that respects dependencies ----

  /** The items not yet placed, in input order. */
  function Unplaced<E(==)>(items: seq<Task<E>>, done: set<string>): seq<Task<E>> {
    if items == [] then []
    else (if items[0].id in done then [] else [items[0]]) + Unplaced(items[1..], done)
  }

  lemma {:induction false} UnplacedSplits<E>(items: seq<Task<E>>, done: set<string>, after: set<string>)
    requires forall item :: item in items ==> (item.id in after <==> item.id in done || ReadyAfter(item, done))
    ensures multiset(Unplaced(items, done)) == multiset(Wave(items, done)) + multiset(Unplaced(items, after))
  {
    if items != [] {
      UnplacedSplits(items[1..], done, after);
    }
  }

  lemma PlacedAfterWave<E>(items: seq<Task<E>>, done: set<string>, item: Task<E>)
    requires UniqueIds(items) && item in items
    ensures item.id in done + Ids(Wave(items, done)) <==> item.id in done || ReadyAfter(item, done)
  {
    WaveMembers(items, done, item);
    if item.id in Ids(Wave(items, done)) {
      var other :| other in Wave(items, done) && other.id == item.id;
      WaveMembers(items, done, other);
    }
  }

  lemma {:induction false} UnplacedNone<E>(items: seq<Task<E>>, done: set<string>)
    requires Ids(items) <= done
    ensures Unplaced(items, done) == []
  {
    if items != [] {
      assert items[0].id in Ids(items);
      assert Ids(items[1..]) <= Ids(items);
      UnplacedNone(items[1..], done);
    }
  }

  lemma {:induction false} UnplacedAll<E>(items: seq<Task<E>>)
    ensures Unplaced(items, {}) == items
  {
    if items != [] {
      UnplacedAll(items[1..]);
    }
  }

  lemma {:induction false} WavesPermute<E>(items: seq<Task<E>>, done: set<string>)
    requires UniqueIds(items) && Waves(items, done).Some?
    ensures multiset(Waves(items, done).value) == multiset(Unplaced(items, done))
    ensures forall item :: item in Waves(items, done).value ==> item in items && item.id !in done
    decreases |Ids(items) - done|
  {
    if Ids(items) <= done {
      UnplacedNone(items, done);
    } else {
      var ready := Wave(items, done);
      var after := done + Ids(ready);
      ReadyShrinks(items, done);
      WavesPermute(items, after);
      forall item | item in items
        ensures item.id in after <==> item.id in done || ReadyAfter(item, done)
      {
        PlacedAfterWave(items, done, item);
      }
      UnplacedSplits(items, done, after);
      forall item ensures item in ready <==> item in items && ReadyAfter(item, done) {
        WaveMembers(items, done, item);
      }
    }
  }

  /** Every dependency of every item lies in `done` or comes earlier in `order`. */
  predicate InOrder<E(==)>(order: seq<Task<E>>, done: set<string>) {
    forall i :: 0 <= i < |order| ==> Released(order[i], done + Ids(order[..i]))
  }

  lemma {:induction false} WavesInOrder<E>(items: seq<Task<E>>, done: set<string>)
    requires Waves(items, done).Some?
    ensures InOrder(Waves(items, done).value, done)
    decreases |Ids(items) - done|
  {
    if !(Ids(items) <= done) {
      var ready := Wave(items, done);
      ReadyShrinks(items, done);
      WavesInOrder(items, done + Ids(ready));
      var later := Waves(items, done + Ids(ready)).value;
      var order := ready + later;
      forall i | 0 <= i < |order| ensures Released(order[i], done + Ids(order[..i])) {
        if i < |ready| {
          WaveMembers(items, done, ready[i]);
        } else {
          assert Released(later[i - |ready|], done + Ids(ready) + Ids(later[..i - |ready|]));
          assert order[..i] == ready + later[..i - |ready|];
        }
      }
    }
  }

  // ---- it succeeds exactly without unknown dependencies and cycles ----

  ghost predicate KnownDependencies<E>(items: seq<Task<E>>) {
    forall item :: item in items ==> Released(item, Ids(items))
  }

  ghost predicate DependsOn<E>(items: seq<Task<E>>, id: string, dependency: string) {
    exists item :: item in items && item.id == id && dependency in item.dependsOn
  }

  ghost predicate Path<E>(items: seq<Task<E>>, path: seq<string>) {
    forall i :: 0 <= i < |path| - 1 ==> DependsOn(items, path[i], path[i + 1])
  }

  ghost predicate Cycle<E>(items: seq<Task<E>>, path: seq<string>) {
    |path| >= 2 && path[0] == path[|path| - 1] && Path(items, path)
  }

  ghost predicate WaitsFor<E>(items: seq<Task<E>>, id: string, stuck: set<string>) {
    exists d :: d in stuck && DependsOn(items, id, d)
  }

  /** Items that can never be released: each waits for another of them. */
  ghost predicate Deadlocked<E>(items: seq<Task<E>>, stuck: set<string>) {
    stuck != {} && forall id :: id in stuck ==> WaitsFor(items, id, stuck)
  }

  lemma {:induction false} FailureIsDeadlock<E>(items: seq<Task<E>>, done: set<string>) returns (stuck: set<string>)
    requires KnownDependencies(items) && Waves(items, done).None?
    ensures stuck <= Ids(items) && Deadlocked(items, stuck)
    decreases |Ids(items) - done|
  {
    if Wave(items, done) == [] {
      stuck := Ids(items) - done;
      var left :| left in Ids(items) && left !in done;
      assert left in stuck;
      forall id | id in stuck ensures WaitsFor(items, id, stuck) {
        var item :| item in items && item.id == id;
        WaveMembers(items, done, item);
        var d :| d in item.dependsOn && d !in done;
        assert DependsOn(items, id, d);
      }
    } else {
      ReadyShrinks(items, done);
      stuck := FailureIsDeadlock(items, done + Ids(Wave(items, done)));
    }
  }

  ghost predicate PathWithin<E>(items: seq<Task<E>>, path: seq<string>, stuck: set<string>) {
    path != [] && Path(items, path) && forall i :: 0 <= i < |path| ==> path[i] in stuck
  }

  lemma ExtendWalk<E>(items: seq<Task<E>>, stuck: set<string>, path: seq<string>) returns (next: string)
    requires Deadlocked(items, stuck) && PathWithin(items, path, stuck)
    ensures PathWithin(items, path + [next], stuck)
  {
    var last := path[|path| - 1];
    assert WaitsFor(items, last, stuck);
    next :| next in stuck && DependsOn(items, last, next);
    PathSnoc(items, path, next);
  }

  lemma {:induction false} WalkDeadlock<E>(items: seq<Task<E>>, stuck: set<string>, length: nat)
      returns (path: seq<string>)
    requires Deadlocked(items, stuck)
    ensures |path| == length + 1 && PathWithin(items, path, stuck)
  {
    if length == 0 {
      var id :| id in stuck;
      path := [id];
    } else {
      path := WalkDeadlock(items, stuck, length - 1);
      var next := ExtendWalk(items, stuck, path);
      path := path + [next];
    }
  }

  lemma PathSnoc<E>(items: seq<Task<E>>, path: seq<string>, next: string)
    requires path != [] && Path(items, path) && DependsOn(items, path[|path| - 1], next)
    ensures Path(items, path + [next])
  {
    var longer := path + [next];
    forall i | 0 <= i < |longer| - 1 ensures DependsOn(items, longer[i], longer[i + 1]) {
      if i < |path| - 1 {
        assert DependsOn(items, path[i], path[i + 1]);
      }
    }
  }

  lemma {:induction false} Pigeonhole<T>(xs: seq<T>, s: set<T>) returns (i: nat, j: nat)
    requires forall k :: 0 <= k < |xs| ==> xs[k] in s
    requires |xs| > |s|
    ensures i < j < |xs| && xs[i] == xs[j]
  {
    var last := xs[|xs| - 1];
    if k: nat :| k < |xs| - 1 && xs[k] == last {
      return k, |xs| - 1;
    }
    i, j := Pigeonhole(xs[..|xs| - 1], s - {last});
  }

  lemma PathSlice<E>(items: seq<Task<E>>, path: seq<string>, i: nat, j: nat)
    requires Path(items, path) && i <= j <= |path|
    ensures Path(items, path[i..j])
  {
    var part := path[i..j];
    forall k | 0 <= k < |part| - 1 ensures DependsOn(items, part[k], part[k + 1]) {
      assert DependsOn(items, path[i + k], path[i + k + 1]);
    }
  }

  lemma DeadlockHasCycle<E>(items: seq<Task<E>>, stuck: set<string>) returns (path: seq<string>)
    requires Deadlocked(items, stuck)
    ensures Cycle(items, path)
  {
    var walk := WalkDeadlock(items, stuck, |stuck|);
    var i, j := Pigeonhole(walk, stuck);
    path := walk[i..j + 1];
    PathSlice(items, walk, i, j + 1);
  }

  ghost predicate SameItems<E>(items: seq<Task<E>>, order: seq<Task<E>>) {
    UniqueIds(items) && multiset(items) == multiset(order)
  }

  /** Along a path the positions in the order fall strictly. */
  lemma {:induction false} PathDescends<E>(items: seq<Task<E>>, order: seq<Task<E>>, path: seq<string>,
      position: nat) returns (last: nat)
    requires SameItems(items, order) && InOrder(order, {}) && Path(items, path) && path != []
    requires position < |order| && order[position].id == path[0]
    ensures last < |order| && order[last].id == path[|path| - 1]
    ensures |path| > 1 ==> last < position
    ensures last <= position
  {
    if |path| == 1 {
      return position;
    }
    assert DependsOn(items, path[0], path[1]);
    var item :| item in items && item.id == path[0] && path[1] in item.dependsOn;
    assert order[position] in multiset(items);
    assert item == order[position];
    assert Released(order[position], {} + Ids(order[..position]));
    var next :| next in order[..position] && next.id == path[1];
    var p :| 0 <= p < position && order[p] == next;
    forall k | 0 <= k < |path[1..]| - 1 ensures DependsOn(items, path[1..][k], path[1..][k + 1]) {
      assert DependsOn(items, path[k + 1], path[k + 2]);
    }
    last := PathDescends(items, order, path[1..], p);
  }

  lemma {:induction false} UniqueInPermutation<E>(items: seq<Task<E>>, order: seq<Task<E>>, i: nat, j: nat)
    requires SameItems(items, order)
    requires i < |order| && j < |order| && order[i].id == order[j].id
    ensures i == j
  {
    if i != j {
      var x := order[i];
      assert order[i] in multiset(items) && order[j] in multiset(items);
      assert order[j] == x;
      TwiceInMultiset(order, i, j);
      var p :| 0 <= p < |items| && items[p] == x;
      OnceInUnique(items, p);
    }
  }

  lemma TwiceInMultiset<T>(xs: seq<T>, i: nat, j: nat)
    requires i < |xs| && j < |xs| && i != j && xs[i] == xs[j]
    ensures multiset(xs)[xs[i]] >= 2
  {
    var lo, hi := if i < j then i else j, if i < j then j else i;
    assert xs == xs[..lo] + [xs[lo]] + xs[lo + 1..hi] + [xs[hi]] + xs[hi + 1..];
  }

  lemma OnceInUnique<E>(items: seq<Task<E>>, p: nat)
    requires UniqueIds(items) && p < |items|
    ensures multiset(items)[items[p]] == 1
  {
    var x := items[p];
    assert items == items[..p] + [x] + items[p + 1..];
    assert x !in items[..p] && x !in items[p + 1..];
  }

  /** With distinct ids the waves place everything exactly when dependencies are known and there is no cycle. */
  lemma WavesIffAcyclic<E>(items: seq<Task<E>>)
    requires UniqueIds(items)
    ensures Waves(items, {}).Some? <==> KnownDependencies(items) && !exists path :: Cycle(items, path)
  {
    if Waves(items, {}).Some? {
      var order := Waves(items, {}).value;
      OrderIsPermutation(items);
      forall item | item in items ensures Released(item, Ids(items)) {
        assert item in multiset(order);
        var i :| 0 <= i < |order| && order[i] == item;
        assert Released(order[i], {} + Ids(order[..i]));
        forall d | d in item.dependsOn ensures d in Ids(items) {
          var dep :| dep in order[..i] && dep.id == d;
          assert dep in multiset(order) && dep in multiset(items);
        }
      }
      if path :| Cycle(items, path) {
        assert DependsOn(items, path[0], path[1]);
        var item :| item in items && item.id == path[0] && path[1] in item.dependsOn;
        assert item in multiset(order);
        var position :| 0 <= position < |order| && order[position] == item;
        var last := PathDescends(items, order, path, position);
        UniqueInPermutation(items, order, last, position);
      }
    } else if KnownDependencies(items) {
      var stuck := FailureIsDeadlock(items, {});
      var path := DeadlockHasCycle(items, stuck);
    }
  }

  /** The order is a permutation of the input with every item after its dependencies. */
  lemma OrderIsPermutation<E>(items: seq<Task<E>>)
    requires UniqueIds(items) && Waves(items, {}).Some?
    ensures multiset(Waves(items, {}).value) == multiset(items)
    ensures InOrder(Waves(items, {}).value, {})
  {
    WavesPermute(items, {});
    UnplacedAll(items);
    WavesInOrder(items, {});
  }

  // ---- the order is wave by wave, in input order, and stable under reordering ----

  /** The ids placed after `k` rounds. */
  function Placed<E(==)>(items: seq<Task<E>>, k: nat): set<string> {
    if k == 0 then {} else Placed(items, k - 1) + Ids(Wave(items, Placed(items, k - 1)))
  }

  /** The item is placed in round `k`. */
  predicate InWave<E(==)>(items: seq<Task<E>>, item: Task<E>, k: nat) {
    ReadyAfter(item, Placed(items, k))
  }

  lemma {:induction false} PlacedGrows<E>(items: seq<Task<E>>, j: nat, k: nat)
    requires j <= k
    ensures Placed(items, j) <= Placed(items, k)
  {
    if j < k {
      PlacedGrows(items, j, k - 1);
    }
  }

  /** `a` stands before `b` in the input. */
  ghost predicate Before<E>(items: seq<Task<E>>, a: Task<E>, b: Task<E>) {
    exists p, q :: 0 <= p < q < |items| && items[p] == a && items[q] == b
  }

  lemma BeforeInTail<E>(items: seq<Task<E>>, a: Task<E>, b: Task<E>)
    requires items != [] && Before(items[1..], a, b)
    ensures Before(items, a, b)
  {
    var p, q :| 0 <= p < q < |items[1..]| && items[1..][p] == a && items[1..][q] == b;
    assert items[p + 1] == a && items[q + 1] == b;
  }

  lemma FirstBefore<E>(items: seq<Task<E>>, b: Task<E>)
    requires items != [] && b in items[1..]
    ensures Before(items, items[0], b)
  {
    var q :| 0 <= q < |items[1..]| && items[1..][q] == b;
    assert items[q + 1] == b;
  }

  lemma {:induction false} WaveKeepsInputOrder<E>(items: seq<Task<E>>, done: set<string>, i: nat, j: nat)
    requires i < j < |Wave(items, done)|
    ensures Before(items, Wave(items, done)[i], Wave(items, done)[j])
  {
    var wave, rest := Wave(items, done), Wave(items[1..], done);
    if ReadyAfter(items[0], done) && i == 0 {
      assert wave[j] == rest[j - 1];
      WaveMembers(items[1..], done, rest[j - 1]);
      FirstBefore(items, wave[j]);
    } else {
      var shift := if ReadyAfter(items[0], done) then 1 else 0;
      WaveKeepsInputOrder(items[1..], done, i - shift, j - shift);
      assert rest[i - shift] == wave[i] && rest[j - shift] == wave[j];
      BeforeInTail(items, wave[i], wave[j]);
    }
  }

  /** `order` is what rounds `k` and later place. */
  predicate FromRound<E(==)>(items: seq<Task<E>>, k: nat, order: seq<Task<E>>) {
    Waves(items, Placed(items, k)) == Some(order)
  }

  lemma RoundStep<E>(items: seq<Task<E>>, k: nat, order: seq<Task<E>>)
      returns (ready: seq<Task<E>>, later: seq<Task<E>>)
    requires FromRound(items, k, order) && order != []
    ensures ready == Wave(items, Placed(items, k))
    ensures order == ready + later && |later| < |order|
    ensures FromRound(items, k + 1, later)
  {
    ready, later := WavesStep(items, Placed(items, k), order);
  }

  lemma ReadyInWave<E>(items: seq<Task<E>>, k: nat, item: Task<E>)
    requires item in Wave(items, Placed(items, k))
    ensures item in items && InWave(items, item, k)
  {
    WaveMembers(items, Placed(items, k), item);
  }

  /** `a` in wave `wa` goes before `b` in wave `wb`: an earlier wave, or the same wave and
      an earlier input position. */
  ghost predicate GoesFirst<E>(items: seq<Task<E>>, a: Task<E>, wa: nat, b: Task<E>, wb: nat) {
    && a in items && InWave(items, a, wa) && b in items && InWave(items, b, wb)
    && (wa < wb || (wa == wb && Before(items, a, b)))
  }

  lemma SameWave<E>(items: seq<Task<E>>, k: nat, i: nat, j: nat, a: Task<E>, b: Task<E>)
    requires i < j < |Wave(items, Placed(items, k))|
    requires a == Wave(items, Placed(items, k))[i] && b == Wave(items, Placed(items, k))[j]
    ensures GoesFirst(items, a, k, b, k)
  {
    ReadyInWave(items, k, a);
    ReadyInWave(items, k, b);
    WaveKeepsInputOrder(items, Placed(items, k), i, j);
  }

  lemma {:induction false} SomeWave<E>(items: seq<Task<E>>, order: seq<Task<E>>, k: nat, i: nat) returns (w: nat)
    requires FromRound(items, k, order) && i < |order|
    ensures order[i] in items && k <= w && InWave(items, order[i], w)
    decreases |order|
  {
    var ready, later := RoundStep(items, k, order);
    if i < |ready| {
      ReadyInWave(items, k, ready[i]);
      w := k;
    } else {
      w := SomeWave(items, later, k + 1, i - |ready|);
    }
  }

  lemma ReadyGoesFirst<E>(items: seq<Task<E>>, k: nat, later: seq<Task<E>>, j: nat, a: Task<E>, b: Task<E>)
      returns (wb: nat)
    requires a in Wave(items, Placed(items, k))
    requires FromRound(items, k + 1, later) && j < |later| && b == later[j]
    ensures GoesFirst(items, a, k, b, wb)
  {
    ReadyInWave(items, k, a);
    wb := SomeWave(items, later, k + 1, j);
  }

  /** A list that `from` accepts for round `k` begins with that round's wave, and `from` accepts the rest for
      the next round. */
  ghost predicate Layered<T(!new)>(from: (nat, seq<T>) -> bool, wave: nat -> seq<T>) {
    forall k: nat, order: seq<T> :: LayeredAt(from, wave, k, order)
  }

  predicate LayeredAt<T(==)>(from: (nat, seq<T>) -> bool, wave: nat -> seq<T>, k: nat, order: seq<T>) {
    from(k, order) && order != [] ==> wave(k) != [] && wave(k) <= order && from(k + 1, order[|wave(k)|..])
  }

  /** Position `i` falls into the wave of some round, which starts at `start`. */
  lemma {:induction false} RoundOf<T(!new)>(from: (nat, seq<T>) -> bool, wave: nat -> seq<T>, order: seq<T>, k: nat,
      i: nat)
    returns (r: nat, start: nat)
    requires Layered(from, wave) && from(k, order) && i < |order|
    ensures start <= i < start + |wave(r)| <= |order|
    ensures wave(r) <= order[start..] && from(r + 1, order[start + |wave(r)|..])
    decreases |order|
  {
    assert LayeredAt(from, wave, k, order);
    var n := |wave(k)|;
    if i < n {
      r, start := k, 0;
      assert order[0..] == order;
    } else {
      var rest := order[n..];
      var s;
      r, s := RoundOf(from, wave, rest, k + 1, i - n);
      start := n + s;
      assert rest[s..] == order[start..];
      assert rest[s + |wave(r)|..] == order[start + |wave(r)|..];
    }
  }

  function Rounds<E(==)>(items: seq<Task<E>>): (nat, seq<Task<E>>) -> bool {
    (k: nat, order: seq<Task<E>>) => FromRound(items, k, order)
  }

  function WaveOf<E(==)>(items: seq<Task<E>>): nat -> seq<Task<E>> { (k: nat) => Wave(items, Placed(items, k)) }

  lemma RoundsAreLayered<E(!new)>(items: seq<Task<E>>)
    ensures Layered(Rounds(items), WaveOf(items))
  {
    var from, wave := Rounds(items), WaveOf(items);
    forall k: nat, order: seq<Task<E>> ensures LayeredAt(from, wave, k, order) {
      if from(k, order) && order != [] {
        var ready, later := RoundStep(items, k, order);
        assert order[|ready|..] == later;
      }
    }
  }

  /** `a` at position `i` of a wave goes before `b` at position `j` of that wave or of what follows it. */
  lemma ByRound<E>(items: seq<Task<E>>, k: nat, ready: seq<Task<E>>, later: seq<Task<E>>, i: nat, j: nat,
      a: Task<E>, b: Task<E>) returns (wb: nat)
    requires ready == Wave(items, Placed(items, k)) && FromRound(items, k + 1, later)
    requires i < |ready| && a == ready[i]
    requires i < j < |ready| + |later| && b == if j < |ready| then ready[j] else later[j - |ready|]
    ensures GoesFirst(items, a, k, b, wb)
  {
    if j < |ready| {
      SameWave(items, k, i, j, a, b);
      wb := k;
    } else {
      assert a in ready;
      wb := ReadyGoesFirst(items, k, later, j - |ready|, a, b);
    }
  }

  /** The order lists the items by wave number, and the items of a wave by input position. */
  lemma OrderedByWaveThenPosition<E(!new)>(items: seq<Task<E>>, i: nat, j: nat) returns (wi: nat, wj: nat)
    requires Waves(items, {}).Some? && i < j < |Waves(items, {}).value|
    ensures GoesFirst(items, Waves(items, {}).value[i], wi, Waves(items, {}).value[j], wj)
  {
    var order := Waves(items, {}).value;
    var start, ready, later;
    wi, start, ready, later := RoundAt(items, order, i, j);
    wj := ByRound(items, wi, ready, later, i - start, j - start, order[i], order[j]);
  }

  lemma RoundAt<E(!new)>(items: seq<Task<E>>, order: seq<Task<E>>, i: nat, j: nat)
      returns (r: nat, start: nat, ready: seq<Task<E>>, later: seq<Task<E>>)
    requires FromRound(items, 0, order) && i < j < |order|
    ensures ready == Wave(items, Placed(items, r)) && FromRound(items, r + 1, later)
    ensures start <= i < start + |ready| && start + |ready| + |later| == |order| && order[i] == ready[i - start]
    ensures order[j] == if j - start < |ready| then ready[j - start] else later[j - start - |ready|]
  {
    RoundsAreLayered(items);
    RoundsApply(items, 0, order);
    r, start, ready, later := RoundOfPair(Rounds(items), WaveOf(items), order, i, j);
    RoundsApply(items, r + 1, later);
  }

  lemma RoundsApply<E>(items: seq<Task<E>>, k: nat, order: seq<Task<E>>)
    ensures Rounds(items)(k, order) <==> FromRound(items, k, order)
  {
  }

  lemma RoundOfPair<T(!new)>(from: (nat, seq<T>) -> bool, wave: nat -> seq<T>, order: seq<T>, i: nat, j: nat)
    returns (r: nat, start: nat, ready: seq<T>, later: seq<T>)
    requires Layered(from, wave) && from(0, order) && i < j < |order|
    ensures ready == wave(r) && from(r + 1, later)
    ensures start <= i < start + |ready| && start + |ready| + |later| == |order| && order[i] == ready[i - start]
    ensures order[j] == if j - start < |ready| then ready[j - start] else later[j - start - |ready|]
  {
    r, start := RoundOf(from, wave, order, 0, i);
    ready := wave(r);
    later := order[start + |ready|..];
    assert order[start..][i - start] == order[i] && order[start..][j - start] == order[j];
  }

  /** The wave number of an item is the length of its longest chain of dependencies:
      every dependency sits in an earlier wave, and one of them in the wave just before. */
  lemma WaveIsDepth<E>(items: seq<Task<E>>, item: Task<E>, k: nat, dependency: Task<E>, j: nat)
    requires UniqueIds(items) && item in items && dependency in items
    requires InWave(items, item, k) && InWave(items, dependency, j) && dependency.id in item.dependsOn
    ensures j < k
    ensures exists d :: d in item.dependsOn && d !in Placed(items, k - 1)
  {
    if k <= j {
      PlacedGrows(items, k, j);
    }
    if Released(item, Placed(items, k - 1)) {
      PlacedGrows(items, k - 1, k);
      WaveMembers(items, Placed(items, k - 1), item);
    }
  }

  lemma WaveOfSuffix<E>(items: seq<Task<E>>, earlier: seq<Task<E>>, later: seq<Task<E>>, done: set<string>)
    requires UniqueIds(items) && Ids(earlier) <= done
    requires Waves(items, done + Ids(Wave(items, done))) == Some(later)
    ensures Wave(earlier + (Wave(items, done) + later), done) == Wave(items, done)
  {
    var ready := Wave(items, done);
    WavesPermute(items, done + Ids(ready));
    forall item | item in earlier ensures !ReadyAfter(item, done) {
      assert item.id in Ids(earlier);
    }
    WaveNone(earlier, done);
    forall item | item in ready ensures ReadyAfter(item, done) {
      WaveMembers(items, done, item);
    }
    WaveAll(ready, done);
    forall item | item in later ensures !ReadyAfter(item, done) {
      PlacedAfterWave(items, done, item);
    }
    WaveNone(later, done);
    WaveConcat(earlier, ready + later, done);
    WaveConcat(ready, later, done);
  }

  lemma SuffixStep<E>(earlier: seq<Task<E>>, ready: seq<Task<E>>, later: seq<Task<E>>, done: set<string>)
    requires ready != [] && Wave(earlier + (ready + later), done) == ready
    requires Waves((earlier + ready) + later, done + Ids(ready)) == Some(later)
    ensures Waves(earlier + (ready + later), done) == Some(ready + later)
  {
    assert (earlier + ready) + later == earlier + (ready + later);
    OneWave(earlier + (ready + later), done);
  }

  lemma {:induction false} WavesOfSuffix<E>(items: seq<Task<E>>, earlier: seq<Task<E>>, done: set<string>,
      order: seq<Task<E>>)
    requires UniqueIds(items) && Waves(items, done) == Some(order)
    requires Ids(earlier) <= done
    ensures Waves(earlier + order, done) == Some(order)
    decreases |order|
  {
    if order == [] {
      assert earlier + order == earlier;
    } else {
      var ready, later := WavesStep(items, done, order);
      WaveOfSuffix(items, earlier, later, done);
      WavesOfSuffix(items, earlier + ready, done + Ids(ready), later);
      SuffixStep(earlier, ready, later, done);
    }
  }

  /** Ordering an ordered list changes nothing. */
  lemma OrderIdempotent<E>(items: seq<Task<E>>)
    requires UniqueIds(items) && Waves(items, {}).Some?
    ensures Waves(Waves(items, {}).value, {}) == Waves(items, {})
  {
    WavesOfSuffix(items, [], {}, Waves(items, {}).value);
    assert [] + Waves(items, {}).value == Waves(items, {}).value;
  }

  // ---- the order depends on ids and dependencies only ----

  /** The two lists agree on ids and dependencies. */
  ghost predicate SameGraph<E, F>(a: seq<Task<E>>, b: seq<Task<F>>) {
    |a| == |b| && forall i :: 0 <= i < |a| ==> a[i].id == b[i].id && a[i].dependsOn == b[i].dependsOn
  }

  lemma SameGraphIds<E, F>(a: seq<Task<E>>, b: seq<Task<F>>)
    requires SameGraph(a, b)
    ensures Ids(a) == Ids(b)
  {
    forall t | t in a ensures t.id in Ids(b) {
      var i :| 0 <= i < |a| && a[i] == t;
      assert b[i] in b;
    }
    forall t | t in b ensures t.id in Ids(a) {
      var i :| 0 <= i < |b| && b[i] == t;
      assert a[i] in a;
    }
  }

  lemma {:induction false} SameGraphWave<E, F>(a: seq<Task<E>>, b: seq<Task<F>>, done: set<string>)
    requires SameGraph(a, b)
    ensures SameGraph(Wave(a, done), Wave(b, done))
  {
    if a != [] {
      SameGraphWave(a[1..], b[1..], done);
    }
  }

  lemma SameGraphConcat<E, F>(a: seq<Task<E>>, b: seq<Task<F>>, c: seq<Task<E>>, d: seq<Task<F>>)
    requires SameGraph(a, b) && SameGraph(c, d)
    ensures SameGraph(a + c, b + d)
  {
  }

  lemma {:induction false} SameGraphWaves<E, F>(a: seq<Task<E>>, b: seq<Task<F>>, done: set<string>,
      order: seq<Task<E>>) returns (other: seq<Task<F>>)
    requires SameGraph(a, b) && Waves(a, done) == Some(order)
    ensures Waves(b, done) == Some(other) && SameGraph(order, other)
    decreases |order|
  {
    SameGraphIds(a, b);
    if order == [] {
      if !(Ids(a) <= done) {
        OneWave(a, done);
      }
      other := [];
    } else {
      var ready, later := WavesStep(a, done, order);
      SameGraphWave(a, b, done);
      SameGraphIds(ready, Wave(b, done));
      var rest := SameGraphWaves(a, b, done + Ids(ready), later);
      OneWave(b, done);
      SameGraphConcat(ready, Wave(b, done), later, rest);
      other := Wave(b, done) + rest;
    }
  }

  lemma SameIdsSameItems<E>(b: seq<Task<E>>, order: seq<Task<E>>)
    requires UniqueIds(b) && |order| == |b|
    requires forall i :: 0 <= i < |b| ==> order[i].id == b[i].id && order[i] in b
    ensures order == b
  {
    forall i | 0 <= i < |b| ensures order[i] == b[i] {
      var k :| 0 <= k < |b| && b[k] == order[i];
    }
  }

  /** A list in its own order keeps it when nothing but ids and dependencies is kept. */
  lemma OwnOrderTransfers<E, F>(a: seq<Task<E>>, b: seq<Task<F>>)
    requires SameGraph(a, b) && UniqueIds(a) && Waves(a, {}) == Some(a)
    ensures UniqueIds(b) && Waves(b, {}) == Some(b)
  {
    forall i, j | 0 <= i < j < |b| ensures b[i].id != b[j].id {
      assert b[i].id == a[i].id && b[j].id == a[j].id;
    }
    var order := SameGraphWaves(a, b, {}, a);
    WavesPermute(b, {});
    forall i | 0 <= i < |b| ensures order[i].id == b[i].id && order[i] in b {
      assert a[i].id == b[i].id && order[i] in order;
    }
    SameIdsSameItems(b, order);
  }

  // ---- the loop that computes it ----

  /** The result of ordering: the waves, unless ids repeat or some items are never released. */
  function OrderOf<E(==)>(items: seq<Task<E>>): Result<seq<Task<E>>, OrderError> {
    if !UniqueIds(items) then Failure(DuplicateIds)
    else match Waves(items, {})
      case None => Failure(CyclicDependency)
      case Some(order) => Success(order)
  }

  /** Ordering succeeds exactly when ids are unique, every dependency is known and there is no cycle. */
  lemma OrdersIffAcyclic<E>(items: seq<Task<E>>)
    ensures OrderOf(items).Success? <==>
      UniqueIds(items) && KnownDependencies(items) && !exists path :: Cycle(items, path)
    ensures OrderOf(items) == Failure(DuplicateIds) <==> !UniqueIds(items)
  {
    if UniqueIds(items) {
      WavesIffAcyclic(items);
    }
  }

  lemma IdsSnoc<E>(items: seq<Task<E>>, last: Task<E>)
    ensures Ids(items + [last]) == Ids(items) + {last.id}
  {
    assert last in items + [last];
    forall item | item in items ensures item in items + [last] {
    }
  }

  lemma UniqueIffCounted<E>(items: seq<Task<E>>)
    ensures |Ids(items)| <= |items|
    ensures |Ids(items)| == |items| <==> UniqueIds(items)
  {
    var ids := IdList(items);
    IdListMembers(items);
    DistinctIffCounted(ids);
    assert forall i :: 0 <= i < |items| ==> ids[i] == items[i].id;
  }

  function DependencySet<E>(item: Task<E>): set<string> { set d | d in item.dependsOn }

  /** `pending` holds the unplaced ids with the dependencies they still wait for. */
  ghost predicate PendingMatches<E>(items: seq<Task<E>>, pending: map<string, set<string>>, done: set<string>) {
    && pending.Keys == Ids(items) - done
    && forall item :: item in items && item.id in pending ==> pending[item.id] == DependencySet(item) - done
  }

  /** The ids of a list, in its order. */
  function IdList<E>(items: seq<Task<E>>): seq<string> {
    seq(|items|, i requires 0 <= i < |items| => items[i].id)
  }

  lemma IdListMembers<E>(items: seq<Task<E>>)
    ensures (set id | id in IdList(items)) == Ids(items)
  {
    forall item | item in items ensures item.id in IdList(items) {
      var i :| 0 <= i < |items| && items[i] == item;
      assert IdList(items)[i] == item.id;
    }
  }

  lemma ReleasedIff<E>(item: Task<E>, done: set<string>)
    ensures Released(item, done) <==> DependencySet(item) - done == {}
  {
    if DependencySet(item) - done == {} {
      forall d | d in item.dependsOn ensures d in done {
        assert d !in DependencySet(item) - done;
      }
    }
  }

  method ReadyIds<E>(items: seq<Task<E>>, pending: map<string, set<string>>, ghost done: set<string>)
      returns (ready: seq<string>)
    requires PendingMatches(items, pending, done)
    ensures ready == IdList(Wave(items, done))
  {
    ready := [];
    for i := 0 to |items|
      invariant ready == IdList(Wave(items[..i], done))
    {
      var item := items[i];
      assert items[..i + 1] == items[..i] + [item];
      WaveConcat(items[..i], [item], done);
      ReleasedIff(item, done);
      assert item in items && item.id in Ids(items);
      if item.id in pending && pending[item.id] == {} {
        ready := ready + [item.id];
      }
    }
    assert items[..|items|] == items;
  }

  /** An id is placed: its entry goes, and nobody waits for it any longer. */
  function Discharge(pending: map<string, set<string>>, id: string): map<string, set<string>> {
    map other | other in pending && other != id :: pending[other] - {id}
  }

  lemma DischargeMatches<E>(items: seq<Task<E>>, pending: map<string, set<string>>, done: set<string>, id: string)
    requires PendingMatches(items, pending, done)
    ensures PendingMatches(items, Discharge(pending, id), done + {id})
  {
    forall item | item in items && item.id in Discharge(pending, id)
      ensures Discharge(pending, id)[item.id] == DependencySet(item) - (done + {id})
    {
      assert pending[item.id] == DependencySet(item) - done;
    }
  }

  lemma DischargeStep<E>(items: seq<Task<E>>, pending: map<string, set<string>>, done: set<string>,
      wave: seq<Task<E>>, k: nat)
    requires k < |wave| && PendingMatches(items, pending, done + Ids(wave[..k]))
    ensures wave[..k + 1] == wave[..k] + [wave[k]]
    ensures PendingMatches(items, Discharge(pending, wave[k].id), done + Ids(wave[..k + 1]))
  {
    assert wave[..k + 1] == wave[..k] + [wave[k]];
    IdsSnoc(wave[..k], wave[k]);
    DischargeMatches(items, pending, done + Ids(wave[..k]), wave[k].id);
    assert done + Ids(wave[..k]) + {wave[k].id} == done + Ids(wave[..k + 1]);
  }

  method DischargeAll<E(==)>(items: seq<Task<E>>, byId: map<string, Task<E>>, pending: map<string, set<string>>,
                             ready: seq<string>, ghost done: set<string>)
    returns (placed: seq<Task<E>>, pending': map<string, set<string>>)
    requires forall item :: item in items ==> item.id in byId && byId[item.id] == item
    requires PendingMatches(items, pending, done) && ready == IdList(Wave(items, done))
    ensures placed == Wave(items, done)
    ensures PendingMatches(items, pending', done + Ids(Wave(items, done)))
  {
    ghost var wave := Wave(items, done);
    placed, pending' := [], pending;
    for k := 0 to |ready|
      invariant placed == wave[..k]
      invariant PendingMatches(items, pending', done + Ids(wave[..k]))
    {
      WaveMembers(items, done, wave[k]);
      DischargeStep(items, pending', done, wave, k);
      placed := placed + [byId[ready[k]]];
      pending' := Discharge(pending', ready[k]);
    }
    assert wave[..|wave|] == wave;
  }

  method IndexById<E(==)>(items: seq<Task<E>>) returns (byId: map<string, Task<E>>)
    ensures byId.Keys == Ids(items)
    ensures UniqueIds(items) ==> forall item :: item in items ==> byId[item.id] == item
  {
    byId := map[];
    for i := 0 to |items|
      invariant byId.Keys == Ids(items[..i])
      invariant UniqueIds(items) ==> forall k :: 0 <= k < i ==> items[k].id in byId && byId[items[k].id] == items[k]
    {
      assert items[..i + 1] == items[..i] + [items[i]];
      IdsSnoc(items[..i], items[i]);
      byId := byId[items[i].id := items[i]];
    }
    assert items[..|items|] == items;
  }

  lemma InitialPending<E>(items: seq<Task<E>>, byId: map<string, Task<E>>)
    requires byId.Keys == Ids(items)
    requires forall item :: item in items ==> item.id in byId && byId[item.id] == item
    ensures PendingMatches(items, map id | id in byId :: DependencySet(byId[id]), {})
  {
    var pending := map id | id in byId :: DependencySet(byId[id]);
    assert pending.Keys == Ids(items) - {};
    forall item | item in items ensures pending[item.id] == DependencySet(item) - {} {
    }
  }

  lemma NothingPending<E>(items: seq<Task<E>>, pending: map<string, set<string>>, done: set<string>)
    requires PendingMatches(items, pending, done)
    ensures Ids(items) <= done <==> pending == map[]
  {
    if pending == map[] {
      assert pending.Keys == {};
    } else {
      var id :| id in pending;
      assert id in Ids(items) - done;
    }
  }

  lemma DrainEnds<E>(items: seq<Task<E>>, done: set<string>, ordered: seq<Task<E>>)
    ensures Ids(items) <= done ==> Prepend(ordered, Waves(items, done)) == Some(ordered)
    ensures !(Ids(items) <= done) && IdList(Wave(items, done)) == [] ==> Prepend(ordered, Waves(items, done)) == None
  {
    assert ordered + [] == ordered;
    assert |IdList(Wave(items, done))| == |Wave(items, done)|;
  }

  /** Places wave after wave until nothing is pending or nothing is ready. */
  method DrainPending<E(==)>(items: seq<Task<E>>, byId: map<string, Task<E>>, initial: map<string, set<string>>)
    returns (order: Option<seq<Task<E>>>)
    requires forall item :: item in items ==> item.id in byId && byId[item.id] == item
    requires PendingMatches(items, initial, {})
    ensures order == Waves(items, {})
  {
    var pending, ordered := initial, [];
    ghost var done: set<string> := {};
    ghost var whole := Waves(items, done);
    PrependTwice(ordered, ordered, whole);
    while pending != map[]
      invariant PendingMatches(items, pending, done)
      invariant whole == Prepend(ordered, Waves(items, done))
      decreases |Ids(items) - done|
    {
      NothingPending(items, pending, done);
      DrainEnds(items, done, ordered);
      var ready := ReadyIds(items, pending, done);
      ghost var wave := Wave(items, done);
      if ready == [] {
        return None;
      }
      ReadyShrinks(items, done);
      OneWave(items, done);
      PrependTwice(ordered, wave, Waves(items, done + Ids(wave)));
      var placed;
      placed, pending := DischargeAll(items, byId, pending, ready, done);
      ordered := ordered + placed;
      done := done + Ids(wave);
    }
    NothingPending(items, pending, done);
    DrainEnds(items, done, ordered);
    order := Some(ordered);
  }

  method OrderSubqueries<E(==)>(items: seq<Task<E>>) returns (r: Result<seq<Task<E>>, OrderError>)
    ensures r == OrderOf(items)
  {
    var byId := IndexById(items);
    UniqueIffCounted(items);
    assert |byId| == |byId.Keys|;
    if |byId| != |items| {
      return Failure(DuplicateIds);
    }
    InitialPending(items, byId);
    var order := DrainPending(items, byId, map id | id in byId :: DependencySet(byId[id]));
    r := if order.None? then Failure(CyclicDependency) else Success(order.value);
  }
}
