/** Chooses, among all names found in a question, the longest ones that do not overlap. */
module SelectEntities {
  import opened StableSort
  import opened NameSpans
  import opened NameNormalization
  import opened NormalizedSpans

  type Span = (nat, nat)

  /** An entity found at a place of the question. */
  datatype Match<+E> = Match(start: nat, end: nat, entityType: string, entity: E) {
    function Place(): Span { (start, end) }
  }

  function Length(s: Span): int { s.1 - s.0 }

  predicate Overlap(a: Span, b: Span) { a.0 < b.1 && b.0 < a.1 }

  predicate Holds(s: Span, k: nat) { s.0 <= k < s.1 }

  /** Spans that hold something overlap exactly when some position lies in both. */
  lemma OverlapIsSharing(a: Span, b: Span)
    requires a.0 < a.1 && b.0 < b.1
    ensures Overlap(a, b) <==> exists k: nat :: Holds(a, k) && Holds(b, k)
  {
    var k := if a.0 < b.0 then b.0 else a.0;
    assert Overlap(a, b) ==> Holds(a, k) && Holds(b, k);
  }

  /** Longer first, then further left. */
  ghost predicate Precedes(a: Span, b: Span) {
    a.1 - a.0 > b.1 - b.0 || (a.1 - a.0 == b.1 - b.0 && a.0 < b.0)
  }

  function ByLength(): Comparator<Span> {
    (a: Span, b: Span) => if Length(a) != Length(b) then Length(b) - Length(a) else a.0 - b.0
  }

  lemma ByLengthIsPreorder()
    ensures TotalPreorder(ByLength())
  {
    forall a, b, c ensures PreorderAt(ByLength(), a, b, c) {
    }
  }

  // ---- which spans are occupied ----

  ghost predicate Disjoint(spans: set<Span>) {
    forall a, b :: a in spans && b in spans && a != b ==> !Overlap(a, b)
  }

  /** Disjoint spans, such that any span left out overlaps one that precedes it. */
  ghost predicate Occupies(occupied: set<Span>, spans: set<Span>) {
    && occupied <= spans && Disjoint(occupied)
    && forall s :: s in spans && s !in occupied ==> Displaced(s, occupied)
  }

  ghost predicate Displaced(s: Span, occupied: set<Span>) {
    exists o :: o in occupied && Overlap(o, s) && Precedes(o, s)
  }

  lemma PrecedesTotal(a: Span, b: Span)
    ensures a == b || Precedes(a, b) || Precedes(b, a)
    ensures ByLength()(a, b) <= 0 ==> a == b || Precedes(a, b)
  {
    assert a == (a.0, a.1) && b == (b.0, b.1);
  }

  lemma {:induction false} FirstSpan(spans: set<Span>) returns (first: Span)
    requires spans != {}
    ensures first in spans && forall s :: s in spans && s != first ==> Precedes(first, s)
  {
    var s :| s in spans;
    if spans == {s} {
      first := s;
    } else {
      var rest := FirstSpan(spans - {s});
      PrecedesTotal(s, rest);
      first := if Precedes(s, rest) then s else rest;
      forall t | t in spans && t != first ensures Precedes(first, t) {
        assert t == s || t == rest || Precedes(rest, t);
      }
    }
  }

  lemma TakenByBoth(a: set<Span>, b: set<Span>, spans: set<Span>, s: Span)
    requires Occupies(a, spans) && Occupies(b, spans) && s in a
    requires forall t :: t in spans && Precedes(t, s) ==> (t in a <==> t in b)
    ensures s in b
  {
  }

  /** The occupied spans are determined by the spans alone. */
  lemma OccupiedUnique(a: set<Span>, b: set<Span>, spans: set<Span>)
    requires Occupies(a, spans) && Occupies(b, spans)
    ensures a == b
  {
    var differing := (a - b) + (b - a);
    if differing != {} {
      var s := FirstSpan(differing);
      forall t | t in spans && Precedes(t, s) ensures t in a <==> t in b {
        NoneBefore(differing, s, t);
      }
      if s in a {
        TakenByBoth(a, b, spans, s);
      } else {
        TakenByBoth(b, a, spans, s);
      }
    }
  }

  lemma NoneBefore(spans: set<Span>, first: Span, t: Span)
    requires (forall s :: s in spans && s != first ==> Precedes(first, s)) && Precedes(t, first)
    ensures t !in spans
  {
  }

  // ---- the choice ----

  ghost function SpansOf<E>(found: set<Match<E>>): set<Span> { set m | m in found :: (m.start, m.end) }

  /** Two different entities claim the span. */
  ghost predicate Ambiguous<E(!new)>(found: set<Match<E>>, s: Span) {
    exists m, n :: m in found && n in found && (m.start, m.end) == (n.start, n.end) == s && m != n
  }

  ghost predicate Picked<E(!new)>(found: set<Match<E>>, occupied: set<Span>, m: Match<E>) {
    m in found && (m.start, m.end) in occupied && !Ambiguous(found, (m.start, m.end))
  }

  ghost predicate FirstOfItsEntity<E(!new)>(found: set<Match<E>>, occupied: set<Span>, m: Match<E>) {
    Picked(found, occupied, m) && forall n :: Picked(found, occupied, n) && n.entity == m.entity ==> m.start <= n.start
  }

  ghost predicate InQuestionOrder<E>(chosen: seq<Match<E>>) {
    forall i, j :: 0 <= i < j < |chosen| ==> chosen[i].start < chosen[j].start
  }

  /** The unambiguous occupied matches in question order, each entity once, and whether some span was ambiguous. */
  ghost predicate IsSelection<E(!new)>(found: set<Match<E>>, occupied: set<Span>, chosen: seq<Match<E>>,
      ambiguous: bool)
  {
    && Occupies(occupied, SpansOf(found))
    && InQuestionOrder(chosen)
    && (forall m :: m in chosen <==> FirstOfItsEntity(found, occupied, m))
    && (ambiguous <==> exists s :: s in occupied && Ambiguous(found, s))
  }

  lemma {:induction false} OrderedListsEqual<E>(a: seq<Match<E>>, b: seq<Match<E>>)
    requires InQuestionOrder(a) && InQuestionOrder(b) && forall m :: m in a <==> m in b
    ensures a == b
  {
    NonEmptyTogether(a, b);
    if a != [] {
      assert a[0] in b && b[0] in a;
      assert a[0].start == b[0].start;
      assert a[0] == b[0];
      forall m ensures m in a[1..] <==> m in b[1..] {
        TailMembers(a, m);
        TailMembers(b, m);
      }
      OrderedListsEqual(a[1..], b[1..]);
    }
  }

  lemma NonEmptyTogether<E>(a: seq<Match<E>>, b: seq<Match<E>>)
    requires forall m :: m in a <==> m in b
    ensures a == [] <==> b == []
  {
    if a != [] {
      assert a[0] in b;
    }
    if b != [] {
      assert b[0] in a;
    }
  }

  lemma TailMembers<E>(a: seq<Match<E>>, m: Match<E>)
    requires a != [] && InQuestionOrder(a)
    ensures m in a[1..] <==> m in a && m != a[0]
  {
    if m in a && m != a[0] {
      var i :| 0 <= i < |a| && a[i] == m;
      assert a[1..][i - 1] == m;
    }
  }

  ghost predicate IsChoice<E(!new)>(found: set<Match<E>>, chosen: seq<Match<E>>, ambiguous: bool) {
    exists occupied :: IsSelection(found, occupied, chosen, ambiguous)
  }

  /** The choice depends on the set of matches only, not on their order or repetitions. */
  lemma ChoiceUnique<E(!new)>(found: set<Match<E>>, chosen: seq<Match<E>>, ambiguous: bool, chosen': seq<Match<E>>,
      ambiguous': bool)
    requires IsChoice(found, chosen, ambiguous) && IsChoice(found, chosen', ambiguous')
    ensures chosen == chosen' && ambiguous == ambiguous'
  {
    var occupied :| IsSelection(found, occupied, chosen, ambiguous);
    var occupied' :| IsSelection(found, occupied', chosen', ambiguous');
    OccupiedUnique(occupied, occupied', SpansOf(found));
    OrderedListsEqual(chosen, chosen');
  }

  // ---- the greedy pass ----

  ghost predicate Grouped<E(!new)>(groups: map<Span, seq<Match<E>>>, found: set<Match<E>>) {
    && groups.Keys == SpansOf(found)
    && (forall s :: s in groups ==> groups[s] != [])
    && (forall s, m :: s in groups && m in groups[s] ==> m in found && m.Place() == s)
    && (forall m :: m in found ==> m in groups[m.Place()])
  }

  ghost function Members<E>(ms: seq<Match<E>>): set<Match<E>> { set m | m in ms }

  lemma GroupOne<E(!new)>(groups: map<Span, seq<Match<E>>>, found: set<Match<E>>, m: Match<E>)
    requires Grouped(groups, found)
    ensures Grouped(groups[m.Place() := (if m.Place() in groups then groups[m.Place()] else []) + [m]], found + {m})
  {
    var s := m.Place();
    var group := (if s in groups then groups[s] else []) + [m];
    assert SpansOf(found + {m}) == SpansOf(found) + {s};
    GroupReplaced(groups, found, m, s, group);
  }

  lemma GroupReplaced<E(!new)>(groups: map<Span, seq<Match<E>>>, found: set<Match<E>>, m: Match<E>, s: Span,
      group: seq<Match<E>>)
    requires Grouped(groups, found) && SpansOf(found + {m}) == SpansOf(found) + {s} && s == m.Place()
    requires group == (if s in groups then groups[s] else []) + [m]
    ensures Grouped(groups[s := group], found + {m})
  {
    assert forall n :: n in group ==> n in found + {m} && n.Place() == s;
    assert forall n :: n in found && n.Place() == s ==> n in group;
  }

  lemma MembersSnoc<E>(ms: seq<Match<E>>, i: nat)
    requires i < |ms|
    ensures Members(ms[..i + 1]) == Members(ms[..i]) + {ms[i]}
  {
    assert ms[..i + 1] == ms[..i] + [ms[i]];
  }

  method GroupBySpan<E(==,!new)>(ms: seq<Match<E>>) returns (groups: map<Span, seq<Match<E>>>)
    ensures Grouped(groups, Members(ms))
  {
    groups := map[];
    for i := 0 to |ms|
      invariant Grouped(groups, Members(ms[..i]))
    {
      GroupOne(groups, Members(ms[..i]), ms[i]);
      MembersSnoc(ms, i);
      var s := ms[i].Place();
      groups := groups[s := (if s in groups then groups[s] else []) + [ms[i]]];
    }
    assert ms[..|ms|] == ms;
  }

  method SortedSpans(spans: set<Span>) returns (order: seq<Span>)
    ensures multiset(order) == multiset(spans) && Sorted(order, ByLength())
  {
    var listed: seq<Span> := [];
    var rest := spans;
    while rest != {}
      invariant rest <= spans && multiset(listed) + multiset(rest) == multiset(spans)
      decreases |rest|
    {
      var s :| s in rest;
      listed := listed + [s];
      rest := rest - {s};
    }
    ByLengthIsPreorder();
    SortBySorts(listed, ByLength());
    order := SortBy(listed, ByLength());
  }

  /** The spans in order of precedence, each once. */
  ghost predicate ByPrecedence(order: seq<Span>) {
    forall i, j :: 0 <= i < j < |order| ==> Precedes(order[i], order[j])
  }

  lemma SortedIsByPrecedence(order: seq<Span>, spans: set<Span>)
    requires multiset(order) == multiset(spans) && Sorted(order, ByLength())
    ensures ByPrecedence(order) && forall s :: s in order <==> s in spans
  {
    forall s ensures s in order <==> s in spans {
      assert s in multiset(order) <==> s in multiset(spans);
    }
    forall i, j | 0 <= i < j < |order| ensures Precedes(order[i], order[j]) {
      assert ByLength()(order[i], order[j]) <= 0;
      OnceInSet(order, spans, i, j);
      PrecedesTotal(order[i], order[j]);
    }
  }

  lemma OnceInSet(order: seq<Span>, spans: set<Span>, i: nat, j: nat)
    requires multiset(order) == multiset(spans) && i < j < |order|
    ensures order[i] != order[j]
  {
    assert order == order[..j] + order[j..];
    assert order[i] in order[..j] && order[j] in order[j..];
    assert multiset(order)[order[i]] <= 1;
  }

  predicate OverlapsAny(s: Span, occupied: seq<Span>) { exists i :: 0 <= i < |occupied| && Overlap(occupied[i], s) }

  ghost function Taken(occupied: seq<Span>): set<Span> { set s | s in occupied }

  /** `occupied` is the outcome for the spans handled so far. */
  ghost predicate OccupiesPrefix(occupied: seq<Span>, order: seq<Span>, n: nat)
    requires n <= |order|
  {
    && (forall s :: s in occupied ==> s in order[..n])
    && Disjoint(Taken(occupied))
    && forall i :: 0 <= i < n && order[i] !in occupied ==> Displaced(order[i], Taken(occupied))
  }

  lemma OneMoreSpan(occupied: seq<Span>, order: seq<Span>, n: nat)
    requires n < |order| && ByPrecedence(order) && OccupiesPrefix(occupied, order, n)
    ensures OverlapsAny(order[n], occupied) ==> OccupiesPrefix(occupied, order, n + 1)
    ensures !OverlapsAny(order[n], occupied) ==> OccupiesPrefix(occupied + [order[n]], order, n + 1)
  {
    var s := order[n];
    assert order[..n + 1] == order[..n] + [s];
    if OverlapsAny(s, occupied) {
      SpanDisplaced(occupied, order, n);
    } else {
      SpanTaken(occupied, order, n);
    }
  }

  lemma SpanDisplaced(occupied: seq<Span>, order: seq<Span>, n: nat)
    requires n < |order| && ByPrecedence(order) && OccupiesPrefix(occupied, order, n) && OverlapsAny(order[n], occupied)
    ensures Displaced(order[n], Taken(occupied))
  {
    var i :| 0 <= i < |occupied| && Overlap(occupied[i], order[n]);
    assert occupied[i] in order[..n];
    var k :| 0 <= k < n && order[k] == occupied[i];
    assert Precedes(order[k], order[n]);
  }

  lemma SpanTaken(occupied: seq<Span>, order: seq<Span>, n: nat)
    requires n < |order| && OccupiesPrefix(occupied, order, n) && !OverlapsAny(order[n], occupied)
    ensures OccupiesPrefix(occupied + [order[n]], order, n + 1)
  {
    var s := order[n];
    var more := occupied + [s];
    assert order[..n + 1] == order[..n] + [s];
    assert forall o :: o in occupied ==> !Overlap(o, s) && !Overlap(s, o) by {
      forall o | o in occupied ensures !Overlap(o, s) {
        var i :| 0 <= i < |occupied| && occupied[i] == o;
      }
    }
    forall i | 0 <= i < n + 1 && order[i] !in more ensures Displaced(order[i], Taken(more)) {
      assert order[i] !in occupied && i < n;
      var o :| o in Taken(occupied) && Overlap(o, order[i]) && Precedes(o, order[i]);
      assert o in more;
    }
  }

  lemma PrefixOccupies(occupied: seq<Span>, order: seq<Span>, spans: set<Span>)
    requires OccupiesPrefix(occupied, order, |order|) && forall s :: s in order <==> s in spans
    ensures Occupies(Taken(occupied), spans)
  {
    assert order[..|order|] == order;
    forall s | s in spans && s !in Taken(occupied) ensures Displaced(s, Taken(occupied)) {
      var i :| 0 <= i < |order| && order[i] == s;
      assert order[i] !in occupied;
    }
  }

  /** All candidates of a span name one entity. */
  predicate OneIdentity<E(==)>(candidates: seq<Match<E>>)
    requires candidates != []
  {
    forall i :: 0 <= i < |candidates| ==> candidates[i] == candidates[0]
  }

  lemma OneIdentityIff<E(!new)>(groups: map<Span, seq<Match<E>>>, found: set<Match<E>>, s: Span)
    requires Grouped(groups, found) && s in groups
    ensures OneIdentity(groups[s]) <==> !Ambiguous(found, s)
    ensures OneIdentity(groups[s]) ==> forall m :: m in found && m.Place() == s <==> m == groups[s][0]
  {
    var candidates := groups[s];
    assert candidates[0] in candidates;
    if OneIdentity(candidates) {
      forall m | m in found && m.Place() == s ensures m == candidates[0] {
        assert m in candidates;
      }
    } else {
      var i :| 0 <= i < |candidates| && candidates[i] != candidates[0];
      assert candidates[i] in candidates;
      assert candidates[i] in found && candidates[0] in found && candidates[i].Place() == candidates[0].Place();
    }
  }

  /** `selected` holds the unambiguous matches of the spans taken so far. */
  ghost predicate Selected<E(!new)>(found: set<Match<E>>, occupied: seq<Span>, selected: seq<Match<E>>,
      ambiguous: bool)
  {
    && (forall m :: m in selected <==> Picked(found, Taken(occupied), m))
    && (ambiguous <==> exists s :: s in occupied && Ambiguous(found, s))
  }

  lemma SelectOne<E(!new)>(groups: map<Span, seq<Match<E>>>, found: set<Match<E>>, occupied: seq<Span>,
      selected: seq<Match<E>>, ambiguous: bool, s: Span)
    requires Grouped(groups, found) && s in groups && Selected(found, occupied, selected, ambiguous)
    ensures OneIdentity(groups[s]) ==> Selected(found, occupied + [s], selected + [groups[s][0]], ambiguous)
    ensures !OneIdentity(groups[s]) ==> Selected(found, occupied + [s], selected, true)
  {
    OneIdentityIff(groups, found, s);
    var more := occupied + [s];
    assert Taken(more) == Taken(occupied) + {s};
    assert s in more && forall t :: t in occupied ==> t in more;
    if OneIdentity(groups[s]) {
      assert ambiguous ==> exists t :: t in more && Ambiguous(found, t);
    }
  }

  /** Goes through the spans by precedence and takes each one that overlaps none taken before. */
  method TakeGreedily<E(==,!new)>(groups: map<Span, seq<Match<E>>>, order: seq<Span>, ghost found: set<Match<E>>)
    returns (ghost occupied: seq<Span>, selected: seq<Match<E>>, ambiguous: bool)
    requires Grouped(groups, found) && ByPrecedence(order) && forall s :: s in order <==> s in groups
    ensures OccupiesPrefix(occupied, order, |order|) && Selected(found, occupied, selected, ambiguous)
  {
    var taken: seq<Span> := [];
    selected, ambiguous := [], false;
    for n := 0 to |order|
      invariant OccupiesPrefix(taken, order, n) && Selected(found, taken, selected, ambiguous)
    {
      var s := order[n];
      OneMoreSpan(taken, order, n);
      if OverlapsAny(s, taken) {
        continue;
      }
      SelectOne(groups, found, taken, selected, ambiguous, s);
      taken := taken + [s];
      if !OneIdentity(groups[s]) {
        ambiguous := true;
        continue;
      }
      selected := selected + [groups[s][0]];
    }
    occupied := taken;
  }

  function ByStart<E>(): Comparator<Match<E>> { (a: Match<E>, b: Match<E>) => a.start - b.start }

  lemma ByStartIsPreorder<E(!new)>()
    ensures TotalPreorder(ByStart<E>())
  {
    forall a, b, c ensures PreorderAt(ByStart<E>(), a, b, c) {
    }
  }

  predicate NamesEntity<E(==)>(chosen: seq<Match<E>>, entity: E) {
    exists i :: 0 <= i < |chosen| && chosen[i].entity == entity
  }

  /** Keeps the first match of each entity. */
  function KeepFirst<E(==)>(sorted: seq<Match<E>>): seq<Match<E>> {
    if sorted == [] then []
    else
      var front, last := KeepFirst(sorted[..|sorted| - 1]), sorted[|sorted| - 1];
      if NamesEntity(front, last.entity) then front else front + [last]
  }

  method Deduplicate<E(==)>(sorted: seq<Match<E>>) returns (unique: seq<Match<E>>)
    ensures unique == KeepFirst(sorted)
  {
    unique := [];
    for i := 0 to |sorted|
      invariant unique == KeepFirst(sorted[..i])
    {
      assert sorted[..i + 1][..i] == sorted[..i];
      if !NamesEntity(unique, sorted[i].entity) {
        unique := unique + [sorted[i]];
      }
    }
    assert sorted[..|sorted|] == sorted;
  }

  ghost predicate InOrder<E>(ms: seq<Match<E>>) { forall i, j :: 0 <= i < j < |ms| ==> ms[i].start <= ms[j].start }

  ghost predicate DistinctEntities<E>(ms: seq<Match<E>>) {
    forall i, j :: 0 <= i < j < |ms| ==> ms[i].entity != ms[j].entity
  }

  lemma {:induction false} KeptSubset<E>(sorted: seq<Match<E>>, m: Match<E>)
    requires m in KeepFirst(sorted)
    ensures m in sorted
  {
    var front, last := sorted[..|sorted| - 1], sorted[|sorted| - 1];
    assert sorted == front + [last];
    if m in KeepFirst(front) {
      KeptSubset(front, m);
    }
  }

  lemma {:induction false} KeptInOrder<E>(sorted: seq<Match<E>>)
    requires InOrder(sorted)
    ensures InOrder(KeepFirst(sorted)) && DistinctEntities(KeepFirst(sorted))
  {
    if sorted != [] {
      var n := |sorted| - 1;
      var front := KeepFirst(sorted[..n]);
      KeptInOrder(sorted[..n]);
      forall i | 0 <= i < |front| ensures front[i].start <= sorted[n].start {
        KeptSubset(sorted[..n], front[i]);
        var k :| 0 <= k < n && sorted[..n][k] == front[i];
      }
    }
  }

  /** Every match has a kept one of its entity that starts no later. */
  lemma {:induction false} KeptRepresents<E>(sorted: seq<Match<E>>, m: Match<E>) returns (kept: Match<E>)
    requires InOrder(sorted) && m in sorted
    ensures kept in KeepFirst(sorted) && kept.entity == m.entity && kept.start <= m.start
  {
    var n := |sorted| - 1;
    var front, last := sorted[..n], sorted[n];
    assert sorted == front + [last];
    if m in front {
      kept := KeptRepresents(front, m);
    } else if NamesEntity(KeepFirst(front), last.entity) {
      var i :| 0 <= i < |KeepFirst(front)| && KeepFirst(front)[i].entity == last.entity;
      kept := KeepFirst(front)[i];
      KeptSubset(front, kept);
      var k :| 0 <= k < n && front[k] == kept;
    } else {
      kept := last;
    }
  }

  /** Picked matches that start at one place are one match. */
  lemma SameStart<E(!new)>(found: set<Match<E>>, occupied: set<Span>, m: Match<E>, n: Match<E>)
    requires (forall k :: k in found ==> k.start < k.end) && Disjoint(occupied)
    requires Picked(found, occupied, m) && Picked(found, occupied, n) && m.start == n.start
    ensures m == n
  {
    assert Overlap(m.Place(), n.Place());
    assert m.Place() == n.Place();
  }

  /** `sorted` lists the picked matches. */
  ghost predicate ListsPicked<E(!new)>(found: set<Match<E>>, occupied: set<Span>, sorted: seq<Match<E>>) {
    && (forall k :: k in found ==> k.start < k.end) && Disjoint(occupied) && InOrder(sorted)
    && forall k :: k in sorted <==> Picked(found, occupied, k)
  }

  lemma KeptIsFirst<E(!new)>(found: set<Match<E>>, occupied: set<Span>, sorted: seq<Match<E>>, m: Match<E>)
    requires ListsPicked(found, occupied, sorted) && m in KeepFirst(sorted)
    ensures FirstOfItsEntity(found, occupied, m)
  {
    KeptSubset(sorted, m);
    KeptInOrder(sorted);
    forall n | Picked(found, occupied, n) && n.entity == m.entity ensures m.start <= n.start {
      var r := KeptRepresents(sorted, n);
      SameEntity(KeepFirst(sorted), r, m);
    }
  }

  lemma FirstIsKept<E(!new)>(found: set<Match<E>>, occupied: set<Span>, sorted: seq<Match<E>>, m: Match<E>)
    requires ListsPicked(found, occupied, sorted) && FirstOfItsEntity(found, occupied, m)
    ensures m in KeepFirst(sorted)
  {
    var r := KeptRepresents(sorted, m);
    KeptSubset(sorted, r);
    SameStart(found, occupied, m, r);
  }

  lemma SameEntity<E>(ms: seq<Match<E>>, m: Match<E>, n: Match<E>)
    requires DistinctEntities(ms) && m in ms && n in ms && m.entity == n.entity
    ensures m == n
  {
    var i :| 0 <= i < |ms| && ms[i] == m;
    var j :| 0 <= j < |ms| && ms[j] == n;
  }

  lemma KeptInQuestionOrder<E(!new)>(found: set<Match<E>>, occupied: set<Span>, sorted: seq<Match<E>>)
    requires ListsPicked(found, occupied, sorted)
    ensures InQuestionOrder(KeepFirst(sorted))
  {
    var kept := KeepFirst(sorted);
    KeptInOrder(sorted);
    forall i, j | 0 <= i < j < |kept| ensures kept[i].start < kept[j].start {
      StartsDiffer(found, occupied, sorted, kept[i], kept[j]);
    }
  }

  lemma StartsDiffer<E(!new)>(found: set<Match<E>>, occupied: set<Span>, sorted: seq<Match<E>>, m: Match<E>,
      n: Match<E>)
    requires ListsPicked(found, occupied, sorted) && m in KeepFirst(sorted) && n in KeepFirst(sorted)
      && m.entity != n.entity
    ensures m.start != n.start
  {
    KeptSubset(sorted, m);
    KeptSubset(sorted, n);
    if m.start == n.start {
      SameStart(found, occupied, m, n);
    }
  }

  lemma SortedIsInOrder<E(!new)>(selected: seq<Match<E>>)
    ensures InOrder(SortBy(selected, ByStart<E>()))
    ensures forall m :: m in SortBy(selected, ByStart<E>()) <==> m in selected
  {
    var sorted := SortBy(selected, ByStart<E>());
    ByStartIsPreorder<E>();
    SortBySorts(selected, ByStart<E>());
    forall m ensures m in sorted <==> m in selected {
      assert m in multiset(sorted) <==> m in multiset(selected);
    }
    forall i, j | 0 <= i < j < |sorted| ensures sorted[i].start <= sorted[j].start {
      assert ByStart<E>()(sorted[i], sorted[j]) <= 0;
    }
  }

  /** The longest names that do not overlap, in question order and each entity once. */
  method SelectLiteralEntities<E(==,!new)>(ms: seq<Match<E>>) returns (chosen: seq<Match<E>>, ambiguous: bool)
    requires forall m :: m in ms ==> m.start < m.end
    ensures IsChoice(Members(ms), chosen, ambiguous)
  {
    ghost var found := Members(ms);
    var groups := GroupBySpan(ms);
    var order := SortedSpans(groups.Keys);
    SortedIsByPrecedence(order, groups.Keys);
    ghost var taken: seq<Span>;
    var selected: seq<Match<E>>;
    taken, selected, ambiguous := TakeGreedily(groups, order, found);
    ghost var occupied := Taken(taken);
    PrefixOccupies(taken, order, SpansOf(found));
    var sorted := SortBy(selected, ByStart<E>());
    SortedIsInOrder(selected);
    chosen := Deduplicate(sorted);
    KeptInQuestionOrder(found, occupied, sorted);
    forall m ensures m in chosen <==> FirstOfItsEntity(found, occupied, m) {
      if m in chosen {
        KeptIsFirst(found, occupied, sorted, m);
      } else if FirstOfItsEntity(found, occupied, m) {
        FirstIsKept(found, occupied, sorted, m);
      }
    }
    assert IsSelection(found, occupied, chosen, ambiguous);
  }

  // ---- names inside a chosen entity ----

  predicate Inside(s: Span, containers: seq<Span>) {
    exists i :: 0 <= i < |containers| && containers[i].0 <= s.0 && s.1 <= containers[i].1
  }

  predicate AllInside(spans: seq<Span>, containers: seq<Span>) {
    forall i :: 0 <= i < |spans| ==> Inside(spans[i], containers)
  }

  function ContainersOf<E>(chosen: seq<Match<E>>, entityType: string): seq<Span> {
    if chosen == [] then []
    else
      (if chosen[0].entityType == entityType then [chosen[0].Place()] else [])
      + ContainersOf(chosen[1..], entityType)
  }

  /** The place is an occurrence of the name, under the first of the three readings that occurs at all. */
  ghost predicate Occurrence(q: string, name: string, fold: Folding, a: nat, b: nat) {
    || IsLiteralSpan(q, name, fold, a, b)
    || (NoLiteral(q, name, fold) && NameComparison(Fold(name, fold), false) != []
        && IsNormalizedSpan(q, name, fold, false, a, b))
    || (NoLiteral(q, name, fold) && NoNormalized(q, name, fold, false) && NameComparison(Fold(name, fold), true) != []
        && IsNormalizedSpan(q, name, fold, true, a, b))
  }

  ghost predicate NoLiteral(q: string, name: string, fold: Folding) {
    forall a: nat, b: nat :: !IsLiteralSpan(q, name, fold, a, b)
  }

  ghost predicate NoNormalized(q: string, name: string, fold: Folding, removeCommas: bool) {
    || NameComparison(Fold(name, fold), removeCommas) == []
    || forall a: nat, b: nat :: !IsNormalizedSpan(q, name, fold, removeCommas, a, b)
  }

  /** Where a looked-up name occurs: literally, else up to white space and commas, else without commas. */
  method Occurrences(q: string, name: string, fold: Folding) returns (spans: seq<Span>)
    requires Lawful(fold)
    ensures forall a: nat, b: nat :: (a, b) in spans <==> Occurrence(q, name, fold, a, b)
  {
    spans := LiteralNameSpans(q, name, fold);
    if spans != [] {
      assert spans[0] == (spans[0].0, spans[0].1);
      return;
    }
    assert NoLiteral(q, name, fold);
    spans := NormalizedNameSpans(q, name, fold, false);
    if spans != [] {
      assert spans[0] == (spans[0].0, spans[0].1);
      return;
    }
    assert NoNormalized(q, name, fold, false);
    spans := NormalizedNameSpans(q, name, fold, true);
  }

  /** Some chosen entity of the type covers the place. */
  ghost predicate Covered<E(!new)>(chosen: seq<Match<E>>, entityType: string, a: nat, b: nat) {
    exists m :: m in chosen && Contains(m, entityType, a, b)
  }

  ghost predicate Contains<E>(m: Match<E>, entityType: string, a: nat, b: nat) {
    m.entityType == entityType && m.start <= a && b <= m.end
  }

  lemma {:induction false} InsideContainer<E(!new)>(chosen: seq<Match<E>>, entityType: string, a: nat, b: nat)
    ensures Inside((a, b), ContainersOf(chosen, entityType)) <==> Covered(chosen, entityType, a, b)
  {
    if chosen != [] {
      var rest := ContainersOf(chosen[1..], entityType);
      var first := if chosen[0].entityType == entityType then [chosen[0].Place()] else [];
      InsideContainer(chosen[1..], entityType, a, b);
      InsideEither((a, b), first, rest);
      assert Inside((a, b), first) <==> Contains(chosen[0], entityType, a, b) by {
        if Contains(chosen[0], entityType, a, b) {
          assert first[0] == chosen[0].Place();
        }
      }
      CoveredEither(chosen, entityType, a, b);
    }
  }

  lemma CoveredEither<E(!new)>(chosen: seq<Match<E>>, entityType: string, a: nat, b: nat)
    requires chosen != []
    ensures Covered(chosen, entityType, a, b) <==>
            Contains(chosen[0], entityType, a, b) || Covered(chosen[1..], entityType, a, b)
  {
    forall m ensures m in chosen <==> m == chosen[0] || m in chosen[1..] {
      assert chosen == [chosen[0]] + chosen[1..];
    }
  }

  lemma InsideEither(s: Span, first: seq<Span>, rest: seq<Span>)
    ensures Inside(s, first + rest) <==> Inside(s, first) || Inside(s, rest)
  {
    if Inside(s, first) {
      var i :| 0 <= i < |first| && first[i].0 <= s.0 && s.1 <= first[i].1;
      assert (first + rest)[i] == first[i];
    }
    if Inside(s, rest) {
      var i :| 0 <= i < |rest| && rest[i].0 <= s.0 && s.1 <= rest[i].1;
      assert (first + rest)[|first| + i] == rest[i];
    }
  }

  /** A looked-up name is redundant when it occurs, and each time inside a chosen entity of its type. */
  method LookupIsInsideSelected<E(!new)>(q: string, entityType: string, name: string, fold: Folding,
      chosen: seq<Match<E>>) returns (redundant: bool)
    requires Lawful(fold)
    ensures redundant <==>
            && (exists a: nat, b: nat :: Occurrence(q, name, fold, a, b))
            && forall a: nat, b: nat :: Occurrence(q, name, fold, a, b) ==> Covered(chosen, entityType, a, b)
  {
    var containers := ContainersOf(chosen, entityType);
    var spans := Occurrences(q, name, fold);
    redundant := containers != [] && spans != [] && AllInside(spans, containers);
    forall a: nat, b: nat ensures Inside((a, b), containers) <==> Covered(chosen, entityType, a, b) {
      InsideContainer(chosen, entityType, a, b);
    }
    if spans != [] {
      SpanOccurs(spans, 0, q, name, fold);
    }
    if spans != [] && !AllInside(spans, containers) {
      var i :| 0 <= i < |spans| && !Inside(spans[i], containers);
      SpanOccurs(spans, i, q, name, fold);
      assert !Inside((spans[i].0, spans[i].1), containers);
    }
    if redundant {
      forall a: nat, b: nat | Occurrence(q, name, fold, a, b) ensures Inside((a, b), containers) {
        var i :| 0 <= i < |spans| && spans[i] == (a, b);
      }
    }
  }

  lemma SpanOccurs(spans: seq<Span>, i: nat, q: string, name: string, fold: Folding)
    requires i < |spans|
    requires forall a: nat, b: nat :: (a, b) in spans <==> Occurrence(q, name, fold, a, b)
    ensures Occurrence(q, name, fold, spans[i].0, spans[i].1) && spans[i] == (spans[i].0, spans[i].1)
  {
    assert (spans[i].0, spans[i].1) in spans;
  }
}
