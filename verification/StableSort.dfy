/** Stable sorting by a three-way comparator, as `list.sort` performs it. */
module StableSort {
  import opened Collections

  type Comparator<!T> = (T, T) -> int

  predicate PreorderAt<T>(cmp: Comparator<T>, a: T, b: T, c: T) {
    && (cmp(a, b) < 0 <==> cmp(b, a) > 0)
    && (cmp(a, b) <= 0 && cmp(b, c) <= 0 ==>
          cmp(a, c) <= 0 && (cmp(a, c) == 0 <==> cmp(a, b) == 0 && cmp(b, c) == 0))
  }

  /** The comparator is antisymmetric and transitive, and a tie is an equivalence. */
  ghost predicate TotalPreorder<T(!new)>(cmp: Comparator<T>) {
    forall a, b, c :: PreorderAt(cmp, a, b, c)
  }

  predicate Sorted<T>(xs: seq<T>, cmp: Comparator<T>) {
    forall i, j :: 0 <= i < j < |xs| ==> cmp(xs[i], xs[j]) <= 0
  }

  function Insert<T>(x: T, xs: seq<T>, cmp: Comparator<T>): seq<T> {
    if xs == [] then [x]
    else if cmp(x, xs[0]) <= 0 then [x] + xs
    else [xs[0]] + Insert(x, xs[1..], cmp)
  }

  function SortBy<T>(xs: seq<T>, cmp: Comparator<T>): seq<T> {
    if xs == [] then [] else Insert(xs[0], SortBy(xs[1..], cmp), cmp)
  }

  function Tie<T>(x: T, pivot: T, cmp: Comparator<T>): seq<T> { if cmp(x, pivot) == 0 then [x] else [] }

  /** The elements that tie with `pivot`, in their order of appearance. */
  function Ties<T>(xs: seq<T>, pivot: T, cmp: Comparator<T>): seq<T> {
    if xs == [] then []
    else Tie(xs[0], pivot, cmp) + Ties(xs[1..], pivot, cmp)
  }

  lemma {:induction false} InsertMultiset<T>(x: T, xs: seq<T>, cmp: Comparator<T>)
    ensures multiset(Insert(x, xs, cmp)) == multiset{x} + multiset(xs)
  {
    if xs != [] && cmp(x, xs[0]) > 0 {
      InsertMultiset(x, xs[1..], cmp);
      assert xs == [xs[0]] + xs[1..];
    }
  }

  lemma SortedCons<T>(x: T, xs: seq<T>, cmp: Comparator<T>)
    requires Sorted(xs, cmp) && forall k :: 0 <= k < |xs| ==> cmp(x, xs[k]) <= 0
    ensures Sorted([x] + xs, cmp)
  {
  }

  lemma {:induction false} InsertSorts<T(!new)>(x: T, xs: seq<T>, cmp: Comparator<T>)
    requires TotalPreorder(cmp) && Sorted(xs, cmp)
    ensures Sorted(Insert(x, xs, cmp), cmp)
  {
    if xs == [] {
    } else if cmp(x, xs[0]) <= 0 {
      forall k | 0 <= k < |xs| ensures cmp(x, xs[k]) <= 0 {
        assert PreorderAt(cmp, x, xs[0], xs[k]);
      }
      SortedCons(x, xs, cmp);
    } else {
      var tail := Insert(x, xs[1..], cmp);
      InsertSorts(x, xs[1..], cmp);
      InsertMultiset(x, xs[1..], cmp);
      forall k | 0 <= k < |tail| ensures cmp(xs[0], tail[k]) <= 0 {
        assert tail[k] in multiset(tail);
        assert PreorderAt(cmp, x, xs[0], x) && PreorderAt(cmp, xs[0], x, x);
        assert tail[k] == x || tail[k] in xs[1..];
      }
      SortedCons(xs[0], tail, cmp);
    }
  }

  lemma {:induction false} SortBySorts<T(!new)>(xs: seq<T>, cmp: Comparator<T>)
    requires TotalPreorder(cmp)
    ensures Sorted(SortBy(xs, cmp), cmp)
    ensures multiset(SortBy(xs, cmp)) == multiset(xs)
  {
    if xs != [] {
      SortBySorts(xs[1..], cmp);
      InsertSorts(xs[0], SortBy(xs[1..], cmp), cmp);
      InsertMultiset(xs[0], SortBy(xs[1..], cmp), cmp);
      assert xs == [xs[0]] + xs[1..];
    }
  }

  lemma TiesCons<T>(x: T, xs: seq<T>, pivot: T, cmp: Comparator<T>)
    ensures Ties([x] + xs, pivot, cmp) == Tie(x, pivot, cmp) + Ties(xs, pivot, cmp)
  {
    assert ([x] + xs)[1..] == xs;
  }

  lemma TiesCommute<T(!new)>(x: T, y: T, pivot: T, cmp: Comparator<T>)
    requires TotalPreorder(cmp) && cmp(x, y) > 0
    ensures Tie(y, pivot, cmp) + Tie(x, pivot, cmp) == Tie(x, pivot, cmp) + Tie(y, pivot, cmp)
  {
    DifferentElementsDoNotBothTie(x, y, pivot, cmp);
  }

  lemma {:induction false} InsertStable<T(!new)>(x: T, xs: seq<T>, pivot: T, cmp: Comparator<T>)
    requires TotalPreorder(cmp)
    ensures Ties(Insert(x, xs, cmp), pivot, cmp) == Tie(x, pivot, cmp) + Ties(xs, pivot, cmp)
  {
    if xs == [] || cmp(x, xs[0]) <= 0 {
      TiesCons(x, xs, pivot, cmp);
      assert [x] + xs == Insert(x, xs, cmp);
    } else {
      var y, rest := xs[0], xs[1..];
      InsertStable(x, rest, pivot, cmp);
      TiesCons(y, Insert(x, rest, cmp), pivot, cmp);
      TiesCommute(x, y, pivot, cmp);
      Regroup(Tie(y, pivot, cmp), Tie(x, pivot, cmp), Ties(rest, pivot, cmp));
      Regroup(Tie(x, pivot, cmp), Tie(y, pivot, cmp), Ties(rest, pivot, cmp));
    }
  }

  lemma DifferentElementsDoNotBothTie<T(!new)>(x: T, y: T, pivot: T, cmp: Comparator<T>)
    requires TotalPreorder(cmp) && cmp(x, y) > 0
    ensures cmp(x, pivot) != 0 || cmp(y, pivot) != 0
  {
    assert PreorderAt(cmp, x, pivot, y) && PreorderAt(cmp, pivot, y, x) && PreorderAt(cmp, y, pivot, x);
  }

  /** Elements that tie keep their input order. */
  lemma {:induction false} SortByStable<T(!new)>(xs: seq<T>, pivot: T, cmp: Comparator<T>)
    requires TotalPreorder(cmp)
    ensures Ties(SortBy(xs, cmp), pivot, cmp) == Ties(xs, pivot, cmp)
  {
    if xs != [] {
      var tail := SortBy(xs[1..], cmp);
      SortByStable(xs[1..], pivot, cmp);
      InsertStable(xs[0], tail, pivot, cmp);
    }
  }

  /** The comparator tells any two different elements apart. */
  predicate Separates<T(==)>(xs: seq<T>, cmp: Comparator<T>) {
    forall i, j :: 0 <= i < |xs| && 0 <= j < |xs| && cmp(xs[i], xs[j]) == 0 ==> xs[i] == xs[j]
  }

  lemma TailMultiset<T>(xs: seq<T>)
    requires xs != []
    ensures multiset(xs[1..]) == multiset(xs) - multiset{xs[0]}
  {
    assert xs == [xs[0]] + xs[1..];
  }

  lemma HeadsTie<T(!new)>(xs: seq<T>, ys: seq<T>, cmp: Comparator<T>)
    requires TotalPreorder(cmp) && Sorted(xs, cmp) && Sorted(ys, cmp)
    requires xs != [] && ys != [] && xs[0] in ys && ys[0] in xs
    ensures cmp(xs[0], ys[0]) == 0
  {
    assert PreorderAt(cmp, xs[0], ys[0], xs[0]) && PreorderAt(cmp, ys[0], xs[0], ys[0]);
    assert PreorderAt(cmp, xs[0], xs[0], xs[0]) && PreorderAt(cmp, ys[0], ys[0], ys[0]);
  }

  lemma {:induction false} SortedUnique<T(!new)>(xs: seq<T>, ys: seq<T>, cmp: Comparator<T>)
    requires TotalPreorder(cmp)
    requires Sorted(xs, cmp) && Sorted(ys, cmp) && Separates(xs, cmp)
    requires multiset(xs) == multiset(ys)
    ensures xs == ys
  {
    if xs == [] || ys == [] {
      assert |multiset(xs)| == |xs| && |multiset(ys)| == |ys|;
    } else {
      var x, y := xs[0], ys[0];
      assert x in multiset(ys) && y in multiset(xs);
      HeadsTie(xs, ys, cmp);
      TailMultiset(xs);
      TailMultiset(ys);
      SortedUnique(xs[1..], ys[1..], cmp);
    }
  }

  lemma SeparatesPermutation<T>(xs: seq<T>, ys: seq<T>, cmp: Comparator<T>)
    requires multiset(xs) == multiset(ys) && Separates(xs, cmp)
    ensures Separates(ys, cmp)
  {
    forall i, j | 0 <= i < |ys| && 0 <= j < |ys| && cmp(ys[i], ys[j]) == 0
      ensures ys[i] == ys[j]
    {
      assert ys[i] in multiset(xs) && ys[j] in multiset(xs);
    }
  }

  lemma FrontingElement<T>(xs: seq<T>, i: nat) returns (p: seq<T>)
    requires i < |xs|
    ensures multiset(p) == multiset(xs) && |p| > 0 && p[0] == xs[i]
  {
    p := [xs[i]] + (xs[..i] + xs[i + 1..]);
    assert xs == xs[..i] + ([xs[i]] + xs[i + 1..]);
  }

  ghost predicate OrderInsensitive<T(!new)>(xs: seq<T>, cmp: Comparator<T>) {
    forall p, q: seq<T> :: multiset(p) == multiset(xs) && multiset(q) == multiset(xs) ==>
      SortBy(p, cmp) == SortBy(q, cmp)
  }

  /** Every order of the same elements sorts to the same list exactly when the
      comparator separates them. */
  lemma OrderInsensitiveIffSeparates<T(!new)>(xs: seq<T>, cmp: Comparator<T>)
    requires TotalPreorder(cmp)
    ensures OrderInsensitive(xs, cmp) <==> Separates(xs, cmp)
  {
    if Separates(xs, cmp) {
      forall p, q: seq<T> | multiset(p) == multiset(xs) && multiset(q) == multiset(xs)
        ensures SortBy(p, cmp) == SortBy(q, cmp)
      {
        SortBySorts(p, cmp);
        SortBySorts(q, cmp);
        SeparatesPermutation(xs, SortBy(p, cmp), cmp);
        SortedUnique(SortBy(p, cmp), SortBy(q, cmp), cmp);
      }
    } else {
      var i, j :| 0 <= i < |xs| && 0 <= j < |xs| && cmp(xs[i], xs[j]) == 0 && xs[i] != xs[j];
      var p := FrontingElement(xs, i);
      var q := FrontingElement(xs, j);
      SortByStable(p, xs[i], cmp);
      SortByStable(q, xs[i], cmp);
      assert PreorderAt(cmp, xs[i], xs[i], xs[i]) && PreorderAt(cmp, xs[i], xs[j], xs[i]);
      assert PreorderAt(cmp, xs[j], xs[i], xs[j]);
      assert Ties(p, xs[i], cmp)[0] == xs[i];
      assert Ties(q, xs[i], cmp)[0] == xs[j];
    }
  }
}
