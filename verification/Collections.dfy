/** Facts about sequences and sets that several models share. */
module Collections {

  predicate NoDuplicates<T(==)>(xs: seq<T>) { forall i, j :: 0 <= i < j < |xs| ==> xs[i] != xs[j] }

  lemma ConcatDistinct<T>(a: seq<T>, b: seq<T>)
    requires NoDuplicates(a) && NoDuplicates(b) && forall x :: x in a ==> x !in b
    ensures NoDuplicates(a + b)
  {
    forall i, j | 0 <= i < j < |a + b| ensures (a + b)[i] != (a + b)[j] {
      if i < |a| && |a| <= j {
        assert (a + b)[i] in a && (a + b)[j] in b;
      }
    }
  }

  lemma {:induction false} DistinctIffCounted<T>(xs: seq<T>)
    ensures |set x | x in xs| <= |xs|
    ensures |set x | x in xs| == |xs| <==> NoDuplicates(xs)
  {
    if xs == [] {
      assert (set x | x in xs) == {};
    } else {
      var n := |xs| - 1;
      var front, last := xs[..n], xs[n];
      DistinctIffCounted(front);
      assert xs == front + [last];
      assert (set x | x in xs) == (set x | x in front) + {last};
      if NoDuplicates(xs) {
        assert forall k :: 0 <= k < n ==> front[k] == xs[k];
      } else if NoDuplicates(front) {
        var i, j :| 0 <= i < j < |xs| && xs[i] == xs[j];
        assert j == n && front[i] == last;
      }
    }
  }

  lemma {:induction false} SubsetSize<T>(a: set<T>, b: set<T>)
    requires a <= b
    ensures |a| <= |b|
  {
    if a != {} {
      var x :| x in a;
      SubsetSize(a - {x}, b - {x});
    }
  }

  function Last<T>(xs: seq<T>): T
    requires xs != []
  {
    xs[|xs| - 1]
  }

  lemma Regroup<T>(a: seq<T>, b: seq<T>, c: seq<T>)
    ensures a + (b + c) == a + b + c
  {
  }

  lemma LastOfConcat<T>(front: seq<T>, back: seq<T>)
    requires back != []
    ensures Last(front + back) == Last(back)
  {
  }

  function Flatten<T>(groups: seq<seq<T>>): seq<T> {
    if groups == [] then [] else Flatten(groups[..|groups| - 1]) + groups[|groups| - 1]
  }

  /** The different elements, in the order in which they first occur. */
  function FirstSeen<T(==)>(xs: seq<T>): seq<T> {
    if xs == [] then []
    else
      var front := FirstSeen(xs[..|xs| - 1]);
      if xs[|xs| - 1] in front then front else front + [xs[|xs| - 1]]
  }

  lemma {:induction false} FirstSeenMembers<T>(xs: seq<T>)
    ensures forall x :: x in FirstSeen(xs) <==> x in xs
    ensures NoDuplicates(FirstSeen(xs))
  {
    if xs != [] {
      FirstSeenMembers(xs[..|xs| - 1]);
      assert xs == xs[..|xs| - 1] + [xs[|xs| - 1]];
    }
  }

  lemma FirstSeenAt<T>(xs: seq<T>, i: nat)
    requires i < |FirstSeen(xs)|
    ensures FirstSeen(xs)[i] in xs
  {
    FirstSeenMembers(xs);
    assert FirstSeen(xs)[i] in FirstSeen(xs);
  }

  /** Each item stands before every item that first occurs behind it. */
  lemma {:induction false} FirstSeenInOrder<T>(xs: seq<T>, p: nat, q: nat, j: nat)
    requires p < q < |FirstSeen(xs)| && j < |xs| && xs[j] == FirstSeen(xs)[q]
    ensures FirstSeen(xs)[p] in xs[..j]
  {
    var front := xs[..|xs| - 1];
    FirstSeenMembers(front);
    FirstSeenAt(front, p);
    if j < |front| {
      assert front[j] == xs[j];
      FirstSeenInOrder(front, p, q, j);
      assert front[..j] == xs[..j];
    } else {
      assert front == xs[..j];
    }
  }

  lemma {:induction false} FirstSeenConcat<T>(xs: seq<T>, x: T)
    ensures FirstSeen(xs + [x]) == if x in xs then FirstSeen(xs) else FirstSeen(xs) + [x]
  {
    assert (xs + [x])[..|xs|] == xs;
    FirstSeenMembers(xs);
  }

  lemma {:induction false} FirstSeenDistinct<T>(xs: seq<T>)
    requires NoDuplicates(xs)
    ensures FirstSeen(xs) == xs
  {
    if xs != [] {
      var front, last := xs[..|xs| - 1], xs[|xs| - 1];
      FirstSeenDistinct(front);
      assert last !in front;
      assert xs == front + [last];
    }
  }

  lemma {:induction false} FirstSeenPrefix<T>(xs: seq<T>, more: seq<T>)
    ensures FirstSeen(xs) <= FirstSeen(xs + more)
  {
    if more == [] {
      assert xs + more == xs;
    } else {
      var n := |more| - 1;
      FirstSeenPrefix(xs, more[..n]);
      assert xs + more == xs + more[..n] + [more[n]];
      FirstSeenConcat(xs + more[..n], more[n]);
    }
  }

  lemma FlattenSnoc<T>(groups: seq<seq<T>>, group: seq<T>)
    ensures Flatten(groups + [group]) == Flatten(groups) + group
  {
    assert (groups + [group])[..|groups|] == groups;
  }

  lemma {:induction false} FlattenCons<T>(group: seq<T>, groups: seq<seq<T>>)
    ensures Flatten([group] + groups) == group + Flatten(groups)
  {
    if groups == [] {
      assert [group] + groups == [] + [group];
      FlattenSnoc([], group);
    } else {
      var front, last := groups[..|groups| - 1], groups[|groups| - 1];
      FlattenCons(group, front);
      assert groups == front + [last] && [group] + groups == [group] + front + [last];
      FlattenSnoc([group] + front, last);
      Regroup(group, Flatten(front), last);
    }
  }
}
