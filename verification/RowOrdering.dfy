/** The comparator and the sort that put evaluation results into a stable order. */
module RowOrdering {
  import opened Wrappers
  import opened StableSort
  import opened Values

  datatype Criterion = Criterion(field: string, descending: bool)

  /** The two text conversions the comparator relies on: JSON rendering, and the
      number a numeric string denotes. */
  datatype Conversions = Conversions(render: Value -> string, number: string -> Option<real>)

  /** The comparison key of a value; a tuple (tag, content) in the original. */
  datatype Key = Number(n: real) | Items(keys: seq<Key>) | Rendered(text: string) {
    function Tag(): int { if Number? then 0 else if Items? then 1 else 2 }
  }

  /** Normalisation has turned decimals into text already; any other value is compared as rendered. */
  function Comparable(v: Value, conv: Conversions): Key
    decreases v
  {
    match v
    case Int(n) => Number(n as real)
    case Text(s) =>
      (match conv.number(s)
       case Some(n) => Number(n)
       case None => Rendered(conv.render(v)))
    case Array(items) => Items(seq(|items|, i requires 0 <= i < |items| => Comparable(items[i], conv)))
    case _ => Rendered(conv.render(v))
  }

  predicate TextLess(s: string, t: string)
    decreases |s|
  {
    t != [] && (s == [] || s[0] < t[0] || (s[0] == t[0] && TextLess(s[1..], t[1..])))
  }

  /** `<` on comparison keys: by tag, then by content. */
  predicate KeyLess(a: Key, b: Key)
    decreases a, if a.Items? then |a.keys| + 1 else 0
  {
    if a.Tag() != b.Tag() then a.Tag() < b.Tag()
    else match a
      case Number(n) => n < b.n
      case Items(keys) => ItemsLess(a, b, 0)
      case Rendered(text) => TextLess(text, b.text)
  }

  /** Tuple order from position `i`: the first differing item decides, else the shorter tuple is less. */
  predicate ItemsLess(a: Key, b: Key, i: nat)
    requires a.Items? && b.Items? && i <= |a.keys| && i <= |b.keys|
    decreases a, |a.keys| - i
  {
    if i == |b.keys| then false
    else if i == |a.keys| then true
    else if a.keys[i] == b.keys[i] then ItemsLess(a, b, i + 1)
    else KeyLess(a.keys[i], b.keys[i])
  }

  lemma {:induction false} TextOrder(s: string, t: string, u: string)
    ensures s == t || TextLess(s, t) || TextLess(t, s)
    ensures !(TextLess(s, t) && TextLess(t, s))
    ensures TextLess(s, t) && TextLess(t, u) ==> TextLess(s, u)
    decreases |s|
  {
    if s != [] && t != [] {
      TextOrder(s[1..], t[1..], if u == [] then [] else u[1..]);
      assert s == [s[0]] + s[1..] && t == [t[0]] + t[1..];
    }
  }

  lemma {:induction false} KeyOrder(a: Key, b: Key, c: Key)
    ensures a == b || KeyLess(a, b) || KeyLess(b, a)
    ensures !(KeyLess(a, b) && KeyLess(b, a))
    ensures KeyLess(a, b) && KeyLess(b, c) ==> KeyLess(a, c)
    decreases a, if a.Items? then |a.keys| + 1 else 0
  {
    if a.Items? && b.Items? {
      ItemsOrder(a, b, if c.Items? then c else a, 0);
    } else if a.Rendered? && b.Rendered? {
      TextOrder(a.text, b.text, if c.Rendered? then c.text else "");
    }
  }

  lemma {:induction false} ItemsOrder(a: Key, b: Key, c: Key, i: nat)
    requires a.Items? && b.Items? && c.Items? && i <= |a.keys| && i <= |b.keys| && i <= |c.keys|
    requires a.keys[..i] == b.keys[..i] == c.keys[..i]
    ensures a == b || ItemsLess(a, b, i) || ItemsLess(b, a, i)
    ensures !(ItemsLess(a, b, i) && ItemsLess(b, a, i))
    ensures ItemsLess(a, b, i) && ItemsLess(b, c, i) ==> ItemsLess(a, c, i)
    decreases a, |a.keys| - i
  {
    if i < |a.keys| && i < |b.keys| {
      if i < |c.keys| {
        KeyOrder(a.keys[i], b.keys[i], c.keys[i]);
        if a.keys[i] == b.keys[i] == c.keys[i] {
          ItemsOrder(a, b, c, i + 1);
        } else if a.keys[i] == b.keys[i] {
          ItemsOrder(a, b, a, i + 1);
        }
      } else {
        KeyOrder(a.keys[i], b.keys[i], a.keys[i]);
        if a.keys[i] == b.keys[i] {
          ItemsOrder(a, b, a, i + 1);
        }
      }
    } else if i == |a.keys| && i == |b.keys| {
      assert a.keys == a.keys[..i] == b.keys[..i] == b.keys;
    }
  }

  /** `row.get(field)`: a missing field reads as null. */
  function Get(row: Record, field: string): Value {
    if field in row.fields then row.fields[field] else Null
  }

  /** What one criterion says about two rows; zero lets the next criterion decide. */
  function CompareField(left: Record, right: Record, c: Criterion, conv: Conversions): (r: int)
    ensures -1 <= r <= 1
  {
    var l, r := Get(left, c.field), Get(right, c.field);
    if l.Null? && r.Null? then 0
    else if l.Null? then 1
    else if r.Null? then -1
    else
      var lk, rk := Comparable(l, conv), Comparable(r, conv);
      if lk == rk then 0
      else
        var result := if KeyLess(lk, rk) then -1 else 1;
        if c.descending then -result else result
  }

  function Compare(left: Record, right: Record, criteria: seq<Criterion>, conv: Conversions): (r: int)
    ensures -1 <= r <= 1
  {
    if criteria == [] then 0
    else
      var first := CompareField(left, right, criteria[0], conv);
      if first != 0 then first else Compare(left, right, criteria[1..], conv)
  }

  lemma FieldPreorder(a: Record, b: Record, c: Record, crit: Criterion, conv: Conversions)
    ensures CompareField(a, b, crit, conv) == -CompareField(b, a, crit, conv)
    ensures
      var x, y, z := CompareField(a, b, crit, conv), CompareField(b, c, crit, conv), CompareField(a, c, crit, conv);
      x <= 0 && y <= 0 ==> z <= 0 && (z == 0 <==> x == 0 && y == 0)
  {
    var ka, kb := Comparable(Get(a, crit.field), conv), Comparable(Get(b, crit.field), conv);
    var kc := Comparable(Get(c, crit.field), conv);
    KeyOrder(ka, kb, kc);
    KeyOrder(kb, kc, ka);
    KeyOrder(kc, kb, ka);
    KeyOrder(ka, kc, kb);
  }

  /** The comparator is a total preorder on rows holding any mix of values. */
  lemma {:induction false} ComparePreorder(a: Record, b: Record, c: Record, criteria: seq<Criterion>, conv: Conversions)
    ensures Compare(a, a, criteria, conv) == 0
    ensures Compare(a, b, criteria, conv) == -Compare(b, a, criteria, conv)
    ensures
      var x, y, z := Compare(a, b, criteria, conv), Compare(b, c, criteria, conv), Compare(a, c, criteria, conv);
      x <= 0 && y <= 0 ==> z <= 0 && (z == 0 <==> x == 0 && y == 0)
  {
    if criteria != [] {
      FieldPreorder(a, b, c, criteria[0], conv);
      FieldPreorder(a, a, a, criteria[0], conv);
      ComparePreorder(a, b, c, criteria[1..], conv);
    }
  }

  // ---- what the order means ----

  /** At the first place where the texts differ, the left one has ended or has the smaller character. */
  ghost predicate TextBelow(s: string, t: string) {
    exists k: nat :: TextParts(s, t, k)
  }

  ghost predicate TextParts(s: string, t: string, k: nat) {
    k <= |s| && k < |t| && s[..k] == t[..k] && (k == |s| || s[k] < t[k])
  }

  lemma {:induction false} TextLessIff(s: string, t: string)
    ensures TextLess(s, t) <==> TextBelow(s, t)
    decreases |s|
  {
    if s != [] && t != [] {
      TextLessIff(s[1..], t[1..]);
      if s[0] == t[0] && TextLess(s[1..], t[1..]) {
        var k: nat :| TextParts(s[1..], t[1..], k);
        assert s[..k + 1] == [s[0]] + s[1..][..k] && t[..k + 1] == [t[0]] + t[1..][..k];
        assert TextParts(s, t, k + 1);
      } else if TextLess(s, t) {
        assert TextParts(s, t, 0);
      }
      if TextBelow(s, t) {
        var k: nat :| TextParts(s, t, k);
        if k > 0 {
          assert s[..k][0] == t[..k][0];
          assert s[1..][..k - 1] == s[..k][1..] && t[1..][..k - 1] == t[..k][1..];
          assert TextParts(s[1..], t[1..], k - 1);
        }
      }
    } else if t != [] {
      assert TextParts(s, t, 0);
    }
  }

  /** An integer, or a text the conversion reads as a number. */
  ghost predicate Numeric(v: Value, conv: Conversions) { v.Int? || (v.Text? && conv.number(v.s).Some?) }

  ghost predicate Reads(v: Value, x: real, conv: Conversions) {
    (v.Int? && x == v.n as real) || (v.Text? && conv.number(v.s) == Some(x))
  }

  ghost predicate Other(v: Value, conv: Conversions) { !Numeric(v, conv) && !v.Array? }

  /** The same number, lists of alike values, or the same rendering. */
  ghost predicate Alike(v: Value, w: Value, conv: Conversions)
    decreases v
  {
    || (exists x :: Reads(v, x, conv) && Reads(w, x, conv))
    || (v.Array? && w.Array? && |v.items| == |w.items|
        && forall i :: 0 <= i < |v.items| ==> Alike(v.items[i], w.items[i], conv))
    || (Other(v, conv) && Other(w, conv) && conv.render(v) == conv.render(w))
  }

  /** Numbers by size, then lists, then everything else by its rendering. */
  ghost predicate Below(v: Value, w: Value, conv: Conversions)
    decreases v, 2
  {
    || (exists x, y :: Reads(v, x, conv) && Reads(w, y, conv) && x < y)
    || (Numeric(v, conv) && !Numeric(w, conv))
    || (v.Array? && Other(w, conv))
    || (v.Array? && w.Array? && ListBelow(v, w, conv, 0))
    || (Other(v, conv) && Other(w, conv) && TextBelow(conv.render(v), conv.render(w)))
  }

  /** The lists part at `from` or later. */
  ghost predicate ListBelow(v: Value, w: Value, conv: Conversions, from: nat)
    decreases v, 1
  {
    exists k: nat :: from <= k && ListParts(v, w, conv, k)
  }

  /** The lists agree before `k`; there the left one has ended or has the smaller value. */
  ghost predicate ListParts(v: Value, w: Value, conv: Conversions, k: nat)
    decreases v, 0
  {
    && v.Array? && w.Array? && k <= |v.items| && k < |w.items|
    && (forall i :: 0 <= i < k ==> Alike(v.items[i], w.items[i], conv))
    && (k == |v.items| || Below(v.items[k], w.items[k], conv))
  }

  lemma {:induction false} SameKeyIff(v: Value, w: Value, conv: Conversions)
    ensures Comparable(v, conv) == Comparable(w, conv) <==> Alike(v, w, conv)
    decreases v
  {
    if v.Array? && w.Array? {
      var a, b := Comparable(v, conv).keys, Comparable(w, conv).keys;
      forall i | 0 <= i < |v.items| && i < |w.items|
        ensures a[i] == b[i] <==> Alike(v.items[i], w.items[i], conv)
      {
        SameKeyIff(v.items[i], w.items[i], conv);
      }
      if Alike(v, w, conv) {
        assert a == b;
      }
    } else if Numeric(v, conv) && Numeric(w, conv) {
      assert Reads(v, Comparable(v, conv).n, conv) && Reads(w, Comparable(w, conv).n, conv);
    }
  }

  /** `<` on the keys of two values, in terms of the values. */
  lemma {:induction false} KeyLessIff(v: Value, w: Value, conv: Conversions)
    ensures KeyLess(Comparable(v, conv), Comparable(w, conv)) <==> Below(v, w, conv)
    decreases v, if v.Array? then |v.items| + 1 else 0
  {
    if v.Array? && w.Array? {
      ItemsLessIff(v, w, conv, 0);
    } else if Numeric(v, conv) && Numeric(w, conv) {
      assert Reads(v, Comparable(v, conv).n, conv) && Reads(w, Comparable(w, conv).n, conv);
    } else if Other(v, conv) && Other(w, conv) {
      TextLessIff(conv.render(v), conv.render(w));
    }
  }

  lemma {:induction false} ItemsLessIff(v: Value, w: Value, conv: Conversions, i: nat)
    requires v.Array? && w.Array? && i <= |v.items| && i <= |w.items|
    requires forall j :: 0 <= j < i ==> Alike(v.items[j], w.items[j], conv)
    ensures ItemsLess(Comparable(v, conv), Comparable(w, conv), i) <==> ListBelow(v, w, conv, i)
    decreases v, |v.items| - i
  {
    if i < |v.items| && i < |w.items| {
      SameKeyIff(v.items[i], w.items[i], conv);
      KeyLessIff(v.items[i], w.items[i], conv);
      if Alike(v.items[i], w.items[i], conv) {
        ItemsLessIff(v, w, conv, i + 1);
        NotBelowIfAlike(v.items[i], w.items[i], conv);
      } else if Below(v.items[i], w.items[i], conv) {
        assert ListParts(v, w, conv, i);
      }
    } else if i < |w.items| {
      assert ListParts(v, w, conv, i);
    }
  }

  lemma NotBelowIfAlike(v: Value, w: Value, conv: Conversions)
    requires KeyLess(Comparable(v, conv), Comparable(w, conv)) <==> Below(v, w, conv)
    requires Comparable(v, conv) == Comparable(w, conv)
    ensures !Below(v, w, conv)
  {
    KeyOrder(Comparable(v, conv), Comparable(w, conv), Comparable(v, conv));
  }

  /** A missing field counts as null. */
  ghost predicate Missing(row: Record, field: string) { field !in row.fields || row.fields[field].Null? }

  /** Taken alone, the criterion puts `left` strictly before `right`: nulls last in either
      direction, smaller values first when ascending and larger ones when descending. */
  ghost predicate Puts(left: Record, right: Record, c: Criterion, conv: Conversions) {
    && !Missing(left, c.field)
    && (Missing(right, c.field)
        || if c.descending then Below(right.fields[c.field], left.fields[c.field], conv)
           else Below(left.fields[c.field], right.fields[c.field], conv))
  }

  ghost predicate PartsAt(left: Record, right: Record, criteria: seq<Criterion>, conv: Conversions, k: nat)
    requires k < |criteria|
  {
    Puts(left, right, criteria[k], conv) || Puts(right, left, criteria[k], conv)
  }

  /** The first criterion that tells the two rows apart puts `left` before `right`. */
  ghost predicate Earlier(left: Record, right: Record, criteria: seq<Criterion>, conv: Conversions) {
    exists k: nat | k < |criteria| ::
      && Puts(left, right, criteria[k], conv)
      && forall j: nat | j < k :: !PartsAt(left, right, criteria, conv, j)
  }

  lemma FieldIff(left: Record, right: Record, c: Criterion, conv: Conversions)
    ensures CompareField(left, right, c, conv) < 0 <==> Puts(left, right, c, conv)
    ensures CompareField(left, right, c, conv) > 0 <==> Puts(right, left, c, conv)
  {
    var l, r := Get(left, c.field), Get(right, c.field);
    KeyLessIff(l, r, conv);
    KeyLessIff(r, l, conv);
    KeyOrder(Comparable(l, conv), Comparable(r, conv), Comparable(l, conv));
  }

  /** The comparator is negative exactly when the first criterion that decides puts the left row first. */
  lemma {:induction false} CompareIff(left: Record, right: Record, criteria: seq<Criterion>, conv: Conversions)
    ensures Compare(left, right, criteria, conv) < 0 <==> Earlier(left, right, criteria, conv)
  {
    if criteria != [] {
      var rest := criteria[1..];
      FieldIff(left, right, criteria[0], conv);
      CompareIff(left, right, rest, conv);
      if Earlier(left, right, rest, conv) && CompareField(left, right, criteria[0], conv) == 0 {
        var k: nat :| k < |rest| && Puts(left, right, rest[k], conv)
                      && forall j: nat | j < k :: !PartsAt(left, right, rest, conv, j);
        forall j: nat | j < k + 1 ensures !PartsAt(left, right, criteria, conv, j) {
          assert j == 0 || !PartsAt(left, right, rest, conv, j - 1);
        }
        assert Puts(left, right, criteria[k + 1], conv);
      }
      if Earlier(left, right, criteria, conv) {
        var k: nat :| k < |criteria| && Puts(left, right, criteria[k], conv)
                      && forall j: nat | j < k :: !PartsAt(left, right, criteria, conv, j);
        if k > 0 {
          assert !PartsAt(left, right, criteria, conv, 0);
          forall j: nat | j < k - 1 ensures !PartsAt(left, right, rest, conv, j) {
            assert !PartsAt(left, right, criteria, conv, j + 1);
          }
          assert Puts(left, right, rest[k - 1], conv);
        }
      }
    }
  }

  /** The comparator for one list of criteria. */
  function RowComparator(criteria: seq<Criterion>, conv: Conversions): Comparator<Record> {
    (a, b) => Compare(a, b, criteria, conv)
  }

  lemma RowComparatorIsPreorder(criteria: seq<Criterion>, conv: Conversions)
    ensures TotalPreorder(RowComparator(criteria, conv))
  {
    forall a, b, c
      ensures Compare(a, b, criteria, conv) == -Compare(b, a, criteria, conv)
      ensures
        var x, y, z := Compare(a, b, criteria, conv), Compare(b, c, criteria, conv), Compare(a, c, criteria, conv);
        x <= 0 && y <= 0 ==> z <= 0 && (z == 0 <==> x == 0 && y == 0)
    {
      ComparePreorder(a, b, c, criteria, conv);
    }
  }

  /** Sorted rows that lack the first field form a suffix, ascending and descending alike. */
  lemma NullsFormSuffix(rows: seq<Record>, field: string, descending: bool, others: seq<Criterion>,
      conv: Conversions, i: nat, j: nat)
    requires Sorted(rows, RowComparator([Criterion(field, descending)] + others, conv))
    requires i < j < |rows| && Get(rows[i], field).Null?
    ensures Get(rows[j], field).Null?
  {
    var criteria := [Criterion(field, descending)] + others;
    assert RowComparator(criteria, conv)(rows[i], rows[j]) <= 0;
    assert Compare(rows[i], rows[j], criteria, conv) <= 0;
  }

  /** The order in which the database returned the rows shows in the result
      exactly when two different rows tie. */
  lemma ResultIgnoresRowOrder(rows: seq<Record>, criteria: seq<Criterion>, conv: Conversions)
    ensures Separates(rows, RowComparator(criteria, conv)) <==> OrderInsensitive(rows, RowComparator(criteria, conv))
  {
    RowComparatorIsPreorder(criteria, conv);
    OrderInsensitiveIffSeparates(rows, RowComparator(criteria, conv));
  }

  /** In a sorted list no row stands before one that the criteria put earlier. */
  lemma SortedInOrder(rows: seq<Record>, criteria: seq<Criterion>, conv: Conversions)
    requires Sorted(rows, RowComparator(criteria, conv))
    ensures forall i, j :: 0 <= i < j < |rows| ==> !Earlier(rows[j], rows[i], criteria, conv)
  {
    forall i, j | 0 <= i < j < |rows| ensures !Earlier(rows[j], rows[i], criteria, conv) {
      assert RowComparator(criteria, conv)(rows[i], rows[j]) <= 0;
      CompareIff(rows[j], rows[i], criteria, conv);
      ComparePreorder(rows[i], rows[j], rows[i], criteria, conv);
    }
  }

  /** Parses every ordering expression first, then sorts; one bad expression
      rejects the whole call. */
  method SortRows(rows: seq<Record>, ordering: seq<string>, parse: string -> Option<Criterion>, conv: Conversions)
    returns (r: Result<seq<Record>, string>)
    ensures r.Success? <==> forall e :: e in ordering ==> parse(e).Some?
    ensures r.Success? ==> multiset(r.value) == multiset(rows)
    ensures r.Success? ==>
      var criteria := seq(|ordering|, i requires 0 <= i < |ordering| => parse(ordering[i]).value);
      && Sorted(r.value, RowComparator(criteria, conv))
      && r.value == SortBy(rows, RowComparator(criteria, conv))
      && forall i, j :: 0 <= i < j < |r.value| ==> !Earlier(r.value[j], r.value[i], criteria, conv)
  {
    var parsed: seq<Criterion> := [];
    for i := 0 to |ordering|
      invariant |parsed| == i
      invariant forall k :: 0 <= k < i ==> parse(ordering[k]) == Some(parsed[k])
    {
      match parse(ordering[i]) {
        case None =>
          return Failure(ordering[i]);
        case Some(c) =>
          parsed := parsed + [c];
      }
    }
    RowComparatorIsPreorder(parsed, conv);
    SortBySorts(rows, RowComparator(parsed, conv));
    assert parsed == seq(|ordering|, i requires 0 <= i < |ordering| => parse(ordering[i]).value);
    SortedInOrder(SortBy(rows, RowComparator(parsed, conv)), parsed, conv);
    return Success(SortBy(rows, RowComparator(parsed, conv)));
  }
}
