/** Finds the places where a stored name occurs in a question. Texts are in Normalization Form C. */
module NameSpans {
  import opened Text

  /** Full case folding, character by character. */
  type Folding = char -> string

  predicate IsBreak(c: char) { IsSpace(c) || c == ',' }

  /** Folding never erases a character, leaves white space and commas alone and creates none. */
  ghost predicate Lawful(fold: Folding) {
    forall c ::
      && fold(c) != []
      && if IsBreak(c) then fold(c) == [c] else forall k :: 0 <= k < |fold(c)| ==> !IsBreak(fold(c)[k])
  }

  function Fold(s: string, fold: Folding): string {
    if s == [] then [] else Fold(s[..|s| - 1], fold) + fold(s[|s| - 1])
  }

  /** A character of a searched text, with the part of the question it stands for. */
  datatype Mark = Mark(ch: char, start: nat, end: nat) {
    function Position(): (nat, nat) { (start, end) }
  }

  function TextOf(ms: seq<Mark>): string { seq(|ms|, i requires 0 <= i < |ms| => ms[i].ch) }

  function CharMarks(folded: string, i: nat): seq<Mark> {
    seq(|folded|, k requires 0 <= k < |folded| => Mark(folded[k], i, i + 1))
  }

  /** The folded characters of `q[lo..hi]`, each with the character it comes from. */
  function FoldMarks(q: string, fold: Folding, lo: nat, hi: nat): seq<Mark>
    requires lo <= hi <= |q|
  {
    if lo == hi then [] else FoldMarks(q, fold, lo, hi - 1) + CharMarks(fold(q[hi - 1]), hi - 1)
  }

  method CasefoldWithSpans(q: string, fold: Folding) returns (ms: seq<Mark>)
    ensures ms == FoldMarks(q, fold, 0, |q|)
  {
    ms := [];
    for i := 0 to |q|
      invariant ms == FoldMarks(q, fold, 0, i)
    {
      ms := ms + CharMarks(fold(q[i]), i);
    }
  }

  lemma {:induction false} FoldMarksConcat(q: string, fold: Folding, a: nat, b: nat, c: nat)
    requires a <= b <= c <= |q|
    ensures FoldMarks(q, fold, a, b) + FoldMarks(q, fold, b, c) == FoldMarks(q, fold, a, c)
  {
    if b < c {
      FoldMarksConcat(q, fold, a, b, c - 1);
    } else {
      assert FoldMarks(q, fold, a, b) + [] == FoldMarks(q, fold, a, b);
    }
  }

  lemma {:induction false} FoldMarksText(q: string, fold: Folding, a: nat, b: nat)
    requires a <= b <= |q|
    ensures TextOf(FoldMarks(q, fold, a, b)) == Fold(q[a..b], fold)
  {
    if a < b {
      FoldMarksText(q, fold, a, b - 1);
      assert q[a..b][..b - a - 1] == q[a..b - 1];
      TextOfConcat(FoldMarks(q, fold, a, b - 1), CharMarks(fold(q[b - 1]), b - 1));
      assert TextOf(CharMarks(fold(q[b - 1]), b - 1)) == fold(q[b - 1]);
    } else {
      assert q[a..b] == [];
    }
  }

  lemma TextOfConcat(a: seq<Mark>, b: seq<Mark>)
    ensures TextOf(a + b) == TextOf(a) + TextOf(b)
  {
  }

  // ---- marks in place ----

  predicate Before(m: Mark, n: Mark) { m.Position() == n.Position() || m.end <= n.start }

  /** The marks follow the question from left to right. */
  ghost predicate Placed(ms: seq<Mark>) {
    && (forall k :: 0 <= k < |ms| ==> ms[k].start < ms[k].end)
    && (forall k, l :: 0 <= k < l < |ms| ==> Before(ms[k], ms[l]))
  }

  /** All marks stand for parts of `q[lo..hi]`. */
  ghost predicate Within(ms: seq<Mark>, lo: nat, hi: nat) {
    forall k :: 0 <= k < |ms| ==> lo <= ms[k].start && ms[k].end <= hi
  }

  lemma PlacedConcat(a: seq<Mark>, b: seq<Mark>, lo: nat, mid: nat, hi: nat)
    requires Placed(a) && Placed(b) && Within(a, lo, mid) && Within(b, mid, hi) && lo <= mid <= hi
    ensures Placed(a + b) && Within(a + b, lo, hi)
  {
  }

  lemma {:induction false} FoldMarksPlaced(q: string, fold: Folding, lo: nat, hi: nat)
    requires lo <= hi <= |q|
    ensures Placed(FoldMarks(q, fold, lo, hi)) && Within(FoldMarks(q, fold, lo, hi), lo, hi)
  {
    if lo < hi {
      FoldMarksPlaced(q, fold, lo, hi - 1);
      PlacedConcat(FoldMarks(q, fold, lo, hi - 1), CharMarks(fold(q[hi - 1]), hi - 1), lo, hi - 1, hi);
    }
  }

  /** Neither edge cuts through the marks of one character. */
  predicate WholeCharacters(ms: seq<Mark>, k: nat, l: nat)
    requires k < l <= |ms|
  {
    && (k == 0 || ms[k - 1].Position() != ms[k].Position())
    && (l == |ms| || ms[l - 1].Position() != ms[l].Position())
  }

  /** The marks from `i` to `j` are those of `q[a..b]`. */
  predicate Covers(ms: seq<Mark>, a: nat, b: nat, i: nat, j: nat) {
    && i < j <= |ms| && ms[i].start == a && ms[j - 1].end == b
    && (i > 0 ==> ms[i - 1].end <= a) && (j < |ms| ==> b <= ms[j].start)
  }

  lemma CoversWhole(ms: seq<Mark>, a: nat, b: nat, i: nat, j: nat)
    requires Placed(ms) && Covers(ms, a, b, i, j)
    ensures WholeCharacters(ms, i, j)
  {
  }

  /** Whole characters at both edges leave no choice of the marks. */
  lemma EdgesUnique(ms: seq<Mark>, a: nat, b: nat, i: nat, j: nat, k: nat, l: nat)
    requires Placed(ms) && Covers(ms, a, b, i, j)
    requires k < l <= |ms| && WholeCharacters(ms, k, l) && ms[k].start == a && ms[l - 1].end == b
    ensures k == i && l == j
  {
  }

  // ---- searching ----

  predicate Occurs(text: string, target: string, k: nat) {
    k + |target| <= |text| && text[k..k + |target|] == target
  }

  /** `text.find(target, offset)`; the end of the text when there is none. */
  method Find(text: string, target: string, offset: nat) returns (k: nat)
    requires offset <= |text| && target != []
    ensures offset <= k <= |text| && (k < |text| ==> Occurs(text, target, k))
    ensures forall i :: offset <= i < k ==> !Occurs(text, target, i)
  {
    k := offset;
    while k < |text| && !Occurs(text, target, k)
      invariant offset <= k <= |text|
      invariant forall i :: offset <= i < k ==> !Occurs(text, target, i)
    {
      k := k + 1;
    }
  }

  /** What a match between two mark indexes has to pass besides the text. */
  type EdgeTest = (nat, nat) -> bool

  predicate Hit(ms: seq<Mark>, target: string, k: nat, test: EdgeTest)
    requires target != []
  {
    Occurs(TextOf(ms), target, k) && WholeCharacters(ms, k, k + |target|) && test(k, k + |target|)
  }

  /** Some hit has this span. */
  ghost predicate SpanHit(ms: seq<Mark>, target: string, test: EdgeTest, span: (nat, nat))
    requires target != []
  {
    exists k :: 0 <= k < |ms| && Hit(ms, target, k, test) && SpanAt(ms, target, k) == span
  }

  function SpanAt(ms: seq<Mark>, target: string, k: nat): (nat, nat)
    requires target != [] && k + |target| <= |ms|
  {
    (ms[k].start, ms[k + |target| - 1].end)
  }

  /** The spans of the hits that begin before mark `n`. */
  function SpansUpTo(ms: seq<Mark>, target: string, n: nat, test: EdgeTest): seq<(nat, nat)>
    requires target != []
  {
    if n == 0 then []
    else SpansUpTo(ms, target, n - 1, test) + if Hit(ms, target, n - 1, test) then [SpanAt(ms, target, n - 1)] else []
  }

  lemma {:induction false} NoHitsBetween(ms: seq<Mark>, target: string, m: nat, n: nat, test: EdgeTest)
    requires target != [] && m <= n && forall i :: m <= i < n ==> !Occurs(TextOf(ms), target, i)
    ensures SpansUpTo(ms, target, n, test) == SpansUpTo(ms, target, m, test)
  {
    if m < n {
      NoHitsBetween(ms, target, m, n - 1, test);
    }
  }

  /** From one match to the next. */
  lemma NextMatch(ms: seq<Mark>, target: string, offset: nat, k: nat, test: EdgeTest, ok: bool)
    requires target != [] && offset <= k && Occurs(TextOf(ms), target, k)
    requires forall i :: offset <= i < k ==> !Occurs(TextOf(ms), target, i)
    requires ok <==> WholeCharacters(ms, k, k + |target|) && test(k, k + |target|)
    ensures ok ==> SpansUpTo(ms, target, k + 1, test) == SpansUpTo(ms, target, offset, test) + [SpanAt(ms, target, k)]
    ensures !ok ==> SpansUpTo(ms, target, k + 1, test) == SpansUpTo(ms, target, offset, test)
  {
    NoHitsBetween(ms, target, offset, k, test);
  }

  lemma {:induction false} SpansUpToMembers(ms: seq<Mark>, target: string, n: nat, test: EdgeTest, span: (nat, nat))
    requires target != []
    ensures span in SpansUpTo(ms, target, n, test) <==>
      exists k :: 0 <= k < n && Hit(ms, target, k, test) && SpanAt(ms, target, k) == span
  {
    if n > 0 {
      SpansUpToMembers(ms, target, n - 1, test, span);
    }
  }

  lemma AllSpansMembers(ms: seq<Mark>, target: string, test: EdgeTest, span: (nat, nat))
    requires target != []
    ensures span in SpansUpTo(ms, target, |ms|, test) <==> SpanHit(ms, target, test, span)
  {
    SpansUpToMembers(ms, target, |ms|, test, span);
  }

  lemma HitsIncrease(ms: seq<Mark>, target: string, k: nat, l: nat, test: EdgeTest)
    requires target != [] && Placed(ms) && k < l && Hit(ms, target, k, test) && Hit(ms, target, l, test)
    ensures SpanAt(ms, target, k).0 < SpanAt(ms, target, l).0
  {
    assert Before(ms[k], ms[l]) && Before(ms[l - 1], ms[l]);
    assert k < l - 1 ==> Before(ms[k], ms[l - 1]);
  }

  /** A covered slice with the target's text is a hit, and the only one with its span. */
  lemma CoveredHit(ms: seq<Mark>, target: string, a: nat, b: nat, i: nat, j: nat, test: EdgeTest)
    requires target != [] && Placed(ms) && Covers(ms, a, b, i, j)
    requires TextOf(ms)[i..j] == target && test(i, j)
    ensures Hit(ms, target, i, test) && SpanAt(ms, target, i) == (a, b)
  {
    CoversWhole(ms, a, b, i, j);
  }

  lemma HitCovered(ms: seq<Mark>, target: string, a: nat, b: nat, i: nat, j: nat, test: EdgeTest, k: nat)
    requires target != [] && Placed(ms) && Covers(ms, a, b, i, j)
    requires Hit(ms, target, k, test) && SpanAt(ms, target, k) == (a, b)
    ensures j == i + |target| && TextOf(ms)[i..j] == target && test(i, j)
  {
    EdgesUnique(ms, a, b, i, j, k, k + |target|);
  }

  lemma TextOfSlice(ms: seq<Mark>, i: nat, j: nat)
    requires i <= j <= |ms|
    ensures TextOf(ms)[i..j] == TextOf(ms[i..j])
  {
  }

  ghost predicate Increasing(spans: seq<(nat, nat)>) { forall i, j :: 0 <= i < j < |spans| ==> spans[i].0 < spans[j].0 }

  lemma {:induction false} SpansIncrease(ms: seq<Mark>, target: string, n: nat, test: EdgeTest)
    requires target != [] && Placed(ms)
    ensures Increasing(SpansUpTo(ms, target, n, test))
  {
    if n > 0 {
      SpansIncrease(ms, target, n - 1, test);
      if Hit(ms, target, n - 1, test) {
        var front := SpansUpTo(ms, target, n - 1, test);
        forall i | 0 <= i < |front| ensures front[i].0 < SpanAt(ms, target, n - 1).0 {
          SpansUpToMembers(ms, target, n - 1, test, front[i]);
          var k :| 0 <= k < n - 1 && Hit(ms, target, k, test) && SpanAt(ms, target, k) == front[i];
          HitsIncrease(ms, target, k, n - 1, test);
        }
      }
    }
  }

  // ---- literal names ----

  /** No ASCII word runs over either edge of `middle`. */
  predicate AtWordEdges(before: string, middle: string, after: string)
    requires middle != []
  {
    && !(before != [] && IsAsciiWord(middle[0]) && IsAsciiWord(before[|before| - 1]))
    && !(after != [] && IsAsciiWord(middle[|middle| - 1]) && IsAsciiWord(after[0]))
  }

  function LiteralTest(text: string, target: string): EdgeTest
    requires target != []
  {
    (k: nat, l: nat) => k <= l <= |text| && AtWordEdges(text[..k], target, text[l..])
  }

  lemma {:induction false} FoldNonEmpty(s: string, fold: Folding)
    requires Lawful(fold)
    ensures |Fold(s, fold)| >= |s|
  {
    if s != [] {
      FoldNonEmpty(s[..|s| - 1], fold);
    }
  }

  /** `q[a..b]` folds to the folded name and stands at word edges of the folded question. */
  predicate IsLiteralSpan(q: string, name: string, fold: Folding, a: nat, b: nat) {
    && a < b <= |q| && Fold(name, fold) != []
    && Fold(q[a..b], fold) == Fold(name, fold)
    && AtWordEdges(Fold(q[..a], fold), Fold(name, fold), Fold(q[b..], fold))
  }

  lemma FoldedParts(q: string, fold: Folding, a: nat, b: nat, i: nat, j: nat)
    requires Lawful(fold) && a < b <= |q|
    requires i == |FoldMarks(q, fold, 0, a)| && j == |FoldMarks(q, fold, 0, b)|
    ensures
      var ms := FoldMarks(q, fold, 0, |q|);
      && Covers(ms, a, b, i, j)
      && ms[..i] == FoldMarks(q, fold, 0, a)
      && ms[i..j] == FoldMarks(q, fold, a, b)
      && ms[j..] == FoldMarks(q, fold, b, |q|)
  {
    FoldMarksConcat(q, fold, 0, a, b);
    FoldMarksConcat(q, fold, 0, b, |q|);
    var ms := FoldMarks(q, fold, 0, |q|);
    var p, s, t := FoldMarks(q, fold, 0, a), FoldMarks(q, fold, a, b), FoldMarks(q, fold, b, |q|);
    assert ms == p + s + t;
    FirstMark(q, fold, a, b);
    LastMark(q, fold, a, b);
    FoldMarksPlaced(q, fold, 0, a);
    FoldMarksPlaced(q, fold, b, |q|);
    assert i > 0 ==> ms[i - 1] == p[i - 1];
    assert j < |ms| ==> ms[j] == t[0];
  }

  lemma {:induction false} FirstMark(q: string, fold: Folding, a: nat, b: nat)
    requires Lawful(fold) && a < b <= |q|
    ensures FoldMarks(q, fold, a, b) != [] && FoldMarks(q, fold, a, b)[0] == Mark(fold(q[a])[0], a, a + 1)
  {
    if b == a + 1 {
      assert FoldMarks(q, fold, a, b) == [] + CharMarks(fold(q[a]), a);
    } else {
      FirstMark(q, fold, a, b - 1);
    }
  }

  lemma LastMark(q: string, fold: Folding, a: nat, b: nat)
    requires Lawful(fold) && a < b <= |q|
    ensures
      var ms, folded := FoldMarks(q, fold, a, b), fold(q[b - 1]);
      folded != [] && ms != [] && ms[|ms| - 1] == Mark(folded[|folded| - 1], b - 1, b)
  {
    var front, last := FoldMarks(q, fold, a, b - 1), CharMarks(fold(q[b - 1]), b - 1);
    assert FoldMarks(q, fold, a, b) == front + last;
    assert (front + last)[|front + last| - 1] == last[|last| - 1];
  }

  lemma TextOfParts(ms: seq<Mark>, i: nat, j: nat)
    requires i <= j <= |ms|
    ensures |TextOf(ms)| == |ms|
    ensures TextOf(ms)[..i] == TextOf(ms[..i])
    ensures TextOf(ms)[i..j] == TextOf(ms[i..j])
    ensures TextOf(ms)[j..] == TextOf(ms[j..])
  {
    TextOfSlice(ms, 0, i);
    TextOfSlice(ms, i, j);
    TextOfSlice(ms, j, |ms|);
    assert ms[0..i] == ms[..i] && ms[j..|ms|] == ms[j..];
    assert TextOf(ms)[..i] == TextOf(ms)[0..i] && TextOf(ms)[j..] == TextOf(ms)[j..|ms|];
  }

  lemma FoldedContext(q: string, fold: Folding, a: nat, b: nat, i: nat, j: nat)
    requires Lawful(fold) && a < b <= |q|
    requires i == |FoldMarks(q, fold, 0, a)| && j == |FoldMarks(q, fold, 0, b)|
    ensures
      var text := TextOf(FoldMarks(q, fold, 0, |q|));
      && i < j <= |text|
      && text[..i] == Fold(q[..a], fold)
      && text[i..j] == Fold(q[a..b], fold)
      && text[j..] == Fold(q[b..], fold)
  {
    var ms := FoldMarks(q, fold, 0, |q|);
    FoldedParts(q, fold, a, b, i, j);
    TextOfParts(ms, i, j);
    FoldMarksText(q, fold, 0, a);
    FoldMarksText(q, fold, a, b);
    FoldMarksText(q, fold, b, |q|);
    assert q[0..a] == q[..a] && q[b..|q|] == q[b..];
  }

  lemma SliceMarks(q: string, fold: Folding, a: nat, b: nat, ms: seq<Mark>, text: string) returns (i: nat, j: nat)
    requires Lawful(fold) && a < b <= |q| && ms == FoldMarks(q, fold, 0, |q|) && text == TextOf(ms)
    ensures Covers(ms, a, b, i, j) && j <= |text|
    ensures text[..i] == Fold(q[..a], fold) && text[i..j] == Fold(q[a..b], fold) && text[j..] == Fold(q[b..], fold)
  {
    i, j := |FoldMarks(q, fold, 0, a)|, |FoldMarks(q, fold, 0, b)|;
    FoldedParts(q, fold, a, b, i, j);
    FoldedContext(q, fold, a, b, i, j);
  }

  lemma LiteralSpanHits(q: string, name: string, fold: Folding, a: nat, b: nat, ms: seq<Mark>, target: string)
    requires Lawful(fold) && target == Fold(name, fold) != [] && ms == FoldMarks(q, fold, 0, |q|)
    requires Placed(ms) && IsLiteralSpan(q, name, fold, a, b)
    ensures SpanHit(ms, target, LiteralTest(TextOf(ms), target), (a, b))
  {
    var i, j := SliceMarks(q, fold, a, b, ms, TextOf(ms));
    CoveredHit(ms, target, a, b, i, j, LiteralTest(TextOf(ms), target));
  }

  lemma LiteralHitIsSpan(q: string, name: string, fold: Folding, a: nat, b: nat, ms: seq<Mark>, target: string, k: nat)
    requires Lawful(fold) && target == Fold(name, fold) != [] && ms == FoldMarks(q, fold, 0, |q|)
    requires Placed(ms) && a < b <= |q|
    requires k < |ms| && Hit(ms, target, k, LiteralTest(TextOf(ms), target)) && SpanAt(ms, target, k) == (a, b)
    ensures IsLiteralSpan(q, name, fold, a, b)
  {
    var i, j := SliceMarks(q, fold, a, b, ms, TextOf(ms));
    HitCovered(ms, target, a, b, i, j, LiteralTest(TextOf(ms), target), k);
  }

  /** The spans of the hits are the literal spans. */
  lemma LiteralHitsAreSpans(q: string, name: string, fold: Folding, a: nat, b: nat, ms: seq<Mark>, target: string)
    requires Lawful(fold) && target == Fold(name, fold) != [] && ms == FoldMarks(q, fold, 0, |q|)
    requires Placed(ms) && Within(ms, 0, |q|)
    ensures IsLiteralSpan(q, name, fold, a, b) <==> SpanHit(ms, target, LiteralTest(TextOf(ms), target), (a, b))
  {
    if IsLiteralSpan(q, name, fold, a, b) {
      LiteralSpanHits(q, name, fold, a, b, ms, target);
    }
    if SpanHit(ms, target, LiteralTest(TextOf(ms), target), (a, b)) {
      var k :| 0 <= k < |ms| && Hit(ms, target, k, LiteralTest(TextOf(ms), target)) && SpanAt(ms, target, k) == (a, b);
      HitSpanInQuestion(ms, k, k + |target|, |q|);
      LiteralHitIsSpan(q, name, fold, a, b, ms, target, k);
    }
  }

  lemma HitSpanInQuestion(ms: seq<Mark>, k: nat, l: nat, n: nat)
    requires Placed(ms) && Within(ms, 0, n) && k < l <= |ms|
    ensures ms[k].start < ms[l - 1].end <= n
  {
    assert k < l - 1 ==> Before(ms[k], ms[l - 1]);
  }

  predicate StartsInsideWord(text: string, target: string, start: nat)
    requires target != [] && start <= |text|
  {
    start > 0 && IsAsciiWord(target[0]) && IsAsciiWord(text[start - 1])
  }

  predicate EndsInsideWord(text: string, target: string, end: nat)
    requires target != [] && end <= |text|
  {
    end < |text| && IsAsciiWord(target[|target| - 1]) && IsAsciiWord(text[end])
  }

  method AcceptsLiteral(ms: seq<Mark>, text: string, target: string, k: nat, l: nat) returns (ok: bool)
    requires target != [] && text == TextOf(ms) && k < l <= |ms|
    ensures ok <==> WholeCharacters(ms, k, l) && LiteralTest(text, target)(k, l)
  {
    ok := !StartsInsideWord(text, target, k) && !EndsInsideWord(text, target, l) && WholeCharacters(ms, k, l);
  }

  /** Tries one match after the other. */
  method SearchLiteral(ms: seq<Mark>, target: string) returns (spans: seq<(nat, nat)>)
    requires target != []
    ensures spans == SpansUpTo(ms, target, |ms|, LiteralTest(TextOf(ms), target))
  {
    var text := TextOf(ms);
    ghost var test := LiteralTest(text, target);
    spans := [];
    var offset := 0;
    while true
      invariant offset <= |text| && spans == SpansUpTo(ms, target, offset, test)
      decreases |text| - offset
    {
      var start := Find(text, target, offset);
      if start == |text| {
        NoHitsBetween(ms, target, offset, start, test);
        return;
      }
      var ok := AcceptsLiteral(ms, text, target, start, start + |target|);
      NextMatch(ms, target, offset, start, test, ok);
      if ok {
        spans := spans + [SpanAt(ms, target, start)];
      }
      offset := start + 1;
    }
  }

  /** All occurrences of a name as whole words, from left to right. */
  method LiteralNameSpans(q: string, name: string, fold: Folding) returns (spans: seq<(nat, nat)>)
    requires Lawful(fold)
    ensures Increasing(spans)
    ensures forall a: nat, b: nat :: (a, b) in spans <==> IsLiteralSpan(q, name, fold, a, b)
  {
    if name == [] {
      return [];
    }
    FoldNonEmpty(name, fold);
    var ms := CasefoldWithSpans(q, fold);
    var target := Fold(name, fold);
    spans := SearchLiteral(ms, target);
    ghost var test := LiteralTest(TextOf(ms), target);
    FoldMarksPlaced(q, fold, 0, |q|);
    SpansIncrease(ms, target, |ms|, test);
    forall a: nat, b: nat ensures (a, b) in spans <==> IsLiteralSpan(q, name, fold, a, b) {
      AllSpansMembers(ms, target, test, (a, b));
      LiteralHitsAreSpans(q, name, fold, a, b, ms, target);
    }
  }
}
