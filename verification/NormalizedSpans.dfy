/** Finds names that differ from the question only in white space and commas, in one normalising pass. */
module NormalizedSpans {
  import opened Text
  import opened Collections
  import opened NameSpans
  import opened NameNormalization

  // ---- the pass ----

  predicate EndsInSpace(ms: seq<Mark>) { ms != [] && Last(ms).ch == ' ' }

  /** One more character: runs of white space become one mark, and none stands beside a tight comma. */
  function Step(acc: seq<Mark>, m: Mark, commas: Commas): seq<Mark> {
    if IsGap(m.ch, commas) then
      if acc == [] || (commas.Tight? && Last(acc).ch == ',') then acc
      else if Last(acc).ch == ' ' then acc[..|acc| - 1] + [Last(acc).(end := m.end)]
      else acc + [m.(ch := ' ')]
    else if m.ch == ',' && EndsInSpace(acc) then acc[..|acc| - 1] + [m]
    else acc + [m]
  }

  function Scan(acc: seq<Mark>, ms: seq<Mark>, commas: Commas): seq<Mark> {
    if ms == [] then acc else Step(Scan(acc, ms[..|ms| - 1], commas), ms[|ms| - 1], commas)
  }

  function Finish(acc: seq<Mark>): seq<Mark> { if EndsInSpace(acc) then acc[..|acc| - 1] else acc }

  method NormalizeMarks(ms: seq<Mark>, commas: Commas) returns (marks: seq<Mark>)
    ensures marks == Finish(Scan([], ms, commas))
  {
    marks := [];
    for i := 0 to |ms|
      invariant marks == Scan([], ms[..i], commas)
    {
      assert ms[..i + 1][..i] == ms[..i];
      var m := ms[i];
      if IsGap(m.ch, commas) {
        if marks == [] || (commas.Tight? && Last(marks).ch == ',') {
          continue;
        }
        if Last(marks).ch == ' ' {
          marks := marks[..|marks| - 1] + [Last(marks).(end := m.end)];
          continue;
        }
        m := m.(ch := ' ');
      } else if m.ch == ',' && EndsInSpace(marks) {
        marks := marks[..|marks| - 1];
      }
      marks := marks + [m];
    }
    assert ms[..|ms|] == ms;
    if EndsInSpace(marks) {
      marks := marks[..|marks| - 1];
    }
  }

  lemma {:induction false} ScanConcat(acc: seq<Mark>, a: seq<Mark>, b: seq<Mark>, commas: Commas)
    ensures Scan(acc, a + b, commas) == Scan(Scan(acc, a, commas), b, commas)
  {
    if b == [] {
      assert a + b == a;
    } else {
      var n := |b| - 1;
      ScanConcat(acc, a, b[..n], commas);
      assert (a + b)[..|a + b| - 1] == a + b[..n];
    }
  }

  // ---- its text is the comparison form ----

  function PlaceOf(acc: seq<Mark>, commas: Commas): Place {
    if acc == [] || (commas.Tight? && Last(acc).ch == ',') then Fresh
    else if Last(acc).ch == ' ' then Pending
    else Inside
  }

  lemma ScanFirst(acc: seq<Mark>, m: Mark, rest: seq<Mark>, commas: Commas)
    ensures Scan(acc, [m] + rest, commas) == Scan(Step(acc, m, commas), rest, commas)
  {
    ScanConcat(acc, [m], rest, commas);
    assert Scan(acc, [m], commas) == Step(Scan(acc, [], commas), m, commas);
  }

  function Settled(acc: seq<Mark>): string { TextOf(Finish(acc)) }

  lemma GapText(acc: seq<Mark>, m: Mark, commas: Commas)
    requires !commas.Ordinary? && IsGap(m.ch, commas)
    ensures Settled(Step(acc, m, commas)) == Settled(acc)
    ensures PlaceOf(Step(acc, m, commas), commas) == if PlaceOf(acc, commas).Fresh? then Fresh else Pending
  {
    if acc != [] && !(commas.Tight? && Last(acc).ch == ',') {
      if Last(acc).ch == ' ' {
        assert Finish(Step(acc, m, commas)) == acc[..|acc| - 1];
      } else {
        assert Finish(acc + [m.(ch := ' ')]) == acc;
      }
    }
  }

  lemma CommaText(acc: seq<Mark>, m: Mark, commas: Commas)
    requires commas.Tight? && m.ch == ','
    ensures Settled(Step(acc, m, commas)) == Settled(acc) + ","
    ensures PlaceOf(Step(acc, m, commas), commas).Fresh?
  {
    assert !IsSpace(',');
    assert Step(acc, m, commas) == Finish(acc) + [m];
    TextOfConcat(Finish(acc), [m]);
    assert TextOf([m]) == ",";
  }

  lemma OtherText(acc: seq<Mark>, m: Mark, commas: Commas)
    requires !commas.Ordinary? && !IsGap(m.ch, commas) && m.ch != ','
    ensures Settled(Step(acc, m, commas)) == Settled(acc) + (if PlaceOf(acc, commas).Pending? then " " else "") + [m.ch]
    ensures PlaceOf(Step(acc, m, commas), commas).Inside?
  {
    assert m.ch != ' ';
    TextOfConcat(acc, [m]);
    assert TextOf([m]) == [m.ch];
    if EndsInSpace(acc) {
      TextOfConcat(Finish(acc), [Last(acc)]);
      assert acc == Finish(acc) + [Last(acc)];
      assert TextOf([Last(acc)]) == " ";
    } else {
      assert TextOf(acc) + "" == TextOf(acc);
    }
  }

  lemma StepText(acc: seq<Mark>, m: Mark, rest: string, commas: Commas)
    requires !commas.Ordinary?
    ensures Settled(Step(acc, m, commas)) + Collapse(rest, PlaceOf(Step(acc, m, commas), commas), commas) ==
            Settled(acc) + Collapse([m.ch] + rest, PlaceOf(acc, commas), commas)
  {
    assert ([m.ch] + rest)[1..] == rest;
    if IsGap(m.ch, commas) {
      GapText(acc, m, commas);
    } else if m.ch == ',' {
      CommaText(acc, m, commas);
    } else {
      OtherText(acc, m, commas);
    }
  }

  lemma {:induction false} ScanText(acc: seq<Mark>, ms: seq<Mark>, commas: Commas)
    requires !commas.Ordinary?
    ensures Settled(Scan(acc, ms, commas)) == Settled(acc) + Collapse(TextOf(ms), PlaceOf(acc, commas), commas)
    decreases |ms|
  {
    if ms != [] {
      var next, rest := Step(acc, ms[0], commas), ms[1..];
      TextOfFirst(ms);
      ScanText(next, rest, commas);
      StepText(acc, ms[0], TextOf(rest), commas);
      assert Scan(acc, ms, commas) == Scan(next, rest, commas) by {
        assert ms == [ms[0]] + rest;
        ScanFirst(acc, ms[0], rest, commas);
      }
    }
  }

  lemma TextOfFirst(ms: seq<Mark>)
    requires ms != []
    ensures TextOf(ms) == [ms[0].ch] + TextOf(ms[1..])
  {
  }

  /** The one-pass text is exactly the two-phase comparison form. */
  lemma OnePassIsTwoPhase(q: string, fold: Folding, lo: nat, hi: nat, removeCommas: bool)
    requires lo <= hi <= |q|
    ensures TextOf(Finish(Scan([], FoldMarks(q, fold, lo, hi), Mode(removeCommas)))) ==
      NameComparison(Fold(q[lo..hi], fold), removeCommas)
  {
    var ms := FoldMarks(q, fold, lo, hi);
    ScanText([], ms, Mode(removeCommas));
    FoldMarksText(q, fold, lo, hi);
    CollapseIsComparison(Fold(q[lo..hi], fold), removeCommas);
    assert Settled([]) == "";
  }

  // ---- the comparison form has no space at its ends ----

  lemma {:induction false} CollapseEnds(s: string, place: Place, commas: Commas)
    ensures
      var r := Collapse(s, place, commas);
      r != [] ==> r[|r| - 1] != ' ' && (place.Fresh? ==> r[0] != ' ')
  {
    if s != [] {
      if IsGap(s[0], commas) {
        CollapseEnds(s[1..], if place.Fresh? then Fresh else Pending, commas);
      } else if commas.Tight? && s[0] == ',' {
        CollapseEnds(s[1..], Fresh, commas);
      } else {
        CollapseEnds(s[1..], Inside, commas);
      }
    }
  }

  // ---- how a slice is scanned within the question ----

  lemma StepFrame(p: seq<Mark>, x: seq<Mark>, m: Mark, commas: Commas)
    requires x != [] && x[0].ch != ' '
    ensures Step(p + x, m, commas) == p + Step(x, m, commas)
    ensures Step(x, m, commas) != [] && Step(x, m, commas)[0] == x[0]
  {
    assert Last(p + x) == Last(x);
    assert (p + x)[..|p + x| - 1] == p + x[..|x| - 1];
  }

  lemma {:induction false} ScanFrame(p: seq<Mark>, x: seq<Mark>, ms: seq<Mark>, commas: Commas)
    requires x != [] && x[0].ch != ' '
    ensures Scan(p + x, ms, commas) == p + Scan(x, ms, commas)
    ensures Scan(x, ms, commas) != [] && Scan(x, ms, commas)[0] == x[0]
  {
    if ms != [] {
      var n := |ms| - 1;
      ScanFrame(p, x, ms[..n], commas);
      StepFrame(p, Scan(x, ms[..n], commas), ms[n], commas);
    }
  }

  /** Characters after a settled mark never take it away. */
  lemma {:induction false} ScanKeeps(x: seq<Mark>, ms: seq<Mark>, commas: Commas, b: nat) returns (t: seq<Mark>)
    requires x != [] && Last(x).ch != ' '
    requires forall k :: 0 <= k < |ms| ==> b <= ms[k].start
    ensures Scan(x, ms, commas) == x + t && forall k :: 0 <= k < |t| ==> b <= t[k].start
  {
    t := [];
    if ms != [] {
      var n := |ms| - 1;
      var before := ScanKeeps(x, ms[..n], commas, b);
      t := KeepStep(x, before, ms[n], commas, b);
    } else {
      assert x + t == x;
    }
  }

  lemma KeepStep(x: seq<Mark>, before: seq<Mark>, m: Mark, commas: Commas, b: nat) returns (t: seq<Mark>)
    requires x != [] && Last(x).ch != ' ' && b <= m.start
    requires forall k :: 0 <= k < |before| ==> b <= before[k].start
    ensures Step(x + before, m, commas) == x + t && forall k :: 0 <= k < |t| ==> b <= t[k].start
  {
    var acc := x + before;
    var next := Step(acc, m, commas);
    assert before == [] ==> acc == x;
    assert before != [] ==> Last(acc) == Last(before) && acc[..|acc| - 1] == x + before[..|before| - 1];
    t := next[|x|..];
    assert next == x + t;
  }

  lemma FinishKeeps(x: seq<Mark>, t: seq<Mark>)
    requires x != [] && Last(x).ch != ' '
    ensures Finish(x + t) == x + Finish(t)
  {
    if t != [] {
      assert Last(x + t) == Last(t);
      assert (x + t)[..|x + t| - 1] == x + t[..|t| - 1];
    } else {
      assert x + t == x && x + Finish(t) == x;
    }
  }

  // ---- every mark keeps its place ----

  /** A space mark covers white space; any other stands for one character that is not. */
  predicate Faithful(m: Mark, q: string, commas: Commas) {
    && m.start < m.end <= |q|
    && (if m.ch == ' ' then IsGap(q[m.start], commas) else m.end == m.start + 1 && !IsGap(q[m.start], commas))
  }

  ghost predicate AllFaithful(ms: seq<Mark>, q: string, commas: Commas) {
    forall k :: 0 <= k < |ms| ==> Faithful(ms[k], q, commas)
  }

  /** Space marks share their place with no other mark. */
  ghost predicate Spaced(ms: seq<Mark>) {
    forall k, l :: 0 <= k < l < |ms| && (ms[k].ch == ' ' || ms[l].ch == ' ') ==> ms[k].end <= ms[l].start
  }

  ghost predicate InPlace(ms: seq<Mark>, q: string, commas: Commas, hi: nat) {
    Placed(ms) && Spaced(ms) && Within(ms, 0, hi) && AllFaithful(ms, q, commas)
  }

  lemma {:induction false} ScanPlain(acc: seq<Mark>, ms: seq<Mark>, commas: Commas)
    requires forall k :: 0 <= k < |ms| ==> !IsBreak(ms[k].ch)
    ensures Scan(acc, ms, commas) == acc + ms
  {
    if ms != [] {
      ScanPlain(acc, ms[..|ms| - 1], commas);
    }
  }

  lemma DropLastInPlace(acc: seq<Mark>, q: string, commas: Commas, hi: nat)
    requires acc != [] && InPlace(acc, q, commas, hi)
    ensures InPlace(acc[..|acc| - 1], q, commas, hi)
  {
  }

  lemma AddCharInPlace(acc: seq<Mark>, folded: string, q: string, commas: Commas, hi: nat)
    requires hi < |q| && InPlace(acc, q, commas, hi) && !IsGap(q[hi], commas)
      && forall k :: 0 <= k < |folded| ==> folded[k] != ' '
    ensures InPlace(acc + CharMarks(folded, hi), q, commas, hi + 1)
  {
  }

  lemma AddMarkInPlace(acc: seq<Mark>, m: Mark, q: string, commas: Commas, lo: nat)
    requires InPlace(acc, q, commas, lo) && lo <= m.start && Faithful(m, q, commas)
    ensures InPlace(acc + [m], q, commas, m.end)
  {
  }

  lemma BeforeSpace(acc: seq<Mark>, q: string, commas: Commas, hi: nat)
    requires InPlace(acc, q, commas, hi) && EndsInSpace(acc)
    ensures InPlace(acc[..|acc| - 1], q, commas, Last(acc).start)
  {
  }

  lemma GrowSpaceInPlace(acc: seq<Mark>, q: string, commas: Commas, hi: nat)
    requires hi < |q| && InPlace(acc, q, commas, hi) && EndsInSpace(acc)
    ensures InPlace(acc[..|acc| - 1] + [Last(acc).(end := hi + 1)], q, commas, hi + 1)
  {
    BeforeSpace(acc, q, commas, hi);
    SpaceStart(acc, q, commas, hi);
    AddMarkInPlace(acc[..|acc| - 1], Last(acc).(end := hi + 1), q, commas, Last(acc).start);
  }

  lemma SpaceStart(acc: seq<Mark>, q: string, commas: Commas, hi: nat)
    requires hi < |q| && InPlace(acc, q, commas, hi) && EndsInSpace(acc)
    ensures Last(acc).start < hi && IsGap(q[Last(acc).start], commas)
  {
    assert Faithful(Last(acc), q, commas);
  }

  lemma WiderInPlace(acc: seq<Mark>, q: string, commas: Commas, hi: nat)
    requires InPlace(acc, q, commas, hi)
    ensures InPlace(acc, q, commas, hi + 1)
  {
  }

  lemma AddGapInPlace(acc: seq<Mark>, q: string, commas: Commas, hi: nat)
    requires hi < |q| && InPlace(acc, q, commas, hi) && IsGap(q[hi], commas)
    ensures InPlace(Step(acc, Mark(q[hi], hi, hi + 1), commas), q, commas, hi + 1)
  {
    if acc == [] || (commas.Tight? && Last(acc).ch == ',') {
      WiderInPlace(acc, q, commas, hi);
    } else if Last(acc).ch == ' ' {
      GrowSpaceInPlace(acc, q, commas, hi);
    } else {
      AddMarkInPlace(acc, Mark(' ', hi, hi + 1), q, commas, hi);
    }
  }

  lemma OneCharMarks(c: char, fold: Folding, hi: nat)
    requires Lawful(fold)
    ensures IsBreak(c) ==> CharMarks(fold(c), hi) == [Mark(c, hi, hi + 1)]
    ensures !IsBreak(c) ==> forall k :: 0 <= k < |fold(c)| ==> !IsBreak(fold(c)[k]) && fold(c)[k] != ' '
  {
  }

  lemma {:induction false} ScanInPlace(q: string, fold: Folding, commas: Commas, hi: nat)
    requires Lawful(fold) && hi <= |q|
    ensures InPlace(Scan([], FoldMarks(q, fold, 0, hi), commas), q, commas, hi)
  {
    if hi > 0 {
      var c, acc := q[hi - 1], Scan([], FoldMarks(q, fold, 0, hi - 1), commas);
      var marks := CharMarks(fold(c), hi - 1);
      ScanInPlace(q, fold, commas, hi - 1);
      ScanConcat([], FoldMarks(q, fold, 0, hi - 1), marks, commas);
      OneCharMarks(c, fold, hi - 1);
      if IsBreak(c) {
        OneMarkScan(acc, marks[0], commas);
        if IsGap(c, commas) {
          AddGapInPlace(acc, q, commas, hi - 1);
        } else {
          AddCommaInPlace(acc, q, commas, hi - 1);
        }
      } else {
        ScanPlain(acc, marks, commas);
        AddCharInPlace(acc, fold(c), q, commas, hi - 1);
      }
    }
  }

  lemma OneMarkScan(acc: seq<Mark>, m: Mark, commas: Commas)
    ensures Scan(acc, [m], commas) == Step(acc, m, commas)
  {
    assert Scan(acc, [], commas) == acc;
  }

  lemma AddCommaInPlace(acc: seq<Mark>, q: string, commas: Commas, hi: nat)
    requires hi < |q| && InPlace(acc, q, commas, hi) && !IsGap(q[hi], commas) && q[hi] == ','
    ensures InPlace(Step(acc, Mark(q[hi], hi, hi + 1), commas), q, commas, hi + 1)
  {
    assert CharMarks(",", hi) == [Mark(',', hi, hi + 1)];
    if EndsInSpace(acc) {
      DropLastInPlace(acc, q, commas, hi);
      AddCharInPlace(acc[..|acc| - 1], ",", q, commas, hi);
    } else {
      AddCharInPlace(acc, ",", q, commas, hi);
    }
  }

  // ---- slices of the question and slices of the marks ----

  lemma FinishInPlace(acc: seq<Mark>, q: string, commas: Commas, hi: nat)
    requires InPlace(acc, q, commas, hi)
    ensures InPlace(Finish(acc), q, commas, hi)
  {
    if EndsInSpace(acc) {
      DropLastInPlace(acc, q, commas, hi);
    }
  }

  lemma SolidChar(q: string, fold: Folding, commas: Commas, i: nat)
    requires Lawful(fold) && !commas.Ordinary? && i < |q| && !IsGap(q[i], commas)
    ensures fold(q[i]) != []
      && forall k :: 0 <= k < |fold(q[i])| ==> !IsGap(fold(q[i])[k], commas) && fold(q[i])[k] != ' '
  {
  }

  /** What a slice with solid ends is scanned to on its own. */
  lemma SliceScan(q: string, fold: Folding, commas: Commas, a: nat, b: nat) returns (s: seq<Mark>)
    requires Lawful(fold) && !commas.Ordinary? && a < b <= |q| && !IsGap(q[a], commas) && !IsGap(q[b - 1], commas)
    ensures s == Scan([], FoldMarks(q, fold, a, b), commas)
    ensures s != [] && s[0].ch != ' ' && s[0].start == a && Last(s).ch != ' ' && Last(s).end == b
  {
    var ms := FoldMarks(q, fold, a, b);
    s := Scan([], ms, commas);
    FirstMark(q, fold, a, b);
    LastMark(q, fold, a, b);
    SolidChar(q, fold, commas, a);
    SolidChar(q, fold, commas, b - 1);
    assert ms == [ms[0]] + ms[1..];
    ScanFirst([], ms[0], ms[1..], commas);
    assert Step([], ms[0], commas) == [ms[0]] && [] + [ms[0]] == [ms[0]];
    ScanFrame([], [ms[0]], ms[1..], commas);
    var folded := fold(q[b - 1]);
    assert !IsGap(folded[|folded| - 1], commas);
    assert Last(s) == ms[|ms| - 1];
  }

  /** Scanned within the question, the slice leaves the same marks between those of its context. */
  lemma SliceInContext(q: string, fold: Folding, commas: Commas, a: nat, b: nat, s: seq<Mark>)
      returns (p: seq<Mark>, t: seq<Mark>)
    requires Lawful(fold) && !commas.Ordinary? && a < b <= |q| && !IsGap(q[a], commas) && !IsGap(q[b - 1], commas)
    requires s == Scan([], FoldMarks(q, fold, a, b), commas) && s != [] && Last(s).ch != ' '
    ensures Scan([], FoldMarks(q, fold, 0, |q|), commas) == p + s + t
    ensures (forall k :: 0 <= k < |p| ==> p[k].end <= a) && (forall k :: 0 <= k < |t| ==> b <= t[k].start)
  {
    p := ScanUpTo(q, fold, commas, a, b, s);
    ScanSplits(q, fold, commas, 0, b, |q|);
    FoldMarksPlaced(q, fold, b, |q|);
    LastOfConcat(p, s);
    t := ScanKeeps(p + s, FoldMarks(q, fold, b, |q|), commas, b);
  }

  lemma ScanSplits(q: string, fold: Folding, commas: Commas, a: nat, b: nat, c: nat)
    requires a <= b <= c <= |q|
    ensures Scan([], FoldMarks(q, fold, a, c), commas) ==
      Scan(Scan([], FoldMarks(q, fold, a, b), commas), FoldMarks(q, fold, b, c), commas)
  {
    FoldMarksConcat(q, fold, a, b, c);
    ScanConcat([], FoldMarks(q, fold, a, b), FoldMarks(q, fold, b, c), commas);
  }

  lemma ScanUpTo(q: string, fold: Folding, commas: Commas, a: nat, b: nat, s: seq<Mark>) returns (p: seq<Mark>)
    requires Lawful(fold) && !commas.Ordinary? && a < b <= |q| && !IsGap(q[a], commas)
    requires s == Scan([], FoldMarks(q, fold, a, b), commas)
    ensures Scan([], FoldMarks(q, fold, 0, b), commas) == p + s && Within(p, 0, a)
  {
    var before := Scan([], FoldMarks(q, fold, 0, a), commas);
    ScanInPlace(q, fold, commas, a);
    p := PrefixBefore(q, fold, commas, a, b, before, s);
    ScanSplits(q, fold, commas, 0, a, b);
  }

  lemma PrefixBefore(q: string, fold: Folding, commas: Commas, a: nat, b: nat, before: seq<Mark>, s: seq<Mark>)
      returns (p: seq<Mark>)
    requires Lawful(fold) && !commas.Ordinary? && a < b <= |q| && !IsGap(q[a], commas)
    requires s == Scan([], FoldMarks(q, fold, a, b), commas) && Within(before, 0, a)
    ensures Scan(before, FoldMarks(q, fold, a, b), commas) == p + s && Within(p, 0, a)
  {
    var ms := FoldMarks(q, fold, a, b);
    FirstMark(q, fold, a, b);
    SolidChar(q, fold, commas, a);
    assert ms == [ms[0]] + ms[1..];
    ScanFirst(before, ms[0], ms[1..], commas);
    ScanFirst([], ms[0], ms[1..], commas);
    p := if ms[0].ch == ',' then Finish(before) else before;
    assert Step(before, ms[0], commas) == p + [ms[0]];
    assert Step([], ms[0], commas) == [ms[0]];
    ScanFrame(p, [ms[0]], ms[1..], commas);
  }

  /** The finished marks of the question hold those of the slice, in one place. */
  lemma SliceMarksFound(q: string, fold: Folding, commas: Commas, a: nat, b: nat, ms: seq<Mark>)
      returns (i: nat, j: nat)
    requires Lawful(fold) && !commas.Ordinary? && a < b <= |q| && !IsGap(q[a], commas) && !IsGap(q[b - 1], commas)
    requires ms == Finish(Scan([], FoldMarks(q, fold, 0, |q|), commas))
    ensures Covers(ms, a, b, i, j) && ms[i..j] == Finish(Scan([], FoldMarks(q, fold, a, b), commas))
  {
    var s := SliceScan(q, fold, commas, a, b);
    var p, t := SliceInContext(q, fold, commas, a, b, s);
    LastOfConcat(p, s);
    FinishKeeps(p + s, t);
    i, j := |p|, |p + s|;
    assert ms == p + s + Finish(t);
    assert ms[i..j] == s;
  }

  // ---- the search ----

  /** `q[a..b]` starts and ends in solid characters, has the name's comparison form and stands at word edges. */
  predicate IsNormalizedSpan(q: string, name: string, fold: Folding, removeCommas: bool, a: nat, b: nat) {
    && a < b <= |q| && name != []
    && !IsGap(q[a], Mode(removeCommas)) && !IsGap(q[b - 1], Mode(removeCommas))
    && NameComparison(Fold(q[a..b], fold), removeCommas) == NameComparison(Fold(name, fold), removeCommas)
    && AtWordEdges(q[..a], name, q[b..])
  }

  function NormalizedTest(ms: seq<Mark>, q: string, name: string): EdgeTest
    requires name != []
  {
    (k: nat, l: nat) =>
      && k < l <= |ms| && ms[k].start <= |q| && ms[l - 1].end <= |q|
      && AtWordEdges(q[..ms[k].start], name, q[ms[l - 1].end..])
  }

  lemma TestOnSlice(ms: seq<Mark>, q: string, name: string, a: nat, b: nat, i: nat, j: nat)
    requires name != [] && Covers(ms, a, b, i, j) && a <= |q| && b <= |q|
    ensures NormalizedTest(ms, q, name)(i, j) <==> AtWordEdges(q[..a], name, q[b..])
  {
  }

  lemma NormalizedSpanHits(q: string, name: string, fold: Folding, removeCommas: bool, a: nat, b: nat,
      ms: seq<Mark>, target: string)
    requires Lawful(fold) && target == NameComparison(Fold(name, fold), removeCommas) != [] && name != []
    requires ms == Finish(Scan([], FoldMarks(q, fold, 0, |q|), Mode(removeCommas))) && Placed(ms)
    requires IsNormalizedSpan(q, name, fold, removeCommas, a, b)
    ensures SpanHit(ms, target, NormalizedTest(ms, q, name), (a, b))
  {
    var i, j := SliceMarksFound(q, fold, Mode(removeCommas), a, b, ms);
    OnePassIsTwoPhase(q, fold, a, b, removeCommas);
    TextOfSlice(ms, i, j);
    TestOnSlice(ms, q, name, a, b, i, j);
    CoveredHit(ms, target, a, b, i, j, NormalizedTest(ms, q, name));
  }

  /** A hit begins and ends in solid characters because the target does. */
  lemma HitEndsAreSolid(ms: seq<Mark>, q: string, commas: Commas, target: string, k: nat, a: nat, b: nat)
    requires target != [] && target[0] != ' ' && target[|target| - 1] != ' '
    requires InPlace(ms, q, commas, |q|) && Occurs(TextOf(ms), target, k) && SpanAt(ms, target, k) == (a, b)
    ensures a < b <= |q| && !IsGap(q[a], commas) && !IsGap(q[b - 1], commas)
  {
    var l := k + |target|;
    HitSpanInQuestion(ms, k, l, |q|);
    assert TextOf(ms)[k..l][0] == ms[k].ch && TextOf(ms)[k..l][|target| - 1] == ms[l - 1].ch;
    assert Faithful(ms[k], q, commas) && Faithful(ms[l - 1], q, commas);
  }

  lemma NormalizedHitIsSpan(q: string, name: string, fold: Folding, removeCommas: bool, a: nat, b: nat,
      ms: seq<Mark>, target: string, k: nat)
    requires Lawful(fold) && target == NameComparison(Fold(name, fold), removeCommas) != [] && name != []
    requires ms == Finish(Scan([], FoldMarks(q, fold, 0, |q|), Mode(removeCommas))) && Placed(ms)
    requires k < |ms| && Hit(ms, target, k, NormalizedTest(ms, q, name)) && SpanAt(ms, target, k) == (a, b)
    requires a < b <= |q| && !IsGap(q[a], Mode(removeCommas)) && !IsGap(q[b - 1], Mode(removeCommas))
    ensures IsNormalizedSpan(q, name, fold, removeCommas, a, b)
  {
    var i, j := SliceMarksFound(q, fold, Mode(removeCommas), a, b, ms);
    OnePassIsTwoPhase(q, fold, a, b, removeCommas);
    TextOfSlice(ms, i, j);
    TestOnSlice(ms, q, name, a, b, i, j);
    HitCovered(ms, target, a, b, i, j, NormalizedTest(ms, q, name), k);
  }

  lemma TargetEnds(name: string, fold: Folding, removeCommas: bool)
    ensures
      var target := NameComparison(Fold(name, fold), removeCommas);
      target != [] ==> name != [] && target[0] != ' ' && target[|target| - 1] != ' '
  {
    CollapseIsComparison(Fold(name, fold), removeCommas);
    CollapseEnds(Fold(name, fold), Fresh, Mode(removeCommas));
  }

  lemma NormalizedHitsAreSpans(q: string, name: string, fold: Folding, removeCommas: bool, a: nat, b: nat,
      ms: seq<Mark>, target: string)
    requires Lawful(fold) && target == NameComparison(Fold(name, fold), removeCommas) != [] && name != []
    requires ms == Finish(Scan([], FoldMarks(q, fold, 0, |q|), Mode(removeCommas)))
      && InPlace(ms, q, Mode(removeCommas), |q|)
    ensures IsNormalizedSpan(q, name, fold, removeCommas, a, b) <==>
      SpanHit(ms, target, NormalizedTest(ms, q, name), (a, b))
  {
    if IsNormalizedSpan(q, name, fold, removeCommas, a, b) {
      NormalizedSpanHits(q, name, fold, removeCommas, a, b, ms, target);
    }
    if SpanHit(ms, target, NormalizedTest(ms, q, name), (a, b)) {
      NormalizedHitSpans(q, name, fold, removeCommas, a, b, ms, target);
    }
  }

  lemma NormalizedHitSpans(q: string, name: string, fold: Folding, removeCommas: bool, a: nat, b: nat,
      ms: seq<Mark>, target: string)
    requires Lawful(fold) && target == NameComparison(Fold(name, fold), removeCommas) != [] && name != []
    requires ms == Finish(Scan([], FoldMarks(q, fold, 0, |q|), Mode(removeCommas)))
      && InPlace(ms, q, Mode(removeCommas), |q|)
    requires SpanHit(ms, target, NormalizedTest(ms, q, name), (a, b))
    ensures IsNormalizedSpan(q, name, fold, removeCommas, a, b)
  {
    var test := NormalizedTest(ms, q, name);
    var k :| 0 <= k < |ms| && Hit(ms, target, k, test) && SpanAt(ms, target, k) == (a, b);
    TargetEnds(name, fold, removeCommas);
    HitEndsAreSolid(ms, q, Mode(removeCommas), target, k, a, b);
    NormalizedHitIsSpan(q, name, fold, removeCommas, a, b, ms, target, k);
  }

  method Accepts(ms: seq<Mark>, q: string, name: string, k: nat, l: nat) returns (ok: bool)
    requires name != [] && Placed(ms) && Within(ms, 0, |q|) && k < l <= |ms|
    ensures ok <==> WholeCharacters(ms, k, l) && NormalizedTest(ms, q, name)(k, l)
  {
    if !WholeCharacters(ms, k, l) {
      return false;
    }
    var start, end := ms[k].start, ms[l - 1].end;
    HitSpanInQuestion(ms, k, l, |q|);
    ok := !StartsInsideWord(q, name, start) && !EndsInsideWord(q, name, end);
  }

  method TryMatch(ms: seq<Mark>, q: string, name: string, target: string, ghost offset: nat, k: nat,
                  spans: seq<(nat, nat)>)
    returns (next: seq<(nat, nat)>)
    requires target != [] && name != [] && Placed(ms) && Within(ms, 0, |q|)
    requires offset <= k && Occurs(TextOf(ms), target, k)
    requires forall i :: offset <= i < k ==> !Occurs(TextOf(ms), target, i)
    requires spans == SpansUpTo(ms, target, offset, NormalizedTest(ms, q, name))
    ensures next == SpansUpTo(ms, target, k + 1, NormalizedTest(ms, q, name))
  {
    var ok := Accepts(ms, q, name, k, k + |target|);
    NextMatch(ms, target, offset, k, NormalizedTest(ms, q, name), ok);
    next := if ok then spans + [SpanAt(ms, target, k)] else spans;
  }

  /** Tries one match after the other; the word edges are those of the question itself. */
  method SearchNormalized(ms: seq<Mark>, q: string, name: string, target: string) returns (spans: seq<(nat, nat)>)
    requires target != [] && name != [] && Placed(ms) && Within(ms, 0, |q|)
    ensures spans == SpansUpTo(ms, target, |ms|, NormalizedTest(ms, q, name))
  {
    var text := TextOf(ms);
    ghost var test := NormalizedTest(ms, q, name);
    spans := [];
    var offset := 0;
    while true
      invariant offset <= |ms| && spans == SpansUpTo(ms, target, offset, test)
      decreases |text| - offset
    {
      var k := Find(text, target, offset);
      if k == |text| {
        NoHitsBetween(ms, target, offset, k, test);
        return;
      }
      spans := TryMatch(ms, q, name, target, offset, k, spans);
      offset := k + 1;
    }
  }

  /** All slices of the question that differ from the name only in white space and commas, from left to right. */
  method NormalizedNameSpans(q: string, name: string, fold: Folding, removeCommas: bool)
      returns (spans: seq<(nat, nat)>)
    requires Lawful(fold)
    ensures Increasing(spans)
    ensures NameComparison(Fold(name, fold), removeCommas) == [] ==> spans == []
    ensures NameComparison(Fold(name, fold), removeCommas) != [] ==>
      forall a: nat, b: nat :: (a, b) in spans <==> IsNormalizedSpan(q, name, fold, removeCommas, a, b)
  {
    var target := NameComparison(Fold(name, fold), removeCommas);
    if target == [] {
      return [];
    }
    TargetEnds(name, fold, removeCommas);
    var folded := CasefoldWithSpans(q, fold);
    var ms := NormalizeMarks(folded, Mode(removeCommas));
    ScanInPlace(q, fold, Mode(removeCommas), |q|);
    FinishInPlace(Scan([], folded, Mode(removeCommas)), q, Mode(removeCommas), |q|);
    spans := SearchNormalized(ms, q, name, target);
    ghost var test := NormalizedTest(ms, q, name);
    SpansIncrease(ms, target, |ms|, test);
    forall a: nat, b: nat ensures (a, b) in spans <==> IsNormalizedSpan(q, name, fold, removeCommas, a, b) {
      AllSpansMembers(ms, target, test, (a, b));
      NormalizedHitsAreSpans(q, name, fold, removeCommas, a, b, ms, target);
    }
  }
}
