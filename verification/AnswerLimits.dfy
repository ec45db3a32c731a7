/** The row and character budgets that decide how much of a result reaches the
    answer prompt. A row is opaque here; only its serialised size matters. */
module AnswerLimits {
  import opened Wrappers

  type Size<!Row> = Row -> nat

  function Chars<Row>(rows: seq<Row>, size: Size<Row>): nat {
    if rows == [] then 0 else Chars(rows[..|rows| - 1], size) + size(rows[|rows| - 1])
  }

  function TotalChars<Row>(sections: seq<seq<Row>>, size: Size<Row>): nat {
    if sections == [] then 0 else Chars(sections[0], size) + TotalChars(sections[1..], size)
  }

  function TotalRows<Row>(sections: seq<seq<Row>>): nat {
    if sections == [] then 0 else |sections[0]| + TotalRows(sections[1..])
  }

  lemma {:induction false} AppendRow<Row>(sections: seq<seq<Row>>, k: nat, row: Row, size: Size<Row>)
    requires k < |sections|
    ensures
      var after := sections[k := sections[k] + [row]];
      && TotalChars(after, size) == TotalChars(sections, size) + size(row)
      && TotalRows(after) == TotalRows(sections) + 1
  {
    var after := sections[k := sections[k] + [row]];
    if k == 0 {
      assert after[1..] == sections[1..];
      assert after[0][..|after[0]| - 1] == sections[0];
    } else {
      assert after[1..] == sections[1..][k - 1 := sections[1..][k - 1] + [row]];
      AppendRow(sections[1..], k - 1, row, size);
    }
  }

  /** `kept` is a prefix of every section. */
  predicate KeepsPrefixes<Row(==)>(sections: seq<seq<Row>>, kept: seq<seq<Row>>) {
    |kept| == |sections| && forall k :: 0 <= k < |sections| ==> kept[k] <= sections[k]
  }

  lemma {:induction false} PrefixesBound<Row>(sections: seq<seq<Row>>, kept: seq<seq<Row>>)
    requires KeepsPrefixes(sections, kept)
    ensures TotalRows(kept) <= TotalRows(sections)
    ensures TotalRows(kept) == TotalRows(sections) <==> kept == sections
  {
    if sections != [] {
      PrefixesBound(sections[1..], kept[1..]);
      assert kept == [kept[0]] + kept[1..] && sections == [sections[0]] + sections[1..];
      assert |kept[0]| == |sections[0]| ==> kept[0] == sections[0];
    }
  }

  /** The rows charged against the character budget: everything but the one
      oversize first row that may have been let in. */
  function Charged<Row>(kept: seq<seq<Row>>, oversize: Option<nat>, size: Size<Row>): int
    requires oversize.Some? ==> oversize.value < |kept| && |kept[oversize.value]| > 0
  {
    TotalChars(kept, size) - (if oversize.Some? then size(kept[oversize.value][0]) else 0)
  }

  /** `oversize` names the section, if any, whose first row alone exceeds the budget. */
  predicate OversizeOnly<Row>(kept: seq<seq<Row>>, oversize: Option<nat>, maxChars: nat, size: Size<Row>) {
    oversize.Some? ==>
      && oversize.value < |kept|
      && |kept[oversize.value]| == 1
      && size(kept[oversize.value][0]) > maxChars
  }

  /** The oversize row is let in only before any other row: no earlier section has one to offer. */
  predicate OversizeFirst<Row>(sections: seq<seq<Row>>, oversize: Option<nat>) {
    oversize.Some? ==> oversize.value < |sections| && forall j :: 0 <= j < oversize.value ==> sections[j] == []
  }

  /** Section `k` can take no further row: it is used up, its next row would
      overflow the character budget, or it holds the oversize row. */
  predicate Stuck<Row>(sections: seq<seq<Row>>, kept: seq<seq<Row>>, oversize: Option<nat>, maxChars: nat,
      size: Size<Row>, k: nat)
    requires |kept| == |sections| && k < |sections| && |kept[k]| <= |sections[k]|
    requires OversizeOnly(kept, oversize, maxChars, size)
  {
    || |kept[k]| == |sections[k]|
    || Charged(kept, oversize, size) + size(sections[k][|kept[k]|]) > maxChars
    || oversize == Some(k)
  }

  /** What the round-robin promises about the rows it kept. */
  ghost predicate Budgeted<Row>(sections: seq<seq<Row>>, kept: seq<seq<Row>>, oversize: Option<nat>, maxRows: nat,
      maxChars: nat, size: Size<Row>)
  {
    && KeepsPrefixes(sections, kept)
    && TotalRows(kept) <= maxRows
    && OversizeOnly(kept, oversize, maxChars, size) && OversizeFirst(sections, oversize)
    && Charged(kept, oversize, size) <= maxChars
    // one section leads another by two rows only when the other is stuck
    && (forall i, j :: 0 <= i < |kept| && 0 <= j < |kept| && |kept[i]| > |kept[j]| + 1 ==>
          Stuck(sections, kept, oversize, maxChars, size, j))
    // rows are left out below the row limit only when every section is stuck
    && (TotalRows(kept) < maxRows ==>
          forall k :: 0 <= k < |kept| ==> Stuck(sections, kept, oversize, maxChars, size, k))
  }

  /** `pass` rounds are complete, apart from the sections from `next` on. */
  ghost predicate Rounds<Row>(sections: seq<seq<Row>>, kept: seq<seq<Row>>, blocked: set<nat>, pass: nat, next: nat,
      full: bool)
  {
    && |kept| == |sections|
    && (forall k :: 0 <= k < |kept| ==> |kept[k]| <= pass + 1 && (k >= next ==> |kept[k]| <= pass))
    && (forall k :: 0 <= k < |kept| && k !in blocked ==> pass <= |kept[k]|)
    && (!full ==> forall k :: 0 <= k < next && k < |kept| && k !in blocked ==> |kept[k]| == pass + 1)
  }

  ghost predicate BlockedAreStuck<Row>(sections: seq<seq<Row>>, kept: seq<seq<Row>>, blocked: set<nat>,
      oversize: Option<nat>, maxChars: nat, size: Size<Row>)
  {
    && KeepsPrefixes(sections, kept)
    && OversizeOnly(kept, oversize, maxChars, size) && OversizeFirst(sections, oversize)
    && (oversize.Some? ==> oversize.value in blocked)
    && (forall k: nat :: k in blocked ==> k < |sections| && Stuck(sections, kept, oversize, maxChars, size, k))
    && (TotalRows(kept) == 0 ==> forall k: nat :: k in blocked ==> sections[k] == [])
  }

  lemma AdmitKeepsStuck<Row>(sections: seq<seq<Row>>, kept: seq<seq<Row>>, blocked: set<nat>, oversize: Option<nat>,
      maxChars: nat, size: Size<Row>, k: nat)
    requires BlockedAreStuck(sections, kept, blocked, oversize, maxChars, size)
    requires k < |sections| && k !in blocked && |kept[k]| < |sections[k]|
    ensures
      var row := sections[k][|kept[k]|];
      var after := kept[k := kept[k] + [row]];
      && BlockedAreStuck(sections, after, blocked, oversize, maxChars, size)
      && Charged(after, oversize, size) == Charged(kept, oversize, size) + size(row)
      && TotalRows(after) == TotalRows(kept) + 1
  {
    AppendRow(kept, k, sections[k][|kept[k]|], size);
  }

  lemma OversizeKeepsStuck<Row>(sections: seq<seq<Row>>, kept: seq<seq<Row>>, blocked: set<nat>,
      oversize: Option<nat>, maxChars: nat, size: Size<Row>, k: nat)
    requires BlockedAreStuck(sections, kept, blocked, oversize, maxChars, size)
    requires TotalRows(kept) == 0
    requires k < |sections| && k !in blocked && 0 < |sections[k]|
    requires size(sections[k][0]) > maxChars && forall j :: 0 <= j < k ==> sections[j] == []
    ensures kept[k] == [] && oversize == None
    ensures
      var after := kept[k := kept[k] + [sections[k][0]]];
      && BlockedAreStuck(sections, after, blocked + {k}, Some(k), maxChars, size)
      && Charged(after, Some(k), size) == Charged(kept, None, size)
      && TotalRows(after) == 1
  {
    NoRowsMeansEmpty(kept, size);
    var row := sections[k][0];
    AppendRow(kept, k, row, size);
    var after := kept[k := kept[k] + [row]];
    forall j: nat | j in blocked + {k}
      ensures j < |sections| && Stuck(sections, after, Some(k), maxChars, size, j)
    {
    }
  }

  lemma {:induction false} NoRowsMeansEmpty<Row>(kept: seq<seq<Row>>, size: Size<Row>)
    ensures TotalRows(kept) == 0 <==> forall k :: 0 <= k < |kept| ==> kept[k] == []
    ensures TotalRows(kept) == 0 ==> TotalChars(kept, size) == 0
  {
    if kept != [] {
      NoRowsMeansEmpty(kept[1..], size);
      assert forall k :: 1 <= k < |kept| ==> kept[k] == kept[1..][k - 1];
    }
  }

  /** One visit of the round-robin to section `k`. */
  method Visit<Row(==)>(sections: seq<seq<Row>>, kept: seq<seq<Row>>, blocked: set<nat>, ghost oversize: Option<nat>,
      count: nat, charCount: nat, maxRows: nat, maxChars: nat, size: Size<Row>, k: nat, ghost pass: nat)
    returns (kept': seq<seq<Row>>, blocked': set<nat>, ghost oversize': Option<nat>,
      count': nat, charCount': nat, progressed: bool)
    requires k < |sections|
    requires BlockedAreStuck(sections, kept, blocked, oversize, maxChars, size)
    requires Rounds(sections, kept, blocked, pass, k, count == maxRows)
    requires count == TotalRows(kept) <= maxRows
    requires charCount == Charged(kept, oversize, size) <= maxChars
    requires count == 0 ==> forall j :: 0 <= j < k ==> sections[j] == []
    ensures BlockedAreStuck(sections, kept', blocked', oversize', maxChars, size)
    ensures Rounds(sections, kept', blocked', pass, k + 1, count' == maxRows)
    ensures count <= count' == TotalRows(kept') <= maxRows
    ensures charCount' == Charged(kept', oversize', size) <= maxChars
    ensures blocked <= blocked'
    ensures if progressed then count < count' else count' == maxRows || k in blocked'
    ensures count' == 0 ==> maxRows == 0 || sections[k] == []
  {
    kept', blocked', oversize', count', charCount', progressed := kept, blocked, oversize, count, charCount, false;
    if count >= maxRows {
      return;
    }
    if k in blocked {
      return;
    }
    var rows := sections[k];
    var position := |kept[k]|;
    if position >= |rows| {
      NoRowsMeansEmpty(kept, size);
      blocked' := blocked + {k};
      return;
    }
    var row := rows[position];
    if charCount + size(row) > maxChars {
      if count == 0 {
        NoRowsMeansEmpty(kept, size);
        OversizeKeepsStuck(sections, kept, blocked, oversize, maxChars, size, k);
        kept' := kept[k := kept[k] + [row]];
        count' := count + 1;
        oversize' := Some(k);
      }
      blocked' := blocked + {k};
      return;
    }
    AdmitKeepsStuck(sections, kept, blocked, oversize, maxChars, size, k);
    kept' := kept[k := kept[k] + [row]];
    count' := count + 1;
    charCount' := charCount + size(row);
    progressed := true;
  }

  /** Round-robin over the sections, so that one section cannot use up the budget. */
  method TruncateSections<Row(==)>(sections: seq<seq<Row>>, maxRows: nat, maxChars: nat, size: Size<Row>)
    returns (included: seq<seq<Row>>, includedCount: nat, truncated: bool)
    ensures exists oversize :: Budgeted(sections, included, oversize, maxRows, maxChars, size)
    ensures includedCount == TotalRows(included)
    ensures truncated <==> included != sections
    ensures maxRows > 0 && TotalRows(sections) > 0 ==> includedCount > 0
  {
    included := seq(|sections|, _ => []);
    NoRowsMeansEmpty(included, size);
    var blocked: set<nat> := {};
    includedCount := 0;
    var charCount := 0;
    ghost var oversize: Option<nat> := None;
    ghost var pass := 0;
    var progressed := true;
    while includedCount < maxRows && progressed
      invariant BlockedAreStuck(sections, included, blocked, oversize, maxChars, size)
      invariant includedCount == TotalRows(included) <= maxRows
      invariant charCount == Charged(included, oversize, size) <= maxChars
      invariant pass == 0 ==> Rounds(sections, included, blocked, 0, 0, includedCount == maxRows) && progressed
      invariant pass > 0 ==> Rounds(sections, included, blocked, pass - 1, |sections|, includedCount == maxRows)
      invariant !progressed && includedCount < maxRows ==> forall k: nat :: k < |sections| ==> k in blocked
      invariant pass > 0 && includedCount == 0 ==> forall k :: 0 <= k < |sections| ==> sections[k] == []
      decreases maxRows - includedCount, progressed
    {
      progressed := false;
      ghost var before := includedCount;
      for k := 0 to |sections|
        invariant BlockedAreStuck(sections, included, blocked, oversize, maxChars, size)
        invariant Rounds(sections, included, blocked, pass, k, includedCount == maxRows)
        invariant before <= includedCount == TotalRows(included) <= maxRows
        invariant charCount == Charged(included, oversize, size) <= maxChars
        invariant progressed ==> before < includedCount
        invariant !progressed && includedCount < maxRows ==> forall j: nat :: j < k ==> j in blocked
        invariant includedCount == 0 ==> forall j :: 0 <= j < k ==> sections[j] == []
      {
        var admitted;
        included, blocked, oversize, includedCount, charCount, admitted :=
          Visit(sections, included, blocked, oversize, includedCount, charCount, maxRows, maxChars, size, k, pass);
        progressed := progressed || admitted;
      }
      pass := pass + 1;
    }
    PrefixesBound(sections, included);
    NoRowsMeansEmpty(sections, size);
    assert Budgeted(sections, included, oversize, maxRows, maxChars, size);
    truncated := includedCount < TotalRows(sections);
  }

  /** The first `count` rows are the longest prefix the budgets allow. */
  ghost predicate LongestPrefix<Row>(rows: seq<Row>, count: nat, maxRows: nat, maxChars: nat, size: Size<Row>) {
    && count <= |rows| && count <= maxRows
    && (Chars(rows[..count], size) <= maxChars || (count == 1 && size(rows[0]) > maxChars))
    && (count == |rows| || count == maxRows
        || (count > 0 && Chars(rows[..count], size) + size(rows[count]) > maxChars))
  }

  lemma {:induction false} CharsMonotone<Row>(rows: seq<Row>, m: nat, n: nat, size: Size<Row>)
    requires m <= n <= |rows|
    ensures Chars(rows[..m], size) <= Chars(rows[..n], size)
    ensures m < n ==> Chars(rows[..m], size) + size(rows[m]) <= Chars(rows[..n], size)
  {
    if m < n {
      assert rows[..n][..n - 1] == rows[..n - 1];
      CharsMonotone(rows, m, n - 1, size);
    }
  }

  lemma LongestPrefixUnique<Row>(rows: seq<Row>, m: nat, n: nat, maxRows: nat, maxChars: nat, size: Size<Row>)
    requires LongestPrefix(rows, m, maxRows, maxChars, size)
    requires LongestPrefix(rows, n, maxRows, maxChars, size)
    ensures m == n
  {
    var lo, hi := if m <= n then m else n, if m <= n then n else m;
    CharsMonotone(rows, lo, hi, size);
    if hi == 1 {
      assert rows[..1][..0] == [];
    }
  }

  /** The prefix that a single or joined result keeps. */
  method TruncateRows<Row>(rows: seq<Row>, maxRows: nat, maxChars: nat, size: Size<Row>)
    returns (kept: seq<Row>, truncated: bool)
    ensures |kept| <= |rows| && kept == rows[..|kept|]
    ensures LongestPrefix(rows, |kept|, maxRows, maxChars, size)
    ensures truncated <==> |kept| < |rows|
  {
    kept := [];
    var charCount := 0;
    var limited := if maxRows < |rows| then rows[..maxRows] else rows;
    for i := 0 to |limited|
      invariant kept == rows[..i]
      invariant charCount == Chars(rows[..i], size) <= maxChars
    {
      var row := limited[i];
      assert rows[..i + 1][..i] == rows[..i];
      if charCount + size(row) > maxChars {
        if kept == [] {
          kept := kept + [row];
        }
        break;
      }
      kept := kept + [row];
      charCount := charCount + size(row);
    }
    truncated := |kept| < |rows|;
  }

  /** With one section the round-robin keeps exactly what the plain prefix rule keeps. */
  lemma OneSectionIsPrefix<Row>(rows: seq<Row>, kept: seq<Row>, oversize: Option<nat>, maxRows: nat, maxChars: nat,
      size: Size<Row>)
    requires Budgeted([rows], [kept], oversize, maxRows, maxChars, size)
    requires maxRows > 0 && |rows| > 0 ==> |kept| > 0
    ensures |kept| <= |rows| && kept == rows[..|kept|]
    ensures LongestPrefix(rows, |kept|, maxRows, maxChars, size)
  {
    assert TotalRows([kept]) == |kept| + TotalRows([kept][1..]);
    assert TotalChars([kept], size) == Chars(kept, size) + TotalChars([kept][1..], size);
    assert [kept][0] <= [rows][0];
    if |kept| < maxRows {
      assert Stuck([rows], [kept], oversize, maxChars, size, 0);
    }
    if oversize.Some? {
      assert kept[..0] == [];
    }
  }
}
