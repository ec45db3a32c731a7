/** The text masker that runs before every keyword or semicolon check on a
    generated query: literals, quoted identifiers and comments become blanks. */
module MaskQuery {
  import opened Wrappers
  import opened Collections

  predicate IsQuote(c: char) { c == '\'' || c == '"' || c == '`' }

  predicate IsNewline(c: char) { c == '\r' || c == '\n' }

  predicate OpensLineComment(s: string) {
    |s| >= 2 && ((s[0] == '-' && s[1] == '-') || (s[0] == '/' && s[1] == '/'))
  }

  predicate OpensBlockComment(s: string) { |s| >= 2 && s[0] == '/' && s[1] == '*' }

  predicate ClosesBlockComment(s: string) { |s| >= 2 && s[0] == '*' && s[1] == '/' }

  /** The masked form of `s` read as code; the three functions below read the
      rest of a line comment, a block comment and a quoted literal. */
  function Mask(s: string): string
    decreases |s|, 0
  {
    if s == [] then []
    else if OpensLineComment(s) then MaskLineComment(s[2..])
    else if OpensBlockComment(s) then MaskBlockComment(s[2..])
    else if IsQuote(s[0]) then " " + MaskQuoted(s[1..], s[0])
    else [s[0]] + Mask(s[1..])
  }

  function MaskLineComment(s: string): string
    decreases |s|, 1
  {
    if s == [] || IsNewline(s[0]) then Mask(s) else " " + MaskLineComment(s[1..])
  }

  function MaskBlockComment(s: string): string
    decreases |s|, 1
  {
    if s == [] then []
    else if ClosesBlockComment(s) then "  " + Mask(s[2..])
    else " " + MaskBlockComment(s[1..])
  }

  function MaskQuoted(s: string, quote: char): string
    decreases |s|, 1
  {
    if s == [] then []
    else if s[0] == quote then
      if |s| > 1 && s[1] == quote then "  " + MaskQuoted(s[2..], quote)
      else " " + Mask(s[1..])
    else if s[0] == '\\' && |s| > 1 then "  " + MaskQuoted(s[2..], quote)
    else " " + MaskQuoted(s[1..], quote)
  }

  /** No quote character and no two adjacent characters that open a comment. */
  predicate Clean(s: string) {
    && (forall i :: 0 <= i < |s| ==> s[i] !in {'\'', '"', '`'})
    && (forall i :: 0 <= i < |s| - 1 ==> [s[i], s[i + 1]] !in {"--", "//", "/*"})
  }

  /** What may follow a character of the output: blanks, newlines, or exactly the
      character that followed it in the input. */
  predicate StartsQuietly(out: string) { out == [] || out[0] == ' ' || IsNewline(out[0]) }

  lemma CleanCons(c: char, rest: string)
    requires !IsQuote(c) && Clean(rest)
    requires rest == [] || (!(c == '-' && rest[0] == '-') && !(c == '/' && rest[0] in {'/', '*'}))
    ensures Clean([c] + rest)
  {
    var s := [c] + rest;
    forall i | 0 <= i < |s|
      ensures !OpensLineComment(s[i..]) && !OpensBlockComment(s[i..])
    {
      if i > 0 {
        assert s[i..] == rest[i - 1..];
      }
    }
  }

  /** Masked text is clean, also across the places where a comment opener was
      dropped without leaving a blank. */
  lemma {:induction false} MaskIsClean(s: string)
    ensures Clean(Mask(s))
    ensures Mask(s) == [] || StartsQuietly(Mask(s)) || (s != [] && Mask(s)[0] == s[0])
    decreases |s|, 0
  {
    if s == [] {
    } else if OpensLineComment(s) {
      MaskLineCommentIsClean(s[2..]);
    } else if OpensBlockComment(s) {
      MaskBlockCommentIsClean(s[2..]);
    } else if IsQuote(s[0]) {
      MaskQuotedIsClean(s[1..], s[0]);
      CleanCons(' ', MaskQuoted(s[1..], s[0]));
    } else {
      MaskIsClean(s[1..]);
      CleanCons(s[0], Mask(s[1..]));
    }
  }

  lemma {:induction false} MaskLineCommentIsClean(s: string)
    ensures Clean(MaskLineComment(s)) && StartsQuietly(MaskLineComment(s))
    decreases |s|, 1
  {
    if s == [] || IsNewline(s[0]) {
      MaskIsClean(s);
    } else {
      MaskLineCommentIsClean(s[1..]);
      CleanCons(' ', MaskLineComment(s[1..]));
    }
  }

  lemma {:induction false} MaskBlockCommentIsClean(s: string)
    ensures Clean(MaskBlockComment(s)) && StartsQuietly(MaskBlockComment(s))
    decreases |s|, 1
  {
    if s == [] {
    } else if ClosesBlockComment(s) {
      MaskIsClean(s[2..]);
      CleanTwoBlanks(Mask(s[2..]));
    } else {
      MaskBlockCommentIsClean(s[1..]);
      CleanCons(' ', MaskBlockComment(s[1..]));
    }
  }

  lemma {:induction false} MaskQuotedIsClean(s: string, quote: char)
    ensures Clean(MaskQuoted(s, quote)) && StartsQuietly(MaskQuoted(s, quote))
    decreases |s|, 1
  {
    if s == [] {
    } else if s[0] == quote {
      if |s| > 1 && s[1] == quote {
        MaskQuotedIsClean(s[2..], quote);
        CleanTwoBlanks(MaskQuoted(s[2..], quote));
      } else {
        MaskIsClean(s[1..]);
        CleanCons(' ', Mask(s[1..]));
      }
    } else if s[0] == '\\' && |s| > 1 {
      MaskQuotedIsClean(s[2..], quote);
      CleanTwoBlanks(MaskQuoted(s[2..], quote));
    } else {
      MaskQuotedIsClean(s[1..], quote);
      CleanCons(' ', MaskQuoted(s[1..], quote));
    }
  }

  lemma CleanTwoBlanks(rest: string)
    requires Clean(rest)
    ensures Clean("  " + rest)
  {
    CleanCons(' ', rest);
    CleanCons(' ', " " + rest);
    assert "  " + rest == " " + (" " + rest);
  }

  /** The end of `code` and the start of `rest` do not make a comment opener together. */
  predicate Apart(code: string, rest: string) {
    code != [] && rest != [] ==> [Last(code), rest[0]] !in {"--", "//", "/*"}
  }

  /** Clean text passes through unchanged. */
  lemma {:induction false} CleanPrefixPasses(code: string, rest: string)
    requires Clean(code) && Apart(code, rest)
    ensures Mask(code + rest) == code + Mask(rest)
  {
    if code == [] {
      assert code + rest == rest;
    } else {
      var s := code + rest;
      assert s[1..] == code[1..] + rest;
      CleanPrefixPasses(code[1..], rest);
      assert |s| > 1 ==> [s[0], s[1]] !in {"--", "//", "/*"};
    }
  }

  /** Masking changes nothing exactly on clean text. */
  lemma MaskFixedPoint(s: string)
    ensures Mask(s) == s <==> Clean(s)
  {
    MaskIsClean(s);
    if Clean(s) {
      CleanPrefixPasses(s, []);
      assert s + [] == s;
    }
  }

  lemma MaskIdempotent(s: string)
    ensures Mask(Mask(s)) == Mask(s)
  {
    MaskIsClean(s);
    MaskFixedPoint(Mask(s));
  }

  function Blanks(n: nat): string { seq(n, i => ' ') }

  lemma CodeStep(query: string, index: nat)
    requires index < |query|
    ensures
      var rest := query[index..];
      Mask(rest) ==
      if OpensLineComment(rest) then MaskLineComment(query[index + 2..])
      else if OpensBlockComment(rest) then MaskBlockComment(query[index + 2..])
      else if IsQuote(query[index]) then " " + MaskQuoted(query[index + 1..], query[index])
      else [query[index]] + Mask(query[index + 1..])
  {
    var rest := query[index..];
    assert query[index + 1..] == rest[1..];
    if |rest| >= 2 {
      assert query[index + 2..] == rest[2..];
    }
  }

  lemma BlockCommentStep(query: string, index: nat)
    requires index < |query|
    ensures
      MaskBlockComment(query[index..]) ==
      if ClosesBlockComment(query[index..]) then "  " + Mask(query[index + 2..])
      else " " + MaskBlockComment(query[index + 1..])
  {
    var rest := query[index..];
    assert query[index + 1..] == rest[1..];
    if |rest| >= 2 {
      assert query[index + 2..] == rest[2..];
    }
  }

  lemma QuotedStep(query: string, index: nat, quote: char)
    requires index < |query|
    ensures
      MaskQuoted(query[index..], quote) ==
      if query[index] == quote then
        if index + 1 < |query| && query[index + 1] == quote then "  " + MaskQuoted(query[index + 2..], quote)
        else " " + Mask(query[index + 1..])
      else if query[index] == '\\' && index + 1 < |query| then "  " + MaskQuoted(query[index + 2..], quote)
      else " " + MaskQuoted(query[index + 1..], quote)
  {
    var rest := query[index..];
    assert query[index + 1..] == rest[1..];
    if |rest| >= 2 {
      assert query[index + 2..] == rest[2..];
    }
  }

  predicate ClosedBefore(after: string, quote: char) { after == [] || after[0] != quote }

  /** How many characters of a literal's body the scanner takes at once. */
  function Stride(s: string, quote: char): nat
    requires s != []
  {
    if |s| > 1 && (s[0] == quote || s[0] == '\\') then 2 else 1
  }

  /** The body of a literal that opens before `s`, and the rest behind its closing
      quote; none if it never closes. */
  function Literal(s: string, quote: char): Option<(string, string)> {
    if s == [] then None
    else if s[0] == quote && ClosedBefore(s[1..], quote) then Some(([], s[1..]))
    else
      match Literal(s[Stride(s, quote)..], quote)
      case None => None
      case Some((body, after)) => Some((s[..Stride(s, quote)] + body, after))
  }

  lemma BlanksAdd(m: nat, n: nat)
    ensures Blanks(m) + Blanks(n) == Blanks(m + n)
  {
  }

  lemma QuotedStride(s: string, quote: char)
    requires s != [] && !(s[0] == quote && ClosedBefore(s[1..], quote))
    ensures MaskQuoted(s, quote) == Blanks(Stride(s, quote)) + MaskQuoted(s[Stride(s, quote)..], quote)
  {
    assert Blanks(1) == " " && Blanks(2) == "  ";
  }

  /** A literal turns into blanks up to its closing quote, or to the end without one. */
  lemma {:induction false} QuotedIsBlank(s: string, quote: char)
    ensures MaskQuoted(s, quote) ==
      match Literal(s, quote)
      case None => Blanks(|s|)
      case Some((body, after)) => Blanks(|body| + 1) + Mask(after)
  {
    if s == [] {
    } else if s[0] == quote && ClosedBefore(s[1..], quote) {
      assert Blanks(1) == " ";
    } else {
      var n := Stride(s, quote);
      QuotedStride(s, quote);
      QuotedIsBlank(s[n..], quote);
      match Literal(s[n..], quote)
      case None => BlanksAdd(n, |s| - n);
      case Some((body, after)) =>
        BlanksAdd(n, |body| + 1);
        Regroup(Blanks(n), Blanks(|body| + 1), Mask(after));
    }
  }

  /** What a literal may hold without ending: the quote only doubled, and a backslash
      only together with the character behind it. */
  predicate Body(body: string, quote: char) {
    body == [] || ((body[0] in {quote, '\\'} ==> |body| > 1)
                   && (body[0] == quote ==> body[1] == quote)
                   && Body(body[Stride(body, quote)..], quote))
  }

  /** The literal read is a body followed by a quote that stands alone. */
  lemma {:induction false} LiteralParts(s: string, quote: char)
    requires Literal(s, quote).Some?
    ensures
      var (body, after) := Literal(s, quote).value;
      s == body + [quote] + after && Body(body, quote) && ClosedBefore(after, quote)
  {
    if !(s[0] == quote && ClosedBefore(s[1..], quote)) {
      var n := Stride(s, quote);
      LiteralParts(s[n..], quote);
      var (rest, after) := Literal(s[n..], quote).value;
      assert (s[..n] + rest)[n..] == rest;
      assert s == s[..n] + s[n..];
    }
  }

  /** And every such text is read as that literal. */
  lemma {:induction false} LiteralIsRead(quote: char, body: string, after: string)
    requires Body(body, quote) && ClosedBefore(after, quote)
    ensures Literal(body + [quote] + after, quote) == Some((body, after))
  {
    var s := body + [quote] + after;
    if body == [] {
      assert s[1..] == after;
    } else {
      var n := Stride(body, quote);
      assert s[0] == body[0] && s[1] == if |body| > 1 then body[1] else quote;
      assert n == Stride(s, quote);
      assert s[1..][0] == s[1];
      assert s[n..] == body[n..] + [quote] + after;
      LiteralIsRead(quote, body[n..], after);
      assert s[..n] + body[n..] == body;
    }
  }

  /** Behind an opening quote a literal closes in one place at most. */
  lemma LiteralEndsOnce(s: string, quote: char, body: string, after: string)
    requires Body(body, quote) && ClosedBefore(after, quote) && s == body + [quote] + after
    ensures forall b, a :: Body(b, quote) && ClosedBefore(a, quote) && s == b + [quote] + a ==> b == body && a == after
  {
    LiteralIsRead(quote, body, after);
    forall b, a | Body(b, quote) && ClosedBefore(a, quote) && s == b + [quote] + a ensures b == body && a == after {
      LiteralIsRead(quote, b, a);
    }
  }

  /** A literal that opens before `s` closes somewhere in it. */
  ghost predicate Closes(s: string, quote: char) {
    exists body, after :: Body(body, quote) && ClosedBefore(after, quote) && s == body + [quote] + after
  }

  lemma UnclosedIsUnread(s: string, quote: char)
    ensures Literal(s, quote).Some? ==> Closes(s, quote)
  {
    if Literal(s, quote).Some? {
      LiteralParts(s, quote);
    }
  }

  lemma OneMoreBlank(n: nat)
    ensures " " + Blanks(n) == Blanks(n + 1)
  {
  }

  lemma UnreadHidesAll(before: string, quote: char, s: string)
    requires Clean(before) && IsQuote(quote) && Literal(s, quote).None?
    ensures Mask(before + ([quote] + s)) == before + Blanks(|s| + 1)
  {
    CleanPrefixPasses(before, [quote] + s);
    LiteralOpens(quote, s);
    QuotedIsBlank(s, quote);
    OneMoreBlank(|s|);
  }

  /** Without a place to close in, a literal hides everything to the end. */
  lemma OpenLiteralHidesAll(before: string, quote: char, s: string)
    requires Clean(before) && quote in {'\'', '"', '`'} && !Closes(s, quote)
    ensures Mask(before + ([quote] + s)) == before + Blanks(|s| + 1)
  {
    UnclosedIsUnread(s, quote);
    UnreadHidesAll(before, quote, s);
  }

  /** The body of a literal never shows, and the code on both sides always does. */
  lemma LiteralIsHidden(before: string, quote: char, body: string, after: string)
    requires Clean(before) && quote in {'\'', '"', '`'} && Body(body, quote) && ClosedBefore(after, quote)
    ensures Mask(before + ([quote] + (body + [quote] + after))) == before + Blanks(|body| + 2) + Mask(after)
  {
    CleanPrefixPasses(before, [quote] + (body + [quote] + after));
    LiteralBlanks(quote, body, after);
    Regroup(before, Blanks(|body| + 2), Mask(after));
  }

  lemma LiteralBlanks(quote: char, body: string, after: string)
    requires IsQuote(quote) && Body(body, quote) && ClosedBefore(after, quote)
    ensures Mask([quote] + (body + [quote] + after)) == Blanks(|body| + 2) + Mask(after)
  {
    LiteralOpens(quote, body + [quote] + after);
    LiteralIsRead(quote, body, after);
    QuotedIsBlank(body + [quote] + after, quote);
    BlankFirst(|body| + 1, Mask(after));
  }

  lemma BlankFirst(n: nat, rest: string)
    ensures " " + (Blanks(n) + rest) == Blanks(n + 1) + rest
  {
    OneMoreBlank(n);
    Regroup(" ", Blanks(n), rest);
  }

  lemma LiteralOpens(quote: char, rest: string)
    requires IsQuote(quote)
    ensures Mask([quote] + rest) == " " + MaskQuoted(rest, quote)
  {
    CodeStep([quote] + rest, 0);
    assert ([quote] + rest)[0..] == [quote] + rest;
    assert ([quote] + rest)[1..] == rest;
  }

  // ---- comments ----

  /** A block comment is hidden up to and with the first place where '*' and '/' stand together. */
  lemma {:induction false} BlockBody(body: string, after: string)
    requires forall i :: 0 <= i < |body| - 1 ==> !(body[i] == '*' && body[i + 1] == '/')
    ensures MaskBlockComment(body + "*/" + after) == Blanks(|body| + 2) + Mask(after)
  {
    var s := body + "*/" + after;
    if body == [] {
      assert s[2..] == after;
      assert Blanks(2) == "  ";
    } else {
      assert s[1..] == body[1..] + "*/" + after;
      BlockBody(body[1..], after);
      BlankFirst(|body| + 1, Mask(after));
    }
  }

  lemma {:induction false} OpenBlockBody(body: string)
    requires forall i :: 0 <= i < |body| - 1 ==> !(body[i] == '*' && body[i + 1] == '/')
    ensures MaskBlockComment(body) == Blanks(|body|)
  {
    if body != [] {
      OpenBlockBody(body[1..]);
      assert Blanks(|body|) == " " + Blanks(|body| - 1);
    }
  }

  lemma {:induction false} LineBody(body: string, after: string)
    requires '\r' !in body && '\n' !in body && (after == [] || after[0] in {'\r', '\n'})
    ensures MaskLineComment(body + after) == Blanks(|body|) + Mask(after)
  {
    var s := body + after;
    if body == [] {
      assert s == after && Blanks(0) + Mask(after) == Mask(after);
    } else {
      assert s[1..] == body[1..] + after;
      LineBody(body[1..], after);
      BlankFirst(|body| - 1, Mask(after));
    }
  }

  lemma CommentOpens(opener: string, rest: string)
    requires opener in {"--", "//", "/*"}
    ensures Mask(opener + rest) == if opener == "/*" then MaskBlockComment(rest) else MaskLineComment(rest)
  {
    assert (opener + rest)[2..] == rest;
  }

  /** A block comment behind code turns into blanks without its opener, and the text behind
      its closer is masked on its own. */
  lemma BlockCommentIsHidden(before: string, body: string, after: string)
    requires Clean(before) && (before == [] || Last(before) != '/')
    requires forall i :: 0 <= i < |body| - 1 ==> !(body[i] == '*' && body[i + 1] == '/')
    ensures Mask(before + ("/*" + (body + "*/" + after))) == before + Blanks(|body| + 2) + Mask(after)
  {
    CleanPrefixPasses(before, "/*" + (body + "*/" + after));
    CommentOpens("/*", body + "*/" + after);
    BlockBody(body, after);
    Regroup(before, Blanks(|body| + 2), Mask(after));
  }

  /** Without a closer it hides everything to the end. */
  lemma OpenBlockCommentHidesAll(before: string, body: string)
    requires Clean(before) && (before == [] || Last(before) != '/')
    requires forall i :: 0 <= i < |body| - 1 ==> !(body[i] == '*' && body[i + 1] == '/')
    ensures Mask(before + ("/*" + body)) == before + Blanks(|body|)
  {
    CleanPrefixPasses(before, "/*" + body);
    CommentOpens("/*", body);
    OpenBlockBody(body);
  }

  /** A line comment turns into blanks without its opener, up to the end of its line. */
  lemma LineCommentIsHidden(before: string, opener: string, body: string, after: string)
    requires Clean(before) && opener in {"--", "//"} && (before == [] || Last(before) != opener[0])
    requires '\r' !in body && '\n' !in body && (after == [] || after[0] in {'\r', '\n'})
    ensures Mask(before + (opener + (body + after))) == before + Blanks(|body|) + Mask(after)
  {
    CleanPrefixPasses(before, opener + (body + after));
    CommentOpens(opener, body + after);
    LineBody(body, after);
    Regroup(before, Blanks(|body|), Mask(after));
  }

  /** The inner scan over a line comment, from just after its opener. */
  method ScanLineComment(query: string, start: nat) returns (blanks: string, index: nat)
    requires start <= |query|
    ensures start <= index <= |query|
    ensures MaskLineComment(query[start..]) == blanks + Mask(query[index..])
  {
    blanks, index := "", start;
    while index < |query| && !IsNewline(query[index])
      invariant start <= index <= |query|
      invariant MaskLineComment(query[start..]) == blanks + MaskLineComment(query[index..])
    {
      assert query[index..][1..] == query[index + 1..];
      blanks := blanks + " ";
      index := index + 1;
    }
  }

  /** The inner scan over a block comment, from just after its opener. */
  method ScanBlockComment(query: string, start: nat) returns (blanks: string, index: nat)
    requires start <= |query|
    ensures start <= index <= |query|
    ensures MaskBlockComment(query[start..]) == blanks + Mask(query[index..])
  {
    blanks, index := "", start;
    while index < |query|
      invariant start <= index <= |query|
      invariant MaskBlockComment(query[start..]) == blanks + MaskBlockComment(query[index..])
    {
      BlockCommentStep(query, index);
      if ClosesBlockComment(query[index..]) {
        Regroup(blanks, "  ", Mask(query[index + 2..]));
        return blanks + "  ", index + 2;
      }
      Regroup(blanks, " ", MaskBlockComment(query[index + 1..]));
      blanks := blanks + " ";
      index := index + 1;
    }
    assert query[index..] == "";
  }

  /** The inner scan over a quoted literal, from just after its opening quote. */
  method ScanQuoted(query: string, start: nat, quote: char) returns (blanks: string, index: nat)
    requires start <= |query|
    ensures start <= index <= |query|
    ensures MaskQuoted(query[start..], quote) == blanks + Mask(query[index..])
  {
    blanks, index := "", start;
    while index < |query|
      invariant start <= index <= |query|
      invariant MaskQuoted(query[start..], quote) == blanks + MaskQuoted(query[index..], quote)
    {
      QuotedStep(query, index, quote);
      if query[index] == quote {
        if index + 1 < |query| && query[index + 1] == quote {
          Regroup(blanks, "  ", MaskQuoted(query[index + 2..], quote));
          blanks := blanks + "  ";
          index := index + 2;
        } else {
          Regroup(blanks, " ", Mask(query[index + 1..]));
          blanks := blanks + " ";
          index := index + 1;
          break;
        }
      } else if query[index] == '\\' && index + 1 < |query| {
        Regroup(blanks, "  ", MaskQuoted(query[index + 2..], quote));
        blanks := blanks + "  ";
        index := index + 2;
      } else {
        Regroup(blanks, " ", MaskQuoted(query[index + 1..], quote));
        blanks := blanks + " ";
        index := index + 1;
      }
    }
  }

  /** The index-driven scanner. */
  method MaskQueryText(query: string) returns (output: string)
    ensures output == Mask(query)
    ensures Clean(output)
  {
    output := "";
    var index := 0;
    while index < |query|
      invariant 0 <= index <= |query|
      invariant Mask(query) == output + Mask(query[index..])
    {
      CodeStep(query, index);
      if OpensLineComment(query[index..]) {
        var blanks, next := ScanLineComment(query, index + 2);
        Regroup(output, blanks, Mask(query[next..]));
        output, index := output + blanks, next;
      } else if OpensBlockComment(query[index..]) {
        var blanks, next := ScanBlockComment(query, index + 2);
        Regroup(output, blanks, Mask(query[next..]));
        output, index := output + blanks, next;
      } else if IsQuote(query[index]) {
        var blanks, next := ScanQuoted(query, index + 1, query[index]);
        Regroup(" ", blanks, Mask(query[next..]));
        Regroup(output, " " + blanks, Mask(query[next..]));
        output, index := output + (" " + blanks), next;
      } else {
        Regroup(output, [query[index]], Mask(query[index + 1..]));
        output := output + [query[index]];
        index := index + 1;
      }
    }
    MaskIsClean(query);
  }
}
