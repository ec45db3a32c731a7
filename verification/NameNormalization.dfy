/** The normal form names are compared in, as two phases over the text and as one pass over its marks. */
module NameNormalization {
  import opened Text
  import opened NameSpans

  // ---- two phases: commas first, then white space ----

  function StripLeft(s: string): string { if s != [] && IsSpace(s[0]) then StripLeft(s[1..]) else s }

  predicate CommaAhead(s: string) { StripLeft(s) != [] && StripLeft(s)[0] == ',' }

  lemma {:induction false} StripLeftFacts(s: string)
    ensures |StripLeft(s)| <= |s|
    ensures StripLeft(s) != [] ==> !IsSpace(StripLeft(s)[0])
  {
    if s != [] && IsSpace(s[0]) {
      StripLeftFacts(s[1..]);
    }
  }

  /** `re.sub(r"\s*,\s*", ",", s)`: at each place the longest match, from the left. */
  function TightenCommas(s: string): string
    decreases |s|
  {
    if s == [] then []
    else if CommaAhead(s) then
      StripLeftFacts(s);
      StripLeftFacts(StripLeft(s)[1..]);
      "," + TightenCommas(StripLeft(StripLeft(s)[1..]))
    else [s[0]] + TightenCommas(s[1..])
  }

  /** `s.replace(",", " ")`. */
  function CommasToSpaces(s: string): string {
    seq(|s|, i requires 0 <= i < |s| => if s[i] == ',' then ' ' else s[i])
  }

  function WordLength(s: string): nat { if s == [] || IsSpace(s[0]) then 0 else 1 + WordLength(s[1..]) }

  lemma {:induction false} WordLengthFits(s: string)
    ensures WordLength(s) <= |s|
  {
    if s != [] && !IsSpace(s[0]) {
      WordLengthFits(s[1..]);
    }
  }

  /** `s.split()`. */
  function Words(s: string): seq<string>
    decreases |s|
  {
    WordLengthFits(s);
    if s == [] then []
    else if IsSpace(s[0]) then Words(s[1..])
    else [s[..WordLength(s)]] + Words(s[WordLength(s)..])
  }

  /** `" ".join(words)`. */
  function JoinWords(words: seq<string>): string {
    if words == [] then []
    else if |words| == 1 then words[0]
    else words[0] + " " + JoinWords(words[1..])
  }

  /** The comparison form of a folded text. */
  function NameComparison(s: string, removeCommas: bool): string {
    JoinWords(Words(if removeCommas then CommasToSpaces(s) else TightenCommas(s)))
  }

  // ---- the same, one character at a time ----

  /** How commas are treated: like any character, tightly, or like white space. */
  datatype Commas = Ordinary | Tight | Removed

  /** Where a pass stands: white space is dropped, would be pending, or is pending. */
  datatype Place = Fresh | Inside | Pending

  predicate IsGap(c: char, commas: Commas) { IsSpace(c) || (commas.Removed? && c == ',') }

  function Collapse(s: string, place: Place, commas: Commas): string {
    if s == [] then []
    else if IsGap(s[0], commas) then Collapse(s[1..], if place.Fresh? then Fresh else Pending, commas)
    else if commas.Tight? && s[0] == ',' then "," + Collapse(s[1..], Fresh, commas)
    else (if place.Pending? then " " else "") + [s[0]] + Collapse(s[1..], Inside, commas)
  }

  lemma {:induction false} CollapseWord(s: string)
    ensures WordLength(s) <= |s|
    ensures Collapse(s, Inside, Ordinary) == s[..WordLength(s)] + Collapse(s[WordLength(s)..], Inside, Ordinary)
  {
    if s != [] && !IsSpace(s[0]) {
      CollapseWord(s[1..]);
      var w := WordLength(s[1..]);
      assert s[1..][w..] == s[1 + w..] && s[..1 + w] == [s[0]] + s[1..][..w];
    }
  }

  lemma InsideIsPending(s: string)
    requires s == [] || IsSpace(s[0])
    ensures Collapse(s, Inside, Ordinary) == Collapse(s, Pending, Ordinary)
  {
  }

  lemma WordLengthStops(s: string)
    ensures WordLength(s) <= |s| && (s[WordLength(s)..] == [] || IsSpace(s[WordLength(s)]))
  {
    WordLengthFits(s);
    if s != [] && !IsSpace(s[0]) {
      WordLengthStops(s[1..]);
    }
  }

  lemma JoinCons(w: string, rest: seq<string>)
    ensures JoinWords([w] + rest) == w + (if rest == [] then "" else " " + JoinWords(rest))
  {
    assert ([w] + rest)[1..] == rest;
  }

  lemma {:induction false} CollapseJoinsWords(s: string)
    ensures Collapse(s, Fresh, Ordinary) == JoinWords(Words(s))
    ensures Collapse(s, Pending, Ordinary) == if Words(s) == [] then "" else " " + JoinWords(Words(s))
    decreases |s|
  {
    if s != [] {
      if IsSpace(s[0]) {
        CollapseJoinsWords(s[1..]);
      } else {
        var n := WordLength(s);
        CollapseWord(s);
        WordLengthStops(s);
        InsideIsPending(s[n..]);
        CollapseJoinsWords(s[n..]);
        JoinCons(s[..n], Words(s[n..]));
        assert Collapse(s, Fresh, Ordinary) == Collapse(s, Inside, Ordinary);
        assert Collapse(s, Pending, Ordinary) == " " + Collapse(s, Inside, Ordinary);
      }
    }
  }

  lemma {:induction false} CollapseRemoved(s: string, place: Place)
    ensures Collapse(CommasToSpaces(s), place, Ordinary) == Collapse(s, place, Removed)
  {
    if s != [] {
      var t := CommasToSpaces(s);
      assert t[1..] == CommasToSpaces(s[1..]) && t[0] == if s[0] == ',' then ' ' else s[0];
      forall p ensures Collapse(CommasToSpaces(s[1..]), p, Ordinary) == Collapse(s[1..], p, Removed) {
        CollapseRemoved(s[1..], p);
      }
    }
  }

  lemma {:induction false} TightDropsGaps(s: string, place: Place)
    requires CommaAhead(s)
    ensures Collapse(s, place, Tight) == Collapse(StripLeft(s), place, Tight) ==
      "," + Collapse(StripLeft(s)[1..], Fresh, Tight)
  {
    if IsSpace(s[0]) {
      TightDropsGaps(s[1..], if place.Fresh? then Fresh else Pending);
    }
  }

  lemma {:induction false} FreshStrips(s: string)
    ensures Collapse(s, Fresh, Tight) == Collapse(StripLeft(s), Inside, Tight)
  {
    if s != [] && IsSpace(s[0]) {
      FreshStrips(s[1..]);
    }
  }

  lemma {:induction false} CollapseTight(s: string, place: Place)
    requires place.Pending? ==> !CommaAhead(s)
    ensures Collapse(TightenCommas(s), place, Ordinary) == Collapse(s, place, Tight)
    decreases |s|
  {
    if s == [] {
    } else if CommaAhead(s) {
      var rest := StripLeft(s)[1..];
      StripLeftFacts(s);
      StripLeftFacts(rest);
      TightDropsGaps(s, place);
      FreshStrips(rest);
      CollapseTight(StripLeft(rest), Inside);
      var t := TightenCommas(s);
      assert t == "," + TightenCommas(StripLeft(rest)) && t[1..] == TightenCommas(StripLeft(rest));
    } else {
      var t := TightenCommas(s);
      assert t == [s[0]] + TightenCommas(s[1..]) && t[1..] == TightenCommas(s[1..]);
      if IsSpace(s[0]) {
        CollapseTight(s[1..], if place.Fresh? then Fresh else Pending);
      } else {
        CollapseTight(s[1..], Inside);
      }
    }
  }

  function Mode(removeCommas: bool): Commas { if removeCommas then Removed else Tight }

  /** One pass gives what the two phases give. */
  lemma CollapseIsComparison(s: string, removeCommas: bool)
    ensures Collapse(s, Fresh, Mode(removeCommas)) == NameComparison(s, removeCommas)
  {
    if removeCommas {
      CollapseRemoved(s, Fresh);
      CollapseJoinsWords(CommasToSpaces(s));
    } else {
      CollapseTight(s, Fresh);
      CollapseJoinsWords(TightenCommas(s));
    }
  }
}
