/** Text tests used on both sides of the model boundary. */
module Text {

  /** Unicode whitespace, as `str.isspace`, `str.split` and `\s` see it. */
  predicate IsSpace(c: char) {
    || '\t' <= c <= '\r' || '\U{1C}' <= c <= ' '
    || c in {'\U{85}', '\U{A0}', '\U{1680}', '\U{2028}', '\U{2029}', '\U{202F}', '\U{205F}', '\U{3000}'}
    || '\U{2000}' <= c <= '\U{200A}'
  }

  predicate IsBlank(s: string) { forall i :: 0 <= i < |s| ==> IsSpace(s[i]) }

  predicate IsAsciiLetter(c: char) { 'a' <= c <= 'z' || 'A' <= c <= 'Z' }

  predicate IsAsciiWord(c: char) { IsAsciiLetter(c) || '0' <= c <= '9' || c == '_' }

  predicate IsSafeIdentifier(s: string) {
    && s != [] && (IsAsciiLetter(s[0]) || s[0] == '_')
    && forall i :: 0 <= i < |s| ==> IsAsciiWord(s[i])
  }

  // ---- the characters by their code points ----

  /** A to Z. */
  predicate IsCapital(c: char) {
    c as int in {
      0x41, 0x42, 0x43, 0x44, 0x45, 0x46, 0x47, 0x48, 0x49, 0x4A, 0x4B, 0x4C, 0x4D,
      0x4E, 0x4F, 0x50, 0x51, 0x52, 0x53, 0x54, 0x55, 0x56, 0x57, 0x58, 0x59, 0x5A}
  }

  /** a to z. */
  predicate IsSmall(c: char) {
    c as int in {
      0x61, 0x62, 0x63, 0x64, 0x65, 0x66, 0x67, 0x68, 0x69, 0x6A, 0x6B, 0x6C, 0x6D,
      0x6E, 0x6F, 0x70, 0x71, 0x72, 0x73, 0x74, 0x75, 0x76, 0x77, 0x78, 0x79, 0x7A}
  }

  /** 0 to 9. */
  predicate IsDigit(c: char) { c as int in {0x30, 0x31, 0x32, 0x33, 0x34, 0x35, 0x36, 0x37, 0x38, 0x39} }

  /** The code points of Unicode white space, and the four separators U+001C to U+001F. */
  const SPACES: set<int> := {
    0x9, 0xA, 0xB, 0xC, 0xD, 0x1C, 0x1D, 0x1E, 0x1F, 0x20, 0x85, 0xA0, 0x1680,
    0x2000, 0x2001, 0x2002, 0x2003, 0x2004, 0x2005, 0x2006, 0x2007, 0x2008, 0x2009, 0x200A,
    0x2028, 0x2029, 0x202F, 0x205F, 0x3000}

  lemma LetterCharacters(c: char)
    ensures 'A' <= c <= 'Z' <==> IsCapital(c)
    ensures 'a' <= c <= 'z' <==> IsSmall(c)
    ensures '0' <= c <= '9' <==> IsDigit(c)
  {
  }

  lemma WordCharacters(c: char)
    ensures IsAsciiLetter(c) <==> IsCapital(c) || IsSmall(c)
    ensures IsAsciiWord(c) <==> IsCapital(c) || IsSmall(c) || IsDigit(c) || c == '_'
  {
    LetterCharacters(c);
  }

  lemma SpaceCharacters(c: char)
    ensures IsSpace(c) <==> c as int in SPACES
  {
  }

  /** A safe identifier: a letter or underscore, then letters, digits and underscores. */
  lemma SafeIdentifierIff(s: string)
    ensures IsSafeIdentifier(s) <==>
            && |s| > 0 && (IsCapital(s[0]) || IsSmall(s[0]) || s[0] == '_')
            && forall i :: 1 <= i < |s| ==> IsCapital(s[i]) || IsSmall(s[i]) || IsDigit(s[i]) || s[i] == '_'
  {
    forall i | 0 <= i < |s|
      ensures IsAsciiWord(s[i]) <==> IsCapital(s[i]) || IsSmall(s[i]) || IsDigit(s[i]) || s[i] == '_'
      ensures IsAsciiLetter(s[i]) <==> IsCapital(s[i]) || IsSmall(s[i])
    {
      WordCharacters(s[i]);
    }
  }

  /** A text is blank unless it holds some other character. */
  lemma BlankIff(s: string)
    ensures !IsBlank(s) <==> exists i :: 0 <= i < |s| && s[i] as int !in SPACES
  {
    forall i | 0 <= i < |s| ensures IsSpace(s[i]) <==> s[i] as int in SPACES {
      SpaceCharacters(s[i]);
    }
  }
}
