/**
 * Character classes and string normalisation as Python's `str` does them:
 * the whitespace set shared by `str.strip()` and the regular-expression
 * class `\s`, lower-casing with `str.lower()`, and `strip()` itself.
 */
module Text {

  /**
   * The characters Python treats as whitespace (`str.isspace`, `str.strip`,
   * and `\s` in a `str` pattern): U+0009..U+000D, U+001C..U+0020, U+0085,
   * U+00A0, U+1680, U+2000..U+200A, U+2028, U+2029, U+202F, U+205F, U+3000.
   */
  predicate IsSpace(c: char) {
    || ('\t' <= c <= '\r')
    || ('\U{1C}' <= c <= ' ')
    || c == '\U{85}' || c == '\U{A0}' || c == '\U{1680}'
    || ('\U{2000}' <= c <= '\U{200A}')
    || c == '\U{2028}' || c == '\U{2029}' || c == '\U{202F}' || c == '\U{205F}'
    || c == '\U{3000}'
  }

  /**
   * `str.lower()` on one character, for the letters a Turkish prompt uses:
   * ASCII capitals, the Latin-1 capitals (Ç, Ö, Ü, ... but not ×), Ğ, Ş, and
   * İ, whose full lower-case mapping is the two characters "i" + U+0307.
   * Every other character is its own lower case here.
   */
  function LowerChar(c: char): seq<char> {
    if 'A' <= c <= 'Z' || ('\U{C0}' <= c <= '\U{DE}' && c != '\U{D7}') then
      [(c as int + 32) as char]
    else if c == '\U{11E}' then ['\U{11F}']
    else if c == '\U{15E}' then ['\U{15F}']
    else if c == '\U{130}' then ['i', '\U{307}']
    else [c]
  }

  /** A character that `str.lower()` leaves as it is. */
  predicate IsLowered(c: char) {
    LowerChar(c) == [c]
  }

  /** `s.lower()`: every character replaced by its lower-case mapping. */
  function Lower(s: string): string {
    if s == [] then [] else LowerChar(s[0]) + Lower(s[1..])
  }

  /** Every character of `s.lower()` is lower case, and its whitespace is whitespace of `s`. */
  lemma {:induction false} LowerSpec(s: string)
    ensures forall i | 0 <= i < |Lower(s)| :: IsLowered(Lower(s)[i])
    ensures forall i | 0 <= i < |Lower(s)| :: IsSpace(Lower(s)[i]) ==> Lower(s)[i] in s
  {
    if s != [] {
      LowerSpec(s[1..]);
      var h, t := LowerChar(s[0]), Lower(s[1..]);
      assert Lower(s) == h + t;
      forall i | 0 <= i < |Lower(s)|
        ensures IsLowered(Lower(s)[i])
        ensures IsSpace(Lower(s)[i]) ==> Lower(s)[i] in s
      {
        if i >= |h| {
          assert Lower(s)[i] == t[i - |h|];
          assert s == [s[0]] + s[1..];
        } else {
          assert Lower(s)[i] == h[i];
        }
      }
    }
  }

  /** Lower-casing a string that is already lower case changes nothing. */
  lemma {:induction false} LowerOfLowered(s: string)
    requires forall i | 0 <= i < |s| :: IsLowered(s[i])
    ensures Lower(s) == s
  {
    if s != [] {
      assert IsLowered(s[0]);
      LowerOfLowered(s[1..]);
    }
  }

  /** Neither the first nor the last character of `s` is whitespace. */
  predicate Trimmed(s: string) {
    s != [] ==> !IsSpace(s[0]) && !IsSpace(s[|s| - 1])
  }

  /** A non-empty run of characters none of which is whitespace. */
  predicate Word(s: string) {
    s != [] && forall i | 0 <= i < |s| :: !IsSpace(s[i])
  }

  /** How many whitespace characters `s` starts with. */
  function LeadingSpaces(s: string): (n: nat)
    ensures n <= |s|
    ensures forall i {:trigger IsSpace(s[i])} | 0 <= i < n :: IsSpace(s[i])
    ensures n == |s| || !IsSpace(s[n])
  {
    if s != [] && IsSpace(s[0]) then 1 + LeadingSpaces(s[1..]) else 0
  }

  /** How many whitespace characters `s` ends with. */
  function TrailingSpaces(s: string): (n: nat)
    ensures n <= |s|
    ensures forall i {:trigger IsSpace(s[i])} | |s| - n <= i < |s| :: IsSpace(s[i])
    ensures n == |s| || !IsSpace(s[|s| - 1 - n])
  {
    if s != [] && IsSpace(s[|s| - 1]) then 1 + TrailingSpaces(s[..|s| - 1]) else 0
  }

  /**
   * `s.strip()`: the longest leading and the longest trailing run of
   * whitespace removed. The result is the slice of `s` that starts after
   * the leading whitespace, everything after it is whitespace, and it
   * neither starts nor ends with whitespace.
   */
  function Strip(s: string): (r: string)
    ensures LeadingSpaces(s) + |r| <= |s|
    ensures r == s[LeadingSpaces(s)..LeadingSpaces(s) + |r|]
    ensures forall i {:trigger IsSpace(s[i])} | LeadingSpaces(s) + |r| <= i < |s| :: IsSpace(s[i])
    ensures Trimmed(r)
  {
    var t := s[LeadingSpaces(s)..];
    t[..|t| - TrailingSpaces(t)]
  }

  /** A string that neither starts nor ends with whitespace is its own strip. */
  lemma StripOfStripped(s: string)
    requires Trimmed(s)
    ensures Strip(s) == s
  {
    if s != [] {
      assert LeadingSpaces(s) == 0;
      assert TrailingSpaces(s) == 0;
    }
  }

  /**
   * Stripping a string that starts with a non-whitespace character only
   * removes trailing whitespace: the result is a non-empty prefix.
   */
  lemma StripKeepsStart(s: string)
    requires s != [] && !IsSpace(s[0])
    ensures Strip(s) != [] && Strip(s) == s[..|Strip(s)|]
  {
    assert LeadingSpaces(s) == 0;
  }

  /** `prompt.lower().strip()`, the normalisation both parsers apply first. */
  function Normalize(prompt: string): string {
    Strip(Lower(prompt))
  }

  /** The normalised prompt is lower case and carries no surrounding whitespace. */
  lemma NormalizeSpec(prompt: string)
    ensures forall i | 0 <= i < |Normalize(prompt)| :: IsLowered(Normalize(prompt)[i])
    ensures Trimmed(Normalize(prompt))
  {
    LowerSpec(prompt);
    StripKeepsLowered(Lower(prompt));
  }

  /** Stripping keeps a lower-case string lower case. */
  lemma StripKeepsLowered(s: string)
    requires forall i | 0 <= i < |s| :: IsLowered(s[i])
    ensures forall i | 0 <= i < |Strip(s)| :: IsLowered(Strip(s)[i])
  {
    var a := LeadingSpaces(s);
    forall i | 0 <= i < |Strip(s)|
      ensures IsLowered(Strip(s)[i])
    {
      assert Strip(s)[i] == s[a + i];
    }
  }

  /** Normalising twice is normalising once. */
  lemma NormalizeIdempotent(prompt: string)
    ensures Normalize(Normalize(prompt)) == Normalize(prompt)
  {
    NormalizeSpec(prompt);
    NormalizeOfNormal(Normalize(prompt));
  }

  /** A lower-case string without surrounding whitespace is already normalised. */
  lemma NormalizeOfNormal(s: string)
    requires forall i | 0 <= i < |s| :: IsLowered(s[i])
    requires Trimmed(s)
    ensures Normalize(s) == s
  {
    LowerOfLowered(s);
    StripOfStripped(s);
  }
}
