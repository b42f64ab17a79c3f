/**
 * `parse_prompt`: normalise the prompt, try the four phrasings in order
 * and report the two groups of the first one that matches, trimmed, or a
 * fixed message when none does.
 */
module ParserUtils {
  import opened Wrappers
  import opened Text
  import opened PromptPatterns

  /** What `parse_prompt` returns when no phrasing matches. */
  const FailureMessage: string :=
    "Could not extract location and product. Please provide a clearer input."

  /** `\s+konumu için\s+`, first lead. */
  const Konumu: string := "konumu için"
  /** ` civarında`, the fourth lead. */
  const Civarinda: string := " civarında"
  /** `ne kadar`, the tail of the second and third phrasings. */
  const NeKadar: string := "ne kadar"

  /** `(?P<location>.+?)\s+konumu için\s+(?P<product>.+?)\s+.*` */
  const KonumuPhrasing: Pattern := Pattern(SpacesLitSpaces(Konumu), SpacesAnything)
  /** `(?P<location>.+?)'da\s+(?P<product>.+?)\s+ne kadar` */
  const DaPhrasing: Pattern := Pattern(LitSpaces("'da"), SpacesLit(NeKadar))
  /** `(?P<location>.+?)'de\s+(?P<product>.+?)\s+ne kadar` */
  const DePhrasing: Pattern := Pattern(LitSpaces("'de"), SpacesLit(NeKadar))
  /** `(?P<location>.+?) civarında\s+(?P<product>.+?) fiyat[ıi]?` */
  const CivarindaPhrasing: Pattern := Pattern(LitSpaces(Civarinda), LitOptional(" fiyat", "ıi"))

  /** The phrasings in the order they are tried. */
  const Patterns: seq<Pattern> := [KonumuPhrasing, DaPhrasing, DePhrasing, CivarindaPhrasing]

  /** The outcome: the two groups, or the diagnostic message. */
  datatype ParseResult = Intent(location: string, product: string) | Failure(message: string)

  /** The first pattern in the list that matches, with its index and split. */
  function FirstMatch(patterns: seq<Pattern>, s: string): (r: Option<(nat, Split)>)
    ensures r.Some? ==> r.value.0 < |patterns|
    ensures r.Some? ==> 1 <= r.value.1.locEnd < r.value.1.prodStart < r.value.1.prodEnd <= |s|
  {
    if patterns == [] then None
    else match Match(patterns[0], s)
      case Some(sp) => Some((0, sp))
      case None =>
        match FirstMatch(patterns[1..], s)
        case None => None
        case Some((k, sp)) => Some((k + 1, sp))
  }

  /** `FirstMatch` finds nothing exactly when no pattern matches, and otherwise the first that does. */
  lemma {:induction false} FirstMatchSpec(patterns: seq<Pattern>, s: string)
    ensures FirstMatch(patterns, s).None? <==> forall k | 0 <= k < |patterns| :: Match(patterns[k], s).None?
    ensures FirstMatch(patterns, s).Some? ==>
      var (i, sp) := FirstMatch(patterns, s).value;
      && Match(patterns[i], s) == Some(sp)
      && forall k | 0 <= k < i :: Match(patterns[k], s).None?
  {
    if patterns != [] && Match(patterns[0], s).None? {
      FirstMatchSpec(patterns[1..], s);
      assert forall k | 1 <= k < |patterns| :: patterns[k] == patterns[1..][k - 1];
    }
  }

  /** The two groups of a match, each stripped as `.strip()` does. */
  function Groups(s: string, sp: Split): ParseResult
    requires sp.locEnd <= sp.prodStart <= sp.prodEnd <= |s|
  {
    Intent(Strip(s[..sp.locEnd]), Strip(s[sp.prodStart..sp.prodEnd]))
  }

  /** The first matching phrasing's groups for an already normalised prompt, or the fixed message. */
  function ParseNormalized(patterns: seq<Pattern>, s: string): ParseResult {
    match FirstMatch(patterns, s)
    case None => Failure(FailureMessage)
    case Some((_, sp)) => Groups(s, sp)
  }

  /**
   * `parse_prompt` over a list of phrasings: the prompt is lower-cased and
   * stripped once, then the first matching phrasing gives the result.
   */
  function ParseWith(patterns: seq<Pattern>, prompt: string): ParseResult {
    ParseNormalized(patterns, Normalize(prompt))
  }

  /**
   * The result is the fixed message exactly when no phrasing matches the
   * normalised prompt; otherwise the location is a non-empty prefix of the
   * normalised prompt, and both groups carry no surrounding whitespace.
   */
  lemma ParseWithSpec(patterns: seq<Pattern>, prompt: string)
    ensures var r := ParseWith(patterns, prompt);
      && (r.Failure? <==> forall k | 0 <= k < |patterns| :: Match(patterns[k], Normalize(prompt)).None?)
      && (r.Failure? ==> r.message == FailureMessage)
      && (r.Intent? ==> r.location != [] && r.location <= Normalize(prompt))
      && (r.Intent? ==> Trimmed(r.location) && Trimmed(r.product))
  {
    var s := Normalize(prompt);
    NormalizeSpec(prompt);
    FirstMatchSpec(patterns, s);
    if FirstMatch(patterns, s).Some? {
      LocationIsPrefix(s, FirstMatch(patterns, s).value.1.locEnd);
    }
  }

  /** Stripping a non-empty prefix of a normalised string leaves a non-empty prefix. */
  lemma LocationIsPrefix(s: string, e: nat)
    requires 1 <= e <= |s| && Trimmed(s)
    ensures Strip(s[..e]) != [] && Strip(s[..e]) <= s
  {
    StripKeepsStart(s[..e]);
  }

  /** `parse_prompt` from parser_utils.py. */
  function ParsePrompt(prompt: string): ParseResult {
    ParseWith(Patterns, prompt)
  }

  /** The contract of `parse_prompt` for its four phrasings. */
  lemma ParsePromptSpec(prompt: string)
    ensures var r := ParsePrompt(prompt);
      && (r.Failure? <==> forall k | 0 <= k < |Patterns| :: Match(Patterns[k], Normalize(prompt)).None?)
      && (r.Failure? ==> r.message == FailureMessage)
      && (r.Intent? ==> r.location != [] && r.location <= Normalize(prompt))
      && (r.Intent? ==> Trimmed(r.location) && Trimmed(r.product))
  {
    ParseWithSpec(Patterns, prompt);
  }

  /** `FirstMatch` reports phrasing `k` when it matches and no earlier one does. */
  lemma {:induction false} FirstMatchIs(patterns: seq<Pattern>, s: string, k: nat, sp: Split)
    requires k < |patterns|
    requires forall j | 0 <= j < k :: Match(patterns[j], s).None?
    requires Match(patterns[k], s) == Some(sp)
    ensures FirstMatch(patterns, s) == Some((k, sp))
  {
    if k > 0 {
      assert Match(patterns[0], s).None?;
      FirstMatchIs(patterns[1..], s, k - 1, sp);
    }
  }

  /**
   * The first phrasing that matches decides: when the phrasings before `k` do
   * not match the normalised prompt and phrasing `k` does, the result is the
   * stripped groups of phrasing `k`'s match.
   */
  lemma FirstMatchingPhrasingWins(patterns: seq<Pattern>, s: string, k: nat, sp: Split)
    requires k < |patterns|
    requires forall j | 0 <= j < k :: Match(patterns[j], s).None?
    requires Match(patterns[k], s) == Some(sp)
    ensures ParseNormalized(patterns, s) == Intent(Strip(s[..sp.locEnd]), Strip(s[sp.prodStart..sp.prodEnd]))
  {
    FirstMatchIs(patterns, s, k, sp);
  }

  /** Parsing depends on the prompt only through its normalisation. */
  lemma ParseOfNormalized(prompt: string)
    ensures ParsePrompt(Normalize(prompt)) == ParsePrompt(prompt)
  {
    NormalizeIdempotent(prompt);
  }

  // ---------------------------------------------------------------------
  // Which phrasings cannot match

  /** The first phrasing needs the 'ç' of "konumu için". */
  lemma KonumuNeedsCedilla(s: string)
    requires 'ç' !in s
    ensures Match(KonumuPhrasing, s).None?
  {
    assert Konumu[8] == 'ç';
    AbsentCharNoLead(KonumuPhrasing.lead, s, 'ç');
    NoLeadNoMatch(KonumuPhrasing, s);
  }

  /** The second and third phrasings need an apostrophe. */
  lemma QuotedNeedQuote(s: string)
    requires '\'' !in s
    ensures Match(DaPhrasing, s).None? && Match(DePhrasing, s).None?
  {
    AbsentCharNoLead(DaPhrasing.lead, s, '\'');
    NoLeadNoMatch(DaPhrasing, s);
    AbsentCharNoLead(DePhrasing.lead, s, '\'');
    NoLeadNoMatch(DePhrasing, s);
  }

  /** The second phrasing cannot match when the only apostrophe starts "'de". */
  lemma DaNeedsDa(s: string, a: nat)
    requires LitAt(s, a, "'de")
    requires forall x | 0 <= x < |s| && x != a :: s[x] != '\''
    ensures Match(DaPhrasing, s).None?
  {
    if LitAt(s, a, "'da") {
      LitAtIndex(s, a, "'da", 2);
      LitAtIndex(s, a, "'de", 2);
      assert false;
    }
    LitLeadOnlyAt("'da", s, a);
    NoLeadNoMatch(DaPhrasing, s);
  }

  // ---------------------------------------------------------------------
  // The result when a given phrasing is the first to match

  /** The first phrasing matches. */
  lemma ParseByKonumu(s: string, sp: Split)
    requires Match(KonumuPhrasing, s) == Some(sp)
    ensures ParseNormalized(Patterns, s) == Intent(Strip(s[..sp.locEnd]), Strip(s[sp.prodStart..sp.prodEnd]))
  {
    FirstMatchingPhrasingWins(Patterns, s, 0, sp);
  }

  /** The second phrasing is the first to match. */
  lemma ParseByDa(s: string, sp: Split)
    requires Match(KonumuPhrasing, s).None?
    requires Match(DaPhrasing, s) == Some(sp)
    ensures ParseNormalized(Patterns, s) == Intent(Strip(s[..sp.locEnd]), Strip(s[sp.prodStart..sp.prodEnd]))
  {
    forall j | 0 <= j < 1
      ensures Match(Patterns[j], s).None?
    {
      assert Patterns[j] == KonumuPhrasing;
    }
    FirstMatchingPhrasingWins(Patterns, s, 1, sp);
  }

  /** The third phrasing is the first to match. */
  lemma ParseByDe(s: string, sp: Split)
    requires Match(KonumuPhrasing, s).None? && Match(DaPhrasing, s).None?
    requires Match(DePhrasing, s) == Some(sp)
    ensures ParseNormalized(Patterns, s) == Intent(Strip(s[..sp.locEnd]), Strip(s[sp.prodStart..sp.prodEnd]))
  {
    forall j | 0 <= j < 2
      ensures Match(Patterns[j], s).None?
    {
      if j == 0 {
        assert Patterns[j] == KonumuPhrasing;
      } else {
        assert Patterns[j] == DaPhrasing;
      }
    }
    FirstMatchingPhrasingWins(Patterns, s, 2, sp);
  }

  /** The fourth phrasing is the first to match. */
  lemma ParseByCivarinda(s: string, sp: Split)
    requires Match(KonumuPhrasing, s).None? && Match(DaPhrasing, s).None? && Match(DePhrasing, s).None?
    requires Match(CivarindaPhrasing, s) == Some(sp)
    ensures ParseNormalized(Patterns, s) == Intent(Strip(s[..sp.locEnd]), Strip(s[sp.prodStart..sp.prodEnd]))
  {
    forall j | 0 <= j < 3
      ensures Match(Patterns[j], s).None?
    {
      if j == 0 {
        assert Patterns[j] == KonumuPhrasing;
      } else if j == 1 {
        assert Patterns[j] == DaPhrasing;
      } else {
        assert Patterns[j] == DePhrasing;
      }
    }
    FirstMatchingPhrasingWins(Patterns, s, 3, sp);
  }

  /** No phrasing matches: the fixed message. */
  lemma ParseByNone(s: string)
    requires Match(KonumuPhrasing, s).None? && Match(DaPhrasing, s).None?
    requires Match(DePhrasing, s).None? && Match(CivarindaPhrasing, s).None?
    ensures ParseNormalized(Patterns, s) == Failure(FailureMessage)
  {
    FirstMatchSpec(Patterns, s);
    forall j | 0 <= j < 4
      ensures Match(Patterns[j], s).None?
    {
      if j == 0 {
        assert Patterns[j] == KonumuPhrasing;
      } else if j == 1 {
        assert Patterns[j] == DaPhrasing;
      } else if j == 2 {
        assert Patterns[j] == DePhrasing;
      } else {
        assert Patterns[j] == CivarindaPhrasing;
      }
    }
  }

  // ---------------------------------------------------------------------
  // Reading the result off the shape of a prompt

  /** The groups of a match whose location and product are `loc` and `prod` found in place. */
  lemma GroupsInPlace(s: string, sp: Split, loc: string, prod: string)
    requires sp.locEnd == |loc| && sp.prodEnd == sp.prodStart + |prod|
    requires Trimmed(loc) && Trimmed(prod)
    requires LitAt(s, 0, loc) && LitAt(s, sp.prodStart, prod)
    ensures Strip(s[..sp.locEnd]) == loc && Strip(s[sp.prodStart..sp.prodEnd]) == prod
  {
    assert s[..sp.locEnd] == loc;
    assert s[sp.prodStart..sp.prodEnd] == prod;
    StripOfStripped(loc);
    StripOfStripped(prod);
  }

  /** In `<loc>'de <prod> ne kadar<rest>` the only apostrophe is the one after `loc`. */
  lemma DeQuoteOnlyAt(s: string, loc: string, prod: string, rest: string)
    requires Pieces(s, loc, "'de", " ", prod, " ne kadar", rest)
    requires '\'' !in loc && '\'' !in prod && '\'' !in rest
    ensures forall x | 0 <= x < |s| && x != |loc| :: s[x] != '\''
  {
    var a := |loc|;
    var e := a + 4 + |prod|;
    PieceLacks(s, 0, loc, '\'');
    LitAtIndex(s, a, "'de", 1);
    LitAtIndex(s, a, "'de", 2);
    PieceLacks(s, a + 3, " ", '\'');
    PieceLacks(s, a + 4, prod, '\'');
    PieceLacks(s, e, " ne kadar", '\'');
    PieceLacks(s, e + 9, rest, '\'');
  }

  /** The matches of the four phrasings on `<loc>'de <prod> ne kadar<rest>`. */
  lemma DeMatches(s: string, sp: Split, loc: string, prod: string, rest: string)
    requires sp == Split(|loc|, |loc| + 4, |loc| + 4 + |prod|)
    requires Word(loc) && Word(prod)
    requires '\'' !in loc && '\'' !in prod && '\'' !in rest
    requires 'ç' !in s
    requires Pieces(s, loc, "'de", " ", prod, " ne kadar", rest)
    ensures Match(KonumuPhrasing, s).None? && Match(DaPhrasing, s).None?
    ensures Match(DePhrasing, s) == Some(sp)
  {
    KonumuNeedsCedilla(s);
    DeQuoteOnlyAt(s, loc, prod, rest);
    DaNeedsDa(s, |loc|);
    assert TailText(DePhrasing.tail) == " ne kadar";
    assert DePhrasing.lead.lit == "'de";
    LitLeadMatch(DePhrasing, s, loc, prod, rest);
  }

  /** The `'de` phrasing on the normalised prompt. */
  lemma DeNormalized(s: string, loc: string, prod: string, rest: string)
    requires Word(loc) && Word(prod)
    requires '\'' !in loc && '\'' !in prod && '\'' !in rest
    requires 'ç' !in loc && 'ç' !in prod && 'ç' !in rest
    requires Pieces(s, loc, "'de", " ", prod, " ne kadar", rest)
    ensures ParseNormalized(Patterns, s) == Intent(loc, prod)
  {
    PiecesLack(s, loc, "'de", " ", prod, " ne kadar", rest, 'ç');
    assert Trimmed(loc) && Trimmed(prod);
    var sp := Split(|loc|, |loc| + 4, |loc| + 4 + |prod|);
    GroupsInPlace(s, sp, loc, prod);
    DeMatches(s, sp, loc, prod, rest);
    ParseByDe(s, sp);
  }

  /** The spelt-out `'de` phrasing splits into its pieces. */
  lemma DeConcat(loc: string, prod: string, rest: string)
    ensures loc + "'de " + prod + " ne kadar" + rest == loc + "'de" + " " + prod + " ne kadar" + rest
  {
  }

  /**
   * The `'de` phrasing: a prompt that normalises to `<loc>'de <prod> ne kadar<rest>`
   * gives `loc` and `prod`, whatever `rest` holds beyond the apostrophes and
   * the 'ç' that would let another phrasing apply.
   */
  lemma ParseDe(prompt: string, loc: string, prod: string, rest: string)
    requires Word(loc) && Word(prod)
    requires '\'' !in loc && '\'' !in prod && '\'' !in rest
    requires 'ç' !in loc && 'ç' !in prod && 'ç' !in rest
    requires Normalize(prompt) == loc + "'de " + prod + " ne kadar" + rest
    ensures ParsePrompt(prompt) == Intent(loc, prod)
  {
    var s := Normalize(prompt);
    DeConcat(loc, prod, rest);
    PiecesOfConcat(loc, "'de", " ", prod, " ne kadar", rest);
    DeNormalized(s, loc, prod, rest);
  }

  /** A word has no ASCII space in it. */
  lemma WordLacksSpace(w: string)
    requires Word(w)
    ensures ' ' !in w
  {
    assert forall i | 0 <= i < |w| :: w[i] != ' ';
  }

  /** The matches of the first two phrasings on `<loc>'da <prod> ne kadar<rest>`. */
  lemma DaMatches(s: string, sp: Split, loc: string, prod: string, rest: string)
    requires sp == Split(|loc|, |loc| + 4, |loc| + 4 + |prod|)
    requires Word(loc) && Word(prod) && '\'' !in loc
    requires 'ç' !in s
    requires Pieces(s, loc, "'da", " ", prod, " ne kadar", rest)
    ensures Match(KonumuPhrasing, s).None?
    ensures Match(DaPhrasing, s) == Some(sp)
  {
    KonumuNeedsCedilla(s);
    assert TailText(DaPhrasing.tail) == " ne kadar";
    assert DaPhrasing.lead.lit == "'da";
    LitLeadMatch(DaPhrasing, s, loc, prod, rest);
  }

  /** The `'da` phrasing on the normalised prompt. */
  lemma DaNormalized(s: string, loc: string, prod: string, rest: string)
    requires Word(loc) && Word(prod) && '\'' !in loc
    requires 'ç' !in loc && 'ç' !in prod && 'ç' !in rest
    requires Pieces(s, loc, "'da", " ", prod, " ne kadar", rest)
    ensures ParseNormalized(Patterns, s) == Intent(loc, prod)
  {
    PiecesLack(s, loc, "'da", " ", prod, " ne kadar", rest, 'ç');
    assert Trimmed(loc) && Trimmed(prod);
    var sp := Split(|loc|, |loc| + 4, |loc| + 4 + |prod|);
    GroupsInPlace(s, sp, loc, prod);
    DaMatches(s, sp, loc, prod, rest);
    ParseByDa(s, sp);
  }

  /** The spelt-out `'da` phrasing splits into its pieces. */
  lemma DaConcat(loc: string, prod: string, rest: string)
    ensures loc + "'da " + prod + " ne kadar" + rest == loc + "'da" + " " + prod + " ne kadar" + rest
  {
  }

  /**
   * The `'da` phrasing: a prompt that normalises to `<loc>'da <prod> ne kadar<rest>`
   * gives `loc` and `prod` when the location has no apostrophe and the prompt
   * has no 'ç' that would let the first phrasing apply.
   */
  lemma ParseDa(prompt: string, loc: string, prod: string, rest: string)
    requires Word(loc) && Word(prod) && '\'' !in loc
    requires 'ç' !in loc && 'ç' !in prod && 'ç' !in rest
    requires Normalize(prompt) == loc + "'da " + prod + " ne kadar" + rest
    ensures ParsePrompt(prompt) == Intent(loc, prod)
  {
    var s := Normalize(prompt);
    DaConcat(loc, prod, rest);
    PiecesOfConcat(loc, "'da", " ", prod, " ne kadar", rest);
    DaNormalized(s, loc, prod, rest);
  }

  /** The match of the first phrasing on `<loc> konumu için <prod> <rest>`. */
  lemma KonumuMatches(s: string, sp: Split, loc: string, prod: string, rest: string)
    requires sp == Split(|loc|, |loc| + 13, |loc| + 13 + |prod|)
    requires Word(loc) && Word(prod)
    requires Pieces(s, loc, " ", Konumu, " ", prod, " " + rest)
    ensures Match(KonumuPhrasing, s) == Some(sp)
  {
    assert TailText(KonumuPhrasing.tail) + rest == " " + rest;
    assert KonumuPhrasing.lead.lit == Konumu;
    SpacedLeadMatch(KonumuPhrasing, s, loc, prod, rest);
  }

  /** The first phrasing on the normalised prompt. */
  lemma KonumuNormalized(s: string, loc: string, prod: string, rest: string)
    requires Word(loc) && Word(prod)
    requires Pieces(s, loc, " ", Konumu, " ", prod, " " + rest)
    ensures ParseNormalized(Patterns, s) == Intent(loc, prod)
  {
    assert Trimmed(loc) && Trimmed(prod);
    var sp := Split(|loc|, |loc| + 13, |loc| + 13 + |prod|);
    GroupsInPlace(s, sp, loc, prod);
    KonumuMatches(s, sp, loc, prod, rest);
    ParseByKonumu(s, sp);
  }

  /** The spelt-out first phrasing splits into its pieces. */
  lemma KonumuConcat(loc: string, prod: string, rest: string)
    ensures loc + " konumu için " + prod + " " + rest == loc + " " + Konumu + " " + prod + (" " + rest)
  {
    assert " konumu için " == " " + Konumu + " ";
  }

  /**
   * The first phrasing: a prompt that normalises to `<loc> konumu için <prod> <rest>`
   * gives `loc` and `prod` whatever else it contains, since this phrasing is tried first.
   */
  lemma ParseKonumu(prompt: string, loc: string, prod: string, rest: string)
    requires Word(loc) && Word(prod)
    requires Normalize(prompt) == loc + " konumu için " + prod + " " + rest
    ensures ParsePrompt(prompt) == Intent(loc, prod)
  {
    var s := Normalize(prompt);
    KonumuConcat(loc, prod, rest);
    PiecesOfConcat(loc, " ", Konumu, " ", prod, " " + rest);
    KonumuNormalized(s, loc, prod, rest);
  }

  /** The matches of the four phrasings on `<loc> civarında <prod> fiyat<rest>`. */
  lemma CivarindaMatches(s: string, sp: Split, loc: string, prod: string, rest: string)
    requires sp == Split(|loc|, |loc| + 11, |loc| + 11 + |prod|)
    requires Word(loc) && Word(prod)
    requires 'ç' !in s && '\'' !in s
    requires Pieces(s, loc, Civarinda, " ", prod, " fiyat", rest)
    ensures Match(KonumuPhrasing, s).None? && Match(DaPhrasing, s).None? && Match(DePhrasing, s).None?
    ensures Match(CivarindaPhrasing, s) == Some(sp)
  {
    KonumuNeedsCedilla(s);
    QuotedNeedQuote(s);
    WordLacksSpace(loc);
    assert TailText(CivarindaPhrasing.tail) == " fiyat";
    assert CivarindaPhrasing.lead.lit == Civarinda;
    LitLeadMatch(CivarindaPhrasing, s, loc, prod, rest);
  }

  /** The fourth phrasing on the normalised prompt. */
  lemma CivarindaNormalized(s: string, loc: string, prod: string, rest: string)
    requires Word(loc) && Word(prod)
    requires '\'' !in loc && '\'' !in prod && '\'' !in rest
    requires 'ç' !in loc && 'ç' !in prod && 'ç' !in rest
    requires Pieces(s, loc, Civarinda, " ", prod, " fiyat", rest)
    ensures ParseNormalized(Patterns, s) == Intent(loc, prod)
  {
    PiecesLack(s, loc, Civarinda, " ", prod, " fiyat", rest, 'ç');
    PiecesLack(s, loc, Civarinda, " ", prod, " fiyat", rest, '\'');
    assert Trimmed(loc) && Trimmed(prod);
    var sp := Split(|loc|, |loc| + 11, |loc| + 11 + |prod|);
    GroupsInPlace(s, sp, loc, prod);
    CivarindaMatches(s, sp, loc, prod, rest);
    ParseByCivarinda(s, sp);
  }

  /** The spelt-out fourth phrasing splits into its pieces. */
  lemma CivarindaConcat(loc: string, prod: string, rest: string)
    ensures loc + " civarında " + prod + " fiyat" + rest == loc + Civarinda + " " + prod + " fiyat" + rest
  {
  }

  /**
   * The fourth phrasing: a prompt that normalises to `<loc> civarında <prod> fiyat<rest>`
   * gives `loc` and `prod` when no apostrophe or 'ç' lets an earlier phrasing apply.
   */
  lemma ParseCivarinda(prompt: string, loc: string, prod: string, rest: string)
    requires Word(loc) && Word(prod)
    requires '\'' !in loc && '\'' !in prod && '\'' !in rest
    requires 'ç' !in loc && 'ç' !in prod && 'ç' !in rest
    requires Normalize(prompt) == loc + " civarında " + prod + " fiyat" + rest
    ensures ParsePrompt(prompt) == Intent(loc, prod)
  {
    var s := Normalize(prompt);
    CivarindaConcat(loc, prod, rest);
    PiecesOfConcat(loc, Civarinda, " ", prod, " fiyat", rest);
    CivarindaNormalized(s, loc, prod, rest);
  }

  /** The fourth phrasing needs a 'v', which its literal ` civarında` contains. */
  lemma CivarindaNeedsV(s: string)
    requires 'v' !in s
    ensures Match(CivarindaPhrasing, s).None?
  {
    assert Civarinda[3] == 'v';
    AbsentCharNoLead(CivarindaPhrasing.lead, s, 'v');
    NoLeadNoMatch(CivarindaPhrasing, s);
  }

  /** In `<loc> konumu için <prod>` the only whitespace is around and inside the literal. */
  lemma BareKonumuSpaces(s: string, loc: string, prod: string)
    requires Word(loc) && Word(prod)
    requires Pieces(s, loc, " ", Konumu, " ", prod, "")
    ensures forall x | 0 <= x < |s| && IsSpace(s[x]) :: |loc| <= x <= |loc| + |Konumu| + 1
  {
    PieceIsWord(s, 0, loc);
    PieceIsWord(s, |loc| + |Konumu| + 2, prod);
  }

  /** `<loc> konumu için <prod>` with nothing after the product matches no phrasing. */
  lemma BareKonumuNormalized(s: string, loc: string, prod: string)
    requires Word(loc) && Word(prod)
    requires '\'' !in loc && '\'' !in prod && 'v' !in loc && 'v' !in prod
    requires Pieces(s, loc, " ", Konumu, " ", prod, "")
    ensures ParseNormalized(Patterns, s) == Failure(FailureMessage)
  {
    BareKonumuSpaces(s, loc, prod);
    NoSpaceAfterLeadNoMatch(Konumu, s, |loc|);
    PiecesLack(s, loc, " ", Konumu, " ", prod, "", '\'');
    QuotedNeedQuote(s);
    PiecesLack(s, loc, " ", Konumu, " ", prod, "", 'v');
    CivarindaNeedsV(s);
    ParseByNone(s);
  }

  /** The spelt-out first phrasing without a trailing part splits into its pieces. */
  lemma BareKonumuConcat(loc: string, prod: string)
    ensures loc + " konumu için " + prod == loc + " " + Konumu + " " + prod + ""
  {
    assert " konumu için " == " " + Konumu + " ";
  }

  /**
   * The first phrasing needs whitespace after the product: a prompt that
   * normalises to `<loc> konumu için <prod>` and nothing more is not
   * understood when no other phrasing applies to it.
   */
  lemma ParseBareKonumu(prompt: string, loc: string, prod: string)
    requires Word(loc) && Word(prod)
    requires '\'' !in loc && '\'' !in prod && 'v' !in loc && 'v' !in prod
    requires Normalize(prompt) == loc + " konumu için " + prod
    ensures ParsePrompt(prompt) == Failure(FailureMessage)
  {
    var s := Normalize(prompt);
    BareKonumuConcat(loc, prod);
    PiecesOfConcat(loc, " ", Konumu, " ", prod, "");
    BareKonumuNormalized(s, loc, prod);
  }

  /*
   * Worked examples. Each is stated for every prompt that normalises to the
   * given sentence, such as the sentence itself or a capitalised or padded
   * spelling of it.
   */

  /** The `'de` phrasing. */
  lemma ExampleDe(prompt: string)
    requires Normalize(prompt) == "kadıköy'de ekmek ne kadar"
    ensures ParsePrompt(prompt) == Intent("kadıköy", "ekmek")
  {
    DeExamplePieces();
    ParseDe(prompt, "kadıköy", "ekmek", "");
  }

  /** The pieces of the `'de` example. */
  lemma DeExamplePieces()
    ensures "kadıköy'de ekmek ne kadar" == "kadıköy" + "'de " + "ekmek" + " ne kadar" + ""
    ensures Word("kadıköy") && Word("ekmek")
    ensures '\'' !in "kadıköy" && '\'' !in "ekmek" && '\'' !in ""
    ensures 'ç' !in "kadıköy" && 'ç' !in "ekmek" && 'ç' !in ""
  {
  }

  /** The `'da` phrasing, with a trailing question mark that the pattern leaves unread. */
  lemma ExampleDa(prompt: string)
    requires Normalize(prompt) == "ankara'da su ne kadar?"
    ensures ParsePrompt(prompt) == Intent("ankara", "su")
  {
    DaExamplePieces();
    ParseDa(prompt, "ankara", "su", "?");
  }

  /** The pieces of the `'da` example. */
  lemma DaExamplePieces()
    ensures "ankara'da su ne kadar?" == "ankara" + "'da " + "su" + " ne kadar" + "?"
    ensures Word("ankara") && Word("su") && '\'' !in "ankara"
    ensures 'ç' !in "ankara" && 'ç' !in "su" && 'ç' !in "?"
  {
  }

  /** The first phrasing keeps only the word after `konumu için` as the product. */
  lemma ExampleKonumu(prompt: string)
    requires Normalize(prompt) == "istanbul konumu için süt fiyatı nedir"
    ensures ParsePrompt(prompt) == Intent("istanbul", "süt")
  {
    KonumuExamplePieces();
    ParseKonumu(prompt, "istanbul", "süt", "fiyatı nedir");
  }

  /** The pieces of the first-phrasing example. */
  lemma KonumuExamplePieces()
    ensures "istanbul konumu için süt fiyatı nedir" == "istanbul" + " konumu için " + "süt" + " " + "fiyatı nedir"
    ensures Word("istanbul") && Word("süt")
  {
  }

  /**
   * A prompt that two phrasings fit: the first phrasing is tried first, so the
   * apostrophe suffix stays in the location.
   */
  lemma ExampleKonumuBeforeDe(prompt: string)
    requires Normalize(prompt) == "kadıköy'de konumu için ekmek ne kadar"
    ensures ParsePrompt(prompt) == Intent("kadıköy'de", "ekmek")
  {
    KonumuBeforeDeExamplePieces();
    ParseKonumu(prompt, "kadıköy'de", "ekmek", "ne kadar");
  }

  /** The pieces of the example that two phrasings fit. */
  lemma KonumuBeforeDeExamplePieces()
    ensures "kadıköy'de konumu için ekmek ne kadar" == "kadıköy'de" + " konumu için " + "ekmek" + " " + "ne kadar"
    ensures Word("kadıköy'de") && Word("ekmek")
  {
  }

  /** The fourth phrasing, with the dotless `fiyatı`. */
  lemma ExampleCivarinda(prompt: string)
    requires Normalize(prompt) == "beşiktaş civarında peynir fiyatı"
    ensures ParsePrompt(prompt) == Intent("beşiktaş", "peynir")
  {
    CivarindaExamplePieces();
    CivarindaExampleWords();
    ParseCivarinda(prompt, "beşiktaş", "peynir", "ı");
  }

  /** The pieces of the fourth-phrasing example. */
  lemma CivarindaExamplePieces()
    ensures "beşiktaş civarında peynir fiyatı" == "beşiktaş" + " civarında " + "peynir" + " fiyat" + "ı"
  {
  }

  /** The words of the fourth-phrasing example have no apostrophe and no 'ç'. */
  lemma CivarindaExampleWords()
    ensures Word("beşiktaş") && Word("peynir")
    ensures '\'' !in "beşiktaş" && '\'' !in "peynir" && '\'' !in "ı"
    ensures 'ç' !in "beşiktaş" && 'ç' !in "peynir" && 'ç' !in "ı"
  {
  }

  /** Without whitespace after the product the first phrasing does not apply. */
  lemma ExampleBareKonumu(prompt: string)
    requires Normalize(prompt) == "izmir konumu için çay"
    ensures ParsePrompt(prompt) == Failure(FailureMessage)
  {
    BareKonumuExamplePieces();
    ParseBareKonumu(prompt, "izmir", "çay");
  }

  /** The pieces of the example without whitespace after the product. */
  lemma BareKonumuExamplePieces()
    ensures "izmir konumu için çay" == "izmir" + " konumu için " + "çay"
    ensures Word("izmir") && Word("çay")
    ensures '\'' !in "izmir" && '\'' !in "çay" && 'v' !in "izmir" && 'v' !in "çay"
  {
  }
}
