/**
 * The four prompt phrasings share one shape,
 *
 *     (?P<location>.+?) LEAD (?P<product>.+?) TAIL
 *
 * matched with Python's `re.match`: anchored at index 0, the lazy groups
 * `.+?` (any characters but '\n') are tried shortest first, each greedy
 * `\s+` is tried longest first, and the first combination in that
 * backtracking order that reaches the end of the pattern is the match.
 * This module describes the LEAD and TAIL pieces that occur in the
 * phrasings, implements that search for them, and characterises its
 * result without reference to the search.
 */
module PromptPatterns {
  import opened Wrappers
  import opened Text

  /** What stands between the location group and the product group. */
  datatype Lead =
    | SpacesLitSpaces(lit: string)  // \s+<lit>\s+
    | LitSpaces(lit: string)        // <lit>\s+

  /** What must follow the product group. */
  datatype Tail =
    | SpacesAnything                          // \s+.*
    | SpacesLit(lit: string)                  // \s+<lit>
    | LitOptional(lit: string, optional: seq<char>)  // <lit>[<optional>]?

  /** `(?P<location>.+?)<lead>(?P<product>.+?)<tail>` */
  datatype Pattern = Pattern(lead: Lead, tail: Tail)

  /** A match: the location group is s[..locEnd], the product group s[prodStart..prodEnd]. */
  datatype Split = Split(locEnd: nat, prodStart: nat, prodEnd: nat)

  // ---------------------------------------------------------------------
  // Building blocks

  /** The literal `lit` occurs in `s` at index `k`. */
  predicate LitAt(s: string, k: nat, lit: string) {
    k + |lit| <= |s| && forall t | 0 <= t < |lit| :: s[k + t] == lit[t]
  }

  /** `.` matches every character of s[a..b]: none of them is a line feed. */
  predicate NoNewline(s: string, a: nat, b: nat)
    requires a <= b <= |s|
  {
    forall k | a <= k < b :: s[k] != '\n'
  }

  /** The end of the longest run of whitespace in `s` that starts at `k`. */
  function RunEnd(s: string, k: nat): (e: nat)
    requires k <= |s|
    ensures k <= e <= |s|
    ensures e == |s| || !IsSpace(s[e])
    decreases |s| - k
  {
    if k < |s| && IsSpace(s[k]) then RunEnd(s, k + 1) else k
  }

  /** Every character of the run is whitespace. */
  lemma {:induction false} RunIsSpace(s: string, k: nat, j: nat)
    requires k <= j <= |s| && j < RunEnd(s, k)
    ensures IsSpace(s[j])
    decreases j - k
  {
    if j > k {
      RunIsSpace(s, k + 1, j);
    }
  }

  /** The end positions hi, hi - 1, ..., lo + 1, in the order a greedy repeat tries them. */
  function Downto(hi: nat, lo: nat): (r: seq<int>)
    ensures |r| == if hi > lo then hi - lo else 0
    ensures forall n | 0 <= n < |r| :: r[n] == hi - n
    decreases hi
  {
    if hi <= lo then [] else [hi] + Downto(hi - 1, lo)
  }

  /**
   * The ends of `<lit>\s+` when the `\s+` in front of it ended at `k`,
   * `k - 1`, ..., `i + 1`: for each of them in turn, if `lit` follows,
   * every end of the greedy `\s+` after it, longest first.
   */
  function SpacesLitStarts(s: string, lit: string, i: nat, k: nat): (r: seq<int>)
    requires i <= k <= |s|
    ensures forall n | 0 <= n < |r| :: i < r[n] <= |s|
    decreases k
  {
    if k <= i then [] else SpacesLitStartsAt(s, lit, k) + SpacesLitStarts(s, lit, i, k - 1)
  }

  /** The ends of `<lit>\s+` at `k`: none unless `lit` occurs there, then the whitespace run's ends, longest first. */
  function SpacesLitStartsAt(s: string, lit: string, k: nat): (r: seq<int>)
    requires k <= |s|
    ensures forall n | 0 <= n < |r| :: k < r[n] <= |s|
  {
    if LitAt(s, k, lit) then Downto(RunEnd(s, k + |lit|), k + |lit|) else []
  }

  /**
   * Where the product group may start once the location group ends at `i`,
   * in the order the backtracking search tries them.
   */
  function ProductStarts(lead: Lead, s: string, i: nat): (r: seq<int>)
    requires i <= |s|
    ensures forall n | 0 <= n < |r| :: i < r[n] <= |s|
  {
    match lead
    case SpacesLitSpaces(lit) => SpacesLitStarts(s, lit, i, RunEnd(s, i))
    case LitSpaces(lit) =>
      if LitAt(s, i, lit) then Downto(RunEnd(s, i + |lit|), i + |lit|) else []
  }

  /** `lit` follows one of the ends k, k - 1, ..., p + 1 of a `\s+` starting at `p`. */
  predicate LitAfterSpaces(s: string, lit: string, p: nat, k: nat)
    requires p <= k <= |s|
    decreases k
  {
    k > p && (LitAt(s, k, lit) || LitAfterSpaces(s, lit, p, k - 1))
  }

  /** The tail of the pattern matches at index `p`, right after the product group. */
  predicate TailMatches(tail: Tail, s: string, p: nat)
    requires p <= |s|
  {
    match tail
    // the greedy `.*` can always match the empty string
    case SpacesAnything => p < |s| && IsSpace(s[p])
    case SpacesLit(lit) => LitAfterSpaces(s, lit, p, RunEnd(s, p))
    // the optional character class can always match nothing
    case LitOptional(lit, _) => LitAt(s, p, lit)
  }

  // ---------------------------------------------------------------------
  // What a match is, independently of how it is searched for

  /** s[m..p] is a possible product group: non-empty, no line feed, and the tail follows it. */
  ghost predicate ProdOk(tail: Tail, s: string, m: int, p: nat) {
    0 <= m < p <= |s| && NoNewline(s, m, p) && TailMatches(tail, s, p)
  }

  /** Some product group can start at `m`. */
  ghost predicate HasProduct(tail: Tail, s: string, m: int) {
    exists p :: ProdOk(tail, s, m, p)
  }

  /** s[m..p] is the shortest product group starting at `m`. */
  ghost predicate LeastProduct(tail: Tail, s: string, m: int, p: nat) {
    ProdOk(tail, s, m, p) && forall q | m < q < p :: !ProdOk(tail, s, m, q)
  }

  /**
   * starts[n] is the first start, in search order, from which a product
   * group can be matched, and s[starts[n]..p] is the shortest such group.
   */
  ghost predicate ChosenStart(tail: Tail, s: string, starts: seq<int>, n: nat, p: nat) {
    && n < |starts|
    && LeastProduct(tail, s, starts[n], p)
    && forall k | 0 <= k < n :: !HasProduct(tail, s, starts[k])
  }

  /** s[..i] is a possible location group: the rest of the pattern can match after it. */
  ghost predicate HasMatchAt(pat: Pattern, s: string, i: nat) {
    && 1 <= i <= |s|
    && NoNewline(s, 0, i)
    && var starts := ProductStarts(pat.lead, s, i);
       exists n | 0 <= n < |starts| :: HasProduct(pat.tail, s, starts[n])
  }

  /**
   * `sp` is the match `re.match` reports: the shortest possible location
   * group, then the first product start in search order that works, then
   * the shortest product group from there.
   */
  ghost predicate IsFirstMatch(pat: Pattern, s: string, sp: Split) {
    && 1 <= sp.locEnd <= |s|
    && NoNewline(s, 0, sp.locEnd)
    && (var starts := ProductStarts(pat.lead, s, sp.locEnd);
        exists n: nat | ChosenStart(pat.tail, s, starts, n, sp.prodEnd) :: starts[n] == sp.prodStart)
    && forall i | 1 <= i < sp.locEnd :: !HasMatchAt(pat, s, i)
  }

  /** No location group lets the rest of the pattern match. */
  ghost predicate NoMatch(pat: Pattern, s: string) {
    forall i | 1 <= i <= |s| :: !HasMatchAt(pat, s, i)
  }

  // ---------------------------------------------------------------------
  // The backtracking search

  /** The lazy product group starting at `m`, tried with ends p, p + 1, ... */
  function ProductEnd(tail: Tail, s: string, m: nat, p: nat): (r: Option<nat>)
    requires m < p <= |s| + 1
    requires NoNewline(s, m, p - 1)
    requires forall q | m < q < p :: !TailMatches(tail, s, q)
    ensures r.Some? ==> LeastProduct(tail, s, m, r.value)
    ensures r.None? ==> !HasProduct(tail, s, m)
    decreases |s| + 1 - p
  {
    if p > |s| || s[p - 1] == '\n' then None
    else if TailMatches(tail, s, p) then Some(p)
    else ProductEnd(tail, s, m, p + 1)
  }

  /** The product starts starts[n], starts[n + 1], ... tried in turn; the result is (index, product end). */
  function FirstProductFrom(tail: Tail, s: string, starts: seq<int>, n: nat): (r: Option<(nat, nat)>)
    requires n <= |starts|
    requires forall k | 0 <= k < |starts| :: 0 <= starts[k] <= |s|
    requires forall k | 0 <= k < n :: !HasProduct(tail, s, starts[k])
    ensures r.Some? ==> ChosenStart(tail, s, starts, r.value.0, r.value.1)
    ensures r.None? ==> forall k | 0 <= k < |starts| :: !HasProduct(tail, s, starts[k])
    decreases |starts| - n
  {
    if n == |starts| then None
    else match ProductEnd(tail, s, starts[n], starts[n] + 1)
      case Some(p) => Some((n, p))
      case None => FirstProductFrom(tail, s, starts, n + 1)
  }

  /** The lazy location group, tried with ends i, i + 1, ... */
  function MatchFrom(pat: Pattern, s: string, i: nat): Option<Split>
    requires 1 <= i <= |s| + 1
    decreases |s| + 1 - i
  {
    if i > |s| || s[i - 1] == '\n' then None
    else
      var starts := ProductStarts(pat.lead, s, i);
      match FirstProductFrom(pat.tail, s, starts, 0)
      case Some((n, p)) => Some(Split(i, starts[n], p))
      case None => MatchFrom(pat, s, i + 1)
  }

  /**
   * The search from location end `i` on, when no shorter location works,
   * finds the first match, or reports none when there is none.
   */
  lemma {:induction false} MatchFromSpec(pat: Pattern, s: string, i: nat)
    requires 1 <= i <= |s| + 1
    requires NoNewline(s, 0, i - 1)
    requires forall j | 1 <= j < i :: !HasMatchAt(pat, s, j)
    ensures MatchFrom(pat, s, i).Some? ==> IsFirstMatch(pat, s, MatchFrom(pat, s, i).value)
    ensures MatchFrom(pat, s, i).None? ==> NoMatch(pat, s)
    decreases |s| + 1 - i
  {
    if i > |s| || s[i - 1] == '\n' {
      NoMatchPastLineEnd(pat, s, i);
    } else {
      var starts := ProductStarts(pat.lead, s, i);
      match FirstProductFrom(pat.tail, s, starts, 0)
      case Some((n, p)) =>
        ChosenStartIsFirstMatch(pat, s, i, n, p);
      case None =>
        NoMatchAtLocation(pat, s, i);
        MatchFromSpec(pat, s, i + 1);
    }
  }

  /** Once the location group would have to take in a line feed or run past the end, nothing matches. */
  lemma NoMatchPastLineEnd(pat: Pattern, s: string, i: nat)
    requires 1 <= i <= |s| + 1 && (i > |s| || s[i - 1] == '\n')
    requires forall j | 1 <= j < i :: !HasMatchAt(pat, s, j)
    ensures NoMatch(pat, s)
  {
    forall j | i <= j <= |s|
      ensures !HasMatchAt(pat, s, j)
    {
      assert !NoNewline(s, 0, j) by {
        assert s[i - 1] == '\n';
      }
    }
  }

  /** A location end from which no product start works is not a match. */
  lemma NoMatchAtLocation(pat: Pattern, s: string, i: nat)
    requires 1 <= i <= |s| && s[i - 1] != '\n' && NoNewline(s, 0, i - 1)
    requires var starts := ProductStarts(pat.lead, s, i);
      forall k | 0 <= k < |starts| :: !HasProduct(pat.tail, s, starts[k])
    requires forall j | 1 <= j < i :: !HasMatchAt(pat, s, j)
    ensures NoNewline(s, 0, i)
    ensures forall j | 1 <= j < i + 1 :: !HasMatchAt(pat, s, j)
  {
    assert !HasMatchAt(pat, s, i);
  }

  /** The first working product start for the shortest working location group gives the first match. */
  lemma ChosenStartIsFirstMatch(pat: Pattern, s: string, i: nat, n: nat, p: nat)
    requires 1 <= i <= |s| && NoNewline(s, 0, i)
    requires forall j | 1 <= j < i :: !HasMatchAt(pat, s, j)
    requires ChosenStart(pat.tail, s, ProductStarts(pat.lead, s, i), n, p)
    ensures IsFirstMatch(pat, s, Split(i, ProductStarts(pat.lead, s, i)[n], p))
  {
  }

  /** `re.match(pattern, s)`, reduced to the positions of the two groups. */
  function Match(pat: Pattern, s: string): (r: Option<Split>)
    ensures r.Some? ==> 1 <= r.value.locEnd < r.value.prodStart < r.value.prodEnd <= |s|
  {
    var r := MatchFrom(pat, s, 1);
    if r.Some? then
      MatchFromSpec(pat, s, 1);
      FirstMatchBounds(pat, s, r.value);
      r
    else r
  }

  /** `Match` reports the first match, and reports none exactly when nothing matches. */
  lemma MatchSpec(pat: Pattern, s: string)
    ensures Match(pat, s).Some? ==> IsFirstMatch(pat, s, Match(pat, s).value)
    ensures Match(pat, s).None? <==> NoMatch(pat, s)
  {
    MatchFromSpec(pat, s, 1);
    if Match(pat, s).Some? {
      FirstMatchBounds(pat, s, Match(pat, s).value);
    }
  }

  // ---------------------------------------------------------------------
  // Properties of a first match

  /** A first match has the group positions in order, and it is a match. */
  lemma FirstMatchBounds(pat: Pattern, s: string, sp: Split)
    requires IsFirstMatch(pat, s, sp)
    ensures 1 <= sp.locEnd < sp.prodStart < sp.prodEnd <= |s|
    ensures TailMatches(pat.tail, s, sp.prodEnd)
    ensures HasMatchAt(pat, s, sp.locEnd)
    ensures !NoMatch(pat, s)
  {
    var starts := ProductStarts(pat.lead, s, sp.locEnd);
    var n: nat :| ChosenStart(pat.tail, s, starts, n, sp.prodEnd) && starts[n] == sp.prodStart;
    assert ProdOk(pat.tail, s, starts[n], sp.prodEnd);
    assert HasProduct(pat.tail, s, starts[n]);
    assert HasMatchAt(pat, s, sp.locEnd);
  }

  /** There is exactly one first match: the characterisation pins the split down. */
  lemma FirstMatchUnique(pat: Pattern, s: string, a: Split, b: Split)
    requires IsFirstMatch(pat, s, a) && IsFirstMatch(pat, s, b)
    ensures a == b
  {
    FirstMatchBounds(pat, s, a);
    FirstMatchBounds(pat, s, b);
    assert a.locEnd == b.locEnd;
    var starts := ProductStarts(pat.lead, s, a.locEnd);
    var na: nat :| ChosenStart(pat.tail, s, starts, na, a.prodEnd) && starts[na] == a.prodStart;
    var nb: nat :| ChosenStart(pat.tail, s, starts, nb, b.prodEnd) && starts[nb] == b.prodStart;
    assert HasProduct(pat.tail, s, starts[na]) by {
      assert ProdOk(pat.tail, s, starts[na], a.prodEnd);
    }
    assert HasProduct(pat.tail, s, starts[nb]) by {
      assert ProdOk(pat.tail, s, starts[nb], b.prodEnd);
    }
    assert na == nb;
  }

  /** `Match` returns a split exactly when that split is the first match. */
  lemma MatchIsFirstMatch(pat: Pattern, s: string, sp: Split)
    ensures Match(pat, s) == Some(sp) <==> IsFirstMatch(pat, s, sp)
  {
    MatchSpec(pat, s);
    if IsFirstMatch(pat, s, sp) {
      FirstMatchBounds(pat, s, sp);
      FirstMatchUnique(pat, s, Match(pat, s).value, sp);
    }
  }

  // ---------------------------------------------------------------------
  // Greedy whitespace before a literal

  /** Inside a run of whitespace no literal that starts with a non-space character can begin. */
  lemma {:induction false} NoLitInsideRun(s: string, lit: string, p: nat, k: nat)
    requires lit != [] && !IsSpace(lit[0])
    requires p <= k <= |s| && k < RunEnd(s, p)
    ensures !LitAfterSpaces(s, lit, p, k)
  {
    if k > p {
      RunIsSpace(s, p, k);
      assert !LitAt(s, k, lit);
      NoLitInsideRun(s, lit, p, k - 1);
    }
  }

  /**
   * `\s+<lit>` with `lit` starting with a non-space character matches at
   * `p` exactly when there is whitespace at `p` and `lit` follows the
   * whole run: the greedy repeat's shorter ends all fail.
   */
  lemma SpacesLitTail(s: string, lit: string, p: nat)
    requires p <= |s| && lit != [] && !IsSpace(lit[0])
    ensures TailMatches(SpacesLit(lit), s, p) <==> RunEnd(s, p) > p && LitAt(s, RunEnd(s, p), lit)
  {
    var e := RunEnd(s, p);
    if e > p {
      NoLitInsideRun(s, lit, p, e - 1);
    }
  }

  /** Inside the leading run of whitespace the literal of `\s+<lit>\s+` cannot begin. */
  lemma {:induction false} NoStartsInsideRun(s: string, lit: string, i: nat, k: nat)
    requires lit != [] && !IsSpace(lit[0])
    requires i <= k <= |s| && k < RunEnd(s, i)
    ensures SpacesLitStarts(s, lit, i, k) == []
  {
    if k > i {
      RunIsSpace(s, i, k);
      assert !LitAt(s, k, lit);
      NoStartsInsideRun(s, lit, i, k - 1);
    }
  }

  /**
   * Where the final `\s+` of the lead begins when the location group ends
   * at `i`, if the lead's literal is there: right after the literal, which
   * must start at `i` for `<lit>\s+`, and right after the whole whitespace
   * run at `i` for `\s+<lit>\s+`.
   */
  function LeadEnd(lead: Lead, s: string, i: nat): Option<nat>
    requires i <= |s|
  {
    match lead
    case LitSpaces(lit) => if LitAt(s, i, lit) then Some(i + |lit|) else None
    case SpacesLitSpaces(lit) =>
      var k := RunEnd(s, i);
      if k > i && LitAt(s, k, lit) then Some(k + |lit|) else None
  }

  /** The leads' literals must start with a non-space character where a `\s+` precedes them. */
  predicate LeadWellFormed(lead: Lead) {
    lead.SpacesLitSpaces? ==> lead.lit != [] && !IsSpace(lead.lit[0])
  }

  /**
   * The product starts are the ends of the lead's final `\s+`, longest
   * first: every end of the whitespace run after the lead's literal.
   */
  lemma ProductStartsShape(lead: Lead, s: string, i: nat)
    requires i <= |s| && LeadWellFormed(lead)
    ensures LeadEnd(lead, s, i).None? ==> ProductStarts(lead, s, i) == []
    ensures LeadEnd(lead, s, i).Some? ==>
      var j := LeadEnd(lead, s, i).value;
      ProductStarts(lead, s, i) == Downto(RunEnd(s, j), j)
  {
    if lead.LitSpaces? {
      LitSpacesShape(lead, s, i);
    } else {
      SpacesLitSpacesShape(lead, s, i);
    }
  }

  /** `ProductStartsShape` for `<lit>\s+`. */
  lemma LitSpacesShape(lead: Lead, s: string, i: nat)
    requires i <= |s| && lead.LitSpaces?
    ensures LeadEnd(lead, s, i).None? ==> ProductStarts(lead, s, i) == []
    ensures LeadEnd(lead, s, i).Some? ==>
      var j := LeadEnd(lead, s, i).value;
      ProductStarts(lead, s, i) == Downto(RunEnd(s, j), j)
  {
    if LitAt(s, i, lead.lit) {
      LitSpacesStarts(s, lead.lit, i);
    }
  }

  /** `ProductStartsShape` for `\s+<lit>\s+`. */
  lemma SpacesLitSpacesShape(lead: Lead, s: string, i: nat)
    requires i <= |s| && lead.SpacesLitSpaces? && LeadWellFormed(lead)
    ensures LeadEnd(lead, s, i).None? ==> ProductStarts(lead, s, i) == []
    ensures LeadEnd(lead, s, i).Some? ==>
      var j := LeadEnd(lead, s, i).value;
      ProductStarts(lead, s, i) == Downto(RunEnd(s, j), j)
  {
    var k := RunEnd(s, i);
    if k > i && LitAt(s, k, lead.lit) {
      SpacesLitSpacesStarts(lead, s, i, k);
    } else {
      NoSpacesLitSpacesStarts(lead, s, i, k);
    }
  }

  /** For `<lit>\s+` the product starts are the ends of the run after the literal. */
  lemma LitSpacesStarts(s: string, lit: string, i: nat)
    requires i <= |s| && LitAt(s, i, lit)
    ensures LeadEnd(LitSpaces(lit), s, i) == Some(i + |lit|)
    ensures ProductStarts(LitSpaces(lit), s, i) == Downto(RunEnd(s, i + |lit|), i + |lit|)
  {
  }

  /** For `\s+<lit>\s+` the same holds once the literal follows the whole leading run. */
  lemma SpacesLitSpacesStarts(lead: Lead, s: string, i: nat, k: nat)
    requires lead.SpacesLitSpaces? && LeadWellFormed(lead)
    requires i < k <= |s| && k == RunEnd(s, i) && LitAt(s, k, lead.lit)
    ensures LeadEnd(lead, s, i).Some?
    ensures var j := LeadEnd(lead, s, i).value;
      ProductStarts(lead, s, i) == Downto(RunEnd(s, j), j)
  {
    OnlyLongestRun(s, lead.lit, i, k);
  }

  /** ... and there is no product start when it does not. */
  lemma NoSpacesLitSpacesStarts(lead: Lead, s: string, i: nat, k: nat)
    requires lead.SpacesLitSpaces? && LeadWellFormed(lead)
    requires i <= k <= |s| && k == RunEnd(s, i) && !(k > i && LitAt(s, k, lead.lit))
    ensures LeadEnd(lead, s, i).None?
    ensures ProductStarts(lead, s, i) == []
  {
    if k > i {
      OnlyLongestRun(s, lead.lit, i, k);
    }
  }

  /** For `\s+<lit>\s+` only the longest leading run can be followed by the literal. */
  lemma OnlyLongestRun(s: string, lit: string, i: nat, k: nat)
    requires lit != [] && !IsSpace(lit[0])
    requires i < k <= |s| && k == RunEnd(s, i)
    ensures SpacesLitStarts(s, lit, i, k) == SpacesLitStartsAt(s, lit, k)
  {
    NoStartsInsideRun(s, lit, i, k - 1);
  }

  /**
   * The `\s+` in front of the product group takes the most whitespace it
   * can: the product starts inside the whitespace run after the lead's
   * literal, and no later position in that run could start a product.
   */
  lemma GreedyProductStart(pat: Pattern, s: string, sp: Split)
    requires LeadWellFormed(pat.lead) && IsFirstMatch(pat, s, sp)
    ensures LeadEnd(pat.lead, s, sp.locEnd).Some?
    ensures var j := LeadEnd(pat.lead, s, sp.locEnd).value;
      && j < sp.prodStart <= RunEnd(s, j)
      && forall m | sp.prodStart < m <= RunEnd(s, j) :: !HasProduct(pat.tail, s, m)
  {
    var starts := ProductStarts(pat.lead, s, sp.locEnd);
    ProductStartsShape(pat.lead, s, sp.locEnd);
    var n: nat :| ChosenStart(pat.tail, s, starts, n, sp.prodEnd) && starts[n] == sp.prodStart;
    var j := LeadEnd(pat.lead, s, sp.locEnd).value;
    var e := RunEnd(s, j);
    forall m | sp.prodStart < m <= e
      ensures !HasProduct(pat.tail, s, m)
    {
      assert starts[e - m] == m;
    }
  }

  // ---------------------------------------------------------------------
  // Recognising a match from the shape of the input

  /** The tail begins with whitespace, as `\s+…` and ` fiyat…` do. */
  predicate TailStartsWithSpace(tail: Tail) {
    tail.LitOptional? ==> tail.lit != [] && IsSpace(tail.lit[0])
  }

  /** Such a tail can only match where whitespace follows the product group. */
  lemma TailNeedsSpace(tail: Tail, s: string, p: nat)
    requires p <= |s| && TailStartsWithSpace(tail) && TailMatches(tail, s, p)
    ensures p < |s| && IsSpace(s[p])
  {
    match tail
    case SpacesAnything =>
    case SpacesLit(lit) =>
      assert RunEnd(s, p) > p;
    case LitOptional(lit, _) =>
      assert s[p + 0] == lit[0];
  }

  /** Every character of s[a..b] is whitespace. */
  predicate AllSpace(s: string, a: nat, b: nat)
    requires a <= b <= |s|
  {
    forall t | a <= t < b :: IsSpace(s[t])
  }

  /** A stretch of whitespace starting at `k` lies inside the greedy run from `k`. */
  lemma {:induction false} SpacesWithinRun(s: string, k: nat, j: nat)
    requires k <= j <= |s| && AllSpace(s, k, j)
    ensures j <= RunEnd(s, k)
    decreases j - k
  {
    if j > k {
      SpacesWithinRun(s, k + 1, j);
    }
  }

  /** `LitAfterSpaces` finds `lit` at one of the ends p + 1, ..., k. */
  lemma {:induction false} LitAfterSpacesSpec(s: string, lit: string, p: nat, k: nat)
    requires p <= k <= |s|
    ensures LitAfterSpaces(s, lit, p, k) <==> exists j | p < j <= k :: LitAt(s, j, lit)
    decreases k
  {
    if k > p {
      LitAfterSpacesSpec(s, lit, p, k - 1);
    }
  }

  /**
   * The tails read as the regular expressions they stand for: `\s+<lit>`
   * matches when some non-empty stretch of whitespace at `p` is followed by
   * `lit`, and `\s+.*` when some non-empty stretch of whitespace is at `p`.
   */
  lemma TailMatchesSpec(tail: Tail, s: string, p: nat)
    requires p <= |s|
    ensures tail.SpacesLit? ==>
      (TailMatches(tail, s, p) <==> exists j | p < j <= |s| && AllSpace(s, p, j) :: LitAt(s, j, tail.lit))
    ensures tail.SpacesAnything? ==>
      (TailMatches(tail, s, p) <==> exists j | p < j <= |s| :: AllSpace(s, p, j))
  {
    match tail
    case SpacesAnything =>
      if p < |s| && IsSpace(s[p]) {
        assert AllSpace(s, p, p + 1);
      }
    case SpacesLit(lit) =>
      var e := RunEnd(s, p);
      LitAfterSpacesSpec(s, lit, p, e);
      if TailMatches(tail, s, p) {
        var j :| p < j <= e && LitAt(s, j, lit);
        forall t | p <= t < j
          ensures IsSpace(s[t])
        {
          RunIsSpace(s, p, t);
        }
      }
      if j :| p < j <= |s| && AllSpace(s, p, j) && LitAt(s, j, lit) {
        SpacesWithinRun(s, p, j);
      }
    case LitOptional(_, _) =>
  }

  /** A run of whitespace of length `n` followed by a non-space character (or the end) is the whole greedy run. */
  lemma {:induction false} RunEndOfSpaces(s: string, j: nat, n: nat)
    requires j + n <= |s|
    requires forall x | j <= x < j + n :: IsSpace(s[x])
    requires j + n == |s| || !IsSpace(s[j + n])
    ensures RunEnd(s, j) == j + n
    decreases n
  {
    if n > 0 {
      RunEndOfSpaces(s, j + 1, n - 1);
    }
  }

  /** A location end at which the lead's literal is not found admits no match. */
  lemma NoLeadNoMatchAt(pat: Pattern, s: string, i: nat)
    requires LeadWellFormed(pat.lead) && 1 <= i <= |s| && LeadEnd(pat.lead, s, i).None?
    ensures !HasMatchAt(pat, s, i)
  {
    ProductStartsShape(pat.lead, s, i);
  }

  /** A pattern whose lead's literal appears nowhere does not match. */
  lemma NoLeadNoMatch(pat: Pattern, s: string)
    requires LeadWellFormed(pat.lead)
    requires forall i | 1 <= i <= |s| :: LeadEnd(pat.lead, s, i).None?
    ensures Match(pat, s).None?
  {
    forall i | 1 <= i <= |s|
      ensures !HasMatchAt(pat, s, i)
    {
      NoLeadNoMatchAt(pat, s, i);
    }
    MatchSpec(pat, s);
  }

  /** A literal that contains a character absent from `s` does not occur in `s`. */
  lemma AbsentCharNoLit(s: string, lit: string, c: char, k: nat)
    requires c in lit && c !in s
    ensures !LitAt(s, k, lit)
  {
  }

  /** The lead's literal is not found anywhere when it contains a character absent from `s`. */
  lemma AbsentCharNoLead(lead: Lead, s: string, c: char)
    requires c in lead.lit && c !in s
    ensures forall i | 1 <= i <= |s| :: LeadEnd(lead, s, i).None?
  {
    forall i | 1 <= i <= |s|
      ensures LeadEnd(lead, s, i).None?
    {
      if lead.LitSpaces? {
        AbsentCharNoLit(s, lead.lit, c, i);
      } else {
        AbsentCharNoLit(s, lead.lit, c, RunEnd(s, i));
      }
    }
  }

  /**
   * The location part of a prompt as the search finds it: a newline-free location ending at
   * `locEnd`, where the lead first occurs, followed by the run of spaces ending at `prodStart`.
   */
  predicate LocationShape(lead: Lead, s: string, locEnd: nat, prodStart: nat) {
    && 1 <= locEnd <= |s| && NoNewline(s, 0, locEnd)
    && (forall i | 1 <= i < locEnd :: LeadEnd(lead, s, i).None?)
    && LeadEnd(lead, s, locEnd).Some?
    && LeadEnd(lead, s, locEnd).value < prodStart == RunEnd(s, LeadEnd(lead, s, locEnd).value)
  }

  /** The product part: non-space characters from `prodStart` to `prodEnd`, where the tail matches. */
  predicate ProductShape(tail: Tail, s: string, prodStart: nat, prodEnd: nat) {
    && prodStart < prodEnd <= |s|
    && (forall x | prodStart <= x < prodEnd :: !IsSpace(s[x]))
    && TailMatches(tail, s, prodEnd)
  }

  /**
   * Reading a match off the input: if the lead is first found at
   * `locEnd`, the whitespace after it ends at `prodStart`, the
   * characters up to `prodEnd` are not whitespace and the tail matches
   * right there, then that is the split `re.match` reports.
   */
  lemma FirstMatchOfShape(pat: Pattern, s: string, locEnd: nat, prodStart: nat, prodEnd: nat)
    requires LeadWellFormed(pat.lead) && TailStartsWithSpace(pat.tail)
    requires LocationShape(pat.lead, s, locEnd, prodStart)
    requires ProductShape(pat.tail, s, prodStart, prodEnd)
    ensures IsFirstMatch(pat, s, Split(locEnd, prodStart, prodEnd))
  {
    forall i | 1 <= i < locEnd
      ensures !HasMatchAt(pat, s, i)
    {
      NoLeadNoMatchAt(pat, s, i);
    }
    var starts := ProductStarts(pat.lead, s, locEnd);
    ProductStartsShape(pat.lead, s, locEnd);
    assert starts[0] == prodStart;
    ShortestProduct(pat.tail, s, prodStart, prodEnd);
    assert ChosenStart(pat.tail, s, starts, 0, prodEnd);
  }

  /** A product of non-space characters followed by a matching tail is the shortest product group. */
  lemma ShortestProduct(tail: Tail, s: string, m: nat, p: nat)
    requires TailStartsWithSpace(tail)
    requires m < p <= |s| && TailMatches(tail, s, p)
    requires forall x | m <= x < p :: !IsSpace(s[x])
    ensures LeastProduct(tail, s, m, p)
  {
    forall q | m < q < p
      ensures !ProdOk(tail, s, m, q)
    {
      if TailMatches(tail, s, q) {
        TailNeedsSpace(tail, s, q);
      }
    }
    assert NoNewline(s, m, p) by {
      forall x | m <= x < p
        ensures s[x] != '\n'
      {
        assert !IsSpace(s[x]);
      }
    }
  }

  /** `<lit>\s+` is not found before the first occurrence of the literal's first character. */
  lemma LitLeadAbsentBefore(lit: string, s: string, a: nat)
    requires lit != [] && a <= |s|
    requires forall x | 0 <= x < a :: s[x] != lit[0]
    ensures forall i | 1 <= i < a :: LeadEnd(LitSpaces(lit), s, i).None?
  {
    forall i | 1 <= i < a
      ensures !LitAt(s, i, lit)
    {
      assert s[i + 0] != lit[0];
    }
  }

  /** `\s+<lit>\s+` is not found before the first whitespace character. */
  lemma SpacedLeadAbsentBefore(lit: string, s: string, a: nat)
    requires a <= |s|
    requires forall x | 0 <= x < a :: !IsSpace(s[x])
    ensures forall i | 1 <= i < a :: LeadEnd(SpacesLitSpaces(lit), s, i).None?
  {
    forall i | 1 <= i < a
      ensures RunEnd(s, i) == i
    {
      RunEndOfSpaces(s, i, 0);
    }
  }

  /** `\s+<lit>\s+` is found at `a` when `n` whitespace characters and then the literal follow. */
  lemma SpacedLeadAt(lit: string, s: string, a: nat, n: nat)
    requires lit != [] && !IsSpace(lit[0])
    requires 0 < n && a + n <= |s| && LitAt(s, a + n, lit)
    requires forall x | a <= x < a + n :: IsSpace(s[x])
    ensures LeadEnd(SpacesLitSpaces(lit), s, a) == Some(a + n + |lit|)
  {
    assert s[a + n + 0] == lit[0];
    RunEndOfSpaces(s, a, n);
  }

  /**
   * `\s+<lit>\s+(?P<product>.+?)\s+.*` needs whitespace after the
   * product, which follows the literal: if every whitespace character of
   * `s` lies within `a .. a + |lit| + 1`, so that there is none beyond
   * the `\s+<lit>\s+` starting at `a`, nothing matches.
   */
  lemma NoSpaceAfterLeadNoMatch(lit: string, s: string, a: nat)
    requires lit != [] && !IsSpace(lit[0])
    requires forall x | 0 <= x < |s| && IsSpace(s[x]) :: a <= x <= a + |lit| + 1
    ensures Match(Pattern(SpacesLitSpaces(lit), SpacesAnything), s).None?
  {
    var pat := Pattern(SpacesLitSpaces(lit), SpacesAnything);
    MatchSpec(pat, s);
    if Match(pat, s).Some? {
      var sp := Match(pat, s).value;
      FirstMatchBounds(pat, s, sp);
      GreedyProductStart(pat, s, sp);
      assert false;
    }
  }

  /** `<lit>\s+` is not found anywhere when the literal's first character occurs only at `a`, where the literal is not. */
  lemma LitLeadOnlyAt(lit: string, s: string, a: nat)
    requires lit != [] && a <= |s| && !LitAt(s, a, lit)
    requires forall x | 0 <= x < |s| && x != a :: s[x] != lit[0]
    ensures forall i | 1 <= i <= |s| :: LeadEnd(LitSpaces(lit), s, i).None?
  {
    forall i | 1 <= i <= |s| && i != a
      ensures !LitAt(s, i, lit)
    {
      if i < |s| {
        assert s[i + 0] != lit[0];
      }
    }
  }

  // ---------------------------------------------------------------------
  // Prompts assembled from pieces

  /** What a tail consumes in its plainest form: one space before a literal, or the literal itself. */
  function TailText(tail: Tail): string {
    match tail
    case SpacesAnything => " "
    case SpacesLit(lit) => " " + lit
    case LitOptional(lit, _) => lit
  }

  /** The tails of the four phrasings: a literal after `\s+` starts with a non-space character, one without starts with a space. */
  predicate TailWellFormed(tail: Tail) {
    match tail
    case SpacesAnything => true
    case SpacesLit(lit) => lit != [] && !IsSpace(lit[0])
    case LitOptional(lit, _) => lit != [] && IsSpace(lit[0])
  }

  /** The tail matches where its plainest text occurs. */
  lemma TailTextMatches(tail: Tail, s: string, p: nat)
    requires TailWellFormed(tail) && p <= |s| && LitAt(s, p, TailText(tail))
    ensures TailMatches(tail, s, p)
  {
    match tail
    case SpacesAnything =>
      LitAtIndex(s, p, TailText(tail), 0);
    case SpacesLit(lit) =>
      LitAtIndex(s, p, TailText(tail), 0);
      LitAtIndex(s, p, TailText(tail), 1);
      RunEndOfSpaces(s, p, 1);
      assert LitAt(s, p + 1, lit) by {
        forall t | 0 <= t < |lit|
          ensures s[p + 1 + t] == lit[t]
        {
          assert s[p + (1 + t)] == TailText(tail)[1 + t];
        }
      }
      SpacesLitTail(s, lit, p);
    case LitOptional(lit, _) =>
  }

  /** `s` is the concatenation of the six pieces, each found at its offset. */
  predicate Pieces(s: string, a: string, b: string, c: string, d: string, e: string, f: string) {
    && |s| == |a| + |b| + |c| + |d| + |e| + |f|
    && LitAt(s, 0, a) && LitAt(s, |a|, b) && LitAt(s, |a| + |b|, c)
    && LitAt(s, |a| + |b| + |c|, d) && LitAt(s, |a| + |b| + |c| + |d|, e)
    && LitAt(s, |a| + |b| + |c| + |d| + |e|, f)
  }

  /** A concatenation has its pieces at their offsets. */
  lemma PiecesOfConcat(a: string, b: string, c: string, d: string, e: string, f: string)
    ensures Pieces(a + b + c + d + e + f, a, b, c, d, e, f)
  {
  }

  /** The `t`-th character of a literal found at `k`. */
  lemma LitAtIndex(s: string, k: nat, w: string, t: nat)
    requires LitAt(s, k, w) && t < |w|
    ensures s[k + t] == w[t]
  {
  }

  /** No character of the piece at offset `k` differs from the (absent) character `c`. */
  lemma PieceLacks(s: string, k: nat, w: string, c: char)
    requires LitAt(s, k, w) && c !in w
    ensures forall x | k <= x < k + |w| :: s[x] != c
  {
    forall x | k <= x < k + |w|
      ensures s[x] != c
    {
      assert s[k + (x - k)] == w[x - k];
    }
  }

  /** A character absent from all six pieces is absent from the string they make up. */
  lemma PiecesLack(s: string, a: string, b: string, c: string, d: string, e: string, f: string, ch: char)
    requires Pieces(s, a, b, c, d, e, f)
    requires ch !in a && ch !in b && ch !in c && ch !in d && ch !in e && ch !in f
    ensures ch !in s
  {
    PieceLacks(s, 0, a, ch);
    PieceLacks(s, |a|, b, ch);
    PieceLacks(s, |a| + |b|, c, ch);
    PieceLacks(s, |a| + |b| + |c|, d, ch);
    PieceLacks(s, |a| + |b| + |c| + |d|, e, ch);
    PieceLacks(s, |a| + |b| + |c| + |d| + |e|, f, ch);
    assert forall x | 0 <= x < |s| :: s[x] != ch;
  }

  /** The whole piece at offset `k` consists of non-space characters. */
  lemma PieceIsWord(s: string, k: nat, w: string)
    requires LitAt(s, k, w) && Word(w)
    ensures forall x | k <= x < k + |w| :: !IsSpace(s[x])
  {
    forall x | k <= x < k + |w|
      ensures !IsSpace(s[x])
    {
      assert s[k + (x - k)] == w[x - k];
    }
  }

  /**
   * `<loc><lit> <prod><tail>…` matches `(?P<location>.+?)<lit>\s+(?P<product>.+?)<tail>`
   * with `loc` and `prod` as the groups, when neither contains whitespace
   * and `loc` does not contain the literal's first character.
   */
  lemma LitLeadMatch(pat: Pattern, s: string, loc: string, prod: string, rest: string)
    requires pat.lead.LitSpaces? && pat.lead.lit != [] && TailWellFormed(pat.tail)
    requires Word(loc) && pat.lead.lit[0] !in loc && Word(prod)
    requires Pieces(s, loc, pat.lead.lit, " ", prod, TailText(pat.tail), rest)
    ensures Match(pat, s) == Some(Split(|loc|, |loc| + |pat.lead.lit| + 1, |loc| + |pat.lead.lit| + 1 + |prod|))
  {
    LitLeadFirstMatch(pat.lead.lit, pat.tail, s, loc, prod, rest);
    MatchIsFirstMatch(pat, s, Split(|loc|, |loc| + |pat.lead.lit| + 1, |loc| + |pat.lead.lit| + 1 + |prod|));
  }

  /** The split `LitLeadMatch` reports is the first match. */
  lemma LitLeadFirstMatch(lit: string, tail: Tail, s: string, loc: string, prod: string, rest: string)
    requires lit != [] && TailWellFormed(tail)
    requires Word(loc) && lit[0] !in loc && Word(prod)
    requires Pieces(s, loc, lit, " ", prod, TailText(tail), rest)
    ensures IsFirstMatch(Pattern(LitSpaces(lit), tail), s, Split(|loc|, |loc| + |lit| + 1, |loc| + |lit| + 1 + |prod|))
  {
    var b := |loc| + |lit| + 1;
    LitAtIndex(s, b, prod, 0);
    LitLocationShape(lit, s, loc);
    ProductShapeOfPieces(tail, s, b, prod);
    FirstMatchOfShape(Pattern(LitSpaces(lit), tail), s, |loc|, b, b + |prod|);
  }

  /** `<loc><lit> ` followed by a non-space character is the location part for a literal lead. */
  lemma LitLocationShape(lit: string, s: string, loc: string)
    requires lit != [] && Word(loc) && lit[0] !in loc
    requires LitAt(s, 0, loc) && LitAt(s, |loc|, lit) && LitAt(s, |loc| + |lit|, " ")
    requires |loc| + |lit| + 1 < |s| && !IsSpace(s[|loc| + |lit| + 1])
    ensures LocationShape(LitSpaces(lit), s, |loc|, |loc| + |lit| + 1)
  {
    var a := |loc|;
    PieceIsWord(s, 0, loc);
    PieceLacks(s, 0, loc, lit[0]);
    assert NoNewline(s, 0, a);
    LitLeadAbsentBefore(lit, s, a);
    LitAtIndex(s, a + |lit|, " ", 0);
    RunEndOfSpaces(s, a + |lit|, 1);
  }

  /** `<prod><tail>` at `b` is the product part. */
  lemma ProductShapeOfPieces(tail: Tail, s: string, b: nat, prod: string)
    requires TailWellFormed(tail) && Word(prod)
    requires LitAt(s, b, prod) && LitAt(s, b + |prod|, TailText(tail))
    ensures ProductShape(tail, s, b, b + |prod|)
  {
    PieceIsWord(s, b, prod);
    TailTextMatches(tail, s, b + |prod|);
  }

  /** The front part of a literal found at `k`. */
  lemma LitAtFront(s: string, k: nat, u: string, v: string)
    requires LitAt(s, k, u + v)
    ensures LitAt(s, k, u)
  {
    forall t | 0 <= t < |u|
      ensures s[k + t] == u[t]
    {
      assert s[k + t] == (u + v)[t];
    }
  }

  /**
   * `<loc> <lit> <prod><tail>…` matches `(?P<location>.+?)\s+<lit>\s+(?P<product>.+?)<tail>`
   * with `loc` and `prod` as the groups, when neither contains whitespace.
   */
  lemma SpacedLeadMatch(pat: Pattern, s: string, loc: string, prod: string, rest: string)
    requires pat.lead.SpacesLitSpaces? && pat.lead.lit != [] && !IsSpace(pat.lead.lit[0]) && TailWellFormed(pat.tail)
    requires Word(loc) && Word(prod)
    requires Pieces(s, loc, " ", pat.lead.lit, " ", prod, TailText(pat.tail) + rest)
    ensures Match(pat, s) == Some(Split(|loc|, |loc| + |pat.lead.lit| + 2, |loc| + |pat.lead.lit| + 2 + |prod|))
  {
    SpacedLeadFirstMatch(pat.lead.lit, pat.tail, s, loc, prod, rest);
    MatchIsFirstMatch(pat, s, Split(|loc|, |loc| + |pat.lead.lit| + 2, |loc| + |pat.lead.lit| + 2 + |prod|));
  }

  /** The split `SpacedLeadMatch` reports is the first match. */
  lemma SpacedLeadFirstMatch(lit: string, tail: Tail, s: string, loc: string, prod: string, rest: string)
    requires lit != [] && !IsSpace(lit[0]) && TailWellFormed(tail)
    requires Word(loc) && Word(prod)
    requires Pieces(s, loc, " ", lit, " ", prod, TailText(tail) + rest)
    ensures IsFirstMatch(Pattern(SpacesLitSpaces(lit), tail), s, Split(|loc|, |loc| + |lit| + 2, |loc| + |lit| + 2 + |prod|))
  {
    var b := |loc| + |lit| + 2;
    LitAtIndex(s, b, prod, 0);
    SpacedLocationShape(lit, s, loc);
    LitAtFront(s, b + |prod|, TailText(tail), rest);
    ProductShapeOfPieces(tail, s, b, prod);
    FirstMatchOfShape(Pattern(SpacesLitSpaces(lit), tail), s, |loc|, b, b + |prod|);
  }

  /** `<loc> <lit> ` followed by a non-space character is the location part for a spaced lead. */
  lemma SpacedLocationShape(lit: string, s: string, loc: string)
    requires lit != [] && !IsSpace(lit[0]) && Word(loc)
    requires LitAt(s, 0, loc) && LitAt(s, |loc|, " ") && LitAt(s, |loc| + 1, lit) && LitAt(s, |loc| + 1 + |lit|, " ")
    requires |loc| + |lit| + 2 < |s| && !IsSpace(s[|loc| + |lit| + 2])
    ensures LocationShape(SpacesLitSpaces(lit), s, |loc|, |loc| + |lit| + 2)
  {
    var a := |loc|;
    PieceIsWord(s, 0, loc);
    assert NoNewline(s, 0, a);
    SpacedLeadAbsentBefore(lit, s, a);
    LitAtIndex(s, a, " ", 0);
    SpacedLeadAt(lit, s, a, 1);
    LitAtIndex(s, a + 1 + |lit|, " ", 0);
    RunEndOfSpaces(s, a + 1 + |lit|, 1);
  }
}
