/** Longest-specific-suffix matching of hostnames against registered domain
    suffixes, respecting the dot-separated label hierarchy.

    The multi-pattern substring automaton is replaced by its specification:
    `AllOccurrences` lists every place where a registered pattern occurs in the
    input. `Match` is then the same pipeline as the source: keep the occurrences
    that end at the end of the input, keep those that start at offset 0 or right
    after a `.`, take the one with the smallest start, and look its pattern index
    up in the table. */
module DomainLevels {
  import opened Strategies

  /** A hostname or a registered domain suffix, one character per byte. */
  type Host = seq<char>

  /** The byte that separates domain labels. */
  const LabelSeparator: char := '.'

  /** One report of the substring search: pattern number `pattern` found at `[start, end)`. */
  datatype Occurrence = Occurrence(pattern: nat, start: nat, end: nat)

  /** The compiled matcher: its patterns (in pattern-index order) and the slot of each. */
  datatype DomainLevelsStrategy = DomainLevelsStrategy(patterns: seq<Host>, table: seq<Slot>)
  {
    /** Every pattern index the matcher can report has a slot. */
    predicate Valid() {
      |table| == |patterns|
    }
  }

  // ---------------------------------------------------------------------------
  // Specification of the search and of the intended selection
  // ---------------------------------------------------------------------------

  /** `m` is a genuine occurrence of one of `patterns` in `s`. */
  predicate IsOccurrence(patterns: seq<Host>, s: Host, m: Occurrence) {
    m.pattern < |patterns| && m.end == m.start + |patterns[m.pattern]| && m.end <= |s|
    && s[m.start..m.end] == patterns[m.pattern]
  }

  /** `p` is a suffix of `s` that begins at a label boundary: at the start of `s`
      or right after a separator. */
  predicate LabelSuffix(p: Host, s: Host) {
    |p| <= |s| && s[|s| - |p|..] == p
    && (|p| == |s| || s[|s| - |p| - 1] == LabelSeparator)
  }

  /** Pattern `k` is a label-aligned suffix of `s` and no registered pattern that
      is one too is longer: `k` is a most specific match for `s`. */
  predicate MostSpecific(patterns: seq<Host>, s: Host, k: nat) {
    k < |patterns| && LabelSuffix(patterns[k], s)
    && forall j :: 0 <= j < |patterns| && LabelSuffix(patterns[j], s) ==> |patterns[j]| <= |patterns[k]|
  }

  // ---------------------------------------------------------------------------
  // The search (abstracting the automaton)
  // ---------------------------------------------------------------------------

  /** Occurrences of patterns `k`, `k+1`, ... that start at offset `i`. */
  function OccurrencesAt(patterns: seq<Host>, s: Host, i: nat, k: nat): (r: seq<Occurrence>)
    decreases |patterns| - k
    ensures forall m :: m in r <==> IsOccurrence(patterns, s, m) && m.start == i && k <= m.pattern
  {
    if k >= |patterns| then []
    else
      var p := patterns[k];
      var here := if i + |p| <= |s| && s[i..i + |p|] == p then [Occurrence(k, i, i + |p|)] else [];
      here + OccurrencesAt(patterns, s, i, k + 1)
  }

  /** Occurrences that start at offset `i` or later, left to right. */
  function OccurrencesFrom(patterns: seq<Host>, s: Host, i: nat): (r: seq<Occurrence>)
    decreases |s| + 1 - i
    ensures forall m :: m in r <==> IsOccurrence(patterns, s, m) && i <= m.start
  {
    if i > |s| then [] else OccurrencesAt(patterns, s, i, 0) + OccurrencesFrom(patterns, s, i + 1)
  }

  /** Every occurrence of every pattern in `s`, and nothing else. */
  function AllOccurrences(patterns: seq<Host>, s: Host): (r: seq<Occurrence>)
    ensures forall m :: m in r <==> IsOccurrence(patterns, s, m)
  {
    OccurrencesFrom(patterns, s, 0)
  }

  // ---------------------------------------------------------------------------
  // The pipeline of `match`
  // ---------------------------------------------------------------------------

  /** First filter: the occurrence must end where the hostname ends. */
  function EndAligned(s: Host, occs: seq<Occurrence>): (r: seq<Occurrence>)
    ensures forall m :: m in r <==> m in occs && m.end == |s|
  {
    if occs == [] then []
    else (if occs[0].end == |s| then [occs[0]] else []) + EndAligned(s, occs[1..])
  }

  /** Second filter: the occurrence must start the hostname or follow a separator.
      The requires is why the read of the byte before the start is in bounds:
      it is only made when the start is not 0, and the start is at most the end,
      which the first filter fixed at the length of the hostname. */
  function LabelAligned(s: Host, occs: seq<Occurrence>): (r: seq<Occurrence>)
    requires forall m :: m in occs ==> m.start <= m.end == |s|
    ensures forall m :: m in r <==> m in occs && (m.start == 0 || s[m.start - 1] == LabelSeparator)
  {
    if occs == [] then []
    else
      var m := occs[0];
      (if m.start == 0 || s[m.start - 1] == LabelSeparator then [m] else []) + LabelAligned(s, occs[1..])
  }

  /** The first occurrence with the smallest start, as an iterator's `min_by` on starts. */
  function MinByStart(occs: seq<Occurrence>): (r: Option<Occurrence>)
    ensures r.None? <==> occs == []
    ensures r.Some? ==> r.value in occs && forall m :: m in occs ==> r.value.start <= m.start
    ensures r.Some? ==> exists i :: (0 <= i < |occs| && occs[i] == r.value
      && forall j :: 0 <= j < i ==> r.value.start < occs[j].start)
  {
    if occs == [] then None
    else match MinByStart(occs[1..])
      case None => Some(occs[0])
      case Some(best) => if best.start < occs[0].start then Some(best) else Some(occs[0])
  }

  /** An occurrence passes both filters exactly when its pattern is a label-aligned
      suffix and the occurrence is that suffix. */
  lemma PassesFilters(patterns: seq<Host>, s: Host, m: Occurrence)
    ensures (IsOccurrence(patterns, s, m) && m.end == |s| && (m.start == 0 || s[m.start - 1] == LabelSeparator))
      <==> (m.pattern < |patterns| && LabelSuffix(patterns[m.pattern], s)
            && m.end == |s| && m.start == |s| - |patterns[m.pattern]|)
  {
  }

  /** The occurrences that survive both filters: exactly the label-aligned suffix
      occurrences of registered patterns. */
  function Candidates(patterns: seq<Host>, s: Host): (r: seq<Occurrence>)
    ensures forall m :: m in r <==>
      m.pattern < |patterns| && LabelSuffix(patterns[m.pattern], s)
      && m.end == |s| && m.start == |s| - |patterns[m.pattern]|
  {
    var r := LabelAligned(s, EndAligned(s, AllOccurrences(patterns, s)));
    forall m: Occurrence
      ensures m in r <==> (m.pattern < |patterns| && LabelSuffix(patterns[m.pattern], s)
                           && m.end == |s| && m.start == |s| - |patterns[m.pattern]|)
    {
      PassesFilters(patterns, s, m);
    }
    r
  }

  /** The occurrence `match` selects, before the table lookup. */
  function Selected(patterns: seq<Host>, s: Host): (r: Option<Occurrence>)
    ensures r.Some? ==> r.value.pattern < |patterns|
  {
    MinByStart(Candidates(patterns, s))
  }

  /** The slot of the most specific registered suffix of `s`, if any.
      The source passes the strategy itself to the search where the hostname is
      meant; every filter after it refers to the hostname, and so does this model. */
  function Match(d: DomainLevelsStrategy, s: Host): (r: Option<Slot>)
    requires d.Valid()
    ensures r.Some? ==> r.value in d.table
  {
    match Selected(d.patterns, s)
    case None => None
    case Some(m) => Some(d.table[m.pattern])
  }

  // ---------------------------------------------------------------------------
  // Properties
  // ---------------------------------------------------------------------------

  /** No route exactly when no registered pattern is a label-aligned suffix. */
  lemma MatchNoneIff(d: DomainLevelsStrategy, s: Host)
    requires d.Valid()
    ensures Match(d, s).None? <==> forall k :: 0 <= k < |d.patterns| ==> !LabelSuffix(d.patterns[k], s)
  {
    var P := d.patterns;
    if k :| 0 <= k < |P| && LabelSuffix(P[k], s) {
      assert Occurrence(k, |s| - |P[k]|, |s|) in Candidates(P, s);
    }
  }

  /** A returned slot belongs to a pattern that ends at the end of the hostname,
      starts at a label boundary, and is at least as long as every other such pattern. */
  lemma MatchSound(d: DomainLevelsStrategy, s: Host, t: Slot)
    requires d.Valid() && Match(d, s) == Some(t)
    ensures exists k: nat :: MostSpecific(d.patterns, s, k) && t == d.table[k]
  {
    var P := d.patterns;
    var m := Selected(P, s).value;
    forall j | 0 <= j < |P| && LabelSuffix(P[j], s)
      ensures |P[j]| <= |P[m.pattern]|
    {
      assert Occurrence(j, |s| - |P[j]|, |s|) in Candidates(P, s);
    }
    assert MostSpecific(P, s, m.pattern);
  }

  /** Two most specific patterns for the same hostname have the same text, so the
      choice between them can only ever be between duplicates. */
  lemma MostSpecificUnique(patterns: seq<Host>, s: Host, j: nat, k: nat)
    requires MostSpecific(patterns, s, j) && MostSpecific(patterns, s, k)
    ensures patterns[j] == patterns[k]
  {
  }

  /** No other registered pattern has the same text as pattern `k`. */
  predicate UniquePattern(patterns: seq<Host>, k: nat)
    requires k < |patterns|
  {
    forall i :: 0 <= i < |patterns| && i != k ==> patterns[i] != patterns[k]
  }

  /** When the most specific pattern is registered once, its slot is the answer. */
  lemma MatchMostSpecific(d: DomainLevelsStrategy, s: Host, k: nat)
    requires d.Valid() && MostSpecific(d.patterns, s, k) && UniquePattern(d.patterns, k)
    ensures Match(d, s) == Some(d.table[k])
  {
    MatchNoneIff(d, s);
    var t := Match(d, s).value;
    MatchSound(d, s, t);
    var j: nat :| MostSpecific(d.patterns, s, j) && t == d.table[j];
    MostSpecificUnique(d.patterns, s, j, k);
  }

  /** A pattern equal to the whole hostname always qualifies (the start-0 case),
      and it is then the most specific; registered once, its slot is returned. */
  lemma ExactMatch(d: DomainLevelsStrategy, s: Host, k: nat)
    requires d.Valid() && k < |d.patterns| && d.patterns[k] == s
    ensures MostSpecific(d.patterns, s, k)
    ensures UniquePattern(d.patterns, k) ==> Match(d, s) == Some(d.table[k])
  {
    assert s[0..] == s;
    assert MostSpecific(d.patterns, s, k);
    if UniquePattern(d.patterns, k) {
      MatchMostSpecific(d, s, k);
    }
  }

  /** A sub-domain `sub.p` of a registered `p` routes to `p` when the sub-domain
      itself is not registered. */
  lemma SubdomainMatchesParent(d: DomainLevelsStrategy, sub: Host, k: nat)
    requires d.Valid() && k < |d.patterns| && UniquePattern(d.patterns, k)
    requires sub != [] && LabelSeparator !in sub
    requires forall j :: 0 <= j < |d.patterns| ==> d.patterns[j] != sub + [LabelSeparator] + d.patterns[k]
    ensures Match(d, sub + [LabelSeparator] + d.patterns[k]) == Some(d.table[k])
  {
    var P, p := d.patterns, d.patterns[k];
    var s := sub + [LabelSeparator] + p;
    assert s[|s| - |p|..] == p;
    assert s[|s| - |p| - 1] == LabelSeparator;
    MatchMostSpecific(d, s, k);
  }

  /** A pattern preceded by anything other than a separator is not a match:
      a rule for `example.com` never routes `evilexample.com`. If that rule's slot
      is not shared with another rule, the slot is not returned. */
  lemma LabelBoundaryRespected(d: DomainLevelsStrategy, prefix: Host, k: nat)
    requires d.Valid() && k < |d.patterns|
    requires prefix != [] && prefix[|prefix| - 1] != LabelSeparator
    ensures !LabelSuffix(d.patterns[k], prefix + d.patterns[k])
    ensures (forall i :: 0 <= i < |d.table| && i != k ==> d.table[i] != d.table[k]) ==>
      Match(d, prefix + d.patterns[k]) != Some(d.table[k])
  {
  }

  // ---------------------------------------------------------------------------
  // The documented example: `www.example.com` and `example.com` registered
  // ---------------------------------------------------------------------------

  /** The strategy of the documented example. */
  function ExampleStrategy(): (d: DomainLevelsStrategy)
    ensures d.Valid()
  {
    DomainLevelsStrategy(["www.example.com", "example.com"], [Slot(0), Slot(1)])
  }

  /** `beispiel.de` has no route. */
  lemma ExampleUnregistered()
    ensures Match(ExampleStrategy(), "beispiel.de") == None
  {
    var d, s := ExampleStrategy(), "beispiel.de";
    assert s[|s| - |d.patterns[1]|..][0] != d.patterns[1][0];
    MatchNoneIff(d, s);
  }

  /** `example.com` routes to itself. */
  lemma ExampleExact()
    ensures Match(ExampleStrategy(), "example.com") == Some(Slot(1))
  {
    var d := ExampleStrategy();
    assert UniquePattern(d.patterns, 1) by { assert |d.patterns[0]| != |d.patterns[1]|; }
    ExactMatch(d, "example.com", 1);
  }

  /** `subdomain.example.com` routes to `example.com`. */
  lemma ExampleSubdomain()
    ensures Match(ExampleStrategy(), "subdomain.example.com") == Some(Slot(1))
  {
    var d := ExampleStrategy();
    assert "subdomain" + [LabelSeparator] + d.patterns[1] == "subdomain.example.com";
    SubdomainMatchesParent(d, "subdomain", 1);
  }

  /** `www.example.com` routes to itself, not to the shorter `example.com`. */
  lemma ExampleMostSpecific()
    ensures Match(ExampleStrategy(), "www.example.com") == Some(Slot(0))
  {
    var d := ExampleStrategy();
    assert UniquePattern(d.patterns, 0) by { assert |d.patterns[0]| != |d.patterns[1]|; }
    ExactMatch(d, "www.example.com", 0);
  }
}
