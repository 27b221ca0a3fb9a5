/** First-registered-wins, whole-segment matching over a set of regular
    expressions, and the builder that accumulates the expressions and their slots.

    The regular-expression engine is foreign code: its syntax, its Unicode handling
    and its matching algorithm are not modelled. It appears as an `Engine` value
    whose functions say which patterns compile, which patterns match somewhere in
    a segment, and where the leftmost match of a pattern lies. Every property below
    holds for every engine. */
module Pattern {
  import opened Strategies

  /** Where a match lies in the segment: `[start, end)`, counted in characters,
      the unit of `|segment|`. */
  datatype Span = Span(start: nat, end: nat)

  /** The foreign regular-expression engine, left uninterpreted.
      - `compilesSet(ps)`: compiling all of `ps` into one pattern set succeeds;
      - `compiles(p)`: compiling `p` on its own succeeds;
      - `isMatch(p, h)`: `p` matches somewhere in `h` (membership in the set's matches);
      - `find(p, h)`: the leftmost match of `p` in `h`, if any, as character offsets into `h`. */
  datatype Engine = Engine(
    compilesSet: seq<string> -> bool,
    compiles: string -> bool,
    isMatch: (string, string) -> bool,
    find: (string, string) -> Option<Span>)

  /** One compiled expression, known by its source text. */
  datatype Regex = Regex(source: string)

  /** A failed compilation; the engine's diagnostic is not modelled. */
  datatype BuildError = PatternCompilationError

  datatype Result<T> = Success(value: T) | Failure(error: BuildError)

  /** The built strategy: the compiled set, one compiled expression per pattern,
      and the slot of each pattern, all indexed alike. */
  datatype RegexStrategy = RegexStrategy(
    engine: Engine, regexSet: seq<string>, regexes: seq<Regex>, table: seq<Slot>)
  {
    /** Index `i` of the set, of the expressions and of the table refer to one registration. */
    predicate Valid() {
      |regexes| == |regexSet| == |table|
      && forall i :: 0 <= i < |regexes| ==> regexes[i].source == regexSet[i]
    }
  }

  // ---------------------------------------------------------------------------
  // The builder
  // ---------------------------------------------------------------------------

  /** Accumulates `(pattern, slot)` registrations in insertion order. */
  class RegexStrategyBuilder {
    var patterns: seq<string>
    var table: seq<Slot>

    /** The two lists grow in lockstep: pattern `i` is registered with slot `i`. */
    predicate Valid()
      reads this
    {
      |patterns| == |table|
    }

    /** A fresh builder has no registrations. */
    constructor ()
      ensures Valid()
      ensures patterns == [] && table == []
    {
      patterns := [];
      table := [];
    }

    /** Registers one pattern with its slot; never fails. Returns the builder for chaining. */
    method Add(pattern: string, slot: Slot) returns (self: RegexStrategyBuilder)
      requires Valid()
      modifies this
      ensures Valid() && self == this
      ensures patterns == old(patterns) + [pattern]
      ensures table == old(table) + [slot]
    {
      patterns := patterns + [pattern];
      table := table + [slot];
      self := this;
    }

    /** Compiles the registrations: first the whole set, then each pattern on its own,
        stopping at the first failure. Either every pattern compiles and the strategy
        keeps the patterns in insertion order with the table unchanged, or there is
        no strategy at all. */
    method Build(engine: Engine) returns (r: Result<RegexStrategy>)
      requires Valid()
      ensures r.Success? <==>
        engine.compilesSet(patterns) && forall i :: 0 <= i < |patterns| ==> engine.compiles(patterns[i])
      ensures r.Success? ==>
        r.value.Valid() && r.value.engine == engine
        && r.value.regexSet == patterns && r.value.table == table
    {
      if !engine.compilesSet(patterns) {
        return Failure(PatternCompilationError);
      }
      var regexes: seq<Regex> := [];
      var i := 0;
      while i < |patterns|
        invariant 0 <= i <= |patterns| && |regexes| == i
        invariant forall j :: 0 <= j < i ==> regexes[j].source == patterns[j] && engine.compiles(patterns[j])
      {
        if !engine.compiles(patterns[i]) {
          return Failure(PatternCompilationError);
        }
        regexes := regexes + [Regex(patterns[i])];
        i := i + 1;
      }
      return Success(RegexStrategy(engine, patterns, regexes, table));
    }
  }

  // ---------------------------------------------------------------------------
  // Matching
  // ---------------------------------------------------------------------------

  /** The lowest index `i >= from` whose pattern matches somewhere in `segment`:
      the first item of the set's matches, which come in ascending index order. */
  function LowestMatch(engine: Engine, patterns: seq<string>, segment: string, from: nat): (r: Option<nat>)
    decreases |patterns| - from
    ensures r.Some? ==>
      from <= r.value < |patterns| && engine.isMatch(patterns[r.value], segment)
      && forall j :: from <= j < r.value ==> !engine.isMatch(patterns[j], segment)
    ensures r.None? ==> forall j :: from <= j < |patterns| ==> !engine.isMatch(patterns[j], segment)
  {
    if from >= |patterns| then None
    else if engine.isMatch(patterns[from], segment) then Some(from)
    else LowestMatch(engine, patterns, segment, from + 1)
  }

  /** The slot of the lowest-indexed pattern that matches somewhere, provided that
      pattern's leftmost match covers the whole segment; otherwise no route. */
  function Match(st: RegexStrategy, segment: string): (r: Option<Slot>)
    requires st.Valid()
    ensures r.Some? ==> r.value in st.table
  {
    match LowestMatch(st.engine, st.regexSet, segment, 0)
    case None => None
    case Some(mtc) =>
      match st.engine.find(st.regexes[mtc].source, segment)
      case Some(m) => if m.start == 0 && m.end == |segment| then Some(st.table[mtc]) else None
      case None => None
  }

  /** `k` is the lowest-indexed pattern of `st` that matches somewhere in `segment`. */
  predicate FirstMatching(st: RegexStrategy, segment: string, k: nat) {
    k < |st.regexSet| && st.engine.isMatch(st.regexSet[k], segment)
    && forall j :: 0 <= j < k ==> !st.engine.isMatch(st.regexSet[j], segment)
  }

  /** `p`'s leftmost match in `segment` is all of `segment`. */
  predicate SpansWhole(engine: Engine, p: string, segment: string) {
    engine.find(p, segment) == Some(Span(0, |segment|))
  }

  // ---------------------------------------------------------------------------
  // Properties
  // ---------------------------------------------------------------------------

  /** Only the lowest-indexed matching pattern is considered: its slot is the answer
      when its leftmost match spans the whole segment, and otherwise there is no
      route, whatever later patterns would do. */
  lemma MatchFirstOnly(st: RegexStrategy, segment: string, k: nat)
    requires st.Valid() && FirstMatching(st, segment, k)
    ensures SpansWhole(st.engine, st.regexSet[k], segment) ==> Match(st, segment) == Some(st.table[k])
    ensures !SpansWhole(st.engine, st.regexSet[k], segment) ==> Match(st, segment) == None
  {
  }

  /** No pattern matching anywhere means no route. */
  lemma MatchNoneWithoutCandidates(st: RegexStrategy, segment: string)
    requires st.Valid()
    requires forall j :: 0 <= j < |st.regexSet| ==> !st.engine.isMatch(st.regexSet[j], segment)
    ensures Match(st, segment) == None
  {
  }

  /** A returned slot is the slot of the lowest-indexed matching pattern, and that
      pattern's leftmost match is the whole segment. */
  lemma MatchSound(st: RegexStrategy, segment: string, t: Slot)
    requires st.Valid() && Match(st, segment) == Some(t)
    ensures exists k: nat :: (FirstMatching(st, segment, k)
      && SpansWhole(st.engine, st.regexSet[k], segment) && t == st.table[k])
  {
  }

  /** No fall-through: when the first matching pattern covers only part of the
      segment, a later pattern that covers all of it is not consulted. */
  lemma NoFallThrough(st: RegexStrategy, segment: string, k: nat, l: nat)
    requires st.Valid() && FirstMatching(st, segment, k) && k < l < |st.regexSet|
    requires !SpansWhole(st.engine, st.regexSet[k], segment)
    requires st.engine.isMatch(st.regexSet[l], segment) && SpansWhole(st.engine, st.regexSet[l], segment)
    ensures Match(st, segment) == None
  {
  }

  // ---------------------------------------------------------------------------
  // The registrations of the module's own tests: `[a-z]{3}` then `[0-9]{3}`
  // ---------------------------------------------------------------------------

  const Letters: string := "[a-z]{3}"
  const Digits: string := "[0-9]{3}"

  /** `c` is in the character class of the example pattern `p`. */
  predicate InClass(p: string, c: char) {
    (p == Letters && 'a' <= c <= 'z') || (p == Digits && '0' <= c <= '9')
  }

  /** The leftmost run of three characters of `p`'s class at offset `i` or later. */
  function LeftmostRun(p: string, h: string, i: nat): (r: Option<Span>)
    decreases |h| - i
    ensures r.Some? ==> i <= r.value.start && r.value.end == r.value.start + 3 <= |h|
  {
    if i + 3 > |h| then None
    else if InClass(p, h[i]) && InClass(p, h[i + 1]) && InClass(p, h[i + 2]) then Some(Span(i, i + 3))
    else LeftmostRun(p, h, i + 1)
  }

  /** An engine that knows only the two example patterns. */
  function ExampleEngine(): Engine {
    Engine(
      ps => forall p <- ps :: p == Letters || p == Digits,
      p => p == Letters || p == Digits,
      (p, h) => LeftmostRun(p, h, 0).Some?,
      (p, h) => LeftmostRun(p, h, 0))
  }

  /** The strategy the tests build. */
  function ExampleStrategy(): (st: RegexStrategy)
    ensures st.Valid()
  {
    RegexStrategy(ExampleEngine(), [Letters, Digits], [Regex(Letters), Regex(Digits)], [Slot(0), Slot(1)])
  }

  /** Registering the two patterns and building keeps their order and their slots. */
  method ExampleBuild() returns (r: Result<RegexStrategy>)
    ensures r.Success? && r.value.regexSet == [Letters, Digits] && r.value.table == [Slot(0), Slot(1)]
    ensures r == Success(ExampleStrategy())
  {
    var b := new RegexStrategyBuilder();
    b := b.Add(Letters, Slot(0));
    b := b.Add(Digits, Slot(1));
    r := b.Build(ExampleEngine());
    assert r.value.regexes == [Regex(Letters), Regex(Digits)];
  }

  /** A registration the engine rejects (here an unbalanced group) means no strategy at all,
      even though the registration before it compiles. */
  method ExampleBuildInvalid() returns (r: Result<RegexStrategy>)
    ensures r.Failure?
  {
    var b := new RegexStrategyBuilder();
    b := b.Add(Letters, Slot(0));
    var unbalanced := "([0-9]{3}";
    b := b.Add(unbalanced, Slot(1));
    assert unbalanced[0] != Letters[0] && unbalanced[0] != Digits[0];
    assert unbalanced in b.patterns;
    assert !ExampleEngine().compilesSet(b.patterns);
    r := b.Build(ExampleEngine());
  }

  /** Three letters route to slot 0, three digits to slot 1. */
  lemma ExampleWholeSegments()
    ensures Match(ExampleStrategy(), "abc") == Some(Slot(0))
    ensures Match(ExampleStrategy(), "xyz") == Some(Slot(0))
    ensures Match(ExampleStrategy(), "123") == Some(Slot(1))
    ensures Match(ExampleStrategy(), "789") == Some(Slot(1))
  {
  }

  /** Anything else has no route, including a segment whose first three characters match. */
  lemma ExampleNoRoute()
    ensures Match(ExampleStrategy(), "ab1") == None
    ensures Match(ExampleStrategy(), "abcd") == None
    ensures Match(ExampleStrategy(), "1234") == None
    ensures Match(ExampleStrategy(), "") == None
  {
  }
}
