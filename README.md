# Routing strategies of `bolt_router`, modelled in Dafny

The router resolves a request attribute (a hostname, or a path or header segment)
to a `Slot`: an opaque index into an external routing table. Two strategies do the
resolution, and this project models both of them.

- **Domain levels** (`domain_levels.dfy`, module `DomainLevels`). A hostname is
  matched against registered domain suffixes. A suffix counts only if it ends where
  the hostname ends and starts at offset 0 or right after a `.`. Among the suffixes
  that count, the one with the smallest start wins, which is the longest and so the
  most specific. The substring automaton is replaced by its specification:
  `AllOccurrences` yields every place where a pattern occurs. `Match` is the source's
  pipeline over that list: two filters, a first-minimum on the start, and a table
  lookup. The lemmas tie `Match` to the intended selection rule, stated directly as
  `LabelSuffix` and `MostSpecific`.
- **Regex set** (`pattern.dfy`, module `Pattern`). The builder is a class whose
  `Add` appends to two sequences in lockstep. `Build` compiles the whole set, then
  compiles each pattern, and stops at the first failure. `Match` takes the
  lowest-indexed pattern that matches anywhere in the segment. It accepts that
  pattern only if its leftmost match covers the whole segment, and never falls
  through to a later pattern. The regular-expression engine is a parameter
  (`Engine`), so every property is proved for any engine. A small engine that knows
  only the two patterns of the module's tests restates those tests.
- `strategies.dfy` (module `Strategies`) holds stand-ins for `Slot` and for the
  optional result. Their definitions live in the strategies module root, which is
  not part of this model.

Dafny functions cannot have side effects. So both `Match` functions are
deterministic, and calling them changes no state, which is the purity the `Strategy`
contract asks of `match`.

A note on `crates/bolt_router/src/strategies/domain_levels.rs:27`: the source calls
`find_iter(self)`, so it searches the strategy value rather than the hostname
`string`. The comments and both filters on lines 28-33 are about `string`, so
searching `string` is evidently what was meant. The model searches the hostname.
Passing `self` does not type-check unless the strategy implements `AsRef<[u8]>`,
and neither source file shown here does. So there is no as-written behaviour to model next
to the corrected one.

## Model

| member | source | states |
|---|---|---|
| DomainLevels.OccurrencesAt | crates/bolt_router/src/strategies/domain_levels.rs:27 | at one start offset, reports exactly the occurrences of patterns from a given index on |
| DomainLevels.OccurrencesFrom | crates/bolt_router/src/strategies/domain_levels.rs:27 | scanning left to right from a start offset, reports exactly the occurrences that start there or later |
| DomainLevels.AllOccurrences | crates/bolt_router/src/strategies/domain_levels.rs:27 | the search reports every occurrence of every registered pattern in the hostname, and nothing that is not one |
| DomainLevels.EndAligned | crates/bolt_router/src/strategies/domain_levels.rs:28-29 | keeps exactly the occurrences that end at the hostname's length |
| DomainLevels.LabelAligned | crates/bolt_router/src/strategies/domain_levels.rs:30-33 | keeps exactly the occurrences that start at 0 or right after a `.`; the byte before the start is read only when the start is not 0, and its requires (start ≤ end = length) proves that read in bounds |
| DomainLevels.MinByStart | crates/bolt_router/src/strategies/domain_levels.rs:34-35 | the result is absent only for an empty list; otherwise it is a member of the list whose start is no larger than any other's, and no earlier element has the same start (the first minimum, as `min_by` keeps) |
| DomainLevels.PassesFilters | crates/bolt_router/src/strategies/domain_levels.rs:28-33 | an occurrence passes both filters if and only if its pattern is a label-aligned suffix and the occurrence is that suffix |
| DomainLevels.Candidates | crates/bolt_router/src/strategies/domain_levels.rs:28-33 | what survives both filters is exactly the label-aligned suffix occurrences of registered patterns |
| DomainLevels.Selected | crates/bolt_router/src/strategies/domain_levels.rs:27-35 | a selected occurrence names a registered pattern, so its table index exists |
| DomainLevels.Match | crates/bolt_router/src/strategies/domain_levels.rs:22-37 | requires the strategy's invariant (`DomainLevelsStrategy.Valid`: one table entry per pattern); under it the lookup is in bounds and a returned slot comes from the table |
| DomainLevels.MatchNoneIff | crates/bolt_router/src/strategies/domain_levels.rs:35-36 | no route if and only if no registered pattern is a label-aligned suffix of the hostname |
| DomainLevels.MatchSound | crates/bolt_router/src/strategies/domain_levels.rs:29-36 | a returned slot is the slot of a pattern that is a suffix, starts at a label boundary, and is at least as long as every other such pattern |
| DomainLevels.MostSpecificUnique | crates/bolt_router/src/strategies/domain_levels.rs:34-35 | two most specific patterns for one hostname have the same text, so only duplicates can tie |
| DomainLevels.MatchMostSpecific | crates/bolt_router/src/strategies/domain_levels.rs:34-36 | when the most specific pattern is registered once, its slot is returned |
| DomainLevels.ExactMatch | crates/bolt_router/src/strategies/domain_levels.rs:31 | a pattern equal to the whole hostname always qualifies through the start-0 case and is most specific, duplicates or not; if it is registered once, its slot is returned |
| DomainLevels.SubdomainMatchesParent | crates/bolt_router/src/strategies/domain_levels.rs:32-33 | `sub.p`, with `sub` a dot-free label and `sub.p` itself unregistered, routes to the registered `p` |
| DomainLevels.LabelBoundaryRespected | crates/bolt_router/src/strategies/domain_levels.rs:30-33 | for every registered `p`, `prefix + p` with a non-empty prefix not ending in `.` does not qualify for `p`; when no other pattern shares `p`'s slot, that slot is not returned |
| DomainLevels.ExampleStrategy | crates/bolt_router/src/strategies/domain_levels.rs:5-7 | the documented registrations `www.example.com` and `example.com` form a valid strategy |
| DomainLevels.ExampleUnregistered | crates/bolt_router/src/strategies/domain_levels.rs:13 | `beispiel.de` has no route |
| DomainLevels.ExampleExact | crates/bolt_router/src/strategies/domain_levels.rs:14 | `example.com` routes to `example.com` |
| DomainLevels.ExampleSubdomain | crates/bolt_router/src/strategies/domain_levels.rs:15 | `subdomain.example.com` routes to `example.com` |
| DomainLevels.ExampleMostSpecific | crates/bolt_router/src/strategies/domain_levels.rs:16 | `www.example.com` routes to `www.example.com`, not to the shorter `example.com` |
| Pattern.RegexStrategyBuilder.constructor | crates/bolt_router/src/strategies/pattern.rs:9-13 | a fresh builder has no patterns and no slots |
| Pattern.RegexStrategyBuilder.Add | crates/bolt_router/src/strategies/pattern.rs:47-51 | appends the pattern and the slot at the same index, keeps the lockstep invariant `RegexStrategyBuilder.Valid` (as many slots as patterns, fields at pattern.rs:10-13), leaves earlier entries unchanged, and returns the builder |
| Pattern.RegexStrategyBuilder.Build | crates/bolt_router/src/strategies/pattern.rs:33-45 | succeeds if and only if the set compiles and every pattern compiles; on success the strategy keeps the patterns in insertion order and the table unchanged, and satisfies `RegexStrategy.Valid` (set, expressions and table indexed alike, fields at pattern.rs:3-7) |
| Pattern.LowestMatch | crates/bolt_router/src/strategies/pattern.rs:19 | yields the lowest index whose pattern matches somewhere, or nothing exactly when no pattern matches |
| Pattern.Match | crates/bolt_router/src/strategies/pattern.rs:18-26 | a returned slot comes from the table |
| Pattern.MatchFirstOnly | crates/bolt_router/src/strategies/pattern.rs:19-25 | given the lowest-indexed matching pattern, the result is its slot when its leftmost match spans the whole segment, and no route otherwise |
| Pattern.MatchNoneWithoutCandidates | crates/bolt_router/src/strategies/pattern.rs:19 | no pattern matching anywhere gives no route |
| Pattern.MatchSound | crates/bolt_router/src/strategies/pattern.rs:22-25 | a returned slot is the table entry of the lowest-indexed matching pattern, whose leftmost match is exactly `[0, length)` |
| Pattern.NoFallThrough | crates/bolt_router/src/strategies/pattern.rs:19-25 | when the first matching pattern covers only part of the segment, there is no route even if a later pattern covers all of it |
| Pattern.ExampleStrategy | crates/bolt_router/src/strategies/pattern.rs:93-97 | the tests' strategy (`[a-z]{3}` with slot 0, `[0-9]{3}` with slot 1) is valid |
| Pattern.ExampleBuild | crates/bolt_router/src/strategies/pattern.rs:77-89 | adding the two patterns and building succeeds, with the patterns in order and the table `[Slot(0), Slot(1)]` |
| Pattern.ExampleBuildInvalid | crates/bolt_router/src/strategies/pattern.rs:35-42 | a registration the engine rejects makes the whole build fail, even after a registration that compiles |
| Pattern.ExampleWholeSegments | crates/bolt_router/src/strategies/pattern.rs:99-102 | `abc` and `xyz` route to slot 0; `123` and `789` route to slot 1 |
| Pattern.ExampleNoRoute | crates/bolt_router/src/strategies/pattern.rs:104-107 | `ab1`, `abcd`, `1234` and the empty segment have no route |

## Left out

- The Aho-Corasick automaton is replaced by the list of all occurrences; this is an abstraction gap, not a modelled behaviour. The real `find_iter` (domain_levels.rs:27) reports only non-overlapping matches and resumes the search after each one it reports. So an overlapping occurrence reported earlier, suffix or not, can hide any qualifying suffix, under every match kind. Example: patterns `co.uk` and `example.co` with hostname `example.co.uk`. The search reports only `example.co` at [0, 10), the end filter drops it, and the source returns no route. The model returns the slot of `co.uk`. Likewise, with `x.b`, `b.c.d` and `c.d` registered, `x.b.c.d` gets the less specific `c.d` from the source and `b.c.d` from the model. Under the default match kind, registering `example.co` next to `example.co.uk` can even lose the exact match `example.co.uk`. DomainLevels.MatchNoneIff, DomainLevels.MatchSound, DomainLevels.MatchMostSpecific, DomainLevels.ExactMatch, DomainLevels.SubdomainMatchesParent and the example lemmas are facts about matching over all occurrences, which is the behaviour the comments on lines 28-35 describe. They are not facts about `find_iter`'s non-overlapping reports.
- Duplicate domain patterns: the model takes the first most-specific occurrence in its own enumeration order, by start and then by pattern index. The source leaves that choice to the automaton, so no lemma states the tie-break.
- DomainLevels.MatchMostSpecific: requires the most specific pattern's text to be registered once, because among duplicates the slot is chosen by the automaton.
- DomainLevels.ExactMatch: states the returned slot only when the pattern is registered once, for the same reason; that the pattern qualifies and is most specific is stated unconditionally.
- DomainLevels.SubdomainMatchesParent: requires the parent to be registered once and the sub-domain itself not to be registered.
- DomainLevels.LabelBoundaryRespected: states that the slot is not returned only when no other pattern shares that slot. A shared slot may be returned legitimately through the other pattern. That the pattern does not qualify is stated unconditionally.
- Hostnames are sequences of characters, one character per byte. Hostnames with multi-byte UTF-8 characters are not modelled.
- Regex segments are sequences of characters, and a `Span` counts characters, in the same unit as `|segment|`. The source compares byte offsets with `segment.len()` in bytes (pattern.rs:24). The two agree on ASCII segments; the byte arithmetic of multi-byte UTF-8 segments is not modelled.
- Building a `DomainLevelsStrategy` is not part of this model. Its patterns and table are taken as given, with the table as long as the pattern list. Empty patterns are allowed in the model; what the automaton does with them is not modelled.
- Regex syntax, Unicode mode, and the matching algorithm, including leftmost-first `find` semantics, belong to the `regex` crate. They are the uninterpreted `Engine`. The example engine knows only the two test patterns, so it rejects every other text, whether or not the `regex` crate would accept it.
- The engine's error payload is reduced to the bare `PatternCompilationError`.
- The `Strategy` and `Builder` traits, `Slot`, `builder()` and `add_owned` live in the strategies module root, which is not part of this model. `builder()` is the builder's constructor, and the tests' `add_owned` calls are modelled with `Add`.
- Pattern.RegexStrategyBuilder.Build: does not model that `build` consumes the builder. Dafny has no move semantics, so the builder object stays usable afterwards.
- Sharing built strategies across threads is not modelled. Strategies are immutable values here.
