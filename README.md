# Picasso tower: counting towers that satisfy hints

The Picasso tower puzzle has five floors. Each floor holds one of five animals (frog, rabbit, grasshopper, bird, chicken) and has one of five colours (red, green, blue, yellow, orange), and no animal or colour appears twice. A hint constrains the tower:

- an **Absolute** hint says that two attributes (a floor, an animal or a colour) sit on the same floor;
- a **Relative** hint says that the floor of the first attribute minus the floor of the second equals a given difference;
- a **Neighbor** hint says that the two attributes sit on adjacent floors.

The repository counts the towers that satisfy a list of hints in three ways, and this project models all three.

- `count_assignments.py` enumerates every pair of permutations of the animals and colours in `itertools` order, builds the tower, and counts those on which every hint holds. An empty hint list returns 5! · 5! = 14400 at once.
- `count_assignments_alternative_solution.py` keeps a domain per floor: the animals and colours still possible there. It narrows the domains with the Absolute hints until a round changes nothing, capped at 100 rounds. Then it decides:
  - no convergence within the cap counts 0;
  - an empty domain counts 0;
  - when every floor is a singleton, the count is 1 if the singletons satisfy every hint and 0 otherwise;
  - otherwise it falls back to the enumeration.
- `picasso_tower_enhanced.py` has a `TowerState` that places assignments one at a time while tracking used and available animals and colours. It also has an `AssignmentValidator` and an "optimized" enumeration.

The Dafny model in brief:

- **Enumeration.** Hints are one datatype. Satisfaction is a function on a list of floor assignments. The enumeration is a `CountPairs` over `Perms(animals) × Perms(colors)`, with `Perms` defined recursively in `itertools` order. The nested loops of `count_assignments` are methods proved equal to that count. All count values the test suites assert are proved: 14400, 2880, 1728, 4608, 2 and 4 for the two worked examples, 1 and 0.
- **Domains.** The propagator's domains are objects of a `Domain` class whose fields the methods update in place. Each method is proved against a function on `DomainView` values: `HintStep` for one hint, `Round` for one pass, `Propagate` for the capped loop. The alternative count is the ghost function `AlternativeCount`, and the method `CountAssignmentsAlternative` is proved to return it.
- **Alternative count versus enumeration.** The alternative count is not the enumeration in general; see "## Findings". It agrees on:
  - every list without Absolute hints;
  - two different animals, or two different colours, pinned to one floor: both give 0, the alternative through the round cap;
  - every list the comparison tests use, the performance comparison's included, with the list's animals, colours and floors read as the alternative module's own enumerations (see "## Left out").
- **Soundness.** Without Absolute hints that tie an animal to a colour, propagation never removes a tower that satisfies the hints. When some tower satisfies such a list, the loop settles within two rounds. From these facts, a corrected count (`CorrectedCount`, method `CountAssignmentsCorrected`) is proved equal to the enumeration on every hint list.
- **Enhanced file.** `TowerState` is a class whose invariant ties the used and available sets to the placed assignments. The validators and the optimized count are proved against the same specification functions.

Files:

| file | module | contents |
|---|---|---|
| domain.dfy | Tower | floors, animals, colours, floor assignments, attributes |
| hints.dfy | Hints | the three hint kinds and their satisfaction check, `get_possible_floor_assignments` |
| perms.dfy | Permutations | permutations in `itertools` order, counting over them |
| brute.dfy | BruteForce | the enumeration of `count_assignments` |
| counts.dfy | HintCounts | what one hint means on an enumerated tower; counts for single hints |
| suite.dfy | SuiteCounts | the counts the test suites assert |
| propagation.dfy | Propagation | domains, propagation, the propagator, the alternative count |
| altsuite.dfy | AlternativeSuite | the alternative count on the comparison tests' hint lists |
| enhanced.dfy | Enhanced | `TowerState`, `AssignmentValidator`, `count_assignments_optimized` |
| soundness.dfy | PropagationSoundness | soundness of floor propagation, the corrected count |
| findings.dfy | Findings | the two hint lists on which the alternative count is wrong |

## Model

| member | source | states |
|---|---|---|
| Tower.FloorsComplete | count_assignments.py:6-11 | `list(Floor)` holds the five floors in ascending order |
| Tower.ColorsComplete | count_assignments.py:14-19 | `list(Color)` holds each colour exactly once |
| Tower.AnimalsComplete | count_assignments.py:22-27 | `list(Animal)` holds each animal exactly once |
| Tower.MatchesByKind | count_assignments.py:74-82 | `_check_attr_match` compares exactly the field of the attribute's kind: floor, colour or animal |
| Hints.AbsoluteHolds | count_assignments.py:66-72 | the loop returns true iff some assignment matches both attributes |
| Hints.Filter | count_assignments.py:122-123 | the comprehension keeps exactly the assignments matching the attribute, never more than the input |
| Hints.AnyPair | count_assignments.py:125-129 | the nested loop returns true iff some pair from the two lists has floors passing the test |
| Hints.PairHolds | count_assignments.py:116-129 | a Relative or Neighbor check is true iff there are fewer than two assignments or some matching pair passes |
| Hints.AllSatisfied | count_assignments.py:209 | `all(...)` over the hints is true iff every hint holds |
| Hints.AbsoluteMeaning | count_assignments.py:66-72 | an Absolute hint holds iff one assignment carries both values; never on an empty list |
| Hints.RelativeMeaning | count_assignments.py:116-129 | a Relative hint holds iff the list is short or some matching pair's floors differ by the difference |
| Hints.NeighborMeaning | count_assignments.py:158-171 | a Neighbor hint holds iff the list is short or some matching pair sits on adjacent floors |
| Hints.SomePairIndexed | count_assignments.py:121-129 | a matching pair exists iff two positions of the list hold one assignment matching each attribute whose floors pass the test |
| Hints.AbsoluteSwap | count_assignments.py:66-72 | swapping the attributes of an Absolute hint does not change it |
| Hints.RelativeSwap | count_assignments.py:116-129 | `Relative(a, b, d)` holds exactly when `Relative(b, a, -d)` does |
| Hints.NeighborSwap | count_assignments.py:158-171 | swapping the attributes of a Neighbor hint does not change it |
| Hints.NeighborIsRelativeOneOrMinusOne | count_assignments.py:158-171 | a Neighbor hint is the disjunction of the Relative hints of difference 1 and -1 |
| Hints.AdjacentSplit | count_assignments.py:158-171 | a matching pair on adjacent floors exists iff a matching pair with floor difference 1 or one with difference -1 exists |
| Hints.RelativeZeroIsAbsolute | count_assignments.py:116-129 | with distinct floors and two or more assignments, a Relative hint of difference 0 is the Absolute hint |
| Hints.AllSatisfiedOnlyMembersMatter | count_assignments.py:209 | hint lists with the same members are satisfied together |
| Hints.AllSatisfiedReplace | count_assignments.py:209 | replacing one hint by one that agrees with it on the list does not change the conjunction |
| Hints.AllSatisfiedDuplicated | count_assignments_solution.py:170-180 | a list written twice is satisfied exactly when it is satisfied once |
| Hints.AllSatisfiedAppend | count_assignments.py:209 | two lists one after the other hold iff each does |
| Hints.Relativize | count_assignments_solution.py:130-142 | every Absolute hint becomes the Relative hint of difference 0 on the same attributes; the rest stay |
| Hints.RelativizeSatisfied | count_assignments_solution.py:130-142 | on two or more assignments with distinct floors, the relativized list holds exactly when the original does |
| Hints.AbsoluteExamples | count_assignments_solution.py:16-40 | the five `check_if_satisfied` cases the test asserts |
| Hints.PossibleMembers | count_assignments.py:84-96 | a triple is produced iff its floor, animal and colour come from the options and it matches both attributes |
| Hints.GetPossibleFloorAssignments | count_assignments.py:84-96 | the triple loop appends exactly the matching triples, in loop order |
| Hints.MatchingRow | count_assignments.py:90-94 | the loops over animals and colours for one floor append exactly that floor's matching triples, in loop order |
| Hints.MatchingCell | count_assignments.py:91-94 | the loop over colours for one floor and animal appends exactly the matching triples, in loop order |
| Hints.PossibleExamples | count_assignments_solution.py:43-72 | the impossible hint yields 0 assignments, the possible one 2 |
| Permutations.PermsLength | count_assignments.py:201-202 | `permutations` of n values yields n! sequences |
| Permutations.FivePermutations | count_assignments.py:189-191 | five values give 120 permutations, and 120 · 120 = 14400 |
| Permutations.PermsSound | count_assignments.py:201-202 | every permutation is a rearrangement of the input |
| Permutations.PermsComplete | count_assignments.py:201-202 | every rearrangement of the input is among its permutations |
| Permutations.PermsDistinct | count_assignments.py:201-202 | every permutation of a list without repeats is itself without repeats |
| Permutations.PermsCountEq | count_assignments.py:201-202 | every rearrangement of a list without repeats occurs exactly once |
| BruteForce.Candidate | count_assignments.py:203-206 | the tower built from two permutations puts the k-th animal and colour on floor k + 1, with floors distinct |
| BruteForce.BuildAssignment | count_assignments.py:204-206 | the `enumerate(floors)` loop builds exactly that tower |
| BruteForce.CountTowers | count_assignments.py:193-212 | the two nested loops count exactly the accepted pairs of permutations; no hints gives 14400 |
| BruteForce.CountRow | count_assignments.py:202-210 | the inner loop over colour permutations counts exactly the colourings that, with the given animal permutation, satisfy every hint |
| BruteForce.CountAssignments | count_assignments.py:184-212 | `count_assignments` returns the enumeration count over `list(Animal)` and `list(Color)`; empty hints return 14400 |
| BruteForce.DeclarationOrderListing | count_assignments.py:194-196 | the declaration-order lists hold each animal and colour once |
| BruteForce.EnumerationShape | count_assignments.py:201-202 | each enumeration has 120 entries of length 5 |
| BruteForce.EnumerationComplete | count_assignments.py:201-202 | the enumeration visits exactly the rearrangements of the animals and of the colours |
| BruteForce.NoHintsCount | count_assignments.py:189-191 | the early return 14400 is the count the loops would give for no hints |
| BruteForce.CountBound | count_assignments.py:198-212 | the count never exceeds 14400 |
| BruteForce.MoreHintsFewerTowers | count_assignments.py:209 | adding hints never raises the count |
| BruteForce.SameHintsSameCount | count_assignments.py:209 | hint lists with the same members give the same count |
| BruteForce.DuplicateHintCount | count_assignments_solution.py:170-190 | a hint given twice counts as once |
| BruteForce.ReplaceHintCount | count_assignments.py:209 | replacing a hint by one equivalent on every tower leaves the count |
| BruteForce.AbsoluteSwapCount | count_assignments_solution.py:124-128 | swapping an Absolute hint's attributes leaves the count |
| BruteForce.RelativeSwapCount | count_assignments_solution.py:144-148 | `Relative(a, b, d)` and `Relative(b, a, -d)` give the same count |
| BruteForce.NeighborSwapCount | count_assignments_solution.py:150-154 | swapping a Neighbor hint's attributes leaves the count |
| BruteForce.RelativeZeroCount | count_assignments_solution.py:199-202 | a Relative hint of difference 0 counts like the Absolute hint |
| BruteForce.RelativizeCount | count_assignments_solution.py:130-142 | relativizing a whole list leaves the count |
| BruteForce.ListingsAgree | count_assignments.py:194-196 | any two listings of the domain hold the same values |
| HintCounts.MatchesOnTower | count_assignments.py:74-82 | on an enumerated tower, matching floor k + 1 is reading the k-th animal or colour |
| HintCounts.SatisfiedOnTower | count_assignments.py:66-171 | on an enumerated tower, a hint holds iff its attributes stand on floors passing its floor test |
| HintCounts.FloorFirstPin | count_assignments.py:66-72 | a satisfied `Absolute(F(f), x)` puts x on floor f |
| HintCounts.FloorSecondPin | count_assignments.py:66-72 | a satisfied `Absolute(x, F(f))` puts x on floor f |
| HintCounts.AnimalColorPin | count_assignments.py:66-72 | a satisfied `Absolute(A(a), C(c))` paints a's floor in c |
| HintCounts.AbsoluteOnFloor | count_assignments.py:66-72 | both attributes on one floor make an Absolute hint hold |
| HintCounts.SingleAccepts | count_assignments.py:209 | a single hint accepts exactly the towers whose attributes stand on floors passing its test |
| HintCounts.AnimalFloorCount | count_assignments.py:184-212 | one animal–floor hint counts (passing floors) · 4! · 5! towers |
| HintCounts.ColorFloorCount | count_assignments.py:184-212 | one colour–floor hint counts 5! · (passing floors) · 4! towers |
| HintCounts.AnimalColorCount | count_assignments.py:184-212 | one animal–colour hint counts (passing pairs of floors) · 4! · 4! towers |
| SuiteCounts.OneAbsoluteCount | count_assignments_solution.py:82-96 | the rabbit on the first floor leaves 5! · 4! = 2880 towers |
| SuiteCounts.TwoAnimalsOneFloorCount | count_assignments.py:66-72 | two different animals pinned to the same floor leave no tower |
| SuiteCounts.TwoColorsOneFloorCount | count_assignments.py:66-72 | two different colours pinned to the same floor leave no tower |
| SuiteCounts.ContradictingCount | count_assignments_solution.py:89-97 | the rabbit and the bird both on the first floor leave none |
| SuiteCounts.CompleteAccepts | count_assignments_solution.py:100-122 | the ten complete hints accept exactly the tower in the test's comment |
| SuiteCounts.CompleteCount | count_assignments_solution.py:100-157 | the complete hints leave one tower |
| SuiteCounts.RedundantAbsoluteCount | count_assignments_solution.py:124-160 | the same Absolute hint in both orders leaves 2880 |
| SuiteCounts.RelativeCompleteCount | count_assignments_solution.py:130-162 | the complete hints as Relative hints of difference 0 leave one tower |
| SuiteCounts.RedundantRelativeCount | count_assignments_solution.py:144-165 | the same Relative hint both ways leaves 2880 |
| SuiteCounts.RedundantNeighborCount | count_assignments_solution.py:150-167 | the same Neighbor hint both ways leaves 4608 |
| SuiteCounts.DuplicatedAbsoluteCount | count_assignments_solution.py:170-187 | a duplicated Absolute hint leaves 2880 |
| SuiteCounts.DuplicatedNeighborCount | count_assignments_solution.py:177-190 | a duplicated Neighbor hint leaves 4608 |
| SuiteCounts.RelativeBelowCount | count_assignments.py:233-241 | the third example, rabbit two floors below green, leaves 1728 |
| SuiteCounts.RelativeZeroFloorCount | count_assignments_solution.py:199-207 | the Absolute hint in disguise leaves 2880 |
| SuiteCounts.AnimalNextToColorCount | count_assignments_solution.py:210-215 | any animal next to any colour leaves 4608 |
| SuiteCounts.OneNeighborCount | count_assignments_solution.py:210-215 | the rabbit next to green leaves 4608 |
| SuiteCounts.AnimalColorAbsoluteCount | count_assignments.py:220 | the grasshopper on the orange floor leaves 2880 |
| SuiteCounts.SuiteExpectations | count_assignments_solution.py:75-241 | the enumeration returns every value the test suites assert, including 2 and 4 on the two worked examples |
| SuiteCounts.FirstExampleAccepts | count_assignments.py:215-222 | a tower satisfies the first example's six hints iff it is rabbit, chicken, frog, grasshopper, bird from floor 1 with colours yellow and green in either order on floors 1-2, then red, orange, blue |
| SuiteCounts.FirstExampleForces | count_assignments.py:215-222 | every tower that satisfies the first example is one of those two |
| SuiteCounts.FirstExampleHolds | count_assignments.py:215-222 | both of those towers satisfy the six hints |
| SuiteCounts.FirstExampleCount | count_assignments.py:239 | the enumeration of the first example returns 2, for every listing of the animals and colours |
| SuiteCounts.SecondExampleAccepts | count_assignments.py:224-231 | a tower satisfies the second example iff the chicken is on floor 1 in green and the bird on floor 5 in blue, the grasshopper on floor 3, the frog in yellow on floor 2 or 4 with the rabbit on the other, and red and orange in either order on the two remaining middle floors |
| SuiteCounts.SecondExampleForces | count_assignments.py:224-231 | every tower that satisfies the second example is one of those four |
| SuiteCounts.SecondExampleHolds | count_assignments.py:224-231 | all four of those towers satisfy the six hints |
| SuiteCounts.SecondExampleCount | count_assignments.py:240 | the enumeration of the second example returns 4, for every listing of the animals and colours |
| Propagation.SingletonMeaning | count_assignments_alternative_solution.py:59-61 | `is_singleton` holds iff the domain allows exactly one animal and one colour |
| Propagation.SingletonAt | count_assignments_alternative_solution.py:63-67 | a singleton domain yields the assignment of its only animal and colour on the floor; any other domain yields none |
| Propagation.Domain.constructor | count_assignments_alternative_solution.py:51-53 | a fresh domain allows every animal and colour |
| Propagation.Domain.GetSingletonAssignment | count_assignments_alternative_solution.py:63-67 | returns an assignment iff the domain is a singleton, and then its only animal and colour on that floor |
| Propagation.PinDomain | count_assignments_alternative_solution.py:156-169 | a floor hint sets that floor's animals or colours to the named value and leaves the other floors |
| Propagation.NarrowDomain | count_assignments_alternative_solution.py:134-152 | an animal–colour hint narrows a floor that allows both to exactly that pair, and reports whether it changed |
| Propagation.NarrowDomains | count_assignments_alternative_solution.py:134-153 | the loop narrows every floor so, and reports a change iff some floor changed |
| Propagation.PropagateConstraints | count_assignments_alternative_solution.py:117-169 | `propagate_constraints` of any hint turns the domains into `HintStep` of them and returns true iff they changed; Relative and Neighbor hints change nothing |
| Propagation.Propagate | count_assignments_alternative_solution.py:275-288 | the capped loop never runs more than 100 rounds |
| Propagation.RoundUnchanged | count_assignments_alternative_solution.py:281-286 | a round reports no change iff no hint would narrow the domains, and then they are as they were |
| Propagation.PropagateStops | count_assignments_alternative_solution.py:275-288 | stopping below the cap means the domains are a fixpoint of every hint |
| Propagation.ConvergedIsFixpoint | count_assignments_alternative_solution.py:275-288 | when `propagate_all_constraints` reports convergence, one more round would change nothing |
| Propagation.RoundAppend | count_assignments_alternative_solution.py:283-285 | a round over two lists is a round over the first, then the second |
| Propagation.StartNonEmpty | count_assignments_alternative_solution.py:271-273 | the five fresh domains are non-empty and none is a singleton |
| Propagation.StepNonEmpty | count_assignments_alternative_solution.py:117-169 | a hint never empties a domain |
| Propagation.DomainsNeverEmpty | count_assignments_alternative_solution.py:333-335 | after propagation no domain is empty, so that early return never fires |
| Propagation.Singletons | count_assignments_alternative_solution.py:290-297 | when every floor is settled, the singletons list one assignment per floor, floor 1 first, with each floor's only animal and colour |
| Propagation.SingletonsComplete | count_assignments_alternative_solution.py:290-297 | the same, for the first n floors |
| Propagation.SingletonsListed | count_assignments_alternative_solution.py:290-297 | an assignment is listed iff it is the only assignment some singleton floor allows, and the list rises strictly by floor |
| Propagation.SingletonsMembers | count_assignments_alternative_solution.py:290-297 | the same membership, for the first n floors |
| Propagation.SingletonsOrdered | count_assignments_alternative_solution.py:290-297 | the same order, for the first n floors, all floors at most n |
| Propagation.Remaining | count_assignments_alternative_solution.py:303-309 | an entry is listed iff it names a floor that is not a singleton with that floor's animals and colours; the list rises by floor; it is empty iff every floor is a singleton |
| Propagation.RemainingMembers | count_assignments_alternative_solution.py:303-309 | the same membership, for the first n floors |
| Propagation.RemainingOrdered | count_assignments_alternative_solution.py:303-309 | the same order, for the first n floors, all floors at most n |
| Propagation.RemainingEmpty | count_assignments_alternative_solution.py:303-309 | the same, for the first n floors |
| Propagation.ConstraintPropagator.constructor | count_assignments_alternative_solution.py:271-273 | a fresh propagator holds the hints and five fresh, distinct domains |
| Propagation.ConstraintPropagator.PropagateAllConstraints | count_assignments_alternative_solution.py:275-288 | the domains end as `Propagate` from their values, and the result is true iff the loop stopped below 100 rounds |
| Propagation.ConstraintPropagator.GetSingletonAssignments | count_assignments_alternative_solution.py:290-297 | returns the singleton assignments of the current domains, which are exactly the singleton floors' assignments, in floor order |
| Propagation.ConstraintPropagator.HasEmptyDomains | count_assignments_alternative_solution.py:299-301 | true iff some domain is empty |
| Propagation.ConstraintPropagator.GetRemainingAssignments | count_assignments_alternative_solution.py:303-309 | returns the floors that are not singletons, with what they still allow, which by Propagation.Remaining are exactly those floors in floor order |
| Propagation.VerifyAllHints | count_assignments_alternative_solution.py:377-382 | true iff every hint holds on the assignments |
| Propagation.CountAssignmentsAlternative | count_assignments_alternative_solution.py:312-374 | returns `AlternativeCount`: 14400 for no hints; after propagation 0 if not converged or a domain is empty; 1/0 from `verify_all_hints` on settled singletons; else the enumeration |
| Propagation.RelationalHintsCount | count_assignments_alternative_solution.py:209-217 | with no Absolute hints, nothing is narrowed and the alternative count is the enumeration's |
| AlternativeSuite.SettlesInTwo | count_assignments_alternative_solution.py:275-288 | a list whose second round changes nothing stops after two rounds with the first round's domains |
| AlternativeSuite.FallbackCount | count_assignments_alternative_solution.py:356-374 | an open floor after settling sends the count to the enumeration |
| AlternativeSuite.SettledCount | count_assignments_alternative_solution.py:343-349 | settled singletons give 1 or 0 as they satisfy the hints |
| AlternativeSuite.SingleAbsoluteAlternative | test_both_solutions.py:104-111 | the single hint: both solvers return 2880 |
| AlternativeSuite.Alternates | count_assignments_alternative_solution.py:279-288 | for any two different animals pinned to any floor f, each pin replaces the floor's animal set, every round reports a change, and the loop runs into the cap |
| AlternativeSuite.ColorsAlternate | count_assignments_alternative_solution.py:279-288 | the same for any two different colours pinned to any floor |
| AlternativeSuite.TwoAnimalsFirstRound | count_assignments_alternative_solution.py:156-167 | from the fresh domains, the first round leaves floor f holding only the second pin's animal and reports a change |
| AlternativeSuite.TwoColorsFirstRound | count_assignments_alternative_solution.py:156-167 | the same for two colours |
| AlternativeSuite.TwoAnimalsAlternative | count_assignments_alternative_solution.py:330-331 | two different animals pinned to any floor: the loop hits the cap, so the alternative returns 0, as the enumeration does |
| AlternativeSuite.TwoColorsAlternative | count_assignments_alternative_solution.py:330-331 | the same for two different colours pinned to any floor |
| AlternativeSuite.ContradictingAlternative | test_both_solutions.py:114-126 | the contradicting hints: both return 0, the alternative through the round cap |
| AlternativeSuite.CompleteAlternative | test_both_solutions.py:131-166 | the complete hints: propagation settles every floor, both return 1 |
| AlternativeSuite.FirstExampleAlternative | test_both_solutions.py:26-48 | first example: propagation leaves open floors, the alternative returns the enumeration's count, 2 |
| AlternativeSuite.SecondExampleAlternative | test_both_solutions.py:51-73 | second example: the same, with the count 4 |
| AlternativeSuite.GrasshopperOrangeAlternative | count_assignments_alternative_solution.py:134-153 | `Absolute(Grasshopper, Orange)` alone: the alternative returns 1, the enumeration 2880 |
| AlternativeSuite.ComparisonSuite | test_both_solutions.py:21-248 | every comparison the test makes holds: the examples 2 and 4, EX3 1728, no hints 14400, single 2880, contradicting 0, complete 1, the relative, neighbor and performance lists agree |
| AlternativeSuite.PerformanceFirstRound | count_assignments_alternative_solution.py:279-284 | on the performance comparison's list the first round pins floors 1 and 2 to the rabbit and the chicken and floor 3 to red, and reports a change |
| AlternativeSuite.PerformanceAlternative | test_both_solutions.py:216-248 | on the performance comparison's list floors 4 and 5 stay open, so the alternative returns the enumeration's count and the two agree |
| AlternativeSuite.BasicComparisons | test_both_solutions.py:21-88 | both solutions give 2 and 4 on the two worked examples, and both give 1728 on the rabbit-two-below-green hint |
| AlternativeSuite.EdgeComparisons | test_both_solutions.py:93-126 | both give 14400 on no hints and 2880 on one hint, and both give 0 on two animals pinned to floor 1 |
| AlternativeSuite.ComplexComparisons | test_both_solutions.py:131-204 | both give 1 on the complete hints, and they agree on three Relative hints and on three Neighbor hints |
| Enhanced.FirstMatch | picasso_tower_enhanced.py:47-66 | a lookup returns none iff nothing matches, else the first assignment that matches |
| Enhanced.SplitBounds | picasso_tower_enhanced.py:23-45 | a used/available split of five values has at most five used, and five used iff none available |
| Enhanced.AddKeepsConsistent | picasso_tower_enhanced.py:30-41 | adding an unused animal and colour moves them from available to used and keeps the state consistent |
| Enhanced.LookupFindsUsed | picasso_tower_enhanced.py:54-66 | an animal or colour is found iff it is among the placed assignments |
| Enhanced.TowerState.constructor | picasso_tower_enhanced.py:23-28 | a fresh state has nothing placed or used and everything available |
| Enhanced.TowerState.AddAssignment | picasso_tower_enhanced.py:30-41 | succeeds iff neither the animal nor the colour is used; then appends and moves both to used, else changes nothing |
| Enhanced.TowerState.StateBounds | picasso_tower_enhanced.py:43-45 | at most five assignments; used plus available is everything; complete iff nothing is available |
| Enhanced.TowerState.LookupsMatchUsed | picasso_tower_enhanced.py:54-66 | the animal and colour lookups succeed iff the value is used, and return an assignment carrying it |
| Enhanced.ValidateAllHints | picasso_tower_enhanced.py:73-75 | true iff every hint holds |
| Enhanced.ValidateEarlyTermination | picasso_tower_enhanced.py:77-83 | the loop with early exit returns the same as `validate_all_hints` |
| Enhanced.ShortPrefixOnlyAbsolute | picasso_tower_enhanced.py:77-83 | on fewer than two assignments only the Absolute hints can fail |
| Enhanced.CountAssignmentsOptimized | picasso_tower_enhanced.py:119-142 | returns the enumeration count; empty hints return 14400 |
| Enhanced.CountRowOptimized | picasso_tower_enhanced.py:133-140 | the inner loop, checking through the validator, counts exactly the colourings the plain row count accepts |
| PropagationSoundness.StartHoldsEveryTower | count_assignments_alternative_solution.py:271-273 | the fresh domains allow every tower |
| PropagationSoundness.StepKeepsTower | count_assignments_alternative_solution.py:156-169 | a floor pin that holds on a tower never narrows it out |
| PropagationSoundness.RoundKeepsTower | count_assignments_alternative_solution.py:283-285 | so neither does a round |
| PropagationSoundness.PropagationKeepsSolutions | count_assignments_alternative_solution.py:275-288 | without animal–colour hints, every tower satisfying the hints survives propagation |
| PropagationSoundness.StepIdempotent | count_assignments_alternative_solution.py:156-169 | a floor pin applied twice narrows no more than once |
| PropagationSoundness.StepKeepsFixed | count_assignments_alternative_solution.py:156-169 | two pins satisfied by one tower never undo each other |
| PropagationSoundness.RoundFixesAll | count_assignments_alternative_solution.py:281-286 | after one round over hints some tower satisfies, no hint narrows further |
| PropagationSoundness.SolvableSettles | count_assignments_alternative_solution.py:275-288 | such hints settle within two rounds, far below the cap |
| PropagationSoundness.Unpaired | count_assignments_alternative_solution.py:134-153 | keeps exactly the hints that are not animal–colour Absolute hints |
| PropagationSoundness.CappedMeansNone | count_assignments_alternative_solution.py:330-331 | reaching the cap with floor propagation means no tower satisfies the hints |
| PropagationSoundness.OnlyTheSingletons | count_assignments_alternative_solution.py:343-349 | when every floor settles, the only tower that can satisfy the hints is the one the singletons spell out |
| PropagationSoundness.SettledSolvable | count_assignments_alternative_solution.py:343-347 | settled singletons that form a tower satisfying the hints: the enumeration finds exactly 1 |
| PropagationSoundness.SettledUnsolvable | count_assignments_alternative_solution.py:348-349 | otherwise it finds 0 |
| PropagationSoundness.CorrectedIsEnumeration | count_assignments_alternative_solution.py:312-374 | the corrected count equals the enumeration on every hint list |
| PropagationSoundness.CountAssignmentsCorrected | count_assignments_alternative_solution.py:312-374 | the corrected alternative method returns the enumeration count on every hint list |
| Findings.GrasshopperOrangeCorrected | count_assignments_alternative_solution.py:134-153 | the corrected count gives 2880 for `Absolute(Grasshopper, Orange)` |
| Findings.RabbitTwiceCount | count_assignments.py:184-212 | no tower has the rabbit on floors 1 and 2 |
| Findings.RabbitTwiceSingletons | count_assignments_alternative_solution.py:377-382 | the settled singletons repeat the rabbit yet satisfy all ten hints |
| Findings.RabbitTwiceAlternative | count_assignments_alternative_solution.py:343-349 | as written, the alternative count is 1 on that list while the enumeration is 0 |
| Findings.RabbitTwiceSecondRound | count_assignments_alternative_solution.py:281-288 | on the rabbit-twice list, the second propagation round changes no domain, so the loop stops |
| Findings.RabbitTwiceCorrected | count_assignments_alternative_solution.py:343-349 | the corrected count is 0 on that list, as the enumeration |

## Left out

- Timing and reporting are left out because they touch no count: `PerformanceTimer`, `TestResult`, `analyze_hint_complexity`, the printing test runners and `performance_test.py`.
- `picasso_tower_solver.py`, `count_assignments_solution_improved.py` and `simple_test.py` are not part of this model.
- The test files are modelled only through the lemmas that prove the values they assert. They are not modelled as code.
- Propagation.ConstraintPropagator.GetRemainingAssignments returns each open floor's animals and colours as sets. The source returns lists built from sets, in an order Python does not fix; nothing in the count depends on that order.
- Propagation.Domain.GetSingletonAssignment reads the one element of each singleton set. That matches `list(...)[0]`, whatever its order.
- The propagator's `Dict[Floor, Domain]` is a sequence of five distinct `Domain` objects; floor f is at index f - 1. The dictionary's iteration order is the floor order, and so is the sequence's.
- The hint classes of `count_assignments_alternative_solution.py` (lines 91-115, 177-207, 225-255) test what those of `count_assignments.py` test, provided their attributes are the alternative module's own `Floor`, `Animal` and `Color` (lines 14-35). The model uses one definition for both, `Hints.Satisfied`, and one set of enumerations for both modules.
- AlternativeSuite.ComparisonSuite: the comparison scripts (`test_both_solutions.py:9-18`, `simple_test.py:5-8`, `performance_test.py:9-10`) build the alternative's hints from the `Floor`, `Animal` and `Color` of `count_assignments.py`. The alternative's `isinstance` tests (for example lines 94-110, 124-153, 183-197 and 231-245) check against its own classes, so as written they reject those values. The model does not distinguish the two modules' enumerations, which does not model that mismatch. Its agreement results hold for hint lists built from the alternative module's own enumerations.
- Enhanced.TowerState.AddAssignment requires the state invariant `Valid()`. Every state built by the constructor and the method keeps it. The source does not check for a repeated floor, and neither does the model.
- `TowerState.is_complete` and the three lookups are functions without a contract of their own. What they promise is stated by Enhanced.TowerState.StateBounds and Enhanced.TowerState.LookupsMatchUsed.
- Python integers do not overflow, and the counts are at most 14400, so the model's unbounded integers lose nothing.

## Findings

| source | as written | input that shows it | evidently intended | confidence | as-written member | corrected member |
|---|---|---|---|---|---|---|
| count_assignments_alternative_solution.py:134-153 | `Absolute(animal, colour)` narrows every floor that may hold both values to exactly that pair | `[Absolute(A(Grasshopper), C(Orange))]`: every floor becomes grasshopper-on-orange, the singleton shortcut returns 1 | the count of towers, 2880 | not executed | AlternativeSuite.GrasshopperOrangeAlternative | PropagationSoundness.CorrectedIsEnumeration |
| count_assignments_alternative_solution.py:343-349 | settled singletons count as one tower without checking that animals and colours are distinct | floor pins putting the rabbit on floors 1 and 2, bird, frog and grasshopper on 3-5, and colours orange, blue, red, yellow, green on 1-5: returns 1 | 0, no tower repeats an animal | not executed | Findings.RabbitTwiceAlternative | PropagationSoundness.CountAssignmentsCorrected |

The corrected count, `PropagationSoundness.CorrectedCount`, makes two changes:

- It narrows the domains with the floor hints only. Animal–colour hints still take part in the final check of every hint.
- It counts settled singletons only when no animal and no colour repeats.

With these changes the count is proved equal to the enumeration on every hint list. Findings.GrasshopperOrangeCorrected and Findings.RabbitTwiceCorrected show it on the two inputs above.
