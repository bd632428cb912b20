/** What the alternative count_assignments returns on the hint lists the
    repository's comparison tests use, with each list's animals, colours
    and floors taken as the alternative module's own enumerations. */
// Constant lists of domains below are written as two concatenated displays,
// which keeps the verifier from evaluating each literal tower as a whole.
module AlternativeSuite {
  import opened Tower
  import opened Hints
  import opened BruteForce
  import opened SuiteCounts
  import opened Propagation

  /** The first hint of a round, then the rest. */
  lemma RoundCons(h: Hint, hints: seq<Hint>, ds: seq<DomainView>)
    requires |ds| == 5
    ensures Round([h] + hints, ds) == RoundAfter(Round(hints, HintStep(h, ds)), HintStep(h, ds) != ds)
  {
    assert ([h] + hints)[0] == h;
    assert ([h] + hints)[1..] == hints;
  }

  /** A round over two hints: both steps, changed if either changed. */
  lemma RoundTwo(h0: Hint, h1: Hint, ds: seq<DomainView>)
    requires |ds| == 5
    ensures var t1 := HintStep(h0, ds);
            var t2 := HintStep(h1, t1);
            Round([h0, h1], ds) == RoundOutcome(t2, t1 != ds || t2 != t1)
  {
    RoundCons(h0, [h1], ds);
    RoundCons(h1, [], HintStep(h0, ds));
    assert [h0] + [h1] == [h0, h1];
    assert [h1] + [] == [h1];
  }

  /** A round over three hints. */
  lemma RoundThree(h0: Hint, h1: Hint, h2: Hint, ds: seq<DomainView>)
    requires |ds| == 5
    ensures var t1 := HintStep(h0, ds);
            var t2 := HintStep(h1, t1);
            var t3 := HintStep(h2, t2);
            Round([h0, h1, h2], ds) == RoundOutcome(t3, t1 != ds || t2 != t1 || t3 != t2)
  {
    RoundCons(h0, [h1, h2], ds);
    RoundTwo(h1, h2, HintStep(h0, ds));
    assert [h0] + [h1, h2] == [h0, h1, h2];
  }

  /** An animal–colour hint that only floor k + 1 can still meet narrows
      that floor alone. */
  lemma NarrowOnly(a: Animal, c: Color, ds: seq<DomainView>, k: nat)
    requires |ds| == 5 && k < 5 && a in ds[k].animals && c in ds[k].colors
    requires forall j :: 0 <= j < 5 && j != k ==> !(a in ds[j].animals && c in ds[j].colors)
    ensures HintStep(Absolute(A(a), C(c)), ds) == ds[k := DomainView({a}, {c})]
  {
  }

  /** A list whose first round changes the fresh domains to s1 and whose
      second round leaves s1 alone stops after two rounds. */
  lemma SettlesInTwo(hints: seq<Hint>, s1: seq<DomainView>)
    requires |s1| == 5 && Round(hints, Start) == RoundOutcome(s1, true)
    requires Round(hints, s1) == RoundOutcome(s1, false)
    ensures PropagateAll(hints) == Propagated(s1, 2)
  {
  }

  /** After such a list, an open floor sends the count to the enumeration. */
  lemma FallbackCount(hints: seq<Hint>, s1: seq<DomainView>, k: nat)
    requires |s1| == 5 && k < 5 && !s1[k].IsSingleton()
    requires Round(hints, Start) == RoundOutcome(s1, true)
    requires Round(hints, s1) == RoundOutcome(s1, false)
    ensures AlternativeCount(hints) == EnumCount(hints)
  {
    SettlesInTwo(hints, s1);
    DomainsNeverEmpty(hints);
    var r := Propagated(s1, 2);
    assert !AnyEmpty(r.views);
    assert |Remaining(r.views)| != 0;
    assert CountAfter(hints, r) == EnumCount(hints);
  }

  /** After such a list with every floor a singleton, the count is 1 or 0
      as the singletons satisfy the hints. */
  lemma SettledCount(hints: seq<Hint>, s1: seq<DomainView>)
    requires |s1| == 5 && forall i :: 0 <= i < 5 ==> s1[i].IsSingleton()
    requires Round(hints, Start) == RoundOutcome(s1, true)
    requires Round(hints, s1) == RoundOutcome(s1, false)
    ensures AlternativeCount(hints) == if AllSatisfied(hints, Singletons(s1)) then 1 else 0
  {
    SettlesInTwo(hints, s1);
    DomainsNeverEmpty(hints);
    var r := Propagated(s1, 2);
    assert !AnyEmpty(r.views);
    assert |Remaining(r.views)| == 0;
  }

  /** The rabbit on the first floor: one floor narrowed, the rest left to
      the enumeration, 2880 towers. */
  lemma SingleAbsoluteAlternative()
    ensures AlternativeCount([Absolute(A(Rabbit), F(1))]) == EnumCount([Absolute(A(Rabbit), F(1))]) == 2880
  {
    var h := Absolute(A(Rabbit), F(1));
    var s1 := Start[0 := Full.(animals := {Rabbit})];
    assert Frog !in s1[0].animals;
    RoundCons(h, [], Start);
    RoundCons(h, [], s1);
    assert [h] + [] == [h];
    assert !s1[1].IsSingleton() by {
      StartNonEmpty();
    }
    FallbackCount([h], s1, 1);
    DeclarationOrderListing();
    OneAbsoluteCount(AllAnimals, AllColors);
  }

  /** Two different animals pinned to floor f: the first pin sets the
      floor's animals to a, the second back to b, so every round reports a
      change and the loop runs into the round cap. */
  lemma {:induction false} Alternates(a: Animal, b: Animal, f: Floor, s: seq<DomainView>, iterations: nat)
    requires a != b
    requires |s| == 5 && s[f - 1].animals == {b} && iterations <= MaxIterations
    ensures Propagate([Absolute(A(a), F(f)), Absolute(A(b), F(f))], s, true, iterations).iterations == MaxIterations
    decreases MaxIterations - iterations
  {
    if iterations < MaxIterations {
      var hints := [Absolute(A(a), F(f)), Absolute(A(b), F(f))];
      var t := s[f - 1 := s[f - 1].(animals := {a})];
      assert b !in t[f - 1].animals;
      RoundCons(hints[0], [hints[1]], s);
      RoundCons(hints[1], [], t);
      assert [hints[0]] + [hints[1]] == hints;
      assert t[f - 1 := t[f - 1].(animals := {b})] == s;
      assert Round(hints, s) == RoundOutcome(s, true);
      Alternates(a, b, f, s, iterations + 1);
    }
  }

  /** The same for two different colours pinned to floor f. */
  lemma {:induction false} ColorsAlternate(c: Color, d: Color, f: Floor, s: seq<DomainView>, iterations: nat)
    requires c != d
    requires |s| == 5 && s[f - 1].colors == {d} && iterations <= MaxIterations
    ensures Propagate([Absolute(C(c), F(f)), Absolute(C(d), F(f))], s, true, iterations).iterations == MaxIterations
    decreases MaxIterations - iterations
  {
    if iterations < MaxIterations {
      var hints := [Absolute(C(c), F(f)), Absolute(C(d), F(f))];
      var t := s[f - 1 := s[f - 1].(colors := {c})];
      assert d !in t[f - 1].colors;
      RoundCons(hints[0], [hints[1]], s);
      RoundCons(hints[1], [], t);
      assert [hints[0]] + [hints[1]] == hints;
      assert t[f - 1 := t[f - 1].(colors := {d})] == s;
      assert Round(hints, s) == RoundOutcome(s, true);
      ColorsAlternate(c, d, f, s, iterations + 1);
    }
  }

  /** Two different animals pinned to floor f: the loop never settles, runs
      into the round cap and reports no solution, as the enumeration does. */
  lemma TwoAnimalsAlternative(a: Animal, b: Animal, f: Floor)
    requires a != b
    ensures var hints := [Absolute(A(a), F(f)), Absolute(A(b), F(f))];
            AlternativeCount(hints) == EnumCount(hints) == 0
  {
    TwoAnimalsFirstRound(a, b, f);
    Alternates(a, b, f, Start[f - 1 := Full.(animals := {b})], 1);
    DeclarationOrderListing();
    TwoAnimalsOneFloorCount(a, b, f, AllAnimals, AllColors);
  }

  /** The first round from the fresh domains ends with floor f holding
      the second pin's value only, and reports a change. */
  lemma TwoAnimalsFirstRound(a: Animal, b: Animal, f: Floor)
    requires a != b
    ensures var hints := [Absolute(A(a), F(f)), Absolute(A(b), F(f))];
            Round(hints, Start) == RoundOutcome(Start[f - 1 := Full.(animals := {b})], true)
  {
    var hints := [Absolute(A(a), F(f)), Absolute(A(b), F(f))];
    var t := Start[f - 1 := Full.(animals := {a})];
    var s := Start[f - 1 := Full.(animals := {b})];
    assert b !in t[f - 1].animals && b in Start[f - 1].animals;
    assert HintStep(hints[0], Start) == t;
    assert HintStep(hints[1], t) == s;
    RoundCons(hints[0], [hints[1]], Start);
    RoundCons(hints[1], [], t);
    assert [hints[0]] + [hints[1]] == hints;
    assert t[f - 1 := t[f - 1].(animals := {b})] == s;
  }

  /** The same for two different colours pinned to floor f. */
  lemma TwoColorsAlternative(c: Color, d: Color, f: Floor)
    requires c != d
    ensures var hints := [Absolute(C(c), F(f)), Absolute(C(d), F(f))];
            AlternativeCount(hints) == EnumCount(hints) == 0
  {
    TwoColorsFirstRound(c, d, f);
    ColorsAlternate(c, d, f, Start[f - 1 := Full.(colors := {d})], 1);
    DeclarationOrderListing();
    TwoColorsOneFloorCount(c, d, f, AllAnimals, AllColors);
  }

  /** The first round from the fresh domains ends with floor f holding
      the second pin's value only, and reports a change. */
  lemma TwoColorsFirstRound(c: Color, d: Color, f: Floor)
    requires c != d
    ensures var hints := [Absolute(C(c), F(f)), Absolute(C(d), F(f))];
            Round(hints, Start) == RoundOutcome(Start[f - 1 := Full.(colors := {d})], true)
  {
    var hints := [Absolute(C(c), F(f)), Absolute(C(d), F(f))];
    var t := Start[f - 1 := Full.(colors := {c})];
    var s := Start[f - 1 := Full.(colors := {d})];
    assert d !in t[f - 1].colors && d in Start[f - 1].colors;
    assert HintStep(hints[0], Start) == t;
    assert HintStep(hints[1], t) == s;
    RoundCons(hints[0], [hints[1]], Start);
    RoundCons(hints[1], [], t);
    assert [hints[0]] + [hints[1]] == hints;
    assert t[f - 1 := t[f - 1].(colors := {d})] == s;
  }

  /** The contradicting hints of the comparison tests: the rabbit and the
      bird both on the first floor. */
  lemma ContradictingAlternative()
    ensures var hints := [Absolute(A(Rabbit), F(1)), Absolute(A(Bird), F(1))];
            AlternativeCount(hints) == EnumCount(hints) == 0
  {
    TwoAnimalsAlternative(Rabbit, Bird, 1);
  }

  /** The tower the complete hints describe, as singleton domains. */
  const CompleteDomains: seq<DomainView> := [
    DomainView({Rabbit}, {Orange}),
    DomainView({Chicken}, {Blue})] + [
    DomainView({Bird}, {Red}),
    DomainView({Frog}, {Yellow}),
    DomainView({Grasshopper}, {Green})]

  /** The animal half of the complete hints pins the animal of every
      floor. */
  const AnimalsPinned: seq<DomainView> := [
    DomainView({Rabbit}, ColorSet),
    DomainView({Chicken}, ColorSet)] + [
    DomainView({Bird}, ColorSet),
    DomainView({Frog}, ColorSet),
    DomainView({Grasshopper}, ColorSet)]

  lemma AnimalPlacementRound()
    ensures Round(AnimalPlacement, Start) == RoundOutcome(AnimalsPinned, true)
  {
    var h0, h1 := Absolute(A(Rabbit), F(1)), Absolute(A(Chicken), F(2));
    var h2, h3, h4 := Absolute(F(3), A(Bird)), Absolute(F(4), A(Frog)), Absolute(F(5), A(Grasshopper));
    RoundAppend([h0, h1], [h2, h3, h4], Start);
    RoundTwo(h0, h1, Start);
    var t1 := HintStep(h0, Start);
    assert Frog !in t1[0].animals;
    var t2 := HintStep(h1, t1);
    RoundThree(h2, h3, h4, t2);
    assert HintStep(h4, HintStep(h3, HintStep(h2, t2))) == AnimalsPinned;
  }


  lemma ColorPlacementRound()
    ensures Round(ColorPlacement, AnimalsPinned).views == CompleteDomains
  {
    var h0, h1 := Absolute(F(5), C(Green)), Absolute(A(Chicken), C(Blue));
    var h2, h3, h4 := Absolute(A(Rabbit), C(Orange)), Absolute(F(3), C(Red)), Absolute(F(4), C(Yellow));
    RoundAppend([h0, h1], [h2, h3, h4], AnimalsPinned);
    RoundTwo(h0, h1, AnimalsPinned);
    var t1 := HintStep(h0, AnimalsPinned);
    NarrowOnly(Chicken, Blue, t1, 1);
    var t2 := t1[1 := DomainView({Chicken}, {Blue})];
    RoundThree(h2, h3, h4, t2);
    NarrowOnly(Rabbit, Orange, t2, 0);
    var t3 := t2[0 := DomainView({Rabbit}, {Orange})];
    assert HintStep(h4, HintStep(h3, t3)) == CompleteDomains;
  }


  /** The first round over the complete hints pins every floor. */
  lemma CompleteFirstRound()
    ensures Round(CompleteHints, Start) == RoundOutcome(CompleteDomains, true)
  {
    RoundAppend(AnimalPlacement, ColorPlacement, Start);
    AnimalPlacementRound();
    ColorPlacementRound();
  }

  /** The second round changes nothing. */
  lemma CompleteSecondRound()
    ensures Round(CompleteHints, CompleteDomains) == RoundOutcome(CompleteDomains, false)
  {
    var D := CompleteDomains;
    forall h | h in CompleteHints
      ensures HintStep(h, D) == D
    {
      assert h in AnimalPlacement || h in ColorPlacement;
    }
    RoundUnchanged(CompleteHints, D);
  }

  /** The complete hints: every floor is determined by propagation and the
      singletons pass verify_all_hints, 1 tower, as the enumeration. */
  lemma CompleteAlternative()
    ensures AlternativeCount(CompleteHints) == EnumCount(CompleteHints) == 1
  {
    var D := CompleteDomains;
    CompleteFirstRound();
    CompleteSecondRound();
    SettledCount(CompleteHints, D);
    SingletonsComplete(D, 5);
    var s := Singletons(D);
    assert s == Candidate(CompleteAnimals, CompleteColors);
    CompleteIsListing();
    CompleteAccepts(CompleteAnimals, CompleteColors);
    DeclarationOrderListing();
    CompleteCount(AllAnimals, AllColors);
  }

  // ----- an animal and a colour without a floor -----

  /** Every floor narrowed to the grasshopper on orange. */
  const GrasshopperEverywhere: seq<DomainView> := [
    DomainView({Grasshopper}, {Orange}),
    DomainView({Grasshopper}, {Orange})] + [
    DomainView({Grasshopper}, {Orange}),
    DomainView({Grasshopper}, {Orange}),
    DomainView({Grasshopper}, {Orange})]

  /** Absolute(Grasshopper, Orange) narrows every floor to the grasshopper
      on orange: all five floors become singletons holding the same pair,
      the one hint holds on them, and the alternative count is 1 where the
      enumeration finds 2880 towers. */
  lemma GrasshopperOrangeAlternative()
    ensures var hints := [Absolute(A(Grasshopper), C(Orange))];
            AlternativeCount(hints) == 1 && EnumCount(hints) == 2880
  {
    var h := Absolute(A(Grasshopper), C(Orange));
    var D := GrasshopperEverywhere;
    RoundCons(h, [], Start);
    RoundCons(h, [], D);
    assert [h] + [] == [h];
    assert HintStep(h, Start) == D;
    assert Frog !in D[0].animals;
    SettledCount([h], D);
    SingletonsComplete(D, 5);
    var s := Singletons(D);
    assert Matches(s[0], h.attr1) && Matches(s[0], h.attr2);
    AbsoluteMeaning(h.attr1, h.attr2, s);
    DeclarationOrderListing();
    AnimalColorAbsoluteCount(AllAnimals, AllColors);
  }

  // ----- the two worked examples -----

  /** Its domains after propagation: two animals, one colour, one pair. */
  const FirstExampleDomains: seq<DomainView> := [
    DomainView({Rabbit}, ColorSet),
    DomainView({Chicken}, ColorSet)] + [
    DomainView(AnimalSet, {Red}),
    DomainView({Grasshopper}, {Orange}),
    DomainView({Bird}, ColorSet)]

  lemma FirstExampleFirstRound()
    ensures Round(FirstExample, Start) == RoundOutcome(FirstExampleDomains, true)
  {
    var h0, h1, h2 := Absolute(A(Rabbit), F(1)), Absolute(A(Chicken), F(2)), Absolute(F(3), C(Red));
    var h3, h4, h5 := Absolute(A(Bird), F(5)), Absolute(A(Grasshopper), C(Orange)), Neighbor(C(Yellow), C(Green));
    RoundAppend([h0, h1, h2], [h3, h4, h5], Start);
    RoundThree(h0, h1, h2, Start);
    var t1 := HintStep(h0, Start);
    assert Frog !in t1[0].animals;
    var t3 := HintStep(h2, HintStep(h1, t1));
    RoundThree(h3, h4, h5, t3);
    var t4 := HintStep(h3, t3);
    NarrowOnly(Grasshopper, Orange, t4, 3);
    assert t4[3 := DomainView({Grasshopper}, {Orange})] == FirstExampleDomains;
  }


  /** The first worked example: propagation leaves open floors, so the
      count is the enumeration's, 2. */
  lemma FirstExampleAlternative()
    ensures AlternativeCount(FirstExample) == EnumCount(FirstExample) == 2
  {
    DeclarationOrderListing();
    FirstExampleCount(AllAnimals, AllColors);
    var D := FirstExampleDomains;
    FirstExampleFirstRound();
    forall h | h in FirstExample
      ensures HintStep(h, D) == D
    {
    }
    RoundUnchanged(FirstExample, D);
    assert |D[0].colors| == 5 by {
      StartNonEmpty();
    }
    FallbackCount(FirstExample, D, 0);
  }

  /** Its domains after propagation: the frog pair on floors 2 to 4. */
  const SecondExampleDomains: seq<DomainView> := [
    DomainView(AnimalSet, {Green}),
    DomainView({Frog}, {Yellow})] + [
    DomainView({Frog}, {Yellow}),
    DomainView({Frog}, {Yellow}),
    DomainView({Bird}, ColorSet)]

  lemma SecondExampleFirstRound()
    ensures Round(SecondExample, Start) == RoundOutcome(SecondExampleDomains, true)
  {
    var h0, h1, h2 := Absolute(A(Bird), F(5)), Absolute(F(1), C(Green)), Absolute(A(Frog), C(Yellow));
    var h3, h4, h5 := Neighbor(A(Frog), A(Grasshopper)), Neighbor(C(Red), C(Orange)), Relative(A(Chicken), C(Blue), -4);
    RoundAppend([h0, h1, h2], [h3, h4, h5], Start);
    RoundThree(h0, h1, h2, Start);
    var t1 := HintStep(h0, Start);
    assert Frog !in t1[4].animals;
    var t2 := HintStep(h1, t1);
    assert HintStep(h2, t2) == SecondExampleDomains;
    RoundThree(h3, h4, h5, SecondExampleDomains);
  }


  /** The second worked example: again open floors, the enumeration's
      count, 4. */
  lemma SecondExampleAlternative()
    ensures AlternativeCount(SecondExample) == EnumCount(SecondExample) == 4
  {
    DeclarationOrderListing();
    SecondExampleCount(AllAnimals, AllColors);
    var D := SecondExampleDomains;
    SecondExampleFirstRound();
    forall h | h in SecondExample
      ensures HintStep(h, D) == D
    {
    }
    RoundUnchanged(SecondExample, D);
    assert |D[0].animals| == 5 by {
      StartNonEmpty();
    }
    FallbackCount(SecondExample, D, 0);
  }

  // ----- the comparison of the two solutions -----

  const RelativeList: seq<Hint> := [
    Relative(A(Rabbit), C(Green), -2),
    Relative(A(Chicken), C(Blue), -1),
    Relative(A(Frog), C(Red), 1)]

  const NeighborList: seq<Hint> := [
    Neighbor(A(Rabbit), A(Chicken)),
    Neighbor(C(Red), C(Blue)),
    Neighbor(A(Frog), C(Green))]

  /** The hint list of the performance comparison. */
  const PerformanceList: seq<Hint> := [
    Absolute(A(Rabbit), F(1)),
    Absolute(A(Chicken), F(2)),
    Absolute(F(3), C(Red))] + [
    Neighbor(C(Yellow), C(Green)),
    Relative(A(Frog), C(Blue), -2)]

  /** Its domains after propagation: floors 1 to 3 pinned, 4 and 5 open. */
  const PerformanceDomains: seq<DomainView> := [
    DomainView({Rabbit}, ColorSet),
    DomainView({Chicken}, ColorSet)] + [
    DomainView(AnimalSet, {Red}),
    Full,
    Full]

  lemma PerformanceFirstRound()
    ensures Round(PerformanceList, Start) == RoundOutcome(PerformanceDomains, true)
  {
    var h0, h1, h2 := Absolute(A(Rabbit), F(1)), Absolute(A(Chicken), F(2)), Absolute(F(3), C(Red));
    var h3, h4 := Neighbor(C(Yellow), C(Green)), Relative(A(Frog), C(Blue), -2);
    RoundAppend([h0, h1, h2], [h3, h4], Start);
    RoundThree(h0, h1, h2, Start);
    var t1 := HintStep(h0, Start);
    assert Frog !in t1[0].animals;
    var t3 := HintStep(h2, HintStep(h1, t1));
    RoundTwo(h3, h4, t3);
    assert t3 == PerformanceDomains;
  }

  /** The performance comparison: three pins leave floors 4 and 5 open, so
      the alternative hands the count to the enumeration and both agree. */
  lemma PerformanceAlternative()
    ensures AlternativeCount(PerformanceList) == EnumCount(PerformanceList)
  {
    var D := PerformanceDomains;
    PerformanceFirstRound();
    forall h | h in PerformanceList
      ensures HintStep(h, D) == D
    {
    }
    RoundUnchanged(PerformanceList, D);
    assert !D[3].IsSingleton() by {
      StartNonEmpty();
    }
    FallbackCount(PerformanceList, D, 3);
  }

  /** The basic comparisons: the three worked examples. */
  lemma BasicComparisons()
    ensures AlternativeCount(FirstExample) == EnumCount(FirstExample) == 2
    ensures AlternativeCount(SecondExample) == EnumCount(SecondExample) == 4
    ensures AlternativeCount([Relative(A(Rabbit), C(Green), -2)]) == EnumCount([Relative(A(Rabbit), C(Green), -2)]) == 1728
  {
    FirstExampleAlternative();
    SecondExampleAlternative();
    RelationalHintsCount([Relative(A(Rabbit), C(Green), -2)]);
    DeclarationOrderListing();
    RelativeBelowCount(AllAnimals, AllColors);
  }

  /** The edge cases: no hints, one hint, contradicting hints. */
  lemma EdgeComparisons()
    ensures AlternativeCount([]) == EnumCount([]) == 14400
    ensures AlternativeCount([Absolute(A(Rabbit), F(1))]) == EnumCount([Absolute(A(Rabbit), F(1))]) == 2880
    ensures AlternativeCount([Absolute(A(Rabbit), F(1)), Absolute(A(Bird), F(1))]) == 0
    ensures EnumCount([Absolute(A(Rabbit), F(1)), Absolute(A(Bird), F(1))]) == 0
  {
    RelationalHintsCount([]);
    SingleAbsoluteAlternative();
    ContradictingAlternative();
  }

  /** The complex cases: the complete hints, three Relative hints, three
      Neighbor hints. */
  lemma ComplexComparisons()
    ensures AlternativeCount(CompleteHints) == EnumCount(CompleteHints) == 1
    ensures AlternativeCount(RelativeList) == EnumCount(RelativeList)
    ensures AlternativeCount(NeighborList) == EnumCount(NeighborList)
  {
    CompleteAlternative();
    RelationalHintsCount(RelativeList);
    RelationalHintsCount(NeighborList);
  }

  /** On the lists the comparison tests use, written with the alternative
      module's own enumerations, the two solutions agree, with the values
      the tests name wherever this model derives the count. */
  lemma ComparisonSuite()
    ensures AlternativeCount(FirstExample) == EnumCount(FirstExample) == 2
    ensures AlternativeCount(SecondExample) == EnumCount(SecondExample) == 4
    ensures AlternativeCount([Relative(A(Rabbit), C(Green), -2)]) == EnumCount([Relative(A(Rabbit), C(Green), -2)]) == 1728
    ensures AlternativeCount([]) == EnumCount([]) == 14400
    ensures AlternativeCount([Absolute(A(Rabbit), F(1))]) == EnumCount([Absolute(A(Rabbit), F(1))]) == 2880
    ensures AlternativeCount([Absolute(A(Rabbit), F(1)), Absolute(A(Bird), F(1))]) == 0
    ensures EnumCount([Absolute(A(Rabbit), F(1)), Absolute(A(Bird), F(1))]) == 0
    ensures AlternativeCount(CompleteHints) == EnumCount(CompleteHints) == 1
    ensures AlternativeCount(RelativeList) == EnumCount(RelativeList)
    ensures AlternativeCount(NeighborList) == EnumCount(NeighborList)
    ensures AlternativeCount(PerformanceList) == EnumCount(PerformanceList)
  {
    PerformanceAlternative();
    BasicComparisons();
    EdgeComparisons();
    ComplexComparisons();
  }
}
