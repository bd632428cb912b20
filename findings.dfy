/** Hint lists on which the alternative count_assignments parts from the
    enumeration, and what the corrected count returns on them. */
// Constant hint lists and towers below are written as two concatenated
// displays, which keeps the verifier from evaluating each literal as a whole.
module Findings {
  import opened Tower
  import opened Hints
  import opened Permutations
  import opened BruteForce
  import opened HintCounts
  import opened SuiteCounts
  import opened Propagation
  import opened AlternativeSuite
  import opened PropagationSoundness

  // ----- an animal tied to a colour -----

  /** The corrected count leaves Absolute(Grasshopper, Orange) to the
      enumeration: 2880 towers. */
  lemma GrasshopperOrangeCorrected()
    ensures var hints := [Absolute(A(Grasshopper), C(Orange))];
            CorrectedCount(hints) == EnumCount(hints) == 2880
  {
    CorrectedIsEnumeration([Absolute(A(Grasshopper), C(Orange))]);
    GrasshopperOrangeAlternative();
  }

  // ----- settled singletons that repeat an animal -----

  /** Floor pins naming the rabbit on floors 1 and 2. */
  const RabbitTwicePins: seq<Hint> := [
    Absolute(A(Rabbit), F(1)),
    Absolute(A(Rabbit), F(2))] + [
    Absolute(F(3), A(Bird)),
    Absolute(F(4), A(Frog)),
    Absolute(F(5), A(Grasshopper))]

  /** Floor pins giving every floor its own colour. */
  const FloorColors: seq<Hint> := [
    Absolute(F(1), C(Orange)),
    Absolute(F(2), C(Blue))] + [
    Absolute(F(3), C(Red)),
    Absolute(F(4), C(Yellow)),
    Absolute(F(5), C(Green))]

  const RabbitTwice: seq<Hint> := RabbitTwicePins + FloorColors

  const RabbitTwiceAnimals: seq<DomainView> := [
    DomainView({Rabbit}, ColorSet),
    DomainView({Rabbit}, ColorSet)] + [
    DomainView({Bird}, ColorSet),
    DomainView({Frog}, ColorSet),
    DomainView({Grasshopper}, ColorSet)]

  const RabbitTwiceDomains: seq<DomainView> := [
    DomainView({Rabbit}, {Orange}),
    DomainView({Rabbit}, {Blue})] + [
    DomainView({Bird}, {Red}),
    DomainView({Frog}, {Yellow}),
    DomainView({Grasshopper}, {Green})]

  lemma RabbitTwicePinsRound()
    ensures Round(RabbitTwicePins, Start) == RoundOutcome(RabbitTwiceAnimals, true)
  {
    var h0, h1 := Absolute(A(Rabbit), F(1)), Absolute(A(Rabbit), F(2));
    var h2, h3, h4 := Absolute(F(3), A(Bird)), Absolute(F(4), A(Frog)), Absolute(F(5), A(Grasshopper));
    RoundAppend([h0, h1], [h2, h3, h4], Start);
    RoundTwo(h0, h1, Start);
    var t1 := HintStep(h0, Start);
    assert Frog !in t1[0].animals;
    var t2 := HintStep(h1, t1);
    RoundThree(h2, h3, h4, t2);
    assert HintStep(h4, HintStep(h3, HintStep(h2, t2))) == RabbitTwiceAnimals;
  }


  lemma FloorColorsRound()
    ensures Round(FloorColors, RabbitTwiceAnimals).views == RabbitTwiceDomains
  {
    var h0, h1 := Absolute(F(1), C(Orange)), Absolute(F(2), C(Blue));
    var h2, h3, h4 := Absolute(F(3), C(Red)), Absolute(F(4), C(Yellow)), Absolute(F(5), C(Green));
    RoundAppend([h0, h1], [h2, h3, h4], RabbitTwiceAnimals);
    RoundTwo(h0, h1, RabbitTwiceAnimals);
    var t2 := HintStep(h1, HintStep(h0, RabbitTwiceAnimals));
    RoundThree(h2, h3, h4, t2);
    assert HintStep(h4, HintStep(h3, HintStep(h2, t2))) == RabbitTwiceDomains;
  }


  lemma RabbitTwiceRounds()
    ensures Round(RabbitTwice, Start) == RoundOutcome(RabbitTwiceDomains, true)
    ensures Round(RabbitTwice, RabbitTwiceDomains) == RoundOutcome(RabbitTwiceDomains, false)
  {
    RoundAppend(RabbitTwicePins, FloorColors, Start);
    RabbitTwicePinsRound();
    FloorColorsRound();
    RabbitTwiceSecondRound();
  }

  /** The second round over those hints changes nothing. */
  lemma RabbitTwiceSecondRound()
    ensures Round(RabbitTwice, RabbitTwiceDomains) == RoundOutcome(RabbitTwiceDomains, false)
  {
    var D := RabbitTwiceDomains;
    forall h | h in RabbitTwice
      ensures HintStep(h, D) == D
    {
      assert h in RabbitTwicePins || h in FloorColors;
    }
    RoundUnchanged(RabbitTwice, D);
  }

  const RabbitTwiceTower: seq<Animal> := [Rabbit, Rabbit] + [Bird, Frog, Grasshopper]
  const RabbitTwiceColors: seq<Color> := [Orange, Blue] + [Red, Yellow, Green]

  /** The rabbit pins hold on the tower with the rabbit on floors 1 and 2. */
  lemma RabbitTwicePinsHold()
    ensures AllSatisfied(RabbitTwicePins, Candidate(RabbitTwiceTower, RabbitTwiceColors))
  {
    var hs, p, q := RabbitTwicePins, RabbitTwiceTower, RabbitTwiceColors;
    AbsoluteOnFloor(hs[0], p, q, 0);
    AbsoluteOnFloor(hs[1], p, q, 1);
    AbsoluteOnFloor(hs[2], p, q, 2);
    AbsoluteOnFloor(hs[3], p, q, 3);
    AbsoluteOnFloor(hs[4], p, q, 4);
  }

  lemma FloorColorsHold()
    ensures AllSatisfied(FloorColors, Candidate(RabbitTwiceTower, RabbitTwiceColors))
  {
    var hs, p, q := FloorColors, RabbitTwiceTower, RabbitTwiceColors;
    AbsoluteOnFloor(hs[0], p, q, 0);
    AbsoluteOnFloor(hs[1], p, q, 1);
    AbsoluteOnFloor(hs[2], p, q, 2);
    AbsoluteOnFloor(hs[3], p, q, 3);
    AbsoluteOnFloor(hs[4], p, q, 4);
  }

  /** The settled singletons put the rabbit on floors 1 and 2, and every
      hint of the list holds on them. */
  lemma RabbitTwiceSingletons()
    ensures var s := Singletons(RabbitTwiceDomains);
            AllSatisfied(RabbitTwice, s) && !FormsTower(s)
  {
    var D := RabbitTwiceDomains;
    var s := Singletons(D);
    assert D[0].IsSingleton() && D[1].IsSingleton() && D[2].IsSingleton() && D[3].IsSingleton() && D[4].IsSingleton();
    var t := Candidate(RabbitTwiceTower, RabbitTwiceColors);
    assert s == t;
    RabbitTwicePinsHold();
    FloorColorsHold();
    AllSatisfiedAppend(RabbitTwicePins, FloorColors, s);
    assert s[0].animal == s[1].animal;
  }

  /** No tower puts the rabbit on two floors. */
  lemma RabbitTwiceCount()
    ensures EnumCount(RabbitTwice) == 0
  {
    var h0, h1 := RabbitTwice[0], RabbitTwice[1];
    DeclarationOrderListing();
    PermsDistinct(AllAnimals);
    EnumerationShape(AllAnimals, AllColors);
    forall p, q | p in Perms(AllAnimals) && q in Perms(AllColors)
      ensures !AcceptsFn(RabbitTwice)(p, q)
    {
      FloorSecondPin(h0, p, q);
      FloorSecondPin(h1, p, q);
    }
    CountPairsNone(Perms(AllAnimals), Perms(AllColors), AcceptsFn(RabbitTwice));
  }

  /** As written, count_assignments returns 1 on the list: propagation
      settles every floor and verify_all_hints passes on the singletons,
      though they hold the rabbit twice and no tower satisfies the hints. */
  lemma RabbitTwiceAlternative()
    ensures AlternativeCount(RabbitTwice) == 1 && EnumCount(RabbitTwice) == 0
  {
    RabbitTwiceRounds();
    var D := RabbitTwiceDomains;
    assert forall i :: 0 <= i < 5 ==> D[i].IsSingleton();
    SettledCount(RabbitTwice, D);
    RabbitTwiceSingletons();
    RabbitTwiceCount();
  }

  /** The corrected count rejects the repeated rabbit and returns 0. */
  lemma RabbitTwiceCorrected()
    ensures CorrectedCount(RabbitTwice) == EnumCount(RabbitTwice) == 0
  {
    CorrectedIsEnumeration(RabbitTwice);
    RabbitTwiceCount();
  }
}
