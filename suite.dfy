/** The counts the repository's test suites expect from count_assignments,
    proved for every listing of the domain, list(Animal) and list(Color)
    among them. */
// Constant hint lists below are written as two concatenated displays, which
// keeps the verifier from evaluating each literal list as a whole.
module SuiteCounts {
  import opened Tower
  import opened Hints
  import opened Permutations
  import opened BruteForce
  import opened HintCounts

  // ----- one hint -----

  /** The rabbit on the first floor: 5! * 4! towers. */
  lemma OneAbsoluteCount(animals: seq<Animal>, colors: seq<Color>)
    requires Listing(animals, colors)
    ensures Solutions([Absolute(A(Rabbit), F(1))], animals, colors) == 2880
  {
    var h := Absolute(A(Rabbit), F(1));
    AnimalFloorCount(h, animals, colors);
    FloorsPassingCount(HintTest(h), 1);
  }

  /** Relative(Rabbit, First, 0) counts like the absolute hint. */
  lemma RelativeZeroFloorCount(animals: seq<Animal>, colors: seq<Color>)
    requires Listing(animals, colors)
    ensures Solutions([Relative(A(Rabbit), F(1), 0)], animals, colors) == 2880
  {
    var h := Relative(A(Rabbit), F(1), 0);
    AnimalFloorCount(h, animals, colors);
    FloorsPassingCount(HintTest(h), 1);
  }

  /** The rabbit two floors below green: three pairs of floors, 3 * 4! * 4!. */
  lemma RelativeBelowCount(animals: seq<Animal>, colors: seq<Color>)
    requires Listing(animals, colors)
    ensures Solutions([Relative(A(Rabbit), C(Green), -2)], animals, colors) == 1728
  {
    var h := Relative(A(Rabbit), C(Green), -2);
    AnimalColorCount(h, animals, colors);
    PairsPassingCount(HintTest(h));
  }

  /** An animal next to a colour: eight pairs of adjacent floors, 8 * 4! * 4!. */
  lemma AnimalNextToColorCount(a: Animal, c: Color, animals: seq<Animal>, colors: seq<Color>)
    requires Listing(animals, colors)
    ensures Solutions([Neighbor(A(a), C(c))], animals, colors) == 4608
  {
    var h := Neighbor(A(a), C(c));
    AnimalColorCount(h, animals, colors);
    PairsPassingCount(HintTest(h));
    AdjacentPairs();
  }

  /** Eight ordered pairs of floors are adjacent. */
  lemma AdjacentPairs()
    ensures PairsPassing(Adjacent) == 8
  {
    AdjacentFrom(1);
    AdjacentFrom(2);
    AdjacentFrom(3);
    AdjacentFrom(4);
    AdjacentFrom(5);
  }

  lemma AdjacentFrom(f: int)
    requires 1 <= f <= 5
    ensures FromFloor(Adjacent, f) == if f == 1 || f == 5 then 1 else 2
  {
  }

  /** The rabbit next to green. */
  lemma OneNeighborCount(animals: seq<Animal>, colors: seq<Color>)
    requires Listing(animals, colors)
    ensures Solutions([Neighbor(A(Rabbit), C(Green))], animals, colors) == 4608
  {
    AnimalNextToColorCount(Rabbit, Green, animals, colors);
  }

  /** The grasshopper on the orange floor: five floors, 5 * 4! * 4!. */
  lemma AnimalColorAbsoluteCount(animals: seq<Animal>, colors: seq<Color>)
    requires Listing(animals, colors)
    ensures Solutions([Absolute(A(Grasshopper), C(Orange))], animals, colors) == 2880
  {
    var h := Absolute(A(Grasshopper), C(Orange));
    AnimalColorCount(h, animals, colors);
    PairsPassingCount(HintTest(h));
  }

  // ----- duplicated and redundant hints -----

  lemma DuplicatedAbsoluteCount(animals: seq<Animal>, colors: seq<Color>)
    requires Listing(animals, colors)
    ensures Solutions([Absolute(A(Rabbit), F(1)), Absolute(A(Rabbit), F(1))], animals, colors) == 2880
  {
    DuplicateHintCount(Absolute(A(Rabbit), F(1)), animals, colors);
    OneAbsoluteCount(animals, colors);
  }

  lemma DuplicatedNeighborCount(animals: seq<Animal>, colors: seq<Color>)
    requires Listing(animals, colors)
    ensures Solutions([Neighbor(A(Chicken), C(Blue)), Neighbor(A(Chicken), C(Blue))], animals, colors) == 4608
  {
    DuplicateHintCount(Neighbor(A(Chicken), C(Blue)), animals, colors);
    AnimalNextToColorCount(Chicken, Blue, animals, colors);
  }

  /** The fourth floor is yellow, said both ways round. */
  lemma RedundantAbsoluteCount(animals: seq<Animal>, colors: seq<Color>)
    requires Listing(animals, colors)
    ensures Solutions([Absolute(F(4), C(Yellow)), Absolute(C(Yellow), F(4))], animals, colors) == 2880
  {
    var hints := [Absolute(F(4), C(Yellow)), Absolute(C(Yellow), F(4))];
    var h := Absolute(C(Yellow), F(4));
    AbsoluteSwapCount(hints, 0, F(4), C(Yellow), animals, colors);
    assert hints[0 := h] == [h, h];
    DuplicateHintCount(h, animals, colors);
    ColorFloorCount(h, animals, colors);
    FloorsPassingCount(HintTest(h), 4);
  }

  /** The rabbit two floors above the first, and the first two floors below
      the rabbit. */
  lemma RedundantRelativeCount(animals: seq<Animal>, colors: seq<Color>)
    requires Listing(animals, colors)
    ensures Solutions([Relative(A(Rabbit), F(1), 2), Relative(F(1), A(Rabbit), -2)], animals, colors) == 2880
  {
    var hints := [Relative(A(Rabbit), F(1), 2), Relative(F(1), A(Rabbit), -2)];
    var h := Relative(A(Rabbit), F(1), 2);
    RelativeSwapCount(hints, 1, F(1), A(Rabbit), -2, animals, colors);
    assert hints[1 := h] == [h, h];
    DuplicateHintCount(h, animals, colors);
    AnimalFloorCount(h, animals, colors);
    FloorsPassingCount(HintTest(h), 1);
  }

  /** The bird next to blue, said both ways round. */
  lemma RedundantNeighborCount(animals: seq<Animal>, colors: seq<Color>)
    requires Listing(animals, colors)
    ensures Solutions([Neighbor(A(Bird), C(Blue)), Neighbor(C(Blue), A(Bird))], animals, colors) == 4608
  {
    var hints := [Neighbor(A(Bird), C(Blue)), Neighbor(C(Blue), A(Bird))];
    var h := Neighbor(A(Bird), C(Blue));
    NeighborSwapCount(hints, 1, C(Blue), A(Bird), animals, colors);
    assert hints[1 := h] == [h, h];
    DuplicateHintCount(h, animals, colors);
    AnimalNextToColorCount(Bird, Blue, animals, colors);
  }

  // ----- contradicting hints -----

  /** Two different animals cannot both live on floor f. */
  lemma TwoAnimalsOneFloorCount(a: Animal, b: Animal, f: Floor, animals: seq<Animal>, colors: seq<Color>)
    requires a != b && Listing(animals, colors)
    ensures Solutions([Absolute(A(a), F(f)), Absolute(A(b), F(f))], animals, colors) == 0
  {
    var hints := [Absolute(A(a), F(f)), Absolute(A(b), F(f))];
    EnumerationShape(animals, colors);
    forall p, q | p in Perms(animals) && q in Perms(colors)
      ensures !AcceptsFn(hints)(p, q)
    {
      FloorSecondPin(hints[0], p, q);
      FloorSecondPin(hints[1], p, q);
    }
    CountPairsNone(Perms(animals), Perms(colors), AcceptsFn(hints));
  }

  /** Two different colours cannot both paint floor f. */
  lemma TwoColorsOneFloorCount(c: Color, d: Color, f: Floor, animals: seq<Animal>, colors: seq<Color>)
    requires c != d && Listing(animals, colors)
    ensures Solutions([Absolute(C(c), F(f)), Absolute(C(d), F(f))], animals, colors) == 0
  {
    var hints := [Absolute(C(c), F(f)), Absolute(C(d), F(f))];
    EnumerationShape(animals, colors);
    forall p, q | p in Perms(animals) && q in Perms(colors)
      ensures !AcceptsFn(hints)(p, q)
    {
      FloorSecondPin(hints[0], p, q);
      FloorSecondPin(hints[1], p, q);
    }
    CountPairsNone(Perms(animals), Perms(colors), AcceptsFn(hints));
  }

  /** The rabbit and the bird cannot both live on the first floor. */
  lemma ContradictingCount(animals: seq<Animal>, colors: seq<Color>)
    requires Listing(animals, colors)
    ensures Solutions([Absolute(A(Rabbit), F(1)), Absolute(A(Bird), F(1))], animals, colors) == 0
  {
    TwoAnimalsOneFloorCount(Rabbit, Bird, 1, animals, colors);
  }

  // ----- a complete specification -----

  /** Ten absolute hints that fix the tower completely: five place the
      animals, five the colours. Each list is written as a concatenation so
      that the verifier reasons about it instead of evaluating it. */
  const AnimalPlacement: seq<Hint> := [
    Absolute(A(Rabbit), F(1)),
    Absolute(A(Chicken), F(2))] + [
    Absolute(F(3), A(Bird)),
    Absolute(F(4), A(Frog)),
    Absolute(F(5), A(Grasshopper))]

  const ColorPlacement: seq<Hint> := [
    Absolute(F(5), C(Green)),
    Absolute(A(Chicken), C(Blue))] + [
    Absolute(A(Rabbit), C(Orange)),
    Absolute(F(3), C(Red)),
    Absolute(F(4), C(Yellow))]

  const CompleteHints: seq<Hint> := AnimalPlacement + ColorPlacement

  /** The same ten hints as Relative hints of difference 0. */
  const RelativeAnimalPlacement: seq<Hint> := [
    Relative(A(Rabbit), F(1), 0),
    Relative(A(Chicken), F(2), 0)] + [
    Relative(F(3), A(Bird), 0),
    Relative(F(4), A(Frog), 0),
    Relative(F(5), A(Grasshopper), 0)]

  const RelativeColorPlacement: seq<Hint> := [
    Relative(F(5), C(Green), 0),
    Relative(A(Chicken), C(Blue), 0)] + [
    Relative(A(Rabbit), C(Orange), 0),
    Relative(F(3), C(Red), 0),
    Relative(F(4), C(Yellow), 0)]

  const RelativeCompleteHints: seq<Hint> := RelativeAnimalPlacement + RelativeColorPlacement

  /** The one tower they allow, floor 1 first. */
  const CompleteAnimals: seq<Animal> := [Rabbit, Chicken, Bird, Frog, Grasshopper]
  const CompleteColors: seq<Color> := [Orange, Blue, Red, Yellow, Green]

  lemma CompleteIsListing()
    ensures Listing(CompleteAnimals, CompleteColors)
  {
    forall a: Animal ensures a in CompleteAnimals {
      match a
      case Rabbit => assert CompleteAnimals[0] == a;
      case Chicken => assert CompleteAnimals[1] == a;
      case Bird => assert CompleteAnimals[2] == a;
      case Frog => assert CompleteAnimals[3] == a;
      case Grasshopper => assert CompleteAnimals[4] == a;
    }
    forall c: Color ensures c in CompleteColors {
      match c
      case Orange => assert CompleteColors[0] == c;
      case Blue => assert CompleteColors[1] == c;
      case Red => assert CompleteColors[2] == c;
      case Yellow => assert CompleteColors[3] == c;
      case Green => assert CompleteColors[4] == c;
    }
  }

  /** The animal hints leave only one order of the animals. */
  lemma AnimalPlacementForces(p: seq<Animal>, q: seq<Color>)
    requires |p| == 5 && |q| == 5 && AllSatisfied(AnimalPlacement, Candidate(p, q))
    ensures p[0] == Rabbit && p[1] == Chicken && p[2] == Bird && p[3] == Frog && p[4] == Grasshopper
  {
    var hs := AnimalPlacement;
    assert hs[0] in hs && hs[1] in hs && hs[2] in hs && hs[3] in hs && hs[4] in hs;
    FloorSecondPin(hs[0], p, q);
    FloorSecondPin(hs[1], p, q);
    FloorFirstPin(hs[2], p, q);
    FloorFirstPin(hs[3], p, q);
    FloorFirstPin(hs[4], p, q);
  }

  /** With the animals in place, the colour hints leave only one order of
      the colours. */
  lemma ColorPlacementForces(p: seq<Animal>, q: seq<Color>)
    requires |p| == 5 && |q| == 5 && Distinct(p) && p[0] == Rabbit && p[1] == Chicken
    requires AllSatisfied(ColorPlacement, Candidate(p, q))
    ensures q[0] == Orange && q[1] == Blue && q[2] == Red && q[3] == Yellow && q[4] == Green
  {
    var hs := ColorPlacement;
    assert hs[0] in hs && hs[1] in hs && hs[2] in hs && hs[3] in hs && hs[4] in hs;
    FloorFirstPin(hs[0], p, q);
    AnimalColorPin(hs[1], p, q, 1);
    AnimalColorPin(hs[2], p, q, 0);
    FloorFirstPin(hs[3], p, q);
    FloorFirstPin(hs[4], p, q);
  }

  /** The animal hints hold once the animals are in place. */
  lemma AnimalPlacementHolds(p: seq<Animal>, q: seq<Color>)
    requires |p| == 5 && |q| == 5
    requires p[0] == Rabbit && p[1] == Chicken && p[2] == Bird && p[3] == Frog && p[4] == Grasshopper
    ensures AllSatisfied(AnimalPlacement, Candidate(p, q))
  {
    var hs := AnimalPlacement;
    AbsoluteOnFloor(hs[0], p, q, 0);
    AbsoluteOnFloor(hs[1], p, q, 1);
    AbsoluteOnFloor(hs[2], p, q, 2);
    AbsoluteOnFloor(hs[3], p, q, 3);
    AbsoluteOnFloor(hs[4], p, q, 4);
  }

  /** The colour hints hold once animals and colours are in place. */
  lemma ColorPlacementHolds(p: seq<Animal>, q: seq<Color>)
    requires |p| == 5 && |q| == 5 && p[0] == Rabbit && p[1] == Chicken
    requires q[0] == Orange && q[1] == Blue && q[2] == Red && q[3] == Yellow && q[4] == Green
    ensures AllSatisfied(ColorPlacement, Candidate(p, q))
  {
    var hs := ColorPlacement;
    AbsoluteOnFloor(hs[0], p, q, 4);
    AbsoluteOnFloor(hs[1], p, q, 1);
    AbsoluteOnFloor(hs[2], p, q, 0);
    AbsoluteOnFloor(hs[3], p, q, 2);
    AbsoluteOnFloor(hs[4], p, q, 3);
  }

  /** Exactly the expected tower meets the ten hints. */
  lemma CompleteAccepts(p: seq<Animal>, q: seq<Color>)
    requires |p| == 5 && |q| == 5 && Distinct(p)
    ensures AcceptsFn(CompleteHints)(p, q) <==> p == CompleteAnimals && q == CompleteColors
  {
    AllSatisfiedAppend(AnimalPlacement, ColorPlacement, Candidate(p, q));
    if AcceptsFn(CompleteHints)(p, q) {
      AnimalPlacementForces(p, q);
      ColorPlacementForces(p, q);
      assert p == CompleteAnimals && q == CompleteColors;
    }
    if p == CompleteAnimals && q == CompleteColors {
      AnimalPlacementHolds(p, q);
      ColorPlacementHolds(p, q);
    }
  }

  /** The complete specification leaves exactly one tower. */
  lemma CompleteCount(animals: seq<Animal>, colors: seq<Color>)
    requires Listing(animals, colors)
    ensures Solutions(CompleteHints, animals, colors) == 1
  {
    var P, Q := CompleteAnimals, CompleteColors;
    EnumerationShape(animals, colors);
    PermsDistinct(animals);
    forall p, q | p in Perms(animals) && q in Perms(colors)
      ensures AcceptsFn(CompleteHints)(p, q) == (EqualTo(P)(p) && EqualTo(Q)(q))
    {
      CompleteAccepts(p, q);
    }
    CountPairsProduct(Perms(animals), Perms(colors), AcceptsFn(CompleteHints), EqualTo(P), EqualTo(Q));
    CompleteIsListing();
    ListingsAgree(P, Q, animals, colors);
    PermsCountEq(animals, P);
    PermsCountEq(colors, Q);
  }

  lemma RelativeCompleteIsRelativized()
    ensures Relativize(CompleteHints) == RelativeCompleteHints
  {
    RelativizeAppend(AnimalPlacement, ColorPlacement);
    assert Relativize(AnimalPlacement) == RelativeAnimalPlacement;
    assert Relativize(ColorPlacement) == RelativeColorPlacement;
  }

  /** Written as Relative hints of difference 0, they still leave one tower. */
  lemma RelativeCompleteCount(animals: seq<Animal>, colors: seq<Color>)
    requires Listing(animals, colors)
    ensures Solutions(RelativeCompleteHints, animals, colors) == 1
  {
    RelativeCompleteIsRelativized();
    RelativizeCount(CompleteHints, animals, colors);
    CompleteCount(animals, colors);
  }

  // ----- the two worked examples -----

  /** q equals x or y. */
  ghost function EitherOf<T>(x: T, y: T): T -> bool {
    q => q == x || q == y
  }

  /** A sequence of the five animals, each once, occurs exactly once among
      the permutations of a listing. */
  lemma AnimalArrangement(p: seq<Animal>, animals: seq<Animal>)
    requires Distinct(animals) && forall a: Animal :: a in animals
    requires Distinct(p) && Frog in p && Rabbit in p && Grasshopper in p && Bird in p && Chicken in p
    ensures Count(Perms(animals), EqualTo(p)) == 1
  {
    forall a: Animal ensures a in p {
      match a
      case Frog =>
      case Rabbit =>
      case Grasshopper =>
      case Bird =>
      case Chicken =>
    }
    SameElementsMultiset(p, animals);
    PermsCountEq(animals, p);
  }

  /** A sequence of the five colours, each once, occurs exactly once among
      the permutations of a listing. */
  lemma ColorArrangement(q: seq<Color>, colors: seq<Color>)
    requires Distinct(colors) && forall c: Color :: c in colors
    requires Distinct(q) && Red in q && Green in q && Blue in q && Yellow in q && Orange in q
    ensures Count(Perms(colors), EqualTo(q)) == 1
  {
    forall c: Color ensures c in q {
      match c
      case Red =>
      case Green =>
      case Blue =>
      case Yellow =>
      case Orange =>
    }
    SameElementsMultiset(q, colors);
    PermsCountEq(colors, q);
  }

  /** Two sequences of the same two values, one the other one swapped, are
      counted once each. */
  lemma ArrangementPair(q1: seq<Color>, q2: seq<Color>, colors: seq<Color>)
    requires Distinct(colors) && forall c: Color :: c in colors
    requires Distinct(q1) && Red in q1 && Green in q1 && Blue in q1 && Yellow in q1 && Orange in q1
    requires Distinct(q2) && Red in q2 && Green in q2 && Blue in q2 && Yellow in q2 && Orange in q2
    requires q1 != q2
    ensures Count(Perms(colors), EitherOf(q1, q2)) == 2
  {
    CountSplit(Perms(colors), EitherOf(q1, q2), EqualTo(q1), EqualTo(q2));
    ColorArrangement(q1, colors);
    ColorArrangement(q2, colors);
  }

  /** A permutation of a listing holds every value. */
  lemma PermutationHoldsAll(animals: seq<Animal>, colors: seq<Color>, p: seq<Animal>, q: seq<Color>)
    requires Listing(animals, colors) && p in Perms(animals) && q in Perms(colors)
    ensures |p| == 5 && |q| == 5 && Distinct(p) && Distinct(q)
    ensures forall a: Animal :: a in p
    ensures forall c: Color :: c in q
  {
    EnumerationShape(animals, colors);
    EnumerationComplete(animals, colors, p, q);
    PermsDistinct(animals);
    PermsDistinct(colors);
    forall a: Animal ensures a in p {
      assert a in animals;
      assert a in multiset(p);
    }
    forall c: Color ensures c in q {
      assert c in colors;
      assert c in multiset(q);
    }
  }

  /** A list of six hints, written as two halves, holds iff each hint does. */
  lemma AllSatisfiedSix(h0: Hint, h1: Hint, h2: Hint, h3: Hint, h4: Hint, h5: Hint, s: seq<FloorAssignment>)
    ensures AllSatisfied([h0, h1, h2] + [h3, h4, h5], s) <==>
              Satisfied(h0, s) && Satisfied(h1, s) && Satisfied(h2, s) &&
              Satisfied(h3, s) && Satisfied(h4, s) && Satisfied(h5, s)
  {
    var hs := [h0, h1, h2] + [h3, h4, h5];
    assert hs[0] == h0 && hs[1] == h1 && hs[2] == h2 && hs[3] == h3 && hs[4] == h4 && hs[5] == h5;
    assert forall h :: h in hs ==> h == h0 || h == h1 || h == h2 || h == h3 || h == h4 || h == h5;
  }

  /** The first worked example of count_assignments.py. */
  const FirstExample: seq<Hint> := [
    Absolute(A(Rabbit), F(1)),
    Absolute(A(Chicken), F(2)),
    Absolute(F(3), C(Red))] + [
    Absolute(A(Bird), F(5)),
    Absolute(A(Grasshopper), C(Orange)),
    Neighbor(C(Yellow), C(Green))]

  lemma FirstExampleEach(s: seq<FloorAssignment>)
    ensures AllSatisfied(FirstExample, s) <==>
              && Satisfied(Absolute(A(Rabbit), F(1)), s)
              && Satisfied(Absolute(A(Chicken), F(2)), s)
              && Satisfied(Absolute(F(3), C(Red)), s)
              && Satisfied(Absolute(A(Bird), F(5)), s)
              && Satisfied(Absolute(A(Grasshopper), C(Orange)), s)
              && Satisfied(Neighbor(C(Yellow), C(Green)), s)
  {
    AllSatisfiedSix(Absolute(A(Rabbit), F(1)), Absolute(A(Chicken), F(2)), Absolute(F(3), C(Red)),
                    Absolute(A(Bird), F(5)), Absolute(A(Grasshopper), C(Orange)), Neighbor(C(Yellow), C(Green)), s);
  }

  /** Its two towers, floor 1 first: the same animals, yellow and green on
      floors 1 and 2 in either order. */
  const FirstAnimals: seq<Animal> := [Rabbit, Chicken, Frog, Grasshopper, Bird]
  const FirstColors: seq<Color> := [Yellow, Green, Red, Orange, Blue]
  const FirstColorsSwapped: seq<Color> := [Green, Yellow, Red, Orange, Blue]

  /** The two towers, floor by floor. */
  predicate FirstTower(p: seq<Animal>, q: seq<Color>)
    requires |p| == 5 && |q| == 5
  {
    && p[0] == Rabbit && p[1] == Chicken && p[2] == Frog && p[3] == Grasshopper && p[4] == Bird
    && ((q[0] == Yellow && q[1] == Green) || (q[0] == Green && q[1] == Yellow))
    && q[2] == Red && q[3] == Orange && q[4] == Blue
  }

  lemma FirstTowerIs(p: seq<Animal>, q: seq<Color>)
    requires |p| == 5 && |q| == 5
    ensures FirstTower(p, q) <==> p == FirstAnimals && (q == FirstColors || q == FirstColorsSwapped)
  {
    if FirstTower(p, q) {
      assert p == FirstAnimals;
      assert q == [q[0], q[1], Red, Orange, Blue];
    }
  }

  /** With red on floor 3 and the rabbit, chicken and bird on floors 1, 2
      and 5, the grasshopper in orange can only stand on floor 4. */
  lemma GrasshopperOnFour(p: seq<Animal>, q: seq<Color>)
    requires |p| == 5 && |q| == 5 && Distinct(p) && Grasshopper in p
    requires p[0] == Rabbit && p[1] == Chicken && p[4] == Bird && q[2] == Red
    requires Satisfied(Absolute(A(Grasshopper), C(Orange)), Candidate(p, q))
    ensures p[3] == Grasshopper && q[3] == Orange
  {
    var k :| 0 <= k < 5 && p[k] == Grasshopper;
    AnimalColorPin(Absolute(A(Grasshopper), C(Orange)), p, q, k);
  }

  /** With red and orange on floors 3 and 4, yellow and green are neighbours
      only on floors 1 and 2, which leaves blue for floor 5. */
  lemma YellowGreenLow(p: seq<Animal>, q: seq<Color>)
    requires |p| == 5 && |q| == 5 && Blue in q && q[2] == Red && q[3] == Orange
    requires Satisfied(Neighbor(C(Yellow), C(Green)), Candidate(p, q))
    ensures (q[0] == Yellow && q[1] == Green) || (q[0] == Green && q[1] == Yellow)
    ensures q[4] == Blue
  {
    var i, j := PairWitness(Neighbor(C(Yellow), C(Green)), p, q);
    assert q[i] == Yellow && q[j] == Green;
    assert i != 2 && i != 3 && j != 2 && j != 3;
    assert (i == 0 && j == 1) || (i == 1 && j == 0);
    var b :| 0 <= b < 5 && q[b] == Blue;
    assert b != 0 && b != 1 && b != 2 && b != 3;
  }

  /** The four pins of the first example. */
  lemma FirstPins(p: seq<Animal>, q: seq<Color>)
    requires |p| == 5 && |q| == 5
    requires Satisfied(Absolute(A(Rabbit), F(1)), Candidate(p, q))
    requires Satisfied(Absolute(A(Chicken), F(2)), Candidate(p, q))
    requires Satisfied(Absolute(F(3), C(Red)), Candidate(p, q))
    requires Satisfied(Absolute(A(Bird), F(5)), Candidate(p, q))
    ensures p[0] == Rabbit && p[1] == Chicken && q[2] == Red && p[4] == Bird
  {
    FloorSecondPin(Absolute(A(Rabbit), F(1)), p, q);
    FloorSecondPin(Absolute(A(Chicken), F(2)), p, q);
    FloorFirstPin(Absolute(F(3), C(Red)), p, q);
    FloorSecondPin(Absolute(A(Bird), F(5)), p, q);
  }

  /** The frog takes the one floor the other animals leave. */
  lemma FrogOnThree(p: seq<Animal>)
    requires |p| == 5 && Frog in p
    requires p[0] == Rabbit && p[1] == Chicken && p[3] == Grasshopper && p[4] == Bird
    ensures p[2] == Frog
  {
    var m :| 0 <= m < 5 && p[m] == Frog;
  }

  /** The hints of the first example leave only its two towers. */
  lemma FirstExampleForces(p: seq<Animal>, q: seq<Color>)
    requires |p| == 5 && |q| == 5 && Distinct(p)
    requires (forall a: Animal :: a in p) && (forall c: Color :: c in q)
    requires AllSatisfied(FirstExample, Candidate(p, q))
    ensures FirstTower(p, q)
  {
    FirstExampleEach(Candidate(p, q));
    FirstPins(p, q);
    assert Grasshopper in p && Frog in p && Blue in q;
    GrasshopperOnFour(p, q);
    YellowGreenLow(p, q);
    FrogOnThree(p);
  }

  /** Both towers satisfy the six hints. */
  lemma FirstExampleHolds(p: seq<Animal>, q: seq<Color>)
    requires |p| == 5 && |q| == 5 && FirstTower(p, q)
    ensures AllSatisfied(FirstExample, Candidate(p, q))
  {
    FirstExampleEach(Candidate(p, q));
    AbsoluteOnFloor(Absolute(A(Rabbit), F(1)), p, q, 0);
    AbsoluteOnFloor(Absolute(A(Chicken), F(2)), p, q, 1);
    AbsoluteOnFloor(Absolute(F(3), C(Red)), p, q, 2);
    AbsoluteOnFloor(Absolute(A(Bird), F(5)), p, q, 4);
    AbsoluteOnFloor(Absolute(A(Grasshopper), C(Orange)), p, q, 3);
    if q[0] == Yellow {
      FloorsSatisfy(Neighbor(C(Yellow), C(Green)), p, q, 0, 1);
    } else {
      FloorsSatisfy(Neighbor(C(Yellow), C(Green)), p, q, 1, 0);
    }
  }

  /** A tower satisfies the first example iff it is one of its two towers. */
  lemma FirstExampleAccepts(p: seq<Animal>, q: seq<Color>)
    requires |p| == 5 && |q| == 5 && Distinct(p)
    requires (forall a: Animal :: a in p) && (forall c: Color :: c in q)
    ensures AcceptsFn(FirstExample)(p, q) <==>
              p == FirstAnimals && (q == FirstColors || q == FirstColorsSwapped)
  {
    FirstTowerIs(p, q);
    if AcceptsFn(FirstExample)(p, q) {
      FirstExampleForces(p, q);
    }
    if FirstTower(p, q) {
      FirstExampleHolds(p, q);
    }
  }

  /** The two towers as a condition on pairs. */
  ghost function FirstTowers(): (seq<Animal>, seq<Color>) -> bool {
    Both(EqualTo(FirstAnimals), EitherOf(FirstColors, FirstColorsSwapped))
  }

  /** The first example leaves exactly two towers. */
  lemma FirstExampleCount(animals: seq<Animal>, colors: seq<Color>)
    requires Listing(animals, colors)
    ensures Solutions(FirstExample, animals, colors) == 2
  {
    var xs, ys := Perms(animals), Perms(colors);
    forall p, q | p in xs && q in ys
      ensures AcceptsFn(FirstExample)(p, q) == FirstTowers()(p, q)
    {
      PermutationHoldsAll(animals, colors, p, q);
      FirstExampleAccepts(p, q);
    }
    CountPairsCongruent(xs, ys, AcceptsFn(FirstExample), FirstTowers());
    FirstTowersCount(animals, colors);
  }

  lemma FirstTowersCount(animals: seq<Animal>, colors: seq<Color>)
    requires Listing(animals, colors)
    ensures CountPairs(Perms(animals), Perms(colors), FirstTowers()) == 2
  {
    var P, Q1, Q2 := FirstAnimals, FirstColors, FirstColorsSwapped;
    CountPairsProduct(Perms(animals), Perms(colors), FirstTowers(), EqualTo(P), EitherOf(Q1, Q2));
    AnimalArrangement(P, animals);
    assert Q1[0] != Q2[0];
    ArrangementPair(Q1, Q2, colors);
  }

  /** The second worked example of count_assignments.py. */
  const SecondExample: seq<Hint> := [
    Absolute(A(Bird), F(5)),
    Absolute(F(1), C(Green)),
    Absolute(A(Frog), C(Yellow))] + [
    Neighbor(A(Frog), A(Grasshopper)),
    Neighbor(C(Red), C(Orange)),
    Relative(A(Chicken), C(Blue), -4)]

  lemma SecondExampleEach(s: seq<FloorAssignment>)
    ensures AllSatisfied(SecondExample, s) <==>
              && Satisfied(Absolute(A(Bird), F(5)), s)
              && Satisfied(Absolute(F(1), C(Green)), s)
              && Satisfied(Absolute(A(Frog), C(Yellow)), s)
              && Satisfied(Neighbor(A(Frog), A(Grasshopper)), s)
              && Satisfied(Neighbor(C(Red), C(Orange)), s)
              && Satisfied(Relative(A(Chicken), C(Blue), -4), s)
  {
    AllSatisfiedSix(Absolute(A(Bird), F(5)), Absolute(F(1), C(Green)), Absolute(A(Frog), C(Yellow)),
                    Neighbor(A(Frog), A(Grasshopper)), Neighbor(C(Red), C(Orange)), Relative(A(Chicken), C(Blue), -4), s);
  }

  /** Its four towers: the frog in yellow on floor 2 or on floor 4, the
      grasshopper on floor 3, and red and orange side by side on the two
      middle floors left, in either order. */
  const SecondAnimalsLow: seq<Animal> := [Chicken, Frog, Grasshopper, Rabbit, Bird]
  const SecondColorsLow: seq<Color> := [Green, Yellow, Red, Orange, Blue]
  const SecondColorsLowSwapped: seq<Color> := [Green, Yellow, Orange, Red, Blue]
  const SecondAnimalsHigh: seq<Animal> := [Chicken, Rabbit, Grasshopper, Frog, Bird]
  const SecondColorsHigh: seq<Color> := [Green, Red, Orange, Yellow, Blue]
  const SecondColorsHighSwapped: seq<Color> := [Green, Orange, Red, Yellow, Blue]

  /** The towers with the frog on floor 2, and those with the frog on
      floor 4. */
  ghost function SecondLow(): (seq<Animal>, seq<Color>) -> bool {
    Both(EqualTo(SecondAnimalsLow), EitherOf(SecondColorsLow, SecondColorsLowSwapped))
  }

  ghost function SecondHigh(): (seq<Animal>, seq<Color>) -> bool {
    Both(EqualTo(SecondAnimalsHigh), EitherOf(SecondColorsHigh, SecondColorsHighSwapped))
  }

  /** The four towers, floor by floor: m is the frog's floor less one. */
  predicate SecondTower(p: seq<Animal>, q: seq<Color>, m: nat)
    requires |p| == 5 && |q| == 5
  {
    && (m == 1 || m == 3)
    && p[0] == Chicken && p[m] == Frog && p[2] == Grasshopper && p[4 - m] == Rabbit && p[4] == Bird
    && q[0] == Green && q[m] == Yellow && q[4] == Blue
    && ((q[4 - m] == Red && q[2] == Orange) || (q[4 - m] == Orange && q[2] == Red))
  }

  lemma SecondTowerIs(p: seq<Animal>, q: seq<Color>)
    requires |p| == 5 && |q| == 5
    ensures (SecondTower(p, q, 1) || SecondTower(p, q, 3)) <==> SecondLow()(p, q) || SecondHigh()(p, q)
  {
    if SecondTower(p, q, 1) {
      assert p == SecondAnimalsLow;
      assert q == [Green, Yellow, q[2], q[3], Blue];
    }
    if SecondTower(p, q, 3) {
      assert p == SecondAnimalsHigh;
      assert q == [Green, q[1], q[2], Yellow, Blue];
    }
  }

  /** The Relative hint of difference -4 puts the chicken on floor 1 and
      blue on floor 5. */
  lemma ChickenBelowBlue(p: seq<Animal>, q: seq<Color>)
    requires |p| == 5 && |q| == 5
    requires Satisfied(Relative(A(Chicken), C(Blue), -4), Candidate(p, q))
    ensures p[0] == Chicken && q[4] == Blue
  {
    var i, j := PairWitness(Relative(A(Chicken), C(Blue), -4), p, q);
  }

  /** On floors 2 to 4, red and orange side by side leave yellow out of the
      middle: the frog in yellow stands on floor 2 or 4. */
  lemma FrogOffCentre(p: seq<Animal>, q: seq<Color>, m: nat)
    requires |p| == 5 && |q| == 5 && 0 < m < 4 && q[m] == Yellow && q[0] == Green && q[4] == Blue
    requires Satisfied(Neighbor(C(Red), C(Orange)), Candidate(p, q))
    ensures m == 1 || m == 3
    ensures (q[4 - m] == Red && q[2] == Orange) || (q[4 - m] == Orange && q[2] == Red)
  {
    var r, o := PairWitness(Neighbor(C(Red), C(Orange)), p, q);
    assert q[r] == Red && q[o] == Orange;
    assert r != 0 && r != 4 && r != m && o != 0 && o != 4 && o != m;
    assert m != 2;
  }

  /** The grasshopper beside the frog on floor 2 or 4 stands on floor 3,
      and the rabbit takes the floor left. */
  lemma GrasshopperInMiddle(p: seq<Animal>, q: seq<Color>, m: nat)
    requires |p| == 5 && |q| == 5 && Distinct(p) && Rabbit in p
    requires (m == 1 || m == 3) && p[m] == Frog && p[0] == Chicken && p[4] == Bird
    requires Satisfied(Neighbor(A(Frog), A(Grasshopper)), Candidate(p, q))
    ensures p[2] == Grasshopper && p[4 - m] == Rabbit
  {
    var f, g := PairWitness(Neighbor(A(Frog), A(Grasshopper)), p, q);
    assert f == m;
    var k :| 0 <= k < 5 && p[k] == Rabbit;
  }

  /** The bird, green and the Relative hint fix floors 1 and 5. */
  lemma SecondPins(p: seq<Animal>, q: seq<Color>)
    requires |p| == 5 && |q| == 5
    requires Satisfied(Absolute(A(Bird), F(5)), Candidate(p, q))
    requires Satisfied(Absolute(F(1), C(Green)), Candidate(p, q))
    requires Satisfied(Relative(A(Chicken), C(Blue), -4), Candidate(p, q))
    ensures p[0] == Chicken && p[4] == Bird && q[0] == Green && q[4] == Blue
  {
    FloorSecondPin(Absolute(A(Bird), F(5)), p, q);
    FloorFirstPin(Absolute(F(1), C(Green)), p, q);
    ChickenBelowBlue(p, q);
  }

  /** The frog stands on a middle floor, in yellow. */
  lemma FrogInYellow(p: seq<Animal>, q: seq<Color>) returns (m: nat)
    requires |p| == 5 && |q| == 5 && Distinct(p) && Frog in p
    requires p[0] == Chicken && p[4] == Bird
    requires Satisfied(Absolute(A(Frog), C(Yellow)), Candidate(p, q))
    ensures 0 < m < 4 && p[m] == Frog && q[m] == Yellow
  {
    m :| 0 <= m < 5 && p[m] == Frog;
    AnimalColorPin(Absolute(A(Frog), C(Yellow)), p, q, m);
  }

  /** The hints of the second example leave only its four towers. */
  lemma SecondExampleForces(p: seq<Animal>, q: seq<Color>)
    requires |p| == 5 && |q| == 5 && Distinct(p)
    requires forall a: Animal :: a in p
    requires AllSatisfied(SecondExample, Candidate(p, q))
    ensures SecondTower(p, q, 1) || SecondTower(p, q, 3)
  {
    SecondExampleEach(Candidate(p, q));
    SecondPins(p, q);
    assert Frog in p && Rabbit in p;
    var m := FrogInYellow(p, q);
    FrogOffCentre(p, q, m);
    GrasshopperInMiddle(p, q, m);
    assert SecondTower(p, q, m);
  }

  /** The four towers satisfy the hints that pin a value. */
  lemma SecondPinsHold(p: seq<Animal>, q: seq<Color>, m: nat)
    requires |p| == 5 && |q| == 5 && SecondTower(p, q, m)
    ensures Satisfied(Absolute(A(Bird), F(5)), Candidate(p, q))
    ensures Satisfied(Absolute(F(1), C(Green)), Candidate(p, q))
    ensures Satisfied(Absolute(A(Frog), C(Yellow)), Candidate(p, q))
    ensures Satisfied(Relative(A(Chicken), C(Blue), -4), Candidate(p, q))
  {
    AbsoluteOnFloor(Absolute(A(Bird), F(5)), p, q, 4);
    AbsoluteOnFloor(Absolute(F(1), C(Green)), p, q, 0);
    AbsoluteOnFloor(Absolute(A(Frog), C(Yellow)), p, q, m);
    FloorsSatisfy(Relative(A(Chicken), C(Blue), -4), p, q, 0, 4);
  }

  /** The four towers satisfy the two Neighbor hints. */
  lemma SecondNeighborsHold(p: seq<Animal>, q: seq<Color>, m: nat)
    requires |p| == 5 && |q| == 5 && SecondTower(p, q, m)
    ensures Satisfied(Neighbor(A(Frog), A(Grasshopper)), Candidate(p, q))
    ensures Satisfied(Neighbor(C(Red), C(Orange)), Candidate(p, q))
  {
    FloorsSatisfy(Neighbor(A(Frog), A(Grasshopper)), p, q, m, 2);
    if q[2] == Orange {
      FloorsSatisfy(Neighbor(C(Red), C(Orange)), p, q, 4 - m, 2);
    } else {
      FloorsSatisfy(Neighbor(C(Red), C(Orange)), p, q, 2, 4 - m);
    }
  }

  /** The four towers satisfy the six hints. */
  lemma SecondExampleHolds(p: seq<Animal>, q: seq<Color>, m: nat)
    requires |p| == 5 && |q| == 5 && SecondTower(p, q, m)
    ensures AllSatisfied(SecondExample, Candidate(p, q))
  {
    SecondExampleEach(Candidate(p, q));
    SecondPinsHold(p, q, m);
    SecondNeighborsHold(p, q, m);
  }

  /** A tower satisfies the second example iff it is one of its four towers. */
  lemma SecondExampleAccepts(p: seq<Animal>, q: seq<Color>)
    requires |p| == 5 && |q| == 5 && Distinct(p)
    requires forall a: Animal :: a in p
    ensures AcceptsFn(SecondExample)(p, q) <==> SecondLow()(p, q) || SecondHigh()(p, q)
  {
    SecondTowerIs(p, q);
    if AcceptsFn(SecondExample)(p, q) {
      SecondExampleForces(p, q);
    }
    if SecondTower(p, q, 1) {
      SecondExampleHolds(p, q, 1);
    }
    if SecondTower(p, q, 3) {
      SecondExampleHolds(p, q, 3);
    }
  }

  /** The second example leaves exactly four towers. */
  lemma SecondExampleCount(animals: seq<Animal>, colors: seq<Color>)
    requires Listing(animals, colors)
    ensures Solutions(SecondExample, animals, colors) == 4
  {
    var xs, ys := Perms(animals), Perms(colors);
    forall p, q | p in xs && q in ys
      ensures (AcceptsFn(SecondExample)(p, q) <==> SecondLow()(p, q) || SecondHigh()(p, q)) &&
              !(SecondLow()(p, q) && SecondHigh()(p, q))
    {
      PermutationHoldsAll(animals, colors, p, q);
      SecondExampleAccepts(p, q);
    }
    CountPairsSplit(xs, ys, AcceptsFn(SecondExample), SecondLow(), SecondHigh());
    SecondLowCount(animals, colors);
    SecondHighCount(animals, colors);
  }

  lemma SecondLowCount(animals: seq<Animal>, colors: seq<Color>)
    requires Listing(animals, colors)
    ensures CountPairs(Perms(animals), Perms(colors), SecondLow()) == 2
  {
    var P, Q1, Q2 := SecondAnimalsLow, SecondColorsLow, SecondColorsLowSwapped;
    CountPairsProduct(Perms(animals), Perms(colors), SecondLow(), EqualTo(P), EitherOf(Q1, Q2));
    AnimalArrangement(P, animals);
    assert Q1[2] != Q2[2];
    ArrangementPair(Q1, Q2, colors);
  }

  lemma SecondHighCount(animals: seq<Animal>, colors: seq<Color>)
    requires Listing(animals, colors)
    ensures CountPairs(Perms(animals), Perms(colors), SecondHigh()) == 2
  {
    var P, Q1, Q2 := SecondAnimalsHigh, SecondColorsHigh, SecondColorsHighSwapped;
    CountPairsProduct(Perms(animals), Perms(colors), SecondHigh(), EqualTo(P), EitherOf(Q1, Q2));
    AnimalArrangement(P, animals);
    assert Q1[1] != Q2[1];
    ArrangementPair(Q1, Q2, colors);
  }

  // ----- the values of count_assignments -----

  /** On list(Animal) and list(Color), the enumeration returns the values
      the test suites assert. */
  lemma SuiteExpectations()
    ensures EnumCount(FirstExample) == 2
    ensures EnumCount(SecondExample) == 4
    ensures EnumCount([]) == 14400
    ensures EnumCount([Absolute(A(Rabbit), F(1))]) == 2880
    ensures EnumCount([Absolute(A(Rabbit), F(1)), Absolute(A(Bird), F(1))]) == 0
    ensures EnumCount(CompleteHints) == 1
    ensures EnumCount([Absolute(F(4), C(Yellow)), Absolute(C(Yellow), F(4))]) == 2880
    ensures EnumCount(RelativeCompleteHints) == 1
    ensures EnumCount([Relative(A(Rabbit), F(1), 2), Relative(F(1), A(Rabbit), -2)]) == 2880
    ensures EnumCount([Neighbor(A(Bird), C(Blue)), Neighbor(C(Blue), A(Bird))]) == 4608
    ensures EnumCount([Absolute(A(Rabbit), F(1)), Absolute(A(Rabbit), F(1))]) == 2880
    ensures EnumCount([Neighbor(A(Chicken), C(Blue)), Neighbor(A(Chicken), C(Blue))]) == 4608
    ensures EnumCount([Relative(A(Rabbit), C(Green), -2)]) == 1728
    ensures EnumCount([Relative(A(Rabbit), F(1), 0)]) == 2880
    ensures EnumCount([Neighbor(A(Rabbit), C(Green))]) == 4608
  {
    var animals, colors := AllAnimals, AllColors;
    DeclarationOrderListing();
    FirstExampleCount(animals, colors);
    SecondExampleCount(animals, colors);
    NoHintsCount(animals, colors);
    OneAbsoluteCount(animals, colors);
    ContradictingCount(animals, colors);
    CompleteCount(animals, colors);
    RedundantAbsoluteCount(animals, colors);
    RelativeCompleteCount(animals, colors);
    RedundantRelativeCount(animals, colors);
    RedundantNeighborCount(animals, colors);
    DuplicatedAbsoluteCount(animals, colors);
    DuplicatedNeighborCount(animals, colors);
    RelativeBelowCount(animals, colors);
    RelativeZeroFloorCount(animals, colors);
    OneNeighborCount(animals, colors);
  }
}
