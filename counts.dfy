/** What count_assignments returns for the kinds of hint list the test
    suites exercise: a single hint relating two attributes, contradicting,
    redundant and duplicated hints, and a complete specification of the
    tower. Every count is stated for any listing of the domain, in
    particular for list(Animal) and list(Color). */
module HintCounts {
  import opened Tower
  import opened Hints
  import opened Permutations
  import opened BruteForce

  /** Whether floor k + 1 of the tower of ap and cp carries attr. */
  predicate HasAt(ap: seq<Animal>, cp: seq<Color>, k: nat, attr: Attr)
    requires k < |ap| && k < |cp|
  {
    match attr
    case F(f) => k + 1 == f
    case C(c) => cp[k] == c
    case A(a) => ap[k] == a
  }

  /** The floor test a hint applies to the floors of its two attributes;
      an Absolute hint asks for the same floor. */
  function HintTest(h: Hint): FloorTest {
    match h
    case Absolute(_, _) => Difference(0)
    case Relative(_, _, d) => Difference(d)
    case Neighbor(_, _) => Adjacent
  }

  /** The floor test against a fixed floor f, on positions. */
  function AgainstFloor(t: FloorTest, f: int): nat -> bool {
    i => Passes(t, i + 1, f)
  }

  /** The floor test on a pair of positions. */
  function OnPositions(t: FloorTest): (nat, nat) -> bool {
    (i, j) => Passes(t, i + 1, j + 1)
  }

  lemma MatchesOnTower(ap: seq<Animal>, cp: seq<Color>, k: nat, attr: Attr)
    requires |ap| == 5 && |cp| == 5 && k < 5
    ensures Matches(Candidate(ap, cp)[k], attr) == HasAt(ap, cp, k, attr)
    ensures Candidate(ap, cp)[k].floor == k + 1
  {
  }

  /** Some floor i + 1 carrying a1 and some floor j + 1 carrying a2 pass t. */
  predicate SomeFloors(ap: seq<Animal>, cp: seq<Color>, a1: Attr, a2: Attr, t: FloorTest)
    requires |ap| == 5 && |cp| == 5
  {
    exists i, j :: 0 <= i < 5 && 0 <= j < 5 && HasAt(ap, cp, i, a1) && HasAt(ap, cp, j, a2) && Passes(t, i + 1, j + 1)
  }

  /** Some assignments s[i] matching a1 and s[j] matching a2 pass t. */
  predicate SomeIndices(s: seq<FloorAssignment>, a1: Attr, a2: Attr, t: FloorTest) {
    exists i, j :: 0 <= i < |s| && 0 <= j < |s| && Matches(s[i], a1) && Matches(s[j], a2) && Passes(t, s[i].floor, s[j].floor)
  }

  lemma IndicesAreFloors(ap: seq<Animal>, cp: seq<Color>, a1: Attr, a2: Attr, t: FloorTest)
    requires |ap| == 5 && |cp| == 5
    ensures SomeIndices(Candidate(ap, cp), a1, a2, t) <==> SomeFloors(ap, cp, a1, a2, t)
  {
    if SomeIndices(Candidate(ap, cp), a1, a2, t) {
      FloorsFromIndices(ap, cp, a1, a2, t);
    }
    if SomeFloors(ap, cp, a1, a2, t) {
      IndicesFromFloors(ap, cp, a1, a2, t);
    }
  }

  lemma FloorsFromIndices(ap: seq<Animal>, cp: seq<Color>, a1: Attr, a2: Attr, t: FloorTest)
    requires |ap| == 5 && |cp| == 5 && SomeIndices(Candidate(ap, cp), a1, a2, t)
    ensures SomeFloors(ap, cp, a1, a2, t)
  {
    var s := Candidate(ap, cp);
    var i, j :| 0 <= i < |s| && 0 <= j < |s| && Matches(s[i], a1) && Matches(s[j], a2) && Passes(t, s[i].floor, s[j].floor);
    MatchesOnTower(ap, cp, i, a1);
    MatchesOnTower(ap, cp, j, a2);
    assert HasAt(ap, cp, i, a1) && HasAt(ap, cp, j, a2) && Passes(t, i + 1, j + 1);
  }

  lemma IndicesFromFloors(ap: seq<Animal>, cp: seq<Color>, a1: Attr, a2: Attr, t: FloorTest)
    requires |ap| == 5 && |cp| == 5 && SomeFloors(ap, cp, a1, a2, t)
    ensures SomeIndices(Candidate(ap, cp), a1, a2, t)
  {
    var s := Candidate(ap, cp);
    var i, j :| 0 <= i < 5 && 0 <= j < 5 && HasAt(ap, cp, i, a1) && HasAt(ap, cp, j, a2) && Passes(t, i + 1, j + 1);
    MatchesOnTower(ap, cp, i, a1);
    MatchesOnTower(ap, cp, j, a2);
    assert Matches(s[i], a1) && Matches(s[j], a2) && Passes(t, s[i].floor, s[j].floor);
  }

  lemma AbsoluteIndices(a1: Attr, a2: Attr, s: seq<FloorAssignment>)
    requires DistinctFloors(s)
    ensures Satisfied(Absolute(a1, a2), s) <==> SomeIndices(s, a1, a2, Difference(0))
  {
    AbsoluteMeaning(a1, a2, s);
    if SomeIndices(s, a1, a2, Difference(0)) {
      var i, j :| 0 <= i < |s| && 0 <= j < |s| && Matches(s[i], a1) && Matches(s[j], a2) && Passes(Difference(0), s[i].floor, s[j].floor);
      assert i == j;
    }
    if Satisfied(Absolute(a1, a2), s) {
      var i :| 0 <= i < |s| && Matches(s[i], a1) && Matches(s[i], a2);
      assert Passes(Difference(0), s[i].floor, s[i].floor);
    }
  }

  lemma RelativeIndices(a1: Attr, a2: Attr, d: int, s: seq<FloorAssignment>)
    requires |s| >= 2
    ensures Satisfied(Relative(a1, a2, d), s) <==> SomeIndices(s, a1, a2, Difference(d))
  {
    RelativeMeaning(a1, a2, d, s);
  }

  lemma NeighborIndices(a1: Attr, a2: Attr, s: seq<FloorAssignment>)
    requires |s| >= 2
    ensures Satisfied(Neighbor(a1, a2), s) <==> SomeIndices(s, a1, a2, Adjacent)
  {
    NeighborMeaning(a1, a2, s);
  }

  /** On a tower the enumeration builds, a hint holds iff some floor i + 1
      carrying the first attribute and some floor j + 1 carrying the second
      pass the hint's floor test. */
  lemma SatisfiedOnTower(h: Hint, ap: seq<Animal>, cp: seq<Color>)
    requires |ap| == 5 && |cp| == 5
    ensures Satisfied(h, Candidate(ap, cp)) <==> SomeFloors(ap, cp, h.attr1, h.attr2, HintTest(h))
  {
    var s := Candidate(ap, cp);
    IndicesAreFloors(ap, cp, h.attr1, h.attr2, HintTest(h));
    match h
    case Absolute(a1, a2) => AbsoluteIndices(a1, a2, s);
    case Relative(a1, a2, d) => RelativeIndices(a1, a2, d, s);
    case Neighbor(a1, a2) => NeighborIndices(a1, a2, s);
  }

  /** The two floors of a satisfied hint. */
  lemma PairWitness(h: Hint, p: seq<Animal>, q: seq<Color>) returns (i: nat, j: nat)
    requires |p| == 5 && |q| == 5 && Satisfied(h, Candidate(p, q))
    ensures i < 5 && j < 5 && HasAt(p, q, i, h.attr1) && HasAt(p, q, j, h.attr2)
    ensures Passes(HintTest(h), i + 1, j + 1)
  {
    SatisfiedOnTower(h, p, q);
    i, j :| 0 <= i < 5 && 0 <= j < 5 && HasAt(p, q, i, h.attr1) && HasAt(p, q, j, h.attr2) && Passes(HintTest(h), i + 1, j + 1);
  }

  /** Two floors carrying the attributes and passing the test satisfy the
      hint. */
  lemma FloorsSatisfy(h: Hint, p: seq<Animal>, q: seq<Color>, i: nat, j: nat)
    requires |p| == 5 && |q| == 5 && i < 5 && j < 5
    requires HasAt(p, q, i, h.attr1) && HasAt(p, q, j, h.attr2) && Passes(HintTest(h), i + 1, j + 1)
    ensures Satisfied(h, Candidate(p, q))
  {
    SatisfiedOnTower(h, p, q);
  }

  // ----- absolute hints pin attributes to floors -----

  /** A satisfied Absolute hint naming a floor first puts its second
      attribute on that floor. */
  lemma FloorFirstPin(h: Hint, p: seq<Animal>, q: seq<Color>)
    requires |p| == 5 && |q| == 5 && h.Absolute? && h.attr1.F?
    ensures Satisfied(h, Candidate(p, q)) ==> HasAt(p, q, h.attr1.f - 1, h.attr2)
  {
    SatisfiedOnTower(h, p, q);
    if Satisfied(h, Candidate(p, q)) {
      var i, j :| 0 <= i < 5 && 0 <= j < 5 && HasAt(p, q, i, h.attr1) && HasAt(p, q, j, h.attr2) && Passes(HintTest(h), i + 1, j + 1);
    }
  }

  /** A satisfied Absolute hint naming a floor second puts its first
      attribute on that floor. */
  lemma FloorSecondPin(h: Hint, p: seq<Animal>, q: seq<Color>)
    requires |p| == 5 && |q| == 5 && h.Absolute? && h.attr2.F?
    ensures Satisfied(h, Candidate(p, q)) ==> HasAt(p, q, h.attr2.f - 1, h.attr1)
  {
    SatisfiedOnTower(h, p, q);
    if Satisfied(h, Candidate(p, q)) {
      var i, j :| 0 <= i < 5 && 0 <= j < 5 && HasAt(p, q, i, h.attr1) && HasAt(p, q, j, h.attr2) && Passes(HintTest(h), i + 1, j + 1);
    }
  }

  /** A satisfied Absolute hint tying an animal to a colour paints the
      animal's floor in that colour. */
  lemma AnimalColorPin(h: Hint, p: seq<Animal>, q: seq<Color>, k: nat)
    requires |p| == 5 && |q| == 5 && Distinct(p) && h.Absolute? && h.attr1.A? && h.attr2.C?
    requires k < 5 && p[k] == h.attr1.a
    ensures Satisfied(h, Candidate(p, q)) ==> q[k] == h.attr2.c
  {
    SatisfiedOnTower(h, p, q);
    if Satisfied(h, Candidate(p, q)) {
      var i, j :| 0 <= i < 5 && 0 <= j < 5 && HasAt(p, q, i, h.attr1) && HasAt(p, q, j, h.attr2) && Passes(HintTest(h), i + 1, j + 1);
      assert i == k;
    }
  }

  /** An Absolute hint whose two attributes sit on the same floor holds. */
  lemma AbsoluteOnFloor(h: Hint, p: seq<Animal>, q: seq<Color>, k: nat)
    requires |p| == 5 && |q| == 5 && h.Absolute? && k < 5
    requires HasAt(p, q, k, h.attr1) && HasAt(p, q, k, h.attr2)
    ensures Satisfied(h, Candidate(p, q))
  {
    SatisfiedOnTower(h, p, q);
    assert Passes(HintTest(h), k + 1, k + 1);
  }

  // ----- single hints -----

  /** On a tower the enumeration builds, a single hint accepts exactly the
      towers where the hint's attributes stand on floors passing its test. */
  lemma SingleAccepts(h: Hint, p: seq<Animal>, q: seq<Color>)
    requires |p| == 5 && |q| == 5
    ensures AcceptsFn([h])(p, q) == SomeFloors(p, q, h.attr1, h.attr2, HintTest(h))
  {
    SatisfiedOnTower(h, p, q);
  }

  /** Animal a and floor f stand on floors passing t iff a stands on a floor
      that passes t against f. */
  lemma AnimalFloorFloors(p: seq<Animal>, q: seq<Color>, a: Animal, f: Floor, t: FloorTest)
    requires |p| == 5 && |q| == 5
    ensures SomeFloors(p, q, A(a), F(f), t) == AtSome(a, 5, AgainstFloor(t, f))(p)
  {
    var U := AgainstFloor(t, f);
    if SomeFloors(p, q, A(a), F(f), t) {
      var i, j :| 0 <= i < 5 && 0 <= j < 5 && HasAt(p, q, i, A(a)) && HasAt(p, q, j, F(f)) && Passes(t, i + 1, j + 1);
      assert p[i] == a && U(i);
    }
    if AtSome(a, 5, U)(p) {
      var i: nat :| i < 5 && i < |p| && p[i] == a && U(i);
      var j := f - 1;
      assert HasAt(p, q, i, A(a)) && HasAt(p, q, j, F(f)) && Passes(t, i + 1, j + 1);
    }
  }

  // ----- counting floors and pairs of floors -----

  function Ind(b: bool): nat {
    if b then 1 else 0
  }

  /** How many floors i + 1 pass t against floor f. */
  function FloorsPassing(t: FloorTest, f: int): nat {
    Ind(Passes(t, 1, f)) + Ind(Passes(t, 2, f)) + Ind(Passes(t, 3, f)) + Ind(Passes(t, 4, f)) + Ind(Passes(t, 5, f))
  }

  /** How many floors g pass t from floor f, that is with f first. */
  function FromFloor(t: FloorTest, f: int): nat {
    Ind(Passes(t, f, 1)) + Ind(Passes(t, f, 2)) + Ind(Passes(t, f, 3)) + Ind(Passes(t, f, 4)) + Ind(Passes(t, f, 5))
  }

  /** How many pairs of floors pass t. */
  function PairsPassing(t: FloorTest): nat {
    FromFloor(t, 1) + FromFloor(t, 2) + FromFloor(t, 3) + FromFloor(t, 4) + FromFloor(t, 5)
  }

  lemma {:induction false} CountFive(U: nat -> bool)
    ensures CountUpTo(Range(5), 5, U) == Ind(U(0)) + Ind(U(1)) + Ind(U(2)) + Ind(U(3)) + Ind(U(4))
  {
    var r := Range(5);
    assert CountUpTo(r, 1, U) == Ind(U(0)) by { assert r[0] == 0; }
    assert CountUpTo(r, 2, U) == CountUpTo(r, 1, U) + Ind(U(1)) by { assert r[1] == 1; }
    assert CountUpTo(r, 3, U) == CountUpTo(r, 2, U) + Ind(U(2)) by { assert r[2] == 2; }
    assert CountUpTo(r, 4, U) == CountUpTo(r, 3, U) + Ind(U(3)) by { assert r[3] == 3; }
    assert CountUpTo(r, 5, U) == CountUpTo(r, 4, U) + Ind(U(4)) by { assert r[4] == 4; }
  }

  /** The positions whose floor passes t against f number FloorsPassing(t, f). */
  lemma {:induction false} FloorsPassingCount(t: FloorTest, f: int)
    ensures CountUpTo(Range(5), 5, AgainstFloor(t, f)) == FloorsPassing(t, f)
  {
    CountFive(AgainstFloor(t, f));
  }

  lemma {:induction false} RowPassing(t: FloorTest, i: nat)
    requires i < 5
    ensures RowCount(i, Range(5), 5, OnPositions(t)) == FromFloor(t, i + 1)
  {
    RowCountIsCount(i, Range(5), 5, OnPositions(t));
    CountFive(Section(OnPositions(t), i));
  }

  lemma {:induction false} PairsPassingStep(t: FloorTest, n: nat)
    requires 0 < n <= 5
    ensures CountPairsUpTo(Range(5), n, Range(5), OnPositions(t)) ==
              CountPairsUpTo(Range(5), n - 1, Range(5), OnPositions(t)) + FromFloor(t, n)
  {
    assert Range(5)[n - 1] == n - 1;
    RowPassing(t, n - 1);
  }

  /** The pairs of positions whose floors pass t number PairsPassing(t). */
  lemma {:induction false} PairsPassingCount(t: FloorTest)
    ensures CountPairsUpTo(Range(5), 5, Range(5), OnPositions(t)) == PairsPassing(t)
  {
    PairsPassingStep(t, 1);
    PairsPassingStep(t, 2);
    PairsPassingStep(t, 3);
    PairsPassingStep(t, 4);
    PairsPassingStep(t, 5);
  }

  lemma FactorialFour(n: nat)
    requires n == 4
    ensures Factorial(n) == 24
  {
    assert Factorial(1) == 1 * Factorial(0);
    assert Factorial(2) == 2 * Factorial(1);
    assert Factorial(3) == 3 * Factorial(2);
  }

  /** A single hint tying an animal to a floor is met by k * 4! * 5! towers,
      where k is the number of floors the animal may occupy: the animal on
      one of them, the other animals in any order, the colours in any order. */
  lemma AnimalFloorCount(h: Hint, animals: seq<Animal>, colors: seq<Color>)
    requires Listing(animals, colors) && h.attr1.A? && h.attr2.F?
    ensures Solutions([h], animals, colors) == CountUpTo(Range(5), 5, AgainstFloor(HintTest(h), h.attr2.f)) * 24 * 120
  {
    var a := h.attr1.a;
    var U := AgainstFloor(HintTest(h), h.attr2.f);
    var k := CountUpTo(Range(5), 5, U);
    var na := Count(Perms(animals), AtSome(a, 5, U));
    var nc := Count(Perms(colors), Const(true));
    EnumerationShape(animals, colors);
    assert Solutions([h], animals, colors) == na * nc by {
      forall p, q | p in Perms(animals) && q in Perms(colors)
        ensures AcceptsFn([h])(p, q) == (AtSome(a, 5, U)(p) && Const(true)(q))
      {
        SingleAccepts(h, p, q);
        AnimalFloorFloors(p, q, a, h.attr2.f, HintTest(h));
      }
      CountPairsProduct(Perms(animals), Perms(colors), AcceptsFn([h]), AtSome(a, 5, U), Const(true));
    }
    assert na == k * 24 by {
      assert a in animals;
      var m :| 0 <= m < 5 && animals[m] == a;
      PermsCountAtSome(animals, m, 5, U);
      FactorialFour(|animals| - 1);
      TimesIsProduct(k, 24);
    }
    assert nc == 120 by {
      CountAll(Perms(colors), Const(true));
    }
  }

  /** Colour c and floor f stand on floors passing t iff c is painted on a
      floor that passes t against f. */
  lemma ColorFloorFloors(p: seq<Animal>, q: seq<Color>, c: Color, f: Floor, t: FloorTest)
    requires |p| == 5 && |q| == 5
    ensures SomeFloors(p, q, C(c), F(f), t) == AtSome(c, 5, AgainstFloor(t, f))(q)
  {
    var U := AgainstFloor(t, f);
    if SomeFloors(p, q, C(c), F(f), t) {
      var i, j :| 0 <= i < 5 && 0 <= j < 5 && HasAt(p, q, i, C(c)) && HasAt(p, q, j, F(f)) && Passes(t, i + 1, j + 1);
      assert q[i] == c && U(i);
    }
    if AtSome(c, 5, U)(q) {
      var i: nat :| i < 5 && i < |q| && q[i] == c && U(i);
      var j := f - 1;
      assert HasAt(p, q, i, C(c)) && HasAt(p, q, j, F(f)) && Passes(t, i + 1, j + 1);
    }
  }

  /** A single hint tying a colour to a floor is met by 5! * k * 4! towers,
      where k is the number of floors that may carry the colour. */
  lemma ColorFloorCount(h: Hint, animals: seq<Animal>, colors: seq<Color>)
    requires Listing(animals, colors) && h.attr1.C? && h.attr2.F?
    ensures Solutions([h], animals, colors) == 120 * (CountUpTo(Range(5), 5, AgainstFloor(HintTest(h), h.attr2.f)) * 24)
  {
    var c := h.attr1.c;
    var U := AgainstFloor(HintTest(h), h.attr2.f);
    var k := CountUpTo(Range(5), 5, U);
    var na := Count(Perms(animals), Const(true));
    var nc := Count(Perms(colors), AtSome(c, 5, U));
    EnumerationShape(animals, colors);
    assert Solutions([h], animals, colors) == na * nc by {
      forall p, q | p in Perms(animals) && q in Perms(colors)
        ensures AcceptsFn([h])(p, q) == (Const(true)(p) && AtSome(c, 5, U)(q))
      {
        SingleAccepts(h, p, q);
        ColorFloorFloors(p, q, c, h.attr2.f, HintTest(h));
      }
      CountPairsProduct(Perms(animals), Perms(colors), AcceptsFn([h]), Const(true), AtSome(c, 5, U));
    }
    assert nc == k * 24 by {
      assert c in colors;
      var m :| 0 <= m < 5 && colors[m] == c;
      PermsCountAtSome(colors, m, 5, U);
      FactorialFour(|colors| - 1);
      TimesIsProduct(k, 24);
    }
    assert na == 120 by {
      CountAll(Perms(animals), Const(true));
    }
  }

  /** Animal a and colour c stand on floors passing t iff some pair of
      positions passing t holds a and c. */
  lemma AnimalColorFloors(p: seq<Animal>, q: seq<Color>, a: Animal, c: Color, t: FloorTest)
    requires |p| == 5 && |q| == 5
    ensures SomeFloors(p, q, A(a), C(c), t) == PairAtSome(a, c, 5, 5, OnPositions(t))(p, q)
  {
    if SomeFloors(p, q, A(a), C(c), t) {
      PairFromFloors(p, q, a, c, t);
    }
    if PairAtSome(a, c, 5, 5, OnPositions(t))(p, q) {
      FloorsFromPair(p, q, a, c, t);
    }
  }

  lemma PairFromFloors(p: seq<Animal>, q: seq<Color>, a: Animal, c: Color, t: FloorTest)
    requires |p| == 5 && |q| == 5 && SomeFloors(p, q, A(a), C(c), t)
    ensures PairAtSome(a, c, 5, 5, OnPositions(t))(p, q)
  {
    var T := OnPositions(t);
    var i, j :| 0 <= i < 5 && 0 <= j < 5 && HasAt(p, q, i, A(a)) && HasAt(p, q, j, C(c)) && Passes(t, i + 1, j + 1);
    var i', j': nat := i, j;
    assert q[j'] == c && Section<nat, nat>(T, i')(j');
    assert AtSome(c, 5, Section<nat, nat>(T, i'))(q);
    assert p[i'] == a;
  }

  lemma FloorsFromPair(p: seq<Animal>, q: seq<Color>, a: Animal, c: Color, t: FloorTest)
    requires |p| == 5 && |q| == 5 && PairAtSome(a, c, 5, 5, OnPositions(t))(p, q)
    ensures SomeFloors(p, q, A(a), C(c), t)
  {
    var T := OnPositions(t);
    var i: nat :| i < 5 && i < |p| && p[i] == a && AtSome(c, 5, Section<nat, nat>(T, i))(q);
    var j: nat :| j < 5 && j < |q| && q[j] == c && Section<nat, nat>(T, i)(j);
    assert HasAt(p, q, i, A(a)) && HasAt(p, q, j, C(c)) && Passes(t, i + 1, j + 1);
  }

  /** A single hint tying an animal to a colour is met by k * 4! * 4! towers,
      where k is the number of pairs of floors that pass the hint's test: the
      animal on the first, the colour on the second, the other animals and
      colours in any order. */
  lemma AnimalColorCount(h: Hint, animals: seq<Animal>, colors: seq<Color>)
    requires Listing(animals, colors) && h.attr1.A? && h.attr2.C?
    ensures Solutions([h], animals, colors) == CountPairsUpTo(Range(5), 5, Range(5), OnPositions(HintTest(h))) * 576
  {
    var a, c := h.attr1.a, h.attr2.c;
    var T := OnPositions(HintTest(h));
    AnimalColorShape(h, animals, colors);
    AnimalColorPlaced(a, c, animals, colors, T);
  }

  /** The towers one animal–colour hint accepts are those placing the pair
      on positions that pass its floor test. */
  lemma AnimalColorShape(h: Hint, animals: seq<Animal>, colors: seq<Color>)
    requires |animals| == 5 && |colors| == 5 && h.attr1.A? && h.attr2.C?
    ensures Solutions([h], animals, colors) ==
              CountPairs(Perms(animals), Perms(colors), PairAtSome(h.attr1.a, h.attr2.c, 5, 5, OnPositions(HintTest(h))))
  {
    var a, c := h.attr1.a, h.attr2.c;
    var T := OnPositions(HintTest(h));
    EnumerationShape(animals, colors);
    forall p, q | p in Perms(animals) && q in Perms(colors)
      ensures AcceptsFn([h])(p, q) == PairAtSome(a, c, 5, 5, T)(p, q)
    {
      SingleAccepts(h, p, q);
      AnimalColorFloors(p, q, a, c, HintTest(h));
    }
    CountPairsCongruent(Perms(animals), Perms(colors), AcceptsFn([h]), PairAtSome(a, c, 5, 5, T));
  }

  /** Each passing pair of positions for the animal and the colour leaves
      4! * 4! towers. */
  lemma AnimalColorPlaced(a: Animal, c: Color, animals: seq<Animal>, colors: seq<Color>, T: (nat, nat) -> bool)
    requires Listing(animals, colors)
    ensures CountPairs(Perms(animals), Perms(colors), PairAtSome(a, c, 5, 5, T)) ==
              CountPairsUpTo(Range(5), 5, Range(5), T) * 576
  {
    var k := CountPairsUpTo(Range(5), 5, Range(5), T);
    assert a in animals && c in colors;
    var ma :| 0 <= ma < 5 && animals[ma] == a;
    var mc :| 0 <= mc < 5 && colors[mc] == c;
    PairsCountAtSome(animals, ma, colors, mc, 5, T);
    FactorialFour(|animals| - 1);
    FactorialFour(|colors| - 1);
    TimesIsProduct(24, 24);
    TimesIsProduct(k, 576);
  }
}
