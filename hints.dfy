/** The three kinds of hint and when a list of floor assignments satisfies
    them (count_assignments.py). The source has one class per kind, each with
    its own copy of the attribute-match helper; here one sum type shares the
    single Matches predicate. */
module Hints {
  import opened Tower

  datatype Hint =
    | Absolute(attr1: Attr, attr2: Attr)
    | Relative(attr1: Attr, attr2: Attr, difference: int)
    | Neighbor(attr1: Attr, attr2: Attr)

  /** The test a Relative or Neighbor hint applies to the floors of a pair. */
  datatype FloorTest = Difference(d: int) | Adjacent

  predicate Passes(t: FloorTest, f1: int, f2: int) {
    match t
    case Difference(d) => f1 - f2 == d
    case Adjacent => f1 - f2 == 1 || f2 - f1 == 1
  }

  /** The loop of AbsoluteHint.check_if_satisfied: it returns true at the
      first assignment that matches both attributes. */
  function AbsoluteHolds(s: seq<FloorAssignment>, a1: Attr, a2: Attr): (r: bool)
    ensures r <==> exists x :: x in s && Matches(x, a1) && Matches(x, a2)
  {
    if |s| == 0 then false
    else if Matches(s[0], a1) && Matches(s[0], a2) then true
    else
      assert forall x :: x in s <==> x == s[0] || x in s[1..];
      AbsoluteHolds(s[1..], a1, a2)
  }

  /** The list comprehension that keeps, in order, the assignments matching
      an attribute. */
  function Filter(s: seq<FloorAssignment>, attr: Attr): (r: seq<FloorAssignment>)
    ensures |r| <= |s|
    ensures forall x :: x in r <==> x in s && Matches(x, attr)
  {
    if |s| == 0 then []
    else
      assert forall x :: x in s <==> x == s[0] || x in s[1..];
      (if Matches(s[0], attr) then [s[0]] else []) + Filter(s[1..], attr)
  }

  /** The inner loop over the second list for one element of the first. */
  function AnyPartner(x: FloorAssignment, ys: seq<FloorAssignment>, t: FloorTest): (r: bool)
    ensures r <==> exists y :: y in ys && Passes(t, x.floor, y.floor)
  {
    if |ys| == 0 then false
    else if Passes(t, x.floor, ys[0].floor) then true
    else
      assert forall y :: y in ys <==> y == ys[0] || y in ys[1..];
      AnyPartner(x, ys[1..], t)
  }

  /** The nested loop over two lists: it returns true at the first pair whose
      floors pass the test. */
  function AnyPair(xs: seq<FloorAssignment>, ys: seq<FloorAssignment>, t: FloorTest): (r: bool)
    ensures r <==> exists x, y :: x in xs && y in ys && Passes(t, x.floor, y.floor)
  {
    if |xs| == 0 then false
    else if AnyPartner(xs[0], ys, t) then true
    else
      assert forall x :: x in xs <==> x == xs[0] || x in xs[1..];
      AnyPair(xs[1..], ys, t)
  }

  /** Relative and Neighbor hints: vacuously true on fewer than two
      assignments, otherwise some assignment matching attr1 and some matching
      attr2 (not necessarily different ones) pass the floor test. */
  function PairHolds(s: seq<FloorAssignment>, a1: Attr, a2: Attr, t: FloorTest): (r: bool)
    ensures r <==> |s| < 2 || SomePair(s, a1, a2, t)
  {
    if |s| < 2 then true
    else AnyPair(Filter(s, a1), Filter(s, a2), t)
  }

  /** Some assignment matching a1 and some matching a2 pass the floor test. */
  predicate SomePair(s: seq<FloorAssignment>, a1: Attr, a2: Attr, t: FloorTest) {
    exists x, y :: x in s && y in s && Matches(x, a1) && Matches(y, a2) && Passes(t, x.floor, y.floor)
  }

  /** Hint.check_if_satisfied, dispatched on the kind of hint. */
  function Satisfied(h: Hint, s: seq<FloorAssignment>): bool {
    match h
    case Absolute(a1, a2) => AbsoluteHolds(s, a1, a2)
    case Relative(a1, a2, d) => PairHolds(s, a1, a2, Difference(d))
    case Neighbor(a1, a2) => PairHolds(s, a1, a2, Adjacent)
  }

  /** The conjunction of the hints, evaluated in list order and stopping at
      the first hint that fails. */
  function AllSatisfied(hints: seq<Hint>, s: seq<FloorAssignment>): (r: bool)
    ensures r <==> forall h :: h in hints ==> Satisfied(h, s)
  {
    if |hints| == 0 then true
    else if !Satisfied(hints[0], s) then false
    else
      assert forall h :: h in hints <==> h == hints[0] || h in hints[1..];
      AllSatisfied(hints[1..], s)
  }

  // ----- properties of the hint predicates -----

  /** An Absolute hint holds iff one single assignment carries both values;
      in particular it never holds on the empty list. */
  lemma AbsoluteMeaning(a1: Attr, a2: Attr, s: seq<FloorAssignment>)
    ensures Satisfied(Absolute(a1, a2), s) <==>
              exists i :: 0 <= i < |s| && Matches(s[i], a1) && Matches(s[i], a2)
    ensures !Satisfied(Absolute(a1, a2), [])
  {
    if Satisfied(Absolute(a1, a2), s) {
      var x :| x in s && Matches(x, a1) && Matches(x, a2);
      var i :| 0 <= i < |s| && s[i] == x;
    }
  }

  /** A Relative hint compares the signed floor difference of a matching pair. */
  lemma RelativeMeaning(a1: Attr, a2: Attr, d: int, s: seq<FloorAssignment>)
    ensures Satisfied(Relative(a1, a2, d), s) <==>
              |s| < 2 ||
              exists i, j :: 0 <= i < |s| && 0 <= j < |s| && Matches(s[i], a1) && Matches(s[j], a2) &&
                             s[i].floor - s[j].floor == d
  {
    if |s| >= 2 && Satisfied(Relative(a1, a2, d), s) {
      var x, y :| x in s && y in s && Matches(x, a1) && Matches(y, a2) && x.floor - y.floor == d;
      var i :| 0 <= i < |s| && s[i] == x;
      var j :| 0 <= j < |s| && s[j] == y;
    }
  }

  /** A Neighbor hint asks for a matching pair on adjacent floors. */
  lemma NeighborMeaning(a1: Attr, a2: Attr, s: seq<FloorAssignment>)
    ensures Satisfied(Neighbor(a1, a2), s) <==>
              |s| < 2 ||
              exists i, j :: 0 <= i < |s| && 0 <= j < |s| && Matches(s[i], a1) && Matches(s[j], a2) &&
                             (s[i].floor - s[j].floor == 1 || s[j].floor - s[i].floor == 1)
  {
    assert Satisfied(Neighbor(a1, a2), s) == PairHolds(s, a1, a2, Adjacent);
    SomePairIndexed(s, a1, a2, Adjacent);
  }

  /** The pair a search finds, named by its positions in the list. */
  lemma SomePairIndexed(s: seq<FloorAssignment>, a1: Attr, a2: Attr, t: FloorTest)
    ensures SomePair(s, a1, a2, t) <==>
              exists i, j :: 0 <= i < |s| && 0 <= j < |s| && Matches(s[i], a1) && Matches(s[j], a2) &&
                             Passes(t, s[i].floor, s[j].floor)
  {
    if SomePair(s, a1, a2, t) {
      var x, y :| x in s && y in s && Matches(x, a1) && Matches(y, a2) && Passes(t, x.floor, y.floor);
      var i :| 0 <= i < |s| && s[i] == x;
      var j :| 0 <= j < |s| && s[j] == y;
    }
  }

  /** Swapping the attributes of an Absolute hint states the same constraint. */
  lemma AbsoluteSwap(a1: Attr, a2: Attr, s: seq<FloorAssignment>)
    ensures Satisfied(Absolute(a1, a2), s) == Satisfied(Absolute(a2, a1), s)
  {
  }

  /** Swapping the attributes and negating the floor test of a pair search
      finds the same pair the other way round. */
  lemma SomePairSwap(s: seq<FloorAssignment>, a1: Attr, a2: Attr, t: FloorTest, t': FloorTest)
    requires forall f1: int, f2: int :: Passes(t, f1, f2) ==> Passes(t', f2, f1)
    ensures SomePair(s, a1, a2, t) ==> SomePair(s, a2, a1, t')
  {
    if SomePair(s, a1, a2, t) {
      var x, y :| x in s && y in s && Matches(x, a1) && Matches(y, a2) && Passes(t, x.floor, y.floor);
      assert Passes(t', y.floor, x.floor);
    }
  }

  /** Swapping the attributes of a Relative hint and negating its difference
      states the same constraint. */
  lemma RelativeSwap(a1: Attr, a2: Attr, d: int, s: seq<FloorAssignment>)
    ensures Satisfied(Relative(a1, a2, d), s) == Satisfied(Relative(a2, a1, -d), s)
  {
    SomePairSwap(s, a1, a2, Difference(d), Difference(-d));
    SomePairSwap(s, a2, a1, Difference(-d), Difference(d));
  }

  /** A Neighbor hint is symmetric in its two attributes. */
  lemma NeighborSwap(a1: Attr, a2: Attr, s: seq<FloorAssignment>)
    ensures Satisfied(Neighbor(a1, a2), s) == Satisfied(Neighbor(a2, a1), s)
  {
    SomePairSwap(s, a1, a2, Adjacent, Adjacent);
    SomePairSwap(s, a2, a1, Adjacent, Adjacent);
  }

  /** A Neighbor hint is a Relative hint of difference 1 or of difference -1. */
  lemma NeighborIsRelativeOneOrMinusOne(a1: Attr, a2: Attr, s: seq<FloorAssignment>)
    ensures Satisfied(Neighbor(a1, a2), s) <==>
              Satisfied(Relative(a1, a2, 1), s) || Satisfied(Relative(a1, a2, -1), s)
  {
    assert Satisfied(Neighbor(a1, a2), s) == PairHolds(s, a1, a2, Adjacent);
    assert Satisfied(Relative(a1, a2, 1), s) == PairHolds(s, a1, a2, Difference(1));
    assert Satisfied(Relative(a1, a2, -1), s) == PairHolds(s, a1, a2, Difference(-1));
    AdjacentSplit(s, a1, a2);
  }

  /** An adjacent pair is one whose floors differ by 1 one way or the other. */
  lemma AdjacentSplit(s: seq<FloorAssignment>, a1: Attr, a2: Attr)
    ensures SomePair(s, a1, a2, Adjacent) <==>
              SomePair(s, a1, a2, Difference(1)) || SomePair(s, a1, a2, Difference(-1))
  {
    AdjacentFound(s, a1, a2);
    SomePairWeaken(s, a1, a2, Difference(1), Adjacent);
    SomePairWeaken(s, a1, a2, Difference(-1), Adjacent);
  }

  /** An adjacent pair passes one of the two signed tests. */
  lemma AdjacentFound(s: seq<FloorAssignment>, a1: Attr, a2: Attr)
    ensures SomePair(s, a1, a2, Adjacent) ==>
              SomePair(s, a1, a2, Difference(1)) || SomePair(s, a1, a2, Difference(-1))
  {
    if SomePair(s, a1, a2, Adjacent) {
      var x, y :| x in s && y in s && Matches(x, a1) && Matches(y, a2) && Passes(Adjacent, x.floor, y.floor);
      if x.floor - y.floor == 1 {
        assert Passes(Difference(1), x.floor, y.floor);
      } else {
        assert Passes(Difference(-1), x.floor, y.floor);
      }
    }
  }

  /** A pair that passes a stricter floor test passes a weaker one. */
  lemma SomePairWeaken(s: seq<FloorAssignment>, a1: Attr, a2: Attr, t: FloorTest, t': FloorTest)
    requires forall f1: int, f2: int :: Passes(t, f1, f2) ==> Passes(t', f1, f2)
    ensures SomePair(s, a1, a2, t) ==> SomePair(s, a1, a2, t')
  {
    if SomePair(s, a1, a2, t) {
      var x, y :| x in s && y in s && Matches(x, a1) && Matches(y, a2) && Passes(t, x.floor, y.floor);
      assert Passes(t', x.floor, y.floor);
    }
  }

  /** Floors are pairwise distinct, as in every candidate the solver builds. */
  predicate DistinctFloors(s: seq<FloorAssignment>) {
    forall i, j :: 0 <= i < j < |s| ==> s[i].floor != s[j].floor
  }

  /** With distinct floors and at least two assignments, a Relative hint of
      difference 0 is the Absolute hint on the same attributes. */
  lemma RelativeZeroIsAbsolute(a1: Attr, a2: Attr, s: seq<FloorAssignment>)
    requires |s| >= 2 && DistinctFloors(s)
    ensures Satisfied(Relative(a1, a2, 0), s) == Satisfied(Absolute(a1, a2), s)
  {
    if Satisfied(Relative(a1, a2, 0), s) {
      var x, y :| x in s && y in s && Matches(x, a1) && Matches(y, a2) && x.floor - y.floor == 0;
      var i :| 0 <= i < |s| && s[i] == x;
      var j :| 0 <= j < |s| && s[j] == y;
      assert i == j;
      assert Matches(x, a1) && Matches(x, a2);
    }
    if Satisfied(Absolute(a1, a2), s) {
      var x :| x in s && Matches(x, a1) && Matches(x, a2);
      assert Passes(Difference(0), x.floor, x.floor);
    }
  }

  /** The conjunction depends only on which hints occur: order and
      repetitions do not matter. */
  lemma AllSatisfiedOnlyMembersMatter(h1: seq<Hint>, h2: seq<Hint>, s: seq<FloorAssignment>)
    requires forall h :: h in h1 <==> h in h2
    ensures AllSatisfied(h1, s) == AllSatisfied(h2, s)
  {
  }

  /** Replacing one hint by another that agrees with it on s does not change
      the conjunction on s. */
  lemma AllSatisfiedReplace(hints: seq<Hint>, k: nat, h': Hint, s: seq<FloorAssignment>)
    requires k < |hints| && Satisfied(hints[k], s) == Satisfied(h', s)
    ensures AllSatisfied(hints[k := h'], s) == AllSatisfied(hints, s)
  {
    var r := hints[k := h'];
    if AllSatisfied(r, s) {
      forall i | 0 <= i < |hints| ensures Satisfied(hints[i], s) {
        assert r[i] in r;
      }
      forall h | h in hints ensures Satisfied(h, s) {
        var i :| 0 <= i < |hints| && hints[i] == h;
      }
    }
    if AllSatisfied(hints, s) {
      forall i | 0 <= i < |r| ensures Satisfied(r[i], s) {
        assert hints[i] in hints;
      }
      forall h | h in r ensures Satisfied(h, s) {
        var i :| 0 <= i < |r| && r[i] == h;
      }
    }
  }

  /** An Absolute hint restated as a Relative hint of difference 0. */
  function AsRelative(h: Hint): Hint {
    if h.Absolute? then Relative(h.attr1, h.attr2, 0) else h
  }

  /** Every Absolute hint of the list restated as a Relative hint of
      difference 0, the others kept. */
  function Relativize(hints: seq<Hint>): (r: seq<Hint>)
    ensures |r| == |hints|
    ensures forall i :: 0 <= i < |hints| ==> r[i] == AsRelative(hints[i])
  {
    if |hints| == 0 then [] else [AsRelative(hints[0])] + Relativize(hints[1..])
  }

  /** With distinct floors and at least two assignments, restating the
      Absolute hints as Relative hints of difference 0 does not change the
      conjunction. */
  lemma {:induction false} RelativizeSatisfied(hints: seq<Hint>, s: seq<FloorAssignment>)
    requires |s| >= 2 && DistinctFloors(s)
    ensures AllSatisfied(Relativize(hints), s) == AllSatisfied(hints, s)
  {
    if |hints| > 0 {
      var h := hints[0];
      if h.Absolute? {
        RelativeZeroIsAbsolute(h.attr1, h.attr2, s);
      }
      RelativizeSatisfied(hints[1..], s);
      assert Relativize(hints)[1..] == Relativize(hints[1..]);
    }
  }

  /** Duplicating the hint list does not change the conjunction. */
  lemma AllSatisfiedDuplicated(hints: seq<Hint>, s: seq<FloorAssignment>)
    ensures AllSatisfied(hints + hints, s) == AllSatisfied(hints, s)
  {
    assert forall h :: h in hints + hints <==> h in hints;
  }

  /** The conjunction over two lists joined is the conjunction of both. */
  lemma AllSatisfiedAppend(h1: seq<Hint>, h2: seq<Hint>, s: seq<FloorAssignment>)
    ensures AllSatisfied(h1 + h2, s) == (AllSatisfied(h1, s) && AllSatisfied(h2, s))
  {
    assert forall h :: h in h1 + h2 <==> h in h1 || h in h2;
  }

  /** Relativizing two lists joined relativizes each. */
  lemma RelativizeAppend(h1: seq<Hint>, h2: seq<Hint>)
    ensures Relativize(h1 + h2) == Relativize(h1) + Relativize(h2)
  {
  }

  /** The hint checks asserted by the test suite on one-element lists. */
  lemma AbsoluteExamples()
    ensures Satisfied(Absolute(A(Bird), F(1)), [FloorAssignment(1, Bird, Blue)])
    ensures Satisfied(Absolute(C(Blue), F(2)), [FloorAssignment(2, Bird, Blue)])
    ensures Satisfied(Absolute(A(Bird), C(Blue)), [FloorAssignment(3, Bird, Blue)])
    ensures !Satisfied(Absolute(C(Blue), F(2)), [FloorAssignment(1, Bird, Blue)])
    ensures !Satisfied(Absolute(F(1), A(Bird)), [FloorAssignment(3, Bird, Blue)])
  {
  }

  // ----- AbsoluteHint.get_possible_floor_assignments -----

  /** Whether a triple is one get_possible_floor_assignments may return. */
  predicate Candidate3(x: FloorAssignment, floors: seq<Floor>, animals: seq<Animal>, colors: seq<Color>, a1: Attr, a2: Attr) {
    x.floor in floors && x.animal in animals && x.color in colors && Matches(x, a1) && Matches(x, a2)
  }

  /** The matching triples (f, a, colors[k]) for k < n, in loop order. */
  function PossibleCell(f: Floor, a: Animal, colors: seq<Color>, n: nat, a1: Attr, a2: Attr): seq<FloorAssignment>
    requires n <= |colors|
  {
    if n == 0 then []
    else
      var x := FloorAssignment(f, a, colors[n - 1]);
      PossibleCell(f, a, colors, n - 1, a1, a2) + (if Matches(x, a1) && Matches(x, a2) then [x] else [])
  }

  /** The same for floor f over animals[k], k < n, each with every colour. */
  function PossibleRow(f: Floor, animals: seq<Animal>, n: nat, colors: seq<Color>, a1: Attr, a2: Attr): seq<FloorAssignment>
    requires n <= |animals|
  {
    if n == 0 then []
    else PossibleRow(f, animals, n - 1, colors, a1, a2) + PossibleCell(f, animals[n - 1], colors, |colors|, a1, a2)
  }

  /** The matching triples over floors[k], k < n, every animal and every
      colour, in the order of the source's triple loop. */
  function PossibleUpTo(floors: seq<Floor>, n: nat, animals: seq<Animal>, colors: seq<Color>, a1: Attr, a2: Attr): seq<FloorAssignment>
    requires n <= |floors|
  {
    if n == 0 then []
    else PossibleUpTo(floors, n - 1, animals, colors, a1, a2) + PossibleRow(floors[n - 1], animals, |animals|, colors, a1, a2)
  }

  /** What get_possible_floor_assignments returns. */
  function Possible(floors: seq<Floor>, animals: seq<Animal>, colors: seq<Color>, a1: Attr, a2: Attr): seq<FloorAssignment> {
    PossibleUpTo(floors, |floors|, animals, colors, a1, a2)
  }

  lemma {:induction false} PossibleCellMembers(f: Floor, a: Animal, colors: seq<Color>, n: nat, a1: Attr, a2: Attr)
    requires n <= |colors|
    ensures forall x :: x in PossibleCell(f, a, colors, n, a1, a2) <==>
              x.floor == f && x.animal == a && x.color in colors[..n] && Matches(x, a1) && Matches(x, a2)
  {
    if n > 0 {
      PossibleCellMembers(f, a, colors, n - 1, a1, a2);
      assert forall c :: c in colors[..n] <==> c in colors[..n - 1] || c == colors[n - 1];
    }
  }

  lemma {:induction false} PossibleRowMembers(f: Floor, animals: seq<Animal>, n: nat, colors: seq<Color>, a1: Attr, a2: Attr)
    requires n <= |animals|
    ensures forall x :: x in PossibleRow(f, animals, n, colors, a1, a2) <==>
              x.floor == f && x.animal in animals[..n] && x.color in colors && Matches(x, a1) && Matches(x, a2)
  {
    if n > 0 {
      PossibleRowMembers(f, animals, n - 1, colors, a1, a2);
      PossibleCellMembers(f, animals[n - 1], colors, |colors|, a1, a2);
      assert colors[..|colors|] == colors;
      assert forall b :: b in animals[..n] <==> b in animals[..n - 1] || b == animals[n - 1];
    }
  }

  lemma {:induction false} PossibleUpToMembers(floors: seq<Floor>, n: nat, animals: seq<Animal>, colors: seq<Color>, a1: Attr, a2: Attr)
    requires n <= |floors|
    ensures forall x :: x in PossibleUpTo(floors, n, animals, colors, a1, a2) <==> Candidate3(x, floors[..n], animals, colors, a1, a2)
  {
    if n > 0 {
      PossibleUpToMembers(floors, n - 1, animals, colors, a1, a2);
      PossibleRowMembers(floors[n - 1], animals, |animals|, colors, a1, a2);
      assert animals[..|animals|] == animals;
      assert forall g :: g in floors[..n] <==> g in floors[..n - 1] || g == floors[n - 1];
    }
  }

  /** get_possible_floor_assignments returns exactly the triples of
      floors x animals x colors that match both attributes of the hint. */
  lemma PossibleMembers(floors: seq<Floor>, animals: seq<Animal>, colors: seq<Color>, a1: Attr, a2: Attr)
    ensures forall x :: x in Possible(floors, animals, colors, a1, a2) <==> Candidate3(x, floors, animals, colors, a1, a2)
  {
    PossibleUpToMembers(floors, |floors|, animals, colors, a1, a2);
    assert floors[..|floors|] == floors;
  }

  /** AbsoluteHint.get_possible_floor_assignments: the triple loop appending
      every candidate triple that matches both attributes of the hint.
      The triples of one floor are gathered by MatchingRow before they are
      appended, which yields the same list in the same order.
      floorAssignments is accepted and ignored, as in the source. */
  method GetPossibleFloorAssignments(a1: Attr, a2: Attr, emptyFloors: seq<Floor>, animalOptions: seq<Animal>,
                                     colorOptions: seq<Color>, floorAssignments: seq<FloorAssignment>)
    returns (possible: seq<FloorAssignment>)
    ensures possible == Possible(emptyFloors, animalOptions, colorOptions, a1, a2)
    ensures forall x :: x in possible <==> Candidate3(x, emptyFloors, animalOptions, colorOptions, a1, a2)
  {
    possible := [];
    var i := 0;
    while i < |emptyFloors|
      invariant 0 <= i <= |emptyFloors|
      invariant possible == PossibleUpTo(emptyFloors, i, animalOptions, colorOptions, a1, a2)
    {
      var row := MatchingRow(a1, a2, emptyFloors[i], animalOptions, colorOptions);
      possible := possible + row;
      i := i + 1;
    }
    PossibleMembers(emptyFloors, animalOptions, colorOptions, a1, a2);
  }

  /** The two inner loops of get_possible_floor_assignments for one floor. */
  method MatchingRow(a1: Attr, a2: Attr, floor: Floor, animalOptions: seq<Animal>, colorOptions: seq<Color>)
    returns (row: seq<FloorAssignment>)
    ensures row == PossibleRow(floor, animalOptions, |animalOptions|, colorOptions, a1, a2)
  {
    row := [];
    var j := 0;
    while j < |animalOptions|
      invariant 0 <= j <= |animalOptions|
      invariant row == PossibleRow(floor, animalOptions, j, colorOptions, a1, a2)
    {
      var cell := MatchingCell(a1, a2, floor, animalOptions[j], colorOptions);
      row := row + cell;
      j := j + 1;
    }
  }

  /** The innermost loop for one floor and one animal. */
  method MatchingCell(a1: Attr, a2: Attr, floor: Floor, animal: Animal, colorOptions: seq<Color>)
    returns (cell: seq<FloorAssignment>)
    ensures cell == PossibleCell(floor, animal, colorOptions, |colorOptions|, a1, a2)
  {
    cell := [];
    var k := 0;
    while k < |colorOptions|
      invariant 0 <= k <= |colorOptions|
      invariant cell == PossibleCell(floor, animal, colorOptions, k, a1, a2)
    {
      var assignment := FloorAssignment(floor, animal, colorOptions[k]);
      if Matches(assignment, a1) && Matches(assignment, a2) {
        cell := cell + [assignment];
      }
      k := k + 1;
    }
  }

  /** The two results the test suite asserts. */
  lemma PossibleExamples()
    ensures |Possible([2, 3], [Chicken, Frog], [Blue, Green], A(Bird), F(1))| == 0
    ensures |Possible([2, 3], [Bird, Frog], [Blue, Green], A(Bird), F(2))| == 2
  {
    var r0 := Possible([2, 3], [Chicken, Frog], [Blue, Green], A(Bird), F(1));
    PossibleMembers([2, 3], [Chicken, Frog], [Blue, Green], A(Bird), F(1));
    var fs: seq<Floor> := [2, 3];
    var ans := [Bird, Frog];
    var cs := [Blue, Green];
    assert PossibleRow(2, ans, 2, cs, A(Bird), F(2)) == [FloorAssignment(2, Bird, Blue), FloorAssignment(2, Bird, Green)];
    assert PossibleRow(3, ans, 2, cs, A(Bird), F(2)) == [];
  }
}
