/** count_assignments of count_assignments.py: every tower built from a
    permutation of the animals and a permutation of the colours, in
    itertools order, is checked against all hints and counted. */
module BruteForce {
  import opened Tower
  import opened Hints
  import opened Permutations

  /** The tower the innermost loop builds: floor k + 1 holds ap[k] and cp[k]. */
  function Candidate(ap: seq<Animal>, cp: seq<Color>): (r: seq<FloorAssignment>)
    requires |ap| == 5 && |cp| == 5
    ensures |r| == 5 && DistinctFloors(r)
    ensures forall k :: 0 <= k < 5 ==> r[k] == FloorAssignment(k + 1, ap[k], cp[k])
  {
    seq(5, k requires 0 <= k < 5 => FloorAssignment(k + 1, ap[k], cp[k]))
  }

  /** Whether the tower of ap and cp satisfies every hint. */
  predicate Accepts(hints: seq<Hint>, ap: seq<Animal>, cp: seq<Color>) {
    |ap| == 5 && |cp| == 5 && AllSatisfied(hints, Candidate(ap, cp))
  }

  function AcceptsFn(hints: seq<Hint>): (seq<Animal>, seq<Color>) -> bool {
    (ap, cp) => Accepts(hints, ap, cp)
  }

  /** A listing of the domain: the five animals and the five colours, each
      value exactly once. list(Animal) and list(Color) are one such listing. */
  predicate Listing(animals: seq<Animal>, colors: seq<Color>) {
    && |animals| == 5 && |colors| == 5
    && Distinct(animals) && Distinct(colors)
    && (forall a: Animal :: a in animals)
    && (forall c: Color :: c in colors)
  }

  /** The number of towers, over all permutations of animals and of colors,
      that satisfy every hint. */
  function Solutions(hints: seq<Hint>, animals: seq<Animal>, colors: seq<Color>): nat {
    CountPairs(Perms(animals), Perms(colors), AcceptsFn(hints))
  }

  /** The count over list(Animal) and list(Color), in declaration order. */
  function EnumCount(hints: seq<Hint>): nat {
    Solutions(hints, AllAnimals, AllColors)
  }

  /** The declaration-order lists are a listing of the domain. */
  lemma DeclarationOrderListing()
    ensures Listing(AllAnimals, AllColors)
  {
    AnimalsComplete();
    ColorsComplete();
  }

  /** The loop over enumerate(floors) that pairs the k-th floor with the k-th
      animal and the k-th colour of the two permutations. */
  method BuildAssignment(ap: seq<Animal>, cp: seq<Color>) returns (assignment: seq<FloorAssignment>)
    requires |ap| == 5 && |cp| == 5
    ensures assignment == Candidate(ap, cp)
  {
    var floors := AllFloors;
    assignment := [];
    var i := 0;
    while i < |floors|
      invariant 0 <= i <= 5
      invariant |assignment| == i
      invariant forall k :: 0 <= k < i ==> assignment[k] == FloorAssignment(k + 1, ap[k], cp[k])
    {
      assert floors[i] == i + 1;
      assignment := assignment + [FloorAssignment(floors[i], ap[i], cp[i])];
      i := i + 1;
    }
  }

  /** count_assignments, over list(Animal) and list(Color). */
  method CountAssignments(hints: seq<Hint>) returns (count: nat)
    ensures count == EnumCount(hints)
    ensures |hints| == 0 ==> count == 14400
  {
    count := CountTowers(hints, AllAnimals, AllColors);
  }

  /** The body of count_assignments for given animal and colour lists: no
      hints short-circuits to 5! * 5!; otherwise the loops over
      permutations(animals) and permutations(colors) build each tower and
      count those that satisfy every hint. */
  method CountTowers(hints: seq<Hint>, animals: seq<Animal>, colors: seq<Color>) returns (count: nat)
    requires |animals| == 5 && |colors| == 5
    ensures count == Solutions(hints, animals, colors)
    ensures |hints| == 0 ==> count == 14400
  {
    if |hints| == 0 {
      NoHintsCount(animals, colors);
      return 14400;
    }
    var animalPerms := Perms(animals);
    var colorPerms := Perms(colors);
    EnumerationShape(animals, colors);
    count := 0;
    var i := 0;
    while i < |animalPerms|
      invariant i <= |animalPerms|
      invariant count == CountPairsUpTo(animalPerms, i, colorPerms, AcceptsFn(hints))
    {
      var ap := animalPerms[i];
      assert ap in animalPerms;
      var row := CountRow(hints, ap, colorPerms);
      count := count + row;
      i := i + 1;
    }
  }

  /** One more colour permutation in a row of the enumeration. */
  lemma RowStep(hints: seq<Hint>, ap: seq<Animal>, ys: seq<seq<Color>>, j: nat)
    requires j < |ys|
    ensures RowCount(ap, ys, j + 1, AcceptsFn(hints)) ==
              RowCount(ap, ys, j, AcceptsFn(hints)) + (if Accepts(hints, ap, ys[j]) then 1 else 0)
  {
  }

  /** The inner loop of count_assignments: the towers of one animal permutation
      with each colour permutation, counted when every hint holds. */
  method CountRow(hints: seq<Hint>, ap: seq<Animal>, colorPerms: seq<seq<Color>>) returns (count: nat)
    requires |ap| == 5 && forall q :: q in colorPerms ==> |q| == 5
    ensures count == RowCount(ap, colorPerms, |colorPerms|, AcceptsFn(hints))
  {
    count := 0;
    var j := 0;
    while j < |colorPerms|
      invariant j <= |colorPerms|
      invariant count == RowCount(ap, colorPerms, j, AcceptsFn(hints))
    {
      var cp := colorPerms[j];
      assert cp in colorPerms;
      var assignment := BuildAssignment(ap, cp);
      var accepted := AllSatisfied(hints, assignment);
      RowStep(hints, ap, colorPerms, j);
      if accepted {
        count := count + 1;
      }
      j := j + 1;
    }
  }

  // ----- the enumeration -----

  /** Each enumeration has 5! entries of five elements. */
  lemma EnumerationShape(animals: seq<Animal>, colors: seq<Color>)
    requires |animals| == 5 && |colors| == 5
    ensures |Perms(animals)| == 120 && |Perms(colors)| == 120
    ensures forall p :: p in Perms(animals) ==> |p| == 5
    ensures forall q :: q in Perms(colors) ==> |q| == 5
  {
    FivePermutations(animals);
    FivePermutations(colors);
  }

  /** The enumeration visits exactly the rearrangements of the listings:
      every tower with each animal and each colour on exactly one floor. */
  lemma EnumerationComplete(animals: seq<Animal>, colors: seq<Color>, ap: seq<Animal>, cp: seq<Color>)
    ensures ap in Perms(animals) <==> multiset(ap) == multiset(animals)
    ensures cp in Perms(colors) <==> multiset(cp) == multiset(colors)
  {
    PermsSound(animals);
    PermsSound(colors);
    if multiset(ap) == multiset(animals) {
      PermsComplete(animals, ap);
    }
    if multiset(cp) == multiset(colors) {
      PermsComplete(colors, cp);
    }
  }

  // ----- general properties of the count -----

  /** No hints accept all 5! * 5! towers, the value the early return gives. */
  lemma NoHintsCount(animals: seq<Animal>, colors: seq<Color>)
    requires |animals| == 5 && |colors| == 5
    ensures Solutions([], animals, colors) == 14400
  {
    var animalPerms := Perms(animals);
    var colorPerms := Perms(colors);
    EnumerationShape(animals, colors);
    forall p, q | p in animalPerms && q in colorPerms
      ensures AcceptsFn([])(p, q) == (Const(true)(p) && Const(true)(q))
    {
    }
    CountPairsProduct(animalPerms, colorPerms, AcceptsFn([]), Const(true), Const(true));
    CountAll(animalPerms, Const(true));
    CountAll(colorPerms, Const(true));
    var na, nc := Count(animalPerms, Const(true)), Count(colorPerms, Const(true));
    assert na * nc == 120 * 120;
  }

  /** The count never exceeds the number of towers. */
  lemma CountBound(hints: seq<Hint>, animals: seq<Animal>, colors: seq<Color>)
    requires |animals| == 5 && |colors| == 5
    ensures Solutions(hints, animals, colors) <= 14400
  {
    EnumerationShape(animals, colors);
    var animalPerms, colorPerms := Perms(animals), Perms(colors);
    CountPairsBound(animalPerms, colorPerms, AcceptsFn(hints));
    assert |animalPerms| * |colorPerms| == 120 * 120;
  }

  /** Adding hints never increases the count. */
  lemma MoreHintsFewerTowers(hints: seq<Hint>, extra: seq<Hint>, animals: seq<Animal>, colors: seq<Color>)
    ensures Solutions(hints + extra, animals, colors) <= Solutions(hints, animals, colors)
  {
    forall p, q | p in Perms(animals) && q in Perms(colors) && AcceptsFn(hints + extra)(p, q)
      ensures AcceptsFn(hints)(p, q)
    {
      assert forall h :: h in hints ==> h in hints + extra;
    }
    CountPairsMono(Perms(animals), Perms(colors), AcceptsFn(hints + extra), AcceptsFn(hints));
  }

  /** The count depends only on which hints occur, not on their order or
      repetitions. */
  lemma SameHintsSameCount(h1: seq<Hint>, h2: seq<Hint>, animals: seq<Animal>, colors: seq<Color>)
    requires forall h :: h in h1 <==> h in h2
    ensures Solutions(h1, animals, colors) == Solutions(h2, animals, colors)
  {
    forall p, q | p in Perms(animals) && q in Perms(colors)
      ensures AcceptsFn(h1)(p, q) == AcceptsFn(h2)(p, q)
    {
      if |p| == 5 && |q| == 5 {
        AllSatisfiedOnlyMembersMatter(h1, h2, Candidate(p, q));
      }
    }
    CountPairsCongruent(Perms(animals), Perms(colors), AcceptsFn(h1), AcceptsFn(h2));
  }

  /** Listing a hint twice counts the same as listing it once. */
  lemma DuplicateHintCount(h: Hint, animals: seq<Animal>, colors: seq<Color>)
    ensures Solutions([h, h], animals, colors) == Solutions([h], animals, colors)
  {
    SameHintsSameCount([h, h], [h], animals, colors);
  }

  /** Replacing one hint by another that every tower satisfies exactly when
      it satisfies the first leaves the count unchanged. */
  lemma ReplaceHintCount(hints: seq<Hint>, k: nat, h': Hint, animals: seq<Animal>, colors: seq<Color>)
    requires k < |hints|
    requires forall ap, cp :: |ap| == 5 && |cp| == 5 ==>
               (Satisfied(hints[k], Candidate(ap, cp)) <==> Satisfied(h', Candidate(ap, cp)))
    ensures Solutions(hints[k := h'], animals, colors) == Solutions(hints, animals, colors)
  {
    var hints' := hints[k := h'];
    forall p, q | p in Perms(animals) && q in Perms(colors)
      ensures AcceptsFn(hints')(p, q) == AcceptsFn(hints)(p, q)
    {
      if |p| == 5 && |q| == 5 {
        AllSatisfiedReplace(hints, k, h', Candidate(p, q));
      }
    }
    CountPairsCongruent(Perms(animals), Perms(colors), AcceptsFn(hints'), AcceptsFn(hints));
  }

  /** Swapping the attributes of an Absolute hint does not change the count. */
  lemma AbsoluteSwapCount(hints: seq<Hint>, k: nat, a1: Attr, a2: Attr, animals: seq<Animal>, colors: seq<Color>)
    requires k < |hints| && hints[k] == Absolute(a1, a2)
    ensures Solutions(hints[k := Absolute(a2, a1)], animals, colors) == Solutions(hints, animals, colors)
  {
    forall ap: seq<Animal>, cp: seq<Color> | |ap| == 5 && |cp| == 5
      ensures Satisfied(hints[k], Candidate(ap, cp)) <==> Satisfied(Absolute(a2, a1), Candidate(ap, cp))
    {
      AbsoluteSwap(a1, a2, Candidate(ap, cp));
    }
    ReplaceHintCount(hints, k, Absolute(a2, a1), animals, colors);
  }

  /** Swapping the attributes of a Relative hint and negating its difference
      does not change the count. */
  lemma RelativeSwapCount(hints: seq<Hint>, k: nat, a1: Attr, a2: Attr, d: int, animals: seq<Animal>, colors: seq<Color>)
    requires k < |hints| && hints[k] == Relative(a1, a2, d)
    ensures Solutions(hints[k := Relative(a2, a1, -d)], animals, colors) == Solutions(hints, animals, colors)
  {
    forall ap: seq<Animal>, cp: seq<Color> | |ap| == 5 && |cp| == 5
      ensures Satisfied(hints[k], Candidate(ap, cp)) <==> Satisfied(Relative(a2, a1, -d), Candidate(ap, cp))
    {
      RelativeSwap(a1, a2, d, Candidate(ap, cp));
    }
    ReplaceHintCount(hints, k, Relative(a2, a1, -d), animals, colors);
  }

  /** Swapping the attributes of a Neighbor hint does not change the count. */
  lemma NeighborSwapCount(hints: seq<Hint>, k: nat, a1: Attr, a2: Attr, animals: seq<Animal>, colors: seq<Color>)
    requires k < |hints| && hints[k] == Neighbor(a1, a2)
    ensures Solutions(hints[k := Neighbor(a2, a1)], animals, colors) == Solutions(hints, animals, colors)
  {
    forall ap: seq<Animal>, cp: seq<Color> | |ap| == 5 && |cp| == 5
      ensures Satisfied(hints[k], Candidate(ap, cp)) <==> Satisfied(Neighbor(a2, a1), Candidate(ap, cp))
    {
      NeighborSwap(a1, a2, Candidate(ap, cp));
    }
    ReplaceHintCount(hints, k, Neighbor(a2, a1), animals, colors);
  }

  /** On the towers the enumeration builds, a Relative hint of difference 0
      counts like the Absolute hint on the same attributes. */
  lemma RelativeZeroCount(hints: seq<Hint>, k: nat, a1: Attr, a2: Attr, animals: seq<Animal>, colors: seq<Color>)
    requires k < |hints| && hints[k] == Relative(a1, a2, 0)
    ensures Solutions(hints[k := Absolute(a1, a2)], animals, colors) == Solutions(hints, animals, colors)
  {
    forall ap: seq<Animal>, cp: seq<Color> | |ap| == 5 && |cp| == 5
      ensures Satisfied(hints[k], Candidate(ap, cp)) <==> Satisfied(Absolute(a1, a2), Candidate(ap, cp))
    {
      RelativeZeroIsAbsolute(a1, a2, Candidate(ap, cp));
    }
    ReplaceHintCount(hints, k, Absolute(a1, a2), animals, colors);
  }

  /** Writing every Absolute hint as a Relative hint of difference 0 leaves
      the count unchanged. */
  lemma RelativizeCount(hints: seq<Hint>, animals: seq<Animal>, colors: seq<Color>)
    requires |animals| == 5 && |colors| == 5
    ensures Solutions(Relativize(hints), animals, colors) == Solutions(hints, animals, colors)
  {
    EnumerationShape(animals, colors);
    forall p, q | p in Perms(animals) && q in Perms(colors)
      ensures AcceptsFn(Relativize(hints))(p, q) == AcceptsFn(hints)(p, q)
    {
      RelativizeSatisfied(hints, Candidate(p, q));
    }
    CountPairsCongruent(Perms(animals), Perms(colors), AcceptsFn(Relativize(hints)), AcceptsFn(hints));
  }

  /** Two listings of the domain hold the same animals and the same colours. */
  lemma ListingsAgree(animals: seq<Animal>, colors: seq<Color>, animals': seq<Animal>, colors': seq<Color>)
    requires Listing(animals, colors) && Listing(animals', colors')
    ensures multiset(animals) == multiset(animals') && multiset(colors) == multiset(colors')
  {
    SameElementsMultiset(animals, animals');
    SameElementsMultiset(colors, colors');
  }
}
