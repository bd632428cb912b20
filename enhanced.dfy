/** The enhanced utilities: a tower built floor by floor that refuses to
    reuse an animal or a colour, the hint validators, and a second copy of
    the enumeration. */
module Enhanced {
  import opened Tower
  import opened Hints
  import opened Permutations
  import opened BruteForce

  // ----- lookups -----

  /** The first assignment in s that carries attr, if any. */
  function FirstMatch(s: seq<FloorAssignment>, attr: Attr): (r: Option<FloorAssignment>)
    ensures r.None? <==> forall x :: x in s ==> !Matches(x, attr)
    ensures r.Some? ==> exists i :: 0 <= i < |s| && s[i] == r.value && Matches(s[i], attr) &&
                                   forall j :: 0 <= j < i ==> !Matches(s[j], attr)
  {
    if |s| == 0 then None
    else if Matches(s[0], attr) then Some(s[0])
    else
      var r := FirstMatch(s[1..], attr);
      assert forall x :: x in s ==> x == s[0] || x in s[1..];
      if r.Some? then
        var i :| 0 <= i < |s[1..]| && s[1..][i] == r.value && Matches(s[1..][i], attr) &&
                 forall j :: 0 <= j < i ==> !Matches(s[1..][j], attr);
        assert s[i + 1] == r.value;
        assert forall j :: 0 <= j < i + 1 ==> !Matches(s[j], attr) by {
          forall j | 0 <= j < i + 1 ensures !Matches(s[j], attr) {
            if j > 0 {
              assert s[j] == s[1..][j - 1];
            }
          }
        }
        r
      else r
  }

  // ----- the tower state -----

  /** The animals and colours that occur in a list of assignments. */
  function AnimalsOf(s: seq<FloorAssignment>): set<Animal> {
    set x | x in s :: x.animal
  }

  function ColorsOf(s: seq<FloorAssignment>): set<Color> {
    set x | x in s :: x.color
  }

  /** used and available partition all values of the type. */
  ghost predicate Split<T(!new)>(used: set<T>, available: set<T>) {
    used !! available && forall x: T :: x in used || x in available
  }

  /** Moving an unused value from available to used keeps the partition, and
      the value was available. */
  lemma SplitMove<T(!new)>(used: set<T>, available: set<T>, x: T)
    requires Split(used, available) && x !in used
    ensures x in available && Split(used + {x}, available - {x})
  {
  }

  lemma AnimalsCovered(used: set<Animal>, available: set<Animal>)
    requires Split(used, available)
    ensures used + available == AnimalSet
  {
    forall a | a in used + available ensures a in AnimalSet {
      match a
      case Frog =>
      case Rabbit =>
      case Grasshopper =>
      case Bird =>
      case Chicken =>
    }
  }

  lemma ColorsCovered(used: set<Color>, available: set<Color>)
    requires Split(used, available)
    ensures used + available == ColorSet
  {
    forall c | c in used + available ensures c in ColorSet {
      match c
      case Red =>
      case Green =>
      case Blue =>
      case Yellow =>
      case Orange =>
    }
  }

  /** Nothing used, everything available: a partition. */
  lemma FreshSplit()
    ensures Split({}, AnimalSet) && Split({}, ColorSet)
  {
    forall a: Animal ensures a in AnimalSet {
      match a
      case Frog =>
      case Rabbit =>
      case Grasshopper =>
      case Bird =>
      case Chicken =>
    }
    forall c: Color ensures c in ColorSet {
      match c
      case Red =>
      case Green =>
      case Blue =>
      case Yellow =>
      case Orange =>
    }
  }

  /** With five values split into used and available, at most five are used,
      and five exactly when none is available. */
  lemma SplitBounds<T(!new)>(used: set<T>, available: set<T>, all: set<T>)
    requires Split(used, available) && used + available == all && |all| == 5
    ensures |used| <= 5
    ensures |used| == 5 <==> available == {}
  {
    assert |used| + |available| == |all|;
  }

  /** The record TowerState keeps, as values. */
  ghost predicate Consistent(s: seq<FloorAssignment>, usedAnimals: set<Animal>, usedColors: set<Color>,
                             availableAnimals: set<Animal>, availableColors: set<Color>)
  {
    && Split(usedAnimals, availableAnimals)
    && Split(usedColors, availableColors)
    && usedAnimals == AnimalsOf(s)
    && usedColors == ColorsOf(s)
    && |s| == |usedAnimals| == |usedColors|
  }

  lemma OfAppend(s: seq<FloorAssignment>, x: FloorAssignment)
    ensures AnimalsOf(s + [x]) == AnimalsOf(s) + {x.animal}
    ensures ColorsOf(s + [x]) == ColorsOf(s) + {x.color}
  {
    assert forall y :: y in s + [x] <==> y in s || y == x;
  }

  /** Recording an assignment with a fresh animal and a fresh colour keeps
      the record consistent. */
  lemma AddKeepsConsistent(s: seq<FloorAssignment>, usedAnimals: set<Animal>, usedColors: set<Color>,
                           availableAnimals: set<Animal>, availableColors: set<Color>, x: FloorAssignment)
    requires Consistent(s, usedAnimals, usedColors, availableAnimals, availableColors)
    requires x.animal !in usedAnimals && x.color !in usedColors
    ensures x.animal in availableAnimals && x.color in availableColors
    ensures Consistent(s + [x], usedAnimals + {x.animal}, usedColors + {x.color},
                       availableAnimals - {x.animal}, availableColors - {x.color})
  {
    SplitMove(usedAnimals, availableAnimals, x.animal);
    SplitMove(usedColors, availableColors, x.color);
    OfAppend(s, x);
  }

  /** A value is used exactly when the lookup by it finds an assignment. */
  lemma LookupFindsUsed(s: seq<FloorAssignment>, a: Animal, c: Color)
    ensures FirstMatch(s, A(a)).Some? <==> a in AnimalsOf(s)
    ensures FirstMatch(s, C(c)).Some? <==> c in ColorsOf(s)
  {
    if a in AnimalsOf(s) {
      var x :| x in s && x.animal == a;
      assert Matches(x, A(a));
    }
    if c in ColorsOf(s) {
      var x :| x in s && x.color == c;
      assert Matches(x, C(c));
    }
  }

  /** TowerState: the assignments made so far, the animals and colours they
      use and those still available. */
  class TowerState {
    var floorAssignments: seq<FloorAssignment>
    var usedAnimals: set<Animal>
    var usedColors: set<Color>
    var availableAnimals: set<Animal>
    var availableColors: set<Color>

    /** Used and available split the animals and the colours; the used ones
        are those of the assignments, one assignment for each. */
    ghost predicate Valid()
      reads this
    {
      Consistent(floorAssignments, usedAnimals, usedColors, availableAnimals, availableColors)
    }

    constructor ()
      ensures Valid()
      ensures floorAssignments == [] && usedAnimals == {} && usedColors == {}
      ensures availableAnimals == AnimalSet && availableColors == ColorSet
    {
      floorAssignments := [];
      usedAnimals := {};
      usedColors := {};
      availableAnimals := AnimalSet;
      availableColors := ColorSet;
      FreshSplit();
    }

    /** add_assignment: refuses an assignment whose animal or colour is
        already used and changes nothing; otherwise records it and moves its
        animal and colour from available to used. */
    method AddAssignment(x: FloorAssignment) returns (ok: bool)
      requires Valid()
      modifies this
      ensures Valid()
      ensures ok <==> x.animal !in old(usedAnimals) && x.color !in old(usedColors)
      ensures !ok ==> unchanged(this)
      ensures ok ==> && floorAssignments == old(floorAssignments) + [x]
                     && usedAnimals == old(usedAnimals) + {x.animal}
                     && usedColors == old(usedColors) + {x.color}
                     && availableAnimals == old(availableAnimals) - {x.animal}
                     && availableColors == old(availableColors) - {x.color}
    {
      if x.animal in usedAnimals || x.color in usedColors {
        return false;
      }
      // the removals below cannot fail: what is not used is available
      AddKeepsConsistent(floorAssignments, usedAnimals, usedColors, availableAnimals, availableColors, x);
      floorAssignments := floorAssignments + [x];
      usedAnimals := usedAnimals + {x.animal};
      usedColors := usedColors + {x.color};
      availableAnimals := availableAnimals - {x.animal};
      availableColors := availableColors - {x.color};
      return true;
    }

    predicate IsComplete()
      reads this
    {
      |floorAssignments| == 5
    }

    /** get_assignment_for_floor. */
    function AssignmentForFloor(f: Floor): Option<FloorAssignment>
      reads this
    {
      FirstMatch(floorAssignments, F(f))
    }

    /** get_assignment_for_animal. */
    function AssignmentForAnimal(a: Animal): Option<FloorAssignment>
      reads this
    {
      FirstMatch(floorAssignments, A(a))
    }

    /** get_assignment_for_color. */
    function AssignmentForColor(c: Color): Option<FloorAssignment>
      reads this
    {
      FirstMatch(floorAssignments, C(c))
    }

    /** Under the invariant at most five floors are assigned, and the tower is
        complete exactly when every animal and every colour is used. */
    lemma StateBounds()
      requires Valid()
      ensures |floorAssignments| <= 5
      ensures usedAnimals + availableAnimals == AnimalSet && usedColors + availableColors == ColorSet
      ensures IsComplete() <==> availableAnimals == {} && availableColors == {}
    {
      AnimalsCovered(usedAnimals, availableAnimals);
      ColorsCovered(usedColors, availableColors);
      SetSizes();
      SplitBounds(usedAnimals, availableAnimals, AnimalSet);
      SplitBounds(usedColors, availableColors, ColorSet);
    }

    /** An animal has an assignment exactly when it is used, and so for
        colours. */
    lemma LookupsMatchUsed(a: Animal, c: Color)
      requires Valid()
      ensures AssignmentForAnimal(a).Some? <==> a in usedAnimals
      ensures AssignmentForColor(c).Some? <==> c in usedColors
      ensures AssignmentForAnimal(a).Some? ==> AssignmentForAnimal(a).value.animal == a
      ensures AssignmentForColor(c).Some? ==> AssignmentForColor(c).value.color == c
    {
      LookupFindsUsed(floorAssignments, a, c);
    }
  }

  // ----- the validators -----

  /** AssignmentValidator.validate_all_hints: every hint holds. */
  function ValidateAllHints(assignments: seq<FloorAssignment>, hints: seq<Hint>): (r: bool)
    ensures r <==> forall h :: h in hints ==> Satisfied(h, assignments)
  {
    AllSatisfied(hints, assignments)
  }

  /** AssignmentValidator.validate_early_termination: the hints in order,
      stopping at the first that fails. */
  function ValidateEarlyTermination(partial: seq<FloorAssignment>, hints: seq<Hint>): (r: bool)
    ensures r == ValidateAllHints(partial, hints)
  {
    if |hints| == 0 then true
    else if !Satisfied(hints[0], partial) then false
    else
      assert forall h :: h in hints <==> h == hints[0] || h in hints[1..];
      ValidateEarlyTermination(partial, hints[1..])
  }

  /** On fewer than two assignments only Absolute hints can fail, so early
      termination on a short prefix is decided by the Absolute hints. */
  lemma ShortPrefixOnlyAbsolute(partial: seq<FloorAssignment>, hints: seq<Hint>)
    requires |partial| < 2
    ensures ValidateEarlyTermination(partial, hints) <==>
              forall h :: h in hints && h.Absolute? ==> Satisfied(h, partial)
  {
  }

  // ----- the enumeration again -----

  /** count_assignments_optimized: the same loops as count_assignments, each
      tower checked with validate_all_hints. */
  method CountAssignmentsOptimized(hints: seq<Hint>) returns (count: nat)
    ensures count == EnumCount(hints)
    ensures |hints| == 0 ==> count == 14400
  {
    if |hints| == 0 {
      NoHintsCount(AllAnimals, AllColors);
      return 14400;
    }
    var animalPerms := Perms(AllAnimals);
    var colorPerms := Perms(AllColors);
    EnumerationShape(AllAnimals, AllColors);
    count := 0;
    var i := 0;
    while i < |animalPerms|
      invariant i <= |animalPerms|
      invariant count == CountPairsUpTo(animalPerms, i, colorPerms, AcceptsFn(hints))
    {
      var ap := animalPerms[i];
      assert ap in animalPerms;
      var row := CountRowOptimized(hints, ap, colorPerms);
      count := count + row;
      i := i + 1;
    }
  }

  /** The inner loop of count_assignments_optimized, each tower checked with
      validate_all_hints. */
  method CountRowOptimized(hints: seq<Hint>, ap: seq<Animal>, colorPerms: seq<seq<Color>>) returns (count: nat)
    requires |ap| == 5 && forall q :: q in colorPerms ==> |q| == 5
    ensures count == RowCount(ap, colorPerms, |colorPerms|, AcceptsFn(hints))
  {
    count := 0;
    var j := 0;
    while j < |colorPerms|
      invariant j <= |colorPerms|
      invariant count == RowCount(ap, colorPerms, j, AcceptsFn(hints))
    {
      var cp := colorPerms[j];
      assert cp in colorPerms;
      var assignment := BuildAssignment(ap, cp);
      var accepted := ValidateAllHints(assignment, hints);
      RowStep(hints, ap, colorPerms, j);
      if accepted {
        count := count + 1;
      }
      j := j + 1;
    }
  }
}
