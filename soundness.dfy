/** What constraint propagation keeps when the hints hold on a tower, and a
    corrected count for the alternative solver built on that fact. */
module PropagationSoundness {
  import opened Tower
  import opened Hints
  import opened Permutations
  import opened BruteForce
  import opened HintCounts
  import opened Propagation

  /** An Absolute hint on an animal and a colour: the one kind whose
      propagation narrows floors the hint says nothing about. */
  predicate PairHint(h: Hint) {
    h.Absolute? && ((h.attr1.A? && h.attr2.C?) || (h.attr1.C? && h.attr2.A?))
  }

  /** The tower of p and q lies inside the domains: every floor's animal and
      colour are still allowed there. */
  predicate Within(p: seq<Animal>, q: seq<Color>, ds: seq<DomainView>)
    requires |p| == 5 && |q| == 5 && |ds| == 5
  {
    forall k :: 0 <= k < 5 ==> p[k] in ds[k].animals && q[k] in ds[k].colors
  }

  /** Every hint of the list holds on the tower and none is a pair hint. */
  predicate Respects(hints: seq<Hint>, p: seq<Animal>, q: seq<Color>)
    requires |p| == 5 && |q| == 5
  {
    forall h :: h in hints ==> !PairHint(h) && Satisfied(h, Candidate(p, q))
  }

  // ----- propagation keeps every tower the hints allow -----

  /** The fresh domains allow every tower. */
  lemma StartHoldsEveryTower(p: seq<Animal>, q: seq<Color>)
    requires |p| == 5 && |q| == 5
    ensures Within(p, q, Start)
  {
    forall k | 0 <= k < 5
      ensures p[k] in Start[k].animals && q[k] in Start[k].colors
    {
      Listed(p[k], q[k]);
    }
  }

  /** A hint other than a pair hint that holds on a tower never narrows that
      tower out of the domains. */
  lemma StepKeepsTower(h: Hint, p: seq<Animal>, q: seq<Color>, ds: seq<DomainView>)
    requires |p| == 5 && |q| == 5 && |ds| == 5 && !PairHint(h)
    requires Satisfied(h, Candidate(p, q)) && Within(p, q, ds)
    ensures Within(p, q, HintStep(h, ds))
  {
    if h.Absolute? && h.attr1.F? {
      FloorFirstPin(h, p, q);
    } else if h.Absolute? && h.attr2.F? {
      FloorSecondPin(h, p, q);
    }
  }

  lemma {:induction false} RoundKeepsTower(hints: seq<Hint>, p: seq<Animal>, q: seq<Color>, ds: seq<DomainView>)
    requires |p| == 5 && |q| == 5 && |ds| == 5
    requires Respects(hints, p, q) && Within(p, q, ds)
    ensures Within(p, q, Round(hints, ds).views)
    decreases |hints|
  {
    if |hints| > 0 {
      StepKeepsTower(hints[0], p, q, ds);
      assert forall h :: h in hints[1..] ==> h in hints;
      RoundKeepsTower(hints[1..], p, q, HintStep(hints[0], ds));
    }
  }

  lemma {:induction false} PropagateKeepsTower(hints: seq<Hint>, p: seq<Animal>, q: seq<Color>, ds: seq<DomainView>, changed: bool, iterations: nat)
    requires |p| == 5 && |q| == 5 && |ds| == 5 && iterations <= MaxIterations
    requires Respects(hints, p, q) && Within(p, q, ds)
    ensures Within(p, q, Propagate(hints, ds, changed, iterations).views)
    decreases MaxIterations - iterations
  {
    if changed && iterations < MaxIterations {
      RoundKeepsTower(hints, p, q, ds);
      var o := Round(hints, ds);
      PropagateKeepsTower(hints, p, q, o.views, o.changed, iterations + 1);
    }
  }

  /** Without pair hints, propagation is sound: every tower satisfying the
      hints is still allowed by the domains it ends with. */
  lemma PropagationKeepsSolutions(hints: seq<Hint>, p: seq<Animal>, q: seq<Color>)
    requires |p| == 5 && |q| == 5 && Respects(hints, p, q)
    ensures Within(p, q, PropagateAll(hints).views)
  {
    StartHoldsEveryTower(p, q);
    PropagateKeepsTower(hints, p, q, Start, true, 0);
  }

  // ----- a solvable list settles at once -----

  /** A second application of a step changes nothing. */
  lemma StepIdempotent(h: Hint, ds: seq<DomainView>)
    requires |ds| == 5 && !PairHint(h)
    ensures HintStep(h, HintStep(h, ds)) == HintStep(h, ds)
  {
  }

  /** A hint that is neither a pair hint nor names a floor leaves the
      domains alone. */
  lemma StepIdentity(h: Hint, ds: seq<DomainView>)
    requires |ds| == 5 && !PairHint(h) && !(h.Absolute? && (h.attr1.F? || h.attr2.F?))
    ensures HintStep(h, ds) == ds
  {
    if h.Absolute? {
      assert ds == [ds[0], ds[1], ds[2], ds[3], ds[4]];
    }
  }

  /** Two floor pins that hold on the same tower never undo each other. */
  lemma PinKeepsFixed(ds: seq<DomainView>, f: Floor, x: Attr, g: Floor, y: Attr, p: seq<Animal>, q: seq<Color>)
    requires |ds| == 5 && |p| == 5 && |q| == 5
    requires HasAt(p, q, f - 1, x) && HasAt(p, q, g - 1, y)
    requires PinFloor(ds, f, x) == ds
    ensures PinFloor(PinFloor(ds, g, y), f, x) == PinFloor(ds, g, y)
  {
    var e := PinFloor(ds, g, y);
    if f != g {
      assert e[f - 1] == ds[f - 1];
    } else if x.A? && y.A? {
      assert x == y;
    } else if x.C? && y.C? {
      assert x == y;
    }
  }

  /** Two pins that hold on the same tower never undo each other: a step
      that leaves the domains alone still does so after the other one. */
  lemma StepKeepsFixed(h: Hint, g: Hint, p: seq<Animal>, q: seq<Color>, ds: seq<DomainView>)
    requires |p| == 5 && |q| == 5 && |ds| == 5 && !PairHint(h) && !PairHint(g)
    requires Satisfied(h, Candidate(p, q)) && Satisfied(g, Candidate(p, q))
    requires HintStep(h, ds) == ds
    ensures HintStep(h, HintStep(g, ds)) == HintStep(g, ds)
  {
    if !(h.Absolute? && (h.attr1.F? || h.attr2.F?)) {
      StepIdentity(h, HintStep(g, ds));
    } else if !(g.Absolute? && (g.attr1.F? || g.attr2.F?)) {
      StepIdentity(g, ds);
    } else {
      var f, x := if h.attr1.F? then h.attr1.f else h.attr2.f, if h.attr1.F? then h.attr2 else h.attr1;
      var fg, y := if g.attr1.F? then g.attr1.f else g.attr2.f, if g.attr1.F? then g.attr2 else g.attr1;
      if h.attr1.F? { FloorFirstPin(h, p, q); } else { FloorSecondPin(h, p, q); }
      if g.attr1.F? { FloorFirstPin(g, p, q); } else { FloorSecondPin(g, p, q); }
      assert HintStep(h, ds) == PinFloor(ds, f, x);
      assert HintStep(g, ds) == PinFloor(ds, fg, y);
      PinKeepsFixed(ds, f, x, fg, y, p, q);
    }
  }

  lemma {:induction false} RoundKeepsFixed(hints: seq<Hint>, h: Hint, p: seq<Animal>, q: seq<Color>, ds: seq<DomainView>)
    requires |p| == 5 && |q| == 5 && |ds| == 5 && Respects(hints, p, q)
    requires !PairHint(h) && Satisfied(h, Candidate(p, q)) && HintStep(h, ds) == ds
    ensures HintStep(h, Round(hints, ds).views) == Round(hints, ds).views
    decreases |hints|
  {
    if |hints| > 0 {
      StepKeepsFixed(h, hints[0], p, q, ds);
      assert forall g :: g in hints[1..] ==> g in hints;
      RoundKeepsFixed(hints[1..], h, p, q, HintStep(hints[0], ds));
    }
  }

  /** After one round over hints that hold on some tower, no hint of the
      list would narrow the domains further. */
  lemma {:induction false} RoundFixesAll(hints: seq<Hint>, p: seq<Animal>, q: seq<Color>, ds: seq<DomainView>)
    requires |p| == 5 && |q| == 5 && |ds| == 5 && Respects(hints, p, q)
    ensures forall h :: h in hints ==> HintStep(h, Round(hints, ds).views) == Round(hints, ds).views
    decreases |hints|
  {
    if |hints| > 0 {
      var d1 := HintStep(hints[0], ds);
      assert forall g :: g in hints[1..] ==> g in hints;
      StepIdempotent(hints[0], ds);
      RoundKeepsFixed(hints[1..], hints[0], p, q, d1);
      RoundFixesAll(hints[1..], p, q, d1);
      assert forall h :: h in hints ==> h == hints[0] || h in hints[1..];
    }
  }

  /** Hints that hold on some tower, none a pair hint, settle within two
      rounds, far below the cap of 100. */
  lemma SolvableSettles(hints: seq<Hint>, p: seq<Animal>, q: seq<Color>)
    requires |p| == 5 && |q| == 5 && Respects(hints, p, q)
    ensures PropagateAll(hints).iterations <= 2
  {
    var o := Round(hints, Start);
    if o.changed {
      RoundFixesAll(hints, p, q, Start);
      RoundUnchanged(hints, o.views);
      assert Round(hints, o.views) == RoundOutcome(o.views, false);
    }
  }

  // ----- the corrected count -----

  /** The hints without the pair hints, in their order. */
  function Unpaired(hints: seq<Hint>): (r: seq<Hint>)
    ensures forall h :: h in r <==> h in hints && !PairHint(h)
  {
    if |hints| == 0 then []
    else
      assert forall h :: h in hints <==> h == hints[0] || h in hints[1..];
      (if PairHint(hints[0]) then [] else [hints[0]]) + Unpaired(hints[1..])
  }

  /** A tower accepted by the hints respects the hints without pairs. */
  lemma AcceptedRespects(hints: seq<Hint>, p: seq<Animal>, q: seq<Color>)
    requires Accepts(hints, p, q)
    ensures Respects(Unpaired(hints), p, q)
  {
  }

  /** Five assignments with no animal and no colour twice. */
  predicate FormsTower(s: seq<FloorAssignment>) {
    && |s| == 5
    && (forall i, j :: 0 <= i < j < 5 ==> s[i].animal != s[j].animal && s[i].color != s[j].color)
  }

  /** count_assignments of the alternative solver with both shortcuts made
      sound: the domains are narrowed by the hints other than pair hints,
      and settled singletons count only when they form a tower. */
  ghost function CorrectedCount(hints: seq<Hint>): nat {
    if |hints| == 0 then 14400 else CorrectedAfter(hints, PropagateAll(Unpaired(hints)))
  }

  ghost function CorrectedAfter(hints: seq<Hint>, r: Propagated): nat
    requires |r.views| == 5
  {
    if r.iterations >= MaxIterations then 0
    else if AnyEmpty(r.views) then 0
    else if |Remaining(r.views)| == 0 then
      (if FormsTower(Singletons(r.views)) && AllSatisfied(hints, Singletons(r.views)) then 1 else 0)
    else EnumCount(hints)
  }

  /** A tower the hints accept makes propagation settle. */
  lemma SettlesIfSolvable(hints: seq<Hint>, p: seq<Animal>, q: seq<Color>)
    ensures Accepts(hints, p, q) ==> PropagateAll(Unpaired(hints)).iterations <= 2
  {
    if Accepts(hints, p, q) {
      AcceptedRespects(hints, p, q);
      SolvableSettles(Unpaired(hints), p, q);
    }
  }

  /** When the loop runs into the cap no tower satisfies the hints. */
  lemma CappedMeansNone(hints: seq<Hint>)
    requires PropagateAll(Unpaired(hints)).iterations >= MaxIterations
    ensures EnumCount(hints) == 0
  {
    forall p, q | p in Perms(AllAnimals) && q in Perms(AllColors)
      ensures !AcceptsFn(hints)(p, q)
    {
      SettlesIfSolvable(hints, p, q);
    }
    CountPairsNone(Perms(AllAnimals), Perms(AllColors), AcceptsFn(hints));
  }

  /** A sequence without repeats has as many elements as entries. */
  lemma {:induction false} DistinctElements<T>(s: seq<T>)
    requires Distinct(s)
    ensures |set x | x in s| == |s|
  {
    if |s| > 0 {
      var rest := s[1..];
      assert Distinct(rest);
      DistinctElements(rest);
      assert (set x | x in s) == {s[0]} + (set x | x in rest);
      assert s[0] !in (set x | x in rest);
    }
  }

  /** A subset as large as its superset is the superset. */
  lemma SubsetSameSize<T>(small: set<T>, all: set<T>)
    requires small <= all && |small| == |all|
    ensures small == all
  {
    assert small + all == all;
    assert small * all == small;
    assert small - all == {};
    assert |all - small| == 0;
  }

  /** A sequence without repeats, drawn from a set and as long as it, holds
      all of the set. */
  lemma FillsSet<T>(s: seq<T>, all: set<T>)
    requires Distinct(s) && |s| == |all| && forall x :: x in s ==> x in all
    ensures forall x :: x in all ==> x in s
  {
    var S := set x | x in s;
    DistinctElements(s);
    SubsetSameSize(S, all);
  }

  /** Five distinct animals are all the animals, and likewise colours. */
  lemma FiveDistinctAreAll(p: seq<Animal>, q: seq<Color>)
    requires |p| == 5 && |q| == 5 && Distinct(p) && Distinct(q)
    ensures multiset(p) == multiset(AllAnimals) && multiset(q) == multiset(AllColors)
  {
    SetSizes();
    forall x | x in p ensures x in AnimalSet {
      Listed(x, Red);
    }
    forall y | y in q ensures y in ColorSet {
      Listed(Frog, y);
    }
    FillsSet(p, AnimalSet);
    FillsSet(q, ColorSet);
    forall a: Animal, c: Color ensures a in p && c in q {
      Listed(a, c);
    }
    DeclarationOrderListing();
    SameElementsMultiset(p, AllAnimals);
    SameElementsMultiset(q, AllColors);
  }

  /** The animals and the colours the assignments carry, floor by floor. */
  function AnimalsIn(s: seq<FloorAssignment>): (r: seq<Animal>)
    requires |s| == 5
    ensures |r| == 5 && forall k :: 0 <= k < 5 ==> r[k] == s[k].animal
  {
    [s[0].animal, s[1].animal, s[2].animal, s[3].animal, s[4].animal]
  }

  function ColorsIn(s: seq<FloorAssignment>): (r: seq<Color>)
    requires |s| == 5
    ensures |r| == 5 && forall k :: 0 <= k < 5 ==> r[k] == s[k].color
  {
    [s[0].color, s[1].color, s[2].color, s[3].color, s[4].color]
  }

  /** Every floor settled by the hints without pairs. */
  predicate Settled(hints: seq<Hint>) {
    forall i :: 0 <= i < 5 ==> PropagateAll(Unpaired(hints)).views[i].IsSingleton()
  }

  /** When every floor settles, the only tower the hints may accept is the
      one the singletons spell out. */
  lemma OnlyTheSingletons(hints: seq<Hint>, p: seq<Animal>, q: seq<Color>)
    requires Settled(hints)
    ensures var s := Singletons(PropagateAll(Unpaired(hints)).views);
            Accepts(hints, p, q) ==> p == AnimalsIn(s) && q == ColorsIn(s)
  {
    if Accepts(hints, p, q) {
      AcceptedRespects(hints, p, q);
      PropagationKeepsSolutions(Unpaired(hints), p, q);
    }
  }

  /** Hints accepting one tower of distinct values and no other count 1. */
  lemma UniqueTowerCount(hints: seq<Hint>, p0: seq<Animal>, q0: seq<Color>)
    requires |p0| == 5 && |q0| == 5 && Distinct(p0) && Distinct(q0)
    requires forall p, q :: Accepts(hints, p, q) <==> p == p0 && q == q0
    ensures EnumCount(hints) == 1
  {
    FiveDistinctAreAll(p0, q0);
    forall p, q | p in Perms(AllAnimals) && q in Perms(AllColors)
      ensures AcceptsFn(hints)(p, q) == (EqualTo(p0)(p) && EqualTo(q0)(q))
    {
    }
    CountPairsProduct(Perms(AllAnimals), Perms(AllColors), AcceptsFn(hints), EqualTo(p0), EqualTo(q0));
    DeclarationOrderListing();
    PermsCountEq(AllAnimals, p0);
    PermsCountEq(AllColors, q0);
  }

  /** Settled singletons that form a tower satisfying the hints: exactly
      that tower is counted. */
  lemma SettledSolvable(hints: seq<Hint>)
    requires Settled(hints)
    requires var s := Singletons(PropagateAll(Unpaired(hints)).views);
             FormsTower(s) && AllSatisfied(hints, s)
    ensures EnumCount(hints) == 1
  {
    var s := Singletons(PropagateAll(Unpaired(hints)).views);
    var p0, q0 := AnimalsIn(s), ColorsIn(s);
    assert s == Candidate(p0, q0);
    forall p, q
      ensures Accepts(hints, p, q) <==> p == p0 && q == q0
    {
      OnlyTheSingletons(hints, p, q);
    }
    UniqueTowerCount(hints, p0, q0);
  }

  /** Settled singletons that repeat a value or break a hint: no tower. */
  lemma SettledUnsolvable(hints: seq<Hint>)
    requires Settled(hints)
    requires var s := Singletons(PropagateAll(Unpaired(hints)).views);
             !(FormsTower(s) && AllSatisfied(hints, s))
    ensures EnumCount(hints) == 0
  {
    var s := Singletons(PropagateAll(Unpaired(hints)).views);
    assert s == Candidate(AnimalsIn(s), ColorsIn(s));
    DeclarationOrderListing();
    PermsDistinct(AllAnimals);
    PermsDistinct(AllColors);
    forall p, q | p in Perms(AllAnimals) && q in Perms(AllColors)
      ensures !AcceptsFn(hints)(p, q)
    {
      OnlyTheSingletons(hints, p, q);
    }
    CountPairsNone(Perms(AllAnimals), Perms(AllColors), AcceptsFn(hints));
  }

  /** The corrected count agrees with the enumeration on every hint list. */
  lemma CorrectedIsEnumeration(hints: seq<Hint>)
    ensures CorrectedCount(hints) == EnumCount(hints)
  {
    if |hints| == 0 {
      DeclarationOrderListing();
      NoHintsCount(AllAnimals, AllColors);
    } else {
      var r := PropagateAll(Unpaired(hints));
      DomainsNeverEmpty(Unpaired(hints));
      if r.iterations >= MaxIterations {
        CappedMeansNone(hints);
      } else if |Remaining(r.views)| == 0 {
        var s := Singletons(r.views);
        if FormsTower(s) && AllSatisfied(hints, s) {
          SettledSolvable(hints);
        } else {
          SettledUnsolvable(hints);
        }
      }
    }
  }

  /** count_assignments of the alternative solver with its two shortcuts
      corrected: the propagator works on the hints other than pair hints,
      and settled singletons count only when they form a tower. Every hint
      is still checked. On every hint list it returns the enumeration's
      count. */
  method CountAssignmentsCorrected(hints: seq<Hint>) returns (count: nat)
    ensures count == EnumCount(hints)
  {
    CorrectedIsEnumeration(hints);
    if |hints| == 0 {
      return 14400;
    }
    var propagator := new ConstraintPropagator(Unpaired(hints));
    var converged := propagator.PropagateAllConstraints();
    if !converged {
      return 0;
    }
    var empty := propagator.HasEmptyDomains();
    if empty {
      return 0;
    }
    var singletons := propagator.GetSingletonAssignments();
    var remaining := propagator.GetRemainingAssignments();
    if |remaining| == 0 {
      var ok := VerifyAllHints(singletons, hints);
      return if FormsTower(singletons) && ok then 1 else 0;
    }
    count := CountTowers(hints, AllAnimals, AllColors);
  }
}
