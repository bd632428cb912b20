/** The alternative solver: per-floor domains of the animals and colours
    still possible, narrowed by the hints until nothing changes, then either
    read off directly or handed to the enumeration. */
module Propagation {
  import opened Tower
  import opened Hints
  import opened Permutations
  import opened BruteForce

  // ----- domains as values -----

  /** The animals and colours one floor may still hold. */
  datatype DomainView = DomainView(animals: set<Animal>, colors: set<Color>) {
    predicate IsEmpty() {
      |animals| == 0 || |colors| == 0
    }

    predicate IsSingleton() {
      |animals| == 1 && |colors| == 1
    }
  }

  /** A fresh domain: every animal, every colour. */
  const Full: DomainView := DomainView(AnimalSet, ColorSet)

  /** The five fresh domains the propagator starts from, floor 1 first. */
  const Start: seq<DomainView> := [Full, Full, Full, Full, Full]

  lemma SingletonElement<T>(s: set<T>, x: T)
    requires |s| == 1 && x in s
    ensures s == {x}
  {
    assert |s - {x}| == 0;
  }

  /** A domain is a singleton exactly when it allows one animal and one
      colour. */
  lemma SingletonMeaning(d: DomainView)
    ensures d.IsSingleton() <==> exists a, c :: d.animals == {a} && d.colors == {c}
  {
    if d.IsSingleton() {
      var a :| a in d.animals;
      var c :| c in d.colors;
      SingletonElement(d.animals, a);
      SingletonElement(d.colors, c);
    }
  }

  /** The assignment a singleton domain allows on floor f, if any. */
  ghost function SingletonAt(d: DomainView, f: Floor): (r: Option<FloorAssignment>)
    ensures r.Some? <==> d.IsSingleton()
    ensures r.Some? ==> r.value.floor == f && d.animals == {r.value.animal} && d.colors == {r.value.color}
  {
    if d.IsSingleton() then
      var a :| a in d.animals;
      var c :| c in d.colors;
      SingletonElement(d.animals, a);
      SingletonElement(d.colors, c);
      Some(FloorAssignment(f, a, c))
    else None
  }

  // ----- one hint -----

  /** An Absolute hint naming floor f and another attribute sets that
      floor's animals or colours to the attribute alone. */
  function PinFloor(ds: seq<DomainView>, f: Floor, other: Attr): seq<DomainView>
    requires |ds| == 5
  {
    match other
    case A(a) => ds[f - 1 := ds[f - 1].(animals := {a})]
    case C(c) => ds[f - 1 := ds[f - 1].(colors := {c})]
    case F(_) => ds
  }

  /** An Absolute hint on an animal and a colour narrows a floor to exactly
      that pair whenever the floor may hold both. */
  function NarrowPair(a1: Attr, a2: Attr, d: DomainView): DomainView {
    if a1.A? && a2.C? then
      if a1.a in d.animals && a2.c in d.colors then DomainView({a1.a}, {a2.c}) else d
    else if a1.C? && a2.A? then
      if a2.a in d.animals && a1.c in d.colors then DomainView({a2.a}, {a1.c}) else d
    else d
  }

  /** AbsoluteHint.propagate_constraints on values. */
  function AbsoluteStep(a1: Attr, a2: Attr, ds: seq<DomainView>): (r: seq<DomainView>)
    requires |ds| == 5
    ensures |r| == 5
  {
    if a1.F? then PinFloor(ds, a1.f, a2)
    else if a2.F? then PinFloor(ds, a2.f, a1)
    else [NarrowPair(a1, a2, ds[0]), NarrowPair(a1, a2, ds[1]), NarrowPair(a1, a2, ds[2]),
          NarrowPair(a1, a2, ds[3]), NarrowPair(a1, a2, ds[4])]
  }

  /** propagate_constraints of any hint: Relative and Neighbor hints leave
      the domains alone. */
  function HintStep(h: Hint, ds: seq<DomainView>): (r: seq<DomainView>)
    requires |ds| == 5
    ensures |r| == 5
  {
    match h
    case Absolute(a1, a2) => AbsoluteStep(a1, a2, ds)
    case Relative(_, _, _) => ds
    case Neighbor(_, _) => ds
  }

  // ----- rounds and the fixpoint loop -----

  /** The domains after one pass over the hints, and whether any hint
      reported a change. */
  datatype RoundOutcome = RoundOutcome(views: seq<DomainView>, changed: bool)

  function Round(hints: seq<Hint>, ds: seq<DomainView>): (r: RoundOutcome)
    requires |ds| == 5
    ensures |r.views| == 5
  {
    if |hints| == 0 then RoundOutcome(ds, false)
    else
      var next := HintStep(hints[0], ds);
      var rest := Round(hints[1..], next);
      RoundOutcome(rest.views, rest.changed || next != ds)
  }

  /** The round cap of propagate_all_constraints. */
  const MaxIterations: nat := 100

  /** The domains and the round count when the loop stops. */
  datatype Propagated = Propagated(views: seq<DomainView>, iterations: nat)

  /** The loop of propagate_all_constraints from the given state: rounds
      run while the last one reported a change and fewer than 100 have run. */
  function Propagate(hints: seq<Hint>, ds: seq<DomainView>, changed: bool, iterations: nat): (r: Propagated)
    requires |ds| == 5 && iterations <= MaxIterations
    ensures |r.views| == 5 && iterations <= r.iterations <= MaxIterations
    decreases MaxIterations - iterations
  {
    if changed && iterations < MaxIterations then
      var o := Round(hints, ds);
      Propagate(hints, o.views, o.changed, iterations + 1)
    else Propagated(ds, iterations)
  }

  /** The loop run from the fresh domains. */
  function PropagateAll(hints: seq<Hint>): (r: Propagated)
    ensures |r.views| == 5 && r.iterations <= MaxIterations
  {
    Propagate(hints, Start, true, 0)
  }

  // ----- reading the domains -----

  ghost function SingletonsUpTo(ds: seq<DomainView>, n: nat): (r: seq<FloorAssignment>)
    requires |ds| == 5 && n <= 5
    ensures |r| <= n
  {
    if n == 0 then []
    else
      var f: Floor := n;
      SingletonsUpTo(ds, n - 1) + (if ds[n - 1].IsSingleton() then [SingletonAt(ds[n - 1], f).value] else [])
  }

  /** What get_singleton_assignments returns: the assignment of every
      singleton floor, floor 1 first. */
  ghost function Singletons(ds: seq<DomainView>): (r: seq<FloorAssignment>)
    requires |ds| == 5
    ensures (forall i :: 0 <= i < 5 ==> ds[i].IsSingleton()) ==>
              && |r| == 5
              && forall i :: 0 <= i < 5 ==> r[i].floor == i + 1 && ds[i].animals == {r[i].animal} && ds[i].colors == {r[i].color}
  {
    if forall i :: 0 <= i < 5 ==> ds[i].IsSingleton() then
      SingletonsComplete(ds, 5);
      SingletonsUpTo(ds, 5)
    else SingletonsUpTo(ds, 5)
  }

  /** get_singleton_assignments lists an assignment iff it is the one a
      singleton floor allows, and lists them floor 1 first. */
  lemma SingletonsListed(ds: seq<DomainView>)
    requires |ds| == 5
    ensures forall x :: x in Singletons(ds) <==> exists i :: 0 <= i < 5 && ds[i].IsSingleton() && SingletonAt(ds[i], i + 1) == Some(x)
    ensures forall k, l :: 0 <= k < l < |Singletons(ds)| ==> Singletons(ds)[k].floor < Singletons(ds)[l].floor
  {
    SingletonsMembers(ds, 5);
    SingletonsOrdered(ds, 5);
    assert SingletonsAmong(SingletonsUpTo(ds, 5), ds, 5);
  }

  /** A floor left open, with what it may still hold. */
  datatype Open = Open(floor: Floor, animals: set<Animal>, colors: set<Color>)

  function RemainingUpTo(ds: seq<DomainView>, n: nat): (r: seq<Open>)
    requires |ds| == 5 && n <= 5
    ensures |r| <= n
  {
    if n == 0 then []
    else
      var f: Floor := n;
      RemainingUpTo(ds, n - 1) + (if ds[n - 1].IsSingleton() then [] else [Open(f, ds[n - 1].animals, ds[n - 1].colors)])
  }

  /** What get_remaining_assignments returns: every floor that is not a
      singleton, floor 1 first. */
  function Remaining(ds: seq<DomainView>): (r: seq<Open>)
    requires |ds| == 5
    ensures forall o :: o in r <==> exists i :: 0 <= i < 5 && !ds[i].IsSingleton() && o == Open(i + 1, ds[i].animals, ds[i].colors)
    ensures forall k, l :: 0 <= k < l < |r| ==> r[k].floor < r[l].floor
    ensures |r| == 0 <==> forall i :: 0 <= i < 5 ==> ds[i].IsSingleton()
  {
    RemainingMembers(ds, 5);
    RemainingOrdered(ds, 5);
    RemainingEmpty(ds, 5);
    RemainingUpTo(ds, 5)
  }

  predicate AnyEmpty(ds: seq<DomainView>) {
    exists i :: 0 <= i < |ds| && ds[i].IsEmpty()
  }

  /** The alternative count_assignments. */
  ghost function AlternativeCount(hints: seq<Hint>): nat {
    if |hints| == 0 then 14400 else CountAfter(hints, PropagateAll(hints))
  }

  /** The rest of count_assignments once propagation has stopped with r. */
  ghost function CountAfter(hints: seq<Hint>, r: Propagated): nat
    requires |r.views| == 5
  {
    if r.iterations >= MaxIterations then 0
    else if AnyEmpty(r.views) then 0
    else if |Remaining(r.views)| == 0 then (if AllSatisfied(hints, Singletons(r.views)) then 1 else 0)
    else EnumCount(hints)
  }

  // ----- properties of propagation -----

  predicate NonEmpty(ds: seq<DomainView>) {
    forall i :: 0 <= i < |ds| ==> !ds[i].IsEmpty()
  }

  lemma StartNonEmpty()
    ensures NonEmpty(Start) && forall i :: 0 <= i < 5 ==> !Start[i].IsSingleton()
  {
    SetSizes();
  }

  lemma StepNonEmpty(h: Hint, ds: seq<DomainView>)
    requires |ds| == 5 && NonEmpty(ds)
    ensures NonEmpty(HintStep(h, ds))
  {
  }

  lemma {:induction false} RoundNonEmpty(hints: seq<Hint>, ds: seq<DomainView>)
    requires |ds| == 5 && NonEmpty(ds)
    ensures NonEmpty(Round(hints, ds).views)
    decreases |hints|
  {
    if |hints| > 0 {
      StepNonEmpty(hints[0], ds);
      RoundNonEmpty(hints[1..], HintStep(hints[0], ds));
    }
  }

  lemma {:induction false} PropagateNonEmpty(hints: seq<Hint>, ds: seq<DomainView>, changed: bool, iterations: nat)
    requires |ds| == 5 && iterations <= MaxIterations && NonEmpty(ds)
    ensures NonEmpty(Propagate(hints, ds, changed, iterations).views)
    decreases MaxIterations - iterations
  {
    if changed && iterations < MaxIterations {
      RoundNonEmpty(hints, ds);
      var o := Round(hints, ds);
      PropagateNonEmpty(hints, o.views, o.changed, iterations + 1);
    }
  }

  /** No hint ever empties a domain: every narrowing leaves one value, so
      the has_empty_domains branch of count_assignments never returns. */
  lemma DomainsNeverEmpty(hints: seq<Hint>)
    ensures !AnyEmpty(PropagateAll(hints).views)
  {
    StartNonEmpty();
    PropagateNonEmpty(hints, Start, true, 0);
  }

  /** A round reports no change exactly when every hint leaves the domains
      as they are, and then the domains are those it started from. */
  lemma {:induction false} RoundUnchanged(hints: seq<Hint>, ds: seq<DomainView>)
    requires |ds| == 5
    ensures !Round(hints, ds).changed <==> forall h :: h in hints ==> HintStep(h, ds) == ds
    ensures !Round(hints, ds).changed ==> Round(hints, ds).views == ds
    decreases |hints|
  {
    if |hints| > 0 {
      var next := HintStep(hints[0], ds);
      if next == ds {
        RoundUnchanged(hints[1..], ds);
        assert forall h :: h in hints <==> h == hints[0] || h in hints[1..];
      }
    }
  }

  lemma {:induction false} PropagateStops(hints: seq<Hint>, ds: seq<DomainView>, iterations: nat)
    requires |ds| == 5 && iterations <= MaxIterations
    ensures var r := Propagate(hints, ds, true, iterations);
            r.iterations < MaxIterations ==> forall h :: h in hints ==> HintStep(h, r.views) == r.views
    decreases MaxIterations - iterations
  {
    if iterations < MaxIterations {
      var o := Round(hints, ds);
      if o.changed {
        if iterations + 1 < MaxIterations {
          PropagateStops(hints, o.views, iterations + 1);
        }
      } else {
        RoundUnchanged(hints, ds);
      }
    }
  }

  /** When propagate_all_constraints reports convergence, the domains are a
      fixpoint: no hint would narrow them further. */
  lemma ConvergedIsFixpoint(hints: seq<Hint>)
    requires PropagateAll(hints).iterations < MaxIterations
    ensures var ds := PropagateAll(hints).views;
            && (forall h :: h in hints ==> HintStep(h, ds) == ds)
            && Round(hints, ds) == RoundOutcome(ds, false)
  {
    var ds := PropagateAll(hints).views;
    PropagateStops(hints, Start, 0);
    RoundUnchanged(hints, ds);
  }

  /** A round over two lists one after the other is a round over the first
      and then a round over the second. */
  lemma {:induction false} RoundAppend(h1: seq<Hint>, h2: seq<Hint>, ds: seq<DomainView>)
    requires |ds| == 5
    ensures Round(h1 + h2, ds) == RoundAfter(Round(h2, Round(h1, ds).views), Round(h1, ds).changed)
    decreases |h1|
  {
    if |h1| == 0 {
      assert h1 + h2 == h2;
    } else {
      assert (h1 + h2)[0] == h1[0];
      assert (h1 + h2)[1..] == h1[1..] + h2;
      RoundAppend(h1[1..], h2, HintStep(h1[0], ds));
    }
  }

  /** get_remaining_assignments is empty exactly when every floor is a
      singleton. */
  lemma {:induction false} RemainingEmpty(ds: seq<DomainView>, n: nat)
    requires |ds| == 5 && n <= 5
    ensures |RemainingUpTo(ds, n)| == 0 <==> forall i :: 0 <= i < n ==> ds[i].IsSingleton()
  {
    if n > 0 {
      RemainingEmpty(ds, n - 1);
    }
  }

  /** The assignments listed for the floors below n + 1 are exactly those
      of the singleton floors among them. */
  ghost predicate SingletonsAmong(r: seq<FloorAssignment>, ds: seq<DomainView>, n: nat)
    requires |ds| == 5 && n <= 5
  {
    forall x :: x in r <==> exists i :: 0 <= i < n && ds[i].IsSingleton() && SingletonAt(ds[i], i + 1) == Some(x)
  }

  ghost predicate FloorsRising(r: seq<FloorAssignment>, n: nat) {
    && (forall k :: 0 <= k < |r| ==> r[k].floor <= n)
    && (forall k, l :: 0 <= k < l < |r| ==> r[k].floor < r[l].floor)
  }

  /** The first n floors' singleton assignments are exactly those of the
      singleton floors among them. */
  lemma {:induction false} SingletonsMembers(ds: seq<DomainView>, n: nat)
    requires |ds| == 5 && n <= 5
    ensures SingletonsAmong(SingletonsUpTo(ds, n), ds, n)
  {
    if n > 0 {
      var prev := SingletonsUpTo(ds, n - 1);
      SingletonsMembers(ds, n - 1);
      assert SingletonsAmong(prev, ds, n - 1);
      var f: Floor := n;
      if ds[n - 1].IsSingleton() {
        var last := SingletonAt(ds[n - 1], f).value;
        assert SingletonsUpTo(ds, n) == prev + [last];
        assert SingletonAt(ds[(n - 1)], (n - 1) + 1) == Some(last);
      } else {
        assert SingletonsUpTo(ds, n) == prev;
      }
    }
  }

  /** The first n floors' singleton assignments rise by floor. */
  lemma {:induction false} SingletonsOrdered(ds: seq<DomainView>, n: nat)
    requires |ds| == 5 && n <= 5
    ensures FloorsRising(SingletonsUpTo(ds, n), n)
  {
    if n > 0 {
      var prev := SingletonsUpTo(ds, n - 1);
      SingletonsOrdered(ds, n - 1);
      assert FloorsRising(prev, n - 1);
      var f: Floor := n;
      if ds[n - 1].IsSingleton() {
        assert SingletonsUpTo(ds, n) == prev + [SingletonAt(ds[n - 1], f).value];
      } else {
        assert SingletonsUpTo(ds, n) == prev;
      }
    }
  }

  /** The open entries listed for the floors below n + 1 are exactly those
      of the floors among them that are not singletons. */
  ghost predicate OpenAmong(r: seq<Open>, ds: seq<DomainView>, n: nat)
    requires |ds| == 5 && n <= 5
  {
    forall o :: o in r <==> exists i :: 0 <= i < n && !ds[i].IsSingleton() && o == Open(i + 1, ds[i].animals, ds[i].colors)
  }

  ghost predicate OpenRising(r: seq<Open>, n: nat) {
    && (forall k :: 0 <= k < |r| ==> r[k].floor <= n)
    && (forall k, l :: 0 <= k < l < |r| ==> r[k].floor < r[l].floor)
  }

  /** The first n floors' open entries are exactly those of the floors
      among them that are not singletons. */
  lemma {:induction false} RemainingMembers(ds: seq<DomainView>, n: nat)
    requires |ds| == 5 && n <= 5
    ensures OpenAmong(RemainingUpTo(ds, n), ds, n)
  {
    if n > 0 {
      var prev := RemainingUpTo(ds, n - 1);
      RemainingMembers(ds, n - 1);
      assert OpenAmong(prev, ds, n - 1);
      var f: Floor := n;
      var last := Open(f, ds[n - 1].animals, ds[n - 1].colors);
      if ds[n - 1].IsSingleton() {
        assert RemainingUpTo(ds, n) == prev;
      } else {
        assert RemainingUpTo(ds, n) == prev + [last];
        assert last == Open((n - 1) + 1, ds[n - 1].animals, ds[n - 1].colors);
      }
    }
  }

  /** The first n floors' open entries rise by floor. */
  lemma {:induction false} RemainingOrdered(ds: seq<DomainView>, n: nat)
    requires |ds| == 5 && n <= 5
    ensures OpenRising(RemainingUpTo(ds, n), n)
  {
    if n > 0 {
      var prev := RemainingUpTo(ds, n - 1);
      RemainingOrdered(ds, n - 1);
      assert OpenRising(prev, n - 1);
      var f: Floor := n;
      if ds[n - 1].IsSingleton() {
        assert RemainingUpTo(ds, n) == prev;
      } else {
        assert RemainingUpTo(ds, n) == prev + [Open(f, ds[n - 1].animals, ds[n - 1].colors)];
      }
    }
  }

  /** When every floor is a singleton, get_singleton_assignments lists one
      assignment per floor, floor 1 first. */
  lemma {:induction false} SingletonsComplete(ds: seq<DomainView>, n: nat)
    requires |ds| == 5 && n <= 5
    requires forall i :: 0 <= i < n ==> ds[i].IsSingleton()
    ensures var r := SingletonsUpTo(ds, n);
            && |r| == n
            && forall i :: 0 <= i < n ==> r[i].floor == i + 1 && ds[i].animals == {r[i].animal} && ds[i].colors == {r[i].color}
  {
    if n > 0 {
      SingletonsComplete(ds, n - 1);
    }
  }

  /** A list of hints none of which is Absolute propagates nothing, so the
      alternative count is the enumeration's. */
  lemma RelationalHintsCount(hints: seq<Hint>)
    requires forall h :: h in hints ==> !h.Absolute?
    ensures AlternativeCount(hints) == EnumCount(hints)
  {
    if |hints| == 0 {
      NoHintsCount(AllAnimals, AllColors);
    } else {
      RoundUnchanged(hints, Start);
      assert PropagateAll(hints) == Propagated(Start, 1);
      StartNonEmpty();
    }
  }

  // ----- the mutable domains -----

  /** The domain of one floor, narrowed in place by the hints. */
  class Domain {
    var animals: set<Animal>
    var colors: set<Color>

    /** A fresh domain allows every animal and every colour. */
    constructor ()
      ensures View() == Full
    {
      animals := AnimalSet;
      colors := ColorSet;
    }

    function View(): DomainView
      reads this
    {
      DomainView(animals, colors)
    }

    /** The floor assignment the domain allows, when it allows only one. */
    method GetSingletonAssignment(floor: Floor) returns (r: Option<FloorAssignment>)
      ensures r.Some? <==> View().IsSingleton()
      ensures r.Some? ==> r.value.floor == floor && animals == {r.value.animal} && colors == {r.value.color}
    {
      if |animals| == 1 && |colors| == 1 {
        var a :| a in animals;
        var c :| c in colors;
        SingletonElement(animals, a);
        SingletonElement(colors, c);
        r := Some(FloorAssignment(floor, a, c));
      } else {
        r := None;
      }
    }
  }

  /** The views of a floor-ordered list of domains. */
  function ViewsOf(ds: seq<Domain>): (r: seq<DomainView>)
    reads ds
    ensures |r| == |ds| && forall i :: 0 <= i < |ds| ==> r[i] == ds[i].View()
  {
    seq(|ds|, i requires 0 <= i < |ds| reads ds => ds[i].View())
  }

  /** The dictionary from floors to domains: five distinct domains, the one
      of floor f at index f - 1. */
  predicate Floors(ds: seq<Domain>) {
    |ds| == 5 && Distinct(ds)
  }

  /** Sets a floor's animals or colours to one value, as the Absolute hint
      does when it names a floor. */
  method PinDomain(domains: seq<Domain>, f: Floor, other: Attr)
    requires Floors(domains)
    modifies domains
    ensures ViewsOf(domains) == PinFloor(old(ViewsOf(domains)), f, other)
  {
    var d := domains[f - 1];
    match other
    case A(a) => d.animals := {a};
    case C(c) => d.colors := {c};
    case F(_) =>
  }

  /** One floor of the narrowing below. */
  method NarrowDomain(a1: Attr, a2: Attr, d: Domain) returns (changed: bool)
    modifies d
    ensures d.View() == NarrowPair(a1, a2, old(d.View()))
    ensures changed <==> d.View() != old(d.View())
  {
    var oldAnimals, oldColors := d.animals, d.colors;
    if a1.A? && a2.C? && a1.a in d.animals && a2.c in d.colors {
      d.animals, d.colors := {a1.a}, {a2.c};
    } else if a1.C? && a2.A? && a2.a in d.animals && a1.c in d.colors {
      d.animals, d.colors := {a2.a}, {a1.c};
    }
    changed := oldAnimals != d.animals || oldColors != d.colors;
  }

  /** An Absolute hint on an animal and a colour keeps, on every floor that
      may hold both, only that pair. */
  method NarrowDomains(a1: Attr, a2: Attr, domains: seq<Domain>) returns (changed: bool)
    requires Floors(domains)
    modifies domains
    ensures forall k :: 0 <= k < 5 ==> domains[k].View() == NarrowPair(a1, a2, old(domains[k].View()))
    ensures changed <==> exists k :: 0 <= k < 5 && domains[k].View() != old(domains[k].View())
  {
    changed := false;
    var i := 0;
    while i < 5
      invariant 0 <= i <= 5
      invariant forall k :: 0 <= k < i ==> domains[k].View() == NarrowPair(a1, a2, old(domains[k].View()))
      invariant forall k :: i <= k < 5 ==> domains[k].View() == old(domains[k].View())
      invariant changed <==> exists k :: 0 <= k < i && domains[k].View() != old(domains[k].View())
    {
      var c := NarrowDomain(a1, a2, domains[i]);
      changed := changed || c;
      i := i + 1;
    }
  }

  /** propagate_constraints: narrows the domains as the hint requires and
      reports whether any domain changed. */
  method PropagateConstraints(h: Hint, domains: seq<Domain>) returns (changed: bool)
    requires Floors(domains)
    modifies domains
    ensures ViewsOf(domains) == HintStep(h, old(ViewsOf(domains)))
    ensures changed <==> ViewsOf(domains) != old(ViewsOf(domains))
  {
    if !h.Absolute? {
      return false;
    }
    var a1, a2 := h.attr1, h.attr2;
    ghost var before := ViewsOf(domains);
    if a1.F? || a2.F? {
      var f, other := if a1.F? then a1.f else a2.f, if a1.F? then a2 else a1;
      var d := domains[f - 1];
      var oldAnimals, oldColors := d.animals, d.colors;
      PinDomain(domains, f, other);
      changed := oldAnimals != d.animals || oldColors != d.colors;
      assert changed <==> ViewsOf(domains)[f - 1] != before[f - 1];
    } else {
      changed := NarrowDomains(a1, a2, domains);
      ghost var after := ViewsOf(domains);
      assert after == AbsoluteStep(a1, a2, before);
      assert changed <==> exists k :: 0 <= k < 5 && after[k] != before[k];
    }
  }

  /** The constraint propagator: the hints and the five floor domains. */
  class ConstraintPropagator {
    const hints: seq<Hint>
    const domains: seq<Domain>

    ghost predicate Valid() {
      Floors(domains)
    }

    /** Every floor starts with every animal and every colour. */
    constructor (hints: seq<Hint>)
      ensures this.hints == hints && Valid()
      ensures ViewsOf(domains) == Start
      ensures forall k :: 0 <= k < 5 ==> fresh(domains[k])
    {
      this.hints := hints;
      var d1 := new Domain();
      var d2 := new Domain();
      var d3 := new Domain();
      var d4 := new Domain();
      var d5 := new Domain();
      domains := [d1, d2, d3, d4, d5];
    }

    /** propagate_all_constraints: the domains end as the loop specified
        by Propagate leaves them; the result says whether it stopped before
        the cap of 100 rounds. */
    method PropagateAllConstraints() returns (converged: bool)
      requires Valid()
      modifies domains
      ensures ViewsOf(domains) == Propagate(hints, old(ViewsOf(domains)), true, 0).views
      ensures converged <==> Propagate(hints, old(ViewsOf(domains)), true, 0).iterations < MaxIterations
    {
      ghost var goal := Propagate(hints, ViewsOf(domains), true, 0);
      var changed := true;
      var iterations := 0;
      while changed && iterations < MaxIterations
        invariant iterations <= MaxIterations
        invariant Propagate(hints, ViewsOf(domains), changed, iterations) == goal
        decreases MaxIterations - iterations
      {
        ghost var before := ViewsOf(domains);
        changed := false;
        var j := 0;
        while j < |hints|
          invariant j <= |hints|
          invariant Round(hints, before) == RoundAfter(Round(hints[j..], ViewsOf(domains)), changed)
        {
          ghost var current := ViewsOf(domains);
          var c := PropagateConstraints(hints[j], domains);
          RoundStep(hints[j..], current);
          assert hints[j..][1..] == hints[j + 1..];
          if c {
            changed := true;
          }
          j := j + 1;
        }
        assert hints[|hints|..] == [];
        iterations := iterations + 1;
      }
      converged := iterations < MaxIterations;
    }

    /** get_singleton_assignments, floor 1 first. */
    method GetSingletonAssignments() returns (assignments: seq<FloorAssignment>)
      requires Valid()
      ensures assignments == Singletons(ViewsOf(domains))
      ensures forall x :: x in assignments <==> exists i :: 0 <= i < 5 && ViewsOf(domains)[i].IsSingleton() && SingletonAt(ViewsOf(domains)[i], i + 1) == Some(x)
      ensures forall k, l :: 0 <= k < l < |assignments| ==> assignments[k].floor < assignments[l].floor
    {
      assignments := [];
      for i := 0 to 5
        invariant assignments == SingletonsUpTo(ViewsOf(domains), i)
      {
        var a := domains[i].GetSingletonAssignment(i + 1);
        if a.Some? {
          assignments := assignments + [a.value];
        }
      }
      SingletonsListed(ViewsOf(domains));
    }

    /** has_empty_domains. */
    method HasEmptyDomains() returns (r: bool)
      requires Valid()
      ensures r == AnyEmpty(ViewsOf(domains))
    {
      r := false;
      for i := 0 to 5
        invariant r <==> exists k :: 0 <= k < i && domains[k].View().IsEmpty()
      {
        if |domains[i].animals| == 0 || |domains[i].colors| == 0 {
          r := true;
        }
      }
    }

    /** get_remaining_assignments, floor 1 first. */
    method GetRemainingAssignments() returns (remaining: seq<Open>)
      requires Valid()
      ensures remaining == Remaining(ViewsOf(domains))
    {
      remaining := [];
      for i := 0 to 5
        invariant remaining == RemainingUpTo(ViewsOf(domains), i)
      {
        var d := domains[i];
        if !(|d.animals| == 1 && |d.colors| == 1) {
          remaining := remaining + [Open(i + 1, d.animals, d.colors)];
        }
      }
    }
  }

  /** A round's outcome with an earlier change folded in. */
  function RoundAfter(o: RoundOutcome, changed: bool): RoundOutcome {
    RoundOutcome(o.views, o.changed || changed)
  }

  lemma RoundStep(hints: seq<Hint>, ds: seq<DomainView>)
    requires |hints| > 0 && |ds| == 5
    ensures Round(hints, ds) == RoundAfter(Round(hints[1..], HintStep(hints[0], ds)), HintStep(hints[0], ds) != ds)
  {
  }

  /** verify_all_hints: every hint holds on the assignments. */
  method VerifyAllHints(assignments: seq<FloorAssignment>, hints: seq<Hint>) returns (r: bool)
    ensures r == AllSatisfied(hints, assignments)
  {
    for i := 0 to |hints|
      invariant AllSatisfied(hints[..i], assignments)
    {
      if !Satisfied(hints[i], assignments) {
        assert hints[i] in hints;
        return false;
      }
      assert hints[..i + 1] == hints[..i] + [hints[i]];
      AllSatisfiedAppend(hints[..i], [hints[i]], assignments);
    }
    assert hints[..|hints|] == hints;
    return true;
  }

  /** count_assignments of the alternative solution. */
  method CountAssignmentsAlternative(hints: seq<Hint>) returns (count: nat)
    ensures count == AlternativeCount(hints)
  {
    if |hints| == 0 {
      return 14400;
    }
    ghost var r := PropagateAll(hints);
    var propagator := new ConstraintPropagator(hints);
    var converged := propagator.PropagateAllConstraints();
    assert ViewsOf(propagator.domains) == r.views;
    if !converged {
      return 0;
    }
    var empty := propagator.HasEmptyDomains();
    if empty {
      return 0;
    }
    var singletons := propagator.GetSingletonAssignments();
    var remaining := propagator.GetRemainingAssignments();
    if |remaining| == 0 {
      var ok := VerifyAllHints(singletons, hints);
      return if ok then 1 else 0;
    }
    count := CountTowers(hints, AllAnimals, AllColors);
  }
}
