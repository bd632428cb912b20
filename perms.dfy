/** Permutations in the order itertools.permutations produces them, and
    counting over sequences. The solvers enumerate the permutations of the
    five animals and the five colours themselves; itertools is not part of
    this model, so the enumeration is defined and its size proved here. */
module Permutations {

  function Factorial(n: nat): (r: nat)
    ensures r >= 1
  {
    if n == 0 then 1 else n * Factorial(n - 1)
  }

  /** s without its element at position i. */
  function RemoveAt<T>(s: seq<T>, i: nat): (r: seq<T>)
    requires i < |s|
    ensures |r| == |s| - 1
  {
    s[..i] + s[i + 1..]
  }

  /** x put in front of every sequence of ps. */
  function PrependAll<T>(x: T, ps: seq<seq<T>>): (r: seq<seq<T>>)
    ensures |r| == |ps|
    ensures forall k :: 0 <= k < |ps| ==> r[k] == [x] + ps[k]
  {
    seq(|ps|, k requires 0 <= k < |ps| => [x] + ps[k])
  }

  /** All orderings of the positions of s, in lexicographic order of
      positions: first s[0] followed by every ordering of the rest, then s[1]
      followed by every ordering of the rest, and so on. */
  function Perms<T>(s: seq<T>): seq<seq<T>>
    decreases |s|, 1
  {
    if |s| == 0 then [[]] else Blocks(s, 0)
  }

  /** The blocks of Perms(s) that start with s[i], s[i+1], ... */
  function Blocks<T>(s: seq<T>, i: nat): seq<seq<T>>
    requires i <= |s|
    decreases |s|, 0, |s| - i
  {
    if i == |s| then []
    else PrependAll(s[i], Perms(RemoveAt(s, i))) + Blocks(s, i + 1)
  }

  predicate Distinct<T(==)>(s: seq<T>) {
    forall i, j :: 0 <= i < j < |s| ==> s[i] != s[j]
  }

  // ----- size -----

  /** A sequence of n elements has n! permutations. */
  lemma {:induction false} PermsLength<T>(s: seq<T>)
    ensures |Perms(s)| == Factorial(|s|)
    decreases |s|, 1
  {
    if |s| > 0 {
      BlocksLength(s, 0);
    }
  }

  lemma {:induction false} BlocksLength<T>(s: seq<T>, i: nat)
    requires 0 < |s| && i <= |s|
    ensures |Blocks(s, i)| == (|s| - i) * Factorial(|s| - 1)
    decreases |s|, 0, |s| - i
  {
    if i < |s| {
      PermsLength(RemoveAt(s, i));
      BlocksLength(s, i + 1);
      assert (|s| - i) * Factorial(|s| - 1) == Factorial(|s| - 1) + (|s| - (i + 1)) * Factorial(|s| - 1);
    }
  }

  /** Five elements have 120 permutations, so five animals by five colours
      give 14400 candidate towers. */
  lemma {:induction false} FivePermutations<T>(s: seq<T>)
    requires |s| == 5
    ensures |Perms(s)| == 120
    ensures |Perms(s)| * |Perms(s)| == 14400
    ensures forall p :: p in Perms(s) ==> |p| == 5
  {
    PermsLength(s);
    PermsSound(s);
    assert Factorial(5) == 120 by {
      assert Factorial(1) == 1;
      assert Factorial(2) == 2;
      assert Factorial(3) == 6;
      assert Factorial(4) == 24;
    }
  }

  // ----- every entry is a permutation, and every permutation is an entry -----

  lemma {:induction false} RemoveAtMultiset<T>(s: seq<T>, i: nat)
    requires i < |s|
    ensures multiset(RemoveAt(s, i)) + multiset{s[i]} == multiset(s)
  {
    assert s == s[..i] + [s[i]] + s[i + 1..];
  }

  /** A rearrangement of s that starts with s[i] continues with a
      rearrangement of the rest of s. */
  lemma {:induction false} TailMultiset<T>(s: seq<T>, i: nat, p: seq<T>)
    requires i < |s| && |p| > 0 && p[0] == s[i]
    requires multiset(p) == multiset(s)
    ensures multiset(p[1..]) == multiset(RemoveAt(s, i))
  {
    RemoveAtMultiset(s, i);
    assert p == [p[0]] + p[1..];
    var a, b := multiset(p[1..]), multiset(RemoveAt(s, i));
    assert a + multiset{s[i]} == b + multiset{s[i]};
    forall y ensures a[y] == b[y] {
      assert (a + multiset{s[i]})[y] == a[y] + multiset{s[i]}[y];
      assert (b + multiset{s[i]})[y] == b[y] + multiset{s[i]}[y];
    }
  }

  /** Every entry of Perms(s) holds the elements of s, each as often as s. */
  lemma {:induction false} PermsSound<T>(s: seq<T>)
    ensures forall p :: p in Perms(s) ==> multiset(p) == multiset(s) && |p| == |s|
    decreases |s|, 1
  {
    if |s| > 0 {
      BlocksSound(s, 0);
    }
  }

  lemma {:induction false} BlocksSound<T>(s: seq<T>, i: nat)
    requires i <= |s|
    ensures forall p :: p in Blocks(s, i) ==> multiset(p) == multiset(s) && |p| == |s|
    decreases |s|, 0, |s| - i
  {
    if i < |s| {
      var rest := Perms(RemoveAt(s, i));
      PermsSound(RemoveAt(s, i));
      BlocksSound(s, i + 1);
      RemoveAtMultiset(s, i);
      forall p | p in PrependAll(s[i], rest)
        ensures multiset(p) == multiset(s) && |p| == |s|
      {
        var k :| 0 <= k < |rest| && PrependAll(s[i], rest)[k] == p;
        assert rest[k] in rest;
      }
    }
  }

  lemma {:induction false} BlocksInclude<T>(s: seq<T>, j: nat, i: nat, q: seq<T>)
    requires j <= i < |s|
    requires q in PrependAll(s[i], Perms(RemoveAt(s, i)))
    ensures q in Blocks(s, j)
    decreases i - j
  {
    if j < i {
      BlocksInclude(s, j + 1, i, q);
    }
  }

  /** Every rearrangement of s is an entry of Perms(s). */
  lemma {:induction false} PermsComplete<T>(s: seq<T>, p: seq<T>)
    requires multiset(p) == multiset(s)
    ensures p in Perms(s)
    decreases |s|
  {
    assert |p| == |multiset(p)| == |s|;
    if |s| == 0 {
      assert p == [];
    } else {
      assert p[0] in multiset(s);
      var i :| 0 <= i < |s| && s[i] == p[0];
      TailMultiset(s, i, p);
      PermsComplete(RemoveAt(s, i), p[1..]);
      var rest := Perms(RemoveAt(s, i));
      var k :| 0 <= k < |rest| && rest[k] == p[1..];
      assert PrependAll(s[i], rest)[k] == p;
      BlocksInclude(s, 0, i, p);
    }
  }

  lemma {:induction false} DistinctRemoveAt<T>(s: seq<T>, i: nat)
    requires Distinct(s) && i < |s|
    ensures Distinct(RemoveAt(s, i))
    ensures forall x :: x in RemoveAt(s, i) <==> x in s && x != s[i]
  {
    var r := RemoveAt(s, i);
    forall a, b | 0 <= a < b < |r| ensures r[a] != r[b] {
      var a' := if a < i then a else a + 1;
      var b' := if b < i then b else b + 1;
      assert r[a] == s[a'] && r[b] == s[b'];
    }
    forall x ensures x in r <==> x in s && x != s[i] {
      if x in r {
        var a :| 0 <= a < |r| && r[a] == x;
        var a' := if a < i then a else a + 1;
        assert s[a'] == x;
      }
      if x in s && x != s[i] {
        var a' :| 0 <= a' < |s| && s[a'] == x;
        assert r[if a' < i then a' else a' - 1] == x;
      }
    }
  }

  /** Distinct s has each of its elements once. */
  lemma {:induction false} DistinctMultiplicity<T>(s: seq<T>, x: T)
    requires Distinct(s)
    ensures multiset(s)[x] <= 1
  {
    if |s| > 0 {
      var init := s[..|s| - 1];
      assert s == init + [s[|s| - 1]];
      assert Distinct(init);
      DistinctMultiplicity(init, x);
      if x in init {
        var k :| 0 <= k < |init| && init[k] == x;
        assert s[k] == x;
      }
    }
  }

  lemma {:induction false} Occurrences<T>(q: seq<T>, i: nat, j: nat)
    requires i < j < |q|
    ensures multiset(q)[q[i]] >= if q[i] == q[j] then 2 else 1
  {
    assert q == q[..i] + [q[i]] + (q[i + 1..j] + [q[j]] + q[j + 1..]);
  }

  /** A rearrangement of distinct elements is distinct. */
  lemma {:induction false} PermutationDistinct<T>(s: seq<T>, q: seq<T>)
    requires Distinct(s) && multiset(q) == multiset(s)
    ensures Distinct(q)
  {
    forall i, j | 0 <= i < j < |q| ensures q[i] != q[j] {
      Occurrences(q, i, j);
      DistinctMultiplicity(s, q[i]);
    }
  }

  /** The permutations of distinct elements are distinct sequences. */
  lemma {:induction false} PermsDistinct<T>(s: seq<T>)
    requires Distinct(s)
    ensures forall q :: q in Perms(s) ==> Distinct(q)
  {
    PermsSound(s);
    forall q | q in Perms(s) ensures Distinct(q) {
      PermutationDistinct(s, q);
    }
  }

  /** Two sequences without repetitions that hold the same elements are
      rearrangements of each other. */
  lemma SameElementsMultiset<T>(s: seq<T>, t: seq<T>)
    requires Distinct(s) && Distinct(t)
    requires forall x :: x in s <==> x in t
    ensures multiset(s) == multiset(t)
  {
    forall x ensures multiset(s)[x] == multiset(t)[x] {
      DistinctMultiplicity(s, x);
      DistinctMultiplicity(t, x);
      assert x in multiset(s) <==> x in s;
      assert x in multiset(t) <==> x in t;
    }
  }

  // ----- counting -----

  /** How many of xs[0], ..., xs[n-1] satisfy P. */
  function CountUpTo<T>(xs: seq<T>, n: nat, P: T -> bool): (r: nat)
    requires n <= |xs|
    ensures r <= n
  {
    if n == 0 then 0 else CountUpTo(xs, n - 1, P) + (if P(xs[n - 1]) then 1 else 0)
  }

  /** How many elements of xs satisfy P. */
  function Count<T>(xs: seq<T>, P: T -> bool): nat {
    CountUpTo(xs, |xs|, P)
  }

  /** The conditions the lemmas below count, as named terms, so that every
      lemma speaking of the same condition speaks of the same term. */
  function Const<T>(b: bool): T -> bool {
    x => b
  }

  ghost function EqualTo<T>(p: T): T -> bool {
    q => q == p
  }

  /** q holds x at position k. */
  ghost function AtPos<T>(x: T, k: nat): seq<T> -> bool {
    q => k < |q| && q[k] == x
  }

  /** q holds x at some position j < n for which U(j) holds. */
  ghost function AtSome<T>(x: T, n: nat, U: nat -> bool): seq<T> -> bool {
    q => exists j: nat :: j < n && j < |q| && q[j] == x && U(j)
  }

  /** The condition P with its first argument fixed to x. */
  function Section<A, B>(P: (A, B) -> bool, x: A): B -> bool {
    y => P(x, y)
  }

  function Both<A, B>(Q: A -> bool, R: B -> bool): (A, B) -> bool {
    (x, y) => Q(x) && R(y)
  }

  /** The positions 0, ..., n-1. */
  function Range(n: nat): (r: seq<nat>)
    ensures |r| == n
    ensures forall i :: 0 <= i < n ==> r[i] == i
  {
    seq(n, i requires 0 <= i < n => i)
  }

  lemma {:induction false} CountUpToPrefix<T>(a: seq<T>, b: seq<T>, n: nat, P: T -> bool)
    requires n <= |a|
    ensures CountUpTo(a + b, n, P) == CountUpTo(a, n, P)
  {
    if n > 0 {
      CountUpToPrefix(a, b, n - 1, P);
    }
  }

  lemma {:induction false} CountUpToSuffix<T>(a: seq<T>, b: seq<T>, n: nat, P: T -> bool)
    requires n <= |b|
    ensures CountUpTo(a + b, |a| + n, P) == Count(a, P) + CountUpTo(b, n, P)
  {
    if n == 0 {
      CountUpToPrefix(a, b, |a|, P);
    } else {
      CountUpToSuffix(a, b, n - 1, P);
    }
  }

  lemma {:induction false} CountAppend<T>(a: seq<T>, b: seq<T>, P: T -> bool)
    ensures Count(a + b, P) == Count(a, P) + Count(b, P)
  {
    CountUpToSuffix(a, b, |b|, P);
  }

  lemma {:induction false} CountUpToCongruent<T>(xs: seq<T>, n: nat, P: T -> bool, Q: T -> bool)
    requires n <= |xs|
    requires forall x :: x in xs ==> P(x) == Q(x)
    ensures CountUpTo(xs, n, P) == CountUpTo(xs, n, Q)
  {
    if n > 0 {
      assert xs[n - 1] in xs;
      CountUpToCongruent(xs, n - 1, P, Q);
    }
  }

  /** Conditions that agree on the elements give the same count. */
  lemma {:induction false} CountCongruent<T>(xs: seq<T>, P: T -> bool, Q: T -> bool)
    requires forall x :: x in xs ==> P(x) == Q(x)
    ensures Count(xs, P) == Count(xs, Q)
  {
    CountUpToCongruent(xs, |xs|, P, Q);
  }

  lemma {:induction false} CountUpToMono<T>(xs: seq<T>, n: nat, P: T -> bool, Q: T -> bool)
    requires n <= |xs|
    requires forall x :: x in xs && P(x) ==> Q(x)
    ensures CountUpTo(xs, n, P) <= CountUpTo(xs, n, Q)
  {
    if n > 0 {
      assert xs[n - 1] in xs;
      CountUpToMono(xs, n - 1, P, Q);
    }
  }

  lemma {:induction false} CountUpToAll<T>(xs: seq<T>, n: nat, P: T -> bool)
    requires n <= |xs|
    requires forall x :: x in xs ==> P(x)
    ensures CountUpTo(xs, n, P) == n
  {
    if n > 0 {
      assert xs[n - 1] in xs;
      CountUpToAll(xs, n - 1, P);
    }
  }

  lemma {:induction false} CountAll<T>(xs: seq<T>, P: T -> bool)
    requires forall x :: x in xs ==> P(x)
    ensures Count(xs, P) == |xs|
  {
    CountUpToAll(xs, |xs|, P);
  }

  lemma {:induction false} CountUpToNone<T>(xs: seq<T>, n: nat, P: T -> bool)
    requires n <= |xs|
    requires forall x :: x in xs ==> !P(x)
    ensures CountUpTo(xs, n, P) == 0
  {
    if n > 0 {
      assert xs[n - 1] in xs;
      CountUpToNone(xs, n - 1, P);
    }
  }

  lemma {:induction false} CountNone<T>(xs: seq<T>, P: T -> bool)
    requires forall x :: x in xs ==> !P(x)
    ensures Count(xs, P) == 0
  {
    CountUpToNone(xs, |xs|, P);
  }

  lemma {:induction false} CountUpToSplit<T>(xs: seq<T>, n: nat, P: T -> bool, P1: T -> bool, P2: T -> bool)
    requires n <= |xs|
    requires forall x :: x in xs ==> (P(x) <==> P1(x) || P2(x)) && !(P1(x) && P2(x))
    ensures CountUpTo(xs, n, P) == CountUpTo(xs, n, P1) + CountUpTo(xs, n, P2)
  {
    if n > 0 {
      assert xs[n - 1] in xs;
      CountUpToSplit(xs, n - 1, P, P1, P2);
    }
  }

  /** A condition that is the disjoint union of two conditions is counted by
      adding their counts. */
  lemma {:induction false} CountSplit<T>(xs: seq<T>, P: T -> bool, P1: T -> bool, P2: T -> bool)
    requires forall x :: x in xs ==> (P(x) <==> P1(x) || P2(x)) && !(P1(x) && P2(x))
    ensures Count(xs, P) == Count(xs, P1) + Count(xs, P2)
  {
    CountUpToSplit(xs, |xs|, P, P1, P2);
  }

  lemma {:induction false} CountUpToPrependAll<T>(x: T, ps: seq<seq<T>>, n: nat, P: seq<T> -> bool, Q: seq<T> -> bool)
    requires n <= |ps|
    requires forall q :: q in ps ==> P([x] + q) == Q(q)
    ensures CountUpTo(PrependAll(x, ps), n, P) == CountUpTo(ps, n, Q)
  {
    if n > 0 {
      assert ps[n - 1] in ps;
      CountUpToPrependAll(x, ps, n - 1, P, Q);
    }
  }

  /** Counting over ps with x put in front amounts to counting over ps. */
  lemma {:induction false} CountPrependAll<T>(x: T, ps: seq<seq<T>>, P: seq<T> -> bool, Q: seq<T> -> bool)
    requires forall q :: q in ps ==> P([x] + q) == Q(q)
    ensures Count(PrependAll(x, ps), P) == Count(ps, Q)
  {
    CountUpToPrependAll(x, ps, |ps|, P, Q);
  }

  lemma MulSucc(c: int, f: int)
    ensures (c + 1) * f == c * f + f
  {
  }

  /** c copies of w added up: c * w, written so that sums of counts stay
      linear for the solver. */
  function Times(c: nat, w: nat): nat {
    if c == 0 then 0 else Times(c - 1, w) + w
  }

  lemma {:induction false} TimesAdd(a: nat, b: nat, w: nat)
    ensures Times(a + b, w) == Times(a, w) + Times(b, w)
    decreases b
  {
    if b > 0 {
      TimesAdd(a, b - 1, w);
    }
  }

  lemma {:induction false} TimesIsProduct(c: nat, w: nat)
    ensures Times(c, w) == c * w
  {
    if c > 0 {
      TimesIsProduct(c - 1, w);
    }
  }

  lemma MulAdd(f: int, x: int, y: int)
    ensures f * (x + y) == f * x + f * y
  {
  }

  lemma {:induction false} TimesScale(b: nat, f: nat, g: nat)
    ensures f * Times(b, g) == Times(b, Times(f, g))
    decreases b
  {
    if b > 0 {
      TimesScale(b - 1, f, g);
      TimesIsProduct(f, g);
      MulAdd(f, Times(b - 1, g), g);
    }
  }

  // ----- how many permutations have a given shape -----

  /** For distinct s, how many entries of the block of Perms(s) that starts
      with s[i] carry s[m] first. */
  lemma {:induction false} BlockCountHead<T>(s: seq<T>, i: nat, m: nat)
    requires Distinct(s) && i < |s| && m < |s|
    ensures Count(PrependAll(s[i], Perms(RemoveAt(s, i))), AtPos(s[m], 0)) ==
            (if i == m then Factorial(|s| - 1) else 0)
  {
    var rest := Perms(RemoveAt(s, i));
    var hit := s[i] == s[m];
    forall q | q in rest ensures AtPos(s[m], 0)([s[i]] + q) == Const(hit)(q) {
      assert ([s[i]] + q)[0] == s[i];
    }
    CountPrependAll(s[i], rest, AtPos(s[m], 0), Const(hit));
    if hit {
      assert i == m;
      PermsLength(RemoveAt(s, i));
      CountAll(rest, Const(true));
    } else {
      CountNone(rest, Const(false));
    }
  }

  /** For distinct s, how many entries of the block of Perms(s) that starts
      with s[i] carry s[m] at position k > 0. */
  lemma {:induction false} BlockCountTail<T>(s: seq<T>, i: nat, k: nat, m: nat)
    requires Distinct(s) && i < |s| && 0 < k < |s| && m < |s|
    ensures Count(PrependAll(s[i], Perms(RemoveAt(s, i))), AtPos(s[m], k)) ==
            (if i == m then 0 else Factorial(|s| - 2))
    decreases |s|, 0, |s| - i, 0
  {
    var x := s[m];
    var r := RemoveAt(s, i);
    forall q | q in Perms(r) ensures AtPos(x, k)([s[i]] + q) == AtPos(x, k - 1)(q) {
    }
    CountPrependAll(s[i], Perms(r), AtPos(x, k), AtPos(x, k - 1));
    DistinctRemoveAt(s, i);
    if i == m {
      NoneAt(r, k - 1, x);
    } else {
      assert x in r;
      var m' :| 0 <= m' < |r| && r[m'] == x;
      PermsCountAt(r, k - 1, m');
    }
  }

  /** No permutation of r carries a value that r does not hold. */
  lemma {:induction false} NoneAt<T>(r: seq<T>, k: nat, x: T)
    requires x !in r
    ensures Count(Perms(r), AtPos(x, k)) == 0
  {
    PermsSound(r);
    forall q | q in Perms(r) ensures !AtPos(x, k)(q) {
      if k < |q| {
        assert q[k] in multiset(q);
      }
    }
    CountNone(Perms(r), AtPos(x, k));
  }

  /** For distinct s, how many entries of Blocks(s, i) carry s[m] first. */
  lemma {:induction false} BlocksCountHead<T>(s: seq<T>, i: nat, m: nat)
    requires Distinct(s) && i <= |s| && m < |s|
    ensures Count(Blocks(s, i), AtPos(s[m], 0)) == (if i <= m then Factorial(|s| - 1) else 0)
    decreases |s| - i
  {
    if i < |s| {
      BlockCountHead(s, i, m);
      BlocksCountHead(s, i + 1, m);
      CountAppend(PrependAll(s[i], Perms(RemoveAt(s, i))), Blocks(s, i + 1), AtPos(s[m], 0));
    }
  }

  /** How many of the positions i, ..., n-1 differ from m. */
  function Others(n: int, i: int, m: int): int {
    (n - i) - (if i <= m then 1 else 0)
  }

  lemma TailArith(n: int, i: int, m: int, f: int)
    ensures Others(n, i, m) * f == (if i == m then 0 else f) + Others(n, i + 1, m) * f
  {
    var c := (n - (i + 1)) - (if i + 1 <= m then 1 else 0);
    if i != m {
      MulSucc(c, f);
    }
  }

  /** For distinct s, how many entries of Blocks(s, i) carry s[m] at
      position k > 0. */
  lemma {:induction false} BlocksCountTail<T>(s: seq<T>, i: nat, k: nat, m: nat)
    requires Distinct(s) && i <= |s| && 0 < k < |s| && m < |s|
    ensures Count(Blocks(s, i), AtPos(s[m], k)) == Others(|s|, i, m) * Factorial(|s| - 2)
    decreases |s|, 0, |s| - i, 1
  {
    if i < |s| {
      BlockCountTail(s, i, k, m);
      BlocksCountTail(s, i + 1, k, m);
      CountAppend(PrependAll(s[i], Perms(RemoveAt(s, i))), Blocks(s, i + 1), AtPos(s[m], k));
      TailArith(|s|, i, m, Factorial(|s| - 2));
    }
  }

  /** Among the permutations of distinct s, exactly (|s|-1)! put a given
      element of s at a given position. */
  lemma {:induction false} PermsCountAt<T>(s: seq<T>, k: nat, m: nat)
    requires Distinct(s) && k < |s| && m < |s|
    ensures Count(Perms(s), AtPos(s[m], k)) == Factorial(|s| - 1)
    decreases |s|, 1
  {
    if k == 0 {
      BlocksCountHead(s, 0, m);
    } else {
      BlocksCountTail(s, 0, k, m);
      assert Factorial(|s| - 1) == (|s| - 1) * Factorial(|s| - 2);
    }
  }

  /** For distinct s and p a rearrangement of s with p[0] == s[m], the
      entries of Blocks(s, i) equal to p. */
  lemma {:induction false} BlocksCountEq<T>(s: seq<T>, i: nat, p: seq<T>, m: nat)
    requires Distinct(s) && i <= |s| && m < |s|
    requires multiset(p) == multiset(s) && |p| > 0 && p[0] == s[m]
    ensures Count(Blocks(s, i), EqualTo(p)) == (if i <= m then 1 else 0)
    decreases |s|, 0, |s| - i
  {
    if i < |s| {
      var r := RemoveAt(s, i);
      var rest := Perms(r);
      BlocksCountEq(s, i + 1, p, m);
      CountAppend(PrependAll(s[i], rest), Blocks(s, i + 1), EqualTo(p));
      if i == m {
        assert forall q :: ([s[i]] + q == p) == (q == p[1..]);
        CountPrependAll(s[i], rest, EqualTo(p), EqualTo(p[1..]));
        DistinctRemoveAt(s, i);
        TailMultiset(s, i, p);
        PermsCountEq(r, p[1..]);
      } else {
        forall q | q in rest ensures EqualTo(p)([s[i]] + q) == Const(false)(q) {
          assert ([s[i]] + q)[0] == s[i];
        }
        CountPrependAll(s[i], rest, EqualTo(p), Const(false));
        CountNone(rest, Const(false));
      }
    }
  }

  /** Every rearrangement of distinct s occurs exactly once in Perms(s). */
  lemma {:induction false} PermsCountEq<T>(s: seq<T>, p: seq<T>)
    requires Distinct(s) && multiset(p) == multiset(s)
    ensures Count(Perms(s), EqualTo(p)) == 1
    decreases |s|, 1
  {
    assert |p| == |multiset(p)| == |s|;
    if |s| == 0 {
      assert p == [];
    } else {
      assert p[0] in multiset(s);
      var m :| 0 <= m < |s| && s[m] == p[0];
      BlocksCountEq(s, 0, p, m);
    }
  }

  /** Position n - 1 either adds a fresh way for distinct q to hold x, or
      none. */
  lemma {:induction false} AtSomeStep<T>(q: seq<T>, x: T, n: nat, U: nat -> bool)
    requires Distinct(q) && 0 < n
    ensures AtSome(x, n, U)(q) <==> AtSome(x, n - 1, U)(q) || (U(n - 1) && AtPos(x, n - 1)(q))
    ensures !(AtSome(x, n - 1, U)(q) && AtPos(x, n - 1)(q))
  {
    if AtSome(x, n, U)(q) {
      var j: nat :| j < n && j < |q| && q[j] == x && U(j);
      if j < n - 1 {
        assert AtSome(x, n - 1, U)(q);
      }
    }
    if AtSome(x, n - 1, U)(q) && n - 1 < |q| {
      var j: nat :| j < n - 1 && j < |q| && q[j] == x && U(j);
      assert q[j] != q[n - 1];
    }
  }

  /** Position n - 1 adds (|s|-1)! permutations when U(n - 1) holds, and
      none otherwise. */
  lemma {:induction false} AtSomeCountStep<T>(s: seq<T>, m: nat, n: nat, U: nat -> bool)
    requires Distinct(s) && m < |s| && 0 < n <= |s|
    ensures Count(Perms(s), AtSome(s[m], n, U)) ==
            Count(Perms(s), AtSome(s[m], n - 1, U)) + (if U(n - 1) then Factorial(|s| - 1) else 0)
  {
    var x := s[m];
    PermsDistinct(s);
    if U(n - 1) {
      forall q | q in Perms(s)
        ensures AtSome(x, n, U)(q) <==> AtSome(x, n - 1, U)(q) || AtPos(x, n - 1)(q)
        ensures !(AtSome(x, n - 1, U)(q) && AtPos(x, n - 1)(q))
      {
        AtSomeStep(q, x, n, U);
      }
      CountSplit(Perms(s), AtSome(x, n, U), AtSome(x, n - 1, U), AtPos(x, n - 1));
      PermsCountAt(s, n - 1, m);
    } else {
      forall q | q in Perms(s) ensures AtSome(x, n, U)(q) == AtSome(x, n - 1, U)(q) {
        AtSomeStep(q, x, n, U);
      }
      CountCongruent(Perms(s), AtSome(x, n, U), AtSome(x, n - 1, U));
    }
  }

  /** Among the permutations of distinct s, those that put s[m] at one of the
      positions j < n with U(j): (|s|-1)! for each such position. */
  lemma {:induction false} PermsCountAtSome<T>(s: seq<T>, m: nat, n: nat, U: nat -> bool)
    requires Distinct(s) && m < |s| && n <= |s|
    ensures Count(Perms(s), AtSome(s[m], n, U)) == Times(CountUpTo(Range(|s|), n, U), Factorial(|s| - 1))
  {
    if n == 0 {
      CountNone(Perms(s), AtSome(s[m], 0, U));
    } else {
      PermsCountAtSome(s, m, n - 1, U);
      AtSomeCountStep(s, m, n, U);
      assert Range(|s|)[n - 1] == n - 1;
    }
  }

  // ----- counting pairs -----

  /** How many y among ys[0], ..., ys[m-1] make P(x, y) hold. */
  function RowCount<A, B>(x: A, ys: seq<B>, m: nat, P: (A, B) -> bool): (r: nat)
    requires m <= |ys|
    ensures r <= m
  {
    if m == 0 then 0 else RowCount(x, ys, m - 1, P) + (if P(x, ys[m - 1]) then 1 else 0)
  }

  /** How many pairs (xs[i], y), i < n, y in ys, satisfy P; the pairs are
      visited in the order of two nested loops. */
  function CountPairsUpTo<A, B>(xs: seq<A>, n: nat, ys: seq<B>, P: (A, B) -> bool): nat
    requires n <= |xs|
  {
    if n == 0 then 0
    else CountPairsUpTo(xs, n - 1, ys, P) + RowCount(xs[n - 1], ys, |ys|, P)
  }

  function CountPairs<A, B>(xs: seq<A>, ys: seq<B>, P: (A, B) -> bool): nat {
    CountPairsUpTo(xs, |xs|, ys, P)
  }

  lemma {:induction false} RowCountIsCount<A, B>(x: A, ys: seq<B>, m: nat, P: (A, B) -> bool)
    requires m <= |ys|
    ensures RowCount(x, ys, m, P) == CountUpTo(ys, m, Section(P, x))
  {
    if m > 0 {
      RowCountIsCount(x, ys, m - 1, P);
    }
  }

  lemma {:induction false} CountPairsUpToBound<A, B>(xs: seq<A>, n: nat, ys: seq<B>, P: (A, B) -> bool)
    requires n <= |xs|
    ensures CountPairsUpTo(xs, n, ys, P) <= n * |ys|
  {
    if n > 0 {
      CountPairsUpToBound(xs, n - 1, ys, P);
      MulSucc(n - 1, |ys|);
    }
  }

  /** At most every pair is counted. */
  lemma {:induction false} CountPairsBound<A, B>(xs: seq<A>, ys: seq<B>, P: (A, B) -> bool)
    ensures CountPairs(xs, ys, P) <= |xs| * |ys|
  {
    CountPairsUpToBound(xs, |xs|, ys, P);
  }

  lemma {:induction false} RowProduct<A, B>(x: A, ys: seq<B>, P: (A, B) -> bool, Q: A -> bool, R: B -> bool)
    requires forall y :: y in ys ==> P(x, y) == (Q(x) && R(y))
    ensures RowCount(x, ys, |ys|, P) == if Q(x) then Count(ys, R) else 0
  {
    RowCountIsCount(x, ys, |ys|, P);
    if Q(x) {
      CountCongruent(ys, Section(P, x), R);
    } else {
      CountNone(ys, Section(P, x));
    }
  }

  lemma {:induction false} CountPairsUpToProduct<A, B>(xs: seq<A>, n: nat, ys: seq<B>, P: (A, B) -> bool, Q: A -> bool, R: B -> bool)
    requires n <= |xs|
    requires forall x, y :: x in xs && y in ys ==> P(x, y) == (Q(x) && R(y))
    ensures CountPairsUpTo(xs, n, ys, P) == CountUpTo(xs, n, Q) * Count(ys, R)
  {
    if n > 0 {
      var x := xs[n - 1];
      assert x in xs;
      CountPairsUpToProduct(xs, n - 1, ys, P, Q, R);
      RowProduct(x, ys, P, Q, R);
      if Q(x) {
        MulSucc(CountUpTo(xs, n - 1, Q), Count(ys, R));
      }
    }
  }

  /** A condition that splits into independent conditions on the two
      components is counted by multiplying the two counts. */
  lemma {:induction false} CountPairsProduct<A, B>(xs: seq<A>, ys: seq<B>, P: (A, B) -> bool, Q: A -> bool, R: B -> bool)
    requires forall x, y :: x in xs && y in ys ==> P(x, y) == (Q(x) && R(y))
    ensures CountPairs(xs, ys, P) == Count(xs, Q) * Count(ys, R)
  {
    CountPairsUpToProduct(xs, |xs|, ys, P, Q, R);
  }

  lemma {:induction false} CountPairsUpToCongruent<A, B>(xs: seq<A>, n: nat, ys: seq<B>, P: (A, B) -> bool, P': (A, B) -> bool)
    requires n <= |xs|
    requires forall x, y :: x in xs && y in ys ==> P(x, y) == P'(x, y)
    ensures CountPairsUpTo(xs, n, ys, P) == CountPairsUpTo(xs, n, ys, P')
  {
    if n > 0 {
      var x := xs[n - 1];
      assert x in xs;
      CountPairsUpToCongruent(xs, n - 1, ys, P, P');
      RowCountIsCount(x, ys, |ys|, P);
      RowCountIsCount(x, ys, |ys|, P');
      CountCongruent(ys, Section(P, x), Section(P', x));
    }
  }

  /** Conditions that agree on all pairs give the same count. */
  lemma {:induction false} CountPairsCongruent<A, B>(xs: seq<A>, ys: seq<B>, P: (A, B) -> bool, P': (A, B) -> bool)
    requires forall x, y :: x in xs && y in ys ==> P(x, y) == P'(x, y)
    ensures CountPairs(xs, ys, P) == CountPairs(xs, ys, P')
  {
    CountPairsUpToCongruent(xs, |xs|, ys, P, P');
  }

  lemma {:induction false} CountPairsUpToMono<A, B>(xs: seq<A>, n: nat, ys: seq<B>, P: (A, B) -> bool, P': (A, B) -> bool)
    requires n <= |xs|
    requires forall x, y :: x in xs && y in ys && P(x, y) ==> P'(x, y)
    ensures CountPairsUpTo(xs, n, ys, P) <= CountPairsUpTo(xs, n, ys, P')
  {
    if n > 0 {
      var x := xs[n - 1];
      assert x in xs;
      CountPairsUpToMono(xs, n - 1, ys, P, P');
      RowCountIsCount(x, ys, |ys|, P);
      RowCountIsCount(x, ys, |ys|, P');
      CountUpToMono(ys, |ys|, Section(P, x), Section(P', x));
    }
  }

  /** A condition no pair meets counts nothing. */
  lemma {:induction false} CountPairsNone<A, B>(xs: seq<A>, ys: seq<B>, P: (A, B) -> bool)
    requires forall x, y :: x in xs && y in ys ==> !P(x, y)
    ensures CountPairs(xs, ys, P) == 0
  {
    CountPairsProduct(xs, ys, P, Const(false), Const(false));
    CountNone(xs, Const(false));
  }

  /** A stronger condition counts no more pairs. */
  lemma {:induction false} CountPairsMono<A, B>(xs: seq<A>, ys: seq<B>, P: (A, B) -> bool, P': (A, B) -> bool)
    requires forall x, y :: x in xs && y in ys && P(x, y) ==> P'(x, y)
    ensures CountPairs(xs, ys, P) <= CountPairs(xs, ys, P')
  {
    CountPairsUpToMono(xs, |xs|, ys, P, P');
  }

  lemma {:induction false} CountPairsUpToSplit<A, B>(xs: seq<A>, n: nat, ys: seq<B>, P: (A, B) -> bool, P1: (A, B) -> bool, P2: (A, B) -> bool)
    requires n <= |xs|
    requires forall x, y :: x in xs && y in ys ==> (P(x, y) <==> P1(x, y) || P2(x, y)) && !(P1(x, y) && P2(x, y))
    ensures CountPairsUpTo(xs, n, ys, P) == CountPairsUpTo(xs, n, ys, P1) + CountPairsUpTo(xs, n, ys, P2)
  {
    if n > 0 {
      var x := xs[n - 1];
      assert x in xs;
      CountPairsUpToSplit(xs, n - 1, ys, P, P1, P2);
      RowCountIsCount(x, ys, |ys|, P);
      RowCountIsCount(x, ys, |ys|, P1);
      RowCountIsCount(x, ys, |ys|, P2);
      CountSplit(ys, Section(P, x), Section(P1, x), Section(P2, x));
    }
  }

  /** A condition that is the disjoint union of two conditions is counted by
      adding their counts. */
  lemma {:induction false} CountPairsSplit<A, B>(xs: seq<A>, ys: seq<B>, P: (A, B) -> bool, P1: (A, B) -> bool, P2: (A, B) -> bool)
    requires forall x, y :: x in xs && y in ys ==> (P(x, y) <==> P1(x, y) || P2(x, y)) && !(P1(x, y) && P2(x, y))
    ensures CountPairs(xs, ys, P) == CountPairs(xs, ys, P1) + CountPairs(xs, ys, P2)
  {
    CountPairsUpToSplit(xs, |xs|, ys, P, P1, P2);
  }

  /** Pairs (p, q) where p holds x at some position i < n, q holds y at some
      position j < M, and T(i, j) holds. */
  ghost function PairAtSome<A, B>(x: A, y: B, n: nat, M: nat, T: (nat, nat) -> bool): (seq<A>, seq<B>) -> bool {
    (p, q) => exists i: nat :: i < n && i < |p| && p[i] == x && AtSome(y, M, Section<nat, nat>(T, i))(q)
  }

  /** Position n - 1 of distinct p either adds fresh pairs or none. */
  lemma {:induction false} PairStep<A, B>(p: seq<A>, q: seq<B>, x: A, y: B, n: nat, M: nat, T: (nat, nat) -> bool)
    requires Distinct(p) && 0 < n
    ensures PairAtSome(x, y, n, M, T)(p, q) <==>
              PairAtSome(x, y, n - 1, M, T)(p, q) ||
              Both(AtPos(x, n - 1), AtSome(y, M, Section<nat, nat>(T, n - 1)))(p, q)
    ensures !(PairAtSome(x, y, n - 1, M, T)(p, q) &&
              Both(AtPos(x, n - 1), AtSome(y, M, Section<nat, nat>(T, n - 1)))(p, q))
  {
    if PairAtSome(x, y, n, M, T)(p, q) {
      var i: nat :| i < n && i < |p| && p[i] == x && AtSome(y, M, Section<nat, nat>(T, i))(q);
      if i < n - 1 {
        assert PairAtSome(x, y, n - 1, M, T)(p, q);
      }
    }
    if PairAtSome(x, y, n - 1, M, T)(p, q) && n - 1 < |p| {
      var i: nat :| i < n - 1 && i < |p| && p[i] == x && AtSome(y, M, Section<nat, nat>(T, i))(q);
      assert p[i] != p[n - 1];
    }
  }

  /** The pairs counted at n split into those counted at n - 1 and those
      that put x at position n - 1. */
  lemma {:induction false} PairCountSplit<A, B>(s: seq<A>, t: seq<B>, x: A, y: B, n: nat, M: nat, T: (nat, nat) -> bool)
    requires Distinct(s) && 0 < n
    ensures CountPairs(Perms(s), Perms(t), PairAtSome(x, y, n, M, T)) ==
            CountPairs(Perms(s), Perms(t), PairAtSome(x, y, n - 1, M, T)) +
            CountPairs(Perms(s), Perms(t), Both(AtPos(x, n - 1), AtSome(y, M, Section<nat, nat>(T, n - 1))))
  {
    var P := PairAtSome(x, y, n, M, T);
    var P0 := PairAtSome(x, y, n - 1, M, T);
    var P1 := Both(AtPos(x, n - 1), AtSome(y, M, Section<nat, nat>(T, n - 1)));
    PermsDistinct(s);
    forall p, q | p in Perms(s) && q in Perms(t)
      ensures P(p, q) <==> P0(p, q) || P1(p, q)
      ensures !(P0(p, q) && P1(p, q))
    {
      PairStep(p, q, x, y, n, M, T);
    }
    CountPairsSplit(Perms(s), Perms(t), P, P0, P1);
  }

  /** The pairs that put s[ms] at position i and t[mt] at a position j with
      T(i, j). */
  lemma {:induction false} PairBlockCount<A, B>(s: seq<A>, ms: nat, t: seq<B>, mt: nat, i: nat, T: (nat, nat) -> bool)
    requires Distinct(s) && Distinct(t) && ms < |s| && mt < |t| && i < |s|
    ensures CountPairs(Perms(s), Perms(t), Both(AtPos(s[ms], i), AtSome(t[mt], |t|, Section<nat, nat>(T, i)))) ==
            Times(Count(Range(|t|), Section<nat, nat>(T, i)), Times(Factorial(|s| - 1), Factorial(|t| - 1)))
  {
    var Row := AtSome(t[mt], |t|, Section<nat, nat>(T, i));
    CountPairsProduct(Perms(s), Perms(t), Both(AtPos(s[ms], i), Row), AtPos(s[ms], i), Row);
    PermsCountAt(s, i, ms);
    PermsCountAtSome(t, mt, |t|, Section<nat, nat>(T, i));
    TimesScale(Count(Range(|t|), Section<nat, nat>(T, i)), Factorial(|s| - 1), Factorial(|t| - 1));
  }

  /** Raising the bound n by one adds one block of pairs. */
  lemma {:induction false} PairCountStep<A, B>(s: seq<A>, ms: nat, t: seq<B>, mt: nat, n: nat, T: (nat, nat) -> bool)
    requires Distinct(s) && Distinct(t) && ms < |s| && mt < |t| && 0 < n <= |s|
    ensures CountPairs(Perms(s), Perms(t), PairAtSome(s[ms], t[mt], n, |t|, T)) ==
            CountPairs(Perms(s), Perms(t), PairAtSome(s[ms], t[mt], n - 1, |t|, T)) +
            Times(Count(Range(|t|), Section<nat, nat>(T, n - 1)), Times(Factorial(|s| - 1), Factorial(|t| - 1)))
  {
    assert CountPairs(Perms(s), Perms(t), Both(AtPos(s[ms], n - 1), AtSome(t[mt], |t|, Section<nat, nat>(T, n - 1)))) ==
           Times(Count(Range(|t|), Section<nat, nat>(T, n - 1)), Times(Factorial(|s| - 1), Factorial(|t| - 1))) by {
      PairBlockCount(s, ms, t, mt, n - 1, T);
    }
    assert CountPairs(Perms(s), Perms(t), PairAtSome(s[ms], t[mt], n, |t|, T)) ==
           CountPairs(Perms(s), Perms(t), PairAtSome(s[ms], t[mt], n - 1, |t|, T)) +
           CountPairs(Perms(s), Perms(t), Both(AtPos(s[ms], n - 1), AtSome(t[mt], |t|, Section<nat, nat>(T, n - 1)))) by {
      PairCountSplit(s, t, s[ms], t[mt], n, |t|, T);
    }
  }

  lemma {:induction false} PairsUpToStep(N: nat, M: nat, n: nat, T: (nat, nat) -> bool)
    requires 0 < n <= N
    ensures CountPairsUpTo(Range(N), n, Range(M), T) ==
            CountPairsUpTo(Range(N), n - 1, Range(M), T) + Count(Range(M), Section<nat, nat>(T, n - 1))
  {
    assert Range(N)[n - 1] == n - 1;
    RowCountIsCount<nat, nat>(n - 1, Range(M), M, T);
  }

  /** One step of a running sum of blocks that each weigh w. */
  lemma SumStep(x: nat, x0: nat, y: nat, y0: nat, b: nat, w: nat)
    requires x == x0 + Times(b, w) && y == y0 + b && x0 == Times(y0, w)
    ensures x == Times(y, w)
  {
    TimesAdd(y0, b, w);
  }

  /** The inductive step of PairsCountAtSome: the count at n - 1 extends
      to the count at n. */
  lemma {:induction false} PairsCountAtSomeStep<A, B>(s: seq<A>, ms: nat, t: seq<B>, mt: nat, n: nat, T: (nat, nat) -> bool)
    requires Distinct(s) && Distinct(t) && ms < |s| && mt < |t| && 0 < n <= |s|
    requires CountPairs(Perms(s), Perms(t), PairAtSome(s[ms], t[mt], n - 1, |t|, T)) ==
             Times(CountPairsUpTo(Range(|s|), n - 1, Range(|t|), T), Times(Factorial(|s| - 1), Factorial(|t| - 1)))
    ensures CountPairs(Perms(s), Perms(t), PairAtSome(s[ms], t[mt], n, |t|, T)) ==
            Times(CountPairsUpTo(Range(|s|), n, Range(|t|), T), Times(Factorial(|s| - 1), Factorial(|t| - 1)))
  {
    PairCountStep(s, ms, t, mt, n, T);
    PairsUpToStep(|s|, |t|, n, T);
    SumStep(CountPairs(Perms(s), Perms(t), PairAtSome(s[ms], t[mt], n, |t|, T)),
            CountPairs(Perms(s), Perms(t), PairAtSome(s[ms], t[mt], n - 1, |t|, T)),
            CountPairsUpTo(Range(|s|), n, Range(|t|), T),
            CountPairsUpTo(Range(|s|), n - 1, Range(|t|), T),
            Count(Range(|t|), Section<nat, nat>(T, n - 1)),
            Times(Factorial(|s| - 1), Factorial(|t| - 1)));
  }

  /** Over the permutations of distinct s and distinct t, the pairs that put
      s[ms] and t[mt] at positions (i, j) with i < n and T(i, j):
      (|s|-1)! (|t|-1)! for each such pair of positions. */
  lemma {:induction false} PairsCountAtSome<A, B>(s: seq<A>, ms: nat, t: seq<B>, mt: nat, n: nat, T: (nat, nat) -> bool)
    requires Distinct(s) && Distinct(t) && ms < |s| && mt < |t| && n <= |s|
    ensures CountPairs(Perms(s), Perms(t), PairAtSome(s[ms], t[mt], n, |t|, T)) ==
            Times(CountPairsUpTo(Range(|s|), n, Range(|t|), T), Times(Factorial(|s| - 1), Factorial(|t| - 1)))
  {
    if n == 0 {
      CountPairsNone(Perms(s), Perms(t), PairAtSome(s[ms], t[mt], 0, |t|, T));
    } else {
      // the argument is passed through a variable so that the recursive
      // postcondition is stated over the same terms as the step's premise
      var m: nat := n - 1;
      PairsCountAtSome(s, ms, t, mt, m, T);
      PairsCountAtSomeStep(s, ms, t, mt, m + 1, T);
    }
  }
}
