/** The closed domain of the Picasso tower puzzle: five floors, five colours,
    five animals, the per-floor triple and the attribute a hint refers to. */
module Tower {

  /** A floor of the tower, ranked 1 (bottom) to 5 (top). */
  type Floor = f: int | 1 <= f <= 5 witness 1

  datatype Color = Red | Green | Blue | Yellow | Orange

  datatype Animal = Frog | Rabbit | Grasshopper | Bird | Chicken

  /** One floor of a (full or partial) assignment. */
  datatype FloorAssignment = FloorAssignment(floor: Floor, animal: Animal, color: Color)

  /** The value a hint refers to: a floor, a colour or an animal. */
  datatype Attr = F(f: Floor) | C(c: Color) | A(a: Animal)

  datatype Option<T> = None | Some(value: T)

  /** The floors, animals and colours in their declaration order. The
      animal and colour lists are written as concatenations: a single display
      would be a literal, and the verifier would try to evaluate functions of
      it (all 14400 towers) instead of reasoning about them. */
  const AllFloors: seq<Floor> := [1, 2, 3, 4, 5]
  const AllAnimals: seq<Animal> := [Frog, Rabbit] + [Grasshopper, Bird, Chicken]
  const AllColors: seq<Color> := [Red, Green] + [Blue, Yellow, Orange]

  const AnimalSet: set<Animal> := {Frog, Rabbit, Grasshopper, Bird, Chicken}
  const ColorSet: set<Color> := {Red, Green, Blue, Yellow, Orange}

  /** Whether a floor assignment carries the given attribute value. */
  predicate Matches(x: FloorAssignment, attr: Attr) {
    match attr
    case F(f) => x.floor == f
    case C(c) => x.color == c
    case A(a) => x.animal == a
  }

  /** Exactly one of the three fields decides a match, and the attribute's
      kind says which. */
  lemma MatchesByKind(x: FloorAssignment, attr: Attr)
    ensures attr.F? ==> (Matches(x, attr) <==> x.floor == attr.f)
    ensures attr.C? ==> (Matches(x, attr) <==> x.color == attr.c)
    ensures attr.A? ==> (Matches(x, attr) <==> x.animal == attr.a)
    ensures Matches(x, attr) <==>
              || (attr == F(x.floor))
              || (attr == C(x.color))
              || (attr == A(x.animal))
  {
  }

  /** list(Animal) holds every animal exactly once. */
  lemma AnimalsComplete()
    ensures |AllAnimals| == 5 && |AnimalSet| == 5
    ensures forall a: Animal :: a in AllAnimals && a in AnimalSet
    ensures forall i, j :: 0 <= i < j < 5 ==> AllAnimals[i] != AllAnimals[j]
  {
    assert AllAnimals == [Frog, Rabbit, Grasshopper, Bird, Chicken];
    forall a: Animal ensures a in AllAnimals && a in AnimalSet {
      match a
      case Frog => assert AllAnimals[0] == a;
      case Rabbit => assert AllAnimals[1] == a;
      case Grasshopper => assert AllAnimals[2] == a;
      case Bird => assert AllAnimals[3] == a;
      case Chicken => assert AllAnimals[4] == a;
    }
  }

  /** list(Color) holds every colour exactly once. */
  lemma ColorsComplete()
    ensures |AllColors| == 5 && |ColorSet| == 5
    ensures forall c: Color :: c in AllColors && c in ColorSet
    ensures forall i, j :: 0 <= i < j < 5 ==> AllColors[i] != AllColors[j]
  {
    assert AllColors == [Red, Green, Blue, Yellow, Orange];
    forall c: Color ensures c in AllColors && c in ColorSet {
      match c
      case Red => assert AllColors[0] == c;
      case Green => assert AllColors[1] == c;
      case Blue => assert AllColors[2] == c;
      case Yellow => assert AllColors[3] == c;
      case Orange => assert AllColors[4] == c;
    }
  }

  /** list(Floor) holds every floor, in ascending order. */
  lemma FloorsComplete()
    ensures forall i :: 0 <= i < |AllFloors| ==> AllFloors[i] == i + 1
    ensures forall f: Floor :: f in AllFloors
  {
    forall f: Floor ensures f in AllFloors {
      assert AllFloors[f - 1] == f;
    }
  }

  /** The animal and colour sets hold five values each. */
  lemma SetSizes()
    ensures |AnimalSet| == 5 && |ColorSet| == 5
  {
  }

  /** Every animal and every colour is in its set. */
  lemma Listed(a: Animal, c: Color)
    ensures a in AnimalSet && c in ColorSet
  {
    match a
    case Frog =>
    case Rabbit =>
    case Grasshopper =>
    case Bird =>
    case Chicken =>
  }
}
