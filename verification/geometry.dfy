/** Cities on a plane and the distance between them
    (`City` and `City.dist` in sim/travelling_salesman.py). */
module Geometry {
  import opened Wrappers

  /** A named point; the Python floats are modelled as reals. */
  datatype City = City(name: string, x: real, y: real)

  /** A dynamically typed Python value as it reaches `dist` or the `Route`
      constructor: a `City`, a `str`, or anything else. */
  datatype Value = CityValue(city: City) | StrValue(str: string) | OtherValue

  /** The square of the Euclidean distance between two cities. */
  function SqDist(a: City, b: City): real {
    (a.x - b.x) * (a.x - b.x) + (a.y - b.y) * (a.y - b.y)
  }

  /** `d` is the Euclidean distance: the non-negative square root of
      `SqDist`. The square root itself is not computed by the model; every
      length is stated in terms of such a `d`. */
  ghost predicate IsEuclidean(d: (City, City) -> real) {
    forall a: City, b: City :: EuclideanAt(d, a, b)
  }

  /** `d(a, b)` is the non-negative square root of `SqDist(a, b)`. */
  ghost predicate EuclideanAt(d: (City, City) -> real, a: City, b: City) {
    0.0 <= d(a, b) && d(a, b) * d(a, b) == SqDist(a, b)
  }

  /** `self.dist(other)`: refuses a non-city argument with a `ValueError`. */
  function Dist(self: City, other: Value, d: (City, City) -> real): (r: Result<real>)
    ensures r.Ok? <==> other.CityValue?
    ensures r.Err? ==> r.error.ValueError?
    ensures IsEuclidean(d) && r.Ok? ==>
      0.0 <= r.value && r.value * r.value == SqDist(self, other.city)
  {
    match other
    case CityValue(c) =>
      assert IsEuclidean(d) ==> EuclideanAt(d, self, c);
      Ok(d(self, c))
    case _ => Err(ValueError("Distance can only be computed between cities."))
  }

  /** Squaring is strictly increasing on the non-negative reals. */
  lemma SquareStrictlyIncreasing(p: real, q: real)
    ensures 0.0 <= p < q ==> p * p < q * q
  {
    if 0.0 <= p < q {
      var pp, pq, qq := p * p, p * q, q * q;
      assert pp <= pq;
      assert pq < qq;
    }
  }

  /** Non-negative reals with equal squares are equal. */
  lemma SquareRootUnique(p: real, q: real)
    requires 0.0 <= p && 0.0 <= q && p * p == q * q
    ensures p == q
  {
    SquareStrictlyIncreasing(p, q);
    SquareStrictlyIncreasing(q, p);
  }

  /** The distance is symmetric and zero from a city to itself. */
  lemma DistSymmetricAndZero(d: (City, City) -> real, a: City, b: City)
    requires IsEuclidean(d)
    ensures d(a, b) == d(b, a)
    ensures d(a, a) == 0.0
  {
    assert EuclideanAt(d, a, b) && EuclideanAt(d, b, a) && EuclideanAt(d, a, a);
    assert SqDist(a, b) == SqDist(b, a);
    SquareRootUnique(d(a, b), d(b, a));
    assert d(a, a) * d(a, a) == 0.0 * 0.0;
    SquareRootUnique(d(a, a), 0.0);
  }

  /** Two cities one unit apart along an axis. */
  predicate AxisNeighbours(a: City, b: City) {
    || (a.x == b.x && (a.y - b.y == 1.0 || b.y - a.y == 1.0))
    || (a.y == b.y && (a.x - b.x == 1.0 || b.x - a.x == 1.0))
  }

  /** Two cities at opposite corners of a unit square. */
  predicate DiagonalNeighbours(a: City, b: City) {
    && (a.x - b.x == 1.0 || b.x - a.x == 1.0)
    && (a.y - b.y == 1.0 || b.y - a.y == 1.0)
  }

  lemma AxisNeighboursSqDist(a: City, b: City)
    requires AxisNeighbours(a, b)
    ensures SqDist(a, b) == 1.0
  {
    var dx, dy := a.x - b.x, a.y - b.y;
    assert dx * dx + dy * dy == 1.0;
  }

  lemma DiagonalNeighboursSqDist(a: City, b: City)
    requires DiagonalNeighbours(a, b)
    ensures SqDist(a, b) == 2.0
  {
    var dx, dy := a.x - b.x, a.y - b.y;
    assert dx * dx == 1.0 && dy * dy == 1.0;
  }

  /** Axis neighbours are at distance 1. */
  lemma AxisNeighboursDist(d: (City, City) -> real, a: City, b: City)
    requires IsEuclidean(d) && AxisNeighbours(a, b)
    ensures d(a, b) == 1.0
  {
    assert EuclideanAt(d, a, b);
    AxisNeighboursSqDist(a, b);
    SquareRootUnique(d(a, b), 1.0);
  }

  /** Diagonal neighbours are at distance the square root of 2. */
  lemma DiagonalNeighboursDist(d: (City, City) -> real, a: City, b: City)
    requires IsEuclidean(d) && DiagonalNeighbours(a, b)
    ensures 0.0 <= d(a, b) && d(a, b) * d(a, b) == 2.0
  {
    assert EuclideanAt(d, a, b);
    DiagonalNeighboursSqDist(a, b);
  }

  /** The distances the test suite expects on the unit square: 1 between
      axis neighbours, the square root of 2 across the diagonal, and a
      `ValueError` for a non-city argument. */
  lemma DistTestCases(d: (City, City) -> real)
    requires IsEuclidean(d)
    ensures Dist(City("andermatt", 0.0, 1.0), CityValue(City("barcelona", 0.0, 0.0)), d) == Ok(1.0)
    ensures Dist(City("andermatt", 0.0, 1.0), CityValue(City("dijon", 1.0, 1.0)), d) == Ok(1.0)
    ensures var r := Dist(City("andermatt", 0.0, 1.0), CityValue(City("como", 1.0, 0.0)), d);
      r.Ok? && 0.0 <= r.value && r.value * r.value == 2.0
    ensures var r := Dist(City("barcelona", 0.0, 0.0), CityValue(City("dijon", 1.0, 1.0)), d);
      r.Ok? && 0.0 <= r.value && r.value * r.value == 2.0
    ensures Dist(City("", 0.0, 0.0), OtherValue, d).Err?
  {
    var andermatt, barcelona := City("andermatt", 0.0, 1.0), City("barcelona", 0.0, 0.0);
    var como, dijon := City("como", 1.0, 0.0), City("dijon", 1.0, 1.0);
    AxisNeighboursDist(d, andermatt, barcelona);
    AxisNeighboursDist(d, andermatt, dijon);
    DiagonalNeighboursDist(d, andermatt, como);
    DiagonalNeighboursDist(d, barcelona, dijon);
  }
}
