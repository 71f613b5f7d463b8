/** A closed tour over cities (`Route` in sim/travelling_salesman.py). */
module Routes {
  import opened Wrappers
  import opened Seqs
  import opened Geometry
  import opened Worlds

  /** The cities visited, in order; the salesman returns to the first. */
  datatype Route = Route(path: seq<City>)

  /** `hash((x, y))` of a coordinate pair, which `City.__hash__` returns.
      The value depends on the interpreter, and distinct pairs may share it
      (CPython hashes `-1.0` and `-2.0` alike), so it is a parameter. */
  type CoordHash = (real, real) -> int

  /** What Python's `set(cities)` tells elements apart by. `City.__eq__`
      holds between any two cities, so two cities count as the same element
      exactly when their coordinate hashes agree, whatever their names. A
      `str` is told apart by its text, and never merged with a city. */
  datatype SetKey = CoordKey(hash: int) | NameKey(name: string) | OtherKey

  function KeyOf(v: Value, hash: CoordHash): SetKey {
    match v
    case CityValue(c) => CoordKey(hash(c.x, c.y))
    case StrValue(s) => NameKey(s)
    case OtherValue => OtherKey
  }

  function SetKeys(vs: seq<Value>, hash: CoordHash): (r: seq<SetKey>)
    ensures |r| == |vs|
    ensures forall i :: 0 <= i < |vs| ==> r[i] == KeyOf(vs[i], hash)
  {
    seq(|vs|, i requires 0 <= i < |vs| => KeyOf(vs[i], hash))
  }

  /** An element the constructor's loop accepts: a city, or a name of the
      given world. */
  predicate Resolvable(v: Value, world: Option<World>) {
    v.CityValue? || (v.StrValue? && world.Some? && v.str in world.value.cities)
  }

  /** The city an accepted element stands for. */
  function CityFor(v: Value, world: Option<World>): City
    requires Resolvable(v, world)
  {
    if v.CityValue? then v.city else world.value.cities[v.str]
  }

  /** One pass of the constructor's loop. */
  function ResolveOne(v: Value, world: Option<World>): (r: Result<City>)
    ensures r.Ok? <==> Resolvable(v, world)
    ensures r.Ok? ==> r.value == CityFor(v, world)
  {
    match v
    case CityValue(c) => Ok(c)
    case StrValue(s) =>
      if world.None? then Err(ValueError("world must be provided when cities are a list of str."))
      else if s in world.value.cities then Ok(world.value.cities[s])
      else Err(KeyError(s))
    case OtherValue => Err(TypeError("cities must be of type City or str."))
  }

  /** The constructor's loop: resolves every element in order and stops at
      the first one it cannot resolve. */
  function ResolvePath(vs: seq<Value>, world: Option<World>): (r: Result<seq<City>>)
    ensures r.Ok? <==> forall i :: 0 <= i < |vs| ==> Resolvable(vs[i], world)
    ensures r.Ok? ==> |r.value| == |vs|
    ensures r.Ok? ==> forall i :: 0 <= i < |vs| ==> r.value[i] == CityFor(vs[i], world)
  {
    if |vs| == 0 then Ok([])
    else
      var c :- ResolveOne(vs[0], world);
      var rest :- ResolvePath(vs[1..], world);
      Ok([c] + rest)
  }

  /** The constructor raises the error of the first element it cannot
      resolve. */
  lemma {:induction false} ResolvePathFirstError(vs: seq<Value>, world: Option<World>)
    requires ResolvePath(vs, world).Err?
    ensures exists i :: 0 <= i < |vs| && ResolveOne(vs[i], world) == Err(ResolvePath(vs, world).error)
                        && forall j :: 0 <= j < i ==> Resolvable(vs[j], world)
    decreases |vs|
  {
    var r := ResolvePath(vs, world);
    if ResolveOne(vs[0], world).Ok? {
      var rest := ResolvePath(vs[1..], world);
      ResolvePathFirstError(vs[1..], world);
      var k :| 0 <= k < |vs[1..]| && ResolveOne(vs[1..][k], world) == Err(rest.error)
        && forall j :: 0 <= j < k ==> Resolvable(vs[1..][j], world);
      assert ResolveOne(vs[k + 1], world) == Err(r.error);
      assert forall j :: 0 <= j < k + 1 ==> Resolvable(vs[j], world) by {
        forall j | 0 < j < k + 1
          ensures Resolvable(vs[j], world)
        {
          assert vs[j] == vs[1..][j - 1];
        }
      }
    } else {
      assert ResolveOne(vs[0], world) == Err(r.error);
    }
  }

  /** `Route(cities, world)`: every element must resolve, and no element may
      repeat as Python's `set` tells elements apart. */
  function NewRoute(vs: seq<Value>, world: Option<World>, hash: CoordHash): (r: Result<Route>)
    ensures r.Ok? <==> ResolvePath(vs, world).Ok? && Distinct(SetKeys(vs, hash))
    ensures ResolvePath(vs, world).Ok? && !Distinct(SetKeys(vs, hash)) ==> r.Err? && r.error.ValueError?
    ensures ResolvePath(vs, world).Err? ==> r == Err(ResolvePath(vs, world).error)
    ensures r.Ok? ==> |r.value.path| == |vs|
    ensures r.Ok? ==> forall i :: 0 <= i < |vs| ==> r.value.path[i] == CityFor(vs[i], world)
  {
    var path :- ResolvePath(vs, world);
    DistinctIffCard(SetKeys(vs, hash));
    if |Items(SetKeys(vs, hash))| != |path| then
      Err(ValueError("Invalid route: cities must be visited max one time."))
    else
      Ok(Route(path))
  }

  /** Elements naming cities, as in `['andermatt', 'barcelona']`. */
  function NameValues(names: seq<string>): (r: seq<Value>)
    ensures |r| == |names|
    ensures forall i :: 0 <= i < |names| ==> r[i] == StrValue(names[i])
  {
    seq(|names|, i requires 0 <= i < |names| => StrValue(names[i]))
  }

  /** Elements that are city objects. */
  function CityValues(cities: seq<City>): (r: seq<Value>)
    ensures |r| == |cities|
    ensures forall i :: 0 <= i < |cities| ==> r[i] == CityValue(cities[i])
  {
    seq(|cities|, i requires 0 <= i < |cities| => CityValue(cities[i]))
  }

  /** The coordinate pairs of a list of cities. */
  function Coords(cities: seq<City>): (r: seq<(real, real)>)
    ensures |r| == |cities|
    ensures forall i :: 0 <= i < |cities| ==> r[i] == (cities[i].x, cities[i].y)
  {
    seq(|cities|, i requires 0 <= i < |cities| => (cities[i].x, cities[i].y))
  }

  /** The coordinate hashes of a list of cities. */
  function Hashes(cities: seq<City>, hash: CoordHash): (r: seq<int>)
    ensures |r| == |cities|
    ensures forall i :: 0 <= i < |cities| ==> r[i] == hash(cities[i].x, cities[i].y)
  {
    seq(|cities|, i requires 0 <= i < |cities| => hash(cities[i].x, cities[i].y))
  }

  /** A route from names: without a world it raises `ValueError`; the first
      name missing from the world raises `KeyError`; a repeated name raises
      `ValueError`; otherwise the path is the names looked up in order. */
  lemma RouteFromNames(names: seq<string>, world: Option<World>, hash: CoordHash)
    ensures world.None? && |names| > 0 ==>
      (NewRoute(NameValues(names), world, hash).Err? && NewRoute(NameValues(names), world, hash).error.ValueError?)
    ensures world.Some? && (exists i :: 0 <= i < |names| && names[i] !in world.value.cities) ==>
      exists i :: 0 <= i < |names| && names[i] !in world.value.cities
        && (forall j :: 0 <= j < i ==> names[j] in world.value.cities)
        && NewRoute(NameValues(names), world, hash) == Err(KeyError(names[i]))
    ensures world.Some? ==>
      (NewRoute(NameValues(names), world, hash).Ok? <==>
        (forall i :: 0 <= i < |names| ==> names[i] in world.value.cities) && Distinct(names))
    ensures NewRoute(NameValues(names), world, hash).Ok? ==>
      NewRoute(NameValues(names), world, hash).value.path
        == seq(|names|, i requires 0 <= i < |names| => world.value.cities[names[i]])
  {
    var vs := NameValues(names);
    if world.None? && |names| > 0 {
      assert !Resolvable(vs[0], world);
    }
    if world.Some? {
      if exists i :: 0 <= i < |names| && names[i] !in world.value.cities {
        FirstMissingName(names, world, hash);
      }
      NameKeysDistinct(names, hash);
      NameRouteOk(names, world, hash);
    }
  }

  /** Names are told apart by their text. */
  lemma NameKeysDistinct(names: seq<string>, hash: CoordHash)
    ensures Distinct(SetKeys(NameValues(names), hash)) <==> Distinct(names)
  {
    var keys := SetKeys(NameValues(names), hash);
    forall i, j | 0 <= i < |names| && 0 <= j < |names|
      ensures keys[i] == keys[j] <==> names[i] == names[j]
    {
    }
  }

  lemma FirstMissingName(names: seq<string>, world: Option<World>, hash: CoordHash)
    requires world.Some? && exists i :: 0 <= i < |names| && names[i] !in world.value.cities
    ensures exists i ::
      && 0 <= i < |names| && names[i] !in world.value.cities
      && (forall j :: 0 <= j < i ==> names[j] in world.value.cities)
      && NewRoute(NameValues(names), world, hash) == Err(KeyError(names[i]))
  {
    var vs := NameValues(names);
    var r := ResolvePath(vs, world);
    var i :| 0 <= i < |names| && names[i] !in world.value.cities;
    assert !Resolvable(vs[i], world);
    ResolvePathFirstError(vs, world);
    var k :| 0 <= k < |names| && ResolveOne(vs[k], world) == Err(r.error)
      && forall j :: 0 <= j < k ==> Resolvable(vs[j], world);
    assert names[k] !in world.value.cities;
    assert forall j :: 0 <= j < k ==> names[j] in world.value.cities;
  }

  lemma NameRouteOk(names: seq<string>, world: Option<World>, hash: CoordHash)
    requires world.Some?
    requires Distinct(SetKeys(NameValues(names), hash)) <==> Distinct(names)
    ensures NewRoute(NameValues(names), world, hash).Ok? <==>
      (forall i :: 0 <= i < |names| ==> names[i] in world.value.cities) && Distinct(names)
    ensures NewRoute(NameValues(names), world, hash).Ok? ==>
      NewRoute(NameValues(names), world, hash).value.path
        == seq(|names|, i requires 0 <= i < |names| => world.value.cities[names[i]])
  {
    var vs := NameValues(names);
    assert (forall i :: 0 <= i < |vs| ==> Resolvable(vs[i], world))
      <==> forall i :: 0 <= i < |names| ==> names[i] in world.value.cities;
    if NewRoute(vs, world, hash).Ok? {
      assert NewRoute(vs, world, hash).value.path
        == seq(|names|, i requires 0 <= i < |names| => world.value.cities[names[i]]);
    }
  }

  /** A route from city objects never needs a world and keeps the cities as
      given; it is refused exactly when two of them share a coordinate hash,
      even under different names, while two cities that share only a name
      are told apart by their hashes. */
  lemma RouteFromCities(cities: seq<City>, world: Option<World>, hash: CoordHash)
    ensures NewRoute(CityValues(cities), world, hash).Ok? <==> Distinct(Hashes(cities, hash))
    ensures NewRoute(CityValues(cities), world, hash).Err? ==>
      NewRoute(CityValues(cities), world, hash).error.ValueError?
    ensures NewRoute(CityValues(cities), world, hash).Ok? ==>
      NewRoute(CityValues(cities), world, hash).value.path == cities
  {
    var vs := CityValues(cities);
    assert forall i :: 0 <= i < |vs| ==> Resolvable(vs[i], world);
    assert Distinct(SetKeys(vs, hash)) <==> Distinct(Hashes(cities, hash)) by {
      forall i, j | 0 <= i < |cities| && 0 <= j < |cities|
        ensures SetKeys(vs, hash)[i] == SetKeys(vs, hash)[j] <==> Hashes(cities, hash)[i] == Hashes(cities, hash)[j]
      {
      }
    }
  }

  /** Two cities at one place always share a hash, so a route through both
      is refused whatever the interpreter's hash. */
  lemma SamePlaceRefused(cities: seq<City>, world: Option<World>, hash: CoordHash)
    requires !Distinct(Coords(cities))
    ensures NewRoute(CityValues(cities), world, hash).Err?
  {
    var i, j :| 0 <= i < j < |cities| && Coords(cities)[i] == Coords(cities)[j];
    assert Hashes(cities, hash)[i] == Hashes(cities, hash)[j];
    RouteFromCities(cities, world, hash);
  }

  /** The test suite's repeated visit, and the quirks of `City.__hash__`: a
      city and a differently named city at the same place are one element to
      the constructor; two places under one name are two exactly when their
      hashes differ; and two places whose hashes collide, as `(-1.0, 0.0)`
      and `(-2.0, 0.0)` do in CPython, are one. */
  lemma RouteRepeatExamples(hash: CoordHash)
    ensures NewRoute(CityValues([City("andermatt", 0.0, 1.0), City("barcelona", 0.0, 0.0),
      City("andermatt", 0.0, 1.0)]), None, hash).Err?
    ensures NewRoute(CityValues([City("andermatt", 0.0, 1.0), City("zermatt", 0.0, 1.0)]), None, hash).Err?
    ensures NewRoute(CityValues([City("andermatt", 0.0, 1.0), City("andermatt", 5.0, 1.0)]), None, hash).Ok?
      <==> hash(0.0, 1.0) != hash(5.0, 1.0)
    ensures hash(-1.0, 0.0) == hash(-2.0, 0.0) ==>
      NewRoute(CityValues([City("a", -1.0, 0.0), City("b", -2.0, 0.0)]), None, hash).Err?
  {
    var a, b := City("andermatt", 0.0, 1.0), City("barcelona", 0.0, 0.0);
    RepeatAt([a, b, a], 0, 2, hash);
    RepeatAt([a, City("zermatt", 0.0, 1.0)], 0, 1, hash);
    TwoCities(a, City("andermatt", 5.0, 1.0), hash);
    TwoCities(City("a", -1.0, 0.0), City("b", -2.0, 0.0), hash);
  }

  lemma RepeatAt(cities: seq<City>, i: nat, j: nat, hash: CoordHash)
    requires i < j < |cities| && cities[i].x == cities[j].x && cities[i].y == cities[j].y
    ensures NewRoute(CityValues(cities), None, hash).Err?
  {
    assert Coords(cities)[i] == Coords(cities)[j];
    SamePlaceRefused(cities, None, hash);
  }

  /** A route through two cities is built exactly when their hashes differ. */
  lemma TwoCities(a: City, b: City, hash: CoordHash)
    ensures NewRoute(CityValues([a, b]), None, hash).Ok? <==> hash(a.x, a.y) != hash(b.x, b.y)
  {
    RouteFromCities([a, b], None, hash);
    var hs := Hashes([a, b], hash);
    assert hs[0] == hash(a.x, a.y) && hs[1] == hash(b.x, b.y);
    assert Distinct(hs) <==> hs[0] != hs[1];
  }

  /** `sum(d(a, b) for a, b in zip(xs, ys))` over lists of equal length, added
      left to right. */
  function PairSum(xs: seq<City>, ys: seq<City>, d: (City, City) -> real): real
    requires |xs| == |ys|
    decreases |xs|
  {
    if |xs| == 0 then 0.0
    else PairSum(xs[..|xs| - 1], ys[..|ys| - 1], d) + d(xs[|xs| - 1], ys[|ys| - 1])
  }

  /** The closed-tour length by its definition: the sum of the first `k` edges
      `path[i] -> path[(i + 1) % n]`. */
  function EdgeSum(path: seq<City>, d: (City, City) -> real, k: nat): real
    requires k <= |path|
  {
    if k == 0 then 0.0
    else EdgeSum(path, d, k - 1) + d(path[k - 1], path[k % |path|])
  }

  /** `route.length`: pairs each city with its successor in
      `path[1:] + [path[0]]`; an empty route raises `IndexError` at `path[0]`. */
  function Length(r: Route, d: (City, City) -> real): (res: Result<real>)
    ensures res.Ok? <==> |r.path| > 0
    ensures res.Err? ==> res.error == IndexError
  {
    if |r.path| == 0 then Err(IndexError)
    else Ok(PairSum(r.path, r.path[1..] + [r.path[0]], d))
  }

  lemma {:induction false} PairSumIsEdgeSum(path: seq<City>, d: (City, City) -> real, k: nat)
    requires 0 < |path| && k <= |path|
    ensures PairSum(path[..k], (path[1..] + [path[0]])[..k], d) == EdgeSum(path, d, k)
  {
    if k > 0 {
      var rot := path[1..] + [path[0]];
      var xs, ys := path[..k], rot[..k];
      assert PairSum(xs, ys, d) == PairSum(xs[..k - 1], ys[..k - 1], d) + d(xs[k - 1], ys[k - 1]);
      assert xs[..k - 1] == path[..k - 1] && ys[..k - 1] == rot[..k - 1];
      Successor(path, k);
      PairSumIsEdgeSum(path, d, k - 1);
    }
  }

  /** Position `k - 1` of the rotated path holds the successor
      `path[k % n]` of `path[k - 1]` on the closed tour. */
  lemma Successor(path: seq<City>, k: nat)
    requires 0 < k <= |path|
    ensures (path[1..] + [path[0]])[k - 1] == path[k % |path|]
  {
    if k < |path| {
      assert k % |path| == k;
    } else {
      assert k % |path| == 0;
    }
  }

  /** The length of a non-empty route is the sum of exactly `len(path)`
      edges, the closing edge back to the first city included. */
  lemma LengthIsCyclicEdgeSum(r: Route, d: (City, City) -> real)
    requires |r.path| > 0
    ensures Length(r, d) == Ok(EdgeSum(r.path, d, |r.path|))
  {
    var rot := r.path[1..] + [r.path[0]];
    PairSumIsEdgeSum(r.path, d, |r.path|);
    assert r.path[..|r.path|] == r.path && rot[..|r.path|] == rot;
  }

  lemma {:induction false} EdgeSumNonNegative(path: seq<City>, d: (City, City) -> real, k: nat)
    requires IsEuclidean(d) && k <= |path|
    ensures EdgeSum(path, d, k) >= 0.0
  {
    if k > 0 {
      assert EuclideanAt(d, path[k - 1], path[k % |path|]);
      EdgeSumNonNegative(path, d, k - 1);
    }
  }

  /** Route lengths are never negative. */
  lemma LengthNonNegative(r: Route, d: (City, City) -> real)
    requires IsEuclidean(d) && |r.path| > 0
    ensures Length(r, d).Ok? && Length(r, d).value >= 0.0
  {
    LengthIsCyclicEdgeSum(r, d);
    EdgeSumNonNegative(r.path, d, |r.path|);
  }

  /** A one-city route has length 0; a two-city route goes there and back;
      an empty route fails. */
  lemma ShortRouteLengths(a: City, b: City, d: (City, City) -> real)
    requires IsEuclidean(d)
    ensures Length(Route([a]), d) == Ok(0.0)
    ensures Length(Route([a, b]), d) == Ok(2.0 * d(a, b))
    ensures Length(Route([]), d) == Err(IndexError)
  {
    DistSymmetricAndZero(d, a, b);
    LengthIsCyclicEdgeSum(Route([a]), d);
    assert EdgeSum([a], d, 1) == EdgeSum([a], d, 0) + d(a, a);
    LengthIsCyclicEdgeSum(Route([a, b]), d);
    assert EdgeSum([a, b], d, 1) == d(a, b);
    assert EdgeSum([a, b], d, 2) == d(a, b) + d(b, a);
  }

  /** The test suite's three-city route over the unit square: two unit edges
      and one diagonal. */
  lemma ThreeCityRouteLength(d: (City, City) -> real)
    requires IsEuclidean(d)
    ensures var b, c := City("barcelona", 0.0, 0.0), City("dijon", 1.0, 1.0);
      && Length(Route([City("andermatt", 0.0, 1.0), b, c]), d) == Ok(2.0 + d(b, c))
      && d(b, c) * d(b, c) == 2.0
  {
    var a, b, c := City("andermatt", 0.0, 1.0), City("barcelona", 0.0, 0.0), City("dijon", 1.0, 1.0);
    var path := [a, b, c];
    LengthIsCyclicEdgeSum(Route(path), d);
    assert EdgeSum(path, d, 1) == d(a, b);
    assert EdgeSum(path, d, 2) == d(a, b) + d(b, c);
    assert EdgeSum(path, d, 3) == d(a, b) + d(b, c) + d(c, a);
    AxisNeighboursDist(d, a, b);
    AxisNeighboursDist(d, c, a);
    DiagonalNeighboursDist(d, b, c);
  }
}
