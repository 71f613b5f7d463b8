/** The problem wrapper (`TSP` in sim/travelling_salesman.py): binds a world
    and scores candidate tours over it. */
module Problem {
  import opened Wrappers
  import opened Seqs
  import opened Geometry
  import opened Worlds
  import opened Routes

  /** What the configuration dictionary holds under `'world'`. */
  datatype WorldSetting = WorldObject(world: World) | Text(text: string) | OtherSetting | Unset

  /** The configuration dictionary: `'world'` and `'n_cities'`. */
  datatype Config = Config(world: WorldSetting, nCities: Option<int>)

  /** Where the world of a `TSP` comes from. */
  datatype WorldSource = Given(world: World) | Preset(path: string) | Generated(count: int)

  const Burma14Path: string := "data/burma14.tsp"
  const DefaultCityCount: int := 100

  /** `TSP.generate_world`, the choice only: a `World` object wins, then the
      name `'burma14'`, then a random world of `n_cities` cities. */
  function GenerateWorld(config: Config): (src: WorldSource)
    ensures config.world.WorldObject? ==> src == Given(config.world.world)
    ensures config.world == Text("burma14") ==> src == Preset(Burma14Path)
    ensures src.Generated? <==> !config.world.WorldObject? && config.world != Text("burma14")
    ensures src.Generated? && config.nCities.Some? ==> src.count == config.nCities.value
    ensures src.Generated? && config.nCities.None? ==> src.count == DefaultCityCount
  {
    if config.world.WorldObject? then Given(config.world.world)
    else if config.world == Text("burma14") then Preset(Burma14Path)
    else Generated(if config.nCities.Some? then config.nCities.value else DefaultCityCount)
  }

  /** A problem instance. */
  datatype TSP = TSP(world: World)

  /** `TSP(config)`. Loading the preset file and drawing a random world are
      passed in as functions. */
  function NewTSP(config: Config, loadPreset: string -> World, generate: int -> World): (t: TSP)
    ensures config.world.WorldObject? ==> t.world == config.world.world
    ensures config.world == Text("burma14") ==> t.world == loadPreset(Burma14Path)
    ensures GenerateWorld(config).Generated? ==> t.world == generate(GenerateWorld(config).count)
  {
    match GenerateWorld(config)
    case Given(w) => TSP(w)
    case Preset(path) => TSP(loadPreset(path))
    case Generated(n) => TSP(generate(n))
  }

  /** `tsp.n_cities`. */
  function NCities(t: TSP): (n: nat)
    ensures n == |t.world.names|
  {
    Len(t.world)
  }

  /** What `parse_route` and `solve` may be handed: a `Route`, a `list`, or
      something else. */
  datatype Candidate = RouteObject(route: Route) | ListOf(items: seq<Value>) | OtherCandidate

  /** `TSP.parse_route`: a route is taken as it is, with no check against the
      world; a list becomes a route over this problem's world; anything else
      is a `TypeError`. */
  function ParseRoute(t: TSP, c: Candidate, hash: CoordHash): (r: Result<Route>)
    ensures c.RouteObject? ==> r == Ok(c.route)
    ensures c.ListOf? ==> r == NewRoute(c.items, Some(t.world), hash)
    ensures c.OtherCandidate? ==> r.Err? && r.error.TypeError?
  {
    match c
    case RouteObject(route) => Ok(route)
    case ListOf(items) => NewRoute(items, Some(t.world), hash)
    case OtherCandidate => Err(TypeError("Unrecognized type for route"))
  }

  /** `TSP.solve`: the length of the candidate, refused with a `ValueError`
      unless it visits as many cities as the world has. */
  function Solve(t: TSP, c: Candidate, d: (City, City) -> real, hash: CoordHash): (r: Result<real>)
    ensures ParseRoute(t, c, hash).Err? ==> r == Err(ParseRoute(t, c, hash).error)
    ensures ParseRoute(t, c, hash).Ok? && |ParseRoute(t, c, hash).value.path| != NCities(t) ==>
      r.Err? && r.error.ValueError?
    ensures r.Ok? ==> ParseRoute(t, c, hash).Ok? && |ParseRoute(t, c, hash).value.path| == NCities(t) > 0
    ensures r.Ok? ==> r.value == EdgeSum(ParseRoute(t, c, hash).value.path, d, NCities(t))
  {
    var route :- ParseRoute(t, c, hash);
    if |route.path| != Len(t.world) then
      Err(ValueError("route should visit all cities."))
    else
      if |route.path| > 0 then LengthIsCyclicEdgeSum(route, d); Length(route, d)
      else Length(route, d)
  }

  /** A list of names is accepted exactly when it is a non-empty permutation
      of the world's names, and then scores the closed tour through the named
      cities. */
  lemma SolveNamesIff(t: TSP, names: seq<string>, d: (City, City) -> real, hash: CoordHash)
    ensures Solve(t, ListOf(NameValues(names)), d, hash).Ok? <==>
      |names| > 0 && IsPermutationOf(names, t.world.names)
    ensures Solve(t, ListOf(NameValues(names)), d, hash).Ok? ==>
      && (forall i :: 0 <= i < |names| ==> names[i] in t.world.cities)
      && Solve(t, ListOf(NameValues(names)), d, hash).value ==
        EdgeSum(seq(|names|, i requires 0 <= i < |names| => t.world.cities[names[i]]), d, |names|)
  {
    var w := t.world;
    RouteFromNames(names, Some(w), hash);
    var r := NewRoute(NameValues(names), Some(w), hash);
    if Solve(t, ListOf(NameValues(names)), d, hash).Ok? {
      assert forall x :: x in names ==> x in w.names by {
        forall x | x in names
          ensures x in w.names
        {
          assert x in w.cities;
          assert x in Items(w.names);
        }
      }
      FullDistinctIsPermutation(names, w.names);
    }
    if |names| > 0 && IsPermutationOf(names, w.names) {
      PermutationFacts(names, w.names);
      forall i | 0 <= i < |names|
        ensures names[i] in w.cities
      {
        assert names[i] in Items(names);
      }
    }
  }

  /** A route object is scored without any check that its cities belong to
      the world: only the count is compared. */
  lemma SolveRouteIgnoresMembership(t: TSP, route: Route, d: (City, City) -> real, hash: CoordHash)
    requires |route.path| == NCities(t) > 0
    ensures Solve(t, RouteObject(route), d, hash) == Length(route, d)
  {
  }

  /** A list of city objects is accepted exactly when it has as many cities
      as the world and no two share a coordinate hash; names are never looked
      up. */
  lemma SolveCitiesIff(t: TSP, cities: seq<City>, d: (City, City) -> real, hash: CoordHash)
    ensures Solve(t, ListOf(CityValues(cities)), d, hash).Ok? <==>
      |cities| == NCities(t) > 0 && Distinct(Hashes(cities, hash))
  {
    RouteFromCities(cities, Some(t.world), hash);
  }

  /** Four distinctly named cities at the corners `(0, 1)`, `(0, 0)`,
      `(1, 0)` and `(1, 1)` of the unit square, in the order of the test
      suite's andermatt, barcelona, como and dijon. */
  predicate IsUnitSquare(cities: seq<City>) {
    && |cities| == 4
    && (cities[0].x, cities[0].y) == (0.0, 1.0)
    && (cities[1].x, cities[1].y) == (0.0, 0.0)
    && (cities[2].x, cities[2].y) == (1.0, 0.0)
    && (cities[3].x, cities[3].y) == (1.0, 1.0)
    && Distinct(Names(cities))
  }

  /** The test suite's instance. */
  lemma TestSquare()
    ensures IsUnitSquare([City("andermatt", 0.0, 1.0), City("barcelona", 0.0, 0.0),
                          City("como", 1.0, 0.0), City("dijon", 1.0, 1.0)])
  {
    var cities := [City("andermatt", 0.0, 1.0), City("barcelona", 0.0, 0.0),
                   City("como", 1.0, 0.0), City("dijon", 1.0, 1.0)];
    assert Names(cities) == ["andermatt", "barcelona", "como", "dijon"];
  }

  lemma EdgeSumOfFour(path: seq<City>, d: (City, City) -> real)
    requires |path| == 4
    ensures EdgeSum(path, d, 4) == d(path[0], path[1]) + d(path[1], path[2])
      + d(path[2], path[3]) + d(path[3], path[0])
  {
    assert EdgeSum(path, d, 1) == d(path[0], path[1]);
    assert EdgeSum(path, d, 2) == EdgeSum(path, d, 1) + d(path[1], path[2]);
    assert EdgeSum(path, d, 3) == EdgeSum(path, d, 2) + d(path[2], path[3]);
  }

  /** Around the square, corner to corner, is 4. */
  lemma SquarePerimeter(cities: seq<City>, d: (City, City) -> real)
    requires IsEuclidean(d) && IsUnitSquare(cities)
    ensures EdgeSum(cities, d, 4) == 4.0
  {
    EdgeSumOfFour(cities, d);
    AxisNeighboursDist(d, cities[0], cities[1]);
    AxisNeighboursDist(d, cities[1], cities[2]);
    AxisNeighboursDist(d, cities[2], cities[3]);
    AxisNeighboursDist(d, cities[3], cities[0]);
  }

  /** The unit square scored from its names: the perimeter 4. */
  lemma UnitSquareByNames(cities: seq<City>, d: (City, City) -> real, hash: CoordHash)
    requires IsEuclidean(d) && IsUnitSquare(cities)
    ensures NewWorld(cities).Ok?
    ensures Solve(TSP(NewWorld(cities).value), ListOf(NameValues(Names(cities))), d, hash) == Ok(4.0)
  {
    var w := NewWorld(cities).value;
    var names := Names(cities);
    SolveNamesIff(TSP(w), names, d, hash);
    LookedUpInOrder(cities);
    SquarePerimeter(cities, d);
  }

  /** Looking the names of a world's cities up in it gives the cities back,
      in order. */
  lemma LookedUpInOrder(cities: seq<City>)
    requires Distinct(Names(cities))
    ensures var w, names := NewWorld(cities).value, Names(cities);
      && (forall i :: 0 <= i < |names| ==> names[i] in w.cities)
      && seq(|names|, i requires 0 <= i < |names| => w.cities[names[i]]) == cities
  {
    var w, names := NewWorld(cities).value, Names(cities);
    assert forall i :: 0 <= i < |names| ==> names[i] == cities[i].name;
  }

  /** The same square scored from its city objects, under a hash that tells
      the four corners apart. */
  lemma UnitSquareByCities(cities: seq<City>, d: (City, City) -> real, hash: CoordHash)
    requires IsEuclidean(d) && IsUnitSquare(cities) && Distinct(Hashes(cities, hash))
    ensures NewWorld(cities).Ok?
    ensures Solve(TSP(NewWorld(cities).value), ListOf(CityValues(cities)), d, hash) == Ok(4.0)
  {
    var w := NewWorld(cities).value;
    RouteFromCities(cities, Some(w), hash);
    SquarePerimeter(cities, d);
  }

  /** A list of city objects of the wrong length is refused with a
      `ValueError`, whether or not the route constructor accepts it. */
  lemma CountMismatchRefused(t: TSP, cities: seq<City>, d: (City, City) -> real, hash: CoordHash)
    requires |cities| != NCities(t)
    ensures var r := Solve(t, ListOf(CityValues(cities)), d, hash);
      r.Err? && r.error.ValueError?
  {
    RouteFromCities(cities, Some(t.world), hash);
  }

  /** A one-city list over the square is refused for not visiting every
      city. */
  lemma PartialRouteRefused(cities: seq<City>, d: (City, City) -> real, hash: CoordHash)
    requires IsUnitSquare(cities)
    ensures NewWorld(cities).Ok?
    ensures var r := Solve(TSP(NewWorld(cities).value), ListOf(CityValues([cities[0]])), d, hash);
      r.Err? && r.error.ValueError?
  {
    var t := TSP(NewWorld(cities).value);
    assert NCities(t) == 4;
    CountMismatchRefused(t, [cities[0]], d, hash);
  }
}
