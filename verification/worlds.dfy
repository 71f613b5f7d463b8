/** The set of cities of one problem instance (`World` in
    sim/travelling_salesman.py): a dictionary from city name to city. */
module Worlds {
  import opened Wrappers
  import opened Seqs
  import opened Geometry

  /** `names` is the dictionary's key order, `cities` its contents. */
  datatype WorldData = WorldData(names: seq<string>, cities: map<string, City>)

  /** Every key occurs once in the key order, and each city is filed under
      its own name. */
  predicate WellFormed(w: WorldData) {
    && Distinct(w.names)
    && Items(w.names) == w.cities.Keys
    && forall n :: n in w.cities ==> w.cities[n].name == n
  }

  type World = w: WorldData | WellFormed(w) witness WorldData([], map[])

  /** The names of a list of cities, in order. */
  function Names(cities: seq<City>): (r: seq<string>)
    ensures |r| == |cities|
    ensures forall i :: 0 <= i < |cities| ==> r[i] == cities[i].name
  {
    seq(|cities|, i requires 0 <= i < |cities| => cities[i].name)
  }

  /** `{city.name: city for city in cities}`: a later city replaces an
      earlier one of the same name. */
  function CityMap(cities: seq<City>): (m: map<string, City>)
    ensures m.Keys == Items(Names(cities))
    ensures forall n :: n in m ==> m[n].name == n
    decreases |cities|
  {
    if |cities| == 0 then map[]
    else
      var last := cities[|cities| - 1];
      assert Names(cities) == Names(cities[..|cities| - 1]) + [last.name];
      CityMap(cities[..|cities| - 1])[last.name := last]
  }

  /** No two cities share a name. */
  predicate UniqueNames(cities: seq<City>) {
    forall i, j :: 0 <= i < j < |cities| ==> cities[i].name != cities[j].name
  }

  lemma UniqueNamesIffDistinct(cities: seq<City>)
    ensures UniqueNames(cities) <==> Distinct(Names(cities))
  {
    var names := Names(cities);
    assert forall i, j :: 0 <= i < j < |cities| ==> (names[i] == names[j] <==> cities[i].name == cities[j].name);
  }

  /** Each city is found under its name when no two share one. */
  lemma {:induction false} CityMapHoldsEach(cities: seq<City>)
    requires UniqueNames(cities)
    ensures forall i :: 0 <= i < |cities| ==> CityMap(cities)[cities[i].name] == cities[i]
    decreases |cities|
  {
    if |cities| > 0 {
      var n := |cities| - 1;
      var front, last := cities[..n], cities[n];
      CityMapHoldsEach(front);
      var m := CityMap(cities);
      assert m == CityMap(front)[last.name := last];
      forall i | 0 <= i < n
        ensures m[cities[i].name] == cities[i]
      {
        assert front[i] == cities[i];
      }
    }
  }

  /** `World(cities)`: fails with a `ValueError` exactly when two cities share
      a name; otherwise holds every city under its name, in the given order. */
  function NewWorld(cities: seq<City>): (r: Result<World>)
    ensures r.Ok? <==> Distinct(Names(cities))
    ensures r.Err? ==> r.error.ValueError?
    ensures r.Ok? ==> r.value.names == Names(cities)
    ensures r.Ok? ==> |r.value.cities| == |cities|
    ensures r.Ok? ==> forall i :: 0 <= i < |cities| ==> r.value.cities[cities[i].name] == cities[i]
  {
    var m := CityMap(cities);
    assert |m| == |Items(Names(cities))| by {
      assert |m| == |m.Keys|;
    }
    DistinctIffCard(Names(cities));
    if |cities| != |m| then
      Err(ValueError("Some cities are missing. Check for duplicate names."))
    else
      UniqueNamesIffDistinct(cities);
      CityMapHoldsEach(cities);
      assert WellFormed(WorldData(Names(cities), m));
      var w: World := WorldData(Names(cities), m);
      Ok(w)
  }

  /** `len(world)`: the number of cities, one per name in the key order. */
  function Len(w: World): (n: nat)
    ensures n == |w.names|
  {
    DistinctIffCard(w.names);
    |w.cities|
  }

  /** `World.load_from_json(data)`: a JSON object's keys are distinct, so the
      world always builds, with one city per entry at the given coordinates. */
  function LoadFromJson(data: seq<(string, (real, real))>): (w: World)
    requires Distinct(Firsts(data))
    ensures w.names == Firsts(data)
    ensures Len(w) == |data|
    ensures forall i :: 0 <= i < |data| ==>
      w.cities[data[i].0] == City(data[i].0, data[i].1.0, data[i].1.1)
  {
    var nodes := seq(|data|, i requires 0 <= i < |data| => City(data[i].0, data[i].1.0, data[i].1.1));
    assert Names(nodes) == Firsts(data);
    NewWorld(nodes).value
  }
}
