/**
 * Geographic statistics (src/geo/compute-geo-stats.ts): every run is geocoded by its
 * start on one shared cache, the runs that get a place are grouped by country and by
 * city, and each route's sampled points are geocoded to list the cities it passes.
 *
 * Reading the activity files, loading and saving the cache and writing the output files
 * are left to the caller: the activities come in as a sequence, the cache as a
 * `GeoCache`, and the output is returned. The point geocoder the source imports as
 * `geocodeCoordinate` is a parameter `locate`.
 */
module GeoStats {
  import opened Util
  import opened Activities
  import opened Sorting
  import opened Geocoder
  import Polyline
  import Stats

  // ------------------------------------------------------------ geocoding the starts

  /** The answers of geocoding the runs in order on one evolving cache, and the cache after. */
  function GeocodeAll(entries: map<string, GeoLocation>, runs: seq<Activity>,
                      nearest: (real, real) -> Option<Place>, text: real -> string)
    : (r: (seq<Option<GeoLocation>>, map<string, GeoLocation>))
    ensures |r.0| == |runs|
  {
    if runs == [] then ([], entries)
    else
      var before := GeocodeAll(entries, runs[..|runs| - 1], nearest, text);
      var step := GeocodeStep(before.1, runs[|runs| - 1], nearest, text);
      (before.0 + [step.location], step.entries)
  }

  /**
   * Geocoding every run keeps every entry the cache had, and from a cache of accepted
   * places it returns only accepted places and leaves such a cache.
   */
  lemma {:induction false} GeocodeAllKeepsCache(entries: map<string, GeoLocation>, runs: seq<Activity>,
                                                nearest: (real, real) -> Option<Place>, text: real -> string)
    ensures var r := GeocodeAll(entries, runs, nearest, text);
      forall k :: k in entries ==> k in r.1 && r.1[k] == entries[k]
    ensures var r := GeocodeAll(entries, runs, nearest, text);
      ValidCache(entries) ==> ValidCache(r.1) && forall i :: 0 <= i < |r.0| && r.0[i].Some? ==> ValidLocation(r.0[i].value)
  {
    if runs != [] {
      var init := runs[..|runs| - 1];
      var before := GeocodeAll(entries, init, nearest, text);
      GeocodeAllKeepsCache(entries, init, nearest, text);
      if ValidCache(entries) {
        GeocodeKeepsCacheValid(before.1, runs[|runs| - 1], nearest, text);
      }
    }
  }

  /** A run together with the place its start was found in. */
  datatype Located = Located(activity: Activity, location: GeoLocation)

  /** The runs that got a place, in order: the loop skips the others. */
  function Successes(runs: seq<Activity>, locs: seq<Option<GeoLocation>>): (r: seq<Located>)
    requires |runs| == |locs|
    ensures |r| <= |runs|
    ensures forall l :: l in r ==> l.activity in runs && Some(l.location) in locs
  {
    if runs == [] then []
    else
      var n := |runs| - 1;
      var init := Successes(runs[..n], locs[..n]);
      assert forall l :: l in init ==> l.activity in runs && Some(l.location) in locs by {
        assert forall a :: a in runs[..n] ==> a in runs;
        assert forall o :: o in locs[..n] ==> o in locs;
      }
      if locs[n].Some? then init + [Located(runs[n], locs[n].value)] else init
  }

  /** Every run that got a place is among the located runs. */
  lemma {:induction false} SuccessesKeepFound(runs: seq<Activity>, locs: seq<Option<GeoLocation>>)
    requires |runs| == |locs|
    ensures forall i :: 0 <= i < |runs| && locs[i].Some? ==> Located(runs[i], locs[i].value) in Successes(runs, locs)
  {
    if runs != [] {
      var n := |runs| - 1;
      var init := Successes(runs[..n], locs[..n]);
      SuccessesKeepFound(runs[..n], locs[..n]);
      assert forall l :: l in init ==> l in Successes(runs, locs);
      forall i | 0 <= i < n && locs[i].Some? ensures Located(runs[i], locs[i].value) in Successes(runs, locs) {
        assert runs[..n][i] == runs[i] && locs[..n][i] == locs[i];
      }
    }
  }

  // ------------------------------------------------------------ grouping

  /** The located runs whose key is `k`, in order. */
  function With(ls: seq<Located>, key: Located -> string, k: string): (r: seq<Located>)
    ensures |r| <= |ls|
    ensures forall l :: l in r <==> l in ls && key(l) == k
  {
    if ls == [] then []
    else
      var init := ls[..|ls| - 1];
      var l := ls[|ls| - 1];
      assert forall x :: x in ls <==> x in init || x == l;
      if key(l) == k then With(init, key, k) + [l] else With(init, key, k)
  }

  /** No located run has the key: the group is empty. */
  lemma {:induction false} WithNone(ls: seq<Located>, key: Located -> string, k: string)
    requires forall l :: l in ls ==> key(l) != k
    ensures With(ls, key, k) == []
  {
    if ls != [] {
      var init := ls[..|ls| - 1];
      assert forall l :: l in init ==> l in ls;
      WithNone(init, key, k);
    }
  }

  /** The keys in the order they are first met, which is the order a Map iterates in. */
  function KeysOf(ls: seq<Located>, key: Located -> string): (ks: seq<string>)
    ensures forall k :: k in ks <==> exists l :: l in ls && key(l) == k
    ensures Distinct(ks)
  {
    if ls == [] then []
    else
      var init := ls[..|ls| - 1];
      var l := ls[|ls| - 1];
      assert forall x :: x in ls <==> x in init || x == l;
      var ks := KeysOf(init, key);
      if key(l) in ks then ks else ks + [key(l)]
  }

  /** The number of located runs of each key. */
  function SizeOf(ls: seq<Located>, key: Located -> string): string -> int {
    k => |With(ls, key, k)|
  }

  lemma {:induction false} SumOfSame(ks: seq<string>, f: string -> int, g: string -> int)
    requires forall k :: k in ks ==> f(k) == g(k)
    ensures SumOf(ks, f) == SumOf(ks, g)
  {
    if ks != [] {
      SumOfSame(ks[..|ks| - 1], f, g);
    }
  }

  /** Raising one key's count by one raises the sum over distinct keys by one. */
  lemma {:induction false} SumOfBump(ks: seq<string>, f: string -> int, g: string -> int, k: string)
    requires Distinct(ks) && k in ks
    requires forall x :: x in ks && x != k ==> g(x) == f(x)
    requires g(k) == f(k) + 1
    ensures SumOf(ks, g) == SumOf(ks, f) + 1
  {
    var init := ks[..|ks| - 1];
    var last := ks[|ks| - 1];
    assert forall x :: x in init ==> x in ks;
    if last == k {
      assert k !in init by {
        forall i | 0 <= i < |init| ensures init[i] != k {
          assert init[i] == ks[i];
        }
      }
      SumOfSame(init, f, g);
    } else {
      assert k in init by {
        var i :| 0 <= i < |ks| && ks[i] == k;
        assert i < |init| && init[i] == k;
      }
      SumOfBump(init, f, g, k);
    }
  }

  /** Summed over the keys, the group sizes count every located run once. */
  lemma {:induction false} GroupSizesSum(ls: seq<Located>, key: Located -> string)
    ensures SumOf(KeysOf(ls, key), SizeOf(ls, key)) == |ls|
  {
    if ls != [] {
      var init := ls[..|ls| - 1];
      var l := ls[|ls| - 1];
      var k := key(l);
      var before := KeysOf(init, key);
      GroupSizesSum(init, key);
      assert forall x :: x != k ==> SizeOf(ls, key)(x) == SizeOf(init, key)(x);
      assert SizeOf(ls, key)(k) == SizeOf(init, key)(k) + 1;
      if k in before {
        SumOfBump(before, SizeOf(init, key), SizeOf(ls, key), k);
      } else {
        WithNone(init, key, k);
        SumOfSame(before, SizeOf(init, key), SizeOf(ls, key));
        assert (before + [k])[..|before|] == before;
      }
    }
  }

  /** Metres run by the located runs: the sum of their distances. */
  function DistanceM(ls: seq<Located>): real {
    if ls == [] then 0.0 else DistanceM(ls[..|ls| - 1]) + ls[|ls| - 1].activity.distance
  }

  /** The city names met, each once, in the order met: the Set each country keeps. */
  function CityNames(ls: seq<Located>): (names: seq<string>)
    ensures Distinct(names)
    ensures forall c :: c in names <==> exists l :: l in ls && l.location.cityName == c
  {
    if ls == [] then []
    else
      var init := ls[..|ls| - 1];
      var l := ls[|ls| - 1];
      assert forall x :: x in ls <==> x in init || x == l;
      var names := CityNames(init);
      if l.location.cityName in names then names else names + [l.location.cityName]
  }

  /** The country key: the ISO code. */
  const Iso: Located -> string := (l: Located) => l.location.countryIso2

  /** The city key `cityName,countryIso2`. */
  function CityKey(cityName: string, countryIso2: string): string {
    cityName + "," + countryIso2
  }

  const CityKeyOf: Located -> string := (l: Located) => CityKey(l.location.cityName, l.location.countryIso2)

  /**
   * With ISO codes free of commas, two cities share a key exactly when they have the same
   * name and the same country code, even when a name holds a comma.
   */
  lemma CityKeySeparates(c1: string, i1: string, c2: string, i2: string)
    requires ',' !in i1 && ',' !in i2
    ensures CityKey(c1, i1) == CityKey(c2, i2) <==> c1 == c2 && i1 == i2
  {
    var s := CityKey(c1, i1);
    if s == CityKey(c2, i2) {
      var p1, p2 := |c1|, |c2|;
      assert s[p1] == ',' && s[p2] == ',';
      forall j | p1 < j < |s| ensures s[j] != ',' {
        assert s[j] == i1[j - p1 - 1];
      }
      forall j | p2 < j < |s| ensures s[j] != ',' {
        assert s == c2 + [','] + i2;
        assert s[j] == i2[j - p2 - 1];
      }
      assert i1 == s[p1 + 1..] == i2;
      assert c1 == s[..p1] == c2;
    }
  }

  // ------------------------------------------------------------ the two maps

  /** An entry of the country map. */
  datatype CountryAcc = CountryAcc(countryName: string, activityCount: nat, totalDistanceM: real, cities: seq<string>)

  /** An entry of the city map. */
  datatype CityAcc = CityAcc(cityName: string, countryName: string, countryIso2: string, activityCount: nat, totalDistanceM: real)

  /** The country map after the located runs, as the loop leaves it. */
  function CountryMap(ls: seq<Located>): map<string, CountryAcc> {
    if ls == [] then map[]
    else
      var m := CountryMap(ls[..|ls| - 1]);
      var l := ls[|ls| - 1];
      var iso := l.location.countryIso2;
      var e := if iso in m then m[iso] else CountryAcc(l.location.countryName, 0, 0.0, []);
      var names := if l.location.cityName in e.cities then e.cities else e.cities + [l.location.cityName];
      m[iso := CountryAcc(e.countryName, e.activityCount + 1, e.totalDistanceM + l.activity.distance, names)]
  }

  /** The city map after the located runs, as the loop leaves it. */
  function CityMap(ls: seq<Located>): map<string, CityAcc> {
    if ls == [] then map[]
    else
      var m := CityMap(ls[..|ls| - 1]);
      var l := ls[|ls| - 1];
      var key := CityKey(l.location.cityName, l.location.countryIso2);
      var e := if key in m then m[key]
        else CityAcc(l.location.cityName, l.location.countryName, l.location.countryIso2, 0, 0.0);
      m[key := CityAcc(e.cityName, e.countryName, e.countryIso2, e.activityCount + 1, e.totalDistanceM + l.activity.distance)]
  }

  /** What a country's entry holds: the first run's country name, the count, the metres, the cities. */
  function CountryAccOf(g: seq<Located>): CountryAcc
    requires g != []
  {
    CountryAcc(g[0].location.countryName, |g|, DistanceM(g), CityNames(g))
  }

  /** What a city's entry holds: the first run's names, the count and the metres. */
  function CityAccOf(g: seq<Located>): CityAcc
    requires g != []
  {
    CityAcc(g[0].location.cityName, g[0].location.countryName, g[0].location.countryIso2, |g|, DistanceM(g))
  }

  /** One step of a group: the group with one more run. */
  lemma GroupSnoc(g: seq<Located>, l: Located)
    ensures (g + [l])[..|g|] == g
    ensures g != [] ==> (g + [l])[0] == g[0]
    ensures DistanceM(g + [l]) == DistanceM(g) + l.activity.distance
    ensures CityNames(g + [l]) ==
      if l.location.cityName in CityNames(g) then CityNames(g) else CityNames(g) + [l.location.cityName]
  {
    assert (g + [l])[..|g|] == g;
  }

  /**
   * Each located run is counted in exactly one country: the map has an entry for each
   * ISO code met, holding what the runs of that code add up to.
   */
  lemma {:induction false} CountryMapIsGroups(ls: seq<Located>)
    ensures forall k :: k in CountryMap(ls) <==> With(ls, Iso, k) != []
    ensures forall k :: k in CountryMap(ls) ==> CountryMap(ls)[k] == CountryAccOf(With(ls, Iso, k))
  {
    if ls != [] {
      var init := ls[..|ls| - 1];
      var l := ls[|ls| - 1];
      CountryMapIsGroups(init);
      var m, before := CountryMap(ls), CountryMap(init);
      forall k ensures (k in m <==> With(ls, Iso, k) != []) && (k in m ==> m[k] == CountryAccOf(With(ls, Iso, k))) {
        if k == Iso(l) {
          var g := With(init, Iso, k);
          GroupSnoc(g, l);
          assert With(ls, Iso, k) == g + [l];
          if g == [] {
            assert [l][..0] == [];
          }
        } else {
          assert With(ls, Iso, k) == With(init, Iso, k);
          assert k in m <==> k in before;
        }
      }
    }
  }

  /** Each located run is counted in exactly one city, keyed by name and ISO code. */
  lemma {:induction false} CityMapIsGroups(ls: seq<Located>)
    ensures forall k :: k in CityMap(ls) <==> With(ls, CityKeyOf, k) != []
    ensures forall k :: k in CityMap(ls) ==> CityMap(ls)[k] == CityAccOf(With(ls, CityKeyOf, k))
  {
    if ls != [] {
      var init := ls[..|ls| - 1];
      var l := ls[|ls| - 1];
      CityMapIsGroups(init);
      var m, before := CityMap(ls), CityMap(init);
      forall k ensures (k in m <==> With(ls, CityKeyOf, k) != []) && (k in m ==> m[k] == CityAccOf(With(ls, CityKeyOf, k))) {
        if k == CityKeyOf(l) {
          var g := With(init, CityKeyOf, k);
          GroupSnoc(g, l);
          assert With(ls, CityKeyOf, k) == g + [l];
          if g == [] {
            assert [l][..0] == [];
          }
        } else {
          assert With(ls, CityKeyOf, k) == With(init, CityKeyOf, k);
          assert k in m <==> k in before;
        }
      }
    }
  }

  /** The country keys in insertion order are exactly the map's keys. */
  lemma CountryOrderIsDomain(ls: seq<Located>)
    ensures forall k :: k in KeysOf(ls, Iso) <==> k in CountryMap(ls)
  {
    CountryMapIsGroups(ls);
    forall k ensures k in KeysOf(ls, Iso) <==> With(ls, Iso, k) != [] {
      if With(ls, Iso, k) != [] {
        assert With(ls, Iso, k)[0] in With(ls, Iso, k);
      }
    }
  }

  /** The city keys in insertion order are exactly the map's keys. */
  lemma CityOrderIsDomain(ls: seq<Located>)
    ensures forall k :: k in KeysOf(ls, CityKeyOf) <==> k in CityMap(ls)
  {
    CityMapIsGroups(ls);
    forall k ensures k in KeysOf(ls, CityKeyOf) <==> With(ls, CityKeyOf, k) != [] {
      if With(ls, CityKeyOf, k) != [] {
        assert With(ls, CityKeyOf, k)[0] in With(ls, CityKeyOf, k);
      }
    }
  }

  /** Within a city group every run has the group's city name and ISO code, given comma-free codes. */
  lemma CityGroupsAgree(ls: seq<Located>, k: string)
    requires forall l :: l in ls ==> ',' !in l.location.countryIso2
    ensures forall l1, l2 :: l1 in With(ls, CityKeyOf, k) && l2 in With(ls, CityKeyOf, k) ==>
      l1.location.cityName == l2.location.cityName && l1.location.countryIso2 == l2.location.countryIso2
  {
    forall l1, l2 | l1 in With(ls, CityKeyOf, k) && l2 in With(ls, CityKeyOf, k)
      ensures l1.location.cityName == l2.location.cityName && l1.location.countryIso2 == l2.location.countryIso2
    {
      CityKeySeparates(l1.location.cityName, l1.location.countryIso2, l2.location.cityName, l2.location.countryIso2);
    }
  }

  /** The map state the geocoding loop carries. */
  datatype Tally = Tally(
    countries: map<string, CountryAcc>, countryOrder: seq<string>,
    cities: map<string, CityAcc>, cityOrder: seq<string>)

  /** The map state after the located runs. */
  function TallyOf(ls: seq<Located>): Tally {
    Tally(CountryMap(ls), KeysOf(ls, Iso), CityMap(ls), KeysOf(ls, CityKeyOf))
  }

  lemma Snoc(ls: seq<Located>, l: Located)
    ensures (ls + [l])[..|ls|] == ls && (ls + [l])[|ls|] == l && |ls + [l]| == |ls| + 1
  {
  }

  /** One located run added to the maps: to its country and to its city. */
  method Absorb(t: Tally, a: Activity, loc: GeoLocation, ghost ls: seq<Located>) returns (r: Tally)
    requires t == TallyOf(ls)
    ensures r == TallyOf(ls + [Located(a, loc)])
  {
    var countries, countryOrder := AddToCountry(t.countries, t.countryOrder, a, loc, ls);
    var cities, cityOrder := AddToCity(t.cities, t.cityOrder, a, loc, ls);
    r := Tally(countries, countryOrder, cities, cityOrder);
  }

  /**
   * The country of a located run gains the run, its metres and its city name; a country
   * met for the first time takes the run's country name and goes last in the order.
   */
  method AddToCountry(countries: map<string, CountryAcc>, countryOrder: seq<string>, a: Activity, loc: GeoLocation,
                      ghost ls: seq<Located>)
    returns (countries': map<string, CountryAcc>, countryOrder': seq<string>)
    requires countries == CountryMap(ls) && countryOrder == KeysOf(ls, Iso)
    ensures countries' == CountryMap(ls + [Located(a, loc)])
    ensures countryOrder' == KeysOf(ls + [Located(a, loc)], Iso)
  {
    CountryOrderIsDomain(ls);
    Snoc(ls, Located(a, loc));
    var countryKey := loc.countryIso2;
    var existing := if countryKey in countries then countries[countryKey]
      else CountryAcc(loc.countryName, 0, 0.0, []);
    var cityNames := if loc.cityName in existing.cities then existing.cities else existing.cities + [loc.cityName];
    countryOrder' := if countryKey in countries then countryOrder else countryOrder + [countryKey];
    countries' := countries[countryKey := CountryAcc(existing.countryName, existing.activityCount + 1,
                                                     existing.totalDistanceM + a.distance, cityNames)];
  }

  /**
   * The city of a located run, keyed by name and ISO code, gains the run and its metres;
   * a city met for the first time takes the run's names and goes last in the order.
   */
  method AddToCity(cities: map<string, CityAcc>, cityOrder: seq<string>, a: Activity, loc: GeoLocation,
                   ghost ls: seq<Located>)
    returns (cities': map<string, CityAcc>, cityOrder': seq<string>)
    requires cities == CityMap(ls) && cityOrder == KeysOf(ls, CityKeyOf)
    ensures cities' == CityMap(ls + [Located(a, loc)])
    ensures cityOrder' == KeysOf(ls + [Located(a, loc)], CityKeyOf)
  {
    CityOrderIsDomain(ls);
    Snoc(ls, Located(a, loc));
    var cityKey := CityKey(loc.cityName, loc.countryIso2);
    var existing := if cityKey in cities then cities[cityKey]
      else CityAcc(loc.cityName, loc.countryName, loc.countryIso2, 0, 0.0);
    cityOrder' := if cityKey in cities then cityOrder else cityOrder + [cityKey];
    cities' := cities[cityKey := CityAcc(existing.cityName, existing.countryName, existing.countryIso2,
                                         existing.activityCount + 1, existing.totalDistanceM + a.distance)];
  }

  /**
   * The geocoding loop: each run is geocoded on the cache; a run that gets a place is
   * counted, its distance added, and it is added to its country and its city.
   */
  method GeocodeRuns(runs: seq<Activity>, cache: GeoCache, nearest: (real, real) -> Option<Place>, text: real -> string)
    returns (totalCount: nat, successCount: nat, totalDistanceM: real, tally: Tally)
    modifies cache
    ensures var g := GeocodeAll(old(cache.entries), runs, nearest, text);
      && cache.entries == g.1
      && totalCount == |runs|
      && successCount == |Successes(runs, g.0)|
      && totalDistanceM == DistanceM(Successes(runs, g.0))
      && tally == TallyOf(Successes(runs, g.0))
  {
    totalCount, successCount, totalDistanceM := 0, 0, 0.0;
    tally := Tally(map[], [], map[], []);
    ghost var entries0 := cache.entries;
    ghost var locs: seq<Option<GeoLocation>> := [];
    ghost var ls: seq<Located> := [];
    for i := 0 to |runs|
      invariant |locs| == i
      invariant (locs, cache.entries) == GeocodeAll(entries0, runs[..i], nearest, text)
      invariant ls == Successes(runs[..i], locs)
      invariant totalCount == i && successCount == |ls| && totalDistanceM == DistanceM(ls)
      invariant tally == TallyOf(ls)
    {
      var a := runs[i];
      assert runs[..i + 1][..i] == runs[..i];
      totalCount := totalCount + 1;
      var location := GeocodeActivity(a, cache, nearest, text);
      assert (locs + [location])[..i] == locs;
      locs := locs + [location];
      if location.Some? {
        successCount := successCount + 1;
        totalDistanceM := totalDistanceM + a.distance;
        tally := Absorb(tally, a, location.value, ls);
        assert (ls + [Located(a, location.value)])[..|ls|] == ls;
        ls := ls + [Located(a, location.value)];
      }
    }
    assert runs[..|runs|] == runs;
  }

  // ------------------------------------------------------------ output rows

  datatype CountryStats = CountryStats(
    countryName: string, countryIso2: string, activityCount: nat, totalDistanceKm: real, cities: seq<string>)

  datatype CityStats = CityStats(
    cityName: string, countryName: string, countryIso2: string, activityCount: nat, totalDistanceKm: real)

  /** `Math.round((m / 1000) * 10) / 10`: metres as kilometres to one decimal. */
  function Km(m: real): (km: real)
    ensures km - 0.05 <= m / 1000.0 < km + 0.05
  {
    Round(m / 1000.0 * 10.0) as real / 10.0
  }

  /** `Array.from(set).sort()`. */
  function SortedNames(names: seq<string>): (r: seq<string>)
    ensures multiset(r) == multiset(names)
    ensures SortedBy(r, LexLe)
    ensures Distinct(names) ==> Distinct(r)
  {
    LexLeTotalPreorder();
    var r := SortBy(names, LexLe);
    if Distinct(names) then PermutationKeepsDistinct(r, names); r else r
  }

  function CountryRow(iso: string, e: CountryAcc): CountryStats {
    CountryStats(e.countryName, iso, e.activityCount, Km(e.totalDistanceM), SortedNames(e.cities))
  }

  function CityRow(e: CityAcc): CityStats {
    CityStats(e.cityName, e.countryName, e.countryIso2, e.activityCount, Km(e.totalDistanceM))
  }

  /** The map's entries as rows, in the map's order. */
  function CountryRows(m: map<string, CountryAcc>, order: seq<string>): (r: seq<CountryStats>)
    requires forall k :: k in order ==> k in m
    ensures |r| == |order|
    ensures forall i :: 0 <= i < |order| ==> r[i] == CountryRow(order[i], m[order[i]])
  {
    if order == [] then []
    else
      var init := order[..|order| - 1];
      assert forall k :: k in init ==> k in order;
      CountryRows(m, init) + [CountryRow(order[|order| - 1], m[order[|order| - 1]])]
  }

  function CityRows(m: map<string, CityAcc>, order: seq<string>): (r: seq<CityStats>)
    requires forall k :: k in order ==> k in m
    ensures |r| == |order|
    ensures forall i :: 0 <= i < |order| ==> r[i] == CityRow(m[order[i]])
  {
    if order == [] then []
    else
      var init := order[..|order| - 1];
      assert forall k :: k in init ==> k in order;
      CityRows(m, init) + [CityRow(m[order[|order| - 1]])]
  }

  /** The comparator `b.totalDistanceKm - a.totalDistanceKm`: farther first. */
  predicate CountryFarther(a: CountryStats, b: CountryStats) {
    a.totalDistanceKm >= b.totalDistanceKm
  }

  predicate CityFarther(a: CityStats, b: CityStats) {
    a.totalDistanceKm >= b.totalDistanceKm
  }

  lemma CountryFartherTotalPreorder()
    ensures TotalPreorder(CountryFarther)
  {
  }

  lemma CityFartherTotalPreorder()
    ensures TotalPreorder(CityFarther)
  {
  }

  /** countries.json: one row per country, farthest first. */
  function Countries(ls: seq<Located>): seq<CountryStats> {
    CountryOrderIsDomain(ls);
    CountryFartherTotalPreorder();
    SortBy(CountryRows(CountryMap(ls), KeysOf(ls, Iso)), CountryFarther)
  }

  /** cities.json: one row per city, farthest first. */
  function Cities(ls: seq<Located>): seq<CityStats> {
    CityOrderIsDomain(ls);
    CityFartherTotalPreorder();
    SortBy(CityRows(CityMap(ls), KeysOf(ls, CityKeyOf)), CityFarther)
  }

  function CountryCount(c: CountryStats): int {
    c.activityCount
  }

  function CityCount(c: CityStats): int {
    c.activityCount
  }

  /** What a row of the country map holds about the runs of its ISO code. */
  ghost predicate CountryRowOfGroup(ls: seq<Located>, c: CountryStats) {
    var g := With(ls, Iso, c.countryIso2);
    && g != []
    && c.countryName == g[0].location.countryName
    && c.activityCount == |g|
    && c.totalDistanceKm == Km(DistanceM(g))
    && Distinct(c.cities) && SortedBy(c.cities, LexLe)
    && (forall name :: name in c.cities <==> exists l :: l in g && l.location.cityName == name)
  }

  lemma CountryRowIsGroup(ls: seq<Located>, k: string)
    requires k in CountryMap(ls)
    ensures CountryRowOfGroup(ls, CountryRow(k, CountryMap(ls)[k]))
  {
    CountryMapIsGroups(ls);
    var c := CountryRow(k, CountryMap(ls)[k]);
    var names := CityNames(With(ls, Iso, k));
    assert forall name :: name in c.cities <==> name in multiset(c.cities);
    assert forall name :: name in names <==> name in multiset(names);
  }

  /** Every output row is the row of some key of the map. */
  lemma CountriesFromMap(ls: seq<Located>, c: CountryStats)
    requires c in Countries(ls)
    ensures c.countryIso2 in CountryMap(ls) && c == CountryRow(c.countryIso2, CountryMap(ls)[c.countryIso2])
  {
    CountryOrderIsDomain(ls);
    CountryFartherTotalPreorder();
    var rows := CountryRows(CountryMap(ls), KeysOf(ls, Iso));
    assert c in multiset(rows);
    var i :| 0 <= i < |rows| && rows[i] == c;
  }

  /**
   * The countries come farthest first, and each row is the group of its ISO code: its
   * count, its kilometres, and its distinct city names in sorted order.
   */
  lemma CountriesAreGroups(ls: seq<Located>)
    ensures SortedBy(Countries(ls), CountryFarther)
    ensures forall c :: c in Countries(ls) ==> CountryRowOfGroup(ls, c)
  {
    forall c | c in Countries(ls) ensures CountryRowOfGroup(ls, c) {
      CountriesFromMap(ls, c);
      CountryRowIsGroup(ls, c.countryIso2);
    }
  }

  /** The country counts add up to the number of runs geocoded. */
  lemma CountriesCountAll(ls: seq<Located>)
    ensures SumOf(Countries(ls), CountryCount) == |ls|
  {
    CountryOrderIsDomain(ls);
    CountryMapIsGroups(ls);
    CountryFartherTotalPreorder();
    var m, order := CountryMap(ls), KeysOf(ls, Iso);
    SumOfSortBy(CountryRows(m, order), CountryFarther, CountryCount);
    CountryRowsSum(m, order, SizeOf(ls, Iso));
    GroupSizesSum(ls, Iso);
  }

  lemma {:induction false} CountryRowsSum(m: map<string, CountryAcc>, order: seq<string>, size: string -> int)
    requires forall k :: k in order ==> k in m && m[k].activityCount == size(k)
    ensures SumOf(CountryRows(m, order), CountryCount) == SumOf(order, size)
  {
    if order != [] {
      var init := order[..|order| - 1];
      assert forall k :: k in init ==> k in order;
      CountryRowsSum(m, init, size);
      var rows := CountryRows(m, order);
      assert rows[..|rows| - 1] == CountryRows(m, init);
    }
  }

  /** What a row of the city map holds about the runs of its key. */
  ghost predicate CityRowOfGroup(ls: seq<Located>, c: CityStats) {
    var g := With(ls, CityKeyOf, CityKey(c.cityName, c.countryIso2));
    && g != []
    && c.countryName == g[0].location.countryName
    && c.activityCount == |g|
    && c.totalDistanceKm == Km(DistanceM(g))
  }

  /** Every output row is the row of some key of the map, and that key is its city key. */
  lemma CitiesFromMap(ls: seq<Located>, c: CityStats)
    requires c in Cities(ls)
    ensures CityKey(c.cityName, c.countryIso2) in CityMap(ls)
    ensures c == CityRow(CityMap(ls)[CityKey(c.cityName, c.countryIso2)])
  {
    CityOrderIsDomain(ls);
    CityMapIsGroups(ls);
    CityFartherTotalPreorder();
    var rows := CityRows(CityMap(ls), KeysOf(ls, CityKeyOf));
    assert c in multiset(rows);
    var i :| 0 <= i < |rows| && rows[i] == c;
    var k := KeysOf(ls, CityKeyOf)[i];
    var g := With(ls, CityKeyOf, k);
    assert g[0] in g;
  }

  /**
   * The cities come farthest first, and each row is the group of its key: its count and
   * its kilometres, with the names of the group's first run. With comma-free ISO codes
   * every run of the group has the row's city name and code.
   */
  lemma CitiesAreGroups(ls: seq<Located>)
    ensures SortedBy(Cities(ls), CityFarther)
    ensures forall c :: c in Cities(ls) ==> CityRowOfGroup(ls, c)
    ensures (forall l :: l in ls ==> ',' !in l.location.countryIso2) ==>
      forall c, l :: c in Cities(ls) && l in With(ls, CityKeyOf, CityKey(c.cityName, c.countryIso2)) ==>
        l.location.cityName == c.cityName && l.location.countryIso2 == c.countryIso2
  {
    CityMapIsGroups(ls);
    forall c | c in Cities(ls) ensures CityRowOfGroup(ls, c) {
      CitiesFromMap(ls, c);
    }
    if forall l :: l in ls ==> ',' !in l.location.countryIso2 {
      forall c, l | c in Cities(ls) && l in With(ls, CityKeyOf, CityKey(c.cityName, c.countryIso2))
        ensures l.location.cityName == c.cityName && l.location.countryIso2 == c.countryIso2
      {
        CitiesFromMap(ls, c);
        var g := With(ls, CityKeyOf, CityKey(c.cityName, c.countryIso2));
        CityGroupsAgree(ls, CityKey(c.cityName, c.countryIso2));
        assert g[0] in g;
      }
    }
  }

  /** The city counts add up to the number of runs geocoded. */
  lemma CitiesCountAll(ls: seq<Located>)
    ensures SumOf(Cities(ls), CityCount) == |ls|
  {
    CityOrderIsDomain(ls);
    CityMapIsGroups(ls);
    CityFartherTotalPreorder();
    var m, order := CityMap(ls), KeysOf(ls, CityKeyOf);
    SumOfSortBy(CityRows(m, order), CityFarther, CityCount);
    CityRowsSum(m, order, SizeOf(ls, CityKeyOf));
    GroupSizesSum(ls, CityKeyOf);
  }

  lemma {:induction false} CityRowsSum(m: map<string, CityAcc>, order: seq<string>, size: string -> int)
    requires forall k :: k in order ==> k in m && m[k].activityCount == size(k)
    ensures SumOf(CityRows(m, order), CityCount) == SumOf(order, size)
  {
    if order != [] {
      var init := order[..|order| - 1];
      assert forall k :: k in init ==> k in order;
      CityRowsSum(m, init, size);
      var rows := CityRows(m, order);
      assert rows[..|rows| - 1] == CityRows(m, init);
    }
  }

  // ------------------------------------------------------------ metadata

  datatype GeoMetadata = GeoMetadata(
    generatedAt: string, totalActivities: nat, geocodedActivities: nat, coveragePercent: int,
    totalDistanceKm: real, geocoderVersion: string)

  const GeocoderVersion := "geonames-cities1000"

  /** A share of a positive total lies in [0, 1] when the part does not exceed the whole. */
  lemma ShareBounds(part: real, whole: real)
    requires part >= 0.0 && whole > 0.0
    ensures part / whole >= 0.0
    ensures part <= whole ==> part / whole <= 1.0
    ensures part == whole ==> part / whole == 1.0
  {
    var q := part / whole;
    assert q * whole == part;
  }

  /** `Math.round((success / total) * 100)`, and 0 without activities. */
  function Coverage(success: nat, total: nat): (pct: int)
    ensures total == 0 ==> pct == 0
    ensures success <= total ==> 0 <= pct <= 100
    ensures 0 < success == total ==> pct == 100
  {
    if total > 0 then
      var share := success as real / total as real;
      ShareBounds(success as real, total as real);
      Round(share * 100.0)
    else 0
  }

  // ------------------------------------------------------------ cities along each route

  /** The city names `locate` gives for the points, each once, in the order met: the route's Set. */
  function NamesAt(points: seq<Polyline.Point>, locate: (real, real) -> Option<GeoLocation>): (names: seq<string>)
    ensures Distinct(names)
    ensures forall c :: c in names <==>
      exists p :: p in points && locate(p.0, p.1).Some? && locate(p.0, p.1).value.cityName == c
  {
    if points == [] then []
    else
      var init := points[..|points| - 1];
      var p := points[|points| - 1];
      assert forall x :: x in points <==> x in init || x == p;
      var names := NamesAt(init, locate);
      var found := locate(p.0, p.1);
      if found.Some? && found.value.cityName !in names then names + [found.value.cityName] else names
  }

  /** The sampled points of a route with a polyline that decodes to points. */
  function RoutePoints(a: Activity, decode: string -> seq<Polyline.Point>): seq<Polyline.Point>
    requires Polyline.HasPolyline(a)
  {
    var coords := decode(a.summaryPolyline.value);
    Polyline.Sample(coords, Polyline.Step(|coords|))
  }

  /**
   * The cities a route passes: none without a polyline or points, otherwise the sorted
   * distinct names of its sampled points that `locate` finds.
   */
  function RouteCities(a: Activity, decode: string -> seq<Polyline.Point>,
                       locate: (real, real) -> Option<GeoLocation>): (cities: seq<string>)
    ensures Distinct(cities) && SortedBy(cities, LexLe)
  {
    if !Polyline.HasPolyline(a) || decode(a.summaryPolyline.value) == [] then []
    else SortedNames(NamesAt(RoutePoints(a, decode), locate))
  }

  /** A route lists a city exactly when one of its sampled points is found in it. */
  lemma RouteCitiesSpec(a: Activity, decode: string -> seq<Polyline.Point>,
                        locate: (real, real) -> Option<GeoLocation>, c: string)
    ensures c in RouteCities(a, decode, locate) <==>
      && Polyline.HasPolyline(a) && decode(a.summaryPolyline.value) != []
      && exists p :: p in RoutePoints(a, decode) && locate(p.0, p.1).Some? && locate(p.0, p.1).value.cityName == c
  {
    if Polyline.HasPolyline(a) && decode(a.summaryPolyline.value) != [] {
      var names := NamesAt(RoutePoints(a, decode), locate);
      assert c in RouteCities(a, decode, locate) <==> c in multiset(RouteCities(a, decode, locate));
      assert c in names <==> c in multiset(names);
    }
  }

  /** The activity-cities map after the runs: runs whose route lists a city, by id. */
  function ActivityCities(runs: seq<Activity>, decode: string -> seq<Polyline.Point>,
                          locate: (real, real) -> Option<GeoLocation>): map<int, seq<string>>
  {
    if runs == [] then map[]
    else
      var m := ActivityCities(runs[..|runs| - 1], decode, locate);
      var a := runs[|runs| - 1];
      var cities := RouteCities(a, decode, locate);
      if |cities| > 0 then m[a.id := cities] else m
  }

  /** The number of runs whose route lists more than one city. */
  function MultiCityCount(runs: seq<Activity>, decode: string -> seq<Polyline.Point>,
                          locate: (real, real) -> Option<GeoLocation>): (n: nat)
    ensures n <= |runs|
  {
    if runs == [] then 0
    else
      MultiCityCount(runs[..|runs| - 1], decode, locate)
        + (if |RouteCities(runs[|runs| - 1], decode, locate)| > 1 then 1 else 0)
  }

  /**
   * The map holds exactly the runs whose route lists a city; each entry is the route's
   * list (of the last such run with that id), non-empty, distinct and sorted.
   */
  lemma {:induction false} ActivityCitiesSpec(runs: seq<Activity>, decode: string -> seq<Polyline.Point>,
                                              locate: (real, real) -> Option<GeoLocation>)
    ensures var m := ActivityCities(runs, decode, locate);
      forall id :: id in m ==>
        && m[id] != [] && Distinct(m[id]) && SortedBy(m[id], LexLe)
        && exists a :: a in runs && a.id == id && m[id] == RouteCities(a, decode, locate)
    ensures var m := ActivityCities(runs, decode, locate);
      forall a :: a in runs && RouteCities(a, decode, locate) != [] ==> a.id in m
  {
    if runs != [] {
      var init, last := runs[..|runs| - 1], runs[|runs| - 1];
      assert runs == init + [last];
      ActivityCitiesSpec(init, decode, locate);
      var m0, m := ActivityCities(init, decode, locate), ActivityCities(runs, decode, locate);
      var cities := RouteCities(last, decode, locate);
      forall id | id in m
        ensures && m[id] != [] && Distinct(m[id]) && SortedBy(m[id], LexLe)
                && exists a :: a in runs && a.id == id && m[id] == RouteCities(a, decode, locate)
      {
        if |cities| > 0 && id == last.id {
          assert m[id] == cities && last in runs;
        } else {
          assert id in m0 && m[id] == m0[id];
          var a :| a in init && a.id == id && m0[id] == RouteCities(a, decode, locate);
          assert a in runs;
        }
      }
      forall a | a in runs && RouteCities(a, decode, locate) != [] ensures a.id in m {
        if a != last {
          assert a in init;
        }
      }
    }
  }

  /** The citiesSet loop: each sampled point found in a city adds that city once. */
  method CityNamesOf(points: seq<Polyline.Point>, locate: (real, real) -> Option<GeoLocation>)
    returns (names: seq<string>)
    ensures names == NamesAt(points, locate)
  {
    names := [];
    for i := 0 to |points|
      invariant names == NamesAt(points[..i], locate)
    {
      assert points[..i + 1][..i] == points[..i];
      var (lat, lng) := points[i];
      var location := locate(lat, lng);
      if location.Some? && location.value.cityName !in names {
        names := names + [location.value.cityName];
      }
    }
    assert points[..|points|] == points;
  }

  /**
   * The multi-city loop: each run's polyline is decoded and sampled, the samples are
   * geocoded, and a run whose samples land in a city is stored with its sorted cities.
   */
  method DetectRouteCities(runs: seq<Activity>, decode: string -> seq<Polyline.Point>,
                           locate: (real, real) -> Option<GeoLocation>)
    returns (activityCities: map<int, seq<string>>, routesWithMultipleCities: nat)
    ensures activityCities == ActivityCities(runs, decode, locate)
    ensures routesWithMultipleCities == MultiCityCount(runs, decode, locate)
  {
    activityCities, routesWithMultipleCities := map[], 0;
    for i := 0 to |runs|
      invariant activityCities == ActivityCities(runs[..i], decode, locate)
      invariant routesWithMultipleCities == MultiCityCount(runs[..i], decode, locate)
    {
      assert runs[..i + 1][..i] == runs[..i];
      var a := runs[i];
      var decoded := Polyline.DecodeActivityPolyline(a, decode);
      if decoded.Some? {
        var sampled := Polyline.SampleRoutePoints(decoded.value.coordinates);
        var names := CityNamesOf(sampled, locate);
        var cities := SortedNames(names);
        if |cities| > 0 {
          activityCities := activityCities[a.id := cities];
          if |cities| > 1 {
            routesWithMultipleCities := routesWithMultipleCities + 1;
          }
        }
      }
    }
    assert runs[..|runs|] == runs;
  }

  // ------------------------------------------------------------ computeGeoStats

  datatype GeoOutput = GeoOutput(
    countries: seq<CountryStats>, cities: seq<CityStats>, metadata: GeoMetadata,
    activityCities: map<int, seq<string>>, routesWithMultipleCities: nat)

  /** The files computeGeoStats writes, for runs geocoded on the cache `entries`. */
  function GeoOutputOf(runs: seq<Activity>, entries: map<string, GeoLocation>,
                       nearest: (real, real) -> Option<Place>, text: real -> string,
                       decode: string -> seq<Polyline.Point>, locate: (real, real) -> Option<GeoLocation>,
                       now: string): GeoOutput
  {
    var ls := Successes(runs, GeocodeAll(entries, runs, nearest, text).0);
    GeoOutput(
      Countries(ls), Cities(ls),
      GeoMetadata(now, |runs|, |ls|, Coverage(|ls|, |runs|), Km(DistanceM(ls)), GeocoderVersion),
      ActivityCities(runs, decode, locate), MultiCityCount(runs, decode, locate))
  }

  /**
   * computeGeoStats: only runs are used and nothing is produced without one; otherwise
   * the starts are geocoded on the cache, grouped by country and city, and each route's
   * cities are detected.
   */
  method ComputeGeoStats(activities: seq<Activity>, cache: GeoCache,
                         nearest: (real, real) -> Option<Place>, text: real -> string,
                         decode: string -> seq<Polyline.Point>, locate: (real, real) -> Option<GeoLocation>,
                         now: string)
    returns (r: Option<GeoOutput>)
    modifies cache
    ensures r.None? <==> Runs(activities) == []
    ensures r.None? ==> cache.entries == old(cache.entries)
    ensures r.Some? ==>
      && r.value == GeoOutputOf(Runs(activities), old(cache.entries), nearest, text, decode, locate, now)
      && cache.entries == GeocodeAll(old(cache.entries), Runs(activities), nearest, text).1
  {
    var runs := Stats.LoadRuns(activities);
    if |runs| == 0 {
      return None;
    }
    var totalCount, successCount, totalDistanceM, tally := GeocodeRuns(runs, cache, nearest, text);
    var activityCities, routesWithMultipleCities := DetectRouteCities(runs, decode, locate);

    ghost var ls := Successes(runs, GeocodeAll(old(cache.entries), runs, nearest, text).0);
    CountryOrderIsDomain(ls);
    CityOrderIsDomain(ls);
    CountryFartherTotalPreorder();
    CityFartherTotalPreorder();
    var countries := SortBy(CountryRows(tally.countries, tally.countryOrder), CountryFarther);
    var cities := SortBy(CityRows(tally.cities, tally.cityOrder), CityFarther);

    var coveragePercent := Coverage(successCount, totalCount);
    var metadata := GeoMetadata(now, totalCount, successCount, coveragePercent, Km(totalDistanceM), GeocoderVersion);
    r := Some(GeoOutput(countries, cities, metadata, activityCities, routesWithMultipleCities));
  }

  /**
   * What the files promise together: the country counts and the city counts both add up
   * to the runs geocoded, which are at most all runs; the coverage is a percentage, 0
   * without runs and 100 when every run was geocoded.
   */
  lemma GeoOutputSpec(runs: seq<Activity>, entries: map<string, GeoLocation>,
                      nearest: (real, real) -> Option<Place>, text: real -> string,
                      decode: string -> seq<Polyline.Point>, locate: (real, real) -> Option<GeoLocation>,
                      now: string)
    ensures var o := GeoOutputOf(runs, entries, nearest, text, decode, locate, now);
      && SumOf(o.countries, CountryCount) == o.metadata.geocodedActivities
      && SumOf(o.cities, CityCount) == o.metadata.geocodedActivities
      && o.metadata.geocodedActivities <= o.metadata.totalActivities == |runs|
      && 0 <= o.metadata.coveragePercent <= 100
      && (runs == [] ==> o.metadata.coveragePercent == 0)
      && (0 < o.metadata.geocodedActivities == |runs| ==> o.metadata.coveragePercent == 100)
      && o.routesWithMultipleCities <= |runs|
  {
    var ls := Successes(runs, GeocodeAll(entries, runs, nearest, text).0);
    CountriesCountAll(ls);
    CitiesCountAll(ls);
  }
}
