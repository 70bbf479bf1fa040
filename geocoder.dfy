/**
 * The start-location geocoder with its coordinate cache (src/geo/geocoder.ts).
 *
 * The offline reverse geocoder `getNearestCity` and the number formatting of
 * `Number.prototype.toString` are foreign: they are parameters here. Coordinates are
 * real numbers, so rounding is exact rather than floating point.
 */
module Geocoder {
  import opened Util
  import opened Activities
  import DateUtils

  datatype GeoLocation = GeoLocation(cityName: string, countryName: string, countryIso2: string)

  /** What getNearestCity answers: nothing, or a place whose names may be empty. */
  datatype Place = Place(cityName: string, countryName: string, countryIso2: string)

  /** Math.round: the nearest integer, halves rounded up. */
  function Round(x: real): (n: int)
    ensures n as real - 0.5 <= x < n as real + 0.5
  {
    (x + 0.5).Floor
  }

  /** roundCoord with its default of four decimals: within half a unit of the fourth decimal. */
  function RoundCoord(x: real): (r: real)
    ensures r - 0.00005 <= x < r + 0.00005
  {
    Round(x * 10000.0) as real / 10000.0
  }

  /** coordToCacheKey: the two rounded coordinates as text, joined by a comma. */
  function CacheKey(lat: real, lng: real, text: real -> string): string {
    text(RoundCoord(lat)) + "," + text(RoundCoord(lng))
  }

  /**
   * Coordinates share a key exactly when they round alike, given a number text that is
   * one-to-one and never holds a comma.
   */
  lemma CacheKeyIsRounding(lat1: real, lng1: real, lat2: real, lng2: real, text: real -> string)
    requires forall x, y :: text(x) == text(y) ==> x == y
    requires forall x :: ',' !in text(x)
    ensures CacheKey(lat1, lng1, text) == CacheKey(lat2, lng2, text) <==>
      RoundCoord(lat1) == RoundCoord(lat2) && RoundCoord(lng1) == RoundCoord(lng2)
  {
    var a, b := text(RoundCoord(lat1)), text(RoundCoord(lng1));
    var c, d := text(RoundCoord(lat2)), text(RoundCoord(lng2));
    if CacheKey(lat1, lng1, text) == CacheKey(lat2, lng2, text) {
      assert a + [','] + b == c + [','] + d;
      DateUtils.SplitAtSeparator(a, b, c, d, ',');
    }
  }

  /** The in-memory cache, mutated by a lookup that misses. */
  class GeoCache {
    var entries: map<string, GeoLocation>

    constructor (entries: map<string, GeoLocation>)
      ensures this.entries == entries
    {
      this.entries := entries;
    }
  }

  /** A `start_latlng` that is present and has two numbers. */
  predicate HasCoordinates(a: Activity) {
    a.startLatLng.Some? && |a.startLatLng.value| == 2
  }

  predicate InRange(lat: real, lng: real) {
    -90.0 <= lat <= 90.0 && -180.0 <= lng <= 180.0
  }

  /** A start the guards let through. */
  predicate Locatable(a: Activity) {
    HasCoordinates(a) && InRange(a.startLatLng.value[0], a.startLatLng.value[1])
  }

  /** A lookup result the source accepts: non-empty city and country names. */
  predicate Accepted(p: Option<Place>) {
    p.Some? && p.value.cityName != "" && p.value.countryName != ""
  }

  predicate ValidLocation(l: GeoLocation) {
    l.cityName != "" && l.countryName != ""
  }

  predicate ValidCache(entries: map<string, GeoLocation>) {
    forall k :: k in entries ==> ValidLocation(entries[k])
  }

  /** The cache key of an activity's start. */
  function KeyOf(a: Activity, text: real -> string): string
    requires HasCoordinates(a)
  {
    CacheKey(a.startLatLng.value[0], a.startLatLng.value[1], text)
  }

  /** A geocoding answer and the cache after it. */
  datatype Geocoded = Geocoded(location: Option<GeoLocation>, entries: map<string, GeoLocation>)

  /**
   * geocodeActivity on the cache `entries`: the cache never loses or changes an entry, it
   * gains at most the activity's own key and only with the location returned, a hit
   * answers from the cache, and a failure leaves the cache as it was.
   */
  function GeocodeStep(entries: map<string, GeoLocation>, a: Activity,
                       nearest: (real, real) -> Option<Place>, text: real -> string): (r: Geocoded)
    ensures forall k :: k in entries ==> k in r.entries && r.entries[k] == entries[k]
    ensures forall k :: k in r.entries && k !in entries ==>
      HasCoordinates(a) && k == KeyOf(a, text) && r.location == Some(r.entries[k])
    ensures r.location.Some? ==>
      && Locatable(a)
      && KeyOf(a, text) in r.entries
      && r.entries[KeyOf(a, text)] == r.location.value
    ensures r.location.None? ==> r.entries == entries
    ensures Locatable(a) && KeyOf(a, text) in entries ==> r.location == Some(entries[KeyOf(a, text)])
    ensures Locatable(a) && KeyOf(a, text) !in entries ==>
      (r.location.Some? <==> Accepted(nearest(a.startLatLng.value[0], a.startLatLng.value[1])))
  {
    if !HasCoordinates(a) then Geocoded(None, entries)
    else
      var lat, lng := a.startLatLng.value[0], a.startLatLng.value[1];
      if !InRange(lat, lng) then Geocoded(None, entries)
      else
        var key := CacheKey(lat, lng, text);
        if key in entries then Geocoded(Some(entries[key]), entries)
        else
          var result := nearest(lat, lng);
          if !Accepted(result) then Geocoded(None, entries)
          else
            var location := GeoLocation(result.value.cityName, result.value.countryName, result.value.countryIso2);
            Geocoded(Some(location), entries[key := location])
  }

  /** geocodeActivity: the guards, then the cache, then the geocoder, storing what it finds. */
  method GeocodeActivity(a: Activity, cache: GeoCache, nearest: (real, real) -> Option<Place>, text: real -> string)
    returns (location: Option<GeoLocation>)
    modifies cache
    ensures Geocoded(location, cache.entries) == GeocodeStep(old(cache.entries), a, nearest, text)
  {
    if a.startLatLng.None? || |a.startLatLng.value| != 2 {
      return None;
    }
    var lat, lng := a.startLatLng.value[0], a.startLatLng.value[1];
    if lat < -90.0 || lat > 90.0 || lng < -180.0 || lng > 180.0 {
      return None;
    }
    var key := CacheKey(lat, lng, text);
    if key in cache.entries {
      return Some(cache.entries[key]);
    }
    var result := nearest(lat, lng);
    if result.None? || result.value.cityName == "" || result.value.countryName == "" {
      return None;
    }
    var found := GeoLocation(result.value.cityName, result.value.countryName, result.value.countryIso2);
    cache.entries := cache.entries[key := found];
    location := Some(found);
  }

  /** A cache of accepted places stays one, and every location returned from it is accepted. */
  lemma GeocodeKeepsCacheValid(entries: map<string, GeoLocation>, a: Activity,
                               nearest: (real, real) -> Option<Place>, text: real -> string)
    requires ValidCache(entries)
    ensures var r := GeocodeStep(entries, a, nearest, text);
      ValidCache(r.entries) && (r.location.Some? ==> ValidLocation(r.location.value))
  {
    var r := GeocodeStep(entries, a, nearest, text);
    forall k | k in r.entries ensures ValidLocation(r.entries[k]) {
      if k !in entries {
        var lat, lng := a.startLatLng.value[0], a.startLatLng.value[1];
        assert Accepted(nearest(lat, lng));
      }
    }
  }

  /** Geocoding the same activity again gives the same answer and leaves the cache alone. */
  lemma GeocodeAgain(entries: map<string, GeoLocation>, a: Activity,
                     nearest: (real, real) -> Option<Place>, text: real -> string)
    ensures var r := GeocodeStep(entries, a, nearest, text);
      GeocodeStep(r.entries, a, nearest, text) == r
  {
  }

  /**
   * Two starts whose coordinates round alike share one cache entry: once the first is
   * found, the second is answered from the cache with the same location.
   */
  lemma SharedKeySharesLocation(entries: map<string, GeoLocation>, a: Activity, b: Activity,
                                nearest: (real, real) -> Option<Place>, text: real -> string)
    requires HasCoordinates(a) && HasCoordinates(b)
    requires RoundCoord(a.startLatLng.value[0]) == RoundCoord(b.startLatLng.value[0])
    requires RoundCoord(a.startLatLng.value[1]) == RoundCoord(b.startLatLng.value[1])
    requires Locatable(b)
    requires GeocodeStep(entries, a, nearest, text).location.Some?
    ensures var r := GeocodeStep(entries, a, nearest, text);
      GeocodeStep(r.entries, b, nearest, text) == r
  {
    assert KeyOf(a, text) == KeyOf(b, text);
  }
}
