/** Geographic facets: the `Geolocation` dataclass (construction, hash,
    display strings), the flag emoji, expanding a country-level selection to
    the city-level locations inside it, and the selector's option list. */
module CountrySelector {
  import opened Wrappers
  import opened Text
  import opened Ordering

  /** The distance from 'A' to REGIONAL INDICATOR SYMBOL LETTER A. */
  const FlagOffset: int := 127397

  const MaxCodePoint: int := 0x10FFFF

  /** `get_flag_emoji(code)`: every character moved up by `FlagOffset` code
      points; `None` where `chr` raises because the result passes U+10FFFF. */
  function FlagEmoji(code: string): (r: Option<string>)
    ensures r.Some? <==> forall i :: 0 <= i < |code| ==> code[i] as int + FlagOffset <= MaxCodePoint
    ensures r.Some? ==> |r.value| == |code|
    ensures r.Some? ==> forall i :: 0 <= i < |code| ==> r.value[i] as int == code[i] as int + FlagOffset
  {
    if code == [] then Some("")
    else if code[0] as int + FlagOffset > MaxCodePoint then None
    else match FlagEmoji(code[1..])
      case None => None
      case Some(rest) => Some([(code[0] as int + FlagOffset) as char] + rest)
  }

  predicate IsAsciiUpperLetters(s: string)
  {
    forall i :: 0 <= i < |s| ==> 'A' <= s[i] <= 'Z'
  }

  /** A code of capital letters becomes regional indicator symbols, one per
      letter, all within U+1F1E6..U+1F1FF. */
  lemma FlagOfLettersIsRegionalIndicators(code: string)
    requires IsAsciiUpperLetters(code)
    ensures FlagEmoji(code).Some?
    ensures forall i :: 0 <= i < |code| ==> 0x1F1E6 <= FlagEmoji(code).value[i] as int <= 0x1F1FF
  {
  }

  // ---------------------------------------------------------------- Geolocation

  /** A facet: a country, or a city in it, optionally with a radius. */
  datatype Geolocation = Geolocation(
    country: string,
    countryCode: string,
    city: Option<string>,
    radiusKm: Option<int>)

  /** `Geolocation(country, country_code, city, radius_km)`: the generated
      constructor followed by `__post_init__`, which upper-cases the code. */
  function NewGeolocation(country: string, countryCode: string, city: Option<string>, radiusKm: Option<int>): (g: Geolocation)
    ensures IsUpperCase(g.countryCode) && |g.countryCode| == |countryCode|
    ensures g.countryCode == Upper(countryCode)
    ensures g.country == country && g.city == city && g.radiusKm == radiusKm
  {
    UpperNormalises(countryCode);
    Geolocation(country, Upper(countryCode), city, radiusKm)
  }

  /** Constructing again from a constructed value's fields gives the same value. */
  lemma NewGeolocationIdempotent(country: string, countryCode: string, city: Option<string>, radiusKm: Option<int>)
    ensures var g := NewGeolocation(country, countryCode, city, radiusKm);
            NewGeolocation(g.country, g.countryCode, g.city, g.radiusKm) == g
  {
    UpperNormalises(countryCode);
  }

  /** `if self.city`: set and not empty. */
  predicate HasCity(g: Geolocation)
  {
    g.city.Some? && g.city.value != ""
  }

  /** `if self.radius_km`: set and not zero. */
  predicate HasRadius(g: Geolocation)
  {
    g.radiusKm.Some? && g.radiusKm.value != 0
  }

  /** The tuple `__hash__` hashes. */
  function HashKey(g: Geolocation): (string, string, Option<string>)
  {
    (Upper(g.country), Upper(g.countryCode), if HasCity(g) then Some(Upper(g.city.value)) else None)
  }

  /** The hash reads only the upper-cased country, code and city: changing
      the case of any of them, or the radius, leaves it alone. */
  lemma HashIgnoresCaseAndRadius(g: Geolocation, radiusKm: Option<int>)
    ensures HashKey(Geolocation(Upper(g.country), Upper(g.countryCode),
                                if g.city.Some? then Some(Upper(g.city.value)) else None, radiusKm))
            == HashKey(g)
  {
    UpperNormalises(g.country);
    UpperNormalises(g.countryCode);
    if g.city.Some? { UpperNormalises(g.city.value); }
  }

  /** Equality compares every field as given, so two facets whose cities
      differ only in case are different values with the same hash. */
  lemma EqualityIsCaseSensitive(g: Geolocation, otherCity: string)
    requires g.city.Some? && otherCity != g.city.value && Upper(otherCity) == Upper(g.city.value)
    ensures g != g.(city := Some(otherCity))
    ensures HashKey(g) == HashKey(g.(city := Some(otherCity)))
  {
    assert |otherCity| == |g.city.value|;
  }

  /** Such pairs exist: "amsterdam" and "AMSTERDAM". */
  lemma CaseVariantCities()
    ensures Upper("amsterdam") == Upper("AMSTERDAM") && "amsterdam" != "AMSTERDAM"
  {
    assert "amsterdam"[0] != "AMSTERDAM"[0];
    assert Upper("amsterdam") == "AMSTERDAM";
    assert Upper("AMSTERDAM") == "AMSTERDAM";
  }

  // ---------------------------------------------------------------- format

  datatype FormatError = CityNotSet | CodePointOutOfRange

  /** `format_as_city`: raises unless the city is set and not empty. */
  function FormatAsCity(g: Geolocation): (r: Result<string, FormatError>)
    ensures r.Err? <==> !HasCity(g)
  {
    if !HasCity(g) then Err(CityNotSet) else Ok(g.city.value + ", " + g.country)
  }

  /** `format_as_region(radius_km)`: raises only when the city is `None`. */
  function FormatAsRegion(g: Geolocation, radiusKm: int): (r: Result<string, FormatError>)
    ensures r.Err? <==> g.city.None?
  {
    if g.city.None? then Err(CityNotSet) else Ok(g.city.value + " +" + IntToString(radiusKm) + " km")
  }

  /** `format_as_country`: the flag, a blank and the country. */
  function FormatAsCountry(g: Geolocation): (r: Result<string, FormatError>)
    ensures r.Ok? <==> FlagEmoji(g.countryCode).Some?
    ensures r.Ok? ==> r.value == FlagEmoji(g.countryCode).value + " " + g.country
  {
    match FlagEmoji(g.countryCode)
    case None => Err(CodePointOutOfRange)
    case Some(flag) => Ok(flag + " " + g.country)
  }

  /** `format`: a city with a radius as a region, a city alone as a city,
      anything else as a country. */
  function Format(g: Geolocation): Result<string, FormatError>
  {
    if HasCity(g) && HasRadius(g) then FormatAsRegion(g, g.radiusKm.value)
    else if HasCity(g) then FormatAsCity(g)
    else FormatAsCountry(g)
  }

  /** What `format` shows for each combination of set fields; it never raises
      for a missing city, and only a code point past U+10FFFF makes it raise. */
  lemma FormatCases(g: Geolocation)
    ensures HasCity(g) && HasRadius(g) ==>
              Format(g) == Ok(g.city.value + " +" + IntToString(g.radiusKm.value) + " km")
    ensures HasCity(g) && !HasRadius(g) ==> Format(g) == Ok(g.city.value + ", " + g.country)
    ensures !HasCity(g) ==> Format(g) == FormatAsCountry(g)
    ensures Format(g).Err? ==> Format(g).error == CodePointOutOfRange && !HasCity(g)
    ensures IsAsciiUpperLetters(g.countryCode) ==> Format(g).Ok?
  {
    if IsAsciiUpperLetters(g.countryCode) { FlagOfLettersIsRegionalIndicators(g.countryCode); }
  }

  /** The two city formatters disagree on an empty city: one raises, the
      other formats it. */
  lemma EmptyCityFormatters(g: Geolocation, radiusKm: int)
    requires g.city == Some("")
    ensures FormatAsCity(g).Err?
    ensures FormatAsRegion(g, radiusKm) == Ok(" +" + IntToString(radiusKm) + " km")
  {
    assert "" + " +" == " +";
  }

  // ---------------------------------------------------------------- unwrap

  /** What one selected facet adds: a city-level facet itself, a country-level
      facet (city `None`) every available facet whose country is equal. */
  function Contribution(s: Geolocation, available: seq<Geolocation>): set<Geolocation>
  {
    if s.city.None? then set a | a in available && a.country == s.country else {s}
  }

  /** `set(geolocations)` after the loop of `unwrap_geolocations`. */
  function Unwrapped(selected: seq<Geolocation>, available: seq<Geolocation>): set<Geolocation>
  {
    if selected == [] then {}
    else Unwrapped(selected[..|selected| - 1], available) + Contribution(selected[|selected| - 1], available)
  }

  /** Exactly the city-level selections and the available facets of the
      selected countries. */
  lemma {:induction false} UnwrappedContents(selected: seq<Geolocation>, available: seq<Geolocation>, g: Geolocation)
    ensures g in Unwrapped(selected, available) <==>
            || (g in selected && g.city.Some?)
            || (g in available && exists s :: s in selected && s.city.None? && s.country == g.country)
  {
    if selected != [] {
      var init := selected[..|selected| - 1];
      var last := selected[|selected| - 1];
      UnwrappedContents(init, available, g);
      assert forall s :: s in selected <==> s in init || s == last;
    }
  }

  /** The expansion of a concatenation is the union of the expansions; so it
      only grows as facets are selected. */
  lemma {:induction false} UnwrappedAppend(a: seq<Geolocation>, b: seq<Geolocation>, available: seq<Geolocation>)
    ensures Unwrapped(a + b, available) == Unwrapped(a, available) + Unwrapped(b, available)
    ensures Unwrapped(a, available) <= Unwrapped(a + b, available)
    decreases |b|
  {
    if b == [] {
      assert a + b == a;
    } else {
      var b' := b[..|b| - 1];
      assert (a + b)[..|a + b| - 1] == a + b';
      assert (a + b)[|a + b| - 1] == b[|b| - 1];
      UnwrappedAppend(a, b', available);
    }
  }

  /** `unwrap_geolocations(selected, available)` */
  method UnwrapGeolocations(selected: seq<Geolocation>, available: seq<Geolocation>) returns (r: set<Geolocation>)
    ensures r == Unwrapped(selected, available)
  {
    var geolocations: seq<Geolocation> := [];
    var i := 0;
    assert selected[..0] == [];
    while i < |selected|
      invariant 0 <= i <= |selected|
      invariant (set g | g in geolocations) == Unwrapped(selected[..i], available)
    {
      var s := selected[i];
      assert selected[..i + 1][..i] == selected[..i] && selected[..i + 1][i] == s;
      if s.city.None? {
        var same := Filter(available, (a: Geolocation) => a.country == s.country);
        geolocations := geolocations + same;
      } else {
        geolocations := geolocations + [s];
      }
      i := i + 1;
    }
    assert selected[..i] == selected;
    r := set g | g in geolocations;
  }

  // ---------------------------------------------------------------- options

  /** The city-level option for an available facet (radius dropped). */
  function CityOption(g: Geolocation): Geolocation
  {
    NewGeolocation(g.country, g.countryCode, g.city, None)
  }

  /** The country-level option for an available facet. */
  function CountryOption(g: Geolocation): Geolocation
  {
    NewGeolocation(g.country, g.countryCode, None, None)
  }

  /** `key=lambda x: x.city`; only used where every city is set. */
  function CityKey(g: Geolocation): Key
  {
    if g.city.Some? then [Str(g.city.value)] else []
  }

  /** `key=lambda x: x.country` */
  function CountryKey(g: Geolocation): Key
  {
    [Str(g.country)]
  }

  predicate AllHaveCity(available: seq<Geolocation>)
  {
    forall i :: 0 <= i < |available| ==> available[i].city.Some?
  }

  function CityOptions(available: seq<Geolocation>): seq<Geolocation>
  {
    SortBy(Distinct(Map(available, CityOption)), CityKey)
  }

  function CountryOptions(available: seq<Geolocation>): seq<Geolocation>
  {
    SortBy(Distinct(Map(available, CountryOption)), CountryKey)
  }

  /** `options = cities + countries` in `country_selector`. Sorting by city
      needs every city set: `None` does not compare with `str`. */
  function SelectorOptions(available: seq<Geolocation>): seq<Geolocation>
    requires AllHaveCity(available)
  {
    CityOptions(available) + CountryOptions(available)
  }

  /** The city options: each distinct city-level facet of an available
      location once, radius dropped, ordered by city. */
  lemma CityOptionsSpec(available: seq<Geolocation>)
    requires AllHaveCity(available)
    ensures var c := CityOptions(available);
      && NoDuplicates(c) && SortedBy(c, CityKey)
      && (forall g :: g in c <==> exists i :: 0 <= i < |available| && g == CityOption(available[i]))
      && (forall i :: 0 <= i < |c| ==> c[i].city.Some? && c[i].radiusKm.None?)
  {
    SortedDistinctImage(available, CityOption, CityKey);
    var c := CityOptions(available);
    forall i | 0 <= i < |c| ensures c[i].city.Some? && c[i].radiusKm.None? {
      assert c[i] in c;
    }
  }

  /** The country options: each distinct country of an available location
      once, as a country-level facet, ordered by country. */
  lemma CountryOptionsSpec(available: seq<Geolocation>)
    ensures var n := CountryOptions(available);
      && NoDuplicates(n) && SortedBy(n, CountryKey)
      && (forall g :: g in n <==> exists i :: 0 <= i < |available| && g == CountryOption(available[i]))
      && (forall i :: 0 <= i < |n| ==> n[i].city.None? && n[i].radiusKm.None?)
  {
    SortedDistinctImage(available, CountryOption, CountryKey);
    var n := CountryOptions(available);
    forall i | 0 <= i < |n| ensures n[i].city.None? && n[i].radiusKm.None? {
      assert n[i] in n;
    }
  }

  /** The whole option list: cities first, then countries, no option twice. */
  lemma SelectorOptionsSpec(available: seq<Geolocation>)
    requires AllHaveCity(available)
    ensures var options, k := SelectorOptions(available), |CityOptions(available)|;
      && NoDuplicates(options)
      && (forall i :: 0 <= i < k ==> options[i].city.Some?)
      && (forall i :: k <= i < |options| ==> options[i].city.None?)
  {
    CityOptionsSpec(available);
    CountryOptionsSpec(available);
    var c, n := CityOptions(available), CountryOptions(available);
    var options, k := c + n, |c|;
    forall i | 0 <= i < k ensures options[i].city.Some? {
      assert options[i] == c[i];
    }
    forall i | k <= i < |options| ensures options[i].city.None? {
      assert options[i] == n[i - k];
    }
  }
}
