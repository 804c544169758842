/** The dashboard's data handling: the artist list kept between reruns, the
    in-place sort of the fetched events, the geographic and date filters, and
    the two display orders. */
module Dashboard {
  import opened Wrappers
  import opened Text
  import opened Dates
  import opened Ordering
  import opened Entities
  import opened Events
  import opened CountrySelector
  import opened Api

  const MaxTopArtists: nat := 50

  // ---------------------------------------------------------------- the artist list

  /** The list after a search: the found name goes in front, unless it is
      empty or already listed. */
  function AfterSearch(artists: seq<string>, newArtist: Option<string>): seq<string>
  {
    if newArtist.Some? && newArtist.value != "" && newArtist.value !in artists then [newArtist.value] + artists
    else artists
  }

  /** A search adds at most the searched name, at the front, keeps everyone
      else in order, and never creates a duplicate. */
  lemma AfterSearchSpec(artists: seq<string>, newArtist: Option<string>)
    ensures var r := AfterSearch(artists, newArtist);
      && (r == artists || (|r| == |artists| + 1 && r[1..] == artists))
      && (forall a :: a in r <==> a in artists || (newArtist == Some(a) && a != ""))
      && (NoDuplicates(artists) ==> NoDuplicates(r))
      && (newArtist.None? || newArtist.value == "" || newArtist.value in artists ==> r == artists)
      && (newArtist.Some? && newArtist.value != "" && newArtist.value !in artists ==> r == [newArtist.value] + artists)
  {
    var r := AfterSearch(artists, newArtist);
    if r != artists {
      assert r[1..] == artists;
      if NoDuplicates(artists) {
        forall i, j | 0 <= i < j < |r| ensures r[i] != r[j] {
          if i == 0 {
            assert r[j] == artists[j - 1];
          } else {
            assert r[i] == artists[i - 1] && r[j] == artists[j - 1];
          }
        }
      }
    }
  }

  /** The list after `artists[:MAX_TOP_ARTISTS]`. */
  function Capped(artists: seq<string>): seq<string>
  {
    if |artists| > MaxTopArtists then artists[..MaxTopArtists] else artists
  }

  /** Capping keeps the first fifty names, in order, and nothing else. */
  lemma CappedSpec(artists: seq<string>)
    ensures var r := Capped(artists);
      && |r| == (if |artists| < MaxTopArtists then |artists| else MaxTopArtists)
      && r == artists[..|r|]
      && (NoDuplicates(artists) ==> NoDuplicates(r))
  {
  }

  /** `st.session_state.artists`, kept across reruns. */
  class ArtistList {
    var artists: seq<string>

    /** Either the top artists from the backend or the empty list. */
    constructor(initial: seq<string>)
      ensures artists == initial
    {
      artists := initial;
    }

    /** `if new_artist and new_artist not in artists: artists.insert(0, new_artist)` */
    method AddSearched(newArtist: Option<string>)
      modifies this
      ensures artists == AfterSearch(old(artists), newArtist)
    {
      if newArtist.Some? && newArtist.value != "" && newArtist.value !in artists {
        artists := [newArtist.value] + artists;
      }
    }

    /** `if artists: artists = artists[:MAX_TOP_ARTISTS]` */
    method Cap()
      modifies this
      ensures artists == Capped(old(artists))
    {
      if |artists| > 0 {
        artists := artists[..if |artists| < MaxTopArtists then |artists| else MaxTopArtists];
      }
    }
  }

  // ---------------------------------------------------------------- ranks and keys

  /** `artists.index(name)`; `|artists|` stands for the `ValueError` raised
      when the name is absent. */
  function Rank(artists: seq<string>, name: string): (r: nat)
    ensures r <= |artists|
    ensures r < |artists| <==> name in artists
    ensures r < |artists| ==> artists[r] == name
    ensures forall j :: 0 <= j < r ==> artists[j] != name
  {
    if artists == [] then 0
    else if artists[0] == name then 0
    else 1 + Rank(artists[1..], name)
  }

  /** Every event's artist is listed, so no `index` call raises. */
  predicate AllRanked(events: seq<Event>, artists: seq<string>)
  {
    forall i :: 0 <= i < |events| ==> events[i].artist in artists
  }

  /** `(artists.index(x["artist"]), x["date"])` */
  function PlayKey(artists: seq<string>, e: Event): Key
  {
    [Num(Rank(artists, e.artist)), Str(Iso(e.date))]
  }

  /** `(x["date"], artists.index(x["artist"]))` */
  function DateKey(artists: seq<string>, e: Event): Key
  {
    [Str(Iso(e.date)), Num(Rank(artists, e.artist))]
  }

  function PlayOrder(artists: seq<string>): Event -> Key
  {
    e => PlayKey(artists, e)
  }

  function DateOrder(artists: seq<string>): Event -> Key
  {
    e => DateKey(artists, e)
  }

  /** The "Mostly played" key puts a better-ranked artist first whatever the
      dates; the date only orders events of the same artist. */
  lemma PlayKeyOrder(artists: seq<string>, a: Event, b: Event)
    ensures KeyLess(PlayKey(artists, a), PlayKey(artists, b)) <==>
            var ra, rb := Rank(artists, a.artist), Rank(artists, b.artist);
            ra < rb || (ra == rb && Before(a.date, b.date))
    ensures PlayKey(artists, a) == PlayKey(artists, b) <==>
            Rank(artists, a.artist) == Rank(artists, b.artist) && a.date == b.date
  {
    IsoOrder(a.date, b.date);
    var ka, kb := PlayKey(artists, a), PlayKey(artists, b);
    assert ka[1..] == [ka[1]] && kb[1..] == [kb[1]];
    assert KeyLess([ka[1]], [kb[1]]) <==> AtomLess(ka[1], kb[1]) by {
      assert [ka[1]][1..] == [] && [kb[1]][1..] == [];
    }
  }

  /** The "Date" key puts the earlier date first; the rank only orders events
      on the same day. */
  lemma DateKeyOrder(artists: seq<string>, a: Event, b: Event)
    ensures KeyLess(DateKey(artists, a), DateKey(artists, b)) <==>
            var ra, rb := Rank(artists, a.artist), Rank(artists, b.artist);
            Before(a.date, b.date) || (a.date == b.date && ra < rb)
    ensures DateKey(artists, a) == DateKey(artists, b) <==>
            Rank(artists, a.artist) == Rank(artists, b.artist) && a.date == b.date
  {
    IsoOrder(a.date, b.date);
    var ka, kb := DateKey(artists, a), DateKey(artists, b);
    assert ka[1..] == [ka[1]] && kb[1..] == [kb[1]];
    assert KeyLess([ka[1]], [kb[1]]) <==> AtomLess(ka[1], kb[1]) by {
      assert [ka[1]][1..] == [] && [kb[1]][1..] == [];
    }
  }

  /** Two events in "Mostly played" key order are in rank order, and in date
      order when the rank is shared. */
  lemma PlayKeyLeq(artists: seq<string>, a: Event, b: Event)
    requires KeyLeq(PlayKey(artists, a), PlayKey(artists, b))
    ensures var ra, rb := Rank(artists, a.artist), Rank(artists, b.artist);
            ra < rb || (ra == rb && !Before(b.date, a.date))
  {
    PlayKeyOrder(artists, a, b);
    PlayKeyOrder(artists, b, a);
    KeyLeqIsTotalOrder(PlayKey(artists, a), PlayKey(artists, b), PlayKey(artists, b));
  }

  /** Two events in "Date" key order are in date order, and in rank order on
      the same day. */
  lemma DateKeyLeq(artists: seq<string>, a: Event, b: Event)
    requires KeyLeq(DateKey(artists, a), DateKey(artists, b))
    ensures !Before(b.date, a.date)
    ensures a.date == b.date ==> Rank(artists, a.artist) <= Rank(artists, b.artist)
  {
    DateKeyOrder(artists, a, b);
    DateKeyOrder(artists, b, a);
    KeyLeqIsTotalOrder(DateKey(artists, a), DateKey(artists, b), DateKey(artists, b));
  }

  /** Sorted "Mostly played": the same events, by artist rank, and by date
      among one artist's events. */
  lemma MostlyPlayedOrder(events: seq<Event>, artists: seq<string>)
    ensures var s := SortBy(events, PlayOrder(artists));
      && multiset(s) == multiset(events)
      && forall i, j :: 0 <= i < j < |s| ==>
           var ri, rj := Rank(artists, s[i].artist), Rank(artists, s[j].artist);
           ri < rj || (ri == rj && !Before(s[j].date, s[i].date))
  {
    var key := PlayOrder(artists);
    SortByCorrect(events, key);
    var s := SortBy(events, key);
    forall i, j | 0 <= i < j < |s|
      ensures var ri, rj := Rank(artists, s[i].artist), Rank(artists, s[j].artist);
              ri < rj || (ri == rj && !Before(s[j].date, s[i].date))
    {
      assert KeyLeq(key(s[i]), key(s[j]));
      PlayKeyLeq(artists, s[i], s[j]);
    }
  }

  /** Sorted "Date": the same events, by date, and by artist rank among the
      events of one day. */
  lemma ByDateOrder(events: seq<Event>, artists: seq<string>)
    ensures var s := SortBy(events, DateOrder(artists));
      && multiset(s) == multiset(events)
      && forall i, j :: 0 <= i < j < |s| ==>
           && !Before(s[j].date, s[i].date)
           && (s[i].date == s[j].date ==> Rank(artists, s[i].artist) <= Rank(artists, s[j].artist))
  {
    var key := DateOrder(artists);
    SortByCorrect(events, key);
    var s := SortBy(events, key);
    forall i, j | 0 <= i < j < |s|
      ensures && !Before(s[j].date, s[i].date)
              && (s[i].date == s[j].date ==> Rank(artists, s[i].artist) <= Rank(artists, s[j].artist))
    {
      assert KeyLeq(key(s[i]), key(s[j]));
      DateKeyLeq(artists, s[i], s[j]);
    }
  }

  /** `events.sort(key=lambda x: (artists.index(x["artist"]), x["date"]))`:
      every key is computed before anything moves, so an unlisted artist
      raises and leaves the list as it was. */
  method SortByPlayCount(events: array<Event>, artists: seq<string>) returns (ok: bool)
    modifies events
    ensures ok <==> AllRanked(old(events[..]), artists)
    ensures ok ==> events[..] == SortBy(old(events[..]), PlayOrder(artists))
    ensures !ok ==> events[..] == old(events[..])
  {
    for i := 0 to events.Length
      invariant forall j :: 0 <= j < i ==> events[j].artist in artists
    {
      if events[i].artist !in artists {
        return false;
      }
    }
    var sorted := SortBy(events[..], PlayOrder(artists));
    ghost var original := events[..];
    for i := 0 to events.Length
      invariant events[..i] == sorted[..i]
    {
      events[i] := sorted[i];
    }
    assert events[..] == sorted[..events.Length];
    ok := true;
  }

  /** The events the backend returns for the listed artists are all ranked:
      each was found under one of the names sent, and every name sent is
      listed. */
  lemma FetchedEventsRanked(vendor: Vendor, names: seq<string>, artists: seq<string>)
    requires forall n :: n in names ==> n in artists
    requires AllEvents(vendor, names).Ok?
    ensures AllRanked(AllEvents(vendor, names).value, artists)
  {
    FoundEventsBelongToNames(vendor, names);
  }

  // ---------------------------------------------------------------- geographic filter

  /** `Geolocation(country=x["country"], country_code=x["country_code"], city=x["city"])` */
  function GeoOf(e: Event): Geolocation
  {
    NewGeolocation(e.country, e.countryCode, Some(e.city), None)
  }

  /** `list({Geolocation(...) for event in events})`: each location once. */
  function Available(events: seq<Event>): (r: seq<Geolocation>)
    ensures NoDuplicates(r)
    ensures forall g :: g in r <==> exists i :: 0 <= i < |events| && g == GeoOf(events[i])
  {
    var m := Map(events, GeoOf);
    assert forall g :: g in m <==> exists i :: 0 <= i < |events| && g == GeoOf(events[i]) by {
      forall g | g in m ensures exists i :: 0 <= i < |events| && g == GeoOf(events[i]) {
        var i :| 0 <= i < |m| && m[i] == g;
      }
    }
    Distinct(m)
  }

  predicate InSelection(selected: set<Geolocation>, e: Event)
  {
    GeoOf(e) in selected
  }

  /** The geographic filter: the events whose location is selected, in order. */
  function GeoFilter(events: seq<Event>, selected: set<Geolocation>): seq<Event>
  {
    Filter(events, e => InSelection(selected, e))
  }

  /** A country-level facet keeps exactly the events in that country. */
  lemma CountryFacetSelectsCountry(events: seq<Event>, s: Geolocation)
    requires s.city.None?
    ensures GeoFilter(events, Unwrapped([s], Available(events))) == Filter(events, (e: Event) => e.country == s.country)
  {
    var selected := Unwrapped([s], Available(events));
    forall i | 0 <= i < |events| ensures InSelection(selected, events[i]) == (events[i].country == s.country) {
      var g := GeoOf(events[i]);
      UnwrappedContents([s], Available(events), g);
      assert g in Available(events);
    }
    FilterCongruent(events, e => InSelection(selected, e), (e: Event) => e.country == s.country);
  }

  /** A city-level facet keeps exactly the events at that location: that
      city, country and country code. */
  lemma CityFacetSelectsCity(events: seq<Event>, c: Geolocation)
    requires c.city.Some?
    ensures GeoFilter(events, Unwrapped([c], Available(events))) == Filter(events, (e: Event) => GeoOf(e) == c)
    ensures forall e :: e in GeoFilter(events, Unwrapped([c], Available(events))) ==>
              e.city == c.city.value && e.country == c.country
  {
    var selected := Unwrapped([c], Available(events));
    forall i | 0 <= i < |events| ensures InSelection(selected, events[i]) == (GeoOf(events[i]) == c) {
      UnwrappedContents([c], Available(events), GeoOf(events[i]));
    }
    FilterCongruent(events, e => InSelection(selected, e), (e: Event) => GeoOf(e) == c);
  }

  // ---------------------------------------------------------------- date window

  /** `min(events, key=lambda x: x["date"])`: the first event with the
      smallest date string. */
  function Earliest(events: seq<Event>): (r: Event)
    requires |events| > 0
    ensures r in events
  {
    if |events| == 1 then events[0]
    else
      var best := Earliest(events[..|events| - 1]);
      var last := events[|events| - 1];
      if LexLess(Iso(last.date), Iso(best.date)) then last else best
  }

  /** `max(events, key=lambda x: x["date"])`: the first event with the
      largest date string. */
  function Latest(events: seq<Event>): (r: Event)
    requires |events| > 0
    ensures r in events
  {
    if |events| == 1 then events[0]
    else
      var best := Latest(events[..|events| - 1]);
      var last := events[|events| - 1];
      if LexLess(Iso(best.date), Iso(last.date)) then last else best
  }

  /** One step of `min`: the kept date is no later than the running minimum
      bound `d` allows, nor than the new candidate. */
  lemma EarliestStep(d: CalendarDate, best: CalendarDate, last: CalendarDate)
    requires !Before(d, best)
    ensures var m := if LexLess(Iso(last), Iso(best)) then last else best;
            !Before(d, m) && !Before(last, m)
  {
    IsoOrder(last, best);
    BeforeIsStrictOrder(d, last, best);
  }

  /** One step of `max`, the mirror image of `EarliestStep`. */
  lemma LatestStep(d: CalendarDate, best: CalendarDate, last: CalendarDate)
    requires !Before(best, d)
    ensures var m := if LexLess(Iso(best), Iso(last)) then last else best;
            !Before(m, d) && !Before(m, last)
  {
    IsoOrder(best, last);
    BeforeIsStrictOrder(best, last, d);
  }

  /** No event is dated before the earliest. */
  lemma {:induction false} EarliestIsMinimal(events: seq<Event>)
    requires |events| > 0
    ensures forall e :: e in events ==> !Before(e.date, Earliest(events).date)
  {
    if |events| > 1 {
      var init := events[..|events| - 1];
      var last := events[|events| - 1];
      EarliestIsMinimal(init);
      var best := Earliest(init);
      assert Earliest(events) == if LexLess(Iso(last.date), Iso(best.date)) then last else best;
      EarliestStep(best.date, best.date, last.date);
      forall e | e in events ensures !Before(e.date, Earliest(events).date) {
        var i :| 0 <= i < |events| && events[i] == e;
        if i < |events| - 1 {
          assert init[i] == e;
          EarliestStep(e.date, best.date, last.date);
        }
      }
    }
  }

  /** No event is dated after the latest. */
  lemma {:induction false} LatestIsMaximal(events: seq<Event>)
    requires |events| > 0
    ensures forall e :: e in events ==> !Before(Latest(events).date, e.date)
  {
    if |events| > 1 {
      var init := events[..|events| - 1];
      var last := events[|events| - 1];
      LatestIsMaximal(init);
      var best := Latest(init);
      assert Latest(events) == if LexLess(Iso(best.date), Iso(last.date)) then last else best;
      LatestStep(best.date, best.date, last.date);
      forall e | e in events ensures !Before(Latest(events).date, e.date) {
        var i :| 0 <= i < |events| && events[i] == e;
        if i < |events| - 1 {
          assert init[i] == e;
          LatestStep(e.date, best.date, last.date);
        }
      }
    }
  }

  /** The date picker's default `(min_date, max_date)`: what `strptime` reads
      back from the smallest and largest date strings. */
  function DefaultWindow(events: seq<Event>): (w: (CalendarDate, CalendarDate))
    requires |events| > 0
    ensures ParseDate(Iso(Earliest(events).date)) == Some(w.0)
    ensures ParseDate(Iso(Latest(events).date)) == Some(w.1)
  {
    ParseIso(Earliest(events).date);
    ParseIso(Latest(events).date);
    (Earliest(events).date, Latest(events).date)
  }

  /** `lo <= d <= hi` on `datetime.date` */
  predicate InWindow(d: Date, lo: Date, hi: Date)
  {
    !Before(d, lo) && !Before(hi, d)
  }

  /** `lo <= strptime(x["date"], "%Y-%m-%d").date() <= hi` */
  predicate DateSelected(lo: CalendarDate, hi: CalendarDate, e: Event)
  {
    ParseDate(Iso(e.date)).Some? && InWindow(ParseDate(Iso(e.date)).value, lo, hi)
  }

  /** The date filter. */
  function DateFilter(events: seq<Event>, lo: CalendarDate, hi: CalendarDate): seq<Event>
  {
    Filter(events, e => DateSelected(lo, hi, e))
  }

  /** Filtering on the re-parsed date strings is filtering on the dates,
      inclusive at both ends. */
  lemma DateFilterChronological(events: seq<Event>, lo: CalendarDate, hi: CalendarDate)
    ensures DateFilter(events, lo, hi) == Filter(events, (e: Event) => InWindow(e.date, lo, hi))
    ensures forall e :: e in events && (e.date == lo || e.date == hi) && !Before(hi, lo) ==>
              e in DateFilter(events, lo, hi)
  {
    forall i | 0 <= i < |events| ensures DateSelected(lo, hi, events[i]) == InWindow(events[i].date, lo, hi) {
      ParseIso(events[i].date);
    }
    FilterCongruent(events, e => DateSelected(lo, hi, e), (e: Event) => InWindow(e.date, lo, hi));
  }

  /** The default window drops nothing. */
  lemma DefaultWindowKeepsAll(events: seq<Event>)
    requires |events| > 0
    ensures DateFilter(events, DefaultWindow(events).0, DefaultWindow(events).1) == events
  {
    var w := DefaultWindow(events);
    var lo, hi := Earliest(events).date, Latest(events).date;
    assert w == (lo, hi);
    EarliestIsMinimal(events);
    LatestIsMaximal(events);
    var inWindow := (e: Event) => InWindow(e.date, lo, hi);
    forall i | 0 <= i < |events| ensures inWindow(events[i]) {
      assert events[i] in events;
    }
    DateFilterChronological(events, lo, hi);
    FilterAll(events, inWindow);
  }

  // ---------------------------------------------------------------- display order

  const MostlyPlayed: string := "Mostly played"
  const ByDate: string := "Date"

  /** Why the table cannot be built: an unlisted artist makes `index` raise,
      an unknown selector value raises `ValueError`, and a frame built from no
      rows has no "city" column, so reading it raises `KeyError`. */
  datatype DisplayError = ArtistNotRanked | UnknownSortOrder(sortBy: string) | NoCityColumn

  /** The `sorted(...)` chosen by the "Sort by" selector. */
  function SortEvents(events: seq<Event>, artists: seq<string>, sortBy: string): (r: Result<seq<Event>, DisplayError>)
    ensures r == Err(UnknownSortOrder(sortBy)) <==> sortBy != MostlyPlayed && sortBy != ByDate
    ensures r == Err(ArtistNotRanked) <==> (sortBy == MostlyPlayed || sortBy == ByDate) && !AllRanked(events, artists)
    ensures r.Ok? ==> multiset(r.value) == multiset(events)
    ensures r.Ok? && sortBy == MostlyPlayed ==> r.value == SortBy(events, PlayOrder(artists))
    ensures r.Ok? && sortBy == ByDate ==> r.value == SortBy(events, DateOrder(artists))
  {
    if sortBy == MostlyPlayed then
      if AllRanked(events, artists) then
        SortByCorrect(events, PlayOrder(artists));
        Ok(SortBy(events, PlayOrder(artists)))
      else Err(ArtistNotRanked)
    else if sortBy == ByDate then
      if AllRanked(events, artists) then
        SortByCorrect(events, DateOrder(artists));
        Ok(SortBy(events, DateOrder(artists)))
      else Err(ArtistNotRanked)
    else Err(UnknownSortOrder(sortBy))
  }

  /** The table shown for the sorted events, a selection, a date window and a
      sort order. No event at a selected location shows "No events match the
      filters", here the empty table; a window that keeps none of them builds
      a frame without columns and fails on its "city" column. */
  function Displayed(events: seq<Event>, artists: seq<string>, selected: set<Geolocation>,
                     lo: CalendarDate, hi: CalendarDate, sortBy: string): Result<seq<Event>, DisplayError>
  {
    var geo := GeoFilter(events, selected);
    if geo == [] then Ok([])
    else match SortEvents(DateFilter(geo, lo, hi), artists, sortBy)
      case Err(f) => Err(f)
      case Ok(rows) => if rows == [] then Err(NoCityColumn) else Ok(rows)
  }

  /** The table is empty exactly when no event is at a selected location; a
      known sort order with an empty window fails on the missing column. */
  lemma DisplayedEmptyCases(events: seq<Event>, artists: seq<string>, selected: set<Geolocation>,
                            lo: CalendarDate, hi: CalendarDate, sortBy: string)
    ensures Displayed(events, artists, selected, lo, hi, sortBy) == Ok([]) <==> GeoFilter(events, selected) == []
    ensures GeoFilter(events, selected) != [] && DateFilter(GeoFilter(events, selected), lo, hi) == []
            && (sortBy == MostlyPlayed || sortBy == ByDate)
            ==> Displayed(events, artists, selected, lo, hi, sortBy) == Err(NoCityColumn)
  {
    var geo := GeoFilter(events, selected);
    var dated := DateFilter(geo, lo, hi);
    if geo != [] && (sortBy == MostlyPlayed || sortBy == ByDate) {
      var r := SortEvents(dated, artists, sortBy);
      if r.Ok? && dated == [] {
        assert multiset(r.value) == multiset{};
      }
    }
  }

  /** When some event is at a selected location, the table is the events
      inside the window, sorted by the chosen order: every such event appears
      exactly as often as it was fetched, and no other. */
  lemma DisplayedRows(events: seq<Event>, artists: seq<string>, selected: set<Geolocation>,
                      lo: CalendarDate, hi: CalendarDate, sortBy: string)
    requires GeoFilter(events, selected) != []
    requires Displayed(events, artists, selected, lo, hi, sortBy).Ok?
    ensures var dated := DateFilter(GeoFilter(events, selected), lo, hi);
      && SortEvents(dated, artists, sortBy).Ok?
      && Displayed(events, artists, selected, lo, hi, sortBy).value == SortEvents(dated, artists, sortBy).value
      && multiset(Displayed(events, artists, selected, lo, hi, sortBy).value) == multiset(dated)
    ensures forall e :: e in events && GeoOf(e) in selected && InWindow(e.date, lo, hi) ==>
              e in Displayed(events, artists, selected, lo, hi, sortBy).value
  {
    var geo := GeoFilter(events, selected);
    var dated := DateFilter(geo, lo, hi);
    var r := Displayed(events, artists, selected, lo, hi, sortBy).value;
    DateFilterChronological(geo, lo, hi);
    forall e | e in events && GeoOf(e) in selected && InWindow(e.date, lo, hi) ensures e in r {
      assert InSelection(selected, e);
      assert e in geo;
      assert e in dated;
      assert e in multiset(r);
    }
  }

  /** The table holds some of the fetched events, each at most as often as
      fetched, each at a selected location and inside the window. */
  lemma DisplayedSpec(events: seq<Event>, artists: seq<string>, selected: set<Geolocation>,
                      lo: CalendarDate, hi: CalendarDate, sortBy: string)
    requires Displayed(events, artists, selected, lo, hi, sortBy).Ok?
    ensures var r := Displayed(events, artists, selected, lo, hi, sortBy).value;
      && multiset(r) <= multiset(events)
      && forall e :: e in r ==> GeoOf(e) in selected && InWindow(e.date, lo, hi)
  {
    var geo := GeoFilter(events, selected);
    FilterSubMultiset(events, e => InSelection(selected, e));
    if geo != [] {
      var dated := DateFilter(geo, lo, hi);
      FilterSubMultiset(geo, e => DateSelected(lo, hi, e));
      DateFilterChronological(geo, lo, hi);
      var r := Displayed(events, artists, selected, lo, hi, sortBy).value;
      forall e | e in r ensures GeoOf(e) in selected && InWindow(e.date, lo, hi) {
        assert e in multiset(dated);
      }
    }
  }
}
