# concerts_searcher — a verified model of its core

concerts_searcher finds concerts for a listener's favourite artists. It has three parts:

- **Ticketing search.** A paginated search against the ticketing directory's event search collects the events listed under each artist's name.
- **Backend.** A small web backend gathers those searches and handles the music-streaming sign-in. Sign-in uses an authorisation URL, a callback that creates a session and redirects, and session-guarded profile and top-artist endpoints.
- **Dashboard.** The dashboard keeps a list of artists, fetches their events, and offers a selector of cities and countries, a date window and two sort orders.

This project models the logic of those parts and proves what each promises. The HTTP, asynchronous and UI layers become inputs.

Modules, one per source concern:

| module | models |
|---|---|
| `Wrappers` | `Option` and `Result` |
| `Text` | `str` as Python compares, upper-/lower-cases, strips, splits and prints it |
| `Dates` | `datetime.date`, its ISO spelling, and `strptime(s, "%Y-%m-%d")` |
| `Ordering` | tuple keys, the stable `sorted`/`list.sort`, `filter`, de-duplication by `set` |
| `Entities` | the `Event` record |
| `Events` | `events.py`: `get_page` and `get_events_by_name` |
| `Uuids` | `uuid.UUID(text)` and `str(uuid)` |
| `Api` | `backend/api.py`: `/events`, the session backend, `/user/top_artists`, `/user/info`, `/login`, `/callback` |
| `CountrySelector` | `frontend/country_selector.py` |
| `Dashboard` | `frontend/dashboard.py` |

Modelling choices:

- **The ticketing directory.** It is a function from (keyword, page number) to the responses returned by successive attempts at that request. A missing JSON key is `None`.
- **`get_page` and `get_events_by_name`.**
  - `get_page` retries while the directory answers with a spike arrest.
  - `get_events_by_name` reads page 0 and clamps the page count to `min(totalPages, ceil(1000/200))`, which is 5.
  - It then requests pages 1 to n-1. The `asyncio.gather` is modelled as a sequential loop in page order, where the first failure in that order is the one reported.
  - It loops over the pages and their records exactly as the source does.
  - Each is written as a method with loops. Each is proved equal to a recursive specification function, and the specification's properties are proved as lemmas.
- **Converting a record.** The keyword arguments of `Event(...)` are evaluated in order.
  - A `KeyError` drops the record.
  - An empty venue list (`IndexError`) or an unparsable date (`ValueError`) escapes the `except KeyError` and ends the whole search.
- **`find_events`.** It gathers the per-name searches, then extends one list with each result.
- **The session backend.** It is a class holding a map. `create` refuses an id that is already stored.
  - `UUID(header)` raising gives status 500.
  - An unknown id gives 401.
- **The `top_artists` loop.** It is a method over an abstract provider of pages.
- **The two URLs.** The login and redirect URLs are strings. Lemmas prove the query parts a receiver reads back from them.
- **The dashboard's artist list.** It is a class whose methods insert and cap.
- **`events.sort`.** It is a method on an array that either leaves the array as it was (an unlisted artist makes `index` raise while keys are computed) or writes the stable sort into it.

Where the two `Event` shapes differ, the code decides:

- `events.py` builds events with a `distance_km` float and no `country_code`.
- The dashboard reads `country_code` from the record of `frontend/entities.py`.

The model has one `Event` with `countryCode` and without the float. Record conversion fills `countryCode` with the empty string, because `events.py` never sets it. The presence of the `distance` key is still modelled, since its absence drops a record.

## Model

| member | source | states |
|---|---|---|
| Events.CeilDiv | events.py:51 | `math.ceil(a / b)`: the result times `b` is the least multiple of `b` not below `a` |
| Events.Classify | events.py:103-114 | a response is accepted unchanged iff it has no `fault`; it is retried iff the fault's error code is the spike-arrest code; any other fault fails |
| Events.FetchPageFirstDecisive | events.py:86-114 | the outcome of a page request is decided by the first response that is not a spike arrest: that response's page when it has no fault, a failure otherwise |
| Events.GetPage | events.py:86-114 | the retry loop returns exactly the outcome the first decisive response dictates (`FetchPage`), or keeps retrying when every response is a spike arrest |
| Events.PagesToUse | events.py:51 | the page count is the reported `totalPages` clamped to at most 5; a missing `totalPages` is a `KeyError` |
| Events.LaterPages | events.py:55 | the pages requested after page 0 are exactly 1, 2, …, n-1 (none when n ≤ 1) |
| Events.ClassifyPage | events.py:57-66 | a page is skipped iff its first error code is "DIS1035" or "DIS1024"; its records are used iff it has no "errors" and has events; every other page aborts |
| Events.Convert | events.py:66-80 | a record is converted iff every key read is present, the venue list is non-empty and the local date parses; the event then carries the search keyword as artist and the record's id, name, url, first venue's city and country, and parsed local date; a record missing id, name, url or venues is dropped; the search fails iff the venue list is empty or every key is present but the date does not parse |
| Events.ConvertedRecordKept | events.py:66-77 | a converted record's event sits between the events of the records before it and those of the records after it |
| Events.ConvertRecordsAppend | events.py:66-80 | the record loop over `a + b` gives `a`'s events followed by `b`'s, with the first fatal record's failure winning |
| Events.DroppedRecordKeepsSiblings | events.py:67-80 | a record dropped for a missing key leaves its siblings' events exactly as they would be without it |
| Events.ProcessPagesAppend | events.py:57-80 | the page loop over `a + b` gives `a`'s events followed by `b`'s, with the first failure winning |
| Events.ProcessSinglePage | events.py:57-80 | the page loop over one page is that page's own contribution |
| Events.PagesInOrder | events.py:55-57 | in a successful search the events follow page order: those of the earlier pages, then those of the later |
| Events.SkippedPageContributesNothing | events.py:58-61 | a limit-exceeded page contributes no events and does not stop the pages after it |
| Events.AbortingPageFailsSearch | events.py:62-64 | a page with any other error payload fails the whole search, wherever it stands |
| Events.ConvertRecordsBound | events.py:66-80 | a page yields at most one event per record, each the conversion of one of its records |
| Events.ProcessPagesContents | events.py:57-83 | a successful search returns at most as many events as the used pages hold records, each the conversion of a record of a used page |
| Events.EventsCarryKeyword | events.py:68-69 | every event a search returns has the search keyword as its artist |
| Events.ZeroPagesMeansEmpty | events.py:51-53 | when page 0 reports zero pages the search is empty and only page 0 is requested, whatever page 0 holds |
| Events.FetchAllValues | events.py:55 | the gather of the later pages succeeds iff every page request does, and then holds one page per request, in the order requested |
| Events.FetchAllFirstFailure | events.py:55 | a failed gather of the later pages reports the first failing request in page order |
| Events.SearchPagesInOrder | events.py:51-57 | the pages processed after page 0 are pages 1 to n-1, in that order, each as its request returned it |
| Events.FetchLater | events.py:55 | the loop over the later page requests computes `FetchAll`, whose order and failure are given by `FetchAllValues` and `FetchAllFirstFailure` |
| Events.ConvertPage | events.py:66-80 | the record loop appends each converted event, skips dropped records and stops at the first fatal one (`ConvertRecords`) |
| Events.ProcessFetched | events.py:57-83 | the page loop skips limit-exceeded pages, raises on other error payloads and converts the remaining pages' records in order (`ProcessPages`) |
| Events.EventsByName | events.py:45-83 | the search as a function: page 0, the clamp, the later pages in order and the page and record loops; what it returns is stated by `EventsCarryKeyword`, `ZeroPagesMeansEmpty`, `SearchPagesInOrder` and the `ProcessPages` lemmas, and `GetEventsByName` is proved to compute it |
| Events.GetEventsByName | events.py:45-83 | the search returns `EventsByName`; the pages requested are 0, 1, …, k-1 with 1 ≤ k ≤ 5 |
| Api.GatherSpec | backend/api.py:52 | the gathered results are the per-name searches' results, one per name in order; they fail iff some search fails, with the first failure in name order |
| Api.FindEventsConcatenates | backend/api.py:48-56 | `/events` returns the per-name results concatenated in the order of `names`; its length is the sum of their lengths |
| Api.FoundEventsBelongToNames | backend/api.py:48-56 | every event `/events` returns was found under one of the names asked for |
| Api.FindEvents | backend/api.py:48-56 | the gather-then-extend loops compute `AllEvents` |
| Api.SessionStore.constructor | backend/api.py:27 | the session backend starts empty |
| Api.SessionStore.Create | backend/api.py:134 | a session is stored iff its id is not stored yet; otherwise nothing changes |
| Api.SessionStore.Read | backend/api.py:68 | reading gives the stored data iff the id is stored |
| Api.Authenticate | backend/api.py:68-71 | a header that `UUID()` refuses is a 500, a well-formed id with no session a 401, and otherwise the stored data is returned |
| Api.UnknownSessionIsUnauthorized | backend/api.py:68-71 | an id never stored is refused with 401, whether sent in its canonical or its plain 32-digit spelling |
| Api.StoredSessionIsFound | backend/api.py:133-137 | after storing `data` under `id`, the id as the redirect spells it authenticates to exactly `data` |
| Api.CollectedExtends | backend/api.py:80-86 | reading more top-artist pages only appends: the earlier names keep their place in front |
| Api.CollectTopArtists | backend/api.py:77-88 | the loop requests offsets 0, 50, 100, … and stops after the first page without `next`; the names are those pages' items concatenated in order |
| Api.TopArtists | backend/api.py:66-88 | `/user/top_artists` passes the session check's error through unchanged without requesting any page; otherwise it returns the collected names of the session's token |
| Api.UserInfo | backend/api.py:96-111 | `/user/info` is a 500 iff the header is not a UUID; it is a 401 iff the session is unknown or the profile request's status is not 200; otherwise it returns the profile body |
| Api.LoginUrl | backend/api.py:91-93 | the login URL; its query parameters, in order and with intact values, are stated by `LoginUrlParams` |
| Api.LoginUrlParams | backend/api.py:91-93 | the login URL is the authorisation URL followed by a query of exactly `response_type=code`, `client_id`, `scope=user-top-read` and `redirect_uri`, in that order and with their values intact |
| Api.RedirectUrl | backend/api.py:136-138 | the redirect after `/callback`; that its only query part reads back the new session id is stated by `RedirectCarriesSession` |
| Api.RedirectCarriesSession | backend/api.py:136-138 | the redirect goes to the frontend address followed by `/?`; its only query part is `session=<id>`, and its value parses back to the stored id |
| Api.SessionOf | backend/api.py:127-131 | session data can be built iff the token reply holds all three keys, and then holds the reply's access token, refresh token and expiry |
| Api.Callback | backend/api.py:114-138 | the callback succeeds iff the token reply is 2xx, holds all three keys and the id is fresh; it then stores the data under the id, redirects to the dashboard with the id, and the id authenticates to the stored data; otherwise it is a 500 and the store is unchanged |
| CountrySelector.FlagEmoji | frontend/country_selector.py:15-18 | every character moves up by 127397 code points, so the flag is as long as the code; the flag exists iff no shifted character passes U+10FFFF |
| CountrySelector.FlagOfLettersIsRegionalIndicators | frontend/country_selector.py:15-18 | a code of capital letters becomes regional indicator symbols in U+1F1E6..U+1F1FF |
| CountrySelector.NewGeolocation | frontend/country_selector.py:21-32 | after construction the country code is the upper-cased code given, so it is upper case and keeps its length; the other fields are as given |
| CountrySelector.NewGeolocationIdempotent | frontend/country_selector.py:31-32 | constructing again from a constructed value's fields changes nothing |
| CountrySelector.HashKey | frontend/country_selector.py:28-29 | the tuple `__hash__` hashes; its independence from case and radius is stated by `HashIgnoresCaseAndRadius`, and its agreement on case variants by `EqualityIsCaseSensitive` |
| CountrySelector.HashIgnoresCaseAndRadius | frontend/country_selector.py:28-29 | the hash ignores the case of country, code and city and ignores the radius |
| CountrySelector.EqualityIsCaseSensitive | frontend/country_selector.py:21-29 | for every facet with a city, replacing the city by a different spelling that upper-cases the same gives an unequal facet with the same hash |
| CountrySelector.CaseVariantCities | frontend/country_selector.py:21-29 | such spellings exist: "amsterdam" and "AMSTERDAM" differ and upper-case alike |
| CountrySelector.FormatAsCity | frontend/country_selector.py:44-48 | `format_as_city` raises iff the city is unset or empty |
| CountrySelector.FormatAsRegion | frontend/country_selector.py:53-57 | `format_as_region` raises iff the city is `None` |
| CountrySelector.FormatAsCountry | frontend/country_selector.py:50-51 | `format_as_country` succeeds iff the flag of the code exists, and then shows the flag, a blank and the country |
| CountrySelector.Format | frontend/country_selector.py:35-42 | `format`; the text for each combination of set fields and its one failure are stated by `FormatCases` |
| CountrySelector.FormatCases | frontend/country_selector.py:35-42 | city and a non-zero radius give "city +r km", a city alone gives "city, country", anything else gives the country format; `format` raises only for a code point past U+10FFFF, never for a letter code |
| CountrySelector.EmptyCityFormatters | frontend/country_selector.py:44-57 | for an empty city `format_as_city` raises while `format_as_region` formats it |
| CountrySelector.UnwrappedContents | frontend/country_selector.py:60-77 | the expansion holds exactly the city-level selections and the available facets whose country equals a selected country's |
| CountrySelector.UnwrappedAppend | frontend/country_selector.py:64-77 | the expansion of a concatenation is the union of the expansions, so it only grows with the selection |
| CountrySelector.UnwrapGeolocations | frontend/country_selector.py:60-77 | the loop's set is the expansion `Unwrapped` |
| CountrySelector.CityOptionsSpec | frontend/country_selector.py:104-107 | the city options are the distinct city-level facets of the available locations, radius dropped, each once and ordered by city |
| CountrySelector.CountryOptionsSpec | frontend/country_selector.py:108-112 | the country options are the distinct country-level facets of the available locations, each once and ordered by country |
| CountrySelector.SelectorOptionsSpec | frontend/country_selector.py:113 | the option list is the cities and then the countries, with no option twice |
| Dashboard.AfterSearchSpec | frontend/dashboard.py:82-84 | a search adds at most the searched name, at the front, only when it is non-empty and absent, and otherwise leaves the list as it was; everyone else keeps their order and no duplicate is created |
| Dashboard.CappedSpec | frontend/dashboard.py:7 | capping keeps the first min(n, 50) names in order and keeps the list free of duplicates |
| Dashboard.ArtistList.constructor | frontend/dashboard.py:77-80 | the list starts as the top artists or empty |
| Dashboard.ArtistList.AddSearched | frontend/dashboard.py:83-84 | the list becomes `AfterSearch` of the old list |
| Dashboard.ArtistList.Cap | frontend/dashboard.py:86-87 | the list becomes `Capped` of the old list |
| Dashboard.Rank | frontend/dashboard.py:97 | `index` gives the first position of the name, and is defined iff the name is listed |
| Dashboard.PlayKeyOrder | frontend/dashboard.py:133 | the "Mostly played" key orders by artist rank first and by date only within one artist |
| Dashboard.DateKeyOrder | frontend/dashboard.py:138 | the "Date" key orders by date first and by artist rank only within one day |
| Dashboard.MostlyPlayedOrder | frontend/dashboard.py:130-134 | sorted "Mostly played" is a permutation, by rank and then chronologically within an artist |
| Dashboard.ByDateOrder | frontend/dashboard.py:135-139 | sorted "Date" is a permutation, chronological and then by rank within a day |
| Dashboard.SortByPlayCount | frontend/dashboard.py:96-100 | the in-place sort succeeds iff every artist is listed, and then holds the stable sort by (rank, date); otherwise the array is unchanged |
| Dashboard.FetchedEventsRanked | frontend/dashboard.py:93-97 | events fetched for the listed artists all have a rank, so `index` never raises |
| Dashboard.Available | frontend/dashboard.py:105-107 | the available locations are the events' locations, each once |
| Dashboard.GeoFilter | frontend/dashboard.py:109-112 | the location filter; which events a country or a city facet keeps, in order, is stated by `CountryFacetSelectsCountry` and `CityFacetSelectsCity`, and that it adds nothing by `FilterSubMultiset` |
| Dashboard.CountryFacetSelectsCountry | frontend/dashboard.py:104-112 | selecting a country keeps exactly the events in that country, in order |
| Dashboard.CityFacetSelectsCity | frontend/dashboard.py:104-112 | selecting a city keeps exactly the events at that location, in order |
| Dashboard.EarliestIsMinimal | frontend/dashboard.py:115 | no event is dated before the one `min` picks |
| Dashboard.LatestIsMaximal | frontend/dashboard.py:116 | no event is dated after the one `max` picks |
| Dashboard.DefaultWindow | frontend/dashboard.py:115-116 | the window's ends are what `strptime` reads back from the smallest and largest date strings |
| Dashboard.DateFilterChronological | frontend/dashboard.py:120-123 | filtering on the re-parsed date strings keeps exactly the events dated inside the window, inclusive at both ends |
| Dashboard.DefaultWindowKeepsAll | frontend/dashboard.py:115-123 | the default window drops no event |
| Dashboard.SortEvents | frontend/dashboard.py:125-141 | an unknown sort order raises; a known order raises iff some artist is unlisted; otherwise the result is a permutation, sorted by the play key for "Mostly played" and by the date key for "Date" (ordered as `MostlyPlayedOrder` and `ByDateOrder` state) |
| Dashboard.DisplayedEmptyCases | frontend/dashboard.py:113-158 | the table is empty exactly when no event is at a selected location; with a known sort order, a window that keeps none of them fails on the missing "city" column |
| Dashboard.Displayed | frontend/dashboard.py:113-158 | the displayed table; `DisplayedRows` states that it is `SortEvents` of the window-filtered, geo-filtered events. Its order then follows from `SortEvents` with `MostlyPlayedOrder` and `ByDateOrder`, its rows from `DisplayedSpec`, and its empty and failing cases from `DisplayedEmptyCases` |
| Dashboard.DisplayedRows | frontend/dashboard.py:109-139 | when some event is at a selected location, the table is the chosen sort of the events inside the window: exactly those events, each as often as fetched, and every selected in-window event is shown |
| Dashboard.DisplayedSpec | frontend/dashboard.py:109-141 | the table holds each fetched event at most as often as fetched, each at a selected location and inside the window |
| Dates.IsoOrder | frontend/dashboard.py:99 | comparing two ISO date strings as `str` is comparing the dates, and the spelling is one-to-one |
| Dates.ParseIso | frontend/dashboard.py:121 | `strptime` of a date's ISO spelling gives the date back |
| Dates.ParseDate | events.py:76 | a date `strptime` accepts comes from 8 to 10 characters that split as a four-digit year, a `%m` month field and a `%d` day field joined by hyphens, and it is the date those fields name |
| Dates.ParseDateFields | events.py:76 | every spelling `%Y-%m-%d` matches (four-digit year, month field, day field, hyphens between) parses to that date, or fails when the calendar has no such day |
| Uuids.Canonical | backend/api.py:137 | `str(uuid)` is 36 characters: lower-case hex digits with hyphens at 8, 13, 18 and 23 |
| Uuids.ParseUuid | backend/api.py:68 | `UUID(text)` succeeds iff exactly 32 hex digits remain once the prefixes, braces and hyphens are removed, and the id is those digits in lower case |
| Uuids.ParseCanonical | backend/api.py:133-137 | `UUID(str(u)) == u` |
| Uuids.ParseHexDigits | backend/api.py:98 | the undelimited 32-digit spelling parses to the same id |
| Uuids.ParseUpperCase | backend/api.py:98 | upper-case digits parse to the same id |
| Ordering.SortByCorrect | frontend/dashboard.py:131-139 | `sorted` returns a permutation ordered by its key |
| Ordering.SortByStable | frontend/dashboard.py:131-139 | `sorted` is stable: the elements with equal keys keep their order |
| Ordering.KeyLeqIsTotalOrder | frontend/dashboard.py:96-100 | tuple comparison of the sort keys is a total order |
| Ordering.Distinct | frontend/country_selector.py:104 | the de-duplication holds each element once and nothing else |
| Ordering.SortedDistinctImage | frontend/country_selector.py:104-112 | sorting the de-duplicated images gives each image once, in key order |
| Ordering.FilterSubMultiset | frontend/dashboard.py:109-112 | `filter` adds and duplicates nothing |
| Ordering.FlattenContents | backend/api.py:53-54 | extending with each result gives the sum of their lengths, each element from one result |
| Text.UpperNormalises | frontend/country_selector.py:32 | upper-casing maps each of 'a' to 'z' to its capital and leaves every other character alone; the result is upper case and upper-casing it again changes nothing |

## Left out

- Network I/O is outside the model. This covers the ticketing directory, the streaming service's profile, search and top-artist endpoints, the OAuth token exchange, reverse geocoding and the browser location. Their answers are parameters: a vendor function, a provider function, a profile function and a token reply. `find_artist` (backend/api.py:59-63) and `search_for_artist` are only a call to the streaming service's search, so they are not modelled.
- Concurrency is modelled as sequential. `asyncio.gather` becomes a loop in request order whose reported failure is the first in that order. In the source the exception that surfaces is the first to be raised in time, which may belong to a later name or page. Some requests may not have been sent by then: a page held back by the rate limiter or the backoff, or a later page of a name whose page 0 has not yet returned.
- The Redis rate limiter and the backoff timing are left out, since they affect timing only. A page whose responses are all spike arrests ends in `StillRetrying`, which stands for the retry going on forever.
- The `distance_km` float is left out. Only the presence of its key is kept.
- The Streamlit UI is left out: widgets, CSS, cookies, `st.cache_data`, the pandas table and the "location" column. Of the table only its failure is kept: a frame built from no rows has no "city" column (`NoCityColumn`).
- The date picker may return any window the user chooses inside its bounds. The filter is modelled for every window, and the default window is the bounds.
- `get_location` and `reverse_geocode` are I/O, as is the `default=` pre-selection of the selector.
- Case mapping covers ASCII letters only. Python's `str.upper` also maps other letters.
- Uuids.ParseUuid does not model the leniency of `int(hex, 16)`: surrounding whitespace, `+` and `_` are not modelled. Nor does it model UUIDs given as `bytes`.
- Dates.ParseDate does not model Unicode digits, which `strptime`'s `\d` also accepts.
- Set iteration order is left out. `set(...)` and `{...}` become a first-occurrence de-duplication (`Distinct`). Membership and each element occurring once are exactly the source's; the order before `sorted` is a choice, and after sorting only ties depend on it.
- CountrySelector.SelectorOptions requires every available location to have a city. With two or more options, sorting by city with a `None` among the cities raises `TypeError` in Python, and that error path is not modelled.
- Api.CollectTopArtists requires that the provider eventually reports a page without `next`. The source loops forever otherwise.
- Percent-encoding is not modelled. `Api.LoginUrlParams` requires that neither configured value holds an '&', and `Api.RedirectCarriesSession` requires that the frontend address holds no '?'.
- `uuid4()` randomness is left out. The fresh id is a parameter of `Api.Callback`.
- The `code` argument of the callback only feeds the token exchange, which is I/O.
- `list.sort` is modelled by its result. CPython's algorithm is replaced by a stable insertion sort (`SortBy`), whose result is the same for a stable sort. `Dashboard.SortByPlayCount` writes that result into the array.
- The dashboard's client side is not modelled: its `raise_for_status` calls, and its treating any HTTP error from the user endpoints as "not signed in".
- `dashboard.py` at the repository root is an earlier copy of the dashboard without the filters. `misc.py` is a cache handler that always returns nothing. Neither is part of this model.
- Events.Convert fills `countryCode` with the empty string. `events.py` never sets a country code, and whether the service's response validation would reject such events is not modelled.
