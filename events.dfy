/** The paginated event search against the ticketing directory: fetch page 0,
    clamp the page count, fetch the remaining pages, sort each page into used,
    skipped or fatal, and turn the vendor records into `Event`s. */
module Events {
  import opened Wrappers
  import opened Dates
  import opened Entities

  const MaxPerPage: nat := 200
  const MaxPerSearch: nat := 1000
  const LimitExceededCodes: seq<string> := ["DIS1035", "DIS1024"]
  const SpikeArrestCode: string := "policies.ratelimit.SpikeArrestViolation"

  /** `math.ceil(a / b)` */
  function CeilDiv(a: nat, b: nat): (r: nat)
    requires b > 0
    ensures a <= r * b < a + b
  {
    if a == 0 then 0 else 1 + CeilDiv(if a <= b then 0 else a - b, b)
  }

  /** The most pages one search reads: `ceil(MAX_PER_SEARCH / MAX_PER_PAGE)`, which is 5. */
  const MaxPages: nat := CeilDiv(MaxPerSearch, MaxPerPage)

  // ---------------------------------------------------------------- vendor JSON

  /** One venue: `["city"]["name"]` and `["country"]["name"]`, `None` where a key is missing. */
  datatype Venue = Venue(cityName: Option<string>, countryName: Option<string>)

  /** One entry of a page's `["_embedded"]["events"]`: `["id"]`, `["name"]`,
      `["url"]`, `["_embedded"]["venues"]`, whether `["distance"]` is present
      (its float value is not modelled) and `["dates"]["start"]["localDate"]`. */
  datatype Record = Record(
    id: Option<string>,
    name: Option<string>,
    url: Option<string>,
    venues: Option<seq<Venue>>,
    hasDistance: bool,
    localDate: Option<string>)

  /** One entry of a page's `["errors"]`: its `["code"]`. */
  datatype VendorError = VendorError(code: Option<string>)

  /** A result page: `["page"]["totalPages"]`, `["errors"]` and `["_embedded"]["events"]`. */
  datatype Page = Page(totalPages: Option<int>, errors: Option<seq<VendorError>>, records: Option<seq<Record>>)

  /** A fault payload: its `["detail"]["errorcode"]`. */
  datatype Fault = Fault(errorCode: Option<string>)

  /** One HTTP response body: a page, possibly carrying a `"fault"`. */
  datatype Response = Response(fault: Option<Fault>, page: Page)

  /** Why a whole search fails. */
  datatype Failure =
    | MissingKey       // an uncaught KeyError on a page-level path
    | IndexOutOfRange  // `[0]` on an empty "errors" or "venues" list
    | BadDate          // strptime refused a localDate
    | VendorFailure    // an "errors" payload whose first code is not a limit code
    | FaultResponse    // a fault other than a spike arrest
    | StillRetrying    // every response seen for a page was a spike arrest: the retry goes on

  /** The directory as the search sees it: for a keyword and a page number, the
      responses to the successive attempts at that request. */
  type Vendor = (string, nat) -> seq<Response>

  // ---------------------------------------------------------------- get_page

  datatype Attempt = Accept(page: Page) | Retry | Reject

  /** `get_page`'s verdict on one response: no fault returns it, a spike arrest
      raises `RateLimitError` (retried), any other fault raises. */
  function Classify(resp: Response): (a: Attempt)
    ensures a.Accept? <==> resp.fault.None?
    ensures a.Accept? ==> a.page == resp.page
    ensures a.Retry? <==> resp.fault == Some(Fault(Some(SpikeArrestCode)))
  {
    match resp.fault
    case None => Accept(resp.page)
    case Some(f) => if f.errorCode == Some(SpikeArrestCode) then Retry else Reject
  }

  /** `get_page` under its constant-interval retry: the first response that is
      not a spike arrest decides. */
  function FetchPage(attempts: seq<Response>): Result<Page, Failure>
  {
    if attempts == [] then Err(StillRetrying)
    else match Classify(attempts[0])
      case Accept(p) => Ok(p)
      case Retry => FetchPage(attempts[1..])
      case Reject => Err(FaultResponse)
  }

  /** The outcome of a page request is the first non-spike-arrest response's:
      its page unchanged when it has no fault, a failure otherwise. */
  lemma {:induction false} FetchPageFirstDecisive(attempts: seq<Response>, k: nat)
    requires k < |attempts|
    requires forall j :: 0 <= j < k ==> Classify(attempts[j]).Retry?
    requires !Classify(attempts[k]).Retry?
    ensures FetchPage(attempts) == if attempts[k].fault.None? then Ok(attempts[k].page) else Err(FaultResponse)
  {
    if k > 0 {
      assert Classify(attempts[0]).Retry?;
      FetchPageFirstDecisive(attempts[1..], k - 1);
    }
  }

  /** `get_page(page, name)`, retrying while the directory answers with a spike arrest. */
  method GetPage(vendor: Vendor, name: string, page: nat) returns (r: Result<Page, Failure>)
    ensures r == FetchPage(vendor(name, page))
  {
    var attempts := vendor(name, page);
    var i := 0;
    while i < |attempts|
      invariant 0 <= i <= |attempts|
      invariant FetchPage(attempts) == FetchPage(attempts[i..])
    {
      var resp := attempts[i];
      if resp.fault.None? {
        return Ok(resp.page);
      }
      if resp.fault.value.errorCode != Some(SpikeArrestCode) {
        return Err(FaultResponse);
      }
      assert attempts[i..][1..] == attempts[i + 1..];
      i := i + 1;
    }
    r := Err(StillRetrying);
  }

  // ---------------------------------------------------------------- one page

  /** `min(int(json_["page"]["totalPages"]), MaxPages)` */
  function PagesToUse(p: Page): (r: Result<int, Failure>)
    ensures r.Ok? <==> p.totalPages.Some?
    ensures r.Ok? ==> r.value <= MaxPages && r.value <= p.totalPages.value
    ensures r.Ok? ==> r.value == p.totalPages.value || r.value == MaxPages
  {
    match p.totalPages
    case None => Err(MissingKey)
    case Some(t) => Ok(if t <= MaxPages then t else MaxPages)
  }

  datatype PageUse = Use(records: seq<Record>) | Skip | Abort(failure: Failure)

  /** The page loop's first half: a page carrying "errors" is skipped when its
      first code is a limit-exceeded code and aborts the search otherwise; a
      page without them offers its records. */
  function ClassifyPage(p: Page): (u: PageUse)
    ensures u.Skip? <==> p.errors.Some? && |p.errors.value| > 0 && p.errors.value[0].code.Some?
                          && p.errors.value[0].code.value in LimitExceededCodes
    ensures u.Use? <==> p.errors.None? && p.records.Some?
    ensures u.Use? ==> u.records == p.records.value
  {
    match p.errors
    case Some(errs) =>
      if |errs| == 0 then Abort(IndexOutOfRange)
      else if errs[0].code.None? then Abort(MissingKey)
      else if errs[0].code.value in LimitExceededCodes then Skip
      else Abort(VendorFailure)
    case None =>
      if p.records.None? then Abort(MissingKey) else Use(p.records.value)
  }

  datatype Conversion = Converted(event: Event) | Dropped | Fatal(failure: Failure)

  /** Building one `Event` inside the `try`. Keyword arguments are evaluated in
      order (id, name, url, city, country, distance, date): a missing key raises
      `KeyError` and drops the record, `[0]` on an empty venue list raises
      `IndexError` and an unparsable date `ValueError`; those two end the search. */
  function Convert(artist: string, rec: Record): (c: Conversion)
    ensures c.Converted? ==>
      && c.event.artist == artist
      && rec.id == Some(c.event.id) && rec.name == Some(c.event.name) && rec.url == Some(c.event.url)
      && rec.venues.Some? && |rec.venues.value| > 0
      && rec.venues.value[0].cityName == Some(c.event.city)
      && rec.venues.value[0].countryName == Some(c.event.country)
      && rec.hasDistance
      && rec.localDate.Some? && ParseDate(rec.localDate.value) == Some(c.event.date)
    ensures c.Converted? <==>
      && rec.id.Some? && rec.name.Some? && rec.url.Some? && rec.venues.Some?
      && |rec.venues.value| > 0
      && rec.venues.value[0].cityName.Some? && rec.venues.value[0].countryName.Some?
      && rec.hasDistance
      && rec.localDate.Some? && ParseDate(rec.localDate.value).Some?
    ensures c.Converted? ==> c.event.countryCode == ""
    ensures rec.id.None? || rec.name.None? || rec.url.None? || rec.venues.None? ==> c == Dropped
    ensures c.Fatal? <==> rec.id.Some? && rec.name.Some? && rec.url.Some? && rec.venues.Some?
                          && (|rec.venues.value| == 0
                              || (&& rec.venues.value[0].cityName.Some? && rec.venues.value[0].countryName.Some?
                                  && rec.hasDistance && rec.localDate.Some? && ParseDate(rec.localDate.value).None?))
  {
    if rec.id.None? || rec.name.None? || rec.url.None? || rec.venues.None? then Dropped
    else if |rec.venues.value| == 0 then Fatal(IndexOutOfRange)
    else
      var venue := rec.venues.value[0];
      if venue.cityName.None? || venue.countryName.None? || !rec.hasDistance || rec.localDate.None? then Dropped
      else match ParseDate(rec.localDate.value)
        case None => Fatal(BadDate)
        case Some(d) =>
          Converted(Event(
            name := rec.name.value,
            artist := artist,
            url := rec.url.value,
            city := venue.cityName.value,
            country := venue.countryName.value,
            countryCode := "",
            date := d,
            id := rec.id.value))
  }

  /** The record loop of one page: converted events in vendor order, dropped
      records left out, the first fatal record ending the search. */
  function ConvertRecords(artist: string, recs: seq<Record>): Result<seq<Event>, Failure>
  {
    if recs == [] then Ok([])
    else match ConvertRecords(artist, recs[..|recs| - 1])
      case Err(f) => Err(f)
      case Ok(events) =>
        match Convert(artist, recs[|recs| - 1])
        case Converted(e) => Ok(events + [e])
        case Dropped => Ok(events)
        case Fatal(f) => Err(f)
  }

  /** Two results one after the other: the first failure wins, otherwise the
      events are concatenated. */
  function Then(a: Result<seq<Event>, Failure>, b: Result<seq<Event>, Failure>): Result<seq<Event>, Failure>
  {
    match a
    case Err(f) => Err(f)
    case Ok(x) => match b
      case Err(f) => Err(f)
      case Ok(y) => Ok(x + y)
  }

  lemma {:induction false} ConvertRecordsAppend(artist: string, a: seq<Record>, b: seq<Record>)
    ensures ConvertRecords(artist, a + b) == Then(ConvertRecords(artist, a), ConvertRecords(artist, b))
    decreases |b|
  {
    if b == [] {
      assert a + b == a;
      if ConvertRecords(artist, a).Ok? { assert ConvertRecords(artist, a).value + [] == ConvertRecords(artist, a).value; }
    } else {
      var b' := b[..|b| - 1];
      assert (a + b)[..|a + b| - 1] == a + b';
      assert (a + b)[|a + b| - 1] == b[|b| - 1];
      ConvertRecordsAppend(artist, a, b');
      if ConvertRecords(artist, a).Ok? && ConvertRecords(artist, b').Ok? {
        var x, y := ConvertRecords(artist, a).value, ConvertRecords(artist, b').value;
        match Convert(artist, b[|b| - 1])
        case Converted(e) => { assert (x + y) + [e] == x + (y + [e]); }
        case _ => {}
      }
    }
  }

  /** A record missing a required key leaves its siblings' events as they
      would be without it. */
  lemma DroppedRecordKeepsSiblings(artist: string, a: seq<Record>, rec: Record, b: seq<Record>)
    requires Convert(artist, rec) == Dropped
    ensures ConvertRecords(artist, a + [rec] + b) == ConvertRecords(artist, a + b)
  {
    ConvertRecordsAppend(artist, a + [rec], b);
    ConvertRecordsAppend(artist, a, [rec]);
    ConvertRecordsAppend(artist, a, b);
    assert [rec][..0] == [];
    assert a + [rec] + b == (a + [rec]) + b;
  }

  /** A converted record's event sits in the page's result after the events
      of the records before it and before those of the records after it. */
  lemma ConvertedRecordKept(artist: string, a: seq<Record>, rec: Record, b: seq<Record>, e: Event)
    requires Convert(artist, rec) == Converted(e)
    ensures ConvertRecords(artist, a + [rec] + b) == Then(Then(ConvertRecords(artist, a), Ok([e])), ConvertRecords(artist, b))
    ensures ConvertRecords(artist, a + [rec] + b).Ok? ==>
              ConvertRecords(artist, a + [rec] + b).value == ConvertRecords(artist, a).value + [e] + ConvertRecords(artist, b).value
  {
    ConvertRecordsAppend(artist, a + [rec], b);
    ConvertRecordsAppend(artist, a, [rec]);
    assert [rec][..0] == [];
    assert ConvertRecords(artist, [rec]) == Ok([] + [e]);
    assert [] + [e] == [e];
  }

  // ---------------------------------------------------------------- all pages

  /** The outer loop over the fetched pages, in page order. */
  function ProcessPages(artist: string, pages: seq<Page>): Result<seq<Event>, Failure>
  {
    if pages == [] then Ok([])
    else match ProcessPages(artist, pages[..|pages| - 1])
      case Err(f) => Err(f)
      case Ok(events) =>
        match ClassifyPage(pages[|pages| - 1])
        case Skip => Ok(events)
        case Abort(f) => Err(f)
        case Use(recs) => Then(Ok(events), ConvertRecords(artist, recs))
  }

  /** The contribution of one page on its own. */
  function ProcessPage(artist: string, p: Page): Result<seq<Event>, Failure>
  {
    match ClassifyPage(p)
    case Skip => Ok([])
    case Abort(f) => Err(f)
    case Use(recs) => ConvertRecords(artist, recs)
  }

  lemma {:induction false} ProcessPagesAppend(artist: string, a: seq<Page>, b: seq<Page>)
    ensures ProcessPages(artist, a + b) == Then(ProcessPages(artist, a), ProcessPages(artist, b))
    decreases |b|
  {
    if b == [] {
      assert a + b == a;
      if ProcessPages(artist, a).Ok? { assert ProcessPages(artist, a).value + [] == ProcessPages(artist, a).value; }
    } else {
      var b' := b[..|b| - 1];
      assert (a + b)[..|a + b| - 1] == a + b';
      assert (a + b)[|a + b| - 1] == b[|b| - 1];
      ProcessPagesAppend(artist, a, b');
      var p := b[|b| - 1];
      match ClassifyPage(p)
      case Use(recs) => {
        if ProcessPages(artist, a).Ok? && ProcessPages(artist, b').Ok? && ConvertRecords(artist, recs).Ok? {
          var x, y, z := ProcessPages(artist, a).value, ProcessPages(artist, b').value, ConvertRecords(artist, recs).value;
          assert (x + y) + z == x + (y + z);
        }
      }
      case Skip => {
        if ProcessPages(artist, a).Ok? && ProcessPages(artist, b').Ok? {
          assert ProcessPages(artist, b) == ProcessPages(artist, b');
        }
      }
      case Abort(f) => {}
    }
  }

  lemma ProcessSinglePage(artist: string, p: Page)
    ensures ProcessPages(artist, [p]) == ProcessPage(artist, p)
  {
    assert [p][..0] == [];
    match ClassifyPage(p)
    case Use(recs) => {
      if ConvertRecords(artist, recs).Ok? { assert [] + ConvertRecords(artist, recs).value == ConvertRecords(artist, recs).value; }
    }
    case _ => {}
  }

  /** Results follow page order: the events of `a + b` are those of `a`
      followed by those of `b`. */
  lemma PagesInOrder(artist: string, a: seq<Page>, b: seq<Page>)
    requires ProcessPages(artist, a + b).Ok?
    ensures ProcessPages(artist, a).Ok? && ProcessPages(artist, b).Ok?
    ensures ProcessPages(artist, a + b).value == ProcessPages(artist, a).value + ProcessPages(artist, b).value
  {
    ProcessPagesAppend(artist, a, b);
  }

  /** A page whose first error code is a limit-exceeded code contributes no
      events and does not stop the pages after it. */
  lemma SkippedPageContributesNothing(artist: string, a: seq<Page>, p: Page, b: seq<Page>)
    requires ClassifyPage(p).Skip?
    ensures ProcessPages(artist, a + [p] + b) == ProcessPages(artist, a + b)
  {
    ProcessPagesAppend(artist, a + [p], b);
    ProcessPagesAppend(artist, a, [p]);
    ProcessPagesAppend(artist, a, b);
    ProcessSinglePage(artist, p);
    if ProcessPages(artist, a).Ok? { assert ProcessPages(artist, a).value + [] == ProcessPages(artist, a).value; }
  }

  /** A page with any other error payload fails the whole search, wherever it is. */
  lemma AbortingPageFailsSearch(artist: string, a: seq<Page>, p: Page, b: seq<Page>)
    requires ClassifyPage(p).Abort?
    ensures ProcessPages(artist, a + [p] + b).Err?
  {
    ProcessPagesAppend(artist, a + [p], b);
    ProcessPagesAppend(artist, a, [p]);
    ProcessSinglePage(artist, p);
  }

  /** How many records the used (not skipped) pages offer. */
  function UsableRecords(pages: seq<Page>): nat
  {
    if pages == [] then 0
    else UsableRecords(pages[..|pages| - 1])
         + match ClassifyPage(pages[|pages| - 1]) case Use(recs) => |recs| case _ => 0
  }

  lemma {:induction false} ConvertRecordsBound(artist: string, recs: seq<Record>)
    requires ConvertRecords(artist, recs).Ok?
    ensures |ConvertRecords(artist, recs).value| <= |recs|
    ensures forall e :: e in ConvertRecords(artist, recs).value ==>
              exists rec :: rec in recs && Convert(artist, rec) == Converted(e)
  {
    if recs != [] {
      var init := recs[..|recs| - 1];
      ConvertRecordsBound(artist, init);
      forall e | e in ConvertRecords(artist, recs).value
        ensures exists rec :: rec in recs && Convert(artist, rec) == Converted(e)
      {
        if e in ConvertRecords(artist, init).value {
          var rec :| rec in init && Convert(artist, rec) == Converted(e);
          assert rec in recs;
        } else {
          assert Convert(artist, recs[|recs| - 1]) == Converted(e);
        }
      }
    }
  }

  /** A successful search returns at most one event per record of the used
      pages, and every event is the conversion of such a record: it carries
      the search keyword as its artist and the record's own fields. */
  lemma {:induction false} ProcessPagesContents(artist: string, pages: seq<Page>)
    requires ProcessPages(artist, pages).Ok?
    ensures |ProcessPages(artist, pages).value| <= UsableRecords(pages)
    ensures forall e :: e in ProcessPages(artist, pages).value ==>
              exists i, rec :: 0 <= i < |pages| && ClassifyPage(pages[i]).Use? && rec in ClassifyPage(pages[i]).records
                               && Convert(artist, rec) == Converted(e)
  {
    if pages != [] {
      var init := pages[..|pages| - 1];
      var last := pages[|pages| - 1];
      ProcessPagesContents(artist, init);
      var events := ProcessPages(artist, pages).value;
      forall e | e in events
        ensures exists i, rec :: 0 <= i < |pages| && ClassifyPage(pages[i]).Use? && rec in ClassifyPage(pages[i]).records
                                 && Convert(artist, rec) == Converted(e)
      {
        if e in ProcessPages(artist, init).value {
          var i, rec :| 0 <= i < |init| && ClassifyPage(init[i]).Use? && rec in ClassifyPage(init[i]).records
                        && Convert(artist, rec) == Converted(e);
          assert pages[i] == init[i];
        } else {
          var recs := ClassifyPage(last).records;
          ConvertRecordsBound(artist, recs);
          var rec :| rec in recs && Convert(artist, rec) == Converted(e);
          assert pages[|pages| - 1] == last;
        }
      }
      if ClassifyPage(last).Use? {
        ConvertRecordsBound(artist, ClassifyPage(last).records);
      }
    }
  }

  // ---------------------------------------------------------------- the search

  /** The page numbers requested after page 0: `range(1, total_pages)`. */
  function LaterPages(n: int): (ps: seq<nat>)
    ensures |ps| == if n > 1 then n - 1 else 0
    ensures forall i :: 0 <= i < |ps| ==> ps[i] == i + 1
  {
    seq(if n > 1 then n - 1 else 0, i => i + 1)
  }

  /** `asyncio.gather` over the later pages, in page order; the first failure
      in page order is the one reported. */
  function FetchAll(vendor: Vendor, artist: string, ps: seq<nat>): Result<seq<Page>, Failure>
  {
    if ps == [] then Ok([])
    else match FetchAll(vendor, artist, ps[..|ps| - 1])
      case Err(f) => Err(f)
      case Ok(pages) =>
        match FetchPage(vendor(artist, ps[|ps| - 1]))
        case Err(f) => Err(f)
        case Ok(p) => Ok(pages + [p])
  }

  /** The gather of the later pages succeeds iff every page request does, and
      then holds one page per request, in the order the pages were listed. */
  lemma {:induction false} FetchAllValues(vendor: Vendor, artist: string, ps: seq<nat>)
    ensures FetchAll(vendor, artist, ps).Ok? <==> forall i :: 0 <= i < |ps| ==> FetchPage(vendor(artist, ps[i])).Ok?
    ensures FetchAll(vendor, artist, ps).Ok? ==>
              |FetchAll(vendor, artist, ps).value| == |ps|
              && forall i :: 0 <= i < |ps| ==> FetchAll(vendor, artist, ps).value[i] == FetchPage(vendor(artist, ps[i])).value
  {
    if ps != [] {
      var init := ps[..|ps| - 1];
      FetchAllValues(vendor, artist, init);
      assert forall i :: 0 <= i < |init| ==> init[i] == ps[i];
    }
  }

  /** A failed gather of the later pages reports the failure of the first
      failing page request in page order. */
  lemma {:induction false} FetchAllFirstFailure(vendor: Vendor, artist: string, ps: seq<nat>)
    requires FetchAll(vendor, artist, ps).Err?
    ensures exists k :: 0 <= k < |ps| && FetchPage(vendor(artist, ps[k])) == Err(FetchAll(vendor, artist, ps).error)
                        && forall i :: 0 <= i < k ==> FetchPage(vendor(artist, ps[i])).Ok?
  {
    var init := ps[..|ps| - 1];
    assert forall i :: 0 <= i < |init| ==> init[i] == ps[i];
    if FetchAll(vendor, artist, init).Err? {
      FetchAllFirstFailure(vendor, artist, init);
    } else {
      FetchAllValues(vendor, artist, init);
      assert FetchPage(vendor(artist, ps[|init|])) == Err(FetchAll(vendor, artist, ps).error);
    }
  }

  /** The pages the search processes are page 0 followed by pages 1..n-1, in
      that order, each as its page request returned it. */
  lemma SearchPagesInOrder(vendor: Vendor, artist: string, n: int)
    requires n > 1
    requires FetchAll(vendor, artist, LaterPages(n)).Ok?
    ensures var rest := FetchAll(vendor, artist, LaterPages(n)).value;
      && |rest| == n - 1
      && forall i :: 0 <= i < n - 1 ==> FetchPage(vendor(artist, i + 1)) == Ok(rest[i])
  {
    FetchAllValues(vendor, artist, LaterPages(n));
  }

  /** `get_events_by_name(name)` */
  function EventsByName(vendor: Vendor, artist: string): Result<seq<Event>, Failure>
  {
    match FetchPage(vendor(artist, 0))
    case Err(f) => Err(f)
    case Ok(p0) =>
      match PagesToUse(p0)
      case Err(f) => Err(f)
      case Ok(n) =>
        if n == 0 then Ok([])
        else match FetchAll(vendor, artist, LaterPages(n))
          case Err(f) => Err(f)
          case Ok(rest) => ProcessPages(artist, [p0] + rest)
  }

  /** The page numbers `get_events_by_name` asks for. */
  function PagesRequested(vendor: Vendor, artist: string): seq<nat>
  {
    match FetchPage(vendor(artist, 0))
    case Err(_) => [0]
    case Ok(p0) =>
      match PagesToUse(p0)
      case Err(_) => [0]
      case Ok(n) => if n == 0 then [0] else [0] + LaterPages(n)
  }

  /** A search returns only events found under its own keyword. */
  lemma EventsCarryKeyword(vendor: Vendor, artist: string)
    requires EventsByName(vendor, artist).Ok?
    ensures forall e :: e in EventsByName(vendor, artist).value ==> e.artist == artist
  {
    var p0 := FetchPage(vendor(artist, 0)).value;
    var n := PagesToUse(p0).value;
    if n != 0 {
      var rest := FetchAll(vendor, artist, LaterPages(n)).value;
      ProcessPagesContents(artist, [p0] + rest);
    }
  }

  /** When page 0 reports no pages the search is empty and nothing beyond page
      0 is requested, whatever page 0 holds. */
  lemma ZeroPagesMeansEmpty(vendor: Vendor, artist: string)
    requires FetchPage(vendor(artist, 0)).Ok?
    requires FetchPage(vendor(artist, 0)).value.totalPages == Some(0)
    ensures EventsByName(vendor, artist) == Ok([])
    ensures PagesRequested(vendor, artist) == [0]
  {
  }

  /** The `asyncio.gather` of the later pages, run in page order: every page is
      requested, and the first failure in page order is kept. */
  method FetchLater(vendor: Vendor, artist: string, later: seq<nat>) returns (r: Result<seq<Page>, Failure>)
    ensures r == FetchAll(vendor, artist, later)
  {
    var pages: seq<Page> := [];
    var failure: Option<Failure> := None;
    var k := 0;
    assert later[..0] == [];
    while k < |later|
      invariant 0 <= k <= |later|
      invariant failure.None? ==> FetchAll(vendor, artist, later[..k]) == Ok(pages)
      invariant failure.Some? ==> FetchAll(vendor, artist, later[..k]) == Err(failure.value)
    {
      var res := GetPage(vendor, artist, later[k]);
      assert later[..k + 1][..k] == later[..k] && later[..k + 1][k] == later[k];
      if failure.None? {
        if res.Err? {
          failure := Some(res.error);
        } else {
          pages := pages + [res.value];
        }
      }
      k := k + 1;
    }
    assert later[..k] == later;
    r := if failure.Some? then Err(failure.value) else Ok(pages);
  }

  /** The inner loop over one page's records: append each converted event,
      skip a dropped record, stop at a fatal one. */
  method ConvertPage(artist: string, recs: seq<Record>) returns (r: Result<seq<Event>, Failure>)
    ensures r == ConvertRecords(artist, recs)
  {
    var events: seq<Event> := [];
    var j := 0;
    assert recs[..0] == [];
    while j < |recs|
      invariant 0 <= j <= |recs|
      invariant ConvertRecords(artist, recs[..j]) == Ok(events)
    {
      var rec := recs[j];
      assert recs[..j + 1][..j] == recs[..j] && recs[..j + 1][j] == rec;
      match Convert(artist, rec) {
        case Converted(e) =>
          events := events + [e];
        case Dropped =>
        case Fatal(f) =>
          ConvertRecordsAppend(artist, recs[..j + 1], recs[j + 1..]);
          assert recs[..j + 1] + recs[j + 1..] == recs;
          return Err(f);
      }
      j := j + 1;
    }
    assert recs[..j] == recs;
    r := Ok(events);
  }

  /** The outer loop over the fetched pages: a limit-exceeded page is passed
      over with `continue`, any other error payload raises, and the records of
      the remaining pages are converted in order. */
  method ProcessFetched(artist: string, jsons: seq<Page>) returns (r: Result<seq<Event>, Failure>)
    ensures r == ProcessPages(artist, jsons)
  {
    var events: seq<Event> := [];
    var i := 0;
    assert jsons[..0] == [];
    while i < |jsons|
      invariant 0 <= i <= |jsons|
      invariant ProcessPages(artist, jsons[..i]) == Ok(events)
    {
      var json := jsons[i];
      assert jsons[..i + 1] == jsons[..i] + [json];
      ProcessPagesAppend(artist, jsons[..i], [json]);
      ProcessSinglePage(artist, json);
      ProcessPagesAppend(artist, jsons[..i + 1], jsons[i + 1..]);
      assert jsons[..i + 1] + jsons[i + 1..] == jsons;
      if json.errors.Some? {
        var errs := json.errors.value;
        if |errs| == 0 {
          return Err(IndexOutOfRange);
        }
        if errs[0].code.None? {
          return Err(MissingKey);
        }
        if errs[0].code.value in LimitExceededCodes {
          assert events + [] == events;
          i := i + 1;
          continue;
        }
        return Err(VendorFailure);
      }
      if json.records.None? {
        return Err(MissingKey);
      }
      var converted := ConvertPage(artist, json.records.value);
      if converted.Err? {
        return Err(converted.error);
      }
      events := events + converted.value;
      i := i + 1;
    }
    assert jsons[..i] == jsons;
    r := Ok(events);
  }

  /** `get_events_by_name(name)` as the source runs it: page 0, the clamp, the
      later pages, then the loop over pages and records. `requested` lists the
      page numbers asked for. */
  method GetEventsByName(vendor: Vendor, artist: string) returns (r: Result<seq<Event>, Failure>, requested: seq<nat>)
    ensures r == EventsByName(vendor, artist)
    ensures requested == PagesRequested(vendor, artist)
    ensures 1 <= |requested| <= MaxPages
    ensures forall i :: 0 <= i < |requested| ==> requested[i] == i
  {
    assert MaxPages == 5;
    requested := [0];
    var first := GetPage(vendor, artist, 0);
    if first.Err? {
      return Err(first.error), requested;
    }
    var p0 := first.value;
    if p0.totalPages.None? {
      return Err(MissingKey), requested;
    }
    var total := p0.totalPages.value;
    var n := if total <= MaxPages then total else MaxPages;
    if n == 0 {
      return Ok([]), requested;
    }
    var later := LaterPages(n);
    requested := requested + later;
    var rest := FetchLater(vendor, artist, later);
    if rest.Err? {
      return Err(rest.error), requested;
    }
    r := ProcessFetched(artist, [p0] + rest.value);
  }
}
