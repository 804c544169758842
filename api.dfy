/** The aggregation service's endpoints: `/events` (the per-artist searches
    concatenated), `/user/top_artists` (the offset/next pagination loop),
    `/login` (the authorisation URL), `/user/info`, and `/callback` (creating
    a session and redirecting to the dashboard with its id). */
module Api {
  import opened Wrappers
  import opened Text
  import opened Ordering
  import opened Entities
  import opened Events
  import opened Uuids

  /** The deployment settings read from the environment at start-up. */
  datatype Config = Config(clientId: string, clientSecret: string, redirectUri: string, frontendUri: string)

  const Scope: string := "user-top-read"
  const AuthUrl: string := "https://accounts.spotify.com/authorize"

  /** The page size asked of the top-artists endpoint. */
  const TopArtistsLimit: nat := 50

  /** How a request ends when a handler raises: `HTTPException(401)`, or any
      other exception, which the server answers with status 500. */
  datatype HttpError = Unauthorized | ServerError

  function StatusCode(e: HttpError): int
  {
    match e
    case Unauthorized => 401
    case ServerError => 500
  }

  // ---------------------------------------------------------------- /events

  /** The per-name results of `asyncio.gather`, in the order of `names`; the
      first failing search in that order is the one reported. */
  function Gather(vendor: Vendor, names: seq<string>): Result<seq<seq<Event>>, Failure>
  {
    if names == [] then Ok([])
    else match Gather(vendor, names[..|names| - 1])
      case Err(f) => Err(f)
      case Ok(results) =>
        match EventsByName(vendor, names[|names| - 1])
        case Err(f) => Err(f)
        case Ok(events) => Ok(results + [events])
  }

  /** `find_events(names)` */
  function AllEvents(vendor: Vendor, names: seq<string>): Result<seq<Event>, Failure>
  {
    match Gather(vendor, names)
    case Err(f) => Err(f)
    case Ok(results) => Ok(Flatten(results))
  }

  /** The gather succeeds iff every search does, with one result per name. */
  lemma {:induction false} GatherValues(vendor: Vendor, names: seq<string>)
    ensures Gather(vendor, names).Ok? <==> forall i :: 0 <= i < |names| ==> EventsByName(vendor, names[i]).Ok?
    ensures Gather(vendor, names).Ok? ==>
              |Gather(vendor, names).value| == |names|
              && forall i :: 0 <= i < |names| ==> Gather(vendor, names).value[i] == EventsByName(vendor, names[i]).value
  {
    if names != [] {
      var init := names[..|names| - 1];
      GatherValues(vendor, init);
      assert forall i :: 0 <= i < |init| ==> init[i] == names[i];
    }
  }

  /** A failed gather reports the failure of the first failing search. */
  lemma {:induction false} GatherFirstFailure(vendor: Vendor, names: seq<string>)
    requires Gather(vendor, names).Err?
    ensures exists k :: 0 <= k < |names| && EventsByName(vendor, names[k]) == Err(Gather(vendor, names).error)
                        && forall i :: 0 <= i < k ==> EventsByName(vendor, names[i]).Ok?
  {
    var init := names[..|names| - 1];
    assert forall i :: 0 <= i < |init| ==> init[i] == names[i];
    if Gather(vendor, init).Err? {
      GatherFirstFailure(vendor, init);
    } else {
      GatherValues(vendor, init);
      assert EventsByName(vendor, names[|init|]) == Err(Gather(vendor, names).error);
    }
  }

  /** The gathered results are exactly the searches' results, one per name in
      order; they fail iff some search fails, with the first failure. */
  lemma GatherSpec(vendor: Vendor, names: seq<string>)
    ensures Gather(vendor, names).Ok? <==> forall i :: 0 <= i < |names| ==> EventsByName(vendor, names[i]).Ok?
    ensures Gather(vendor, names).Ok? ==>
              |Gather(vendor, names).value| == |names|
              && forall i :: 0 <= i < |names| ==> Gather(vendor, names).value[i] == EventsByName(vendor, names[i]).value
    ensures Gather(vendor, names).Err? ==>
              exists k :: 0 <= k < |names| && EventsByName(vendor, names[k]) == Err(Gather(vendor, names).error)
                          && forall i :: 0 <= i < k ==> EventsByName(vendor, names[i]).Ok?
  {
    GatherValues(vendor, names);
    if Gather(vendor, names).Err? {
      GatherFirstFailure(vendor, names);
    }
  }

  /** The result of `/events` is the concatenation of every search's result
      in the order of `names`; no event is added, merged or lost. */
  lemma FindEventsConcatenates(vendor: Vendor, names: seq<string>)
    requires AllEvents(vendor, names).Ok?
    ensures Gather(vendor, names).Ok?
    ensures var results := Gather(vendor, names).value;
      && |results| == |names|
      && AllEvents(vendor, names).value == Flatten(results)
      && |AllEvents(vendor, names).value| == SumLengths(results)
      && forall i :: 0 <= i < |names| ==>
           EventsByName(vendor, names[i]).Ok? && results[i] == EventsByName(vendor, names[i]).value
  {
    GatherSpec(vendor, names);
    FlattenContents(Gather(vendor, names).value);
  }

  /** Every event found was found for one of the names asked for. */
  lemma FoundEventsBelongToNames(vendor: Vendor, names: seq<string>)
    requires AllEvents(vendor, names).Ok?
    ensures forall e :: e in AllEvents(vendor, names).value ==> e.artist in names
  {
    GatherSpec(vendor, names);
    var results := Gather(vendor, names).value;
    FlattenContents(results);
    forall e | e in AllEvents(vendor, names).value ensures e.artist in names {
      var i :| 0 <= i < |results| && e in results[i];
      EventsCarryKeyword(vendor, names[i]);
    }
  }

  /** `find_events(names)` as the source runs it: gather every search, then
      extend one list with each result in turn. */
  method FindEvents(vendor: Vendor, names: seq<string>) returns (r: Result<seq<Event>, Failure>)
    ensures r == AllEvents(vendor, names)
  {
    var results: seq<seq<Event>> := [];
    var failure: Option<Failure> := None;
    assert names[..0] == [];
    for i := 0 to |names|
      invariant failure.None? ==> Gather(vendor, names[..i]) == Ok(results)
      invariant failure.Some? ==> Gather(vendor, names[..i]) == Err(failure.value)
    {
      var res, _ := GetEventsByName(vendor, names[i]);
      ghost var prefix := names[..i + 1];
      assert prefix[..|prefix| - 1] == names[..i] && prefix[|prefix| - 1] == names[i];
      if failure.None? {
        if res.Err? {
          failure := Some(res.error);
        } else {
          results := results + [res.value];
        }
      }
    }
    assert names[..|names|] == names;
    if failure.Some? {
      return Err(failure.value);
    }
    var events: seq<Event> := [];
    assert results[..0] == [];
    for j := 0 to |results|
      invariant events == Flatten(results[..j])
    {
      ghost var done := results[..j + 1];
      assert done[..|done| - 1] == results[..j] && done[|done| - 1] == results[j];
      events := events + results[j];
    }
    assert results[..|results|] == results;
    r := Ok(events);
  }

  // ---------------------------------------------------------------- sessions

  /** What `/callback` stores for a session. */
  datatype SessionData = SessionData(accessToken: string, refreshToken: string, expiresIn: int)

  /** The in-memory session backend: a map from session id to its data. */
  class SessionStore {
    var sessions: map<Uuid, SessionData>

    constructor()
      ensures sessions == map[]
    {
      sessions := map[];
    }

    /** `backend.create(id, data)`: refuses to overwrite an existing session. */
    method Create(id: Uuid, data: SessionData) returns (created: bool)
      modifies this
      ensures created <==> id !in old(sessions)
      ensures sessions == if created then old(sessions)[id := data] else old(sessions)
    {
      if id in sessions {
        return false;
      }
      sessions := sessions[id := data];
      created := true;
    }

    /** `backend.read(id)`: the data stored under `id`, or `None`. */
    method Read(id: Uuid) returns (r: Option<SessionData>)
      ensures r.Some? <==> id in sessions
      ensures r.Some? ==> r.value == sessions[id]
    {
      if id in sessions {
        r := Some(sessions[id]);
      } else {
        r := None;
      }
    }
  }

  /** The check that opens both user endpoints: `UUID(session)` raises on a
      malformed header (500), and an id with no session is refused with 401. */
  function Authenticate(sessions: map<Uuid, SessionData>, header: string): (r: Result<SessionData, HttpError>)
    ensures r == Err(ServerError) <==> ParseUuid(header).None?
    ensures r == Err(Unauthorized) <==> ParseUuid(header).Some? && ParseUuid(header).value !in sessions
    ensures r.Ok? ==> ParseUuid(header).Some? && r.value == sessions[ParseUuid(header).value]
  {
    match ParseUuid(header)
    case None => Err(ServerError)
    case Some(id) => if id in sessions then Ok(sessions[id]) else Err(Unauthorized)
  }

  /** An id that was never stored is refused with 401, however it is spelled. */
  lemma UnknownSessionIsUnauthorized(sessions: map<Uuid, SessionData>, id: Uuid)
    requires id !in sessions
    ensures Authenticate(sessions, Canonical(id)) == Err(Unauthorized)
    ensures Authenticate(sessions, id) == Err(Unauthorized)
    ensures StatusCode(Authenticate(sessions, Canonical(id)).error) == 401
  {
    ParseCanonical(id);
    ParseHexDigits(id);
  }

  /** After `id` is stored with `data`, the id as the redirect spells it
      finds exactly that data. */
  lemma StoredSessionIsFound(sessions: map<Uuid, SessionData>, id: Uuid, data: SessionData)
    ensures Authenticate(sessions[id := data], Canonical(id)) == Ok(data)
  {
    ParseCanonical(id);
  }

  // ---------------------------------------------------------------- /user/top_artists

  /** One response of the top-artists endpoint: the artists' names and the
      `next` link. */
  datatype TopArtistsPage = TopArtistsPage(names: seq<string>, next: Option<string>)

  /** The provider as the loop sees it: for an access token and an offset,
      the page returned. */
  type ArtistProvider = (string, nat) -> TopArtistsPage

  function Offset(k: nat): nat
  {
    TopArtistsLimit * k
  }

  /** The page at the `k`-th offset has no `next`. */
  predicate IsLastPage(provider: ArtistProvider, token: string, k: nat)
  {
    provider(token, Offset(k)).next.None?
  }

  /** The provider eventually reports that no page follows. */
  ghost predicate Terminates(provider: ArtistProvider, token: string)
  {
    exists k: nat :: IsLastPage(provider, token, k)
  }

  /** The names on the first `n` pages, in provider order. */
  function Collected(provider: ArtistProvider, token: string, n: nat): seq<string>
  {
    if n == 0 then [] else Collected(provider, token, n - 1) + provider(token, Offset(n - 1)).names
  }

  /** Reading more pages only appends: an earlier page's names keep their
      place in front of a later page's. */
  lemma {:induction false} CollectedExtends(provider: ArtistProvider, token: string, m: nat, n: nat)
    requires m <= n
    ensures |Collected(provider, token, m)| <= |Collected(provider, token, n)|
    ensures Collected(provider, token, n)[..|Collected(provider, token, m)|] == Collected(provider, token, m)
    decreases n - m
  {
    if m < n {
      CollectedExtends(provider, token, m, n - 1);
      var c := Collected(provider, token, n - 1);
      assert (c + provider(token, Offset(n - 1)).names)[..|c|] == c;
    }
  }

  /** The loop of `top_artists`: offsets 0, 50, 100, ... until a page
      without `next`, extending the list with each page's names first. */
  method CollectTopArtists(provider: ArtistProvider, token: string) returns (names: seq<string>, offsets: seq<nat>)
    requires Terminates(provider, token)
    ensures |offsets| >= 1
    ensures forall i :: 0 <= i < |offsets| ==> offsets[i] == Offset(i)
    ensures IsLastPage(provider, token, |offsets| - 1)
    ensures forall i :: 0 <= i < |offsets| - 1 ==> !IsLastPage(provider, token, i)
    ensures names == Collected(provider, token, |offsets|)
  {
    ghost var last: nat :| IsLastPage(provider, token, last);
    names := [];
    offsets := [];
    var offset := 0;
    while true
      invariant offset == Offset(|offsets|)
      invariant forall i :: 0 <= i < |offsets| ==> offsets[i] == Offset(i) && !IsLastPage(provider, token, i)
      invariant names == Collected(provider, token, |offsets|)
      invariant |offsets| <= last
      decreases last - |offsets|
    {
      var response := provider(token, offset);
      names := names + response.names;
      offsets := offsets + [offset];
      if response.next.None? {
        break;
      }
      offset := offset + TopArtistsLimit;
    }
  }

  /** `top_artists(session)` */
  method TopArtists(store: SessionStore, header: string, provider: ArtistProvider)
    returns (r: Result<seq<string>, HttpError>, offsets: seq<nat>)
    requires Authenticate(store.sessions, header).Ok? ==>
               Terminates(provider, Authenticate(store.sessions, header).value.accessToken)
    ensures Authenticate(store.sessions, header).Err? ==>
              r == Err(Authenticate(store.sessions, header).error) && offsets == []
    ensures Authenticate(store.sessions, header).Ok? ==>
              var token := Authenticate(store.sessions, header).value.accessToken;
              && |offsets| >= 1
              && (forall i :: 0 <= i < |offsets| ==> offsets[i] == Offset(i))
              && IsLastPage(provider, token, |offsets| - 1)
              && (forall i :: 0 <= i < |offsets| - 1 ==> !IsLastPage(provider, token, i))
              && r == Ok(Collected(provider, token, |offsets|))
  {
    var id := ParseUuid(header);
    if id.None? {
      return Err(ServerError), [];
    }
    var data := store.Read(id.value);
    if data.None? {
      return Err(Unauthorized), [];
    }
    var names;
    names, offsets := CollectTopArtists(provider, data.value.accessToken);
    r := Ok(names);
  }

  // ---------------------------------------------------------------- /user/info

  /** The provider's answer to the profile request: status and body. */
  datatype Reply = Reply(status: int, body: string)

  /** `user_info(session)`: the profile body, 401 for an unknown session or
      any status other than 200. */
  method UserInfo(store: SessionStore, header: string, profile: string -> Reply) returns (r: Result<string, HttpError>)
    ensures r == Err(ServerError) <==> ParseUuid(header).None?
    ensures r == Err(Unauthorized) <==>
              || Authenticate(store.sessions, header) == Err(Unauthorized)
              || (Authenticate(store.sessions, header).Ok?
                  && profile(Authenticate(store.sessions, header).value.accessToken).status != 200)
    ensures r.Ok? ==> r.value == profile(Authenticate(store.sessions, header).value.accessToken).body
  {
    var id := ParseUuid(header);
    if id.None? {
      return Err(ServerError);
    }
    var data := store.Read(id.value);
    if data.None? {
      return Err(Unauthorized);
    }
    var response := profile(data.value.accessToken);
    if response.status != 200 {
      return Err(Unauthorized);
    }
    r := Ok(response.body);
  }

  // ---------------------------------------------------------------- URLs

  /** The text after the first '?', or "" when there is none. */
  function QueryOf(url: string): (q: string)
    ensures |q| <= |url|
  {
    if url == [] then "" else if url[0] == '?' then url[1..] else QueryOf(url[1..])
  }

  /** The query's `key=value` parts in order, as the receiving side splits
      them. */
  function QueryParts(url: string): (parts: seq<string>)
    ensures |parts| >= 1
  {
    SplitOn(QueryOf(url), '&')
  }

  lemma {:induction false} QueryAfterBase(base: string, query: string)
    requires '?' !in base
    ensures QueryOf(base + "?" + query) == query
    decreases |base|
  {
    if base == [] {
      assert base + "?" + query == ['?'] + query;
    } else {
      assert '?' !in base[1..] by {
        forall k | 0 <= k < |base[1..]| ensures base[1..][k] != '?' { assert base[1..][k] == base[k + 1]; }
      }
      QueryAfterBase(base[1..], query);
      assert (base + "?" + query)[1..] == base[1..] + "?" + query;
    }
  }

  /** The four `key=value` parameters of the authorisation URL, in order. */
  function LoginParams(cfg: Config): seq<string>
  {
    ["response_type=code", "client_id=" + cfg.clientId, "scope=" + Scope, "redirect_uri=" + cfg.redirectUri]
  }

  /** `login()`: the authorisation URL, its parameters joined by '&'. */
  function LoginUrl(cfg: Config): string
  {
    AuthUrl + "?" + Join(LoginParams(cfg), '&')
  }

  lemma NotInConcat(a: string, b: string, c: char)
    requires c !in a && c !in b
    ensures c !in a + b
  {
  }

  /** The authorisation URL has no query of its own. */
  lemma AuthUrlHasNoQuery()
    ensures '?' !in AuthUrl
  {
  }

  /** No fixed part of the login parameters holds a '&'. */
  lemma LoginLiterals()
    ensures '&' !in "response_type=code" && '&' !in "client_id=" && '&' !in "scope=" && '&' !in Scope
    ensures '&' !in "redirect_uri="
  {
  }

  /** The login URL carries the four parameters the provider expects, in
      order and with their values intact, as long as neither configured value
      holds an '&' (nothing is percent-encoded). */
  lemma LoginUrlParams(cfg: Config)
    requires '&' !in cfg.clientId && '&' !in cfg.redirectUri
    ensures LoginUrl(cfg)[..|AuthUrl| + 1] == AuthUrl + "?"
    ensures QueryParts(LoginUrl(cfg)) ==
      ["response_type=code", "client_id=" + cfg.clientId, "scope=" + Scope, "redirect_uri=" + cfg.redirectUri]
  {
    var ps := LoginParams(cfg);
    var q := Join(ps, '&');
    AuthUrlHasNoQuery();
    LoginLiterals();
    NotInConcat("client_id=", cfg.clientId, '&');
    NotInConcat("scope=", Scope, '&');
    NotInConcat("redirect_uri=", cfg.redirectUri, '&');
    assert forall i :: 0 <= i < |ps| ==> '&' !in ps[i];
    SplitJoin(ps, '&');
    QueryAfterBase(AuthUrl, q);
    assert (AuthUrl + "?" + q)[..|AuthUrl| + 1] == AuthUrl + "?";
  }

  /** The dashboard address `/callback` redirects to, carrying the session. */
  function RedirectUrl(cfg: Config, id: Uuid): string
  {
    cfg.frontendUri + "/" + "?" + "session=" + Canonical(id)
  }

  /** The redirect's only parameter is `session`, and its value parses back
      to the id that was stored. */
  lemma RedirectCarriesSession(cfg: Config, id: Uuid)
    requires '?' !in cfg.frontendUri
    ensures RedirectUrl(cfg, id)[..|cfg.frontendUri| + 2] == cfg.frontendUri + "/?"
    ensures QueryParts(RedirectUrl(cfg, id)) == ["session=" + Canonical(id)]
    ensures ParseUuid(QueryParts(RedirectUrl(cfg, id))[0][|"session="|..]) == Some(id)
  {
    var c := Canonical(id);
    var q := "session=" + c;
    var base := cfg.frontendUri + "/";
    assert '?' !in base;
    assert RedirectUrl(cfg, id) == base + "?" + q;
    assert (base + "?" + q)[..|base| + 1] == base + "?";
    QueryAfterBase(base, q);
    assert '&' !in c;
    assert '&' !in q;
    SplitOnPiece(q, "", '&');
    assert q[8..] == c;
    ParseCanonical(id);
  }

  // ---------------------------------------------------------------- /callback

  /** The token endpoint's reply: status and the three fields read from it. */
  datatype TokenReply = TokenReply(status: int, accessToken: Option<string>, refreshToken: Option<string>, expiresIn: Option<int>)

  /** `raise_for_status` lets only 2xx through. */
  predicate IsSuccess(status: int)
  {
    200 <= status < 300
  }

  /** `SessionData(...)` from the reply: `None` where a key is missing. */
  function SessionOf(reply: TokenReply): (r: Option<SessionData>)
    ensures r.Some? <==> reply.accessToken.Some? && reply.refreshToken.Some? && reply.expiresIn.Some?
    ensures r.Some? ==> r.value.accessToken == reply.accessToken.value
                        && r.value.refreshToken == reply.refreshToken.value
                        && r.value.expiresIn == reply.expiresIn.value
  {
    if reply.accessToken.Some? && reply.refreshToken.Some? && reply.expiresIn.Some? then
      Some(SessionData(reply.accessToken.value, reply.refreshToken.value, reply.expiresIn.value))
    else None
  }

  /** `callback(code)` after the token exchange: `id` is the fresh `uuid4()`. */
  method Callback(store: SessionStore, cfg: Config, reply: TokenReply, id: Uuid) returns (r: Result<string, HttpError>)
    modifies store
    ensures r.Ok? <==> IsSuccess(reply.status) && SessionOf(reply).Some? && id !in old(store.sessions)
    ensures r.Ok? ==> r.value == RedirectUrl(cfg, id)
    ensures r.Ok? ==> store.sessions == old(store.sessions)[id := SessionOf(reply).value]
    ensures r.Ok? ==> Authenticate(store.sessions, Canonical(id)) == Ok(SessionOf(reply).value)
    ensures r.Err? ==> r.error == ServerError && store.sessions == old(store.sessions)
  {
    if !IsSuccess(reply.status) {
      return Err(ServerError);
    }
    var data := SessionOf(reply);
    if data.None? {
      return Err(ServerError);
    }
    var created := store.Create(id, data.value);
    if !created {
      return Err(ServerError);
    }
    StoredSessionIsFound(old(store.sessions), id, data.value);
    r := Ok(RedirectUrl(cfg, id));
  }
}
