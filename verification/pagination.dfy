/**
 * The paging commands of main.go: `map` (`CommandMap`) and `mapb`
 * (`commandPrevious`) walk the location-area listing of the remote API a
 * page at a time, keeping the URLs of the neighbouring pages in a `config`
 * and the raw bodies of fetched pages in the shared `Cache`.
 *
 * The HTTP request and the reading of its body are one abstract value per
 * URL (`fetch`), and the JSON decoding one abstract value per body
 * (`decode`); the clock is the integer `now` handed to `Cache.Add`.
 */
module Pagination {
  import opened Wrappers
  import opened PokeCache

  /** The listing `CommandMap` starts from when there is no next page yet. */
  const FirstPageUrl: string := "https://pokeapi.co/api/v2/location-area?limit=20"

  /** The HTTP status `CommandMap` accepts (`http.StatusOK`). */
  const StatusOK: int := 200

  /** What `http.Get` and `io.ReadAll` give for one URL. */
  datatype Response =
    | RequestFailed                              // `http.Get` returned an error
    | Received(status: int, body: Option<Bytes>) // the body is read only on 200; None: reading it failed

  /**
   * A location-area page as `json.Unmarshal` leaves it in a map: `next` and
   * `previous` are present only when they are JSON strings; `results` is None
   * when it is not an array, and an element is None when it is not an
   * object with a string `name`.
   */
  datatype Page = Page(next: Option<string>, previous: Option<string>, results: Option<seq<Option<string>>>)

  /** The errors `CommandMap` returns, in the order it can meet them. */
  datatype MapError =
    | FetchFailed
    | BadStatus(code: int)
    | ReadFailed
    | DecodeFailed
    | ResultsNotArray
    | BadLocation
  {
    /** The errors met before the body is decoded, so before the config is overwritten from a page. */
    predicate BeforeDecode()
    {
      FetchFailed? || BadStatus? || ReadFailed? || DecodeFailed?
    }
  }

  /** Which of its two messages `CommandMap` prints about where the body came from. */
  datatype Source = FromCache | FromNetwork

  /** What one `map` command shows and returns: the origin of the body, the location names printed, the error. */
  datatype MapReport = MapReport(source: Source, printed: seq<string>, error: Option<MapError>)

  /** The state `CommandMap` reads and writes: the `config` fields and the cache's entries. */
  datatype Session = Session(next: string, previous: string, entries: map<string, Entry>)

  /** The URL `CommandMap` requests: `next`, or the first page when `next` is empty. */
  function PageUrl(next: string): (url: string)
    ensures url != ""
    ensures next == "" ==> url == FirstPageUrl
    ensures next != "" ==> url == next
  {
    if next == "" then FirstPageUrl else next
  }

  /** Whether the response is one whose body `CommandMap` stores and decodes. */
  predicate Fetched(resp: Response)
  {
    resp.Received? && resp.status == StatusOK && resp.body.Some?
  }

  /**
   * The names the listing loop prints before it stops: the longest prefix of
   * `results` made of names, all of `results` when every element is a name.
   */
  function ListedNames(results: seq<Option<string>>): (names: seq<string>)
    ensures |names| <= |results|
    ensures forall i :: 0 <= i < |names| ==> results[i] == Some(names[i])
    ensures |names| < |results| ==> results[|names|].None?
  {
    if results == [] || results[0].None? then []
    else [results[0].value] + ListedNames(results[1..])
  }

  /** The contract of `ListedNames` admits exactly one sequence of names. */
  lemma {:induction false} ListedNamesUnique(results: seq<Option<string>>, names: seq<string>)
    requires |names| <= |results|
    requires forall i :: 0 <= i < |names| ==> results[i] == Some(names[i])
    requires |names| < |results| ==> results[|names|].None?
    ensures ListedNames(results) == names
  {
    if names != [] {
      ListedNamesUnique(results[1..], names[1..]);
    }
  }

  /**
   * The body `CommandMap` decodes for `url`: the cached one on a hit; on a
   * miss the one read from a successful request, or None when the request
   * failed, the status was not 200 or the body could not be read.
   */
  function BodyOf(url: string, entries: map<string, Entry>, fetch: string -> Response): Option<Bytes>
  {
    if url in entries then Some(entries[url].val)
    else if Fetched(fetch(url)) then Some(fetch(url).body.value)
    else None
  }

  /**
   * What `CommandMap` leaves and reports once it holds `body`.  A body that
   * does not decode leaves the links as they were and prints nothing.  A
   * decoded page sets the links to its own, or "" where absent; with no
   * results array nothing is printed; otherwise the names are printed up to
   * the first element that is not one, and the command succeeds exactly
   * when every element is a name.
   */
  predicate ShowsPage(url: string, previous: string, body: Bytes, decode: Bytes -> Option<Page>,
                      next': string, previous': string, printed: seq<string>, error: Option<MapError>)
  {
    match decode(body)
    case None => next' == url && previous' == previous && printed == [] && error == Some(DecodeFailed)
    case Some(page) =>
      && next' == page.next.GetOr("")
      && previous' == page.previous.GetOr("")
      && match page.results
         case None => printed == [] && error == Some(ResultsNotArray)
         case Some(rs) =>
           && printed == ListedNames(rs)
           && (error.None? <==> forall i :: 0 <= i < |rs| ==> rs[i].Some?)
           && (error.Some? ==> error == Some(BadLocation))
  }

  /** What `CommandMap` does with a body once it has one, from the decoding on. */
  function ShowPage(url: string, previous: string, entries: map<string, Entry>, body: Bytes, source: Source,
                    decode: Bytes -> Option<Page>): (r: (Session, MapReport))
    ensures r.0.entries == entries && r.1.source == source
    ensures ShowsPage(url, previous, body, decode, r.0.next, r.0.previous, r.1.printed, r.1.error)
  {
    match decode(body)
    case None => (Session(url, previous, entries), MapReport(source, [], Some(DecodeFailed)))
    case Some(page) =>
      var after := Session(page.next.GetOr(""), page.previous.GetOr(""), entries);
      match page.results
      case None => (after, MapReport(source, [], Some(ResultsNotArray)))
      case Some(locations) =>
        var names := ListedNames(locations);
        (after, MapReport(source, names, if |names| == |locations| then None else Some(BadLocation)))
  }

  /**
   * One `map` command.  The page requested is `PageUrl(s.next)`, and `next`
   * holds that URL until a page is decoded.  A cached body is used as it is,
   * with no request; otherwise the body is requested and stored in the cache
   * only when the request succeeded with status 200 and the body was read.
   * Once a page is decoded, `next` and `previous` are its links, or "" where
   * a link is absent.  With no error, every element of the page's results is
   * a name and all of them are printed.
   */
  function MapStep(s: Session, fetch: string -> Response, decode: Bytes -> Option<Page>, now: int): (r: (Session, MapReport))
    ensures var url := PageUrl(s.next);
      && (r.1.source == FromCache <==> url in s.entries)
      && (r.0.entries != s.entries <==> url !in s.entries && Fetched(fetch(url)))
      && (r.0.entries != s.entries ==> r.0.entries == s.entries[url := Entry(now, fetch(url).body.value)])
      && (r.1.error.Some? && r.1.error.value.BeforeDecode() ==> r.0.next == url && r.0.previous == s.previous)
      && (r.1.error.Some? && r.1.error.value.BeforeDecode() ==> r.1.printed == [])
      && (r.1.error.None? || !r.1.error.value.BeforeDecode() ==>
            && url in r.0.entries
            && var page := decode(r.0.entries[url].val);
            && page.Some?
            && r.0.next == page.value.next.GetOr("")
            && r.0.previous == page.value.previous.GetOr(""))
      && (r.1.error.None? ==>
            var page := decode(r.0.entries[url].val).value;
            && page.results.Some?
            && |r.1.printed| == |page.results.value|
            && forall i :: 0 <= i < |r.1.printed| ==> page.results.value[i] == Some(r.1.printed[i]))
    ensures var url := PageUrl(s.next);
      var body := BodyOf(url, s.entries, fetch);
      && (r.1.error.Some? && r.1.error.value.BeforeDecode() <==> body.None? || decode(body.value).None?)
      && (body.None? ==> r.0.next == url && r.0.previous == s.previous && r.1.printed == [])
      && (body.None? && fetch(url).RequestFailed? ==> r.1.error == Some(FetchFailed))
      && (body.None? && fetch(url).Received? && fetch(url).status != StatusOK ==>
            r.1.error == Some(BadStatus(fetch(url).status)))
      && (body.None? && fetch(url).Received? && fetch(url).status == StatusOK ==> r.1.error == Some(ReadFailed))
      && (body.Some? ==> ShowsPage(url, s.previous, body.value, decode, r.0.next, r.0.previous, r.1.printed, r.1.error))
  {
    var url := PageUrl(s.next);
    if url in s.entries then
      ShowPage(url, s.previous, s.entries, s.entries[url].val, FromCache, decode)
    else
      match fetch(url)
      case RequestFailed =>
        (Session(url, s.previous, s.entries), MapReport(FromNetwork, [], Some(FetchFailed)))
      case Received(status, body) =>
        if status != StatusOK then
          (Session(url, s.previous, s.entries), MapReport(FromNetwork, [], Some(BadStatus(status))))
        else if body.None? then
          (Session(url, s.previous, s.entries), MapReport(FromNetwork, [], Some(ReadFailed)))
        else
          ShowPage(url, s.previous, s.entries[url := Entry(now, body.value)], body.value, FromNetwork, decode)
  }

  /**
   * Once the body decodes, the command has passed every check before
   * decoding: the links are the page's, or "", and the error, if any, is
   * about the results.
   */
  lemma DecodedPageSetsLinks(s: Session, fetch: string -> Response, decode: Bytes -> Option<Page>, now: int,
                             page: Page)
    requires var body := BodyOf(PageUrl(s.next), s.entries, fetch);
      body.Some? && decode(body.value) == Some(page)
    ensures var r := MapStep(s, fetch, decode, now);
      && r.0.next == page.next.GetOr("") && r.0.previous == page.previous.GetOr("")
      && (r.1.error.Some? ==> r.1.error.value in {ResultsNotArray, BadLocation})
      && (page.results.None? <==> r.1.error == Some(ResultsNotArray))
  {
  }

  /** Whether `commandPrevious` sees no previous page. */
  predicate NoPreviousPage(previous: string)
  {
    previous == "nil" || previous == ""
  }

  /**
   * One `mapb` command.  With no previous page nothing changes and nothing
   * is requested (None: only the notice is printed).  Otherwise the previous
   * page becomes the next one, `previous` is cleared, and a `map` command
   * runs from there.
   */
  function PreviousStep(s: Session, fetch: string -> Response, decode: Bytes -> Option<Page>, now: int)
    : (r: (Session, Option<MapReport>))
    ensures r.1.None? <==> NoPreviousPage(s.previous)
    ensures r.1.None? ==> r.0 == s
    ensures r.1.Some? ==> (r.0, r.1.value) == MapStep(Session(s.previous, "", s.entries), fetch, decode, now)
    ensures r.1.Some? ==> (r.1.value.source == FromCache <==> s.previous in s.entries)
  {
    if NoPreviousPage(s.previous) then (s, None)
    else
      var (after, report) := MapStep(Session(s.previous, "", s.entries), fetch, decode, now);
      (after, Some(report))
  }

  /** A cache hit makes no request: the outcome does not depend on what the request would give. */
  lemma HitIgnoresFetch(s: Session, fetch1: string -> Response, fetch2: string -> Response,
                        decode: Bytes -> Option<Page>, now: int)
    requires PageUrl(s.next) in s.entries
    ensures MapStep(s, fetch1, decode, now) == MapStep(s, fetch2, decode, now)
  {
  }

  /**
   * A cached body stands for a fresh response: when the cache holds for the
   * requested URL exactly the body the request would give, the command
   * shows the same page and leaves the same links as without that entry;
   * only the message about the source, and the entry's timestamp, differ.
   */
  lemma CachedBodyActsAsFetched(s: Session, fetch: string -> Response, decode: Bytes -> Option<Page>, now: int)
    requires PageUrl(s.next) in s.entries
    requires fetch(PageUrl(s.next)) == Received(StatusOK, Some(s.entries[PageUrl(s.next)].val))
    ensures var url := PageUrl(s.next);
      var hit := MapStep(s, fetch, decode, now);
      var miss := MapStep(Session(s.next, s.previous, s.entries - {url}), fetch, decode, now);
      && hit.0.next == miss.0.next && hit.0.previous == miss.0.previous
      && hit.1.printed == miss.1.printed && hit.1.error == miss.1.error
      && hit.1.source == FromCache && miss.1.source == FromNetwork
      && miss.0.entries == hit.0.entries[url := Entry(now, hit.0.entries[url].val)]
  {
    var url := PageUrl(s.next);
    assert url !in s.entries - {url};
    assert (s.entries - {url})[url := Entry(now, s.entries[url].val)] == s.entries[url := Entry(now, s.entries[url].val)];
  }

  /**
   * Going back from a page whose request fails loses the way back: `next`
   * is the old previous page and `previous` is left empty.
   */
  lemma FailedBackClearsPrevious(s: Session, fetch: string -> Response, decode: Bytes -> Option<Page>, now: int)
    requires !NoPreviousPage(s.previous)
    requires s.previous !in s.entries && !Fetched(fetch(s.previous))
    ensures var r := PreviousStep(s, fetch, decode, now);
      && r.0 == Session(s.previous, "", s.entries)
      && r.1.Some? && r.1.value.error.Some? && r.1.value.error.value.BeforeDecode()
  {
  }

  /** The `config` of main.go: the URLs of the next and the previous listing page. */
  class Config {
    var next: string
    var previous: string

    /** `config{}`: both links empty. */
    constructor ()
      ensures next == "" && previous == ""
    {
      next, previous := "", "";
    }
  }

  /**
   * `CommandMap`: request (or take from the cache) the page `cfg.next`
   * names, store a freshly fetched body in the cache, update the links from
   * the decoded page and print its location names.
   */
  method CommandMap(cfg: Config, cache: Cache, fetch: string -> Response, decode: Bytes -> Option<Page>, now: int)
    returns (report: MapReport)
    modifies cfg, cache
    ensures (Session(cfg.next, cfg.previous, cache.entries), report)
         == MapStep(Session(old(cfg.next), old(cfg.previous), old(cache.entries)), fetch, decode, now)
  {
    var url := cfg.next;
    if url == "" {
      url := FirstPageUrl;
      cfg.next := url;
    }

    var body: Bytes;
    var source: Source;
    var cached, found := cache.Get(url);
    if found {
      source := FromCache;
      body := cached;
    } else {
      source := FromNetwork;
      var resp := fetch(url);
      if resp.RequestFailed? {
        return MapReport(source, [], Some(FetchFailed));
      }
      if resp.status != StatusOK {
        return MapReport(source, [], Some(BadStatus(resp.status)));
      }
      if resp.body.None? {
        return MapReport(source, [], Some(ReadFailed));
      }
      body := resp.body.value;
      cache.Add(url, body, now);
    }

    report := ShowBody(cfg, body, source, decode);
  }

  /**
   * The end of `CommandMap`, once it has a body: decode it, take the links
   * from the page, and print location names until an element that is not one.
   */
  method ShowBody(cfg: Config, body: Bytes, source: Source, decode: Bytes -> Option<Page>)
    returns (report: MapReport)
    modifies cfg
    ensures (cfg.next, cfg.previous, report)
         == var (after, shown) := ShowPage(old(cfg.next), old(cfg.previous), map[], body, source, decode);
            (after.next, after.previous, shown)
  {
    var data := decode(body);
    if data.None? {
      return MapReport(source, [], Some(DecodeFailed));
    }
    var page := data.value;
    cfg.next := if page.next.Some? then page.next.value else "";
    cfg.previous := if page.previous.Some? then page.previous.value else "";

    if page.results.None? {
      return MapReport(source, [], Some(ResultsNotArray));
    }
    var results := page.results.value;
    var printed: seq<string> := [];
    var i := 0;
    while i < |results|
      invariant 0 <= i <= |results|
      invariant |printed| == i
      invariant forall j :: 0 <= j < i ==> results[j] == Some(printed[j])
    {
      if results[i].None? {
        ListedNamesUnique(results, printed);
        return MapReport(source, printed, Some(BadLocation));
      }
      printed := printed + [results[i].value];
      i := i + 1;
    }
    ListedNamesUnique(results, printed);
    return MapReport(source, printed, None);
  }

  /**
   * `commandPrevious`: with no previous page only a notice (None); otherwise
   * make the previous page the next one, clear `previous`, and run `map`.
   */
  method CommandPrevious(cfg: Config, cache: Cache, fetch: string -> Response, decode: Bytes -> Option<Page>, now: int)
    returns (report: Option<MapReport>)
    modifies cfg, cache
    ensures (Session(cfg.next, cfg.previous, cache.entries), report)
         == PreviousStep(Session(old(cfg.next), old(cfg.previous), old(cache.entries)), fetch, decode, now)
  {
    if cfg.previous == "nil" || cfg.previous == "" {
      return None;
    }
    cfg.next := cfg.previous;
    cfg.previous := "";
    var shown := CommandMap(cfg, cache, fetch, decode, now);
    return Some(shown);
  }
}
