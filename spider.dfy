/**
 * The crawl of `FileSpider`: `start_requests` turns each county of the input
 * into a first request, and three callbacks chained through the requests' meta
 * dictionaries fetch the land listings for sale, sold in the last month and
 * sold in the last three months, and emit one record per county.
 */
module Spider {
  import opened Wrappers
  import opened Strings
  import opened Extractor
  import opened Resolver

  const Site: string := "https://www.redfin.com"
  const ForSaleFilter: string := "/filter/property-type=land"
  const SoldInMonthFilter: string := "/filter/property-type=land,include=sold-1mo"
  const SoldInThreeMonthsFilter: string := "/filter/property-type=land,include=sold-3mo"

  const RouteKey: string := "route_url"
  const StateKey: string := "state"
  const CountyKey: string := "county"
  const ForSaleKey: string := "for_sale"
  const SoldInMonthKey: string := "sold_in_month"
  const SoldInThreeMonthKey: string := "sold_in_three_month"

  /** The keys of every emitted record. */
  const RecordKeys: set<string> := {CountyKey, StateKey, ForSaleKey, SoldInMonthKey, SoldInThreeMonthKey}

  /** One row of the input table. */
  datatype CountyQuery = CountyQuery(county: string, state: string)

  /** The `meta` dictionary a request carries to its callback; every value the spider stores in it is a string. */
  type Meta = map<string, string>

  /** A value of the emitted record: a count string, or the integer 0 put in by `or 0`. */
  datatype Value = Str(s: string) | Int(n: int)

  type Record = map<string, Value>

  /** The callback a request names. */
  datatype Callback = ForSaleCallback | SoldInMonthCallback | SoldInThreeMonthsCallback

  datatype Request = Request(url: string, callback: Callback, meta: Meta)

  /** Why a county is dropped: the fetch failed, `meta` lacked a key, or there was no summary element for `remove_tags`. */
  datatype Error = FetchFailed(url: string) | KeyError(key: string) | TypeError

  /** What a callback yields. */
  datatype Yield = Follow(next: Request) | Item(record: Record)

  /**
   * What fetching a url gives the callback: nothing (a network error or a
   * non-2xx status), or a page with the summary element, if it has one.
   */
  datatype Fetched = NetworkError | Page(summary: Option<string>)

  datatype Outcome = Emitted(record: Record) | Dropped(error: Error)

  /** The urls one county's chain fetched, in order, and how it ended. */
  datatype Run = Run(visited: seq<string>, outcome: Outcome)

  /** `s or 0` for a string `s`. */
  function OrZero(s: string): (v: Value)
    ensures v == Int(0) <==> s == []
    ensures s != [] ==> v == Str(s)
  {
    if s == [] then Int(0) else Str(s)
  }

  /** The request `start_requests` yields for a resolved county. */
  function FirstRequest(route: string, state: string, county: string): (req: Request)
    ensures Carries(req) && req.meta[CountyKey] == county && req.meta[StateKey] == state
  {
    Request(Site + route + ForSaleFilter, ForSaleCallback, map[RouteKey := route, StateKey := state, CountyKey := county])
  }

  /**
   * `for_sale_availble`: reads the route, state and county, extracts the count
   * for sale and requests the one-month sold page with the route, state and
   * county carried on and the count added.
   */
  function ForSaleAvailable(meta: Meta, summary: Option<string>): (r: Result<Request, Error>)
    ensures r.Success? <==> RouteKey in meta && StateKey in meta && CountyKey in meta && summary.Some?
    ensures r.Failure? && r.error.KeyError? ==> r.error.key !in meta
    ensures r.Failure? && !r.error.KeyError? ==> r.error == TypeError && summary.None?
    ensures r.Success? ==>
      && r.value.url == Site + meta[RouteKey] + SoldInMonthFilter
      && r.value.callback == SoldInMonthCallback
      && r.value.meta.Keys == {ForSaleKey, RouteKey, StateKey, CountyKey}
      && r.value.meta[RouteKey] == meta[RouteKey]
      && r.value.meta[StateKey] == meta[StateKey]
      && r.value.meta[CountyKey] == meta[CountyKey]
      && r.value.meta[ForSaleKey] == CleanHtml(summary.value)
  {
    if RouteKey !in meta then Failure(KeyError(RouteKey))
    else if StateKey !in meta then Failure(KeyError(StateKey))
    else if CountyKey !in meta then Failure(KeyError(CountyKey))
    else if summary.None? then Failure(TypeError)
    else
      var route, state, county := meta[RouteKey], meta[StateKey], meta[CountyKey];
      var forSale := CleanHtml(summary.value);
      Success(Request(Site + route + SoldInMonthFilter, SoldInMonthCallback,
        map[ForSaleKey := forSale, RouteKey := route, StateKey := state, CountyKey := county]))
  }

  /**
   * `sold_in_month`: reads the route, state, county and count for sale,
   * extracts the count sold in a month and requests the three-month sold page.
   * The route is not carried on: the last callback does not need it.
   */
  function SoldInMonth(meta: Meta, summary: Option<string>): (r: Result<Request, Error>)
    ensures r.Success? <==> RouteKey in meta && StateKey in meta && CountyKey in meta && ForSaleKey in meta && summary.Some?
    ensures r.Failure? && r.error.KeyError? ==> r.error.key !in meta
    ensures r.Failure? && !r.error.KeyError? ==> r.error == TypeError && summary.None?
    ensures r.Success? ==>
      && r.value.url == Site + meta[RouteKey] + SoldInThreeMonthsFilter
      && r.value.callback == SoldInThreeMonthsCallback
      && r.value.meta.Keys == {ForSaleKey, SoldInMonthKey, StateKey, CountyKey}
      && r.value.meta[ForSaleKey] == meta[ForSaleKey]
      && r.value.meta[StateKey] == meta[StateKey]
      && r.value.meta[CountyKey] == meta[CountyKey]
      && r.value.meta[SoldInMonthKey] == CleanHtml(summary.value)
  {
    if RouteKey !in meta then Failure(KeyError(RouteKey))
    else if StateKey !in meta then Failure(KeyError(StateKey))
    else if CountyKey !in meta then Failure(KeyError(CountyKey))
    else if ForSaleKey !in meta then Failure(KeyError(ForSaleKey))
    else if summary.None? then Failure(TypeError)
    else
      var route, state, county, forSale := meta[RouteKey], meta[StateKey], meta[CountyKey], meta[ForSaleKey];
      var soldInMonth := CleanHtml(summary.value);
      Success(Request(Site + route + SoldInThreeMonthsFilter, SoldInThreeMonthsCallback,
        map[ForSaleKey := forSale, SoldInMonthKey := soldInMonth, StateKey := state, CountyKey := county]))
  }

  /**
   * `sold_in_three_months`: the final record. An empty count for sale or sold
   * in a month becomes 0; the three-month count is emitted as extracted.
   */
  function SoldInThreeMonths(meta: Meta, summary: Option<string>): (r: Result<Record, Error>)
    ensures r.Success? <==> StateKey in meta && CountyKey in meta && ForSaleKey in meta && SoldInMonthKey in meta && summary.Some?
    ensures r.Failure? && r.error.KeyError? ==> r.error.key !in meta
    ensures r.Failure? && !r.error.KeyError? ==> r.error == TypeError && summary.None?
    ensures r.Success? ==>
      && r.value.Keys == RecordKeys
      && r.value[CountyKey] == Str(meta[CountyKey])
      && r.value[StateKey] == Str(meta[StateKey])
      && (r.value[ForSaleKey] == Int(0) <==> meta[ForSaleKey] == [])
      && (r.value[SoldInMonthKey] == Int(0) <==> meta[SoldInMonthKey] == [])
      && (meta[ForSaleKey] != [] ==> r.value[ForSaleKey] == Str(meta[ForSaleKey]))
      && (meta[SoldInMonthKey] != [] ==> r.value[SoldInMonthKey] == Str(meta[SoldInMonthKey]))
      && r.value[SoldInThreeMonthKey] == Str(CleanHtml(summary.value))
  {
    if StateKey !in meta then Failure(KeyError(StateKey))
    else if CountyKey !in meta then Failure(KeyError(CountyKey))
    else if ForSaleKey !in meta then Failure(KeyError(ForSaleKey))
    else if SoldInMonthKey !in meta then Failure(KeyError(SoldInMonthKey))
    else if summary.None? then Failure(TypeError)
    else
      var state, county := meta[StateKey], meta[CountyKey];
      var forSale, soldInMonth := OrZero(meta[ForSaleKey]), OrZero(meta[SoldInMonthKey]);
      var soldInThreeMonth := CleanHtml(summary.value);
      Success(map[CountyKey := Str(county), StateKey := Str(state), ForSaleKey := forSale,
        SoldInMonthKey := soldInMonth, SoldInThreeMonthKey := Str(soldInThreeMonth)])
  }

  /** How many callbacks are still to come after this one. */
  function Remaining(c: Callback): nat
  {
    match c
    case ForSaleCallback => 2
    case SoldInMonthCallback => 1
    case SoldInThreeMonthsCallback => 0
  }

  /** Scrapy calling the callback a request names with the summary element of its response. */
  function Handle(req: Request, summary: Option<string>): (r: Result<Yield, Error>)
    ensures r.Success? && r.value.Follow? ==> Remaining(r.value.next.callback) + 1 == Remaining(req.callback)
    ensures r.Success? && r.value.Item? ==> req.callback == SoldInThreeMonthsCallback
  {
    match req.callback
    case ForSaleCallback =>
      (match ForSaleAvailable(req.meta, summary)
       case Success(next) => Success(Follow(next))
       case Failure(e) => Failure(e))
    case SoldInMonthCallback =>
      (match SoldInMonth(req.meta, summary)
       case Success(next) => Success(Follow(next))
       case Failure(e) => Failure(e))
    case SoldInThreeMonthsCallback =>
      (match SoldInThreeMonths(req.meta, summary)
       case Success(record) => Success(Item(record))
       case Failure(e) => Failure(e))
  }

  /** Follows one county's chain of requests to its record, or to the point where it was dropped. */
  function Process(req: Request, fetch: string -> Fetched): (run: Run)
    ensures 1 <= |run.visited| <= Remaining(req.callback) + 1 && run.visited[0] == req.url
    decreases Remaining(req.callback)
  {
    match fetch(req.url)
    case NetworkError => Run([req.url], Dropped(FetchFailed(req.url)))
    case Page(summary) =>
      match Handle(req, summary)
      case Failure(e) => Run([req.url], Dropped(e))
      case Success(Item(record)) => Run([req.url], Emitted(record))
      case Success(Follow(next)) =>
        var rest := Process(next, fetch);
        Run([req.url] + rest.visited, rest.outcome)
  }

  /** The url was fetched and its page had the summary element. */
  predicate Served(fetch: string -> Fetched, url: string)
  {
    fetch(url).Page? && fetch(url).summary.Some?
  }

  /** The keys of `meta` that a callback reads. */
  function ReadKeys(c: Callback): set<string>
  {
    match c
    case ForSaleCallback => {RouteKey, StateKey, CountyKey}
    case SoldInMonthCallback => {RouteKey, StateKey, CountyKey, ForSaleKey}
    case SoldInThreeMonthsCallback => {StateKey, CountyKey, ForSaleKey, SoldInMonthKey}
  }

  /** The request carries every key its callback reads. */
  predicate Carries(req: Request)
  {
    ReadKeys(req.callback) <= req.meta.Keys
  }

  /**
   * A callback on a request that carries its keys fails only for a missing
   * summary element, and the request it yields carries its own callback's keys.
   */
  lemma HandleCarries(req: Request, summary: Option<string>)
    requires Carries(req)
    ensures Handle(req, summary).Success? <==> summary.Some?
    ensures Handle(req, summary).Failure? ==> Handle(req, summary).error == TypeError
    ensures Handle(req, summary).Success? && Handle(req, summary).value.Follow? ==>
      Carries(Handle(req, summary).value.next)
  {
  }

  /** A chain started from a request that carries its keys never fails with a `KeyError`. */
  lemma {:induction false} NoKeyError(req: Request, fetch: string -> Fetched)
    requires Carries(req)
    ensures Process(req, fetch).outcome.Dropped? ==> !Process(req, fetch).outcome.error.KeyError?
    decreases Remaining(req.callback)
  {
    if fetch(req.url).Page? {
      var summary := fetch(req.url).summary;
      HandleCarries(req, summary);
      var handled := Handle(req, summary);
      if handled.Success? && handled.value.Follow? {
        NoKeyError(handled.value.next, fetch);
      }
    }
  }

  /** The three urls of a county's chain, in the order they are requested. */
  function ChainUrls(route: string): (urls: seq<string>)
    ensures |urls| == 3 && urls[0] != urls[1] && urls[0] != urls[2] && urls[1] != urls[2]
    ensures forall i :: 0 <= i < 3 ==> StartsWith(urls[i], urls[0])
  {
    var page := Site + route;
    var urls := [page + ForSaleFilter, page + SoldInMonthFilter, page + SoldInThreeMonthsFilter];
    assert SoldInMonthFilter == ForSaleFilter + ",include=sold-1mo";
    assert SoldInThreeMonthsFilter == ForSaleFilter + ",include=sold-3mo";
    assert urls[1] == urls[0] + ",include=sold-1mo" && urls[2] == urls[0] + ",include=sold-3mo";
    assert urls[1][|urls[0]| + 14] == '1' && urls[2][|urls[0]| + 14] == '3';
    assert urls[1][..|urls[0]|] == urls[0] && urls[2][..|urls[0]|] == urls[0];
    urls
  }

  /** The first callback passes route, state and county on and adds the count for sale. */
  lemma ForSaleStage(route: string, state: string, county: string, summary: string)
    ensures Handle(FirstRequest(route, state, county), Some(summary)) ==
      Success(Follow(Request(ChainUrls(route)[1], SoldInMonthCallback,
        map[ForSaleKey := CleanHtml(summary), RouteKey := route, StateKey := state, CountyKey := county])))
  {
  }

  /** The second callback passes the count for sale, state and county on, adds the one-month count and drops the route. */
  lemma SoldInMonthStage(route: string, state: string, county: string, forSale: string, summary: string)
    ensures Handle(Request(ChainUrls(route)[1], SoldInMonthCallback,
        map[ForSaleKey := forSale, RouteKey := route, StateKey := state, CountyKey := county]), Some(summary)) ==
      Success(Follow(Request(ChainUrls(route)[2], SoldInThreeMonthsCallback,
        map[ForSaleKey := forSale, SoldInMonthKey := CleanHtml(summary), StateKey := state, CountyKey := county])))
  {
  }

  /** The last callback emits county, state, the two counts defaulted to 0 when empty, and the three-month count as it is. */
  lemma SoldInThreeMonthsStage(url: string, state: string, county: string, forSale: string, soldInMonth: string, summary: string)
    ensures Handle(Request(url, SoldInThreeMonthsCallback,
        map[ForSaleKey := forSale, SoldInMonthKey := soldInMonth, StateKey := state, CountyKey := county]), Some(summary)) ==
      Success(Item(map[CountyKey := Str(county), StateKey := Str(state), ForSaleKey := OrZero(forSale),
        SoldInMonthKey := OrZero(soldInMonth), SoldInThreeMonthKey := Str(CleanHtml(summary))]))
  {
  }

  /** A served page whose callback yields a request continues the chain with that request. */
  lemma ProcessFollows(req: Request, fetch: string -> Fetched, next: Request)
    requires fetch(req.url).Page? && Handle(req, fetch(req.url).summary) == Success(Follow(next))
    ensures Process(req, fetch) == Run([req.url] + Process(next, fetch).visited, Process(next, fetch).outcome)
  {
  }

  /** A page that is not served ends the chain there. */
  lemma ProcessStops(req: Request, fetch: string -> Fetched)
    requires !Served(fetch, req.url)
    ensures Process(req, fetch).visited == [req.url] && Process(req, fetch).outcome.Dropped?
  {
  }

  /**
   * The chain of a resolved county: it fetches a prefix of its three urls in
   * order, never fails on a missing meta key, emits exactly when all three
   * pages were served, and then emits the county and state it started with and
   * the three counts, the first two defaulted to 0 when empty.
   */
  lemma {:induction false} ChainOfCounty(route: string, state: string, county: string, fetch: string -> Fetched)
    ensures var run := Process(FirstRequest(route, state, county), fetch);
      && 1 <= |run.visited| <= 3
      && run.visited == ChainUrls(route)[..|run.visited|]
      && (run.outcome.Dropped? ==> !run.outcome.error.KeyError? && !Served(fetch, run.visited[|run.visited| - 1]))
      && (run.outcome.Emitted? <==>
            Served(fetch, ChainUrls(route)[0]) && Served(fetch, ChainUrls(route)[1]) && Served(fetch, ChainUrls(route)[2]))
      && (run.outcome.Emitted? ==>
            run.outcome.record == map[
              CountyKey := Str(county),
              StateKey := Str(state),
              ForSaleKey := OrZero(CleanHtml(fetch(ChainUrls(route)[0]).summary.value)),
              SoldInMonthKey := OrZero(CleanHtml(fetch(ChainUrls(route)[1]).summary.value)),
              SoldInThreeMonthKey := Str(CleanHtml(fetch(ChainUrls(route)[2]).summary.value))])
  {
    var urls := ChainUrls(route);
    var first := FirstRequest(route, state, county);
    NoKeyError(first, fetch);
    if !Served(fetch, urls[0]) {
      ProcessStops(first, fetch);
      return;
    }
    var f1 := CleanHtml(fetch(urls[0]).summary.value);
    var second := Request(urls[1], SoldInMonthCallback,
      map[ForSaleKey := f1, RouteKey := route, StateKey := state, CountyKey := county]);
    ForSaleStage(route, state, county, fetch(urls[0]).summary.value);
    ProcessFollows(first, fetch, second);
    if !Served(fetch, urls[1]) {
      ProcessStops(second, fetch);
      return;
    }
    var f2 := CleanHtml(fetch(urls[1]).summary.value);
    var third := Request(urls[2], SoldInThreeMonthsCallback,
      map[ForSaleKey := f1, SoldInMonthKey := f2, StateKey := state, CountyKey := county]);
    SoldInMonthStage(route, state, county, f1, fetch(urls[1]).summary.value);
    ProcessFollows(second, fetch, third);
    if !Served(fetch, urls[2]) {
      ProcessStops(third, fetch);
      assert Process(first, fetch).visited == urls;
      return;
    }
    SoldInThreeMonthsStage(urls[2], state, county, f1, f2, fetch(urls[2]).summary.value);
    assert Process(first, fetch).visited == urls;
  }

  /**
   * The route `_find_address_bounds` gives a county once its name is
   * normalised, where `autocomplete` stands for the geocoding and
   * autocomplete calls: the rows they return for a county and state.
   */
  function ResolvedRoute(query: CountyQuery, autocomplete: (string, string) -> seq<Row>): (route: Option<string>)
    ensures route.Some? ==>
      exists row :: row in autocomplete(NormaliseCounty(query.county), query.state)
        && row.name == Strip(NormaliseCounty(query.county)) && row.url == route.value
  {
    var county := NormaliseCounty(query.county);
    SelectRoute(autocomplete(county, query.state), Strip(county), query.state)
  }

  /** What `start_requests` yields for one input row: one request, or none when no route was found. */
  function RequestsFor(query: CountyQuery, autocomplete: (string, string) -> seq<Row>): (reqs: seq<Request>)
    ensures |reqs| <= 1 && (reqs == [] <==> ResolvedRoute(query, autocomplete).None?)
    ensures forall i :: 0 <= i < |reqs| ==> IsFirstRequest(reqs[i]) && reqs[i].meta[StateKey] == query.state
  {
    match ResolvedRoute(query, autocomplete)
    case None => []
    case Some(route) => [FirstRequest(route, query.state, NormaliseCounty(query.county))]
  }

  /** What `start_requests` yields for the whole input, in input order. */
  function InitialRequests(queries: seq<CountyQuery>, autocomplete: (string, string) -> seq<Row>): (reqs: seq<Request>)
    ensures |reqs| <= |queries|
  {
    if queries == [] then []
    else InitialRequests(queries[..|queries| - 1], autocomplete) + RequestsFor(queries[|queries| - 1], autocomplete)
  }

  /**
   * The body of `start_requests`'s loop for one input row: normalises the
   * county, looks up its route and yields the request for the page of land
   * for sale, or nothing when there is no route.
   */
  method StartRow(query: CountyQuery, autocomplete: (string, string) -> seq<Row>) returns (yielded: seq<Request>)
    ensures yielded == RequestsFor(query, autocomplete)
  {
    var county := query.county;
    if !Contains(county, CountyWord) {
      county := county + " County";
    }
    assert county == NormaliseCounty(query.county);
    var route := FindRoute(autocomplete(county, query.state), county, query.state);
    yielded := [];
    if route.Some? {
      yielded := [FirstRequest(route.value, query.state, county)];
    }
  }

  /** `start_requests`: the requests of every input row, in input order. */
  method StartRequests(queries: seq<CountyQuery>, autocomplete: (string, string) -> seq<Row>)
    returns (requests: seq<Request>)
    ensures requests == InitialRequests(queries, autocomplete)
  {
    requests := [];
    var k := 0;
    while k < |queries|
      invariant 0 <= k <= |queries|
      invariant requests == InitialRequests(queries[..k], autocomplete)
    {
      var yielded := StartRow(queries[k], autocomplete);
      InitialRequestsStep(queries, k, autocomplete);
      requests := requests + yielded;
      k := k + 1;
    }
    assert queries[..k] == queries;
  }

  /** One more input row adds that row's requests. */
  lemma InitialRequestsStep(queries: seq<CountyQuery>, k: nat, autocomplete: (string, string) -> seq<Row>)
    requires k < |queries|
    ensures InitialRequests(queries[..k + 1], autocomplete)
      == InitialRequests(queries[..k], autocomplete) + RequestsFor(queries[k], autocomplete)
  {
    assert queries[..k + 1][..k] == queries[..k];
  }

  /** A first request as `start_requests` builds it, for a county name holding "County". */
  ghost predicate IsFirstRequest(req: Request)
  {
    && RouteKey in req.meta && StateKey in req.meta && CountyKey in req.meta
    && req == FirstRequest(req.meta[RouteKey], req.meta[StateKey], req.meta[CountyKey])
    && Contains(req.meta[CountyKey], CountyWord)
  }

  /** `start_requests` yields at most one request per row, each a first request for a normalised county. */
  lemma {:induction false} InitialRequestsShape(queries: seq<CountyQuery>, autocomplete: (string, string) -> seq<Row>)
    ensures |InitialRequests(queries, autocomplete)| <= |queries|
    ensures forall i :: 0 <= i < |InitialRequests(queries, autocomplete)| ==>
      IsFirstRequest(InitialRequests(queries, autocomplete)[i])
  {
    if queries != [] {
      var front := queries[..|queries| - 1];
      var query := queries[|queries| - 1];
      InitialRequestsShape(front, autocomplete);
      var county := NormaliseCounty(query.county);
      if ResolvedRoute(query, autocomplete).Some? {
        var req := FirstRequest(ResolvedRoute(query, autocomplete).value, query.state, county);
        assert IsFirstRequest(req);
      }
    }
  }

  /** The records the chains of `requests` emit, in order. */
  function Records(requests: seq<Request>, fetch: string -> Fetched): (records: seq<Record>)
    ensures |records| <= |requests|
  {
    if requests == [] then []
    else
      var last := Process(requests[|requests| - 1], fetch);
      Records(requests[..|requests| - 1], fetch) + (if last.outcome.Emitted? then [last.outcome.record] else [])
  }

  /** The output of a whole crawl, one county after another. */
  function Crawl(queries: seq<CountyQuery>, autocomplete: (string, string) -> seq<Row>, fetch: string -> Fetched): (records: seq<Record>)
    ensures |records| <= |queries|
  {
    Records(InitialRequests(queries, autocomplete), fetch)
  }

  /** Every record emitted from first requests has the five keys and the county it was started with. */
  lemma {:induction false} RecordsShape(requests: seq<Request>, fetch: string -> Fetched)
    requires forall i :: 0 <= i < |requests| ==> IsFirstRequest(requests[i])
    ensures |Records(requests, fetch)| <= |requests|
    ensures forall i :: 0 <= i < |Records(requests, fetch)| ==>
      && Records(requests, fetch)[i].Keys == RecordKeys
      && Records(requests, fetch)[i][CountyKey].Str?
      && Contains(Records(requests, fetch)[i][CountyKey].s, CountyWord)
  {
    if requests != [] {
      var req := requests[|requests| - 1];
      RecordsShape(requests[..|requests| - 1], fetch);
      EmittedShape(req, fetch);
    }
  }

  /** The record a first request's chain emits has the five keys and the county it was started with. */
  lemma EmittedShape(req: Request, fetch: string -> Fetched)
    requires IsFirstRequest(req)
    ensures var outcome := Process(req, fetch).outcome;
      outcome.Emitted? ==>
        && outcome.record.Keys == RecordKeys
        && outcome.record[CountyKey] == Str(req.meta[CountyKey])
        && Contains(req.meta[CountyKey], CountyWord)
  {
    ChainOfCounty(req.meta[RouteKey], req.meta[StateKey], req.meta[CountyKey], fetch);
  }

  /**
   * A crawl emits at most one record per input row; each record has exactly
   * the keys county, state, for_sale, sold_in_month and sold_in_three_month,
   * and its county holds "County".
   */
  lemma CrawlShape(queries: seq<CountyQuery>, autocomplete: (string, string) -> seq<Row>, fetch: string -> Fetched)
    ensures |Crawl(queries, autocomplete, fetch)| <= |queries|
    ensures forall i :: 0 <= i < |Crawl(queries, autocomplete, fetch)| ==>
      && Crawl(queries, autocomplete, fetch)[i].Keys == RecordKeys
      && Crawl(queries, autocomplete, fetch)[i][CountyKey].Str?
      && Contains(Crawl(queries, autocomplete, fetch)[i][CountyKey].s, CountyWord)
  {
    InitialRequestsShape(queries, autocomplete);
    RecordsShape(InitialRequests(queries, autocomplete), fetch);
  }

  /** A row whose county has no route adds no request and so no record. */
  lemma CrawlSkipsUnresolved(queries: seq<CountyQuery>, query: CountyQuery,
                             autocomplete: (string, string) -> seq<Row>, fetch: string -> Fetched)
    requires ResolvedRoute(query, autocomplete).None?
    ensures InitialRequests(queries + [query], autocomplete) == InitialRequests(queries, autocomplete)
    ensures Crawl(queries + [query], autocomplete, fetch) == Crawl(queries, autocomplete, fetch)
  {
    assert (queries + [query])[..|queries|] == queries;
  }

  /**
   * One county served the fragments "d of d homes" for the digits d = 5, 2, 1
   * (or any other three) gives the record with the counts "5", "2" and "1".
   */
  lemma ExampleOneCounty(query: CountyQuery, route: string, d1: char, d2: char, d3: char,
                         autocomplete: (string, string) -> seq<Row>, fetch: string -> Fetched)
    requires IsDigit(d1) && IsDigit(d2) && IsDigit(d3)
    requires ResolvedRoute(query, autocomplete) == Some(route)
    requires fetch(ChainUrls(route)[0]) == Page(Some(HomesSummary(d1)))
    requires fetch(ChainUrls(route)[1]) == Page(Some(HomesSummary(d2)))
    requires fetch(ChainUrls(route)[2]) == Page(Some(HomesSummary(d3)))
    ensures Crawl([query], autocomplete, fetch) == [map[
      CountyKey := Str(NormaliseCounty(query.county)), StateKey := Str(query.state),
      ForSaleKey := Str([d1]), SoldInMonthKey := Str([d2]), SoldInThreeMonthKey := Str([d3])]]
  {
    var county := NormaliseCounty(query.county);
    var first := FirstRequest(route, query.state, county);
    CrawlSingle(query, autocomplete, fetch);
    RecordsSingle(first, fetch);
    ChainOfCounty(route, query.state, county, fetch);
    CountOfHomes(d1);
    CountOfHomes(d2);
    CountOfHomes(d3);
  }

  lemma CrawlSingle(query: CountyQuery, autocomplete: (string, string) -> seq<Row>, fetch: string -> Fetched)
    ensures Crawl([query], autocomplete, fetch) == Records(RequestsFor(query, autocomplete), fetch)
  {
    assert [query][..0] == [];
    var reqs := RequestsFor(query, autocomplete);
    assert InitialRequests([query], autocomplete) == InitialRequests([], autocomplete) + reqs;
    assert InitialRequests([query], autocomplete) == reqs;
  }

  lemma RecordsSingle(req: Request, fetch: string -> Fetched)
    ensures var run := Process(req, fetch);
      Records([req], fetch) == if run.outcome.Emitted? then [run.outcome.record] else []
  {
    assert [req][..0] == [];
  }

  /** The summary "d of d homes". */
  function HomesSummary(d: char): string
  {
    [d] + " " + Of + " " + [d] + " homes"
  }

  /** The summary "d of d homes" for a digit d counts d. */
  lemma CountOfHomes(d: char)
    requires IsDigit(d)
    ensures CleanHtml(HomesSummary(d)) == [d]
  {
    var before, after := [d] + " ", " " + [d] + " homes";
    var text := before + Of + after;
    assert HomesSummary(d) == text;
    assert '<' !in text;
    assert ExtractCount(text) == Digits(after) by {
      NoOf(after);
      ExtractCountAfter(before, after);
    }
    assert Digits(after) == [d] by {
      assert after == " " + ([d] + " homes");
      DigitsAppend(" ", [d] + " homes");
      DigitsAppend([d], " homes");
      assert Digits(" homes") == [];
    }
  }
}
