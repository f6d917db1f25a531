# Redfin land-velocity spider, modelled in Dafny

`FileSpider` is a Scrapy spider. It reads a table of (county, state) rows and
works out how fast land sells in each county. For every row it does the following:

- It appends " County" to the name unless the text "County" occurs anywhere in it.
- It asks Redfin's location-autocomplete endpoint for the county's search
  route. The route is the url of the first returned row whose name equals the
  stripped county and whose url contains "/" followed by the county with
  hyphens for spaces.
- It then chains three requests: land for sale, land sold in the last month,
  and land sold in the last three months. Each request passes the counts read
  so far to the next one in its `meta` dictionary.
- The last callback emits one record with the county, the state and the three
  counts.
- Each count is read from the page's "homes summary" element by
  `_clean_html`. It drops the markup, keeps the text after the last "of"
  (when there is one) and keeps only its digits.

The project has five modules:

- `Wrappers`: `Option` and `Result`.
- `Strings`: Python's `in`, `split`, `join`, `replace`, `strip` and
  the `isdigit` filter on `seq<char>`, with the lemmas linking them. For
  example, `join` undoes `split`, `replace` is `rep.join(s.split(pat))`, and
  the last piece of a split is the text after the last separator.
- `Extractor`: `_clean_html`, over a simplified `remove_tags`.
- `Resolver`:
  - the county normalisation;
  - the row search of `_get_google_map_address`, as a loop (`FindRoute`)
    proved against a first-match function (`SelectRoute`);
  - the `"{}&&"` clean-up of the autocomplete body.
- `Spider`:
  - the three callbacks as functions from a `meta` map and the fetched summary
    element to the next request or the record, with Python's `KeyError`
    and `TypeError` as failures;
  - Scrapy's dispatch of a request to its callback (`Handle`);
  - a county's chain of requests (`Process`);
  - `start_requests` as a loop (`StartRequests`, one row at a time by
    `StartRow`) proved against `InitialRequests`;
  - the whole crawl (`Crawl`).

The network appears in the model as two functions passed as parameters:

- `autocomplete` gives the rows the geocoder and the autocomplete endpoint
  return for a county and state;
- `fetch` gives what each url returns.

Four behaviours of the code are easy to misread; the model keeps them as written:

- The counts are strings of digits, not integers. An empty count for sale or
  sold in a month becomes the integer 0 through `or 0`. An empty three-month
  count stays `""`.
- The `f"/{state}"` conjunct of the route test is a non-empty string literal,
  so it is always true and the state is never checked
  (`Resolver.RowMatchesIgnoresState`, `Resolver.SelectRouteIgnoresState`,
  `Resolver.StateNotChecked`).
- Removing `"{}&&"` is one left-to-right pass. It can leave an artifact
  behind and is not idempotent (`Resolver.CleanAutocompleteBodyNotIdempotent`).
- A county whose chain meets a failed fetch or a page without the summary
  element is dropped. `remove_tags(None)` raises `TypeError`.

## Model

| member | source | states |
|---|---|---|
| Strings.JoinSplit | redfin_sales/spiders/redfin_sales_analysis_spider.py:216 | joining the pieces of `s.split(sep)` with `sep` gives back `s` |
| Strings.SplitLast | redfin_sales/spiders/redfin_sales_analysis_spider.py:216 | `split(sep)[-1]` is a suffix of the text that holds no `sep`; there are at least two pieces exactly when `sep` occurs; when it occurs it occurs just before that suffix; when it does not, the split is the text alone |
| Strings.SplitPiecesFree | redfin_sales/spiders/redfin_sales_analysis_spider.py:216 | no piece of a split contains the separator |
| Strings.Contains | redfin_sales/spiders/redfin_sales_analysis_spider.py:38 | Python's `p in s`: only a pattern no longer than `s` can occur, and the empty pattern occurs in every string |
| Strings.ContainsIff | redfin_sales/spiders/redfin_sales_analysis_spider.py:215 | Python's `p in s` holds exactly when `p` occurs at some index of `s` |
| Strings.Split | redfin_sales/spiders/redfin_sales_analysis_spider.py:216 | `s.split(sep)` has at least one piece |
| Strings.Replace | redfin_sales/spiders/redfin_sales_analysis_spider.py:196 | replacing with a string no longer than the pattern never lengthens the text, and with one of the same length keeps its length |
| Strings.ReplaceIsJoinSplit | redfin_sales/spiders/redfin_sales_analysis_spider.py:196 | `s.replace(pat, rep)` equals `rep.join(s.split(pat))` |
| Strings.ReplaceAbsent | redfin_sales/spiders/redfin_sales_analysis_spider.py:196 | replacing a pattern that does not occur leaves the text unchanged |
| Strings.Strip | redfin_sales/spiders/redfin_sales_analysis_spider.py:170 | `strip()` is no longer than its input and what it keeps neither starts nor ends with whitespace |
| Strings.StripCutsWhitespace | redfin_sales/spiders/redfin_sales_analysis_spider.py:170 | `strip()` returns `s[i..j]` where everything before `i` and from `j` on is whitespace and, when anything is left, its first and last characters are not whitespace |
| Strings.Digits | redfin_sales/spiders/redfin_sales_analysis_spider.py:217-218 | the `isdigit` filter keeps only digits, is no longer than its input, and is empty exactly when the input has no digit |
| Strings.DigitsAppend | redfin_sales/spiders/redfin_sales_analysis_spider.py:217-218 | filtering the digits of a concatenation concatenates the filtered parts |
| Strings.DigitsOfDigits | redfin_sales/spiders/redfin_sales_analysis_spider.py:217-218 | a string of digits is its own filter |
| Extractor.RemoveTags | redfin_sales/spiders/redfin_sales_analysis_spider.py:214 | dropping the tags never lengthens the text |
| Extractor.RemoveTagsPlain | redfin_sales/spiders/redfin_sales_analysis_spider.py:214 | text without `<` passes `remove_tags` unchanged |
| Extractor.RemoveTagsElement | redfin_sales/spiders/redfin_sales_analysis_spider.py:214 | an element `<open>body<close>` whose body holds no markup gives its body |
| Extractor.ExtractCount | redfin_sales/spiders/redfin_sales_analysis_spider.py:215-218 | the count is all digits and no longer than the text; when "of" occurs it is the digits after the last occurrence of "of"; otherwise it is the digits of the whole text; a text without digits gives "" |
| Extractor.CleanHtml | redfin_sales/spiders/redfin_sales_analysis_spider.py:212-218 | `_clean_html` returns only digits, is no longer than its input, and on markup-free text is the count of that text |
| Extractor.ExtractCountAfter | redfin_sales/spiders/redfin_sales_analysis_spider.py:215-217 | the count of `before + "of" + after`, where `after` has no "of", is the digits of `after`, whatever `before` holds |
| Extractor.ExampleLastOf | redfin_sales/spiders/redfin_sales_analysis_spider.py:212-218 | `<div>Showing 1 of 42 homes of 7</div>` gives "7" |
| Extractor.ExampleNoOf | redfin_sales/spiders/redfin_sales_analysis_spider.py:218 | `<b>12 lots</b>` gives "12" |
| Extractor.ExampleNoDigits | redfin_sales/spiders/redfin_sales_analysis_spider.py:218 | `<i>none</i>` gives "" |
| Extractor.ExampleOffers | redfin_sales/spiders/redfin_sales_analysis_spider.py:215-217 | "3 offers" has "of" inside a word, and the count is "" |
| Resolver.NormaliseCounty | redfin_sales/spiders/redfin_sales_analysis_spider.py:38-39 | the name is kept exactly when it contains "County", " County" is appended exactly when it does not, and the result always contains "County" |
| Resolver.NormaliseIdempotent | redfin_sales/spiders/redfin_sales_analysis_spider.py:38-39 | normalising twice is normalising once |
| Resolver.NormaliseSubstringNotSuffix | redfin_sales/spiders/redfin_sales_analysis_spider.py:38 | the test is for a substring: a name that begins with "County" is left as it is |
| Resolver.RowMatches | redfin_sales/spiders/redfin_sales_analysis_spider.py:204-208 | a matching row's url is longer than the county it is matched against |
| Resolver.RowMatchesIgnoresState | redfin_sales/spiders/redfin_sales_analysis_spider.py:204-208 | a row matches exactly when its name equals the county and its url contains "/" plus the hyphenated county; the state plays no part |
| Resolver.SelectRoute | redfin_sales/spiders/redfin_sales_analysis_spider.py:200-209 | a route that is found is the url of a row that matches |
| Resolver.SelectRouteFirstMatch | redfin_sales/spiders/redfin_sales_analysis_spider.py:200-209 | no route exactly when no row matches; otherwise the route is the url of the first matching row |
| Resolver.SelectRouteIgnoresState | redfin_sales/spiders/redfin_sales_analysis_spider.py:204-209 | the route chosen for a county is the same for every state |
| Resolver.StateNotChecked | redfin_sales/spiders/redfin_sales_analysis_spider.py:205 | a row for the right county under a path without "/state" is still returned |
| Resolver.FindRoute | redfin_sales/spiders/redfin_sales_analysis_spider.py:168-209 | the loop over the rows, on the stripped county, returns the first-match route; it returns none exactly when no row matches, and otherwise the url of a row that matches with none before it |
| Resolver.FirstMatchUnique | redfin_sales/spiders/redfin_sales_analysis_spider.py:200-209 | a row that matches with none before it is the one whose url is returned |
| Resolver.CleanAutocompleteBody | redfin_sales/spiders/redfin_sales_analysis_spider.py:196 | the clean-up is the concatenation of the pieces of `text.split("{}&&")`, none of which holds the artifact (`Strings.SplitPiecesFree`); it never lengthens the body, and a body without the artifact is left as it is |
| Resolver.CleanAutocompleteBodyDropsPrefix | redfin_sales/spiders/redfin_sales_analysis_spider.py:196 | one leading `{}&&` in front of a body that holds none is removed, leaving the body |
| Resolver.CleanAutocompleteBodyNotIdempotent | redfin_sales/spiders/redfin_sales_analysis_spider.py:196 | `{{}&&}&&` comes out as `{}&&`, which a second pass would remove: the clean-up is not idempotent and can leave an artifact |
| Spider.OrZero | redfin_sales/spiders/redfin_sales_analysis_spider.py:109-110 | `s or 0` is the integer 0 exactly for the empty string, and `s` otherwise |
| Spider.FirstRequest | redfin_sales/spiders/redfin_sales_analysis_spider.py:48-53 | the first request carries every key the first callback reads, with the county and state it was given |
| Spider.ForSaleAvailable | redfin_sales/spiders/redfin_sales_analysis_spider.py:55-81 | succeeds exactly when route, state and county are in `meta` and the summary exists; a `KeyError` names a missing key; otherwise the failure is `TypeError` for a missing summary; on success, the one-month url `Site + route + filter`, carrying route, state and county and adding the count for sale |
| Spider.SoldInMonth | redfin_sales/spiders/redfin_sales_analysis_spider.py:83-103 | the same for route, state, county and for_sale; on success, the three-month url and a `meta` of exactly for_sale, sold_in_month, state and county, so the route is dropped |
| Spider.SoldInThreeMonths | redfin_sales/spiders/redfin_sales_analysis_spider.py:105-124 | the same for state, county, for_sale and sold_in_month; on success, a record of exactly the five keys, with county and state carried over, the two earlier counts turned into 0 exactly when empty, and the three-month count as extracted |
| Spider.Handle | redfin_sales/spiders/redfin_sales_analysis_spider.py:48-124 | each callback's request names a callback one step further along, and only the last yields a record |
| Spider.Process | redfin_sales/spiders/redfin_sales_analysis_spider.py:48-124 | a chain fetches at most as many urls as callbacks remain, starting with its own url |
| Spider.HandleCarries | redfin_sales/spiders/redfin_sales_analysis_spider.py:64-110 | every callback finds in `meta` the keys the previous one stored there, so a request carrying its keys fails only without a summary, and the request it yields carries its own |
| Spider.NoKeyError | redfin_sales/spiders/redfin_sales_analysis_spider.py:52-124 | a chain started from a request carrying its keys is never dropped by a `KeyError` |
| Spider.ChainUrls | redfin_sales/spiders/redfin_sales_analysis_spider.py:49-94 | the three urls of a chain are distinct, so none repeats an earlier one, and all extend the url of the page for sale |
| Spider.ForSaleStage | redfin_sales/spiders/redfin_sales_analysis_spider.py:55-81 | from a first request, the next request and its `meta` in full |
| Spider.SoldInMonthStage | redfin_sales/spiders/redfin_sales_analysis_spider.py:83-103 | from a one-month request, the next request and its `meta` in full |
| Spider.SoldInThreeMonthsStage | redfin_sales/spiders/redfin_sales_analysis_spider.py:105-124 | from a three-month request, the record in full |
| Spider.ChainOfCounty | redfin_sales/spiders/redfin_sales_analysis_spider.py:48-124 | a county's chain fetches a prefix (one to three urls) of its three urls in order; it is never dropped for a missing key, and when dropped its last url was not served; it emits exactly when all three pages were served; it then emits the county and state it started with and the three counts, the first two 0 when empty |
| Spider.ResolvedRoute | redfin_sales/spiders/redfin_sales_analysis_spider.py:38-46 | a resolved route is the url of an autocomplete row whose name is the stripped normalised county |
| Spider.RequestsFor | redfin_sales/spiders/redfin_sales_analysis_spider.py:35-53 | a row gives no request exactly when it has no route, and otherwise one first request for a normalised county in the row's state |
| Spider.InitialRequests | redfin_sales/spiders/redfin_sales_analysis_spider.py:35-53 | `start_requests` yields at most one request per input row |
| Spider.StartRow | redfin_sales/spiders/redfin_sales_analysis_spider.py:36-53 | one input row gives the requests `RequestsFor` names: none for a county without a route, otherwise the first request for the normalised county |
| Spider.StartRequests | redfin_sales/spiders/redfin_sales_analysis_spider.py:32-53 | the loop yields exactly `InitialRequests`, the rows' requests in input order |
| Spider.InitialRequestsStep | redfin_sales/spiders/redfin_sales_analysis_spider.py:35 | one more input row appends that row's requests |
| Spider.InitialRequestsShape | redfin_sales/spiders/redfin_sales_analysis_spider.py:38-53 | at most one request per row, each a first request with a normalised county holding "County" |
| Spider.Records | redfin_sales/spiders/redfin_sales_analysis_spider.py:48-124 | the chains of a list of requests emit at most one record per request |
| Spider.Crawl | redfin_sales/spiders/redfin_sales_analysis_spider.py:32-124 | a crawl emits at most one record per input row |
| Spider.RecordsShape | redfin_sales/spiders/redfin_sales_analysis_spider.py:116-124 | first requests give at most one record each, each with exactly the five keys and a county holding "County" |
| Spider.EmittedShape | redfin_sales/spiders/redfin_sales_analysis_spider.py:116-124 | a record from a first request has exactly the five keys and the county the request carried |
| Spider.CrawlShape | redfin_sales/spiders/redfin_sales_analysis_spider.py:32-124 | a crawl emits at most one record per input row, each with exactly the five keys and a county holding "County" |
| Spider.CrawlSkipsUnresolved | redfin_sales/spiders/redfin_sales_analysis_spider.py:45-46 | a row without a route adds no request and no record |
| Spider.CountOfHomes | redfin_sales/spiders/redfin_sales_analysis_spider.py:212-218 | a summary "d of d homes" counts d |
| Spider.ExampleOneCounty | redfin_sales/spiders/redfin_sales_analysis_spider.py:32-124 | a county that resolves and is served "d of d homes" three times emits the one record with its normalised county, its state and the three digits |

## Left out

- Network I/O, Scrapy's scheduler and its concurrency. Pages come from the `fetch` parameter, and the crawl runs the counties one after another in input order, while Scrapy may interleave them. A failed fetch (or a non-2xx status) drops the county.
- The geocoder (`_find_address_bounds`) and the autocomplete request, its query parameters, `urlencode` and JSON decoding. The `autocomplete` parameter gives the rows directly.
- Exceptions raised inside `start_requests`: a geocoder miss (`location.latitude` on `None`, line 149), a failing `requests.get` (193), a body `json.loads` rejects (196), an empty `sections` list (198) or a row without `url` (206). In the code any of these ends the start-requests generator, so no later row is requested. `autocomplete` cannot fail in the model, and `Spider.StartRequests` and `Spider.InitialRequests` go on to every later row.
- Scrapy's duplicate-request filter: a request for a url already seen is dropped. Two input rows that resolve to the same route give one record in Scrapy but two in `Spider.Crawl`, which does not filter duplicates. Within one chain the three urls are distinct (`Spider.ChainUrls`), so the filter never cuts a single county's chain.
- Autocomplete rows are assumed to have both `name` and `url`. `row.get` returning `None` is not modelled.
- The XPath lookup of the summary element: it is the `Option<string>` a page gives.
- `Extractor.RemoveTags`: w3lib's `remove_tags` uses a regular expression over a richer tag grammar. The model drops every `<` through the next `>` and keeps a `<` with no `>` after it.
- `Strings.IsDigit`: Python's `str.isdigit` also accepts non-ASCII digits; the model accepts only `0`–`9`.
- Reading the input CSV with pandas, the timestamped feed name, the request headers, `print`, and the project settings (redfin_sales/settings.py).
