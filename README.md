# rusty-crawler crawl engine in Dafny

This project models the crawl engine of rusty-crawler, a small web crawler.
The crawler keeps a frontier queue of URL strings and a link graph. The graph
maps each visited URL to the links found on that page. One step pops the head
of the frontier, fetches the page, extracts the `href` of every `<a>` element,
resolves it to an absolute URL without a fragment, appends the results to the
frontier and records them under the page's URL. A batch step drains `n` URLs,
fetches them together and applies every successful response.

There are three modules:

- `Urls` (`urls.dfy`) stands for the `url` crate. `Url` is a record with a
  scheme, an optional host, the rest of the URL and an optional fragment.
  `ToString` is its serialization. `UrlLib` carries `Url::parse` and
  `Url::join` as two function values. The extractor's results hold for any
  parser and resolver. The operations of `src/crawler.rs` and the round-trip
  lemmas also require `Lawful(lib)`. It states the one fact they rely on: a
  URL produced by `parse` serializes to a string that parses back to it, with
  or without its fragment, and so does a URL produced by `join` once its
  fragment is removed.
- `Crawl` (`crawl.dfy`) models `src/crawler.rs`:
  - the extractor `ExtractHrefs`, with the `filter_map` closure as `NormalizeHref`;
  - the effect of each operation on the state (`State`: queue and graph) as a
    function: `AfterExploreUrl`, `AfterExploreQueue` and `AfterExploreQueueMulti`;
  - lemmas about those functions and about any sequence of calls (`Run`);
  - the `Crawler` class. It keeps `queue` and `graph` as fields and updates
    them in place. `ExploreUrl`, `ExploreQueue` and `ExploreQueueMulti` are
    each proved equal to the function that specifies them. No function
    specifies `AddToQueue`; its `ensures` gives the new queue and graph
    directly.
- `MainCrawl` (`main_crawl.dfy`) models the earlier copy in `src/main.rs`. That
  copy starts with an empty crawler and has no batch path. Its extractor is a
  `for` loop that pushes onto a vector, and it is proved to return exactly
  what the iterator chain of `src/crawler.rs` returns.

A fetch is an input. A single visit is given `Some(document)` or `None` (the
request failed). The batch visit is given one optional `Response` per drained
URL: the final URL after redirects and the document. A document is the
sequence of `href` attributes of its `<a>` elements, in document order.

Every link stored in the graph is an output of `extract_hrefs_from`, so it
parses to a URL with a host and without a fragment (`Crawl.RunCanonical`).
Graph keys and queue entries are not normalized: `explore_url` records a page
under the `url` string it was given (src/crawler.rs:45), and the URLs passed
to `new` and `add_to_queue` are queued exactly as given.

Three behaviours of the code are worth stating plainly:

- The batch step always returns `Ok(())`. With `n == 0` on an empty queue it
  changes nothing.
- A pure-fragment link such as `#item1` resolves to the page's own URL and is
  kept, as `test_extract_urls_ignores` asserts (src/crawler.rs:165-167).
  `Crawl.ExtractTestIgnores` proves that output. The tests carry a TODO
  comment about ignoring `mailto:` and `#` links (src/crawler.rs:131-132);
  only the `mailto:` one is dropped by the code.
- `future::join_all` returns the results in the order the URLs were drained,
  and the loop applies them in that order. So does the model.

## Model

| member | source | states |
|---|---|---|
| Crawl.NormalizeHref | src/crawler.rs:103-111 | A normalized link, when there is one, has a host and no fragment |
| Crawl.AnchorLinks | src/crawler.rs:102-112 | One anchor contributes at most one link |
| Crawl.ExtractHrefs | src/crawler.rs:101-114 | The extractor yields no more links than there are anchors |
| Crawl.ExtractHrefsFrom | src/crawler.rs:96-115 | Extraction needs a page URL that parses (the `expect` panics otherwise) and yields at most one link per anchor |
| Crawl.ExtractHrefsAppend | src/crawler.rs:101-114 | Output is in document order: the links of two anchor lists joined are the two link lists joined |
| Crawl.ExtractHrefsOnePerAnchor | src/crawler.rs:101-114 | When every anchor has an `href` that normalizes, link i is the serialization of anchor i's normalized URL, and there is one link per anchor |
| Crawl.DroppedAnchor | src/crawler.rs:102-113 | An anchor without `href`, or whose `href` does not normalize, contributes nothing, not even a placeholder |
| Crawl.NormalizedReparses | src/crawler.rs:104-111 | A normalized link's serialization parses back to the same URL |
| Crawl.NormalizeIdempotent | src/crawler.rs:104-111 | Normalizing an extracted link again, against any page, gives the same URL |
| Crawl.AbsoluteTakesPriority | src/crawler.rs:104-111 | An `href` that parses is never joined against the page; one without a host (`mailto:`) is dropped |
| Crawl.ExtractedLinksCanonical | src/crawler.rs:96-115 | Every extracted link parses to a URL that has a host and no fragment |
| Crawl.ExtractTestLinks | src/crawler.rs:143-151 | `test_extract_urls`: the five anchors yield the five expected links, in order |
| Crawl.ExtractTestIgnores | src/crawler.rs:165-167 | `test_extract_urls_ignores`: `#item1` yields the page URL and `mailto:` yields nothing |
| Crawl.AfterExploreUrl | src/crawler.rs:36-50 | `UrlParseError` exactly when the URL does not parse; `RequestError` exactly when it parses and the fetch fails; on error nothing changes; on success the old queue is a prefix of the new one, the graph gains exactly `url`, `url` maps to the appended links, other entries are untouched |
| Crawl.ExploreUrlSuccess | src/crawler.rs:41-46 | On success the queue becomes `queue + links` and the graph `graph[url := links]`, with `links` extracted from the page, and the page URL's serialization parses back to it |
| Crawl.RevisitOverwrites | src/crawler.rs:44-45 | Visiting a page twice keeps the second visit's links in the graph (overwrite, not merge) and queues both lists |
| Crawl.AfterExploreQueue | src/crawler.rs:52-61 | `EmptyQueue` exactly when the queue is empty, with nothing changed; otherwise the head is removed even when its visit fails; a visited head with `ignore_already_crawled` set is dropped with `Ok` and no other change; any other head is visited: `UrlParseError` exactly when it does not parse, `RequestError` exactly when it parses and the fetch fails, and on `Ok` the head becomes a key holding the appended links with every other entry untouched; the graph never loses a key |
| Crawl.PopThenFailedVisit | src/crawler.rs:52-61 | From `[a]`, a step that finds `[b, c]` gives queue `[b, c]` and graph `{a: [b, c]}`; a next step whose fetch fails gives queue `[c]`, the same graph and `RequestError` |
| Crawl.ResponseLinks | src/crawler.rs:75-77 | A failed outcome contributes no links; a successful one at most one per anchor of its body |
| Crawl.ApplyResponse | src/crawler.rs:74-81 | One loop iteration: a failed outcome changes nothing; a successful one keeps the old queue as a prefix, adds its final URL as a key holding the appended links, and leaves every other entry untouched |
| Crawl.ApplyResponses | src/crawler.rs:73-82 | The `for response in responses` loop only appends to the queue and never removes a visited page |
| Crawl.ApplyResponsesQueue | src/crawler.rs:73-82 | The response loop appends each successful response's links, in response order; failures add nothing |
| Crawl.ApplyResponseKeys | src/crawler.rs:74-80 | One successful response adds its final URL to the graph's keys; a failed one adds nothing |
| Crawl.ApplyResponsesKeys | src/crawler.rs:73-82 | After the loop the graph's keys are the old keys plus the final URLs of the successful responses, and nothing else |
| Crawl.ApplyResponsesGrows | src/crawler.rs:73-82 | The response loop never shrinks the graph |
| Crawl.ApplyResponsesEntries | src/crawler.rs:73-82 | Each final URL holds the links of its last successful response; every other entry is untouched |
| Crawl.AfterExploreQueueMulti | src/crawler.rs:63-85 | The batch step needs `n` within the queue (`drain` panics otherwise) and always returns `Ok` |
| Crawl.ExploreQueueMultiEffect | src/crawler.rs:63-85 | The batch step removes exactly the first `n` URLs, then appends every successful response's links; the graph gains exactly those responses' final URLs, each holding its last response's links; other entries are kept and the graph never shrinks |
| Crawl.Perform | src/crawler.rs:36-93 | No single call on the crawler removes a visited page or lowers the explored count |
| Crawl.RunNeverForgets | src/crawler.rs:36-93 | Across any sequence of calls, visited pages stay visited and the explored count never decreases |
| Crawl.ExploreUrlCanonical | src/crawler.rs:41-45 | A visit of a graph whose stored links all parse to canonical URLs keeps that so: it stores only extracted links |
| Crawl.ApplyResponsesCanonical | src/crawler.rs:73-82 | The response loop keeps every stored link parsing to a canonical URL |
| Crawl.PerformCanonical | src/crawler.rs:36-93 | No single call stores a link that does not parse to a URL with a host and without a fragment |
| Crawl.RunCanonical | src/crawler.rs:36-93 | Across any sequence of calls, every link in the graph keeps parsing to a URL with a host and without a fragment |
| Crawl.Crawler.constructor | src/crawler.rs:25-34 | `new(url)` gives queue `[url]`, an empty graph and no explored nodes |
| Crawl.Crawler.ExploredNodes | src/crawler.rs:91-93 | The number of graph keys; zero exactly when the graph is empty |
| Crawl.Crawler.ExploreUrl | src/crawler.rs:36-50 | Updates the fields in place to what `AfterExploreUrl` specifies and returns its status; the explored count does not decrease |
| Crawl.Crawler.ExploreQueue | src/crawler.rs:52-61 | Updates the fields in place to what `AfterExploreQueue` specifies and returns its status; the explored count does not decrease |
| Crawl.Crawler.ExploreQueueMulti | src/crawler.rs:63-85 | Its loop over the responses leaves the fields as `AfterExploreQueueMulti` specifies; the explored count does not decrease |
| Crawl.Crawler.AddToQueue | src/crawler.rs:87-89 | Appends `url` at the tail only; the graph is unchanged |
| MainCrawl.ExtractHrefsFrom | src/main.rs:65-87 | The push loop yields at most one link per anchor, and exactly the links of the iterator chain in `src/crawler.rs` for every page and document |
| MainCrawl.AfterExploreUrl | src/main.rs:37-51 | Same error cases as in `src/crawler.rs`; on error nothing changes; on success the links are appended to the queue tail and recorded under `url`, other entries untouched |
| MainCrawl.AfterExploreQueue | src/main.rs:53-62 | `EmptyQueue` exactly when the queue is empty, with nothing changed; otherwise the head is popped and visited only when it is not a key or `ignore_already_crawled` is false |
| MainCrawl.AgreesWithCrawlerRs | src/main.rs:37-62 | When serialization round-trips, this copy's `explore_url` and `explore_queue` have the same effect as those of `src/crawler.rs` |
| MainCrawl.TestExtractUrls | src/main.rs:160-168 | `test_extract_urls` of this copy: the five expected links, in order |
| MainCrawl.TestExtractUrlsIgnores | src/main.rs:182-184 | `test_extract_urls_ignores` of this copy: only the page URL |
| MainCrawl.Crawler.constructor | src/main.rs:29-35 | `new()` gives an empty queue and an empty graph |
| MainCrawl.Crawler.ExploreUrl | src/main.rs:37-51 | Updates the fields in place to what `MainCrawl.AfterExploreUrl` specifies and returns its status |
| MainCrawl.Crawler.ExploreQueue | src/main.rs:53-62 | Updates the fields in place to what `MainCrawl.AfterExploreQueue` specifies and returns its status |

## Left out

- HTTP (`make_request`, `reqwest::Client`, `client.get(url).send()`) is not modelled. A fetch is an input outcome, and `None` stands for the `RequestError` path. The panic of `.unwrap()` on a failed `send()` is not modelled.
- `Crawl.Crawler.ExploreQueueMulti`: an outcome `Some` means the body was read. The panic of `content.text().await.unwrap()` is not modelled.
- HTML parsing (`scraper`'s `Html::parse_document` and the `a` selector) is not modelled. A document is the sequence of `href` attributes of its anchors.
- The `url` crate's parser and relative resolution (the basic URL parser of the WHATWG URL Standard) are parameters. The extractor's results hold for any of them; the crawler's operations hold for any that satisfies `Lawful`. Only the test members (`Crawl.ExtractTestLinks`, `Crawl.ExtractTestIgnores`, `MainCrawl.TestExtractUrls`, `MainCrawl.TestExtractUrlsIgnores` and their helper lemmas `Crawl.LinksTestAnchors` and `Crawl.LinksTestResolves`) fix the answers on the tests' inputs, as the crate gives them.
- `Crawl.AfterExploreUrl`, `Crawl.AfterExploreQueue` and the `Crawl.Crawler` visit methods require `Lawful(lib)`. `src/crawler.rs` re-parses the serialized page URL and would panic (`expect`) if the serialization did not parse back. The URL Standard rules that out, and the model assumes it rather than modelling the panic.
- `Crawl.AfterExploreQueueMulti` and `Crawl.Crawler.ExploreQueueMulti` require `n` not to exceed the queue's length, because `drain(0..n)` panics otherwise. They also require one outcome per drained URL and a parsing final URL for each successful response; `extract_hrefs_from` panics otherwise.
- Concurrency in `future::join_all` is not modelled. The outcomes are applied one by one, in drain order, after all fetches have finished.
- Persistence and the driver are not modelled: the serde/JSON load and save, `init_db` with its sqlite table, and the `main` loop with its `expect`s.
- `Crawl.Crawler.ExploredNodes` returns an unbounded `nat` rather than a `usize`. A map cannot hold more than `usize::MAX` entries, so no wrap-around is lost.
