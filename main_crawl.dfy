/** The earlier copy of the crawl engine in src/main.rs: the same frontier
    and link graph, a crawler that starts empty, no batch path, and a link
    extractor written as a loop that is handed the parsed page URL. */
module MainCrawl {
  import opened Urls
  import Crawl

  /** `extract_hrefs_from(base_url, body)`, the loop form: it only ever
      pushes, at most once per anchor, and yields exactly the links of the
      iterator chain in src/crawler.rs. */
  method ExtractHrefsFrom(lib: UrlLib, baseUrl: Url, doc: Crawl.Document) returns (links: seq<string>)
    ensures |links| <= |doc|
    ensures links == Crawl.ExtractHrefs(lib, baseUrl, doc)
  {
    links := [];
    for i := 0 to |doc|
      invariant links == Crawl.ExtractHrefs(lib, baseUrl, doc[..i])
    {
      assert doc[..i + 1] == doc[..i] + [doc[i]];
      Crawl.ExtractHrefsAppend(lib, baseUrl, doc[..i], [doc[i]]);
      Crawl.ExtractHrefsSingle(lib, baseUrl, doc[i]);
      if doc[i].Some? {
        var href := doc[i].value;
        var parsed := lib.parse(href);
        if parsed.Some? {
          var hrefUrl := parsed.value.(fragment := None);
          if hrefUrl.host.Some? {
            links := links + [ToString(hrefUrl)];
          }
        } else {
          var joined := lib.join(baseUrl, href);
          if joined.Some? {
            var hrefUrl := joined.value.(fragment := None);
            if hrefUrl.host.Some? {
              links := links + [ToString(hrefUrl)];
            }
          }
        }
      }
    }
    assert doc[..|doc|] == doc;
  }

  /** `explore_url(url)` when fetching `url` gives `fetched`; the links are
      extracted against the parsed URL itself. */
  function AfterExploreUrl(lib: UrlLib, s: Crawl.State, url: string, fetched: Option<Crawl.Document>): (r: Crawl.Step)
    ensures r.status == Crawl.Err(Crawl.UrlParseError) <==> lib.parse(url).None?
    ensures r.status == Crawl.Err(Crawl.RequestError) <==> lib.parse(url).Some? && fetched.None?
    ensures r.status.Err? ==> r.next == s
    ensures r.status.Ok? ==>
      && |s.queue| <= |r.next.queue|
      && r.next.queue[..|s.queue|] == s.queue
      && r.next.graph.Keys == s.graph.Keys + {url}
      && r.next.graph[url] == r.next.queue[|s.queue|..]
      && (forall u | u in s.graph && u != url :: r.next.graph[u] == s.graph[u])
  {
    var parsed := lib.parse(url);
    if parsed.None? then Crawl.Step(s, Crawl.Err(Crawl.UrlParseError))
    else if fetched.None? then Crawl.Step(s, Crawl.Err(Crawl.RequestError))
    else
      var links := Crawl.ExtractHrefs(lib, parsed.value, fetched.value);
      Crawl.Step(Crawl.State(s.queue + links, s.graph[url := links]), Crawl.Ok)
  }

  /** `explore_queue(ignore_already_crawled)` when fetching the head gives
      `fetched`. */
  function AfterExploreQueue(lib: UrlLib, s: Crawl.State, ignoreAlreadyCrawled: bool, fetched: Option<Crawl.Document>): (r: Crawl.Step)
    ensures r.status == Crawl.Err(Crawl.EmptyQueue) <==> s.queue == []
    ensures s.queue == [] ==> r.next == s
    ensures s.queue != [] && r.status.Err? ==> r.next == Crawl.State(s.queue[1..], s.graph)
    ensures s.queue != [] && ignoreAlreadyCrawled && s.queue[0] in s.graph ==>
      r == Crawl.Step(Crawl.State(s.queue[1..], s.graph), Crawl.Ok)
    ensures s.queue != [] && (s.queue[0] !in s.graph || !ignoreAlreadyCrawled) ==>
      r == AfterExploreUrl(lib, Crawl.State(s.queue[1..], s.graph), s.queue[0], fetched)
  {
    if s.queue == [] then Crawl.Step(s, Crawl.Err(Crawl.EmptyQueue))
    else
      var url := s.queue[0];
      var popped := Crawl.State(s.queue[1..], s.graph);
      if url !in s.graph || !ignoreAlreadyCrawled then AfterExploreUrl(lib, popped, url, fetched)
      else Crawl.Step(popped, Crawl.Ok)
  }

  /** With a URL library whose serialization round-trips, this copy behaves
      exactly like src/crawler.rs, which re-parses the serialized page URL
      before extracting. */
  lemma AgreesWithCrawlerRs(lib: UrlLib, s: Crawl.State, url: string, ignoreAlreadyCrawled: bool, fetched: Option<Crawl.Document>)
    requires Lawful(lib)
    ensures AfterExploreUrl(lib, s, url, fetched) == Crawl.AfterExploreUrl(lib, s, url, fetched)
    ensures AfterExploreQueue(lib, s, ignoreAlreadyCrawled, fetched)
      == Crawl.AfterExploreQueue(lib, s, ignoreAlreadyCrawled, fetched)
  {
    assert ParseReparses(lib, url);
    if s.queue != [] {
      assert ParseReparses(lib, s.queue[0]);
    }
  }

  /** `test_extract_urls`, with the url crate's answers on its inputs. */
  method TestExtractUrls(lib: UrlLib) returns (links: seq<string>)
    requires lib.parse("https://www.example.com/examples/") == Some(Crawl.TestPage)
    requires Crawl.AnswersLinksTest(lib)
    ensures links == ["https://www.example.com/", "https://www.trailing-slash.com/", "https://www.example2.com/",
                      "https://www.example.com/relative", "https://www.example.com/other_rel"]
  {
    var baseUrl := lib.parse("https://www.example.com/examples/");
    links := ExtractHrefsFrom(lib, baseUrl.value, Crawl.TestLinksDoc);
    Crawl.ExtractTestLinks(lib);
  }

  /** `test_extract_urls_ignores`: the pure fragment is kept as the page
      itself, the `mailto:` link is dropped. */
  method TestExtractUrlsIgnores(lib: UrlLib) returns (links: seq<string>)
    requires lib.parse("https://www.example.com/examples/") == Some(Crawl.TestPage)
    requires Crawl.AnswersIgnoresTest(lib)
    ensures links == ["https://www.example.com/examples/"]
  {
    var baseUrl := lib.parse("https://www.example.com/examples/");
    links := ExtractHrefsFrom(lib, baseUrl.value, Crawl.TestIgnoresDoc);
    Crawl.ExtractTestIgnores(lib);
  }

  class Crawler {
    var queue: seq<string>
    var graph: map<string, seq<string>>

    function Snapshot(): Crawl.State
      reads this
    {
      Crawl.State(queue, graph)
    }

    /** `Crawler::new()`: nothing queued, nothing visited. */
    constructor ()
      ensures queue == [] && graph == map[]
    {
      queue := [];
      graph := map[];
    }

    method ExploreUrl(lib: UrlLib, url: string, fetched: Option<Crawl.Document>) returns (status: Crawl.Status)
      modifies this
      ensures Crawl.Step(Snapshot(), status) == AfterExploreUrl(lib, old(Snapshot()), url, fetched)
    {
      var parsed := lib.parse(url);
      if parsed.None? {
        return Crawl.Err(Crawl.UrlParseError);
      }
      if fetched.None? {
        return Crawl.Err(Crawl.RequestError);
      }
      var links := ExtractHrefsFrom(lib, parsed.value, fetched.value);
      queue := queue + links;
      graph := graph[url := links];
      status := Crawl.Ok;
    }

    method ExploreQueue(lib: UrlLib, ignoreAlreadyCrawled: bool, fetched: Option<Crawl.Document>) returns (status: Crawl.Status)
      modifies this
      ensures Crawl.Step(Snapshot(), status) == AfterExploreQueue(lib, old(Snapshot()), ignoreAlreadyCrawled, fetched)
    {
      if queue == [] {
        return Crawl.Err(Crawl.EmptyQueue);
      }
      var url := queue[0];
      queue := queue[1..];
      if url !in graph || !ignoreAlreadyCrawled {
        status := ExploreUrl(lib, url, fetched);
        if status.Err? {
          return;
        }
      }
      status := Crawl.Ok;
    }
  }
}
