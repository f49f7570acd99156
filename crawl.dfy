/** The crawl engine of src/crawler.rs: the frontier queue, the link graph,
    the single-step and batch visits, and the link extractor.

    Network fetches are inputs: a visit is given the parsed document it would
    receive (`Some`) or the failure (`None`). A document is the `href`
    attribute of each `<a>` element in document order. */
module Crawl {
  import opened Urls

  datatype CrawlerError = RequestError | EmptyQueue | UrlParseError

  /** `Result<()>` of the crawler. */
  datatype Status = Ok | Err(error: CrawlerError)

  /** One entry per `<a>` element, in document order: its `href`, if any. */
  type Document = seq<Option<string>>

  /** A successful response of the batch path: the final URL after
      redirects, serialized, and the parsed body. */
  datatype Response = Response(url: string, body: Document)

  /** The crawler's state: the frontier and the visited pages with the links
      found on each. */
  datatype State = State(queue: seq<string>, graph: map<string, seq<string>>)

  /** The state after an operation and what the operation returned. */
  datatype Step = Step(next: State, status: Status)

  /** Absolute, with a host and without a fragment. */
  predicate Canonical(u: Url)
  {
    u.host.Some? && u.fragment.None?
  }

  // ---------------------------------------------------------------------
  // Link extraction
  // ---------------------------------------------------------------------

  /** The `filter_map` closure of `extract_hrefs_from`: use `href` as an
      absolute URL if it parses, else resolve it against the page; drop the
      fragment; keep the result only if it has a host. */
  function NormalizeHref(lib: UrlLib, base: Url, href: string): (r: Option<Url>)
    ensures r.Some? ==> Canonical(r.value)
  {
    var resolved := if lib.parse(href).Some? then lib.parse(href) else lib.join(base, href);
    if resolved.Some? && resolved.value.host.Some? then Some(resolved.value.(fragment := None)) else None
  }

  /** What one anchor contributes to the output. */
  function AnchorLinks(lib: UrlLib, base: Url, anchor: Option<string>): (r: seq<string>)
    ensures |r| <= 1
  {
    if anchor.None? then []
    else
      var normalized := NormalizeHref(lib, base, anchor.value);
      if normalized.Some? then [ToString(normalized.value)] else []
  }

  /** The iterator chain of `extract_hrefs_from`, given the parsed page URL. */
  function ExtractHrefs(lib: UrlLib, base: Url, doc: Document): (links: seq<string>)
    ensures |links| <= |doc|
    decreases |doc|
  {
    if doc == [] then []
    else AnchorLinks(lib, base, doc[0]) + ExtractHrefs(lib, base, doc[1..])
  }

  /** `extract_hrefs_from(url, body)`: the page URL arrives as a string and is
      parsed again; the `expect` panics when it does not parse. */
  function ExtractHrefsFrom(lib: UrlLib, url: string, doc: Document): (links: seq<string>)
    requires lib.parse(url).Some?
    ensures |links| <= |doc|
  {
    ExtractHrefs(lib, lib.parse(url).value, doc)
  }

  /** Output order is document order: the links of a concatenation of
      anchor lists are the concatenation of their links. */
  lemma {:induction false} ExtractHrefsAppend(lib: UrlLib, base: Url, a: Document, b: Document)
    ensures ExtractHrefs(lib, base, a + b) == ExtractHrefs(lib, base, a) + ExtractHrefs(lib, base, b)
    decreases |a|
  {
    if a == [] {
      assert a + b == b;
    } else {
      assert (a + b)[1..] == a[1..] + b;
      ExtractHrefsAppend(lib, base, a[1..], b);
    }
  }

  /** When every anchor has an `href` that normalizes, the output has one
      link per anchor, in the anchors' order. */
  lemma {:induction false} ExtractHrefsOnePerAnchor(lib: UrlLib, base: Url, doc: Document)
    requires forall i | 0 <= i < |doc| :: doc[i].Some? && NormalizeHref(lib, base, doc[i].value).Some?
    ensures |ExtractHrefs(lib, base, doc)| == |doc|
    ensures forall i | 0 <= i < |doc| ::
      ExtractHrefs(lib, base, doc)[i] == ToString(NormalizeHref(lib, base, doc[i].value).value)
    decreases |doc|
  {
    if doc != [] {
      ExtractHrefsOnePerAnchor(lib, base, doc[1..]);
      var rest := ExtractHrefs(lib, base, doc[1..]);
      assert ExtractHrefs(lib, base, doc) == [ToString(NormalizeHref(lib, base, doc[0].value).value)] + rest;
      forall i | 1 <= i < |doc|
        ensures ExtractHrefs(lib, base, doc)[i] == ToString(NormalizeHref(lib, base, doc[i].value).value)
      {
        assert doc[1..][i - 1] == doc[i];
      }
    }
  }

  /** An anchor that contributes nothing (no `href`, or one that does not
      normalize) can be removed without changing the output. */
  lemma DroppedAnchor(lib: UrlLib, base: Url, a: Document, anchor: Option<string>, b: Document)
    requires anchor.None? || NormalizeHref(lib, base, anchor.value).None?
    ensures ExtractHrefs(lib, base, a + [anchor] + b) == ExtractHrefs(lib, base, a + b)
  {
    ExtractHrefsAppend(lib, base, a + [anchor], b);
    ExtractHrefsAppend(lib, base, a, [anchor]);
    ExtractHrefsAppend(lib, base, a, b);
    assert ExtractHrefs(lib, base, [anchor]) == [];
  }

  /** A normalized URL serializes to a string that parses back to it. */
  lemma NormalizedReparses(lib: UrlLib, base: Url, href: string)
    requires Lawful(lib)
    requires NormalizeHref(lib, base, href).Some?
    ensures lib.parse(ToString(NormalizeHref(lib, base, href).value)) == NormalizeHref(lib, base, href)
  {
    assert ParseReparses(lib, href);
    assert JoinReparses(lib, base, href);
  }

  /** Normalization is idempotent: a normalized link, normalized again
      against any page, is itself. */
  lemma NormalizeIdempotent(lib: UrlLib, base: Url, href: string, otherBase: Url)
    requires Lawful(lib)
    requires NormalizeHref(lib, base, href).Some?
    ensures NormalizeHref(lib, otherBase, ToString(NormalizeHref(lib, base, href).value)) == NormalizeHref(lib, base, href)
  {
    NormalizedReparses(lib, base, href);
  }

  /** An `href` that parses as an absolute URL never consults the page URL,
      and is dropped when it has no host (`mailto:`) even if resolving it
      against the page would give one. */
  lemma AbsoluteTakesPriority(lib: UrlLib, base: Url, otherBase: Url, href: string)
    requires lib.parse(href).Some?
    ensures NormalizeHref(lib, base, href) == NormalizeHref(lib, otherBase, href)
    ensures lib.parse(href).value.host.None? ==> NormalizeHref(lib, base, href).None?
  {
  }

  /** Every extracted link parses back to a URL with a host and without a
      fragment. */
  lemma {:induction false} ExtractedLinksCanonical(lib: UrlLib, base: Url, doc: Document)
    requires Lawful(lib)
    ensures forall k | 0 <= k < |ExtractHrefs(lib, base, doc)| ::
      lib.parse(ExtractHrefs(lib, base, doc)[k]).Some? && Canonical(lib.parse(ExtractHrefs(lib, base, doc)[k]).value)
    decreases |doc|
  {
    if doc != [] {
      ExtractedLinksCanonical(lib, base, doc[1..]);
      var head := AnchorLinks(lib, base, doc[0]);
      if head != [] {
        NormalizedReparses(lib, base, doc[0].value);
      }
      var links := ExtractHrefs(lib, base, doc);
      var rest := ExtractHrefs(lib, base, doc[1..]);
      assert links == head + rest;
      forall k | 0 <= k < |links|
        ensures lib.parse(links[k]).Some? && Canonical(lib.parse(links[k]).value)
      {
        if k >= |head| {
          assert links[k] == rest[k - |head|];
        }
      }
    }
  }

  // ---------------------------------------------------------------------
  // The tests of src/crawler.rs, against the url crate's answers on their inputs
  // ---------------------------------------------------------------------

  const TestPage: Url := Url("https", Some("www.example.com"), "/examples/", None)

  const ExampleRoot: Url := Url("https", Some("www.example.com"), "/", None)
  const TrailingSlash: Url := Url("https", Some("www.trailing-slash.com"), "/", None)
  const Example2: Url := Url("https", Some("www.example2.com"), "/", None)
  const Relative: Url := Url("https", Some("www.example.com"), "/relative", None)
  const OtherRel: Url := Url("https", Some("www.example.com"), "/other_rel", None)

  const TestLinksDoc: Document := [Some("https://www.example.com"), Some("https://www.trailing-slash.com/"),
    Some("https://www.example2.com"), Some("/relative"), Some("../other_rel")]

  const TestIgnoresDoc: Document := [Some("#item1"), Some("mailto:example@gmail.com")]

  /** What `Url::parse` and `join` answer on the inputs of `test_extract_urls`. */
  ghost predicate AnswersLinksTest(lib: UrlLib)
  {
    && lib.parse("https://www.example.com") == Some(ExampleRoot)
    && lib.parse("https://www.trailing-slash.com/") == Some(TrailingSlash)
    && lib.parse("https://www.example2.com") == Some(Example2)
    && lib.parse("/relative") == None
    && lib.join(TestPage, "/relative") == Some(Relative)
    && lib.parse("../other_rel") == None
    && lib.join(TestPage, "../other_rel") == Some(OtherRel)
  }

  /** What `Url::parse` and `join` answer on the inputs of
      `test_extract_urls_ignores`: a pure fragment resolves to the page
      itself, `mailto:` parses and has no host. */
  ghost predicate AnswersIgnoresTest(lib: UrlLib)
  {
    && lib.parse("#item1") == None
    && lib.join(TestPage, "#item1") == Some(TestPage.(fragment := Some("item1")))
    && lib.parse("mailto:example@gmail.com") == Some(Url("mailto", None, "example@gmail.com", None))
  }

  /** One anchor contributes what `AnchorLinks` says. */
  lemma ExtractHrefsSingle(lib: UrlLib, base: Url, anchor: Option<string>)
    ensures ExtractHrefs(lib, base, [anchor]) == AnchorLinks(lib, base, anchor)
  {
    assert [anchor][1..] == [];
  }

  /** An anchor whose `href` normalizes to `u` contributes `u`'s serialization. */
  lemma AnchorLink(lib: UrlLib, base: Url, href: string, u: Url)
    requires NormalizeHref(lib, base, href) == Some(u)
    ensures ExtractHrefs(lib, base, [Some(href)]) == [ToString(u)]
  {
    ExtractHrefsSingle(lib, base, Some(href));
  }

  // The serializations the tests compare against, one per lemma: each is a
  // character-by-character comparison.

  lemma SerializeExampleRoot()
    ensures ToString(ExampleRoot) == "https://www.example.com/"
  {
  }

  lemma SerializeTrailingSlash()
    ensures ToString(TrailingSlash) == "https://www.trailing-slash.com/"
  {
    assert ToString(TrailingSlash)
      == "https" + ":" + "//" + "www.trailing-slash.com" + "/";
  }

  lemma SerializeExample2()
    ensures ToString(Example2) == "https://www.example2.com/"
  {
  }

  lemma SerializeRelative()
    ensures ToString(Relative) == "https://www.example.com/relative"
  {
  }

  lemma SerializeOtherRel()
    ensures ToString(OtherRel) == "https://www.example.com/other_rel"
  {
  }

  lemma SerializeTestPage()
    ensures ToString(TestPage) == "https://www.example.com/examples/"
  {
  }

  /** How each anchor of `test_extract_urls` normalizes. */
  lemma LinksTestAnchors(lib: UrlLib)
    requires AnswersLinksTest(lib)
    ensures NormalizeHref(lib, TestPage, "https://www.example.com") == Some(ExampleRoot)
    ensures NormalizeHref(lib, TestPage, "https://www.trailing-slash.com/") == Some(TrailingSlash)
    ensures NormalizeHref(lib, TestPage, "https://www.example2.com") == Some(Example2)
    ensures NormalizeHref(lib, TestPage, "/relative") == Some(Relative)
    ensures NormalizeHref(lib, TestPage, "../other_rel") == Some(OtherRel)
  {
  }

  /** The anchors of `test_extract_urls` contribute one link each, in order. */
  lemma LinksTestResolves(lib: UrlLib)
    requires AnswersLinksTest(lib)
    ensures ExtractHrefs(lib, TestPage, TestLinksDoc)
      == [ToString(ExampleRoot), ToString(TrailingSlash), ToString(Example2), ToString(Relative), ToString(OtherRel)]
  {
    LinksTestAnchors(lib);
    var doc := TestLinksDoc;
    var urls := [ExampleRoot, TrailingSlash, Example2, Relative, OtherRel];
    forall i | 0 <= i < |doc|
      ensures doc[i].Some? && NormalizeHref(lib, TestPage, doc[i].value) == Some(urls[i])
    {
    }
    ExtractHrefsOnePerAnchor(lib, TestPage, doc);
  }

  lemma ExtractTestLinks(lib: UrlLib)
    requires lib.parse("https://www.example.com/examples/") == Some(TestPage)
    requires AnswersLinksTest(lib)
    ensures ExtractHrefsFrom(lib, "https://www.example.com/examples/", TestLinksDoc)
      == ["https://www.example.com/", "https://www.trailing-slash.com/", "https://www.example2.com/",
          "https://www.example.com/relative", "https://www.example.com/other_rel"]
  {
    LinksTestResolves(lib);
    SerializeExampleRoot();
    SerializeTrailingSlash();
    SerializeExample2();
    SerializeRelative();
    SerializeOtherRel();
  }

  lemma ExtractTestIgnores(lib: UrlLib)
    requires lib.parse("https://www.example.com/examples/") == Some(TestPage)
    requires AnswersIgnoresTest(lib)
    ensures ExtractHrefsFrom(lib, "https://www.example.com/examples/", TestIgnoresDoc) == ["https://www.example.com/examples/"]
  {
    var fragmentOnly, mailto := "#item1", "mailto:example@gmail.com";
    AnchorLink(lib, TestPage, fragmentOnly, TestPage);
    ExtractHrefsSingle(lib, TestPage, Some(mailto));
    assert TestIgnoresDoc == [Some(fragmentOnly)] + [Some(mailto)];
    ExtractHrefsAppend(lib, TestPage, [Some(fragmentOnly)], [Some(mailto)]);
    SerializeTestPage();
  }

  // ---------------------------------------------------------------------
  // The crawler's operations, as functions of the state
  // ---------------------------------------------------------------------

  /** `explore_url(url)` when fetching `url` gives `fetched`. */
  function AfterExploreUrl(lib: UrlLib, s: State, url: string, fetched: Option<Document>): (r: Step)
    requires Lawful(lib)
    ensures r.status == Err(UrlParseError) <==> lib.parse(url).None?
    ensures r.status == Err(RequestError) <==> lib.parse(url).Some? && fetched.None?
    ensures r.status.Err? ==> r.next == s
    ensures r.status.Ok? ==>
      && |s.queue| <= |r.next.queue|
      && r.next.queue[..|s.queue|] == s.queue
      && r.next.graph.Keys == s.graph.Keys + {url}
      && r.next.graph[url] == r.next.queue[|s.queue|..]
      && (forall u | u in s.graph && u != url :: r.next.graph[u] == s.graph[u])
    ensures s.graph.Keys <= r.next.graph.Keys && |s.graph| <= |r.next.graph|
  {
    var parsed := lib.parse(url);
    if parsed.None? then Step(s, Err(UrlParseError))
    else if fetched.None? then Step(s, Err(RequestError))
    else
      assert ParseReparses(lib, url);
      var links := ExtractHrefsFrom(lib, ToString(parsed.value), fetched.value);
      Step(State(s.queue + links, s.graph[url := links]), Ok)
  }

  /** `explore_url` on success appends exactly the extracted links and
      replaces the page's entry with them. */
  lemma ExploreUrlSuccess(lib: UrlLib, s: State, url: string, doc: Document)
    requires Lawful(lib)
    requires lib.parse(url).Some?
    ensures lib.parse(ToString(lib.parse(url).value)) == lib.parse(url)
    ensures var links := ExtractHrefs(lib, lib.parse(url).value, doc);
      AfterExploreUrl(lib, s, url, Some(doc)) == Step(State(s.queue + links, s.graph[url := links]), Ok)
  {
    assert ParseReparses(lib, url);
  }

  /** Visiting a page twice leaves the second visit's links in the graph:
      the entry is overwritten, not merged; the queue gets both lists. */
  lemma RevisitOverwrites(lib: UrlLib, s: State, url: string, first: Document, second: Document)
    requires Lawful(lib)
    requires lib.parse(url).Some?
    ensures var links1 := ExtractHrefs(lib, lib.parse(url).value, first);
      var links2 := ExtractHrefs(lib, lib.parse(url).value, second);
      AfterExploreUrl(lib, AfterExploreUrl(lib, s, url, Some(first)).next, url, Some(second))
        == Step(State(s.queue + links1 + links2, s.graph[url := links2]), Ok)
  {
    var links1 := ExtractHrefs(lib, lib.parse(url).value, first);
    var links2 := ExtractHrefs(lib, lib.parse(url).value, second);
    var once := State(s.queue + links1, s.graph[url := links1]);
    ExploreUrlSuccess(lib, s, url, first);
    ExploreUrlSuccess(lib, once, url, second);
    assert once.graph[url := links2] == s.graph[url := links2];
  }

  /** `explore_queue(ignore_already_crawled)` when fetching the head gives
      `fetched`. */
  function AfterExploreQueue(lib: UrlLib, s: State, ignoreAlreadyCrawled: bool, fetched: Option<Document>): (r: Step)
    requires Lawful(lib)
    ensures r.status == Err(EmptyQueue) <==> s.queue == []
    ensures s.queue == [] ==> r.next == s
    ensures s.queue != [] ==> |s.queue| - 1 <= |r.next.queue| && r.next.queue[..|s.queue| - 1] == s.queue[1..]
    ensures s.queue != [] && r.status.Err? ==> r.next == State(s.queue[1..], s.graph)
    ensures s.queue != [] && ignoreAlreadyCrawled && s.queue[0] in s.graph ==>
      r == Step(State(s.queue[1..], s.graph), Ok)
    ensures s.queue != [] && (s.queue[0] !in s.graph || !ignoreAlreadyCrawled) ==>
      && (r.status == Err(UrlParseError) <==> lib.parse(s.queue[0]).None?)
      && (r.status == Err(RequestError) <==> lib.parse(s.queue[0]).Some? && fetched.None?)
      && (r.status.Ok? ==>
            && r.next.graph.Keys == s.graph.Keys + {s.queue[0]}
            && r.next.graph[s.queue[0]] == r.next.queue[|s.queue| - 1..]
            && (forall u | u in s.graph && u != s.queue[0] :: r.next.graph[u] == s.graph[u]))
    ensures s.queue != [] && (s.queue[0] !in s.graph || !ignoreAlreadyCrawled) ==>
      r == AfterExploreUrl(lib, State(s.queue[1..], s.graph), s.queue[0], fetched)
    ensures s.graph.Keys <= r.next.graph.Keys && |s.graph| <= |r.next.graph|
  {
    if s.queue == [] then Step(s, Err(EmptyQueue))
    else
      var url := s.queue[0];
      var popped := State(s.queue[1..], s.graph);
      if url !in s.graph || !ignoreAlreadyCrawled then AfterExploreUrl(lib, popped, url, fetched)
      else Step(popped, Ok)
  }

  /** A frontier `[a]` whose page links to `[b, c]`: one step records `a`
      and queues its links; a second step whose fetch of `b` fails still
      drops `b` and leaves the graph as it was. */
  lemma PopThenFailedVisit(lib: UrlLib, a: string, b: string, c: string, doc: Document)
    requires Lawful(lib)
    requires lib.parse(a).Some? && lib.parse(b).Some? && a != b
    requires ExtractHrefs(lib, lib.parse(a).value, doc) == [b, c]
    ensures var first := AfterExploreQueue(lib, State([a], map[]), true, Some(doc));
      && first == Step(State([b, c], map[a := [b, c]]), Ok)
      && AfterExploreQueue(lib, first.next, true, None)
        == Step(State([c], map[a := [b, c]]), Err(RequestError))
  {
    ExploreUrlSuccess(lib, State([], map[]), a, doc);
    assert [a][1..] == [];
    assert [b, c][1..] == [c];
  }

  /** The `for response in responses` loop of `explore_queue_multi` reads
      each response's final URL; the `expect` in `extract_hrefs_from` panics
      if it does not parse. */
  predicate ResponseUrlsParse(lib: UrlLib, outcomes: seq<Option<Response>>)
  {
    forall i | 0 <= i < |outcomes| :: outcomes[i].Some? ==> lib.parse(outcomes[i].value.url).Some?
  }

  /** The links one fetch outcome contributes. */
  function ResponseLinks(lib: UrlLib, outcome: Option<Response>): (links: seq<string>)
    requires outcome.Some? ==> lib.parse(outcome.value.url).Some?
    ensures outcome.None? ==> links == []
    ensures outcome.Some? ==> |links| <= |outcome.value.body|
  {
    if outcome.None? then [] else ExtractHrefsFrom(lib, outcome.value.url, outcome.value.body)
  }

  /** One iteration of the batch loop: a failed outcome changes nothing; a
      successful one appends its links and records them under its final
      URL, leaving every other entry as it was. */
  function ApplyResponse(lib: UrlLib, s: State, outcome: Option<Response>): (r: State)
    requires outcome.Some? ==> lib.parse(outcome.value.url).Some?
    ensures outcome.None? ==> r == s
    ensures outcome.Some? ==>
      && |s.queue| <= |r.queue|
      && r.queue[..|s.queue|] == s.queue
      && r.graph.Keys == s.graph.Keys + {outcome.value.url}
      && r.graph[outcome.value.url] == r.queue[|s.queue|..]
      && (forall u | u in s.graph && u != outcome.value.url :: r.graph[u] == s.graph[u])
  {
    if outcome.None? then s
    else
      var links := ResponseLinks(lib, outcome);
      State(s.queue + links, s.graph[outcome.value.url := links])
  }

  /** The batch loop over all outcomes, in order: it only ever appends to
      the queue and never removes a visited page. */
  function ApplyResponses(lib: UrlLib, s: State, outcomes: seq<Option<Response>>): (r: State)
    requires ResponseUrlsParse(lib, outcomes)
    ensures |s.queue| <= |r.queue| && r.queue[..|s.queue|] == s.queue
    ensures s.graph.Keys <= r.graph.Keys
    decreases |outcomes|
  {
    if outcomes == [] then s
    else
      var last := |outcomes| - 1;
      ApplyResponse(lib, ApplyResponses(lib, s, outcomes[..last]), outcomes[last])
  }

  /** All links the successful outcomes contribute, in order. */
  function Discovered(lib: UrlLib, outcomes: seq<Option<Response>>): seq<string>
    requires ResponseUrlsParse(lib, outcomes)
    decreases |outcomes|
  {
    if outcomes == [] then []
    else
      var last := |outcomes| - 1;
      Discovered(lib, outcomes[..last]) + ResponseLinks(lib, outcomes[last])
  }

  /** The final URLs of the successful outcomes. */
  function ResponseUrls(outcomes: seq<Option<Response>>): set<string>
    decreases |outcomes|
  {
    if outcomes == [] then {}
    else
      var last := |outcomes| - 1;
      ResponseUrls(outcomes[..last]) + (if outcomes[last].Some? then {outcomes[last].value.url} else {})
  }

  /** The links of the last successful outcome whose final URL is `u`. */
  function LastLinks(lib: UrlLib, outcomes: seq<Option<Response>>, u: string): seq<string>
    requires ResponseUrlsParse(lib, outcomes)
    requires u in ResponseUrls(outcomes)
    decreases |outcomes|
  {
    var last := |outcomes| - 1;
    if outcomes[last].Some? && outcomes[last].value.url == u then ResponseLinks(lib, outcomes[last])
    else LastLinks(lib, outcomes[..last], u)
  }

  /** The batch loop appends every successful outcome's links, in order;
      failed outcomes contribute nothing. */
  lemma {:induction false} ApplyResponsesQueue(lib: UrlLib, s: State, outcomes: seq<Option<Response>>)
    requires ResponseUrlsParse(lib, outcomes)
    ensures ApplyResponses(lib, s, outcomes).queue == s.queue + Discovered(lib, outcomes)
    decreases |outcomes|
  {
    if outcomes != [] {
      var last := |outcomes| - 1;
      ApplyResponsesQueue(lib, s, outcomes[..last]);
      assert s.queue + Discovered(lib, outcomes[..last]) + ResponseLinks(lib, outcomes[last])
        == s.queue + Discovered(lib, outcomes);
    }
  }

  lemma ApplyResponseKeys(lib: UrlLib, s: State, outcome: Option<Response>)
    requires outcome.Some? ==> lib.parse(outcome.value.url).Some?
    ensures ApplyResponse(lib, s, outcome).graph.Keys
      == s.graph.Keys + (if outcome.Some? then {outcome.value.url} else {})
    ensures |s.graph| <= |ApplyResponse(lib, s, outcome).graph|
  {
  }

  /** The batch loop adds the final URL of every successful outcome to the
      visited pages, and only those. */
  lemma {:induction false} ApplyResponsesKeys(lib: UrlLib, s: State, outcomes: seq<Option<Response>>)
    requires ResponseUrlsParse(lib, outcomes)
    ensures forall u :: u in ApplyResponses(lib, s, outcomes).graph <==> u in s.graph || u in ResponseUrls(outcomes)
    decreases |outcomes|
  {
    if outcomes != [] {
      var last := |outcomes| - 1;
      ApplyResponsesKeys(lib, s, outcomes[..last]);
    }
  }

  /** The batch loop never shrinks the graph. */
  lemma {:induction false} ApplyResponsesGrows(lib: UrlLib, s: State, outcomes: seq<Option<Response>>)
    requires ResponseUrlsParse(lib, outcomes)
    ensures |s.graph| <= |ApplyResponses(lib, s, outcomes).graph|
    decreases |outcomes|
  {
    if outcomes != [] {
      var last := |outcomes| - 1;
      ApplyResponsesGrows(lib, s, outcomes[..last]);
      ApplyResponseKeys(lib, ApplyResponses(lib, s, outcomes[..last]), outcomes[last]);
    }
  }

  /** Each final URL holds the links of its last successful outcome
      (overwrite, not merge); every other entry is untouched. */
  lemma {:induction false} ApplyResponsesEntries(lib: UrlLib, s: State, outcomes: seq<Option<Response>>)
    requires ResponseUrlsParse(lib, outcomes)
    ensures forall u | u in ResponseUrls(outcomes) ::
      u in ApplyResponses(lib, s, outcomes).graph && ApplyResponses(lib, s, outcomes).graph[u] == LastLinks(lib, outcomes, u)
    ensures forall u | u in s.graph && u !in ResponseUrls(outcomes) ::
      u in ApplyResponses(lib, s, outcomes).graph && ApplyResponses(lib, s, outcomes).graph[u] == s.graph[u]
    decreases |outcomes|
  {
    if outcomes != [] {
      var last := |outcomes| - 1;
      ApplyResponsesEntries(lib, s, outcomes[..last]);
    }
  }

  /** `explore_queue_multi(n)` with one fetch outcome per drained URL, in
      drain order (`join_all` keeps it). `drain(0..n)` panics when `n`
      exceeds the queue's length. */
  function AfterExploreQueueMulti(lib: UrlLib, s: State, n: nat, outcomes: seq<Option<Response>>): (r: Step)
    requires n <= |s.queue| && |outcomes| == n
    requires ResponseUrlsParse(lib, outcomes)
    ensures r.status == Ok
  {
    Step(ApplyResponses(lib, State(s.queue[n..], s.graph), outcomes), Ok)
  }

  /** The batch step removes exactly the first `n` URLs, appends what the
      successful fetches found, and records each under its final URL; it
      never loses a visited page. */
  lemma ExploreQueueMultiEffect(lib: UrlLib, s: State, n: nat, outcomes: seq<Option<Response>>)
    requires n <= |s.queue| && |outcomes| == n
    requires ResponseUrlsParse(lib, outcomes)
    ensures var r := AfterExploreQueueMulti(lib, s, n, outcomes).next;
      && r.queue == s.queue[n..] + Discovered(lib, outcomes)
      && (forall u :: u in r.graph <==> u in s.graph || u in ResponseUrls(outcomes))
      && |s.graph| <= |r.graph|
      && (forall u | u in ResponseUrls(outcomes) :: r.graph[u] == LastLinks(lib, outcomes, u))
      && (forall u | u in s.graph && u !in ResponseUrls(outcomes) :: r.graph[u] == s.graph[u])
  {
    var drained := State(s.queue[n..], s.graph);
    ApplyResponsesQueue(lib, drained, outcomes);
    ApplyResponsesKeys(lib, drained, outcomes);
    ApplyResponsesGrows(lib, drained, outcomes);
    ApplyResponsesEntries(lib, drained, outcomes);
  }

  // ---------------------------------------------------------------------
  // Any sequence of calls
  // ---------------------------------------------------------------------

  /** A call a driver can make on the crawler, with the fetch outcomes it
      would see. The batch call drains one URL per outcome. */
  datatype Call =
    | ExploreUrlCall(url: string, fetched: Option<Document>)
    | ExploreQueueCall(ignoreAlreadyCrawled: bool, fetched: Option<Document>)
    | ExploreQueueMultiCall(outcomes: seq<Option<Response>>)
    | AddToQueueCall(url: string)

  /** The state after one call; `None` when the call panics. */
  function Perform(lib: UrlLib, s: State, call: Call): (r: Option<State>)
    requires Lawful(lib)
    ensures r.Some? ==> s.graph.Keys <= r.value.graph.Keys && |s.graph| <= |r.value.graph|
  {
    match call
    case ExploreUrlCall(url, fetched) => Some(AfterExploreUrl(lib, s, url, fetched).next)
    case ExploreQueueCall(ignoreAlreadyCrawled, fetched) =>
      Some(AfterExploreQueue(lib, s, ignoreAlreadyCrawled, fetched).next)
    case ExploreQueueMultiCall(outcomes) =>
      if |outcomes| <= |s.queue| && ResponseUrlsParse(lib, outcomes) then
        ExploreQueueMultiEffect(lib, s, |outcomes|, outcomes);
        Some(AfterExploreQueueMulti(lib, s, |outcomes|, outcomes).next)
      else None
    case AddToQueueCall(url) => Some(State(s.queue + [url], s.graph))
  }

  /** The calls one after another, stopping at the first that panics. */
  function Run(lib: UrlLib, s: State, calls: seq<Call>): State
    requires Lawful(lib)
    decreases |calls|
  {
    if calls == [] then s
    else
      var next := Perform(lib, s, calls[0]);
      if next.None? then s else Run(lib, next.value, calls[1..])
  }

  /** No sequence of calls forgets a visited page, so the explored count
      never decreases. */
  lemma {:induction false} RunNeverForgets(lib: UrlLib, s: State, calls: seq<Call>)
    requires Lawful(lib)
    ensures s.graph.Keys <= Run(lib, s, calls).graph.Keys
    ensures |s.graph| <= |Run(lib, s, calls).graph|
    decreases |calls|
  {
    if calls != [] {
      var next := Perform(lib, s, calls[0]);
      if next.Some? {
        RunNeverForgets(lib, next.value, calls[1..]);
      }
    }
  }

  /** Every stored link parses to a URL with a host and without a fragment.
      Keys are not constrained: a page is recorded under the string it was
      visited with. */
  ghost predicate GraphCanonical(lib: UrlLib, s: State)
  {
    forall u, k | u in s.graph && 0 <= k < |s.graph[u]| ::
      lib.parse(s.graph[u][k]).Some? && Canonical(lib.parse(s.graph[u][k]).value)
  }

  /** A visit stores only extracted links. */
  lemma ExploreUrlCanonical(lib: UrlLib, s: State, url: string, fetched: Option<Document>)
    requires Lawful(lib)
    requires GraphCanonical(lib, s)
    ensures GraphCanonical(lib, AfterExploreUrl(lib, s, url, fetched).next)
  {
    if lib.parse(url).Some? && fetched.Some? {
      ExploreUrlSuccess(lib, s, url, fetched.value);
      ExtractedLinksCanonical(lib, lib.parse(url).value, fetched.value);
    }
  }

  /** The batch loop stores only extracted links. */
  lemma {:induction false} ApplyResponsesCanonical(lib: UrlLib, s: State, outcomes: seq<Option<Response>>)
    requires Lawful(lib)
    requires ResponseUrlsParse(lib, outcomes)
    requires GraphCanonical(lib, s)
    ensures GraphCanonical(lib, ApplyResponses(lib, s, outcomes))
    decreases |outcomes|
  {
    if outcomes != [] {
      var last := |outcomes| - 1;
      ApplyResponsesCanonical(lib, s, outcomes[..last]);
      var outcome := outcomes[last];
      if outcome.Some? {
        ExtractedLinksCanonical(lib, lib.parse(outcome.value.url).value, outcome.value.body);
      }
    }
  }

  /** No call stores a link that is not canonical. */
  lemma PerformCanonical(lib: UrlLib, s: State, call: Call)
    requires Lawful(lib)
    requires GraphCanonical(lib, s)
    ensures Perform(lib, s, call).Some? ==> GraphCanonical(lib, Perform(lib, s, call).value)
  {
    match call
    case ExploreUrlCall(url, fetched) =>
      ExploreUrlCanonical(lib, s, url, fetched);
    case ExploreQueueCall(ignoreAlreadyCrawled, fetched) =>
      if s.queue != [] {
        ExploreUrlCanonical(lib, State(s.queue[1..], s.graph), s.queue[0], fetched);
      }
    case ExploreQueueMultiCall(outcomes) =>
      if |outcomes| <= |s.queue| && ResponseUrlsParse(lib, outcomes) {
        ApplyResponsesCanonical(lib, State(s.queue[|outcomes|..], s.graph), outcomes);
      }
    case AddToQueueCall(url) =>
  }

  /** Across any sequence of calls, every link in the graph stays canonical. */
  lemma {:induction false} RunCanonical(lib: UrlLib, s: State, calls: seq<Call>)
    requires Lawful(lib)
    requires GraphCanonical(lib, s)
    ensures GraphCanonical(lib, Run(lib, s, calls))
    decreases |calls|
  {
    if calls != [] {
      var next := Perform(lib, s, calls[0]);
      PerformCanonical(lib, s, calls[0]);
      if next.Some? {
        RunCanonical(lib, next.value, calls[1..]);
      }
    }
  }

  // ---------------------------------------------------------------------
  // The crawler object
  // ---------------------------------------------------------------------

  class Crawler {
    var queue: seq<string>
    var graph: map<string, seq<string>>

    function Snapshot(): State
      reads this
    {
      State(queue, graph)
    }

    /** `Crawler::new(url)`: the frontier holds the seed only. */
    constructor (url: string)
      ensures queue == [url] && graph == map[]
      ensures ExploredNodes() == 0
    {
      queue := [url];
      graph := map[];
    }

    /** `explored_nodes()`: the number of visited pages. */
    function ExploredNodes(): (n: nat)
      reads this
      ensures n == |graph.Keys|
      ensures n == 0 <==> graph == map[]
    {
      |graph|
    }

    method ExploreUrl(lib: UrlLib, url: string, fetched: Option<Document>) returns (status: Status)
      requires Lawful(lib)
      modifies this
      ensures Step(Snapshot(), status) == AfterExploreUrl(lib, old(Snapshot()), url, fetched)
      ensures old(ExploredNodes()) <= ExploredNodes()
    {
      var parsed := lib.parse(url);
      if parsed.None? {
        return Err(UrlParseError);
      }
      if fetched.None? {
        return Err(RequestError);
      }
      assert ParseReparses(lib, url);
      var links := ExtractHrefsFrom(lib, ToString(parsed.value), fetched.value);
      queue := queue + links;
      graph := graph[url := links];
      status := Ok;
    }

    method ExploreQueue(lib: UrlLib, ignoreAlreadyCrawled: bool, fetched: Option<Document>) returns (status: Status)
      requires Lawful(lib)
      modifies this
      ensures Step(Snapshot(), status) == AfterExploreQueue(lib, old(Snapshot()), ignoreAlreadyCrawled, fetched)
      ensures old(ExploredNodes()) <= ExploredNodes()
    {
      if queue == [] {
        return Err(EmptyQueue);
      }
      var url := queue[0];
      queue := queue[1..];
      if url !in graph || !ignoreAlreadyCrawled {
        status := ExploreUrl(lib, url, fetched);
        if status.Err? {
          return;
        }
      }
      status := Ok;
    }

    method ExploreQueueMulti(lib: UrlLib, n: nat, outcomes: seq<Option<Response>>) returns (status: Status)
      requires n <= |queue| && |outcomes| == n
      requires ResponseUrlsParse(lib, outcomes)
      modifies this
      ensures Step(Snapshot(), status) == AfterExploreQueueMulti(lib, old(Snapshot()), n, outcomes)
      ensures old(ExploredNodes()) <= ExploredNodes()
    {
      queue := queue[n..];
      ghost var drained := Snapshot();
      for i := 0 to |outcomes|
        invariant Snapshot() == ApplyResponses(lib, drained, outcomes[..i])
      {
        assert outcomes[..i + 1][..i] == outcomes[..i];
        var outcome := outcomes[i];
        if outcome.Some? {
          var links := ExtractHrefsFrom(lib, outcome.value.url, outcome.value.body);
          queue := queue + links;
          graph := graph[outcome.value.url := links];
        }
      }
      assert outcomes[..|outcomes|] == outcomes;
      ApplyResponsesGrows(lib, drained, outcomes);
      status := Ok;
    }

    /** `add_to_queue(url)`: appends at the tail only. */
    method AddToQueue(url: string)
      modifies this
      ensures queue == old(queue) + [url] && graph == old(graph)
    {
      queue := queue + [url];
    }
  }
}
