/**
 * The first Daily Star scraper (backend/scrapers/dailystar-scraper.js): homepage link
 * collection, single-pass article extraction, and `run`, the shared loop under `PlainPolicy`.
 */
module DailyStarScraper {
  import opened Wrappers
  import opened Text
  import opened Seqs
  import opened Html
  import opened BaseScraper
  import opened ScrapeRun

  const BaseUrl := "https://www.thedailystar.net"
  const SourceName := "The Daily Star"
  const Language := "en"

  /** The substrings of the five `a[href*="..."]` selectors, in the order they are tried. */
  const LinkPatterns: seq<string> := ["/news/", "/city/", "/politics/", "/business/", "/sports/"]

  // ---------------------------------------------------------------- discovery

  /** `a[href*="pattern"]` with a truthy `href`: the absolute URL of a matching anchor. */
  function Matched(href: Option<string>, pattern: string): seq<string>
  {
    if href.Some? && Contains(href.value, pattern) && Truthy(href) then [FullUrl(BaseUrl, href.value)] else []
  }

  /** One anchor of a selector's `each` loop: the raw `href` is looked up, the absolute URL pushed. */
  function Push(href: Option<string>, pattern: string, acc: seq<string>): seq<string>
  {
    if Matched(href, pattern) != [] && href.value !in acc then acc + Matched(href, pattern) else acc
  }

  /** One selector's `each` loop from the remaining anchors on. */
  function Collect(anchors: seq<Element>, pattern: string, acc: seq<string>): seq<string>
  {
    if |anchors| == 0 then acc
    else Collect(anchors[1..], pattern, Push(anchors[0].href, pattern, acc))
  }

  /** `selectors.forEach(...)` from the remaining patterns on. */
  function CollectAll(patterns: seq<string>, anchors: seq<Element>, acc: seq<string>): seq<string>
  {
    if |patterns| == 0 then acc
    else CollectAll(patterns[1..], anchors, Collect(anchors, patterns[0], acc))
  }

  /** Reference: the absolute URL of every anchor each selector matches, with no duplicate test. */
  function Candidates(patterns: seq<string>, anchors: seq<Element>): seq<string>
  {
    if |patterns| == 0 then []
    else Matching(anchors, patterns[0]) + Candidates(patterns[1..], anchors)
  }

  function Matching(anchors: seq<Element>, pattern: string): seq<string>
  {
    if |anchors| == 0 then [] else Matched(anchors[0].href, pattern) + Matching(anchors[1..], pattern)
  }

  /** `getLatestNewsUrls(limit)` given the homepage fetch. */
  function Discover(home: Result<Document>, limit: int): (r: Result<seq<string>>)
    ensures r.Failure? <==> home.Failure?
    ensures r.Failure? ==> r.error == home.error
  {
    match home
    case Failure(e) => Failure(e)
    case Success(doc) => Success(Slice0(Dedup(CollectAll(LinkPatterns, Select(doc, "a"), [])), limit))
  }

  predicate AbsoluteUrls(s: seq<string>) {
    forall k :: 0 <= k < |s| ==> StartsWith(s[k], "http")
  }

  lemma FullUrlIsAbsolute(href: string)
    ensures StartsWith(FullUrl(BaseUrl, href), "http")
  {
    assert BaseUrl[..4] == "http";
  }

  /**
   * The raw-`href` duplicate test is harmless: since every collected URL is absolute, a
   * relative `href` never matches and an absolute one matches exactly when its URL is
   * already collected. So one anchor keeps the collected list and the list of all
   * candidates in step: same `Dedup`, collected URLs absolute.
   */
  lemma PushDedup(href: Option<string>, pattern: string, acc: seq<string>, all: seq<string>)
    requires AbsoluteUrls(acc) && Dedup(acc) == Dedup(all)
    ensures AbsoluteUrls(Push(href, pattern, acc))
    ensures Dedup(Push(href, pattern, acc)) == Dedup(all + Matched(href, pattern))
  {
    if Matched(href, pattern) == [] {
      assert all + [] == all;
    } else {
      var full := FullUrl(BaseUrl, href.value);
      FullUrlIsAbsolute(href.value);
      DedupExtend(acc, all, full);
      if href.value in acc {
        // an absolute href: it is its own URL, which is already collected
        var k :| 0 <= k < |acc| && acc[k] == href.value;
        assert StartsWith(href.value, "http");
      }
    }
  }

  lemma MatchingUnfold(anchors: seq<Element>, pattern: string, all: seq<string>)
    requires |anchors| > 0
    ensures all + Matching(anchors, pattern) == (all + Matched(anchors[0].href, pattern)) + Matching(anchors[1..], pattern)
  {
  }

  lemma {:induction false} CollectDedup(anchors: seq<Element>, pattern: string, acc: seq<string>, all: seq<string>)
    requires AbsoluteUrls(acc) && Dedup(acc) == Dedup(all)
    ensures AbsoluteUrls(Collect(anchors, pattern, acc))
    ensures Dedup(Collect(anchors, pattern, acc)) == Dedup(all + Matching(anchors, pattern))
  {
    if |anchors| == 0 {
      assert all + [] == all;
    } else {
      var h := anchors[0].href;
      PushDedup(h, pattern, acc, all);
      CollectDedup(anchors[1..], pattern, Push(h, pattern, acc), all + Matched(h, pattern));
      MatchingUnfold(anchors, pattern, all);
    }
  }

  lemma CandidatesUnfold(patterns: seq<string>, anchors: seq<Element>, all: seq<string>)
    requires |patterns| > 0
    ensures all + Candidates(patterns, anchors) == (all + Matching(anchors, patterns[0])) + Candidates(patterns[1..], anchors)
  {
  }

  lemma {:induction false} CollectAllDedup(patterns: seq<string>, anchors: seq<Element>, acc: seq<string>, all: seq<string>)
    requires AbsoluteUrls(acc) && Dedup(acc) == Dedup(all)
    ensures Dedup(CollectAll(patterns, anchors, acc)) == Dedup(all + Candidates(patterns, anchors))
  {
    if |patterns| == 0 {
      assert all + [] == all;
    } else {
      var next := Collect(anchors, patterns[0], acc);
      var all' := all + Matching(anchors, patterns[0]);
      CollectDedup(anchors, patterns[0], acc, all);
      assert CollectAll(patterns, anchors, acc) == CollectAll(patterns[1..], anchors, next);
      CollectAllDedup(patterns[1..], anchors, next, all');
      CandidatesUnfold(patterns, anchors, all);
    }
  }

  lemma {:induction false} MatchingLinks(anchors: seq<Element>, pattern: string)
    ensures forall u :: u in Matching(anchors, pattern) ==> Contains(u, pattern)
  {
    if |anchors| > 0 {
      MatchingLinks(anchors[1..], pattern);
      var h := anchors[0].href;
      if Matched(h, pattern) != [] {
        FullUrlKeepsSubstring(BaseUrl, h.value, pattern);
      }
    }
  }

  lemma {:induction false} CandidateLinks(patterns: seq<string>, anchors: seq<Element>)
    ensures forall u :: u in Candidates(patterns, anchors) ==> exists k :: 0 <= k < |patterns| && Contains(u, patterns[k])
  {
    if |patterns| > 0 {
      CandidateLinks(patterns[1..], anchors);
      MatchingLinks(anchors, patterns[0]);
      assert Candidates(patterns, anchors) == Matching(anchors, patterns[0]) + Candidates(patterns[1..], anchors);
      forall u | u in Candidates(patterns, anchors)
        ensures exists k :: 0 <= k < |patterns| && Contains(u, patterns[k])
      {
        if u in Matching(anchors, patterns[0]) {
          assert Contains(u, patterns[0]);
        } else {
          var k :| 0 <= k < |patterns[1..]| && Contains(u, patterns[1..][k]);
          assert Contains(u, patterns[k + 1]);
        }
      }
    }
  }

  /**
   * Discovery returns, without duplicates and at most `limit` of them, the first distinct
   * absolute URLs among the links to the five sections, in selector order; each contains
   * one of the five section paths. Only the homepage fetch error escapes.
   */
  lemma DiscoverFacts(home: Result<Document>, limit: int)
    ensures Discover(home, limit).Failure? <==> home.Failure?
    ensures home.Success? ==>
      var urls := Discover(home, limit).value;
      var all := Candidates(LinkPatterns, Select(home.value, "a"));
      && urls == Slice0(Dedup(all), limit)
      && NoDup(urls) && (limit >= 0 ==> |urls| <= limit)
      && forall u :: u in urls ==> exists k :: 0 <= k < |LinkPatterns| && Contains(u, LinkPatterns[k])
  {
    if home.Success? {
      var anchors := Select(home.value, "a");
      CollectAllDedup(LinkPatterns, anchors, [], []);
      assert [] + Candidates(LinkPatterns, anchors) == Candidates(LinkPatterns, anchors);
      var all := Candidates(LinkPatterns, anchors);
      SliceKeepsNoDup(Dedup(all), limit);
      CandidateLinks(LinkPatterns, anchors);
      var urls := Discover(home, limit).value;
      forall u | u in urls ensures u in all {
        assert urls == Dedup(all)[..|urls|];
      }
    }
  }

  /** The imperative discovery: nested `forEach`/`each` loops; it computes `Discover`. */
  method GetLatestNewsUrls(home: Result<Document>, limit: int) returns (r: Result<seq<string>>)
    ensures r == Discover(home, limit)
  {
    if home.Failure? {
      return Failure(home.error);
    }
    var anchors := Select(home.value, "a");
    var newsUrls: seq<string> := [];
    var s := 0;
    while s < |LinkPatterns|
      invariant 0 <= s <= |LinkPatterns|
      invariant CollectAll(LinkPatterns[s..], anchors, newsUrls) == CollectAll(LinkPatterns, anchors, [])
    {
      assert LinkPatterns[s..][1..] == LinkPatterns[s + 1..];
      newsUrls := CollectPattern(anchors, LinkPatterns[s], newsUrls);
      s := s + 1;
    }
    r := Success(Slice0(Dedup(newsUrls), limit));
  }

  /** One selector's `$(selector).each(...)` loop, appending to `urls`; it computes `Collect`. */
  method CollectPattern(anchors: seq<Element>, pattern: string, urls: seq<string>) returns (r: seq<string>)
    ensures r == Collect(anchors, pattern, urls)
  {
    r := urls;
    var k := 0;
    while k < |anchors|
      invariant 0 <= k <= |anchors|
      invariant Collect(anchors[k..], pattern, r) == Collect(anchors, pattern, urls)
    {
      assert anchors[k..][1..] == anchors[k + 1..];
      var href := anchors[k].href;
      // the selector keeps anchors whose `href` contains the pattern; `href &&` then needs it non-empty
      if href.Some? && Contains(href.value, pattern) && Truthy(href) && href.value !in r {
        r := r + [FullUrl(BaseUrl, href.value)];
      }
      k := k + 1;
    }
  }

  // ---------------------------------------------------------------- extraction

  const TitleSuffix := " | The Daily Star"

  const ContentSelectors: seq<string> := [".article-content p", ".story-content p", ".news-content p", "article p", ".content p"]

  /** `$("h1").first().text().trim() || $("title").text().replace(" | The Daily Star", "").trim()`. */
  function TitleOf(doc: Document): (r: string)
    ensures FirstText(doc, "h1").Some? && FirstText(doc, "h1").value != "" ==> r == FirstText(doc, "h1").value
    ensures (FirstText(doc, "h1").None? || FirstText(doc, "h1").value == "") ==>
              r == Trim(ReplaceFirst(AllText(doc, "title"), TitleSuffix, ""))
  {
    match FirstText(doc, "h1")
    case Some(t) => if t != "" then t else Trim(ReplaceFirst(AllText(doc, "title"), TitleSuffix, ""))
    case None => Trim(ReplaceFirst(AllText(doc, "title"), TitleSuffix, ""))
  }

  /** All paragraphs of `sel`, trimmed and joined by a blank line, when `sel` matches any. */
  function ContentCandidate(doc: Document, sel: string): Option<string> {
    var ps := Select(doc, sel);
    if |ps| > 0 then Some(Join(TrimmedTexts(ps), "\n\n")) else None
  }

  function ContentCandidates(doc: Document): (r: seq<Option<string>>)
    ensures |r| == |ContentSelectors| && forall k :: 0 <= k < |r| ==> r[k] == ContentCandidate(doc, ContentSelectors[k])
  {
    SelectorCandidates(doc, ContentSelectors, ContentCandidate)
  }

  /** The content loop: the first content selector that matches anything decides, even if its text is empty. */
  function ContentOf(doc: Document): (r: string)
    ensures (forall k :: 0 <= k < |ContentSelectors| ==> |Select(doc, ContentSelectors[k])| == 0) ==> r == ""
    ensures forall k :: 0 <= k < |ContentSelectors| && |Select(doc, ContentSelectors[k])| > 0
              && (forall l :: 0 <= l < k ==> |Select(doc, ContentSelectors[l])| == 0)
              ==> r == Join(TrimmedTexts(Select(doc, ContentSelectors[k])), "\n\n")
  {
    var cc := ContentCandidates(doc);
    match FirstPresent(cc)
    case None => ""
    case Some(c) => c
  }

  function ArticleFrom(doc: Document, url: string, now: Time, parse: string -> Option<Time>): (d: ArticleDraft)
    ensures d.url == url && d.language == Language
  {
    ArticleDraft(TitleOf(doc), ContentOf(doc), AuthorOf(doc), PublishedAt(doc, now, parse), url, Language)
  }

  /** `scrapeArticle(url)`: a failed fetch is rethrown, otherwise the extracted draft. */
  function Scrape(page: Result<Document>, url: string, now: Time, parse: string -> Option<Time>): Result<ArticleDraft> {
    match page
    case Failure(e) => Failure(e)
    case Success(doc) => Success(ArticleFrom(doc, url, now, parse))
  }

  /** The imperative `scrapeArticle`; it computes `Scrape`. */
  method ScrapeArticle(page: Result<Document>, url: string, now: Time, parse: string -> Option<Time>)
    returns (r: Result<ArticleDraft>)
    ensures r == Scrape(page, url, now, parse)
  {
    if page.Failure? {
      return Failure(page.error);
    }
    var doc := page.value;
    var h1 := FirstText(doc, "h1");
    var title := if h1.Some? && h1.value != "" then h1.value else Trim(ReplaceFirst(AllText(doc, "title"), TitleSuffix, ""));

    ghost var cc := ContentCandidates(doc);
    var content := "";
    var k := 0;
    while k < |ContentSelectors|
      invariant 0 <= k <= |ContentSelectors|
      invariant FirstPresent(cc[k..]) == FirstPresent(cc)
      invariant content == ""
    {
      FirstPresentStep(cc, k);
      var paragraphs := Select(doc, ContentSelectors[k]);
      if |paragraphs| > 0 {
        content := Join(TrimmedTexts(paragraphs), "\n\n");
        break;
      }
      k := k + 1;
    }
    if k == |ContentSelectors| {
      assert cc[k..] == [];
    }

    var author := ExtractAuthor(doc);
    var publishedAt := ExtractPublishedAt(doc, now, parse);
    r := Success(ArticleDraft(title, content, author, publishedAt, url, Language));
  }

  // ---------------------------------------------------------------- run

  /** The per-URL world of `run`, as in the improved scraper: article `i` is `urls[i]`, fetched as `pages(i)`. */
  function RunWorld(urls: seq<string>, pages: nat -> Result<Document>, parse: string -> Option<Time>,
                    scrapeClock: nat -> Time, saveError: nat -> Option<string>, saveClock: nat -> Time): RunEnv
  {
    RunEnv(
      _ => false,
      (i: nat) => if i < |urls| then Scrape(pages(i), urls[i], scrapeClock(i), parse) else Failure("no such URL"),
      saveError,
      saveClock)
  }

  /**
   * `run(limit)`: the source lookup, then discovery from the homepage (whose error aborts
   * the run), then the shared loop: a draft without title or content counts as failed.
   */
  method Run(store: ArticleStore, sourceQueryError: Option<string>, home: Result<Document>, limit: int,
             pages: nat -> Result<Document>, parse: string -> Option<Time>, scrapeClock: nat -> Time,
             saveError: nat -> Option<string>, saveClock: nat -> Time, configuredDelay: Option<int>)
    returns (r: Result<RunReport>, pauses: seq<int>)
    requires store.Valid()
    modifies store
    ensures store.Valid()
    ensures store.GetSourceId(SourceName, sourceQueryError).Failure? ==>
      r == Failure(store.GetSourceId(SourceName, sourceQueryError).error) && store.Table() == old(store.Table())
      && pauses == []
    ensures store.GetSourceId(SourceName, sourceQueryError).Success? && home.Failure? ==>
      r == Failure(home.error) && store.Table() == old(store.Table()) && pauses == []
    ensures store.GetSourceId(SourceName, sourceQueryError).Success? && home.Success? ==>
      var urls := Discover(home, limit).value;
      var (os, t) := RunPrefix(PlainPolicy, old(store.Table()), urls,
                               RunWorld(urls, pages, parse, scrapeClock, saveError, saveClock),
                               store.GetSourceId(SourceName, sourceQueryError).value, |urls|);
      r == Success(Summarize(os)) && store.Table() == t && pauses == Pauses(os, ScrapingDelay(configuredDelay))
  {
    var sourceId := store.GetSourceId(SourceName, sourceQueryError);
    if sourceId.Failure? {
      return Failure(sourceId.error), [];
    }
    var urls := GetLatestNewsUrls(home, limit);
    if urls.Failure? {
      return Failure(urls.error), [];
    }
    var env := RunWorld(urls.value, pages, parse, scrapeClock, saveError, saveClock);
    var report;
    report, pauses := ProcessUrls(store, PlainPolicy, urls.value, env, sourceId.value, ScrapingDelay(configuredDelay));
    r := Success(report);
  }

  /**
   * Every saved article had a title and non-empty content, and the articles come from the
   * discovered URLs in discovery order.
   */
  lemma RunSavesOnlyComplete(t0: ArticleTable, urls: seq<string>, pages: nat -> Result<Document>,
                             parse: string -> Option<Time>, scrapeClock: nat -> Time,
                             saveError: nat -> Option<string>, saveClock: nat -> Time, sourceId: nat, i: nat)
    returns (idx: seq<nat>)
    requires i < |urls|
    ensures var env := RunWorld(urls, pages, parse, scrapeClock, saveError, saveClock);
            var os := RunPrefix(PlainPolicy, t0, urls, env, sourceId, |urls|).0;
      && (os[i].Saved? ==> pages(i).Success? && ArticleFrom(pages(i).value, urls[i], scrapeClock(i), parse).title != ""
                           && ArticleFrom(pages(i).value, urls[i], scrapeClock(i), parse).content != "")
      && SubsequenceAt(ArticleUrls(Summarize(os).articles), urls, idx)
  {
    var env := RunWorld(urls, pages, parse, scrapeClock, saveError, saveClock);
    Outcomes(PlainPolicy, t0, urls, env, sourceId, |urls|, i);
    assert env.scrape(i) == Scrape(pages(i), urls[i], scrapeClock(i), parse);
    forall j | 0 <= j < |urls| && env.scrape(j).Success?
      ensures env.scrape(j).value.url == urls[j]
    {
      assert env.scrape(j) == Scrape(pages(j), urls[j], scrapeClock(j), parse);
    }
    idx := ArticlesInDiscoveryOrder(PlainPolicy, t0, urls, env, sourceId, |urls|);
  }
}
