/**
 * The improved Daily Star scraper (backend/scrapers/dailystar-improved.js): URL discovery
 * from three section pages with a homepage fallback, the multi-selector article
 * extraction, and `run`, which is the shared loop under `ImprovedPolicy`.
 */
module DailyStarImproved {
  import opened Wrappers
  import opened Text
  import opened Seqs
  import opened Html
  import opened ArticleUrl
  import opened BaseScraper
  import opened ScrapeRun

  const BaseUrl := "https://www.thedailystar.net"
  const SourceName := "The Daily Star"
  const Language := "en"

  /** The section pages searched for article links, in order. */
  const SectionPaths: seq<string> := ["/news/bangladesh", "/city", "/politics"]

  /** The pause after each section page that was fetched. */
  const SectionPauseMs := 1000

  /** The delays discovery waits out, one per section page fetched, in milliseconds. */
  function SectionPauses(n: nat): (r: seq<int>)
    ensures |r| == n && forall k :: 0 <= k < n ==> r[k] == SectionPauseMs
  {
    seq(n, _ => SectionPauseMs)
  }

  // ---------------------------------------------------------------- discovery

  /** The section-page anchor loop: a truthy `href` whose absolute URL looks like an article and is new is appended. */
  function Harvest(anchors: seq<Element>, acc: seq<string>): (r: seq<string>)
    ensures NoDup(acc) ==> NoDup(r)
    ensures forall u :: u in acc ==> u in r
    ensures forall u :: u in r ==> u in acc || IsArticleUrl(u)
  {
    if |anchors| == 0 then acc
    else
      var a := anchors[0];
      var next :=
        if Truthy(a.href) && IsArticleUrl(FullUrl(BaseUrl, a.href.value)) && FullUrl(BaseUrl, a.href.value) !in acc
        then acc + [FullUrl(BaseUrl, a.href.value)]
        else acc;
      Harvest(anchors[1..], next)
  }

  /** One section page: a failed fetch is skipped (`continue`), a fetched one is harvested and paused after. */
  function SectionStep(path: string, fetch: string -> Result<Document>, acc: seq<string>, pauses: nat): (seq<string>, nat)
  {
    match fetch(BaseUrl + path)
    case Failure(_) => (acc, pauses)
    case Success(doc) => (Harvest(Select(doc, "a"), acc), pauses + 1)
  }

  /**
   * The section loop from the remaining `paths` on: a section that cannot be fetched is
   * passed over without a pause; the loop stops once `limit` URLs are collected.
   * The second component counts the pauses.
   */
  function Sections(paths: seq<string>, fetch: string -> Result<Document>, limit: int, acc: seq<string>, pauses: nat)
    : (r: (seq<string>, nat))
    ensures NoDup(acc) ==> NoDup(r.0)
    ensures forall u :: u in acc ==> u in r.0
    ensures forall u :: u in r.0 ==> u in acc || IsArticleUrl(u)
    ensures pauses <= r.1 <= pauses + |paths|
  {
    if |paths| == 0 then (acc, pauses)
    else
      var step := SectionStep(paths[0], fetch, acc, pauses);
      if |step.0| >= limit then step
      else Sections(paths[1..], fetch, limit, step.0, step.1)
  }

  /**
   * The `break` after each section: once the sections up to some point (at least the
   * first, whose page is fetched whatever `acc` holds) have collected `limit` URLs, the
   * later sections change nothing — they are neither fetched nor paused after.
   */
  lemma {:induction false} SectionsStopAtLimit(paths: seq<string>, fetch: string -> Result<Document>, limit: int,
                                                acc: seq<string>, pauses: nat, i: nat)
    requires 1 <= i <= |paths|
    requires |Sections(paths[..i], fetch, limit, acc, pauses).0| >= limit
    ensures Sections(paths, fetch, limit, acc, pauses) == Sections(paths[..i], fetch, limit, acc, pauses)
    decreases i
  {
    var step := SectionStep(paths[0], fetch, acc, pauses);
    assert paths[..i][0] == paths[0];
    if |step.0| < limit && i > 1 {
      assert paths[..i][1..] == paths[1..][..i - 1];
      SectionsStopAtLimit(paths[1..], fetch, limit, step.0, step.1, i - 1);
    }
  }

  /** `a[href*="/news/"], a[href*="/city/"], a[href*="/politics/"]`. */
  predicate FallbackLink(href: string) {
    Contains(href, "/news/") || Contains(href, "/city/") || Contains(href, "/politics/")
  }

  /** The homepage anchor loop: matching links are appended while fewer than `limit` are held. */
  function Fallback(anchors: seq<Element>, limit: int, acc: seq<string>): (r: seq<string>)
    ensures NoDup(acc) ==> NoDup(r)
    ensures forall u :: u in r ==> u in acc || FallbackLink(u)
  {
    if |anchors| == 0 then acc
    else
      var a := anchors[0];
      var next :=
        if a.href.Some? && FallbackLink(a.href.value) && Truthy(a.href) && |acc| < limit
           && FullUrl(BaseUrl, a.href.value) !in acc
        then acc + [FullUrl(BaseUrl, a.href.value)]
        else acc;
      FallbackLinkKept(if a.href.Some? then a.href.value else "");
      Fallback(anchors[1..], limit, next)
  }

  lemma FallbackLinkKept(href: string)
    ensures FallbackLink(href) ==> FallbackLink(FullUrl(BaseUrl, href))
  {
    if Contains(href, "/news/") { FullUrlKeepsSubstring(BaseUrl, href, "/news/"); }
    if Contains(href, "/city/") { FullUrlKeepsSubstring(BaseUrl, href, "/city/"); }
    if Contains(href, "/politics/") { FullUrlKeepsSubstring(BaseUrl, href, "/politics/"); }
  }

  /** What `acc` held stays in front of what `Harvest` appends. */
  lemma {:induction false} HarvestAppends(anchors: seq<Element>, acc: seq<string>)
    ensures |acc| <= |Harvest(anchors, acc)| && Harvest(anchors, acc)[..|acc|] == acc
    decreases |anchors|
  {
    if |anchors| > 0 {
      var a := anchors[0];
      var next :=
        if Truthy(a.href) && IsArticleUrl(FullUrl(BaseUrl, a.href.value)) && FullUrl(BaseUrl, a.href.value) !in acc
        then acc + [FullUrl(BaseUrl, a.href.value)]
        else acc;
      HarvestAppends(anchors[1..], next);
      var r := Harvest(anchors, acc);
      assert r[..|next|][..|acc|] == r[..|acc|];
    }
  }

  /** No qualifying link is missed: every anchor whose absolute URL passes `isArticleUrl` ends up in the list. */
  lemma {:induction false} HarvestComplete(anchors: seq<Element>, acc: seq<string>)
    ensures forall k :: (0 <= k < |anchors| && Truthy(anchors[k].href) && IsArticleUrl(FullUrl(BaseUrl, anchors[k].href.value))
      ==> FullUrl(BaseUrl, anchors[k].href.value) in Harvest(anchors, acc))
    decreases |anchors|
  {
    if |anchors| > 0 {
      var a := anchors[0];
      var next :=
        if Truthy(a.href) && IsArticleUrl(FullUrl(BaseUrl, a.href.value)) && FullUrl(BaseUrl, a.href.value) !in acc
        then acc + [FullUrl(BaseUrl, a.href.value)]
        else acc;
      HarvestComplete(anchors[1..], next);
      forall k | 0 <= k < |anchors| && Truthy(anchors[k].href) && IsArticleUrl(FullUrl(BaseUrl, anchors[k].href.value))
        ensures FullUrl(BaseUrl, anchors[k].href.value) in Harvest(anchors, acc)
      {
        if k == 0 {
          assert FullUrl(BaseUrl, a.href.value) in next;
        } else {
          assert anchors[k] == anchors[1..][k - 1];
        }
      }
    }
  }

  /** What `acc` held stays in front of what `Fallback` appends, and the limit is kept. */
  lemma {:induction false} FallbackAppends(anchors: seq<Element>, limit: int, acc: seq<string>)
    ensures |acc| <= |Fallback(anchors, limit, acc)| && Fallback(anchors, limit, acc)[..|acc|] == acc
    ensures |acc| <= limit ==> |Fallback(anchors, limit, acc)| <= limit
    decreases |anchors|
  {
    if |anchors| > 0 {
      var a := anchors[0];
      var next :=
        if a.href.Some? && FallbackLink(a.href.value) && Truthy(a.href) && |acc| < limit
           && FullUrl(BaseUrl, a.href.value) !in acc
        then acc + [FullUrl(BaseUrl, a.href.value)]
        else acc;
      FallbackAppends(anchors[1..], limit, next);
      var r := Fallback(anchors, limit, acc);
      assert r[..|next|][..|acc|] == r[..|acc|];
    }
  }

  /** While under the limit, no matching link is missed. */
  lemma {:induction false} FallbackComplete(anchors: seq<Element>, limit: int, acc: seq<string>)
    ensures |Fallback(anchors, limit, acc)| < limit ==>
      forall k :: (0 <= k < |anchors| && Truthy(anchors[k].href) && FallbackLink(anchors[k].href.value)
        ==> FullUrl(BaseUrl, anchors[k].href.value) in Fallback(anchors, limit, acc))
    decreases |anchors|
  {
    if |anchors| > 0 {
      var a := anchors[0];
      var next :=
        if a.href.Some? && FallbackLink(a.href.value) && Truthy(a.href) && |acc| < limit
           && FullUrl(BaseUrl, a.href.value) !in acc
        then acc + [FullUrl(BaseUrl, a.href.value)]
        else acc;
      var r := Fallback(anchors, limit, acc);
      FallbackComplete(anchors[1..], limit, next);
      FallbackAppends(anchors[1..], limit, next);
      forall u | u in next
        ensures u in r
      {
        var j :| 0 <= j < |next| && next[j] == u;
        assert r[..|next|][j] == u;
      }
      assert forall k :: 1 <= k < |anchors| ==> anchors[k] == anchors[1..][k - 1];
    }
  }

  /** `getLatestNewsUrls(limit)`: the URLs (or the homepage fetch error) and the number of section pauses. */
  function Discover(fetch: string -> Result<Document>, limit: int): (r: (Result<seq<string>>, nat))
    ensures r.0.Failure? ==> fetch(BaseUrl).Failure? && r.0.error == fetch(BaseUrl).error
  {
    var (found, pauses) := Sections(SectionPaths, fetch, limit, [], 0);
    if |found| == 0 then
      match fetch(BaseUrl)
      case Failure(e) => (Failure(e), pauses)
      case Success(doc) => (Success(Slice0(Dedup(Fallback(Select(doc, "a"), limit, [])), limit)), pauses)
    else (Success(Slice0(Dedup(found), limit)), pauses)
  }

  /**
   * What discovery promises: no duplicates, at most `limit` URLs, every URL from a section
   * page passes `isArticleUrl`; the homepage is consulted only when the sections gave
   * nothing, its URLs come from links to `/news/`, `/city/` or `/politics/`, and its fetch
   * error is the only one that escapes.
   */
  lemma DiscoverFacts(fetch: string -> Result<Document>, limit: int)
    ensures var (r, pauses) := Discover(fetch, limit);
            var found := Sections(SectionPaths, fetch, limit, [], 0).0;
      && pauses <= |SectionPaths|
      && (r.Success? ==> r.value == Slice0(Dedup(if found == [] then Fallback(Select(fetch(BaseUrl).value, "a"), limit, []) else found), limit))
      && (r.Failure? <==> found == [] && fetch(BaseUrl).Failure?)
      && (r.Success? ==> NoDup(r.value) && (limit >= 0 ==> |r.value| <= limit))
      && (r.Success? && found != [] ==> forall u :: u in r.value ==> IsArticleUrl(u))
      && (r.Success? && found == [] ==> forall u :: u in r.value ==> FallbackLink(u))
  {
    var (r, pauses) := Discover(fetch, limit);
    var found := Sections(SectionPaths, fetch, limit, [], 0).0;
    if r.Success? {
      var all := if found == [] then Fallback(Select(fetch(BaseUrl).value, "a"), limit, []) else found;
      assert r.value == Slice0(Dedup(all), limit);
      SliceKeepsNoDup(Dedup(all), limit);
      forall u | u in r.value ensures u in all {
        assert r.value == Dedup(all)[..|r.value|];
      }
      if found != [] {
        assert forall u :: u in r.value ==> IsArticleUrl(u);
      }
    }
  }

  /** The imperative discovery loop: it computes `Discover`. */
  method GetLatestNewsUrls(fetch: string -> Result<Document>, limit: int) returns (r: Result<seq<string>>, pauses: nat)
    ensures (r, pauses) == Discover(fetch, limit)
  {
    var newsUrls: seq<string> := [];
    pauses := 0;
    var s := 0;
    while s < |SectionPaths|
      invariant 0 <= s <= |SectionPaths|
      invariant Sections(SectionPaths[s..], fetch, limit, newsUrls, pauses) == Sections(SectionPaths, fetch, limit, [], 0)
    {
      ghost var before := (newsUrls, pauses);
      assert SectionPaths[s..][0] == SectionPaths[s] && SectionPaths[s..][1..] == SectionPaths[s + 1..];
      var page := fetch(BaseUrl + SectionPaths[s]);
      if page.Success? {
        var anchors := Select(page.value, "a");
        ghost var start := newsUrls;
        var k := 0;
        while k < |anchors|
          invariant 0 <= k <= |anchors|
          invariant Harvest(anchors[k..], newsUrls) == Harvest(anchors, start)
        {
          assert anchors[k..][1..] == anchors[k + 1..];
          var href := anchors[k].href;
          if Truthy(href) {
            var full := FullUrl(BaseUrl, href.value);
            if IsArticleUrl(full) && full !in newsUrls {
              newsUrls := newsUrls + [full];
            }
          }
          k := k + 1;
        }
        pauses := pauses + 1;
      }
      if |newsUrls| >= limit {
        assert (newsUrls, pauses) == Sections(SectionPaths, fetch, limit, [], 0);
        break;
      }
      s := s + 1;
    }
    assert (newsUrls, pauses) == Sections(SectionPaths, fetch, limit, [], 0);
    if |newsUrls| == 0 {
      var home := fetch(BaseUrl);
      if home.Failure? {
        return Failure(home.error), pauses;
      }
      var anchors := Select(home.value, "a");
      var k := 0;
      while k < |anchors|
        invariant 0 <= k <= |anchors|
        invariant Fallback(anchors[k..], limit, newsUrls) == Fallback(anchors, limit, [])
      {
        assert anchors[k..][1..] == anchors[k + 1..];
        var href := anchors[k].href;
        if href.Some? && FallbackLink(href.value) && Truthy(href) && |newsUrls| < limit {
          var full := FullUrl(BaseUrl, href.value);
          if full !in newsUrls {
            newsUrls := newsUrls + [full];
          }
        }
        k := k + 1;
      }
    }
    r := Success(Slice0(Dedup(newsUrls), limit));
  }

  // ---------------------------------------------------------------- extraction

  const TitleSelectors: seq<string> := ["h1", ".headline", ".title", "title"]
  const TitleSuffix := " | The Daily Star"
  /** A title longer than this ends the title loop. */
  const TitleMin: nat := 10

  const ContentSelectors: seq<string> := [".story-content p", ".article-content p", ".news-content p", "article p", ".content p", "p"]
  /** Paragraphs up to this length are dropped. */
  const ParagraphMin: nat := 20
  /** Content longer than this ends the content loop. */
  const ContentMin: nat := 200

  /** `$(sel).first().text().trim().replace(' | The Daily Star', '')` when `sel` matches. */
  function TitleCandidate(doc: Document, sel: string): Option<string> {
    match FirstText(doc, sel)
    case None => None
    case Some(t) => Some(ReplaceFirst(t, TitleSuffix, ""))
  }

  /** The paragraphs of `sel`, trimmed, longer than 20 characters, joined by a blank line; only with at least three matches. */
  function ContentCandidate(doc: Document, sel: string): (r: Option<string>)
    ensures r.Some? <==> |Select(doc, sel)| > 2
  {
    var ps := Select(doc, sel);
    if |ps| > 2 then Some(Join(LongerThan(TrimmedTexts(ps), ParagraphMin), "\n\n")) else None
  }

  function TitleCandidates(doc: Document): (r: seq<Option<string>>)
    ensures |r| == |TitleSelectors| && forall k :: 0 <= k < |r| ==> r[k] == TitleCandidate(doc, TitleSelectors[k])
  {
    SelectorCandidates(doc, TitleSelectors, TitleCandidate)
  }

  function ContentCandidates(doc: Document): (r: seq<Option<string>>)
    ensures |r| == |ContentSelectors| && forall k :: 0 <= k < |r| ==> r[k] == ContentCandidate(doc, ContentSelectors[k])
  {
    SelectorCandidates(doc, ContentSelectors, ContentCandidate)
  }

  /**
   * The title loop and `title || 'Untitled'`: the first title selector giving more than ten
   * characters wins; otherwise the last selector that matched; the title is never empty.
   */
  function TitleOf(doc: Document): (r: string)
    ensures r != ""
    ensures forall k :: 0 <= k < |TitleSelectors| && Long(TitleCandidate(doc, TitleSelectors[k]), TitleMin)
              && (forall l :: 0 <= l < k ==> !Long(TitleCandidate(doc, TitleSelectors[l]), TitleMin))
              ==> r == TitleCandidate(doc, TitleSelectors[k]).value
    ensures (forall k :: 0 <= k < |TitleSelectors| ==> |Select(doc, TitleSelectors[k])| == 0) ==> r == "Untitled"
  {
    var tc := TitleCandidates(doc);
    var title := Overwrite(tc, TitleMin, "");
    FirstLongCandidate(doc, TitleSelectors, TitleCandidate, TitleMin, "", title);
    if title == "" then "Untitled" else title
  }

  /**
   * When no title candidate exceeds ten characters the loop never breaks: the title is the
   * candidate of the last selector that matched, or `'Untitled'` when that text is empty or
   * no selector matched.
   */
  lemma TitleOfFallback(doc: Document)
    ensures var tc := TitleCandidates(doc);
      (forall k :: 0 <= k < |tc| ==> !Long(tc[k], TitleMin)) ==>
      || (TitleOf(doc) == "Untitled" && forall k :: 0 <= k < |tc| ==> tc[k].None?)
      || (exists k :: 0 <= k < |tc| && tc[k].Some?
            && TitleOf(doc) == (if tc[k].value == "" then "Untitled" else tc[k].value)
            && forall l :: k < l < |tc| ==> tc[l].None?)
  {
    var tc := TitleCandidates(doc);
    assert TitleOf(doc) == (var t := Overwrite(tc, TitleMin, ""); if t == "" then "Untitled" else t);
  }

  /**
   * The content loop: the first selector with at least three paragraphs whose kept text
   * exceeds two hundred characters wins; otherwise the last one with at least three
   * paragraphs; `""` when no selector has three.
   */
  function ContentOf(doc: Document): (r: string)
    ensures forall k :: 0 <= k < |ContentSelectors| && Long(ContentCandidate(doc, ContentSelectors[k]), ContentMin)
              && (forall l :: 0 <= l < k ==> !Long(ContentCandidate(doc, ContentSelectors[l]), ContentMin))
              ==> r == ContentCandidate(doc, ContentSelectors[k]).value
    ensures (forall k :: 0 <= k < |ContentSelectors| ==> |Select(doc, ContentSelectors[k])| <= 2) ==> r == ""
  {
    var cc := ContentCandidates(doc);
    FirstLongCandidate(doc, ContentSelectors, ContentCandidate, ContentMin, "", Overwrite(cc, ContentMin, ""));
    Overwrite(cc, ContentMin, "")
  }

  /**
   * When no candidate exceeds two hundred characters, the loop never breaks and the
   * content is the candidate of the last selector with at least three paragraphs, or `""`.
   */
  lemma ContentOfFallback(doc: Document)
    ensures var cc := ContentCandidates(doc);
      (forall k :: 0 <= k < |cc| ==> !Long(cc[k], ContentMin)) ==>
      || (ContentOf(doc) == "" && forall k :: 0 <= k < |cc| ==> cc[k].None?)
      || (exists k :: 0 <= k < |cc| && cc[k].Some? && ContentOf(doc) == cc[k].value
            && forall l :: k < l < |cc| ==> cc[l].None?)
  {
    var cc := ContentCandidates(doc);
    assert ContentOf(doc) == Overwrite(cc, ContentMin, "");
  }

  /** The object `scrapeArticle(url)` returns for a fetched page; `now` stands for `new Date()`. */
  function ArticleFrom(doc: Document, url: string, now: Time, parse: string -> Option<Time>): (d: ArticleDraft)
    ensures d.title != "" && d.url == url && d.language == Language
  {
    ArticleDraft(TitleOf(doc), ContentOf(doc), AuthorOf(doc), PublishedAt(doc, now, parse), url, Language)
  }

  /** `scrapeArticle(url)`: a failed fetch is rethrown, otherwise the extracted draft. */
  function Scrape(page: Result<Document>, url: string, now: Time, parse: string -> Option<Time>): Result<ArticleDraft> {
    match page
    case Failure(e) => Failure(e)
    case Success(doc) => Success(ArticleFrom(doc, url, now, parse))
  }

  /** The title loop of `scrapeArticle`, before `|| 'Untitled'`. */
  method ExtractTitle(doc: Document) returns (title: string)
    ensures title == Overwrite(TitleCandidates(doc), TitleMin, "")
  {
    ghost var tc := TitleCandidates(doc);
    title := "";
    var k := 0;
    while k < |TitleSelectors|
      invariant 0 <= k <= |TitleSelectors|
      invariant Overwrite(tc[k..], TitleMin, title) == Overwrite(tc, TitleMin, "")
    {
      OverwriteStep(tc, TitleMin, title, k);
      assert tc[k] == TitleCandidate(doc, TitleSelectors[k]);
      var els := Select(doc, TitleSelectors[k]);
      if |els| > 0 {
        title := ReplaceFirst(Trim(els[0].text), TitleSuffix, "");
        assert tc[k] == Some(title);
        if title != "" && |title| > TitleMin {
          break;
        }
      }
      k := k + 1;
    }
    if k == |TitleSelectors| {
      assert tc[k..] == [];
    }
  }

  lemma CandidateValue(doc: Document, sel: string)
    requires |Select(doc, sel)| > 2
    ensures ContentCandidate(doc, sel) == Some(Join(LongerThan(TrimmedTexts(Select(doc, sel)), ParagraphMin), "\n\n"))
  {
  }

  /** The content loop of `scrapeArticle`. */
  method ExtractContent(doc: Document) returns (content: string)
    ensures content == Overwrite(ContentCandidates(doc), ContentMin, "")
  {
    ghost var cc := ContentCandidates(doc);
    content := "";
    var k := 0;
    while k < |ContentSelectors|
      invariant 0 <= k <= |ContentSelectors|
      invariant Overwrite(cc[k..], ContentMin, content) == Overwrite(cc, ContentMin, "")
    {
      OverwriteStep(cc, ContentMin, content, k);
      assert cc[k] == ContentCandidate(doc, ContentSelectors[k]);
      var paragraphs := Select(doc, ContentSelectors[k]);
      if |paragraphs| > 2 {
        content := Join(LongerThan(TrimmedTexts(paragraphs), ParagraphMin), "\n\n");
        CandidateValue(doc, ContentSelectors[k]);
        if |content| > ContentMin {
          break;
        }
      }
      k := k + 1;
    }
    if k == |ContentSelectors| {
      assert cc[k..] == [];
    }
  }

  /** The imperative `scrapeArticle`: the four selector loops; it computes `Scrape`. */
  method ScrapeArticle(page: Result<Document>, url: string, now: Time, parse: string -> Option<Time>)
    returns (r: Result<ArticleDraft>)
    ensures r == Scrape(page, url, now, parse)
  {
    if page.Failure? {
      return Failure(page.error);
    }
    var doc := page.value;
    var title := ExtractTitle(doc);
    var content := ExtractContent(doc);
    var author := ExtractAuthor(doc);
    var publishedAt := ExtractPublishedAt(doc, now, parse);
    assert TitleOf(doc) == if title == "" then "Untitled" else title;
    assert ContentOf(doc) == content;
    r := Success(ArticleDraft(if title == "" then "Untitled" else title, content, author, publishedAt, url, Language));
  }

  // ---------------------------------------------------------------- run

  /**
   * The per-URL world of `run`: article `i` is `urls[i]`, fetched as `pages(i)` and
   * extracted at clock `scrapeClock(i)`; there is no existence check.
   */
  function RunWorld(urls: seq<string>, pages: nat -> Result<Document>, parse: string -> Option<Time>,
                    scrapeClock: nat -> Time, saveError: nat -> Option<string>, saveClock: nat -> Time): RunEnv
  {
    RunEnv(
      _ => false,
      (i: nat) => if i < |urls| then Scrape(pages(i), urls[i], scrapeClock(i), parse) else Failure("no such URL"),
      saveError,
      saveClock)
  }

  /**
   * `run(limit)`: the source lookup, then discovery (whose error aborts the run), then the
   * shared loop with the 100-character content rule and no skip path.
   */
  method Run(store: ArticleStore, sourceQueryError: Option<string>, fetch: string -> Result<Document>, limit: int,
             pages: nat -> Result<Document>, parse: string -> Option<Time>, scrapeClock: nat -> Time,
             saveError: nat -> Option<string>, saveClock: nat -> Time, configuredDelay: Option<int>)
    returns (r: Result<RunReport>, pauses: seq<int>)
    requires store.Valid()
    modifies store
    ensures store.Valid()
    ensures store.GetSourceId(SourceName, sourceQueryError).Failure? ==>
      r == Failure(store.GetSourceId(SourceName, sourceQueryError).error) && store.Table() == old(store.Table())
      && pauses == []
    ensures store.GetSourceId(SourceName, sourceQueryError).Success? && Discover(fetch, limit).0.Failure? ==>
      r == Failure(Discover(fetch, limit).0.error) && store.Table() == old(store.Table())
      && pauses == SectionPauses(Discover(fetch, limit).1)
    ensures store.GetSourceId(SourceName, sourceQueryError).Success? && Discover(fetch, limit).0.Success? ==>
      var urls := Discover(fetch, limit).0.value;
      var (os, t) := RunPrefix(ImprovedPolicy, old(store.Table()), urls,
                               RunWorld(urls, pages, parse, scrapeClock, saveError, saveClock),
                               store.GetSourceId(SourceName, sourceQueryError).value, |urls|);
      r == Success(Summarize(os)) && store.Table() == t
      && pauses == SectionPauses(Discover(fetch, limit).1) + Pauses(os, ScrapingDelay(configuredDelay))
  {
    var sourceId := store.GetSourceId(SourceName, sourceQueryError);
    if sourceId.Failure? {
      return Failure(sourceId.error), [];
    }
    var urls, sectionPauses := GetLatestNewsUrls(fetch, limit);
    if urls.Failure? {
      return Failure(urls.error), SectionPauses(sectionPauses);
    }
    var env := RunWorld(urls.value, pages, parse, scrapeClock, saveError, saveClock);
    var report, loopPauses := ProcessUrls(store, ImprovedPolicy, urls.value, env, sourceId.value, ScrapingDelay(configuredDelay));
    r := Success(report);
    pauses := SectionPauses(sectionPauses) + loopPauses;
  }

  /**
   * Every article `run` reports was saved from a discovered URL, in discovery order, and
   * the report never counts a skipped URL.
   */
  lemma RunArticlesFromDiscovery(t0: ArticleTable, urls: seq<string>, pages: nat -> Result<Document>,
                                 parse: string -> Option<Time>, scrapeClock: nat -> Time,
                                 saveError: nat -> Option<string>, saveClock: nat -> Time, sourceId: nat)
    returns (idx: seq<nat>)
    ensures var env := RunWorld(urls, pages, parse, scrapeClock, saveError, saveClock);
            var report := Summarize(RunPrefix(ImprovedPolicy, t0, urls, env, sourceId, |urls|).0);
      && SubsequenceAt(ArticleUrls(report.articles), urls, idx)
      && report.skipped == 0
  {
    var env := RunWorld(urls, pages, parse, scrapeClock, saveError, saveClock);
    forall i | 0 <= i < |urls| && env.scrape(i).Success?
      ensures env.scrape(i).value.url == urls[i]
    {
      assert env.scrape(i) == Scrape(pages(i), urls[i], scrapeClock(i), parse);
    }
    idx := ArticlesInDiscoveryOrder(ImprovedPolicy, t0, urls, env, sourceId, |urls|);
    NoSkipWithoutCheck(ImprovedPolicy, t0, urls, env, sourceId, |urls|);
  }
}
