/**
 * The per-URL loop of `run` (backend/scrapers/base-scraper.js and the two Daily Star
 * adapters, which repeat it with other validation rules and without the skip path).
 *
 * Each URL, in discovery order, ends in exactly one `Outcome`. `Step` is what one
 * iteration does to the table, `RunPrefix` folds it over the first `n` URLs and
 * `Summarize` is the counters object that `run` returns.
 */
module ScrapeRun {
  import opened Wrappers
  import opened BaseScraper

  /** What distinguishes the three `run` implementations. */
  datatype RunPolicy = RunPolicy(skipExisting: bool, minContent: nat, reportLength: bool)

  /** base-scraper.js: existing URLs are skipped; title and content must be non-empty. */
  const BasePolicy := RunPolicy(true, 1, false)
  /** dailystar-improved.js: no skip path; content must have at least 100 characters; lengths reported. */
  const ImprovedPolicy := RunPolicy(false, 100, true)
  /** dailystar-scraper.js: no skip path; title and content must be non-empty. */
  const PlainPolicy := RunPolicy(false, 1, false)

  /** The validation in `run`: `!title || !content` (or `content.length < 100`) counts as failed. */
  predicate Acceptable(p: RunPolicy, d: ArticleDraft) {
    d.title != "" && |d.content| >= p.minContent
  }

  /** One `results.articles` entry. */
  datatype SavedArticle = SavedArticle(id: nat, title: string, url: string, contentLength: Option<nat>)

  datatype Outcome = Skipped | Failed | Saved(article: SavedArticle)

  /** The object `run` returns; the adapters' object has no `skipped` field (it is always 0 here). */
  datatype RunReport = RunReport(total: nat, successful: nat, failed: nat, skipped: nat, articles: seq<SavedArticle>)

  /**
   * What the outside world does at URL position `i`: whether the existence query throws,
   * what `scrapeArticle` returns or throws, whether the upsert throws, and the clock at the save.
   */
  datatype RunEnv = RunEnv(
    existsFails: nat -> bool,
    scrape: nat -> Result<ArticleDraft>,
    saveError: nat -> Option<string>,
    clock: nat -> Time)

  function Summary(p: RunPolicy, id: nat, d: ArticleDraft): SavedArticle {
    SavedArticle(id, d.title, d.url, if p.reportLength then Some(|d.content|) else None)
  }

  /** One iteration of the `for (const url of newsUrls)` loop. */
  function Step(p: RunPolicy, t: ArticleTable, url: string, i: nat, env: RunEnv, sourceId: nat): (r: (Outcome, ArticleTable))
    ensures t.rows.Keys <= r.1.rows.Keys
    ensures !r.0.Saved? ==> r.1 == t
  {
    if p.skipExisting && !env.existsFails(i) && url in t.rows then (Skipped, t)
    else match env.scrape(i)
      case Failure(_) => (Failed, t)
      case Success(d) =>
        if !Acceptable(p, d) || env.saveError(i).Some? then (Failed, t)
        else
          var u := Upsert(t, d, sourceId, env.clock(i));
          (Saved(Summary(p, u.1, d)), u.0)
  }

  /** The outcomes of the first `n` URLs and the table after them. */
  function RunPrefix(p: RunPolicy, t0: ArticleTable, urls: seq<string>, env: RunEnv, sourceId: nat, n: nat): (r: (seq<Outcome>, ArticleTable))
    requires n <= |urls|
    ensures |r.0| == n
  {
    if n == 0 then ([], t0)
    else
      var prev := RunPrefix(p, t0, urls, env, sourceId, n - 1);
      var step := Step(p, prev.1, urls[n - 1], n - 1, env, sourceId);
      (prev.0 + [step.0], step.1)
  }

  /** The counters and the list `run` builds from the outcomes, in order. */
  function Summarize(os: seq<Outcome>): RunReport
  {
    if |os| == 0 then RunReport(0, 0, 0, 0, [])
    else
      var r := Summarize(os[..|os| - 1]);
      match os[|os| - 1]
      case Skipped => RunReport(|os|, r.successful, r.failed, r.skipped + 1, r.articles)
      case Failed => RunReport(|os|, r.successful, r.failed + 1, r.skipped, r.articles)
      case Saved(a) => RunReport(|os|, r.successful + 1, r.failed, r.skipped, r.articles + [a])
  }

  /** One politeness delay before every URL that is not skipped. */
  function Pauses(os: seq<Outcome>, delayMs: int): (r: seq<int>)
    ensures |r| <= |os| && forall k :: 0 <= k < |r| ==> r[k] == delayMs
    ensures (forall k :: 0 <= k < |os| ==> os[k].Skipped?) ==> r == []
  {
    if |os| == 0 then []
    else Pauses(os[..|os| - 1], delayMs) + (if os[|os| - 1].Skipped? then [] else [delayMs])
  }

  /** One more URL: its outcome is `Step` on the table the earlier URLs left. */
  lemma RunStep(p: RunPolicy, t0: ArticleTable, urls: seq<string>, env: RunEnv, sourceId: nat, n: nat)
    requires n < |urls|
    ensures var prev := RunPrefix(p, t0, urls, env, sourceId, n);
      var step := Step(p, prev.1, urls[n], n, env, sourceId);
      RunPrefix(p, t0, urls, env, sourceId, n + 1) == (prev.0 + [step.0], step.1)
  {
  }

  /** Every iteration keeps the table well formed: rows under their URLs, distinct ids below the sequence. */
  lemma {:induction false} RunKeepsValid(p: RunPolicy, t0: ArticleTable, urls: seq<string>, env: RunEnv, sourceId: nat, n: nat)
    requires n <= |urls| && TableValid(t0)
    ensures TableValid(RunPrefix(p, t0, urls, env, sourceId, n).1)
  {
    if n > 0 {
      RunKeepsValid(p, t0, urls, env, sourceId, n - 1);
      RunStep(p, t0, urls, env, sourceId, n - 1);
    }
  }

  /** The counters, the list and the delays after one more outcome. */
  lemma SummarizeSnoc(os: seq<Outcome>, o: Outcome, delayMs: int)
    ensures var r := Summarize(os);
      Summarize(os + [o]) == match o
        case Skipped => RunReport(|os| + 1, r.successful, r.failed, r.skipped + 1, r.articles)
        case Failed => RunReport(|os| + 1, r.successful, r.failed + 1, r.skipped, r.articles)
        case Saved(a) => RunReport(|os| + 1, r.successful + 1, r.failed, r.skipped, r.articles + [a])
    ensures Pauses(os + [o], delayMs) == Pauses(os, delayMs) + (if o.Skipped? then [] else [delayMs])
  {
    assert (os + [o])[..|os|] == os;
  }

  /** Every URL increments exactly one counter, and `articles` has one entry per success. */
  lemma {:induction false} SummaryCounts(os: seq<Outcome>)
    ensures var r := Summarize(os);
      && r.total == |os| && r.successful + r.failed + r.skipped == r.total
      && |r.articles| == r.successful
      && |Pauses(os, 0)| == r.successful + r.failed
  {
    if |os| > 0 {
      SummaryCounts(os[..|os| - 1]);
    }
  }

  /** A policy without the existence check never reports a skipped URL. */
  lemma {:induction false} NoSkipWithoutCheck(p: RunPolicy, t0: ArticleTable, urls: seq<string>, env: RunEnv, sourceId: nat, n: nat)
    requires n <= |urls| && !p.skipExisting
    ensures Summarize(RunPrefix(p, t0, urls, env, sourceId, n).0).skipped == 0
  {
    if n > 0 {
      NoSkipWithoutCheck(p, t0, urls, env, sourceId, n - 1);
      var os := RunPrefix(p, t0, urls, env, sourceId, n).0;
      assert os[..n - 1] == RunPrefix(p, t0, urls, env, sourceId, n - 1).0;
    }
  }

  /** Later iterations only append: the first `m` outcomes of a longer run are those of the shorter one. */
  lemma {:induction false} OutcomesPrefix(p: RunPolicy, t0: ArticleTable, urls: seq<string>, env: RunEnv, sourceId: nat, m: nat, n: nat)
    requires m <= n <= |urls|
    ensures RunPrefix(p, t0, urls, env, sourceId, n).0[..m] == RunPrefix(p, t0, urls, env, sourceId, m).0
    decreases n
  {
    if m < n {
      OutcomesPrefix(p, t0, urls, env, sourceId, m, n - 1);
      var prev := RunPrefix(p, t0, urls, env, sourceId, n - 1).0;
      var os := RunPrefix(p, t0, urls, env, sourceId, n).0;
      assert os[..n - 1] == prev;
      assert os[..m] == prev[..m];
    }
  }

  /** Later iterations do not rewrite earlier outcomes: outcome `i` is `Step` on the table after `i` URLs. */
  lemma OutcomeIsStep(p: RunPolicy, t0: ArticleTable, urls: seq<string>, env: RunEnv, sourceId: nat, n: nat, i: nat)
    requires i < n <= |urls|
    ensures RunPrefix(p, t0, urls, env, sourceId, n).0[i]
         == Step(p, RunPrefix(p, t0, urls, env, sourceId, i).1, urls[i], i, env, sourceId).0
  {
    OutcomesPrefix(p, t0, urls, env, sourceId, i + 1, n);
    RunStep(p, t0, urls, env, sourceId, i);
    var os := RunPrefix(p, t0, urls, env, sourceId, n).0;
    var first := RunPrefix(p, t0, urls, env, sourceId, i + 1).0;
    assert os[i] == os[..i + 1][i] == first[i];
  }

  /** URLs already in the table stay there: the upsert never removes a row. */
  lemma {:induction false} KeysGrow(p: RunPolicy, t0: ArticleTable, urls: seq<string>, env: RunEnv, sourceId: nat, i: nat, j: nat)
    requires i <= j <= |urls|
    ensures RunPrefix(p, t0, urls, env, sourceId, i).1.rows.Keys <= RunPrefix(p, t0, urls, env, sourceId, j).1.rows.Keys
  {
    if i < j {
      KeysGrow(p, t0, urls, env, sourceId, i, j - 1);
      var prev := RunPrefix(p, t0, urls, env, sourceId, j - 1).1;
      var next := Step(p, prev, urls[j - 1], j - 1, env, sourceId).1;
      assert RunPrefix(p, t0, urls, env, sourceId, j).1 == next;
      assert prev.rows.Keys <= next.rows.Keys;
      SubsetTrans(RunPrefix(p, t0, urls, env, sourceId, i).1.rows.Keys, prev.rows.Keys, next.rows.Keys);
    }
  }

  lemma SubsetTrans<T>(a: set<T>, b: set<T>, c: set<T>)
    requires a <= b && b <= c
    ensures a <= c
  {
  }

  /**
   * A URL is skipped exactly when the policy checks existence, the query succeeds and the
   * URL is already stored; a skipped, failed or invalid URL leaves the table as it was, and
   * a URL is saved only from a draft with a title and enough content whose save succeeded.
   */
  lemma Outcomes(p: RunPolicy, t0: ArticleTable, urls: seq<string>, env: RunEnv, sourceId: nat, n: nat, i: nat)
    requires i < n <= |urls|
    ensures var t := RunPrefix(p, t0, urls, env, sourceId, i).1;
            var o := RunPrefix(p, t0, urls, env, sourceId, n).0[i];
      && (o.Skipped? <==> p.skipExisting && !env.existsFails(i) && urls[i] in t.rows)
      && (!o.Saved? ==> RunPrefix(p, t0, urls, env, sourceId, i + 1).1 == t)
      && (o.Saved? ==>
            && env.scrape(i).Success? && Acceptable(p, env.scrape(i).value) && env.saveError(i).None?
            && o.article.title == env.scrape(i).value.title && o.article.url == env.scrape(i).value.url
            && o.article.url in RunPrefix(p, t0, urls, env, sourceId, i + 1).1.rows)
  {
    OutcomeIsStep(p, t0, urls, env, sourceId, n, i);
    OutcomeIsStep(p, t0, urls, env, sourceId, i + 1, i);
  }

  /**
   * Dedup by URL within one run: once a URL has been saved, a later occurrence of it in the
   * list is skipped whenever its existence query succeeds.
   */
  lemma RepeatedUrlSkipped(p: RunPolicy, t0: ArticleTable, urls: seq<string>, env: RunEnv, sourceId: nat, n: nat, i: nat, j: nat)
    requires i < j < n <= |urls| && p.skipExisting && urls[i] == urls[j] && !env.existsFails(j)
    requires RunPrefix(p, t0, urls, env, sourceId, n).0[i].Saved?
    requires env.scrape(i).Success? && env.scrape(i).value.url == urls[i]
    ensures RunPrefix(p, t0, urls, env, sourceId, n).0[j] == Skipped
  {
    Outcomes(p, t0, urls, env, sourceId, n, i);
    KeysGrow(p, t0, urls, env, sourceId, i + 1, j);
    Outcomes(p, t0, urls, env, sourceId, n, j);
  }

  /** `idx` picks out `a` from `b` at strictly increasing positions. */
  ghost predicate SubsequenceAt(a: seq<string>, b: seq<string>, idx: seq<nat>) {
    && |idx| == |a|
    && (forall k :: 0 <= k < |idx| ==> idx[k] < |b| && a[k] == b[idx[k]])
    && (forall k, l :: 0 <= k < l < |idx| ==> idx[k] < idx[l])
  }

  function ArticleUrls(articles: seq<SavedArticle>): (r: seq<string>)
    ensures |r| == |articles| && forall k :: 0 <= k < |r| ==> r[k] == articles[k].url
  {
    seq(|articles|, k requires 0 <= k < |articles| => articles[k].url)
  }

  /**
   * When every draft carries the URL it was scraped from (as both adapters' drafts do),
   * the URLs in `articles` are a subsequence of the discovered URLs, in discovery order.
   */
  lemma {:induction false} ArticlesInDiscoveryOrder(p: RunPolicy, t0: ArticleTable, urls: seq<string>, env: RunEnv, sourceId: nat, n: nat)
    returns (idx: seq<nat>)
    requires n <= |urls|
    requires forall i :: 0 <= i < |urls| && env.scrape(i).Success? ==> env.scrape(i).value.url == urls[i]
    ensures SubsequenceAt(ArticleUrls(Summarize(RunPrefix(p, t0, urls, env, sourceId, n).0).articles), urls, idx)
    ensures forall k :: 0 <= k < |idx| ==> idx[k] < n
  {
    if n == 0 {
      idx := [];
    } else {
      idx := ArticlesInDiscoveryOrder(p, t0, urls, env, sourceId, n - 1);
      RunStep(p, t0, urls, env, sourceId, n - 1);
      var before := RunPrefix(p, t0, urls, env, sourceId, n - 1).0;
      var os := RunPrefix(p, t0, urls, env, sourceId, n).0;
      var o := os[n - 1];
      assert os == before + [o];
      SummarizeSnoc(before, o, 0);
      var articles := Summarize(before).articles;
      if o.Saved? {
        Outcomes(p, t0, urls, env, sourceId, n, n - 1);
        SavedSnoc(articles, o.article, urls, idx, n - 1);
        idx := idx + [n - 1];
      }
    }
  }

  /** A subsequence extended by an element found after all of its positions. */
  lemma SubsequenceSnoc(a: seq<string>, b: seq<string>, idx: seq<nat>, j: nat)
    requires SubsequenceAt(a, b, idx) && j < |b|
    requires forall k :: 0 <= k < |idx| ==> idx[k] < j
    ensures SubsequenceAt(a + [b[j]], b, idx + [j])
  {
  }

  /** A saved article whose URL comes after every position used so far extends the subsequence. */
  lemma SavedSnoc(articles: seq<SavedArticle>, a: SavedArticle, urls: seq<string>, idx: seq<nat>, j: nat)
    requires SubsequenceAt(ArticleUrls(articles), urls, idx) && j < |urls| && a.url == urls[j]
    requires forall k :: 0 <= k < |idx| ==> idx[k] < j
    ensures SubsequenceAt(ArticleUrls(articles + [a]), urls, idx + [j])
  {
    assert ArticleUrls(articles + [a]) == ArticleUrls(articles) + [urls[j]];
    SubsequenceSnoc(ArticleUrls(articles), urls, idx, j);
  }

  /**
   * The body of the loop of `run` for the URL at position `i`: the skip check, the delay,
   * the scrape, the validation and the save, ending in that URL's outcome.
   */
  method ProcessUrl(store: ArticleStore, p: RunPolicy, url: string, i: nat, env: RunEnv, sourceId: nat)
    returns (o: Outcome)
    requires store.Valid()
    modifies store
    ensures store.Valid()
    ensures (o, store.Table()) == Step(p, old(store.Table()), url, i, env, sourceId)
  {
    if p.skipExisting && store.ArticleExists(url, env.existsFails(i)) {
      return Skipped;
    }
    match env.scrape(i) {
      case Failure(_) =>
        o := Failed;
      case Success(d) =>
        if !Acceptable(p, d) {
          o := Failed;
        } else {
          var saved := store.SaveArticle(d, sourceId, env.saveError(i), env.clock(i));
          match saved {
            case Failure(_) =>
              o := Failed;
            case Success(id) =>
              o := Saved(Summary(p, id, d));
          }
        }
    }
  }

  /**
   * The loop of `run` over the discovered URLs: the counters, the `articles` list, the
   * table afterwards and the delays are those of `RunPrefix` over all URLs.
   */
  method ProcessUrls(store: ArticleStore, p: RunPolicy, urls: seq<string>, env: RunEnv, sourceId: nat, delayMs: int)
    returns (report: RunReport, pauses: seq<int>)
    requires store.Valid()
    modifies store
    ensures store.Valid()
    ensures var (os, t) := RunPrefix(p, old(store.Table()), urls, env, sourceId, |urls|);
      report == Summarize(os) && store.Table() == t && pauses == Pauses(os, delayMs)
  {
    ghost var t0 := store.Table();
    ghost var os: seq<Outcome> := [];
    var successful, failed, skipped := 0, 0, 0;
    var articles: seq<SavedArticle> := [];
    pauses := [];
    var i := 0;
    while i < |urls|
      invariant 0 <= i <= |urls|
      invariant store.Valid()
      invariant os == RunPrefix(p, t0, urls, env, sourceId, i).0
      invariant store.Table() == RunPrefix(p, t0, urls, env, sourceId, i).1
      invariant Summarize(os) == RunReport(i, successful, failed, skipped, articles)
      invariant pauses == Pauses(os, delayMs)
    {
      RunStep(p, t0, urls, env, sourceId, i);
      var o := ProcessUrl(store, p, urls[i], i, env, sourceId);
      SummarizeSnoc(os, o, delayMs);
      match o {
        case Skipped =>
          skipped := skipped + 1;
        case Failed =>
          failed := failed + 1;
        case Saved(a) =>
          successful := successful + 1;
          articles := articles + [a];
      }
      if !o.Skipped? {
        pauses := pauses + [delayMs];
      }
      os := os + [o];
      i := i + 1;
    }
    report := RunReport(i, successful, failed, skipped, articles);
  }

  /**
   * base-scraper.js `run(limit)`: the source lookup comes first and a failure there, or in
   * URL discovery (`discovered`), aborts the run before any URL is examined. Each pause is
   * `delay()` without an argument, so it lasts the configured `SCRAPING_DELAY_MS` or 2000.
   */
  method Run(store: ArticleStore, name: string, sourceQueryError: Option<string>,
             discovered: Result<seq<string>>, env: RunEnv, configuredDelay: Option<int>)
    returns (r: Result<RunReport>, pauses: seq<int>)
    requires store.Valid()
    modifies store
    ensures store.Valid()
    ensures store.GetSourceId(name, sourceQueryError).Failure? ==>
      r == Failure(store.GetSourceId(name, sourceQueryError).error) && pauses == [] && store.Table() == old(store.Table())
    ensures store.GetSourceId(name, sourceQueryError).Success? && discovered.Failure? ==>
      r == Failure(discovered.error) && pauses == [] && store.Table() == old(store.Table())
    ensures store.GetSourceId(name, sourceQueryError).Success? && discovered.Success? ==>
      var (os, t) := RunPrefix(BasePolicy, old(store.Table()), discovered.value, env,
                               store.GetSourceId(name, sourceQueryError).value, |discovered.value|);
      r == Success(Summarize(os)) && store.Table() == t && pauses == Pauses(os, ScrapingDelay(configuredDelay))
  {
    var sourceId := store.GetSourceId(name, sourceQueryError);
    if sourceId.Failure? {
      return Failure(sourceId.error), [];
    }
    if discovered.Failure? {
      return Failure(discovered.error), [];
    }
    var report: RunReport;
    report, pauses := ProcessUrls(store, BasePolicy, discovered.value, env, sourceId.value, ScrapingDelay(configuredDelay));
    r := Success(report);
  }
}
