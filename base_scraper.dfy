/**
 * The shared scraper machinery of backend/scrapers/base-scraper.js: source lookup, the
 * existence check and the upsert on the `news_articles` table, the retrying request,
 * the text and date normalisers, and the per-URL loop of `run`.
 *
 * The database is an `ArticleStore` object whose `rows` map is keyed by the unique URL
 * column. The network, the clock, the date parser and the adapter's `scrapeArticle`
 * are parameters (oracles); a thrown error is `Failure(message)`.
 */
module BaseScraper {
  import opened Wrappers
  import opened Text
  import opened Seqs

  /** A clock reading; "now" is always supplied by the caller. */
  type Time = int

  /** What an adapter's `scrapeArticle` hands to the orchestrator. */
  datatype ArticleDraft = ArticleDraft(
    title: string, content: string, author: string, publishedAt: Time, url: string, language: string)

  /**
   * One `news_articles` row. `updatedAt` is `None` until an upsert hits an existing row
   * (the insert relies on a column default).
   */
  datatype ArticleRow = ArticleRow(
    id: nat, sourceId: nat, title: string, content: string, author: string,
    publishedAt: Time, url: string, language: string, updatedAt: Option<Time>)

  /** The table as a value: rows keyed by URL and the next value of the id sequence. */
  datatype ArticleTable = ArticleTable(rows: map<string, ArticleRow>, nextId: nat)

  /** Each row sits under its own URL, ids are below the sequence and pairwise distinct. */
  ghost predicate TableValid(t: ArticleTable) {
    && (forall u :: u in t.rows ==> t.rows[u].url == u && t.rows[u].id < t.nextId)
    && (forall u, v :: u in t.rows && v in t.rows && u != v ==> t.rows[u].id != t.rows[v].id)
  }

  /** The row a fresh insert writes: the draft's columns, the given source, no `updated_at`. */
  function NewRow(id: nat, d: ArticleDraft, sourceId: nat): ArticleRow {
    ArticleRow(id, sourceId, d.title, d.content, d.author, d.publishedAt, d.url, d.language, None)
  }

  /**
   * `INSERT ... ON CONFLICT (url) DO UPDATE SET title, content, author, published_at,
   * updated_at`: the new table and the id `RETURNING` yields.
   */
  function Upsert(t: ArticleTable, d: ArticleDraft, sourceId: nat, now: Time): (r: (ArticleTable, nat))
    ensures TableValid(t) ==> TableValid(r.0)
    ensures r.0.rows.Keys == t.rows.Keys + {d.url}
    ensures forall u :: u in t.rows && u != d.url ==> r.0.rows[u] == t.rows[u]
    ensures r.0.rows[d.url].id == r.1
    ensures d.url !in t.rows ==>
      r.0.rows[d.url] == NewRow(t.nextId, d, sourceId) && r.0.nextId == t.nextId + 1 && r.1 == t.nextId
    ensures d.url in t.rows ==> r.0.nextId == t.nextId && r.1 == t.rows[d.url].id
  {
    if d.url in t.rows then
      var old_ := t.rows[d.url];
      var row := old_.(title := d.title, content := d.content, author := d.author,
                       publishedAt := d.publishedAt, updatedAt := Some(now));
      (t.(rows := t.rows[d.url := row]), old_.id)
    else
      (ArticleTable(t.rows[d.url := NewRow(t.nextId, d, sourceId)], t.nextId + 1), t.nextId)
  }

  /** A second upsert of a URL adds no row and keeps the id, the source and the language of the first. */
  lemma UpsertExistingKeepsIdentity(t: ArticleTable, d: ArticleDraft, sourceId: nat, now: Time)
    requires d.url in t.rows
    ensures var (t', id) := Upsert(t, d, sourceId, now);
      && |t'.rows| == |t.rows| && t'.nextId == t.nextId && id == t.rows[d.url].id
      && t'.rows[d.url].sourceId == t.rows[d.url].sourceId
      && t'.rows[d.url].language == t.rows[d.url].language
      && t'.rows[d.url].title == d.title && t'.rows[d.url].content == d.content
      && t'.rows[d.url].author == d.author && t'.rows[d.url].publishedAt == d.publishedAt
      && t'.rows[d.url].updatedAt == Some(now)
  {
    var (t', id) := Upsert(t, d, sourceId, now);
    assert t'.rows.Keys == t.rows.Keys;
  }

  /**
   * Round trip: upserting the same URL twice leaves exactly one row for it, carrying the
   * second draft's fields, and the existence check then reports it.
   */
  lemma UpsertTwiceKeepsLast(t: ArticleTable, d1: ArticleDraft, d2: ArticleDraft, s1: nat, s2: nat, now1: Time, now2: Time)
    requires d1.url == d2.url && d1.url !in t.rows
    ensures var (t1, id1) := Upsert(t, d1, s1, now1);
            var (t2, id2) := Upsert(t1, d2, s2, now2);
      && |t2.rows| == |t.rows| + 1 && id2 == id1
      && d2.url in t2.rows && t2.rows[d2.url].title == d2.title && t2.rows[d2.url].content == d2.content
      && t2.rows[d2.url].sourceId == s1 && t2.rows[d2.url].language == d1.language
  {
    var (t1, id1) := Upsert(t, d1, s1, now1);
    assert |t1.rows.Keys| == |t.rows.Keys| + 1;
    UpsertExistingKeepsIdentity(t1, d2, s2, now2);
  }

  /** The `news_articles` and `news_sources` tables behind the scraper's connection pool. */
  class ArticleStore {
    var rows: map<string, ArticleRow>
    var nextId: nat
    /** `news_sources`: name to id; the pipeline never writes it. */
    const sources: map<string, nat>

    function Table(): ArticleTable
      reads this
    {
      ArticleTable(rows, nextId)
    }

    ghost predicate Valid()
      reads this
    {
      TableValid(Table())
    }

    constructor (sources: map<string, nat>)
      ensures Valid() && rows == map[] && this.sources == sources
    {
      this.sources := sources;
      rows := map[];
      nextId := 1;
    }

    /**
     * `getSourceId`: the id of the named source; a missing name and a failed query
     * (`queryError`) both throw.
     */
    function GetSourceId(name: string, queryError: Option<string>): (r: Result<nat>)
      ensures r.Success? <==> queryError.None? && name in sources
      ensures r.Success? ==> r.value == sources[name]
      ensures queryError.None? && name !in sources ==>
        r == Failure("News source '" + name + "' not found in database")
    {
      if queryError.Some? then Failure(queryError.value)
      else if name !in sources then Failure("News source '" + name + "' not found in database")
      else Success(sources[name])
    }

    /** `articleExists`: fails open, so a failed query reports "not present". */
    function ArticleExists(url: string, queryFails: bool): (b: bool)
      reads this
      ensures b <==> !queryFails && url in rows
      ensures queryFails ==> !b
    {
      if queryFails then false else url in rows
    }

    /** `saveArticle`: the upsert keyed on the draft's URL; a failed query throws and changes nothing. */
    method SaveArticle(d: ArticleDraft, sourceId: nat, queryError: Option<string>, now: Time) returns (r: Result<nat>)
      requires Valid()
      modifies this
      ensures Valid()
      ensures queryError.Some? ==> r == Failure(queryError.value) && Table() == old(Table())
      ensures queryError.None? ==> (Table(), r) == (Upsert(old(Table()), d, sourceId, now).0, Success(Upsert(old(Table()), d, sourceId, now).1))
    {
      if queryError.Some? {
        return Failure(queryError.value);
      }
      var (t, id) := Upsert(Table(), d, sourceId, now);
      rows, nextId := t.rows, t.nextId;
      r := Success(id);
    }
  }

  // ---------------------------------------------------------------------------
  // makeRequest
  // ---------------------------------------------------------------------------

  /** What `makeRequest` ends with: a response, the last error rethrown, or `undefined` when no attempt was made. */
  datatype Attempted<R> = Responded(response: R) | Threw(error: string) | NoAttempt

  /** The waits after failed attempts 0 .. k-1: `1000 * (i + 1)` milliseconds each. */
  function Backoff(k: nat): (r: seq<nat>)
    ensures |r| == k && forall i :: 0 <= i < k ==> r[i] == 1000 * (i + 1)
  {
    seq(k, i => 1000 * (i + 1))
  }

  /**
   * `makeRequest(url, retries)`: `attempt(i)` is what `axios.get` does on attempt `i`.
   * Returns the outcome, the number of attempts made and the waits in between.
   */
  method MakeRequest<R>(attempt: nat -> Result<R>, retries: int) returns (r: Attempted<R>, made: nat, waits: seq<nat>)
    ensures retries <= 0 ==> r == NoAttempt && made == 0 && waits == []
    ensures retries > 0 ==> 1 <= made <= retries && (r.Responded? || r.Threw?)
    ensures forall j :: 0 <= j < made - 1 ==> attempt(j).Failure?
    ensures r.Responded? ==> attempt(made - 1) == Success(r.response) && waits == Backoff(made - 1)
    ensures r.Threw? ==> made == retries && attempt(made - 1) == Failure(r.error) && waits == Backoff(made - 1)
  {
    r, made, waits := NoAttempt, 0, [];
    var i := 0;
    while i < retries
      invariant 0 <= i && made == i
      invariant retries > 0 ==> i < retries
      invariant retries <= 0 ==> i == 0
      invariant forall j :: 0 <= j < i ==> attempt(j).Failure?
      invariant waits == Backoff(i) && r == NoAttempt
    {
      made := i + 1;
      match attempt(i) {
        case Success(resp) =>
          return Responded(resp), made, waits;
        case Failure(e) =>
          if i == retries - 1 {
            return Threw(e), made, waits;
          }
          waits := waits + [1000 * (i + 1)];
      }
      i := i + 1;
    }
  }

  // ---------------------------------------------------------------------------
  // cleanText and parseDate
  // ---------------------------------------------------------------------------

  /** `s.replace(/\s+/g, ' ')`: every maximal whitespace run becomes one space. */
  function CollapseSpaces(s: string): (r: string)
    decreases |s|
    ensures Spaced(r)
    ensures |r| > 0 && IsSpace(r[0]) ==> |s| > 0 && IsSpace(s[0])
  {
    if |s| == 0 then ""
    else if IsSpace(s[0]) then
      var rest := TrimStart(s);
      assert |rest| < |s|;
      var tail := CollapseSpaces(rest);
      SpacedCons(' ', tail);
      [' '] + tail
    else
      var tail := CollapseSpaces(s[1..]);
      SpacedCons(s[0], tail);
      [s[0]] + tail
  }

  /** Where the whitespace run that starts at `k` ends. */
  function RunEnd(s: string, k: nat): (e: nat)
    requires k <= |s|
    ensures k <= e <= |s| && forall j :: k <= j < e ==> IsSpace(s[j])
  {
    var t := TrimStart(s[k..]);
    assert forall j :: k <= j < |s| - |t| ==> s[k..][j - k] == s[j];
    |s| - |t|
  }

  /** The last `'\n'` in `s[lo..hi]`, if any. */
  function LastNewline(s: string, lo: nat, hi: nat): (r: Option<nat>)
    requires lo <= hi <= |s|
    decreases hi - lo
    ensures r.Some? ==> lo <= r.value < hi && s[r.value] == '\n'
  {
    if lo == hi then None
    else if s[hi - 1] == '\n' then Some(hi - 1)
    else LastNewline(s, lo, hi - 1)
  }

  /**
   * `s.replace(/\n\s*\n/g, '\n\n')`: at a newline, the greedy `\s*` runs to the end of
   * the whitespace run and backs off to its last newline.
   */
  function CollapseBlankLines(s: string): (r: string)
    decreases |s|
    ensures |r| <= |s|
  {
    if |s| == 0 then ""
    else if s[0] == '\n' then
      match LastNewline(s, 1, RunEnd(s, 1))
      case Some(k) => "\n\n" + CollapseBlankLines(s[k + 1..])
      case None => "\n" + CollapseBlankLines(s[1..])
    else [s[0]] + CollapseBlankLines(s[1..])
  }

  /** A string without newlines is left alone by the blank-line pass. */
  lemma {:induction false} CollapseBlankLinesNoNewline(s: string)
    requires forall k :: 0 <= k < |s| ==> s[k] != '\n'
    ensures CollapseBlankLines(s) == s
  {
    if |s| > 0 {
      CollapseBlankLinesNoNewline(s[1..]);
    }
  }

  /** Single spaces only, none doubled. */
  predicate Spaced(s: string) {
    && (forall k :: 0 <= k < |s| && IsSpace(s[k]) ==> s[k] == ' ')
    && (forall k :: 0 <= k < |s| - 1 ==> !DoubleSpaceAt(s, k))
  }

  /** Whitespace at `k` and again at `k + 1`. */
  predicate DoubleSpaceAt(s: string, k: int)
    requires 0 <= k < |s| - 1
  {
    IsSpace(s[k]) && IsSpace(s[k + 1])
  }

  /** Single spaces only, none doubled, none at either end. */
  predicate IsClean(s: string) {
    Spaced(s) && (s != [] ==> !IsSpace(s[0]) && !IsSpace(s[|s| - 1]))
  }

  /** `cleanText(text)`: `''` for a falsy argument (`None` is null/undefined), otherwise the three passes. */
  function CleanText(text: Option<string>): (r: string)
    ensures text.None? || text == Some("") ==> r == ""
    ensures IsClean(r)
    ensures text.Some? && text.value != "" ==> r == Trim(CollapseSpaces(text.value))
  {
    if text.None? || text.value == "" then ""
    else
      var a := CollapseSpaces(text.value);
      CollapseBlankLinesNoNewline(a);
      TrimKeepsSpacing(a);
      Trim(CollapseBlankLines(a))
  }

  /** Trimming a string with single, undoubled spaces leaves a clean string. */
  lemma TrimKeepsSpacing(a: string)
    requires Spaced(a)
    ensures IsClean(Trim(a))
  {
    var t := TrimStart(a);
    SpacedSlice(a, |a| - |t|, |a|);
    assert a[|a| - |t|..|a|] == t;
    var r := TrimEnd(t);
    SpacedSlice(t, 0, |r|);
  }

  /** A slice of a string with single, undoubled spaces has them too. */
  lemma SpacedSlice(s: string, lo: nat, hi: nat)
    requires Spaced(s) && lo <= hi <= |s|
    ensures Spaced(s[lo..hi])
  {
    var t := s[lo..hi];
    forall k | 0 <= k < |t| - 1
      ensures !DoubleSpaceAt(t, k)
    {
      assert t[k] == s[lo + k] && t[k + 1] == s[lo + k + 1];
      assert !DoubleSpaceAt(s, lo + k);
    }
  }

  /** A character in front of a string with single, undoubled spaces keeps it so, unless both are whitespace. */
  lemma SpacedCons(c: char, s: string)
    requires Spaced(s) && (IsSpace(c) ==> c == ' ' && (s == [] || !IsSpace(s[0])))
    ensures Spaced([c] + s)
  {
    var t := [c] + s;
    forall k | 0 <= k < |t| - 1
      ensures !DoubleSpaceAt(t, k)
    {
      if k > 0 {
        assert t[k] == s[k - 1] && t[k + 1] == s[k];
        assert !DoubleSpaceAt(s, k - 1);
      }
    }
  }

  /** Collapsing a string that already has only single, undoubled spaces changes nothing. */
  lemma {:induction false} CollapseSpacesKeeps(s: string)
    requires Spaced(s)
    ensures CollapseSpaces(s) == s
  {
    if |s| > 0 {
      if IsSpace(s[0]) {
        if |s| > 1 {
          assert !DoubleSpaceAt(s, 0);
        }
        assert TrimStart(s) == s[1..] by {
          if |s| > 1 { TrimStartKeeps(s[1..]); }
        }
      }
      SpacedSlice(s, 1, |s|);
      assert s[1..|s|] == s[1..];
      CollapseSpacesKeeps(s[1..]);
    }
  }

  /** Dropping a whitespace run from the front of `w + rest` leaves `rest` when it starts with a non-space. */
  lemma {:induction false} TrimStartRun(w: string, rest: string)
    requires forall k :: 0 <= k < |w| ==> IsSpace(w[k])
    requires rest == [] || !IsSpace(rest[0])
    ensures TrimStart(w + rest) == rest
    decreases |w|
  {
    if |w| == 0 {
      assert w + rest == rest;
      TrimStartKeeps(rest);
    } else {
      assert (w + rest)[1..] == w[1..] + rest;
      TrimStartRun(w[1..], rest);
    }
  }

  /** A non-empty whitespace run in front of a non-space becomes a single space. */
  lemma CollapseSpacesRun(w: string, rest: string)
    requires |w| > 0 && forall k :: 0 <= k < |w| ==> IsSpace(w[k])
    requires rest == [] || !IsSpace(rest[0])
    ensures CollapseSpaces(w + rest) == [' '] + CollapseSpaces(rest)
  {
    assert (w + rest)[0] == w[0];
    TrimStartRun(w, rest);
  }

  /** A non-space character is kept as it is. */
  lemma CollapseSpacesWord(c: char, rest: string)
    requires !IsSpace(c)
    ensures CollapseSpaces([c] + rest) == [c] + CollapseSpaces(rest)
  {
    assert ([c] + rest)[1..] == rest;
  }

  /**
   * The whitespace pass works piecewise: cutting a string anywhere except inside a
   * whitespace run, the two pieces collapse independently. With `CollapseSpacesRun` and
   * `CollapseSpacesWord` this determines the result on every input: the non-space
   * characters survive in order and each maximal whitespace run becomes one space.
   */
  lemma {:induction false} CollapseSpacesSplit(a: string, b: string)
    requires a == [] || b == [] || !IsSpace(a[|a| - 1]) || !IsSpace(b[0])
    ensures CollapseSpaces(a + b) == CollapseSpaces(a) + CollapseSpaces(b)
    decreases |a|
  {
    if |a| == 0 {
      assert a + b == b;
    } else if !IsSpace(a[0]) {
      CollapseSpacesSplit(a[1..], b);
      SplitWordStep(a[0], a[1..], b);
      assert a == [a[0]] + a[1..];
    } else {
      var w, rest := LeadingRun(a);
      if |rest| == 0 {
        assert a == w;
        SplitRunStep(w, b);
      } else {
        CollapseSpacesSplit(rest, b);
        SplitRunRestStep(w, rest, b);
      }
    }
  }

  /** A string starting with whitespace is a whitespace run followed by the rest. */
  lemma LeadingRun(a: string) returns (w: string, rest: string)
    requires |a| > 0 && IsSpace(a[0])
    ensures a == w + rest && |w| > 0
    ensures forall k :: 0 <= k < |w| ==> IsSpace(w[k])
    ensures rest == [] || !IsSpace(rest[0])
  {
    rest := TrimStart(a);
    w := a[..|a| - |rest|];
    assert a == w + rest;
  }

  lemma SplitWordStep(c: char, t: string, b: string)
    requires !IsSpace(c)
    requires CollapseSpaces(t + b) == CollapseSpaces(t) + CollapseSpaces(b)
    ensures CollapseSpaces([c] + t + b) == CollapseSpaces([c] + t) + CollapseSpaces(b)
  {
    calc {
      CollapseSpaces([c] + t + b);
      { PrependAssoc(c, t, b); }
      CollapseSpaces([c] + (t + b));
      { CollapseSpacesWord(c, t + b); }
      [c] + (CollapseSpaces(t) + CollapseSpaces(b));
      { PrependAssoc(c, CollapseSpaces(t), CollapseSpaces(b)); }
      [c] + CollapseSpaces(t) + CollapseSpaces(b);
      { CollapseSpacesWord(c, t); }
      CollapseSpaces([c] + t) + CollapseSpaces(b);
    }
  }

  /** A string of whitespace only collapses to one space. */
  lemma CollapseSpacesBlank(w: string)
    requires |w| > 0 && forall k :: 0 <= k < |w| ==> IsSpace(w[k])
    ensures CollapseSpaces(w) == [' ']
  {
    CollapseSpacesRun(w, []);
    assert w + [] == w;
  }

  /** The whole of `a` is one whitespace run `w`, and `b` does not continue it. */
  lemma SplitRunStep(w: string, b: string)
    requires |w| > 0 && forall k :: 0 <= k < |w| ==> IsSpace(w[k])
    requires b == [] || !IsSpace(b[0])
    ensures CollapseSpaces(w + b) == CollapseSpaces(w) + CollapseSpaces(b)
  {
    CollapseSpacesBlank(w);
    CollapseSpacesRun(w, b);
  }

  lemma SplitRunRestStep(w: string, rest: string, b: string)
    requires |w| > 0 && forall k :: 0 <= k < |w| ==> IsSpace(w[k])
    requires |rest| > 0 && !IsSpace(rest[0])
    requires CollapseSpaces(rest + b) == CollapseSpaces(rest) + CollapseSpaces(b)
    ensures CollapseSpaces(w + rest + b) == CollapseSpaces(w + rest) + CollapseSpaces(b)
  {
    RunBeforeJoin(w, rest, b);
    CollapseSpacesRun(w, rest);
    PrependAssoc(' ', CollapseSpaces(rest), CollapseSpaces(b));
  }

  lemma PrependAssoc(c: char, x: string, y: string)
    ensures [c] + (x + y) == [c] + x + y
  {
  }

  lemma RunBeforeJoin(w: string, rest: string, b: string)
    requires |w| > 0 && forall k :: 0 <= k < |w| ==> IsSpace(w[k])
    requires |rest| > 0 && !IsSpace(rest[0])
    ensures CollapseSpaces(w + rest + b) == [' '] + CollapseSpaces(rest + b)
  {
    assert w + rest + b == w + (rest + b);
    assert (rest + b)[0] == rest[0];
    CollapseSpacesRun(w, rest + b);
  }

  /** `cleanText` is idempotent. */
  lemma CleanTextIdempotent(text: Option<string>)
    ensures CleanText(Some(CleanText(text))) == CleanText(text)
  {
    var c := CleanText(text);
    if c != "" {
      CleanTextKeepsClean(c);
    }
  }

  /** A clean, non-empty string passes through `cleanText` unchanged. */
  lemma CleanTextKeepsClean(c: string)
    requires IsClean(c) && c != ""
    ensures CleanText(Some(c)) == c
  {
    CollapseSpacesKeeps(c);
    SpacedNoNewline(c);
    CollapseBlankLinesNoNewline(c);
    TrimKeeps(c);
  }

  /** Whitespace in a string with single spaces is only ever `' '`, so there is no newline. */
  lemma SpacedNoNewline(s: string)
    requires Spaced(s)
    ensures forall k :: 0 <= k < |s| ==> s[k] != '\n'
  {
    forall k | 0 <= k < |s|
      ensures s[k] != '\n'
    {
      if s[k] == '\n' {
        assert IsSpace(s[k]);
      }
    }
  }

  /**
   * `parseDate(dateString)`: `parse` is `new Date(s)` with an invalid date as `None`.
   * Never fails; a falsy or unparseable string gives `now`.
   */
  function ParseDate(dateString: Option<string>, now: Time, parse: string -> Option<Time>): (r: Time)
    ensures dateString.None? || dateString == Some("") ==> r == now
    ensures dateString.Some? && parse(dateString.value).None? ==> r == now
    ensures r == now || (dateString.Some? && parse(dateString.value) == Some(r))
    ensures dateString.Some? && dateString.value != "" && parse(dateString.value).Some? ==> r == parse(dateString.value).value
  {
    if dateString.None? || dateString.value == "" then now
    else match parse(dateString.value)
      case None => now
      case Some(t) => t
  }

  /** `delay()` with no argument: `parseInt(SCRAPING_DELAY_MS) || 2000`; `None` is NaN. */
  function ScrapingDelay(configured: Option<int>): (ms: int)
    ensures configured.Some? && configured.value != 0 ==> ms == configured.value
    ensures configured.None? || configured.value == 0 ==> ms == 2000
    ensures ms != 0
  {
    if configured.Some? && configured.value != 0 then configured.value else 2000
  }
}
