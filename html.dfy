/**
 * A parsed page as the scrapers query it with cheerio, and the selector-fallback chains
 * they run over it.
 *
 * A `Document` maps each selector the scrapers use to the elements it matches, in document
 * order; `"a"` lists every anchor, and the attribute-substring selectors
 * (`a[href*="/news/"]`, ...) are derived from it.
 */
module Html {
  import opened Wrappers
  import opened Text

  /** An element's text content and the two attributes the scrapers read (absent = `None`). */
  datatype Element = Element(text: string, href: Option<string>, datetime: Option<string>)

  type Document = map<string, seq<Element>>

  /** `$(selector)`. */
  function Select(doc: Document, selector: string): (r: seq<Element>)
    ensures selector !in doc ==> r == []
  {
    if selector in doc then doc[selector] else []
  }

  /** JavaScript truthiness of an attribute value: present and not the empty string. */
  predicate Truthy(a: Option<string>) {
    a.Some? && a.value != ""
  }

  /** `$(selector).text()`: the text of all matches, concatenated. */
  function AllText(doc: Document, selector: string): string {
    var els := Select(doc, selector);
    Concat(seq(|els|, k requires 0 <= k < |els| => els[k].text))
  }

  /** `$(selector).first().text().trim()`, or `None` when nothing matches (`.length === 0`). */
  function FirstText(doc: Document, selector: string): (r: Option<string>)
    ensures r.None? <==> |Select(doc, selector)| == 0
    ensures r.Some? ==> r.value == Trim(Select(doc, selector)[0].text)
  {
    var els := Select(doc, selector);
    if |els| == 0 then None else Some(Trim(els[0].text))
  }

  /** `$(selector).map((i, el) => $(el).text().trim()).get()`. */
  function TrimmedTexts(els: seq<Element>): (r: seq<string>)
    ensures |r| == |els| && forall k :: 0 <= k < |els| ==> r[k] == Trim(els[k].text)
  {
    seq(|els|, k requires 0 <= k < |els| => Trim(els[k].text))
  }

  /** `.filter(text => text.length > min)`: keeps, in order, the strings longer than `min`. */
  function LongerThan(texts: seq<string>, min: nat): (r: seq<string>)
    ensures |r| <= |texts|
    ensures forall x :: x in r ==> |x| > min && x in texts
    ensures forall x :: x in texts && |x| > min ==> x in r
  {
    if |texts| == 0 then []
    else
      var rest := LongerThan(texts[1..], min);
      assert forall x :: x in texts ==> x == texts[0] || x in texts[1..];
      if |texts[0]| > min then [texts[0]] + rest else rest
  }

  /** One text is kept exactly when it is longer than `min`. */
  lemma LongerThanSingle(x: string, min: nat)
    ensures LongerThan([x], min) == if |x| > min then [x] else []
  {
    assert [x][1..] == [];
  }

  /**
   * The filter works element by element: filtering a concatenation is concatenating the
   * filtered parts. With `LongerThanSingle` this fixes the order and the multiplicity of
   * the kept texts.
   */
  lemma {:induction false} LongerThanAppend(a: seq<string>, b: seq<string>, min: nat)
    ensures LongerThan(a + b, min) == LongerThan(a, min) + LongerThan(b, min)
    decreases |a|
  {
    if |a| == 0 {
      assert a + b == b;
    } else {
      assert (a + b)[0] == a[0];
      assert (a + b)[1..] == a[1..] + b;
      LongerThanAppend(a[1..], b, min);
    }
  }

  /** `.first()` date candidate: `attr('datetime') || text().trim()`, or `None` when nothing matches. */
  function DateText(doc: Document, selector: string): (r: Option<string>)
    ensures r.None? <==> |Select(doc, selector)| == 0
  {
    var els := Select(doc, selector);
    if |els| == 0 then None
    else if Truthy(els[0].datetime) then Some(els[0].datetime.value)
    else Some(Trim(els[0].text))
  }

  /** A candidate that ends an overwrite chain: present and longer than `min`. */
  predicate Long(c: Option<string>, min: nat) {
    c.Some? && |c.value| > min
  }

  /**
   * A selector loop that overwrites its variable with every present candidate and stops at
   * the first one longer than `min` (`if (x.length > min) break;`), starting from `cur`.
   * The result is the first long candidate; failing that, the last present one; failing
   * that, `cur`.
   */
  function Overwrite(cands: seq<Option<string>>, min: nat, cur: string): (r: string)
    ensures forall k :: 0 <= k < |cands| && Long(cands[k], min) && (forall l :: 0 <= l < k ==> !Long(cands[l], min))
              ==> r == cands[k].value
    ensures (forall k :: 0 <= k < |cands| ==> !Long(cands[k], min)) ==>
              || (r == cur && forall k :: 0 <= k < |cands| ==> cands[k].None?)
              || (exists k :: 0 <= k < |cands| && cands[k].Some? && r == cands[k].value
                    && forall l :: k < l < |cands| ==> cands[l].None?)
  {
    if |cands| == 0 then cur
    else
      var rest := Overwrite(cands[1..], min, if cands[0].Some? then cands[0].value else cur);
      assert forall k :: 1 <= k < |cands| ==> cands[k] == cands[1..][k - 1];
      if Long(cands[0], min) then cands[0].value else rest
  }

  /** A selector loop that takes the first present candidate and stops (`break` on `.length > 0`). */
  function FirstPresent(cands: seq<Option<string>>): (r: Option<string>)
    ensures r.None? <==> forall k :: 0 <= k < |cands| ==> cands[k].None?
    ensures r.Some? ==> exists k :: 0 <= k < |cands| && cands[k] == r && forall l :: 0 <= l < k ==> cands[l].None?
  {
    if |cands| == 0 then None
    else if cands[0].Some? then cands[0]
    else
      var r := FirstPresent(cands[1..]);
      assert forall k :: 1 <= k < |cands| ==> cands[k] == cands[1..][k - 1];
      assert r.Some? ==> exists k :: 1 <= k < |cands| && cands[k] == r && forall l :: 0 <= l < k ==> cands[l].None?;
      r
  }

  /** A candidate whose text `new Date(...)` accepts. */
  predicate Parses(c: Option<string>, parse: string -> Option<int>) {
    c.Some? && parse(c.value).Some?
  }

  /**
   * The date loop: the first present candidate that parses to a valid date wins;
   * candidates that do not parse are passed over.
   */
  function FirstParsed(cands: seq<Option<string>>, parse: string -> Option<int>): (r: Option<int>)
    ensures r.None? <==> forall k :: 0 <= k < |cands| ==> !Parses(cands[k], parse)
    ensures r.Some? ==> exists k :: (0 <= k < |cands| && Parses(cands[k], parse) && r == parse(cands[k].value)
              && forall l :: 0 <= l < k ==> !Parses(cands[l], parse))
  {
    if |cands| == 0 then None
    else if Parses(cands[0], parse) then parse(cands[0].value)
    else
      var r := FirstParsed(cands[1..], parse);
      assert forall k :: 1 <= k < |cands| ==> cands[k] == cands[1..][k - 1];
      assert r.Some? ==> exists k :: (1 <= k < |cands| && Parses(cands[k], parse) && r == parse(cands[k].value)
              && forall l :: 0 <= l < k ==> !Parses(cands[l], parse));
      r
  }

  /** `href.startsWith('http') ? href : baseUrl + href`. */
  function FullUrl(baseUrl: string, href: string): (r: string)
    ensures StartsWith(href, "http") ==> r == href
    ensures EndsWith(r, href)
    ensures StartsWith(baseUrl, "http") ==> StartsWith(r, "http")
  {
    if StartsWith(href, "http") then href else baseUrl + href
  }

  /** A substring of `href` survives in the absolute URL built from it. */
  lemma FullUrlKeepsSubstring(baseUrl: string, href: string, p: string)
    requires Contains(href, p)
    ensures Contains(FullUrl(baseUrl, href), p)
  {
    if !StartsWith(href, "http") {
      var i :| 0 <= i <= |href| - |p| && OccursAt(href, p, i);
      assert (baseUrl + href)[|baseUrl| + i..|baseUrl| + i + |p|] == href[i..i + |p|];
      assert OccursAt(baseUrl + href, p, |baseUrl| + i);
    }
  }

  /** One iteration of an overwrite chain, seen from the remaining candidates. */
  lemma OverwriteStep(cands: seq<Option<string>>, min: nat, cur: string, k: nat)
    requires k < |cands|
    ensures Overwrite(cands[k..], min, cur)
         == if Long(cands[k], min) then cands[k].value
            else Overwrite(cands[k + 1..], min, if cands[k].Some? then cands[k].value else cur)
  {
    assert cands[k..][1..] == cands[k + 1..];
  }

  lemma FirstPresentStep(cands: seq<Option<string>>, k: nat)
    requires k < |cands|
    ensures FirstPresent(cands[k..]) == if cands[k].Some? then cands[k] else FirstPresent(cands[k + 1..])
  {
    assert cands[k..][1..] == cands[k + 1..];
  }

  /** The candidate that parses before any other is the one whose date is taken. */
  lemma {:induction false} FirstParsedAt(cands: seq<Option<string>>, parse: string -> Option<int>, k: nat)
    requires k < |cands| && Parses(cands[k], parse)
    requires forall l :: 0 <= l < k ==> !Parses(cands[l], parse)
    ensures FirstParsed(cands, parse) == parse(cands[k].value)
    decreases k
  {
    if k > 0 {
      assert !Parses(cands[0], parse);
      var rest := cands[1..];
      assert rest[k - 1] == cands[k];
      assert forall l :: 0 <= l < k - 1 ==> rest[l] == cands[l + 1];
      FirstParsedAt(rest, parse, k - 1);
    }
  }

  lemma FirstParsedIsFirst(cands: seq<Option<string>>, parse: string -> Option<int>)
    ensures forall k :: 0 <= k < |cands| && Parses(cands[k], parse) && (forall l :: 0 <= l < k ==> !Parses(cands[l], parse))
              ==> FirstParsed(cands, parse) == parse(cands[k].value)
  {
    forall k | 0 <= k < |cands| && Parses(cands[k], parse) && (forall l :: 0 <= l < k ==> !Parses(cands[l], parse))
      ensures FirstParsed(cands, parse) == parse(cands[k].value)
    {
      FirstParsedAt(cands, parse, k);
    }
  }

  lemma FirstParsedStep(cands: seq<Option<string>>, parse: string -> Option<int>, k: nat)
    requires k < |cands|
    ensures FirstParsed(cands[k..], parse)
         == if Parses(cands[k], parse) then parse(cands[k].value) else FirstParsed(cands[k + 1..], parse)
  {
    assert cands[k..][1..] == cands[k + 1..];
  }

  /** The author selectors both Daily Star scrapers try, in order. */
  const AuthorSelectors: seq<string> := [".author", ".byline", ".writer", "[class*=\"author\"]"]

  /** The date selectors both Daily Star scrapers try, in order. */
  const DateSelectors: seq<string> := [".publish-date", ".date", ".published", "[datetime]", "time"]

  /** What a selector loop sees on `doc`: the candidate `cand` gives for each selector, in order. */
  function SelectorCandidates(doc: Document, sels: seq<string>, cand: (Document, string) -> Option<string>): (r: seq<Option<string>>)
    ensures |r| == |sels| && forall k :: 0 <= k < |r| ==> r[k] == cand(doc, sels[k])
  {
    seq(|sels|, k requires 0 <= k < |sels| => cand(doc, sels[k]))
  }

  /**
   * Overwrite's first-long case read back in terms of the selectors: the first selector whose
   * candidate is long wins. A proof step for the title and content loops.
   */
  lemma FirstLongCandidate(doc: Document, sels: seq<string>, cand: (Document, string) -> Option<string>,
                           min: nat, cur: string, r: string)
    requires r == Overwrite(SelectorCandidates(doc, sels, cand), min, cur)
    ensures forall k :: 0 <= k < |sels| && Long(cand(doc, sels[k]), min)
              && (forall l :: 0 <= l < k ==> !Long(cand(doc, sels[l]), min))
              ==> r == cand(doc, sels[k]).value
  {
    var cs := SelectorCandidates(doc, sels, cand);
    forall k | 0 <= k < |sels| && Long(cand(doc, sels[k]), min) && (forall l :: 0 <= l < k ==> !Long(cand(doc, sels[l]), min))
      ensures r == cand(doc, sels[k]).value
    {
      assert forall l :: 0 <= l < k ==> !Long(cs[l], min);
    }
  }

  function AuthorCandidates(doc: Document): (r: seq<Option<string>>)
    ensures |r| == |AuthorSelectors| && forall k :: 0 <= k < |r| ==> r[k] == FirstText(doc, AuthorSelectors[k])
  {
    SelectorCandidates(doc, AuthorSelectors, FirstText)
  }

  function DateCandidates(doc: Document): (r: seq<Option<string>>)
    ensures |r| == |DateSelectors| && forall k :: 0 <= k < |r| ==> r[k] == DateText(doc, DateSelectors[k])
  {
    SelectorCandidates(doc, DateSelectors, DateText)
  }

  /**
   * The author: the trimmed text of the first element of the first author selector that
   * matches anything, even when that text is empty; `""` when none matches.
   */
  function AuthorOf(doc: Document): (r: string)
    ensures (forall k :: 0 <= k < |AuthorSelectors| ==> |Select(doc, AuthorSelectors[k])| == 0) ==> r == ""
    ensures forall k :: 0 <= k < |AuthorSelectors| && |Select(doc, AuthorSelectors[k])| > 0
              && (forall l :: 0 <= l < k ==> |Select(doc, AuthorSelectors[l])| == 0)
              ==> r == Trim(Select(doc, AuthorSelectors[k])[0].text)
  {
    var cands := AuthorCandidates(doc);
    match FirstPresent(cands)
    case None => ""
    case Some(a) => a
  }

  /**
   * The publication date: the first date selector whose first element's `datetime`
   * attribute (or, when that is absent or empty, its trimmed text) parses; `now` otherwise.
   */
  function PublishedAt(doc: Document, now: int, parse: string -> Option<int>): (r: int)
    ensures (forall k :: 0 <= k < |DateSelectors| ==> !Parses(DateText(doc, DateSelectors[k]), parse)) ==> r == now
    ensures forall k :: 0 <= k < |DateSelectors| && Parses(DateText(doc, DateSelectors[k]), parse)
              && (forall l :: 0 <= l < k ==> !Parses(DateText(doc, DateSelectors[l]), parse))
              ==> r == parse(DateText(doc, DateSelectors[k]).value).value
  {
    var cands := DateCandidates(doc);
    FirstParsedIsFirst(cands, parse);
    match FirstParsed(cands, parse)
    case None => now
    case Some(t) => t
  }

  /** The author loop of both Daily Star `scrapeArticle`s. */
  method ExtractAuthor(doc: Document) returns (author: string)
    ensures author == AuthorOf(doc)
  {
    ghost var cands := AuthorCandidates(doc);
    author := "";
    var k := 0;
    while k < |AuthorSelectors|
      invariant 0 <= k <= |AuthorSelectors|
      invariant FirstPresent(cands[k..]) == FirstPresent(cands)
      invariant author == ""
    {
      FirstPresentStep(cands, k);
      var els := Select(doc, AuthorSelectors[k]);
      assert cands[k] == FirstText(doc, AuthorSelectors[k]);
      if |els| > 0 {
        author := Trim(els[0].text);
        assert FirstPresent(cands) == Some(author);
        break;
      }
      k := k + 1;
    }
    if k == |AuthorSelectors| {
      assert cands[k..] == [];
    }
  }

  /** The publication date is read off the date candidates. */
  lemma PublishedAtFromCandidates(doc: Document, now: int, parse: string -> Option<int>)
    ensures var f := FirstParsed(DateCandidates(doc), parse);
      PublishedAt(doc, now, parse) == if f.Some? then f.value else now
  {
  }

  /** The date loop of both Daily Star `scrapeArticle`s; `now` stands for `new Date()`. */
  method ExtractPublishedAt(doc: Document, now: int, parse: string -> Option<int>) returns (publishedAt: int)
    ensures publishedAt == PublishedAt(doc, now, parse)
  {
    ghost var cands := DateCandidates(doc);
    PublishedAtFromCandidates(doc, now, parse);
    publishedAt := now;
    var k := 0;
    while k < |DateSelectors|
      invariant 0 <= k <= |DateSelectors|
      invariant FirstParsed(cands[k..], parse) == FirstParsed(cands, parse)
      invariant publishedAt == now
    {
      FirstParsedStep(cands, parse, k);
      assert cands[k] == DateText(doc, DateSelectors[k]);
      var els := Select(doc, DateSelectors[k]);
      if |els| > 0 {
        var dateText := if Truthy(els[0].datetime) then els[0].datetime.value else Trim(els[0].text);
        assert cands[k] == Some(dateText);
        var parsed := parse(dateText);
        if parsed.Some? {
          publishedAt := parsed.value;
          break;
        }
      }
      assert !Parses(cands[k], parse);
      k := k + 1;
    }
    if k == |DateSelectors| {
      assert cands[k..] == [];
    }
  }
}
