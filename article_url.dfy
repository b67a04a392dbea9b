/**
 * The article-URL heuristic of the improved Daily Star scraper (`isArticleUrl`): a URL is
 * kept when one of five patterns marks it as an article and none of six patterns marks it
 * as a section page, a listing or an asset. Each regular expression is written out as a
 * predicate on the URL's characters; `$` anchors at the end of the string (no `m` flag).
 */
module ArticleUrl {
  import opened Text

  predicate IsDigit(c: char) {
    '0' <= c <= '9'
  }

  predicate AllDigits(s: string) {
    forall k :: 0 <= k < |s| ==> IsDigit(s[k])
  }

  predicate NoSlash(s: string) {
    forall k :: 0 <= k < |s| ==> s[k] != '/'
  }

  /** The characters `.` does not match without the `s` flag. */
  predicate IsLineTerminator(c: char) {
    c == '\n' || c == '\r' || c == '\U{2028}' || c == '\U{2029}'
  }

  predicate NoLineTerminator(s: string) {
    forall k :: 0 <= k < |s| ==> !IsLineTerminator(s[k])
  }

  /** `/\/\d{4}\/\d{2}\/\d{2}\//` matching at position `i`. */
  predicate DateAt(s: string, i: nat) {
    && i + 12 <= |s|
    && s[i] == '/' && IsDigit(s[i + 1]) && IsDigit(s[i + 2]) && IsDigit(s[i + 3]) && IsDigit(s[i + 4])
    && s[i + 5] == '/' && IsDigit(s[i + 6]) && IsDigit(s[i + 7])
    && s[i + 8] == '/' && IsDigit(s[i + 9]) && IsDigit(s[i + 10])
    && s[i + 11] == '/'
  }

  predicate HasDatePath(s: string) {
    exists i :: 0 <= i <= |s| - 12 && DateAt(s, i)
  }

  /** `/-\d{6,}$/`: a hyphen followed by at least six digits up to the end. */
  predicate HasLongIdSuffix(s: string) {
    exists j :: 0 <= j <= |s| - 7 && s[j] == '-' && AllDigits(s[j + 1..])
  }

  /**
   * `/\/news\/.*\/[^\/]+$/` with `/news/` at `i` and the last `/` at `j`: the text between
   * has no line terminator, and a non-empty final segment without `/` follows.
   */
  predicate NewsSlugAt(s: string, i: nat, j: nat) {
    && OccursAt(s, "/news/", i)
    && i + 6 <= j < |s| - 1 && s[j] == '/'
    && NoLineTerminator(s[i + 6..j])
    && NoSlash(s[j + 1..])
  }

  predicate HasNewsSlug(s: string) {
    exists i: nat, j: nat :: i <= j < |s| && NewsSlugAt(s, i, j)
  }

  /** `/\/city\/[^\/]+$/` and `/\/politics\/[^\/]+$/`: `/section/` then a final segment. */
  predicate SectionSlugAt(s: string, section: string, i: nat) {
    && OccursAt(s, "/" + section + "/", i)
    && i + |section| + 2 < |s|
    && NoSlash(s[i + |section| + 2..])
  }

  predicate HasSectionSlug(s: string, section: string) {
    exists i: nat :: i < |s| && SectionSlugAt(s, section, i)
  }

  predicate HasIndicator(url: string) {
    || HasDatePath(url)
    || HasLongIdSuffix(url)
    || HasNewsSlug(url)
    || HasSectionSlug(url, "city")
    || HasSectionSlug(url, "politics")
  }

  const SectionNames: seq<string> := ["news", "city", "politics", "business", "sports"]

  /** `/\/(news|city|politics|business|sports)\/?$/`. */
  predicate IsSectionPage(url: string) {
    exists k :: 0 <= k < |SectionNames| &&
      (EndsWith(url, "/" + SectionNames[k]) || EndsWith(url, "/" + SectionNames[k] + "/"))
  }

  /** `/\/tags\//`, `/\/search\//`, `/\/author\//`, `/\/category\//`. */
  predicate IsListing(url: string) {
    Contains(url, "/tags/") || Contains(url, "/search/") || Contains(url, "/author/") || Contains(url, "/category/")
  }

  const AssetExtensions: seq<string> := ["jpg", "jpeg", "png", "gif", "pdf", "css", "js"]

  /** `/\.(jpg|jpeg|png|gif|pdf|css|js)$/i`; the `i` flag folds ASCII letters only. */
  predicate IsAsset(url: string) {
    exists k :: 0 <= k < |AssetExtensions| && EndsWith(LowerAscii(url), "." + AssetExtensions[k])
  }

  predicate IsArticleUrl(url: string) {
    HasIndicator(url) && !(IsSectionPage(url) || IsListing(url) || IsAsset(url))
  }

  /** The `i`-th character of a suffix `w` of `s`. */
  lemma SuffixChar(s: string, w: string, i: int)
    ensures EndsWith(s, w) && 0 <= i < |w| ==> s[|s| - |w| + i] == w[i]
  {
    if EndsWith(s, w) && 0 <= i < |w| {
      assert s[|s| - |w|..][i] == s[|s| - |w| + i];
    }
  }

  /** A URL whose last segment is a slug is not a section page unless the slug is a section name. */
  lemma SlugNotSectionPage(url: string, slug: string)
    requires EndsWith(url, "/" + slug) && |slug| > 0 && NoSlash(slug) && slug !in SectionNames
    ensures !IsSectionPage(url)
  {
    var n := |url|;
    forall k | 0 <= k < |SectionNames|
      ensures !EndsWith(url, "/" + SectionNames[k]) && !EndsWith(url, "/" + SectionNames[k] + "/")
    {
      var name := SectionNames[k];
      assert NoSlash(name) && name != slug;
      var w := "/" + name;
      if |w| <= |slug| {
        // the '/' that starts `w` would fall inside the slug
        SuffixChar(url, w, 0);
        SuffixChar(url, "/" + slug, |slug| + 1 - |w|);
      } else if |w| == |slug| + 1 {
        // both would be the same last |w| characters, yet they differ after the '/'
        assert w[1..] == name && ("/" + slug)[1..] == slug;
        assert w != "/" + slug;
        assert url[n - |w|..] == "/" + slug;
      } else {
        // the '/' before the slug would fall inside `name`
        SuffixChar(url, w, |w| - |slug| - 1);
        SuffixChar(url, "/" + slug, 0);
      }
      var v := "/" + name + "/";
      SuffixChar(url, v, |v| - 1);
      SuffixChar(url, "/" + slug, |slug|);
    }
  }

  /** A URL whose last segment has no `.` does not end in an asset extension. */
  lemma SlugNotAsset(url: string, slug: string)
    requires EndsWith(url, "/" + slug) && NoSlash(slug) && forall k :: 0 <= k < |slug| ==> slug[k] != '.'
    ensures !IsAsset(url)
  {
    var n := |url|;
    var low := LowerAscii(url);
    forall k | 0 <= k < |AssetExtensions|
      ensures !EndsWith(low, "." + AssetExtensions[k])
    {
      var w := "." + AssetExtensions[k];
      if |w| <= |slug| {
        // the '.' would fall inside the slug
        SuffixChar(low, w, 0);
        SuffixChar(url, "/" + slug, |slug| + 1 - |w|);
      } else {
        // the '/' before the slug would fall inside the extension
        assert NoSlash(w);
        SuffixChar(low, w, |w| - |slug| - 1);
        SuffixChar(url, "/" + slug, 0);
      }
    }
  }

  /**
   * `base + "/news/" + path + "/" + slug` is an article URL when the path has no line
   * terminator, the slug is a non-empty final segment without `.` that is not itself a
   * section name, and the URL is not a listing.
   */
  lemma NewsSlugAccepted(base: string, path: string, slug: string)
    requires NoLineTerminator(path)
    requires |slug| > 0 && NoSlash(slug) && slug !in SectionNames && forall k :: 0 <= k < |slug| ==> slug[k] != '.'
    requires !IsListing(base + "/news/" + path + "/" + slug)
    ensures IsArticleUrl(base + "/news/" + path + "/" + slug)
  {
    var url := base + "/news/" + path + "/" + slug;
    var i := |base|;
    var j := |base| + 6 + |path|;
    assert url[i..i + 6] == "/news/";
    assert url[i + 6..j] == path;
    assert url[j] == '/';
    assert url[j + 1..] == slug;
    assert NewsSlugAt(url, i, j);
    assert url[|url| - |slug| - 1..] == "/" + slug;
    SlugNotSectionPage(url, slug);
    SlugNotAsset(url, slug);
  }

  /** `stem + "-" + id` with at least six digits in `id` is an article URL unless it is a listing. */
  lemma LongIdAccepted(stem: string, id: string)
    requires |id| >= 6 && AllDigits(id)
    requires !IsListing(stem + "-" + id)
    ensures IsArticleUrl(stem + "-" + id)
  {
    var url := stem + "-" + id;
    var n := |url|;
    assert url[|stem|] == '-' && url[|stem| + 1..] == id;
    assert IsDigit(url[n - 1]);
    forall k | 0 <= k < |SectionNames|
      ensures !EndsWith(url, "/" + SectionNames[k]) && !EndsWith(url, "/" + SectionNames[k] + "/")
    {
      var w1 := "/" + SectionNames[k];
      var w2 := "/" + SectionNames[k] + "/";
      assert !IsDigit(w1[|w1| - 1]) && !IsDigit(w2[|w2| - 1]);
      SuffixChar(url, w1, |w1| - 1);
      SuffixChar(url, w2, |w2| - 1);
    }
    forall k | 0 <= k < |AssetExtensions|
      ensures !EndsWith(LowerAscii(url), "." + AssetExtensions[k])
    {
      var w := "." + AssetExtensions[k];
      assert !IsDigit(w[|w| - 1]) && LowerAscii(url)[n - 1] == url[n - 1];
      SuffixChar(LowerAscii(url), w, |w| - 1);
    }
  }

  /** The five section roots, with or without a trailing slash, are never article URLs. */
  lemma SectionRootsRejected(base: string, k: nat)
    requires k < |SectionNames|
    ensures !IsArticleUrl(base + "/" + SectionNames[k])
    ensures !IsArticleUrl(base + "/" + SectionNames[k] + "/")
  {
    var name := SectionNames[k];
    var u := base + "/" + name;
    assert u[|u| - |"/" + name|..] == "/" + name;
    var v := base + "/" + name + "/";
    assert v[|v| - |"/" + name + "/"|..] == "/" + name + "/";
  }

  /** Case does not matter for asset extensions: `photo.JPG` is rejected like `photo.jpg`. */
  lemma AssetRejected(stem: string, ext: string, k: nat)
    requires k < |AssetExtensions| && LowerAscii(ext) == AssetExtensions[k]
    ensures !IsArticleUrl(stem + "." + ext)
  {
    var url := stem + "." + ext;
    var w := "." + AssetExtensions[k];
    assert LowerAscii(url)[|url| - |w|..] == w by {
      forall m | 0 <= m < |w|
        ensures LowerAscii(url)[|url| - |w|..][m] == w[m]
      {
        if m > 0 {
          assert url[|stem| + m] == ext[m - 1];
          assert LowerAscii(ext)[m - 1] == LowerChar(ext[m - 1]);
        }
      }
    }
  }
}
