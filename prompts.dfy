/**
 * Prompt construction: the article's fields are substituted into a template by a chain of
 * `String.prototype.replace` calls with string patterns, each replacing only the first
 * occurrence of its placeholder in the text built so far. The template text itself is a
 * parameter; what matters here is where the placeholders sit.
 */
module Prompts {
  import opened Wrappers
  import opened Text

  /** An article row as the AI modules receive it; `None` is a null or missing column. */
  datatype ArticleInput = ArticleInput(
    id: int,
    title: Option<string>,
    content: Option<string>,
    source: Option<string>,
    publishedAt: Option<string>)

  /** `field || ""`. */
  function OrEmpty(field: Option<string>): (r: string)
    ensures field.Some? ==> r == field.value
    ensures field.None? ==> r == ""
  {
    if field.Some? then field.value else ""
  }

  const ClassificationHoles: seq<string> := ["{title}", "{content}", "{source}", "{date}"]
  const LocationHoles: seq<string> := ["{title}", "{content}"]

  /** The values substituted into the classification prompt (title, content, source, date). */
  function ClassificationValues(a: ArticleInput): (r: seq<string>)
    ensures |r| == |ClassificationHoles|
    ensures r[0] == OrEmpty(a.title) && r[1] == OrEmpty(a.content)
    ensures r[2] == OrEmpty(a.source) && r[3] == OrEmpty(a.publishedAt)
  {
    [OrEmpty(a.title), OrEmpty(a.content), OrEmpty(a.source), OrEmpty(a.publishedAt)]
  }

  /** The values substituted into the location prompt (title, content). */
  function LocationValues(a: ArticleInput): (r: seq<string>)
    ensures |r| == |LocationHoles|
    ensures r[0] == OrEmpty(a.title) && r[1] == OrEmpty(a.content)
  {
    [OrEmpty(a.title), OrEmpty(a.content)]
  }

  /** `template.replace(holes[0], vals[0]).replace(holes[1], vals[1])...`. */
  function Fill(template: string, holes: seq<string>, vals: seq<string>): (r: string)
    requires |holes| == |vals|
    decreases |holes|
    ensures (forall k :: 0 <= k < |holes| ==> !Contains(template, holes[k])) ==> r == template
  {
    if |holes| == 0 then template
    else Fill(ReplaceFirst(template, holes[0], vals[0]), holes[1..], vals[1..])
  }

  predicate NoBrace(s: string) {
    forall k :: 0 <= k < |s| ==> s[k] != '{'
  }

  lemma NoBraceConcat(a: string, b: string)
    requires NoBrace(a) && NoBrace(b)
    ensures NoBrace(a + b)
  {
    forall k | 0 <= k < |a + b|
      ensures (a + b)[k] != '{'
    {
      if k < |a| {
        assert (a + b)[k] == a[k];
      } else {
        assert (a + b)[k] == b[k - |a|];
      }
    }
  }

  /** Proof step of `FillLayout` and `FillFour`: moves the text already filled in to the front. */
  lemma Regroup(a: string, b: string, c: string, d: string)
    ensures a + b + c + d == a + (b + c + d)
  {
  }

  /** `pieces[0] + parts[0] + pieces[1] + parts[1] + ... + pieces[|parts|]`. */
  function Interleave(pieces: seq<string>, parts: seq<string>): string
    requires |pieces| == |parts| + 1
  {
    if |parts| == 0 then pieces[0]
    else pieces[0] + parts[0] + Interleave(pieces[1..], parts[1..])
  }

  /** A placeholder preceded by brace-free text is found exactly there and replaced. */
  lemma ReplaceAtFirstBrace(pre: string, hole: string, post: string, rep: string)
    requires NoBrace(pre) && |hole| > 0 && hole[0] == '{' && NoDollar(rep)
    ensures ReplaceFirst(pre + hole + post, hole, rep) == pre + rep + post
  {
    var s := pre + hole + post;
    assert OccursAt(s, hole, |pre|) by {
      assert s[|pre|..|pre| + |hole|] == hole;
    }
    var i := IndexOf(s, hole);
    forall j | 0 <= j < |pre|
      ensures !OccursAt(s, hole, j)
    {
      assert s[j] == pre[j];
      assert s[j..j + |hole|][0] == s[j] by {
        if j + |hole| <= |s| {
          assert s[j..j + |hole|][0] == s[j];
        }
      }
    }
    assert i.Some? && i.value == |pre|;
    assert s[..|pre|] == pre;
    assert s[|pre| + |hole|..] == post;
  }

  /**
   * When the template is the placeholders interleaved with brace-free text, and the values
   * contain no brace and no `$`, the chain puts each value exactly where its placeholder was.
   */
  lemma {:induction false} FillLayout(done: string, pieces: seq<string>, holes: seq<string>, vals: seq<string>)
    requires |pieces| == |holes| + 1 && |holes| == |vals|
    requires NoBrace(done)
    requires forall k :: 0 <= k < |holes| ==> |holes[k]| > 0 && holes[k][0] == '{' && NoBrace(pieces[k])
    requires forall k :: 0 <= k < |vals| ==> NoBrace(vals[k]) && NoDollar(vals[k])
    ensures Fill(done + Interleave(pieces, holes), holes, vals) == done + Interleave(pieces, vals)
    decreases |holes|
  {
    if |holes| == 0 {
    } else {
      var pre := done + pieces[0];
      var rest := Interleave(pieces[1..], holes[1..]);
      assert done + Interleave(pieces, holes) == pre + holes[0] + rest;
      assert |holes[0]| > 0 && holes[0][0] == '{' && NoBrace(pieces[0]);
      assert NoBrace(vals[0]) && NoDollar(vals[0]);
      NoBraceConcat(done, pieces[0]);
      ReplaceAtFirstBrace(pre, holes[0], rest, vals[0]);
      var done' := pre + vals[0];
      NoBraceConcat(pre, vals[0]);
      assert forall k :: 0 <= k < |holes[1..]| ==> holes[1..][k] == holes[k + 1] && pieces[1..][k] == pieces[k + 1];
      assert forall k :: 0 <= k < |vals[1..]| ==> vals[1..][k] == vals[k + 1];
      FillLayout(done', pieces[1..], holes[1..], vals[1..]);
      var tail := Interleave(pieces[1..], vals[1..]);
      assert Interleave(pieces, vals) == pieces[0] + vals[0] + tail;
      Regroup(done, pieces[0], vals[0], tail);
    }
  }

  /** Proof step of `FillFour`: the four-placeholder layout written out piece by piece. */
  lemma InterleaveFour(p: seq<string>, v: seq<string>)
    requires |p| == 5 && |v| == 4
    ensures Interleave(p, v) == p[0] + v[0] + p[1] + v[1] + p[2] + v[2] + p[3] + v[3] + p[4]
  {
    var p1, p2, p3, p4 := p[1..], p[2..], p[3..], p[4..];
    var v1, v2, v3, v4 := v[1..], v[2..], v[3..], v[4..];
    assert p1[1..] == p2 && p2[1..] == p3 && p3[1..] == p4;
    assert v1[1..] == v2 && v2[1..] == v3 && v3[1..] == v4;
    var t4 := Interleave(p4, v4);
    var t3 := Interleave(p3, v3);
    var t2 := Interleave(p2, v2);
    var t1 := Interleave(p1, v1);
    assert t4 == p[4];
    assert t3 == p[3] + v[3] + t4;
    assert t2 == p[2] + v[2] + t3;
    assert t1 == p[1] + v[1] + t2;
    assert Interleave(p, v) == p[0] + v[0] + t1;
    var l1 := p[0] + v[0];
    Regroup(l1, p[1], v[1], t2);
    var l2 := l1 + p[1] + v[1];
    Regroup(l2, p[2], v[2], t3);
    var l3 := l2 + p[2] + v[2];
    Regroup(l3, p[3], v[3], t4);
  }

  /** Every placeholder starts with a brace. */
  predicate Holes(holes: seq<string>) {
    forall k :: 0 <= k < |holes| ==> |holes[k]| > 0 && holes[k][0] == '{'
  }

  lemma PlaceholdersAreHoles()
    ensures Holes(ClassificationHoles) && Holes(LocationHoles)
  {
  }

  /** The chain on a four-placeholder layout puts the four values in the four places. */
  lemma FillFour(pieces: seq<string>, holes: seq<string>, vals: seq<string>)
    requires |pieces| == 5 && |holes| == 4 && |vals| == 4 && Holes(holes)
    requires forall k :: 0 <= k < 4 ==> NoBrace(pieces[k]) && NoBrace(vals[k]) && NoDollar(vals[k])
    ensures Fill(Interleave(pieces, holes), holes, vals)
         == pieces[0] + vals[0] + pieces[1] + vals[1] + pieces[2] + vals[2] + pieces[3] + vals[3] + pieces[4]
  {
    FillLayout("", pieces, holes, vals);
    assert "" + Interleave(pieces, holes) == Interleave(pieces, holes);
    assert "" + Interleave(pieces, vals) == Interleave(pieces, vals);
    InterleaveFour(pieces, vals);
  }

  /** Proof step of `MissingFieldsEmpty`: empty values vanish from the filled layout. */
  lemma DropEmpty(p: seq<string>, v: seq<string>)
    requires |p| == 5 && |v| == 4 && v[0] == "" && v[1] == "" && v[2] == "" && v[3] == ""
    ensures p[0] + v[0] + p[1] + v[1] + p[2] + v[2] + p[3] + v[3] + p[4] == p[0] + p[1] + p[2] + p[3] + p[4]
  {
  }

  /**
   * Missing fields become empty text: for a template laid out around four placeholders,
   * as the classification template is, an article with no title, content, source or date
   * yields the template with the placeholders removed.
   */
  lemma MissingFieldsEmpty(pieces: seq<string>, holes: seq<string>, a: ArticleInput)
    requires |pieces| == 5 && |holes| == 4 && Holes(holes)
    requires forall k :: 0 <= k < 4 ==> NoBrace(pieces[k])
    requires a.title.None? && a.content.None? && a.source.None? && a.publishedAt.None?
    ensures Fill(Interleave(pieces, holes), holes, ClassificationValues(a))
         == pieces[0] + pieces[1] + pieces[2] + pieces[3] + pieces[4]
  {
    var vals := ClassificationValues(a);
    assert vals[0] == "" && vals[1] == "" && vals[2] == "" && vals[3] == "";
    FillFour(pieces, holes, vals);
    DropEmpty(pieces, vals);
  }

  /**
   * The chain works on the text built so far: when the title is itself the second
   * placeholder (say `{content}`), the first step copies that placeholder into the title's
   * place, the second step fills it with the content, and the template's own second
   * placeholder is left in the prompt.
   */
  lemma TitleCapturesPlaceholder(pieces: seq<string>, holes: seq<string>, content: string)
    requires |pieces| == 3 && |holes| == 2 && Holes(holes) && NoBrace(pieces[0]) && NoDollar(content)
    requires NoDollar(holes[1])
    ensures Fill(Interleave(pieces, holes), holes, [holes[1], content])
         == pieces[0] + content + pieces[1] + holes[1] + pieces[2]
  {
    var s := Interleave(pieces, holes);
    var rest := pieces[1] + holes[1] + pieces[2];
    assert Interleave(pieces[2..], []) == pieces[2];
    assert Interleave(pieces[1..], holes[1..]) == rest by {
      assert pieces[1..][1..] == pieces[2..];
      assert holes[1..][1..] == [];
    }
    assert s == pieces[0] + holes[0] + rest;
    ReplaceAtFirstBrace(pieces[0], holes[0], rest, holes[1]);
    var t := pieces[0] + holes[1] + rest;
    ReplaceAtFirstBrace(pieces[0], holes[1], rest, content);
    assert Fill(s, holes, [holes[1], content]) == Fill(t, holes[1..], [content]);
    assert Fill(t, holes[1..], [content]) == Fill(pieces[0] + content + rest, [], []);
  }
}
