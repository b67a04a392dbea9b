/** Helpers on lists of strings (URL lists): duplicate-freedom, `[...new Set(xs)]` and `xs.slice(0, n)`. */
module Seqs {

  predicate NoDup(s: seq<string>) {
    forall i, j :: 0 <= i < j < |s| ==> s[i] != s[j]
  }

  /** `[...new Set(s)]`: every element once, at the place of its first occurrence. */
  function Dedup(s: seq<string>): (r: seq<string>)
    ensures NoDup(r)
    ensures forall x: string :: x in r <==> x in s
    ensures |r| <= |s|
  {
    if |s| == 0 then []
    else
      var d := Dedup(s[..|s| - 1]);
      assert forall x: string :: x in s <==> x in s[..|s| - 1] || x == s[|s| - 1];
      if s[|s| - 1] in d then d else d + [s[|s| - 1]]
  }

  /** A sequence without duplicates is left as it is by `Dedup`. */
  lemma {:induction false} DedupOfNoDup(s: seq<string>)
    requires NoDup(s)
    ensures Dedup(s) == s
  {
    if |s| > 0 {
      DedupOfNoDup(s[..|s| - 1]);
      assert s[|s| - 1] !in s[..|s| - 1];
      assert s == s[..|s| - 1] + [s[|s| - 1]];
    }
  }

  /** First-seen order: what `Dedup` makes of a prefix is a prefix of what it makes of the whole. */
  lemma {:induction false} DedupPrefix(s: seq<string>, t: seq<string>)
    ensures |Dedup(s)| <= |Dedup(s + t)| && Dedup(s + t)[..|Dedup(s)|] == Dedup(s)
  {
    if |t| > 0 {
      var u := s + t[..|t| - 1];
      assert (s + t)[..|s + t| - 1] == u;
      DedupPrefix(s, t[..|t| - 1]);
    } else {
      assert s + t == s;
    }
  }

  /** Adding one element to the end: `Dedup` keeps it only when it is new. */
  lemma DedupSnoc(s: seq<string>, x: string)
    ensures Dedup(s + [x]) == if x in s then Dedup(s) else Dedup(s) + [x]
  {
    assert (s + [x])[..|s|] == s;
  }

  /** Two lists with the same `Dedup` keep it when the same element is added to both, or to one that already holds it. */
  lemma DedupExtend(acc: seq<string>, all: seq<string>, x: string)
    requires Dedup(acc) == Dedup(all)
    ensures Dedup(acc + [x]) == Dedup(all + [x])
    ensures x in acc ==> Dedup(acc) == Dedup(all + [x])
  {
    DedupSnoc(acc, x);
    DedupSnoc(all, x);
  }

  /** JavaScript's `s.slice(0, limit)`; a negative limit counts from the end. */
  function Slice0(s: seq<string>, limit: int): (r: seq<string>)
    ensures limit >= 0 ==> |r| == (if limit < |s| then limit else |s|)
    ensures limit < 0 ==> |r| == (if |s| + limit > 0 then |s| + limit else 0)
    ensures r == s[..|r|]
  {
    if limit >= 0 then (if limit < |s| then s[..limit] else s)
    else if |s| + limit > 0 then s[..|s| + limit]
    else []
  }

  lemma SliceKeepsNoDup(s: seq<string>, limit: int)
    requires NoDup(s)
    ensures NoDup(Slice0(s, limit))
  {
  }
}
