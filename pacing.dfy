/**
 * The bookkeeping the three AI batch runners share: articles are taken in consecutive
 * groups of `size`, each group is followed by one progress report and, unless it is the
 * last, by a pause of `delayMs` when that is positive; every article yields one result
 * entry, a success or a captured error.
 */
module Pacing {
  import opened Wrappers
  import opened Json
  import opened Prompts

  function Min(a: int, b: int): (r: int)
    ensures r <= a && r <= b && (r == a || r == b)
  {
    if a <= b then a else b
  }

  /** `ceil(n / size)`: how many times a loop `for (i = 0; i < n; i += size)` runs. */
  function NumGroups(n: nat, size: nat): nat
    requires size > 0
  {
    (n + size - 1) / size
  }

  /** One pass of a batch loop: the report handed to `onProgress`, then the pause taken, if any. */
  datatype Group<P> = Group(progress: P, pause: Option<int>)

  /**
   * The passes of the loop from group start `i` on, where `marks[p]` is the progress report
   * made once the first `p` articles are done.
   */
  function Schedule<P>(n: nat, size: nat, delayMs: int, marks: seq<P>, i: nat): (r: seq<Group<P>>)
    requires size > 0 && |marks| == n + 1
    decreases n - i
    ensures |r| == 0 <==> i >= n
  {
    if i >= n then []
    else
      [Group(marks[Min(i + size, n)], if i + size < n && delayMs > 0 then Some(delayMs) else None)]
      + Schedule(n, size, delayMs, marks, i + size)
  }

  /** One pass of the loop, as the source's condition states its pause. */
  lemma ScheduleStep<P>(n: nat, size: nat, delayMs: int, marks: seq<P>, i: nat)
    requires size > 0 && |marks| == n + 1 && i < n
    ensures Schedule(n, size, delayMs, marks, i)
         == [Group(marks[Min(i + size, n)], if i + size < n && delayMs > 0 then Some(delayMs) else None)]
            + Schedule(n, size, delayMs, marks, i + size)
  {
  }

  /** Proof step of the trace lemmas (`ScheduleAdvance`, the location loops): one pass moves from the rest to the trace. */
  lemma Associate<T>(a: seq<T>, b: seq<T>, c: seq<T>)
    ensures (a + b) + c == a + (b + c)
  {
  }

  /** The passes made so far, followed by the rest of the schedule, are the whole schedule. */
  lemma ScheduleAdvance<P>(trace: seq<Group<P>>, n: nat, size: nat, delayMs: int, marks: seq<P>, i: nat)
    requires size > 0 && |marks| == n + 1 && i < n
    requires trace + Schedule(n, size, delayMs, marks, i) == Schedule(n, size, delayMs, marks, 0)
    ensures var g := Group(marks[Min(i + size, n)], if i + size < n && delayMs > 0 then Some(delayMs) else None);
      (trace + [g]) + Schedule(n, size, delayMs, marks, i + size) == Schedule(n, size, delayMs, marks, 0)
  {
    var g := Group(marks[Min(i + size, n)], if i + size < n && delayMs > 0 then Some(delayMs) else None);
    ScheduleStep(n, size, delayMs, marks, i);
    Associate(trace, [g], Schedule(n, size, delayMs, marks, i + size));
  }

  lemma MulAtLeast(k: int, b: int)
    requires k >= 1 && b > 0
    ensures k * b >= b
  {
    assert k * b == (k - 1) * b + b;
  }

  /** Euclidean division has one quotient. */
  lemma DivUnique(y: int, b: int, q: int, r: int)
    requires b > 0 && y == q * b + r && 0 <= r < b
    ensures y / b == q
  {
    var q', r' := y / b, y % b;
    assert y == q' * b + r';
    if q > q' {
      MulAtLeast(q - q', b);
    } else if q < q' {
      MulAtLeast(q' - q, b);
    }
  }

  lemma DivStep(x: nat, b: nat)
    requires b > 0
    ensures (x + b) / b == x / b + 1
  {
    var q, r := x / b, x % b;
    assert x == q * b + r;
    assert x + b == (q + 1) * b + r;
    DivUnique(x + b, b, q + 1, r);
  }

  lemma DivOne(x: nat, b: nat)
    requires 0 < b <= x < 2 * b
    ensures x / b == 1
  {
    DivUnique(x, b, 1, x - b);
  }

  /**
   * The passes in closed form: there are `ceil((n - i) / size)` of them, pass `g` reports
   * the first `min(i + (g + 1) * size, n)` articles done, and every pass but the last is
   * followed by the pause when the delay is positive.
   */
  lemma {:induction false} ScheduleShape<P>(n: nat, size: nat, delayMs: int, marks: seq<P>, i: nat)
    requires size > 0 && |marks| == n + 1
    ensures |Schedule(n, size, delayMs, marks, i)| == (if i < n then NumGroups(n - i, size) else 0)
    ensures forall g :: 0 <= g < |Schedule(n, size, delayMs, marks, i)| ==>
      Schedule(n, size, delayMs, marks, i)[g].progress == marks[Min(i + (g + 1) * size, n)]
    ensures forall g :: 0 <= g < |Schedule(n, size, delayMs, marks, i)| ==>
      Schedule(n, size, delayMs, marks, i)[g].pause
        == (if g + 1 < |Schedule(n, size, delayMs, marks, i)| && delayMs > 0 then Some(delayMs) else None)
    decreases n - i
  {
    if i < n {
      var r := Schedule(n, size, delayMs, marks, i);
      var rest := Schedule(n, size, delayMs, marks, i + size);
      ScheduleShape(n, size, delayMs, marks, i + size);
      assert r == [r[0]] + rest;
      if i + size < n {
        DivStep(n - i - 1, size);
        assert NumGroups(n - i, size) == NumGroups(n - (i + size), size) + 1;
      } else {
        DivOne(n - i + size - 1, size);
      }
      forall g | 0 < g < |r|
        ensures r[g].progress == marks[Min(i + (g + 1) * size, n)]
      {
        assert r[g] == rest[g - 1];
        assert i + size + (g - 1 + 1) * size == i + (g + 1) * size;
      }
    }
  }

  /** The last progress report counts every article. */
  lemma {:induction false} LastReportComplete<P>(n: nat, size: nat, delayMs: int, marks: seq<P>, i: nat)
    requires size > 0 && |marks| == n + 1 && i < n
    ensures |Schedule(n, size, delayMs, marks, i)| > 0
    ensures Schedule(n, size, delayMs, marks, i)[|Schedule(n, size, delayMs, marks, i)| - 1].progress == marks[n]
    decreases n - i
  {
    var r := Schedule(n, size, delayMs, marks, i);
    var rest := Schedule(n, size, delayMs, marks, i + size);
    var g := Group(marks[Min(i + size, n)], if i + size < n && delayMs > 0 then Some(delayMs) else None);
    ScheduleStep(n, size, delayMs, marks, i);
    assert r == [g] + rest;
    if i + size < n {
      LastReportComplete(n, size, delayMs, marks, i + size);
      assert r[|r| - 1] == rest[|rest| - 1];
    } else {
      assert rest == [];
      assert r[|r| - 1] == g && Min(i + size, n) == n;
    }
  }

  /** One result entry per article: `{article_id, success, result}` or `{article_id, success, error}`. */
  datatype BatchEntry = BatchEntry(articleId: int, outcome: Result<map<string, JsValue>>)

  /** `{article_id, error}`, as collected in a runner's error list. */
  datatype ErrorEntry = ErrorEntry(articleId: int, error: string)

  /**
   * The single-article step a runner applies: `step(k, a)` is the outcome of processing
   * article `a` at position `k` of the batch.
   */
  type Step = (nat, ArticleInput) -> Result<map<string, JsValue>>

  /** The result entry of every article, in input order. */
  function EntriesOf(articles: seq<ArticleInput>, step: Step): (r: seq<BatchEntry>)
    ensures |r| == |articles|
  {
    seq(|articles|, (k: int) requires 0 <= k < |articles| => BatchEntry(articles[k].id, step(k, articles[k])))
  }

  /** Entry `k` is article `k`'s id with its outcome. */
  lemma EntryAt(articles: seq<ArticleInput>, step: Step, k: nat)
    requires k < |articles|
    ensures EntriesOf(articles, step)[k] == BatchEntry(articles[k].id, step(k, articles[k]))
  {
  }

  /** `results.filter(r => r.success).length`. */
  function CountSuccess(entries: seq<BatchEntry>): (r: nat)
    ensures r <= |entries|
  {
    if |entries| == 0 then 0
    else CountSuccess(entries[..|entries| - 1]) + (if entries[|entries| - 1].outcome.Success? then 1 else 0)
  }

  /** Every entry holds a success. */
  predicate AllSucceeded(entries: seq<BatchEntry>) {
    forall k :: 0 <= k < |entries| ==> entries[k].outcome.Success?
  }

  /** The failed entries as error records, in order. */
  function ErrorsOf(entries: seq<BatchEntry>): (r: seq<ErrorEntry>)
    ensures |r| <= |entries|
    ensures AllSucceeded(entries) ==> r == []
  {
    if |entries| == 0 then []
    else
      var last := entries[|entries| - 1];
      ErrorsOf(entries[..|entries| - 1]) + (if last.outcome.Failure? then [ErrorEntry(last.articleId, last.outcome.error)] else [])
  }

  /** Every entry is a success or an error, never both. */
  lemma {:induction false} SuccessPlusErrors(entries: seq<BatchEntry>)
    ensures CountSuccess(entries) + |ErrorsOf(entries)| == |entries|
  {
    if |entries| > 0 {
      SuccessPlusErrors(entries[..|entries| - 1]);
    }
  }

  /** The error list names exactly the failed articles, in order. */
  lemma {:induction false} ErrorsAreFailures(entries: seq<BatchEntry>, e: ErrorEntry)
    ensures e in ErrorsOf(entries) <==> BatchEntry(e.articleId, Failure(e.error)) in entries
  {
    if |entries| > 0 {
      var init := entries[..|entries| - 1];
      ErrorsAreFailures(init, e);
      assert entries == init + [entries[|entries| - 1]];
    }
  }

  /** Proof step of the batch loops: the group prefix grows by the article just handled. */
  lemma TakeOneMore<T>(s: seq<T>, j: nat)
    requires j < |s|
    ensures s[..j + 1] == s[..j] + [s[j]]
  {
  }

  lemma AppendEntry(entries: seq<BatchEntry>, e: BatchEntry)
    ensures CountSuccess(entries + [e]) == CountSuccess(entries) + (if e.outcome.Success? then 1 else 0)
    ensures ErrorsOf(entries + [e]) == ErrorsOf(entries) + (if e.outcome.Failure? then [ErrorEntry(e.articleId, e.outcome.error)] else [])
  {
    assert (entries + [e])[..|entries|] == entries;
  }
}
