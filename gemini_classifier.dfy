/**
 * The Gemini political-violence classifier: like the OpenAI one, but the reply may come
 * wrapped in Markdown code fences, which are removed before parsing; only the verdict is
 * checked; the batch runner classifies one article at a time.
 */
module GeminiClassifier {
  import opened Wrappers
  import opened Json
  import opened Text
  import opened AiConfig
  import opened Prompts
  import opened Pacing

  const DefaultModel: string := "gemini-1.5-flash"
  const FailurePrefix: string := "Classification failed: "
  const InvalidStructure: string := "Invalid classification response structure"

  /** `GEMINI_MODEL || "gemini-1.5-flash"`. */
  function ModelVersion(env: Env): (r: string)
    ensures env.geminiModel.Some? && env.geminiModel.value != "" ==> r == env.geminiModel.value
    ensures env.geminiModel.None? || env.geminiModel.value == "" ==> r == DefaultModel
  {
    OrDefault(env.geminiModel, DefaultModel)
  }

  predicate NoBacktick(s: string) {
    forall k :: 0 <= k < |s| ==> s[k] != '`'
  }

  /**
   * `s.replace(/```json\n?|\n?```/g, '')`: scanning left to right, an opening fence with its
   * optional newline is removed first, otherwise a closing fence with its optional preceding
   * newline; every other character is kept.
   */
  function StripFences(s: string): (r: string)
    ensures |r| <= |s|
    ensures NoBacktick(s) ==> r == s
  {
    if |s| == 0 then ""
    else
      StartsWithChar(s, "```json", 0);
      StartsWithChar(s, "\n```", 1);
      StartsWithChar(s, "```", 0);
      if StartsWith(s, "```json") then
        if |s| > 7 && s[7] == '\n' then StripFences(s[8..]) else StripFences(s[7..])
      else if StartsWith(s, "\n```") then StripFences(s[4..])
      else if StartsWith(s, "```") then StripFences(s[3..])
      else [s[0]] + StripFences(s[1..])
  }

  /** A closing fence after text without backticks is removed with its newline. */
  lemma {:induction false} ClosingFenceStripped(body: string)
    requires NoBacktick(body)
    ensures StripFences(body + "\n```") == body
  {
    var s := body + "\n```";
    if |body| == 0 {
      assert s == "\n```";
    } else {
      assert s[0] == body[0];
      assert |s| >= 2 && s[1] != '`' by {
        if |body| >= 2 { assert s[1] == body[1]; } else { assert s[1] == '\n'; }
      }
      var rest := body[1..];
      assert NoBacktick(rest) by {
        forall k | 0 <= k < |rest| ensures rest[k] != '`' {
          assert rest[k] == body[k + 1];
        }
      }
      ClosingFenceStripped(rest);
      assert s[1..] == rest + "\n```";
      PlainCharKept(s);
      assert [body[0]] + rest == body;
    }
  }

  /** A first character that cannot start a fence is kept as it is. */
  lemma PlainCharKept(s: string)
    requires |s| >= 2 && s[0] != '`' && s[1] != '`'
    ensures StripFences(s) == [s[0]] + StripFences(s[1..])
  {
    StartsWithChar(s, "```json", 0);
    StartsWithChar(s, "\n```", 1);
    StartsWithChar(s, "```", 0);
  }

  /** A reply fenced as a JSON code block comes out as the block's body. */
  lemma FencedBlockStripped(body: string)
    requires NoBacktick(body)
    ensures StripFences("```json\n" + body + "\n```") == body
  {
    var s := "```json\n" + body + "\n```";
    assert s[..7] == "```json" && s[7] == '\n';
    assert s[8..] == body + "\n```";
    ClosingFenceStripped(body);
  }

  /** The text handed to `JSON.parse`. */
  function Clean(reply: string): (r: string)
    ensures |r| <= |reply|
  {
    Trim(StripFences(reply))
  }

  function Prompt(template: string, a: ArticleInput): string {
    Fill(template, ClassificationHoles, ClassificationValues(a))
  }

  function Reply(env: Env, template: string, a: ArticleInput, calls: AiCalls, k: nat): Result<string> {
    calls.reply(k, ModelVersion(env), Prompt(template, a))
  }

  /** The parsed reply, when the request succeeded and its cleaned text is JSON. */
  function Parsed(env: Env, template: string, a: ArticleInput, calls: AiCalls, k: nat): Option<JsValue> {
    var reply := Reply(env, template, a, calls, k);
    if reply.Success? then calls.parse(Clean(reply.value)) else None
  }

  /** Only the verdict is checked; the confidence is neither required nor range-checked. */
  predicate Valid(v: JsValue)
    ensures Valid(v) ==> v.JObject? && "is_political_violence" in v.fields
  {
    TypeOf(Prop(v, "is_political_violence")) == "boolean"
  }

  const Added: set<string> := {"model_version", "processing_time_ms", "processed_at", "provider"}

  /** The fields added to an accepted reply. */
  function Extra(env: Env, calls: AiCalls, k: nat): (r: map<string, JsValue>)
    ensures r.Keys == Added
    ensures r["model_version"] == JStr(ModelVersion(env)) && r["processed_at"] == JStr(calls.clock(k))
    ensures r["processing_time_ms"] == JNum(calls.elapsed(k) as real) && r["provider"] == JStr("gemini")
  {
    Stamp(ModelVersion(env), calls.elapsed(k), calls.clock(k))["provider" := JStr("gemini")]
  }

  /**
   * `classifyArticleWithGemini`: every error carries the classification prefix, a reply is
   * accepted exactly when the client exists, the request succeeds, the cleaned text parses
   * and the verdict is boolean, and an accepted reply is returned with the model version,
   * timing and the `gemini` provider tag added over its own fields.
   */
  function Classify(env: Env, template: string, a: ArticleInput, calls: AiCalls, k: nat): (r: Result<map<string, JsValue>>)
    ensures r.Failure? ==> StartsWith(r.error, FailurePrefix)
    ensures r.Success? <==>
      GeminiClientReady(env) && Parsed(env, template, a, calls, k).Some? && Valid(Parsed(env, template, a, calls, k).value)
    ensures r.Success? ==>
      var fields := Parsed(env, template, a, calls, k).value.fields;
      && r.value.Keys == fields.Keys + Added
      && (forall key :: key in fields && key !in Added ==> r.value[key] == fields[key])
      && r.value["model_version"] == JStr(ModelVersion(env))
      && r.value["processing_time_ms"] == JNum(calls.elapsed(k) as real)
      && r.value["processed_at"] == JStr(calls.clock(k))
      && r.value["provider"] == JStr("gemini")
  {
    if !GeminiClientReady(env) then Failure(FailurePrefix + GeminiMissing)
    else
      var reply := Reply(env, template, a, calls, k);
      if reply.Failure? then Failure(FailurePrefix + reply.error)
      else
        match calls.parse(Clean(reply.value))
        case None => Failure(FailurePrefix + InvalidFormat)
        case Some(v) =>
          if v.JNull? then Failure(FailurePrefix + NullRead("is_political_violence"))
          else if !Valid(v) then Failure(FailurePrefix + InvalidStructure)
          else Success(Spread(v.fields, Extra(env, calls, k)))
  }

  /** The error cases of `classifyArticleWithGemini`, each with its message. */
  lemma ClassifyErrors(env: Env, template: string, a: ArticleInput, calls: AiCalls, k: nat)
    ensures !GeminiClientReady(env) ==> Classify(env, template, a, calls, k) == Failure(FailurePrefix + GeminiMissing)
    ensures GeminiClientReady(env) && Reply(env, template, a, calls, k).Failure? ==>
      Classify(env, template, a, calls, k) == Failure(FailurePrefix + Reply(env, template, a, calls, k).error)
    ensures (GeminiClientReady(env) && Reply(env, template, a, calls, k).Success? && Parsed(env, template, a, calls, k).None?) ==>
      Classify(env, template, a, calls, k) == Failure(FailurePrefix + InvalidFormat)
    ensures (GeminiClientReady(env) && Parsed(env, template, a, calls, k) == Some(JNull)) ==>
      Classify(env, template, a, calls, k) == Failure(FailurePrefix + NullRead("is_political_violence"))
    ensures (GeminiClientReady(env) && Parsed(env, template, a, calls, k).Some?
         && !Parsed(env, template, a, calls, k).value.JNull? && !Valid(Parsed(env, template, a, calls, k).value)) ==>
      Classify(env, template, a, calls, k) == Failure(FailurePrefix + InvalidStructure)
  {
  }

  /** Any confidence is accepted, even one outside [0, 1] or missing, once the verdict is boolean. */
  lemma AnyConfidenceAccepted(v: JsValue, verdict: bool)
    requires v.JObject? && "is_political_violence" in v.fields && v.fields["is_political_violence"] == JBool(verdict)
    ensures Valid(v)
  {
  }

  function ClassifyStep(env: Env, template: string, calls: AiCalls): Step {
    (k: nat, a: ArticleInput) => Classify(env, template, a, calls, k)
  }

  datatype Summary = Summary(total: nat, successful: nat, failed: nat, errors: nat)

  /** `{summary, results}` returned by `classifyArticlesBatchWithGemini`. */
  datatype BatchReport = BatchReport(summary: Summary, results: seq<BatchEntry>)

  /** `{processed, total, successful, failed, errors}` handed to `onProgress`. */
  datatype Progress = Progress(processed: nat, total: nat, successful: nat, failed: nat, errors: nat)

  function Marks(entries: seq<BatchEntry>): (r: seq<Progress>)
    ensures |r| == |entries| + 1
    ensures forall p :: 0 <= p <= |entries| ==>
      r[p] == Progress(p, |entries|, CountSuccess(entries[..p]), |ErrorsOf(entries[..p])|, |ErrorsOf(entries[..p])|)
  {
    seq(|entries| + 1, (p: int) requires 0 <= p <= |entries| =>
      Progress(p, |entries|, CountSuccess(entries[..p]), |ErrorsOf(entries[..p])|, |ErrorsOf(entries[..p])|))
  }

  /**
   * One group of `classifyArticlesBatchWithGemini`: the articles `i` to `end` one after
   * the other, each entry appended in order and counted as a success or a failure.
   */
  method RunGroup(articles: seq<ArticleInput>, step: Step, i: nat, end: nat,
                  results: seq<BatchEntry>, successful: nat, failed: nat, errors: nat)
    returns (results': seq<BatchEntry>, successful': nat, failed': nat, errors': nat)
    requires i <= end <= |articles| && results == EntriesOf(articles, step)[..i]
    requires successful == CountSuccess(results) && failed == errors == |ErrorsOf(results)|
    ensures results' == EntriesOf(articles, step)[..end]
    ensures successful' == CountSuccess(results') && failed' == errors' == |ErrorsOf(results')|
  {
    ghost var all := EntriesOf(articles, step);
    results', successful', failed', errors' := results, successful, failed, errors;
    var j := i;
    while j < end
      invariant i <= j <= end && results' == all[..j]
      invariant successful' == CountSuccess(results') && failed' == errors' == |ErrorsOf(results')|
    {
      var outcome := step(j, articles[j]);
      var entry := BatchEntry(articles[j].id, outcome);
      AppendEntry(results', entry);
      TakeOneMore(all, j);
      if outcome.Success? {
        successful' := successful' + 1;
      } else {
        failed' := failed' + 1;
        errors' := errors' + 1;
      }
      results' := results' + [entry];
      j := j + 1;
    }
  }

  /**
   * The loop of `classifyArticlesBatchWithGemini`: groups of `batchSize`, and inside a group
   * one article after the other, counting successes and failures.
   */
  method RunGroups(articles: seq<ArticleInput>, step: Step, batchSize: nat, delayMs: int)
    returns (report: BatchReport, trace: seq<Group<Progress>>)
    requires batchSize > 0
    ensures report.results == EntriesOf(articles, step)
    ensures report.summary.total == |articles|
    ensures report.summary.successful == CountSuccess(report.results)
    ensures report.summary.failed == report.summary.errors == |ErrorsOf(report.results)|
    ensures report.summary.successful + report.summary.failed == report.summary.total
    ensures trace == Schedule(|articles|, batchSize, delayMs, Marks(report.results), 0)
  {
    var n := |articles|;
    ghost var all := EntriesOf(articles, step);
    ghost var marks := Marks(all);
    var results: seq<BatchEntry> := [];
    var successful, failed, errors := 0, 0, 0;
    trace := [];
    var i := 0;
    while i < n
      invariant |results| == Min(i, n) && results == all[..|results|]
      invariant successful == CountSuccess(results) && failed == errors == |ErrorsOf(results)|
      invariant trace + Schedule(n, batchSize, delayMs, marks, i) == Schedule(n, batchSize, delayMs, marks, 0)
      decreases n - i
    {
      var end := Min(i + batchSize, n);
      results, successful, failed, errors := RunGroup(articles, step, i, end, results, successful, failed, errors);
      assert marks[end] == Progress(end, n, successful, failed, errors);
      var pause: Option<int> := None;
      if i + batchSize < n && delayMs > 0 {
        pause := Some(delayMs);
      }
      ScheduleAdvance(trace, n, batchSize, delayMs, marks, i);
      trace := trace + [Group(Progress(end, n, successful, failed, errors), pause)];
      i := i + batchSize;
    }
    assert results == all;
    SuccessPlusErrors(results);
    report := BatchReport(Summary(n, successful, failed, errors), results);
  }

  /**
   * `classifyArticlesBatchWithGemini`: one entry per article in input order, each holding
   * that article's classification or its error; the counters add up, and failures and
   * errors are the same count; one progress report per group and pauses only between groups.
   */
  method ClassifyBatch(env: Env, template: string, articles: seq<ArticleInput>, calls: AiCalls, batchSize: nat, delayMs: int)
    returns (report: BatchReport, trace: seq<Group<Progress>>)
    requires batchSize > 0
    ensures |report.results| == |articles|
    ensures forall k :: 0 <= k < |articles| ==>
      report.results[k] == BatchEntry(articles[k].id, Classify(env, template, articles[k], calls, k))
    ensures report.summary.total == |articles|
    ensures report.summary.successful == CountSuccess(report.results)
    ensures report.summary.failed == report.summary.errors == |ErrorsOf(report.results)|
    ensures report.summary.successful + report.summary.failed == report.summary.total
    ensures trace == Schedule(|articles|, batchSize, delayMs, Marks(report.results), 0)
  {
    report, trace := RunGroups(articles, ClassifyStep(env, template, calls), batchSize, delayMs);
  }
}
