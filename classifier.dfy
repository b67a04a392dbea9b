/**
 * The OpenAI political-violence classifier: one article is classified by filling the prompt,
 * asking the model, parsing its JSON reply and checking its shape; a batch is classified in
 * groups whose members run concurrently, with progress reports and pauses between groups.
 */
module Classifier {
  import opened Wrappers
  import opened Json
  import opened Text
  import opened AiConfig
  import opened Prompts
  import opened Pacing

  const DefaultModel: string := "gpt-4"
  const FailurePrefix: string := "Classification failed: "
  const InvalidStructure: string := "Invalid classification response structure"

  /** `OPENAI_MODEL || "gpt-4"`. */
  function ModelVersion(env: Env): (r: string)
    ensures env.openaiModel.Some? && env.openaiModel.value != "" ==> r == env.openaiModel.value
    ensures env.openaiModel.None? || env.openaiModel.value == "" ==> r == DefaultModel
  {
    OrDefault(env.openaiModel, DefaultModel)
  }

  /** The prompt sent for an article. */
  function Prompt(template: string, a: ArticleInput): string {
    Fill(template, ClassificationHoles, ClassificationValues(a))
  }

  /** The provider's reply to the request made for the `k`-th article. */
  function Reply(env: Env, template: string, a: ArticleInput, calls: AiCalls, k: nat): Result<string> {
    calls.reply(k, ModelVersion(env), Prompt(template, a))
  }

  /** The parsed reply, when the request succeeded and its text is JSON. */
  function Parsed(env: Env, template: string, a: ArticleInput, calls: AiCalls, k: nat): Option<JsValue> {
    var reply := Reply(env, template, a, calls, k);
    if reply.Success? then calls.parse(reply.value) else None
  }

  /** A boolean verdict and a numeric confidence within [0, 1]. */
  predicate Valid(v: JsValue)
    ensures Valid(v) ==> v.JObject? && "is_political_violence" in v.fields && "confidence" in v.fields
  {
    var c := Prop(v, "confidence");
    && TypeOf(Prop(v, "is_political_violence")) == "boolean"
    && TypeOf(c) == "number" && 0.0 <= c.value.n <= 1.0
  }

  /**
   * `classifyArticle`: every error is reported with the classification prefix, a reply is
   * accepted exactly when the client exists, the request succeeds, the text parses and the
   * parsed value is valid, and an accepted reply is returned with the model version,
   * processing time and timestamp added over its own fields.
   */
  function Classify(env: Env, template: string, a: ArticleInput, calls: AiCalls, k: nat): (r: Result<map<string, JsValue>>)
    ensures r.Failure? ==> StartsWith(r.error, FailurePrefix)
    ensures r.Success? <==>
      OpenAiClientReady(env) && Parsed(env, template, a, calls, k).Some? && Valid(Parsed(env, template, a, calls, k).value)
    ensures r.Success? ==>
      var fields := Parsed(env, template, a, calls, k).value.fields;
      && r.value.Keys == fields.Keys + StampKeys
      && (forall key :: key in fields && key !in StampKeys ==> r.value[key] == fields[key])
      && r.value["model_version"] == JStr(ModelVersion(env))
      && r.value["processing_time_ms"] == JNum(calls.elapsed(k) as real)
      && r.value["processed_at"] == JStr(calls.clock(k))
  {
    if !OpenAiClientReady(env) then Failure(FailurePrefix + OpenAiMissing)
    else
      var reply := Reply(env, template, a, calls, k);
      if reply.Failure? then Failure(FailurePrefix + reply.error)
      else
        match calls.parse(reply.value)
        case None => Failure(FailurePrefix + InvalidFormat)
        case Some(v) =>
          if v.JNull? then Failure(FailurePrefix + NullRead("is_political_violence"))
          else if !Valid(v) then Failure(FailurePrefix + InvalidStructure)
          else
            var stamp := Stamp(ModelVersion(env), calls.elapsed(k), calls.clock(k));
            Success(Spread(v.fields, stamp))
  }

  /** The error cases of `classifyArticle`, each with its message. */
  lemma ClassifyErrors(env: Env, template: string, a: ArticleInput, calls: AiCalls, k: nat)
    ensures !OpenAiClientReady(env) ==> Classify(env, template, a, calls, k) == Failure(FailurePrefix + OpenAiMissing)
    ensures OpenAiClientReady(env) && Reply(env, template, a, calls, k).Failure? ==>
      Classify(env, template, a, calls, k) == Failure(FailurePrefix + Reply(env, template, a, calls, k).error)
    ensures (OpenAiClientReady(env) && Reply(env, template, a, calls, k).Success? && Parsed(env, template, a, calls, k).None?) ==>
      Classify(env, template, a, calls, k) == Failure(FailurePrefix + InvalidFormat)
    ensures (OpenAiClientReady(env) && Parsed(env, template, a, calls, k) == Some(JNull)) ==>
      Classify(env, template, a, calls, k) == Failure(FailurePrefix + NullRead("is_political_violence"))
    ensures (OpenAiClientReady(env) && Parsed(env, template, a, calls, k).Some?
         && !Parsed(env, template, a, calls, k).value.JNull? && !Valid(Parsed(env, template, a, calls, k).value)) ==>
      Classify(env, template, a, calls, k) == Failure(FailurePrefix + InvalidStructure)
  {
  }

  /** A confidence outside [0, 1] is rejected even with a boolean verdict. */
  lemma ConfidenceOutOfRange(v: JsValue, c: real)
    requires v.JObject? && "confidence" in v.fields && v.fields["confidence"] == JNum(c)
    requires c < 0.0 || c > 1.0
    ensures !Valid(v)
  {
  }

  /** `classifyArticle` as the batch runner applies it to the `k`-th article. */
  function ClassifyStep(env: Env, template: string, calls: AiCalls): Step {
    (k: nat, a: ArticleInput) => Classify(env, template, a, calls, k)
  }

  datatype Summary = Summary(total: nat, successful: nat, failed: nat)

  /** `{results, errors, summary}` returned by `classifyArticlesBatch`. */
  datatype BatchReport = BatchReport(results: seq<BatchEntry>, errors: seq<ErrorEntry>, summary: Summary)

  /** `{processed, total, errors}` handed to `onProgress`. */
  datatype Progress = Progress(processed: nat, total: nat, errors: nat)

  /** The progress report made once the first `p` entries are in. */
  function Marks(entries: seq<BatchEntry>): (r: seq<Progress>)
    ensures |r| == |entries| + 1
    ensures forall p :: 0 <= p <= |entries| ==> r[p] == Progress(p, |entries|, |ErrorsOf(entries[..p])|)
  {
    seq(|entries| + 1, (p: int) requires 0 <= p <= |entries| => Progress(p, |entries|, |ErrorsOf(entries[..p])|))
  }

  /**
   * One group of `classifyArticlesBatch`: the entries of articles `i` to `end` (the
   * concurrent calls settle into input order) and the error list with the group's
   * failures added.
   */
  method ClassifyGroup(articles: seq<ArticleInput>, step: Step, i: nat, end: nat, errors: seq<ErrorEntry>)
    returns (batch: seq<BatchEntry>, errs: seq<ErrorEntry>)
    requires i <= end <= |articles|
    requires errors == ErrorsOf(EntriesOf(articles, step)[..i])
    ensures batch == EntriesOf(articles, step)[i..end]
    ensures errs == ErrorsOf(EntriesOf(articles, step)[..end])
  {
    ghost var all := EntriesOf(articles, step);
    ghost var done := all[..i];
    batch := [];
    errs := errors;
    var j := i;
    while j < end
      invariant i <= j <= end && batch == all[i..j] && done == all[..j]
      invariant errs == ErrorsOf(done)
    {
      var entry := BatchEntry(articles[j].id, step(j, articles[j]));
      GroupEntry(articles, step, i, j);
      AppendEntry(done, entry);
      if entry.outcome.Failure? {
        errs := errs + [ErrorEntry(entry.articleId, entry.outcome.error)];
      }
      batch := batch + [entry];
      done := done + [entry];
      j := j + 1;
    }
  }

  /** Proof step of `ClassifyGroup`: article `j` extends the group and the entries so far. */
  lemma GroupEntry(articles: seq<ArticleInput>, step: Step, i: nat, j: nat)
    requires i <= j < |articles|
    ensures var all, entry := EntriesOf(articles, step), BatchEntry(articles[j].id, step(j, articles[j]));
      && all[i..j + 1] == all[i..j] + [entry]
      && all[..j + 1] == all[..j] + [entry]
  {
    EntryAt(articles, step, j);
  }

  /** A finished group extends the entries so far, and the next report counts its end. */
  lemma GroupAdvance(all: seq<BatchEntry>, i: nat, end: nat)
    requires i <= end <= |all|
    ensures all[..i] + all[i..end] == all[..end]
    ensures Marks(all)[end] == Progress(end, |all|, |ErrorsOf(all[..end])|)
  {
    assert all[..end] == all[..i] + all[i..end];
  }

  /**
   * The loop of `classifyArticlesBatch` over groups of `batchSize` articles, for a given
   * single-article step.
   */
  method RunGroups(articles: seq<ArticleInput>, step: Step, batchSize: nat, delayMs: int)
    returns (report: BatchReport, trace: seq<Group<Progress>>)
    requires batchSize > 0
    ensures report.results == EntriesOf(articles, step)
    ensures report.errors == ErrorsOf(report.results)
    ensures report.summary == Summary(|articles|, CountSuccess(report.results), |report.errors|)
    ensures report.summary.successful + report.summary.failed == report.summary.total
    ensures trace == Schedule(|articles|, batchSize, delayMs, Marks(report.results), 0)
  {
    var n := |articles|;
    ghost var all := EntriesOf(articles, step);
    ghost var marks := Marks(all);
    var results: seq<BatchEntry> := [];
    var errors: seq<ErrorEntry> := [];
    trace := [];
    var i := 0;
    while i < n
      invariant |results| == Min(i, n) && results == all[..|results|]
      invariant errors == ErrorsOf(results)
      invariant trace + Schedule(n, batchSize, delayMs, marks, i) == Schedule(n, batchSize, delayMs, marks, 0)
      decreases n - i
    {
      var end := Min(i + batchSize, n);
      var batch;
      batch, errors := ClassifyGroup(articles, step, i, end, errors);
      GroupAdvance(all, i, end);
      results := results + batch;
      var pause: Option<int> := None;
      if i + batchSize < n && delayMs > 0 {
        pause := Some(delayMs);
      }
      ScheduleAdvance(trace, n, batchSize, delayMs, marks, i);
      trace := trace + [Group(Progress(end, n, |errors|), pause)];
      i := i + batchSize;
    }
    assert results == all;
    SuccessPlusErrors(results);
    report := BatchReport(results, errors, Summary(n, CountSuccess(results), |errors|));
  }

  /**
   * `classifyArticlesBatch`: one entry per article in input order, each holding that
   * article's classification or its error; the error list holds the failures; the summary
   * counts add up; one progress report per group and pauses only between groups.
   */
  method ClassifyBatch(env: Env, template: string, articles: seq<ArticleInput>, calls: AiCalls, batchSize: nat, delayMs: int)
    returns (report: BatchReport, trace: seq<Group<Progress>>)
    requires batchSize > 0
    ensures |report.results| == |articles|
    ensures forall k :: 0 <= k < |articles| ==>
      report.results[k] == BatchEntry(articles[k].id, Classify(env, template, articles[k], calls, k))
    ensures report.errors == ErrorsOf(report.results)
    ensures report.summary == Summary(|articles|, CountSuccess(report.results), |report.errors|)
    ensures report.summary.successful + report.summary.failed == report.summary.total
    ensures trace == Schedule(|articles|, batchSize, delayMs, Marks(report.results), 0)
  {
    report, trace := RunGroups(articles, ClassifyStep(env, template, calls), batchSize, delayMs);
  }
}
