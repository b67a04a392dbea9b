/**
 * Location extraction: the model is asked for the places an article mentions, its reply is
 * checked for a `locations` array, each location becomes one `article_locations` row with a
 * confidence bucket and an optional point, the article is then flagged as AI-processed, and
 * a batch runner does this article by article with progress reports and pauses.
 */
module LocationExtractor {
  import opened Wrappers
  import opened Json
  import opened Text
  import opened AiConfig
  import opened Prompts
  import opened Pacing

  const DefaultModel: string := "gpt-4o-mini"
  const FailurePrefix: string := "Location extraction failed: "
  const InvalidStructure: string := "Invalid extraction response structure"

  /** `OPENAI_MODEL || "gpt-4o-mini"`. */
  function ModelVersion(env: Env): (r: string)
    ensures env.openaiModel.Some? && env.openaiModel.value != "" ==> r == env.openaiModel.value
    ensures env.openaiModel.None? || env.openaiModel.value == "" ==> r == DefaultModel
  {
    OrDefault(env.openaiModel, DefaultModel)
  }

  function Prompt(template: string, a: ArticleInput): string {
    Fill(template, LocationHoles, LocationValues(a))
  }

  function Reply(env: Env, template: string, a: ArticleInput, calls: AiCalls, k: nat): Result<string> {
    calls.reply(k, ModelVersion(env), Prompt(template, a))
  }

  function Parsed(env: Env, template: string, a: ArticleInput, calls: AiCalls, k: nat): Option<JsValue> {
    var reply := Reply(env, template, a, calls, k);
    if reply.Success? then calls.parse(reply.value) else None
  }

  /** `extraction.locations` is present and an array (arrays are always truthy). */
  predicate Valid(v: JsValue)
    ensures Valid(v) ==> v.JObject? && "locations" in v.fields
  {
    var l := Prop(v, "locations");
    l.Some? && l.value.JArray?
  }

  /** The value `extractLocations` returns: the record, and its `locations` array. */
  datatype Extraction = Extraction(fields: map<string, JsValue>, locations: seq<JsValue>)

  /**
   * `extractLocations`: every error carries the extraction prefix; a reply is accepted
   * exactly when the client exists, the request succeeds, the text parses and `locations` is
   * an array; an accepted reply keeps its own fields, its locations, and gains the model
   * version, processing time and timestamp.
   */
  function Extract(env: Env, template: string, a: ArticleInput, calls: AiCalls, k: nat): (r: Result<Extraction>)
    ensures r.Failure? ==> StartsWith(r.error, FailurePrefix)
    ensures r.Success? <==>
      OpenAiClientReady(env) && Parsed(env, template, a, calls, k).Some? && Valid(Parsed(env, template, a, calls, k).value)
    ensures r.Success? ==>
      var fields := Parsed(env, template, a, calls, k).value.fields;
      && r.value.fields.Keys == fields.Keys + StampKeys
      && (forall key :: key in fields && key !in StampKeys ==> r.value.fields[key] == fields[key])
      && r.value.fields["locations"] == JArray(r.value.locations)
      && r.value.fields["model_version"] == JStr(ModelVersion(env))
      && r.value.fields["processing_time_ms"] == JNum(calls.elapsed(k) as real)
      && r.value.fields["processed_at"] == JStr(calls.clock(k))
  {
    if !OpenAiClientReady(env) then Failure(FailurePrefix + OpenAiMissing)
    else
      var reply := Reply(env, template, a, calls, k);
      if reply.Failure? then Failure(FailurePrefix + reply.error)
      else
        match calls.parse(reply.value)
        case None => Failure(FailurePrefix + InvalidFormat)
        case Some(v) =>
          if v.JNull? then Failure(FailurePrefix + NullRead("locations"))
          else if !Valid(v) then Failure(FailurePrefix + InvalidStructure)
          else
            var stamp := Stamp(ModelVersion(env), calls.elapsed(k), calls.clock(k));
            Success(Extraction(Spread(v.fields, stamp), v.fields["locations"].items))
  }

  /** The three ways `extractLocations` rejects a reply, each with its message. */
  lemma ExtractErrors(env: Env, template: string, a: ArticleInput, calls: AiCalls, k: nat)
    ensures !OpenAiClientReady(env) ==> Extract(env, template, a, calls, k) == Failure(FailurePrefix + OpenAiMissing)
    ensures OpenAiClientReady(env) && Reply(env, template, a, calls, k).Failure? ==>
      Extract(env, template, a, calls, k) == Failure(FailurePrefix + Reply(env, template, a, calls, k).error)
    ensures (OpenAiClientReady(env) && Reply(env, template, a, calls, k).Success? && Parsed(env, template, a, calls, k).None?) ==>
      Extract(env, template, a, calls, k) == Failure(FailurePrefix + InvalidFormat)
    ensures (OpenAiClientReady(env) && Parsed(env, template, a, calls, k) == Some(JNull)) ==>
      Extract(env, template, a, calls, k) == Failure(FailurePrefix + NullRead("locations"))
    ensures (OpenAiClientReady(env) && Parsed(env, template, a, calls, k).Some?
         && !Parsed(env, template, a, calls, k).value.JNull? && !Valid(Parsed(env, template, a, calls, k).value)) ==>
      Extract(env, template, a, calls, k) == Failure(FailurePrefix + InvalidStructure)
  {
  }

  /** The `confidence` column: `high` from 0.7, `medium` from 0.4, `low` below. */
  function Bucket(c: real): (r: string)
    ensures r == "high" <==> c >= 0.7
    ensures r == "medium" <==> 0.4 <= c < 0.7
    ensures r == "low" <==> c < 0.4
  {
    if c >= 0.7 then "high" else if c >= 0.4 then "medium" else "low"
  }

  function Rank(bucket: string): nat {
    if bucket == "high" then 2 else if bucket == "medium" then 1 else 0
  }

  /** A higher confidence never gets a lower bucket. */
  lemma BucketMonotone(c1: real, c2: real)
    requires c1 <= c2
    ensures Rank(Bucket(c1)) <= Rank(Bucket(c2))
  {
  }

  /** The bucket of a location's `confidence` as JavaScript compares it; NaN fails both tests. */
  function ConfidenceBucket(o: Option<JsValue>): (r: string)
    ensures ToNumber(o).None? ==> r == "low"
    ensures ToNumber(o).Some? ==> r == Bucket(ToNumber(o).value)
  {
    match ToNumber(o)
    case None => "low"
    case Some(c) => Bucket(c)
  }

  /** A confidence wrapped in one-element arrays is bucketed as the number itself. */
  lemma WrappedConfidenceBucket(n: real, depth: nat)
    ensures ConfidenceBucket(Some(Wrap(JNum(n), depth))) == Bucket(n)
  {
    WrappedNumber(n, depth);
  }

  /** A confidence sent as a decimal string (`"0.8"`) is bucketed as the number it spells. */
  lemma StringConfidenceBucket(ip: string, fp: string)
    requires AllDigits(ip) && AllDigits(fp) && |ip| + |fp| > 0
    ensures ConfidenceBucket(Some(JStr(ip + "." + fp))) == Bucket(PointValue(ip, fp))
  {
    DecimalString(ip, fp);
  }

  /** `POINT(lng lat)`, kept as its two parts. */
  datatype Point = Point(lng: JsValue, lat: JsValue)

  /** The `coordinates` column: a point only when the coordinates, `lat` and `lng` are all truthy. */
  function Coordinates(location: JsValue): (r: Option<Point>)
    ensures var c := Prop(location, "coordinates");
      r.Some? <==> Truthy(c) && Truthy(OptProp(c, "lat")) && Truthy(OptProp(c, "lng"))
    ensures r.Some? ==>
      var c := Prop(location, "coordinates");
      Some(r.value.lng) == OptProp(c, "lng") && Some(r.value.lat) == OptProp(c, "lat")
  {
    var c := Prop(location, "coordinates");
    if Truthy(c) && Truthy(OptProp(c, "lat")) && Truthy(OptProp(c, "lng"))
    then Some(Point(OptProp(c, "lng").value, OptProp(c, "lat").value))
    else None
  }

  /** One `article_locations` row; `None` columns are the `undefined` values bound as NULL. */
  datatype LocationRow = LocationRow(
    id: nat,
    articleId: int,
    extractedText: Option<JsValue>,
    normalizedName: Option<JsValue>,
    coordinates: Option<Point>,
    confidence: string,
    extractionMethod: string,
    context: JsValue)

  /** The row built for a location; reading `coordinates` of a `null` location throws. */
  function RowFor(articleId: int, location: JsValue, id: nat): (r: Result<LocationRow>)
    ensures r.Failure? <==> location.JNull?
    ensures r.Success? ==>
      r.value.id == id && r.value.articleId == articleId && r.value.extractionMethod == "ai"
  {
    if location.JNull? then Failure(NullRead("coordinates"))
    else
      var context := Prop(location, "context");
      Success(LocationRow(
        id, articleId,
        Prop(location, "extracted_text"), Prop(location, "normalized_name"),
        Coordinates(location), ConfidenceBucket(Prop(location, "confidence")), "ai",
        if Truthy(context) then context.value else JStr("")))
  }

  /** The row builder of one article's save. */
  function Build(articleId: int): (JsValue, nat) -> Result<LocationRow> {
    (location: JsValue, id: nat) => RowFor(articleId, location, id)
  }

  lemma BuildIs(articleId: int, location: JsValue, id: nat)
    ensures Build(articleId)(location, id) == RowFor(articleId, location, id)
  {
  }

  /** The rows inserted from location `k` on, until the first failure, and that failure. */
  datatype Inserted = Inserted(rows: seq<LocationRow>, error: Option<string>)

  /**
   * The insert loop of `saveExtractedLocations` from location `k` on: `build` makes a
   * location's row, row ids are the serial values from `firstId`, and `insertError(k)` is
   * the database error of the `k`-th insert, if it fails.
   */
  function InsertFrom(build: (JsValue, nat) -> Result<LocationRow>, locations: seq<JsValue>, firstId: nat, insertError: nat -> Option<string>, k: nat): (r: Inserted)
    decreases |locations| - k
    ensures k <= |locations| ==> |r.rows| <= |locations| - k
    ensures r.error.None? ==> k >= |locations| || |r.rows| == |locations| - k
  {
    if k >= |locations| then Inserted([], None)
    else
      match build(locations[k], firstId + k)
      case Failure(e) => Inserted([], Some(e))
      case Success(row) =>
        if insertError(k).Some? then Inserted([], insertError(k))
        else
          var rest := InsertFrom(build, locations, firstId, insertError, k + 1);
          Inserted([row] + rest.rows, rest.error)
  }

  /** One step of the insert loop: the `k`-th location's row and insert decide how it goes on. */
  lemma InsertStep(build: (JsValue, nat) -> Result<LocationRow>, locations: seq<JsValue>, firstId: nat, insertError: nat -> Option<string>, k: nat)
    requires k < |locations|
    ensures var r := InsertFrom(build, locations, firstId, insertError, k);
      var row := build(locations[k], firstId + k);
      && (row.Failure? ==> r == Inserted([], Some(row.error)))
      && (row.Success? && insertError(k).Some? ==> r == Inserted([], insertError(k)))
      && (row.Success? && insertError(k).None? ==>
            r == Inserted([row.value] + InsertFrom(build, locations, firstId, insertError, k + 1).rows,
                          InsertFrom(build, locations, firstId, insertError, k + 1).error))
  {
  }

  /**
   * The rows inserted are the rows of the first locations, one per location and in order,
   * with consecutive ids, and no insert among them failed; all locations get a row exactly
   * when no insert fails.
   */
  lemma {:induction false} InsertedRows(build: (JsValue, nat) -> Result<LocationRow>, locations: seq<JsValue>, firstId: nat, insertError: nat -> Option<string>, k: nat)
    requires k <= |locations|
    ensures var r := InsertFrom(build, locations, firstId, insertError, k);
      && (forall j :: k <= j < k + |r.rows| ==> Success(r.rows[j - k]) == build(locations[j], firstId + j) && insertError(j).None?)
      && (r.error.None? <==> |r.rows| == |locations| - k)
      && (r.error.Some? ==>
            var f := k + |r.rows|;
            f < |locations| && (build(locations[f], firstId + f).Failure? || insertError(f).Some?))
    decreases |locations| - k
  {
    if k < |locations| {
      InsertStep(build, locations, firstId, insertError, k);
      InsertedRows(build, locations, firstId, insertError, k + 1);
      var r := InsertFrom(build, locations, firstId, insertError, k);
      var rest := InsertFrom(build, locations, firstId, insertError, k + 1);
      if build(locations[k], firstId + k).Success? && insertError(k).None? {
        assert r.rows == [build(locations[k], firstId + k).value] + rest.rows;
        forall j | k < j < k + |r.rows|
          ensures Success(r.rows[j - k]) == build(locations[j], firstId + j) && insertError(j).None?
        {
          assert r.rows[j - k] == rest.rows[j - (k + 1)];
        }
      }
    }
  }

  /** The two tables the extractor writes: `article_locations` and the `ai_processed` flags of `news_articles`. */
  datatype Tables = Tables(rows: seq<LocationRow>, nextId: nat, processed: map<int, bool>)

  /** `UPDATE news_articles SET ai_processed = true WHERE id = $1`: no row, no change. */
  function MarkProcessed(processed: map<int, bool>, articleId: int): (r: map<int, bool>)
    ensures r.Keys == processed.Keys
    ensures articleId in processed ==> r[articleId]
    ensures forall id :: id in processed && id != articleId ==> r[id] == processed[id]
  {
    if articleId in processed then processed[articleId := true] else processed
  }

  /** `[firstId, firstId + 1, ...]`, `count` ids. */
  function Ids(firstId: nat, count: nat): (r: seq<nat>)
    ensures |r| == count && forall j :: 0 <= j < count ==> r[j] == firstId + j
  {
    seq(count, (j: int) requires 0 <= j < count => firstId + j)
  }

  lemma IdsSnoc(firstId: nat, count: nat)
    ensures Ids(firstId, count + 1) == Ids(firstId, count) + [firstId + count]
  {
  }

  datatype Saved = Saved(tables: Tables, result: Result<seq<nat>>)

  /** Builders that give a built row the id they were handed. */
  ghost predicate Numbering(build: (JsValue, nat) -> Result<LocationRow>) {
    forall location, id :: build(location, id).Success? ==> build(location, id).value.id == id
  }

  /** Builders that fail exactly on a `null` location. */
  ghost predicate FailsOnNull(build: (JsValue, nat) -> Result<LocationRow>) {
    forall location, id :: build(location, id).Failure? <==> location.JNull?
  }

  /** The row builder of `saveExtractedLocations` numbers its rows and fails only on `null`. */
  lemma BuildFacts(articleId: int)
    ensures Numbering(Build(articleId)) && FailsOnNull(Build(articleId))
  {
    forall location, id
      ensures Build(articleId)(location, id) == RowFor(articleId, location, id)
    {
      BuildIs(articleId, location, id);
    }
  }

  /**
   * A save with row builder `build` on table state `t`: the inserts, then the flag update
   * (`updateError` is its database error, if it fails). A failure leaves the rows inserted
   * before it in place and the flag unset.
   */
  function SaveWith(build: (JsValue, nat) -> Result<LocationRow>, t: Tables, articleId: int, locations: seq<JsValue>,
                    insertError: nat -> Option<string>, updateError: Option<string>): Saved
  {
    var ins := InsertFrom(build, locations, t.nextId, insertError, 0);
    var t1 := Tables(t.rows + ins.rows, t.nextId + |ins.rows|, t.processed);
    if ins.error.Some? then Saved(t1, Failure(ins.error.value))
    else if updateError.Some? then Saved(t1, Failure(updateError.value))
    else Saved(t1.(processed := MarkProcessed(t.processed, articleId)), Success(Ids(t.nextId, |locations|)))
  }

  /** `saveExtractedLocations` on table state `t`, with the rows `RowFor` builds. */
  function Save(t: Tables, articleId: int, locations: seq<JsValue>, insertError: nat -> Option<string>, updateError: Option<string>): Saved
  {
    SaveWith(Build(articleId), t, articleId, locations, insertError, updateError)
  }

  /**
   * The rows a save leaves behind, whatever its outcome: the old rows stay in front, and
   * each new row is the row built for the location at its position, with the next serial id.
   */
  lemma SavedRows(build: (JsValue, nat) -> Result<LocationRow>, t: Tables, articleId: int, locations: seq<JsValue>,
                  insertError: nat -> Option<string>, updateError: Option<string>)
    ensures var s := SaveWith(build, t, articleId, locations, insertError, updateError);
      && |t.rows| <= |s.tables.rows| <= |t.rows| + |locations|
      && s.tables.rows[..|t.rows|] == t.rows
      && s.tables.nextId == t.nextId + (|s.tables.rows| - |t.rows|)
      && (forall j :: |t.rows| <= j < |s.tables.rows| ==>
            Success(s.tables.rows[j]) == build(locations[j - |t.rows|], t.nextId + (j - |t.rows|)))
  {
    var ins := InsertFrom(build, locations, t.nextId, insertError, 0);
    AppendedRows(build, locations, t.nextId, insertError, t.rows);
    assert SaveWith(build, t, articleId, locations, insertError, updateError).tables.rows == t.rows + ins.rows;
  }

  /** The inserted rows appended to `before`: each is the row built for its location. */
  lemma AppendedRows(build: (JsValue, nat) -> Result<LocationRow>, locations: seq<JsValue>, firstId: nat,
                     insertError: nat -> Option<string>, before: seq<LocationRow>)
    ensures var rows := before + InsertFrom(build, locations, firstId, insertError, 0).rows;
      && rows[..|before|] == before
      && forall j :: |before| <= j < |rows| ==> Success(rows[j]) == build(locations[j - |before|], firstId + (j - |before|))
  {
    var ins := InsertFrom(build, locations, firstId, insertError, 0).rows;
    InsertedRows(build, locations, firstId, insertError, 0);
    var rows := before + ins;
    assert rows[..|before|] == before;
    forall j | |before| <= j < |rows|
      ensures Success(rows[j]) == build(locations[j - |before|], firstId + (j - |before|))
    {
      var m := j - |before|;
      assert rows[j] == ins[m];
      assert Success(ins[m - 0]) == build(locations[m], firstId + m);
    }
  }

  /**
   * The outcome of a save with a builder that numbers its rows and fails only on `null`:
   * it succeeds exactly when no location is `null` and no query fails; on success there is
   * one row per location, the returned ids are theirs, and the article is flagged, even
   * with no locations; on failure no flag is set.
   */
  lemma SaveOutcome(build: (JsValue, nat) -> Result<LocationRow>, t: Tables, articleId: int, locations: seq<JsValue>,
                    insertError: nat -> Option<string>, updateError: Option<string>)
    requires Numbering(build) && FailsOnNull(build)
    ensures var s := SaveWith(build, t, articleId, locations, insertError, updateError);
      && (s.result.Failure? ==> s.tables.processed == t.processed)
      && (s.result.Success? ==>
            && |s.tables.rows| == |t.rows| + |locations|
            && |s.result.value| == |locations|
            && (forall j :: 0 <= j < |locations| ==> s.result.value[j] == s.tables.rows[|t.rows| + j].id)
            && s.tables.processed == MarkProcessed(t.processed, articleId))
    ensures SaveWith(build, t, articleId, locations, insertError, updateError).result.Success? <==>
      (forall j :: 0 <= j < |locations| ==> !locations[j].JNull? && insertError(j).None?) && updateError.None?
  {
    var ins := InsertFrom(build, locations, t.nextId, insertError, 0);
    InsertedRows(build, locations, t.nextId, insertError, 0);
    var s := SaveWith(build, t, articleId, locations, insertError, updateError);
    if s.result.Success? {
      forall j | 0 <= j < |locations|
        ensures s.result.value[j] == s.tables.rows[|t.rows| + j].id
      {
        assert s.tables.rows[|t.rows| + j] == ins.rows[j];
        assert Success(ins.rows[j - 0]) == build(locations[j], t.nextId + j);
      }
    }
    if ins.error.Some? {
      var j := |ins.rows|;
      assert build(locations[j], t.nextId + j).Failure? || insertError(j).Some?;
    }
  }

  class LocationStore {
    var rows: seq<LocationRow>
    var nextId: nat
    /** `news_articles.ai_processed`, by article id. */
    var processed: map<int, bool>

    function State(): Tables
      reads this
    {
      Tables(rows, nextId, processed)
    }

    constructor (articles: map<int, bool>)
      ensures State() == Tables([], 1, articles)
    {
      rows := [];
      nextId := 1;
      processed := articles;
    }

    /** The insert loop: one row per location through `build`, stopping at the first failure. */
    method InsertAll(build: (JsValue, nat) -> Result<LocationRow>, locations: seq<JsValue>, insertError: nat -> Option<string>)
      returns (error: Option<string>, ids: seq<nat>)
      modifies this
      ensures var ins := InsertFrom(build, locations, old(nextId), insertError, 0);
        && rows == old(rows) + ins.rows && nextId == old(nextId) + |ins.rows| && processed == old(processed)
        && error == ins.error && ids == Ids(old(nextId), |ins.rows|)
    {
      ghost var firstId := nextId;
      ghost var all := InsertFrom(build, locations, firstId, insertError, 0);
      ghost var rest := all;
      ghost var done: seq<LocationRow> := [];
      ids := [];
      var k := 0;
      while k < |locations|
        invariant k <= |locations| && |done| == k
        invariant rows == old(rows) + done && nextId == firstId + k && processed == old(processed)
        invariant rest == InsertFrom(build, locations, firstId, insertError, k)
        invariant done + rest.rows == all.rows && rest.error == all.error
        invariant ids == Ids(firstId, k)
      {
        InsertStep(build, locations, firstId, insertError, k);
        var row := build(locations[k], nextId);
        if row.Failure? {
          return Some(row.error), ids;
        }
        if insertError(k).Some? {
          return insertError(k), ids;
        }
        var next := InsertFrom(build, locations, firstId, insertError, k + 1);
        Associate(done, [row.value], next.rows);
        IdsSnoc(firstId, k);
        rows := rows + [row.value];
        ids := ids + [nextId];
        done := done + [row.value];
        rest := next;
        nextId := nextId + 1;
        k := k + 1;
      }
      error := None;
    }

    /**
     * `saveExtractedLocations`: inserts one row per location in order, stopping at the
     * first failure, then flags the article; returns the new ids or the error.
     */
    method SaveExtractedLocations(articleId: int, locations: seq<JsValue>, insertError: nat -> Option<string>, updateError: Option<string>)
      returns (r: Result<seq<nat>>)
      modifies this
      ensures Saved(State(), r) == Save(old(State()), articleId, locations, insertError, updateError)
    {
      var error, ids := InsertAll(Build(articleId), locations, insertError);
      if error.Some? {
        return Failure(error.value);
      }
      if updateError.Some? {
        return Failure(updateError.value);
      }
      processed := MarkProcessed(processed, articleId);
      r := Success(ids);
    }
  }

  /** One entry of `results.articles`. */
  datatype ArticleResult =
    | Extracted(id: int, title: Option<string>, locationsFound: nat, primaryLocation: Option<JsValue>, processingTime: Option<JsValue>)
    | NotExtracted(id: int, title: Option<string>, error: string)

  /** The extraction of the article at a position of the batch, as `extractLocations` gives it. */
  type Extractor = (nat, ArticleInput) -> Result<Extraction>

  function ExtractStep(env: Env, template: string, calls: AiCalls): Extractor {
    (k: nat, a: ArticleInput) => Extract(env, template, a, calls, k)
  }

  /**
   * The database errors met while a batch is saved: `insert(i, k)` fails the insert of the
   * `k`-th location of the `i`-th article, `update(i)` that article's flag update.
   */
  datatype DbErrors = DbErrors(insert: (nat, nat) -> Option<string>, update: nat -> Option<string>)

  function InsertErrors(db: DbErrors, i: nat): nat -> Option<string> {
    (k: nat) => db.insert(i, k)
  }

  datatype Outcome = Outcome(tables: Tables, result: ArticleResult)

  /**
   * One pass of `processArticlesForLocations`: a failed extraction touches no table; a
   * successful one is saved, and a save that fails keeps the rows it inserted but makes the
   * article's entry an error entry.
   */
  function ProcessOne(t: Tables, a: ArticleInput, extracted: Result<Extraction>, insertError: nat -> Option<string>, updateError: Option<string>): (r: Outcome)
    ensures r.result.id == a.id && r.result.title == a.title
    ensures extracted.Failure? ==> r.tables == t && r.result == NotExtracted(a.id, a.title, extracted.error)
    ensures extracted.Success? ==> r.tables == Save(t, a.id, extracted.value.locations, insertError, updateError).tables
    ensures r.result.Extracted? <==>
      extracted.Success? && Save(t, a.id, extracted.value.locations, insertError, updateError).result.Success?
    ensures r.result.Extracted? ==>
      && r.result.locationsFound == |extracted.value.locations|
      && r.result.primaryLocation == OptProp(Prop(JObject(extracted.value.fields), "summary"), "primary_location")
  {
    match extracted
    case Failure(e) => Outcome(t, NotExtracted(a.id, a.title, e))
    case Success(x) =>
      var saved := Save(t, a.id, x.locations, insertError, updateError);
      match saved.result
      case Failure(e) => Outcome(saved.tables, NotExtracted(a.id, a.title, e))
      case Success(_) =>
        var fields := JObject(x.fields);
        Outcome(saved.tables, Extracted(a.id, a.title, |x.locations|,
          OptProp(Prop(fields, "summary"), "primary_location"), Prop(fields, "processing_time_ms")))
  }

  datatype Processed = Processed(tables: Tables, entries: seq<ArticleResult>)

  /** The tables and entries after the first `i` articles of a batch. */
  function ProcessPrefix(t: Tables, articles: seq<ArticleInput>, extract: Extractor, db: DbErrors, i: nat): (r: Processed)
    requires i <= |articles|
    ensures |r.entries| == i
  {
    if i == 0 then Processed(t, [])
    else
      var before := ProcessPrefix(t, articles, extract, db, i - 1);
      var o := ProcessOne(before.tables, articles[i - 1], extract(i - 1, articles[i - 1]), InsertErrors(db, i - 1), db.update(i - 1));
      Processed(o.tables, before.entries + [o.result])
  }

  /**
   * The entries of a batch stand for its articles in order: the `j`-th is the `j`-th
   * article's, an error entry when its extraction failed, and otherwise as many locations
   * as the extraction found.
   */
  lemma {:induction false} EntriesInOrder(t: Tables, articles: seq<ArticleInput>, extract: Extractor, db: DbErrors, i: nat)
    requires i <= |articles|
    ensures var r := ProcessPrefix(t, articles, extract, db, i);
      forall j :: 0 <= j < i ==>
        && r.entries[j].id == articles[j].id
        && (extract(j, articles[j]).Failure? ==> r.entries[j] == NotExtracted(articles[j].id, articles[j].title, extract(j, articles[j]).error))
        && (r.entries[j].Extracted? ==>
              && extract(j, articles[j]).Success?
              && r.entries[j].locationsFound == |extract(j, articles[j]).value.locations|)
  {
    if i > 0 {
      EntriesInOrder(t, articles, extract, db, i - 1);
      var before := ProcessPrefix(t, articles, extract, db, i - 1);
      var r := ProcessPrefix(t, articles, extract, db, i);
      forall j | 0 <= j < i - 1
        ensures r.entries[j] == before.entries[j]
      {
      }
    }
  }

  /** Processing more articles only extends the entries. */
  lemma {:induction false} PrefixEntries(t: Tables, articles: seq<ArticleInput>, extract: Extractor, db: DbErrors, i: nat, j: nat)
    requires i <= j <= |articles|
    ensures ProcessPrefix(t, articles, extract, db, j).entries[..i] == ProcessPrefix(t, articles, extract, db, i).entries
    decreases j
  {
    if i < j {
      PrefixEntries(t, articles, extract, db, i, j - 1);
      var e := ProcessPrefix(t, articles, extract, db, j).entries;
      var e1 := ProcessPrefix(t, articles, extract, db, j - 1).entries;
      assert e[..i] == e1[..i];
    } else {
      assert ProcessPrefix(t, articles, extract, db, j).entries[..i] == ProcessPrefix(t, articles, extract, db, j).entries;
    }
  }

  /** `results.successful` for a list of entries. */
  function CountExtracted(entries: seq<ArticleResult>): (r: nat)
    ensures r <= |entries|
  {
    if entries == [] then 0
    else CountExtracted(entries[..|entries| - 1]) + (if entries[|entries| - 1].Extracted? then 1 else 0)
  }

  /** `results.locations_extracted` for a list of entries. */
  function SumFound(entries: seq<ArticleResult>): (r: nat)
  {
    if entries == [] then 0
    else
      var last := entries[|entries| - 1];
      SumFound(entries[..|entries| - 1]) + (if last.Extracted? then last.locationsFound else 0)
  }

  /** Only successful entries add locations: a batch with no success has extracted none. */
  lemma {:induction false} NoSuccessNoLocations(entries: seq<ArticleResult>)
    requires CountExtracted(entries) == 0
    ensures SumFound(entries) == 0
    decreases |entries|
  {
    if entries != [] {
      NoSuccessNoLocations(entries[..|entries| - 1]);
    }
  }

  datatype Progress = Progress(processed: nat, total: nat, successful: nat, failed: nat)

  /** The report made once the first `p` entries are done, for every `p`. */
  function Marks(entries: seq<ArticleResult>): (r: seq<Progress>)
    ensures |r| == |entries| + 1
    ensures forall p :: 0 <= p <= |entries| ==>
      r[p] == Progress(p, |entries|, CountExtracted(entries[..p]), p - CountExtracted(entries[..p]))
  {
    seq(|entries| + 1, (p: int) requires 0 <= p <= |entries| =>
      Progress(p, |entries|, CountExtracted(entries[..p]), p - CountExtracted(entries[..p])))
  }

  /** The object `processArticlesForLocations` returns. */
  datatype Results = Results(total: nat, successful: nat, failed: nat, locationsExtracted: nat, articles: seq<ArticleResult>)

  /** One pass of the loop of `processArticlesForLocations`, given the article's extraction. */
  method ProcessArticle(store: LocationStore, a: ArticleInput, extraction: Result<Extraction>, insertError: nat -> Option<string>, updateError: Option<string>)
    returns (entry: ArticleResult)
    modifies store
    ensures Outcome(store.State(), entry) == ProcessOne(old(store.State()), a, extraction, insertError, updateError)
  {
    if extraction.Failure? {
      return NotExtracted(a.id, a.title, extraction.error);
    }
    var saved := store.SaveExtractedLocations(a.id, extraction.value.locations, insertError, updateError);
    if saved.Failure? {
      return NotExtracted(a.id, a.title, saved.error);
    }
    var fields := JObject(extraction.value.fields);
    entry := Extracted(a.id, a.title, |extraction.value.locations|,
      OptProp(Prop(fields, "summary"), "primary_location"), Prop(fields, "processing_time_ms"));
  }

  /** One more article: its pass is the next step of the batch. */
  lemma ProcessStep(t: Tables, articles: seq<ArticleInput>, extract: Extractor, db: DbErrors, i: nat)
    requires i < |articles|
    ensures var before := ProcessPrefix(t, articles, extract, db, i);
      var o := ProcessOne(before.tables, articles[i], extract(i, articles[i]), InsertErrors(db, i), db.update(i));
      ProcessPrefix(t, articles, extract, db, i + 1) == Processed(o.tables, before.entries + [o.result])
  {
  }

  /** The counters after one more entry. */
  lemma AppendResult(entries: seq<ArticleResult>, e: ArticleResult)
    ensures CountExtracted(entries + [e]) == CountExtracted(entries) + (if e.Extracted? then 1 else 0)
    ensures SumFound(entries + [e]) == SumFound(entries) + (if e.Extracted? then e.locationsFound else 0)
  {
    assert (entries + [e])[..|entries|] == entries;
  }

  /**
   * The passes of the loop over a batch of `total` articles, once the first `|entries|`
   * are done: each pass reports the counts so far, then pauses unless it was the last.
   */
  function Passes(entries: seq<ArticleResult>, total: nat, delayMs: int): (r: seq<Group<Progress>>)
    ensures |r| == |entries|
  {
    if entries == [] then []
    else
      var done := |entries|;
      var c := CountExtracted(entries);
      Passes(entries[..done - 1], total, delayMs)
        + [Group(Progress(done, total, c, done - c), if done - 1 < total - 1 && delayMs > 0 then Some(delayMs) else None)]
  }

  /** One more entry adds one pass. */
  lemma PassesSnoc(entries: seq<ArticleResult>, e: ArticleResult, total: nat, delayMs: int)
    ensures var done := |entries| + 1;
      var c := CountExtracted(entries + [e]);
      Passes(entries + [e], total, delayMs)
        == Passes(entries, total, delayMs)
           + [Group(Progress(done, total, c, done - c), if |entries| < total - 1 && delayMs > 0 then Some(delayMs) else None)]
  {
    assert (entries + [e])[..|entries|] == entries;
  }

  /** The passes once `k` entries are done are those once `k - 1` are done, and one more. */
  lemma PassesTake(entries: seq<ArticleResult>, total: nat, delayMs: int, k: nat)
    requires 0 < k <= |entries|
    ensures var c := CountExtracted(entries[..k]);
      Passes(entries[..k], total, delayMs)
        == Passes(entries[..k - 1], total, delayMs)
           + [Group(Progress(k, total, c, k - c), if k - 1 < total - 1 && delayMs > 0 then Some(delayMs) else None)]
  {
    assert entries[..k][..k - 1] == entries[..k - 1];
  }

  /**
   * The passes of the whole batch are the schedule with one article per group, so the last
   * report counts every article and there is no pause after it.
   */
  lemma {:induction false} PassesAreSchedule(entries: seq<ArticleResult>, delayMs: int, k: nat)
    requires k <= |entries|
    ensures Passes(entries[..k], |entries|, delayMs) + Schedule(|entries|, 1, delayMs, Marks(entries), k)
         == Schedule(|entries|, 1, delayMs, Marks(entries), 0)
    decreases k
  {
    if k > 0 {
      var n := |entries|;
      var marks := Marks(entries);
      PassesAreSchedule(entries, delayMs, k - 1);
      var pre := Passes(entries[..k - 1], n, delayMs);
      var rest := Schedule(n, 1, delayMs, marks, k);
      var g := Group(marks[k], if k < n && delayMs > 0 then Some(delayMs) else None);
      ScheduleStep(n, 1, delayMs, marks, k - 1);
      assert Min(k - 1 + 1, n) == k;
      assert Schedule(n, 1, delayMs, marks, k - 1) == [g] + rest;
      var c := CountExtracted(entries[..k]);
      PassesTake(entries, n, delayMs, k);
      assert marks[k] == Progress(k, n, c, k - c);
      assert Passes(entries[..k], n, delayMs) == pre + [g];
      Associate(pre, [g], rest);
    }
  }

  /** The loop of `processArticlesForLocations`, for any extractor. */
  method RunLocations(articles: seq<ArticleInput>, store: LocationStore, extract: Extractor, db: DbErrors, delayMs: int)
    returns (results: Results, trace: seq<Group<Progress>>)
    modifies store
    ensures var p := ProcessPrefix(old(store.State()), articles, extract, db, |articles|);
      && store.State() == p.tables
      && results == Results(|articles|, CountExtracted(p.entries), |articles| - CountExtracted(p.entries), SumFound(p.entries), p.entries)
      && trace == Schedule(|articles|, 1, delayMs, Marks(p.entries), 0)
  {
    var n := |articles|;
    ghost var t0 := store.State();
    var entries: seq<ArticleResult> := [];
    var successful, failed, found := 0, 0, 0;
    trace := [];
    var i := 0;
    while i < n
      invariant i <= n
      invariant store.State() == ProcessPrefix(t0, articles, extract, db, i).tables
      invariant entries == ProcessPrefix(t0, articles, extract, db, i).entries
      invariant successful == CountExtracted(entries) && failed == i - successful && found == SumFound(entries)
      invariant trace == Passes(entries, n, delayMs)
    {
      var entry := ProcessArticle(store, articles[i], extract(i, articles[i]), InsertErrors(db, i), db.update(i));
      ProcessStep(t0, articles, extract, db, i);
      AppendResult(entries, entry);
      PassesSnoc(entries, entry, n, delayMs);
      entries := entries + [entry];
      if entry.Extracted? {
        successful := successful + 1;
        found := found + entry.locationsFound;
      } else {
        failed := failed + 1;
      }
      var pause: Option<int> := None;
      if i < n - 1 && delayMs > 0 {
        pause := Some(delayMs);
      }
      trace := trace + [Group(Progress(i + 1, n, successful, failed), pause)];
      i := i + 1;
    }
    assert entries[..n] == entries;
    PassesAreSchedule(entries, delayMs, n);
    results := Results(n, successful, failed, found, entries);
  }

  /**
   * `processArticlesForLocations`: every article is extracted and, when that works, saved;
   * the totals count the entries, the location count adds up the successful ones, the store
   * ends as the saves leave it, and there is one progress report per article with a pause
   * after every article but the last.
   */
  method ProcessArticles(env: Env, template: string, articles: seq<ArticleInput>, store: LocationStore, calls: AiCalls, db: DbErrors, delayMs: int)
    returns (results: Results, trace: seq<Group<Progress>>)
    modifies store
    ensures var p := ProcessPrefix(old(store.State()), articles, ExtractStep(env, template, calls), db, |articles|);
      && store.State() == p.tables
      && results == Results(|articles|, CountExtracted(p.entries), |articles| - CountExtracted(p.entries), SumFound(p.entries), p.entries)
      && trace == Schedule(|articles|, 1, delayMs, Marks(p.entries), 0)
  {
    results, trace := RunLocations(articles, store, ExtractStep(env, template, calls), db, delayMs);
  }
}
