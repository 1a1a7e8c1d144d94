/**
 `POST /analyze/batch` and its per-item helper `analyze_single_video_internal`.

 The helper runs one download-and-detect attempt and turns every exception
 raised inside its `try` into an error record, so a failing video yields a
 record rather than an exception. The batch handler converts `max_frames`,
 checks that `videos` is non-empty, then walks the items in order, tagging
 each record with the item's `id` (or its `url`). Anything that escapes,
 whether from the conversion, an item without `.get`, or a record that cannot
 take an `id` key, makes the whole batch a 500.
 */
module Batch {
  import opened Values
  import opened Coerce
  import opened Workspace
  import Analyze

  const MsgDownloadFailed := "Failed to download video"
  const MsgVideosRequired := "videos array is required"
  const PrefixBatch := "Batch analysis failed: "

  /** What one call of the helper returns or raises, and what it did. */
  datatype Single = Single(result: Result<Json>, trace: seq<Event>)

  /**
   The record the helper returns: the detector's result when the download
   was usable and the detector returned; otherwise a dict holding just the
   error text and the neutral score.
   */
  function RecordOf(a: Acquired, d: DetectOutcome): (r: Json)
    ensures a.Usable? && d.Returns? ==> r == d.result
    ensures !(a.Usable? && d.Returns?) ==>
              && r.JObj? && r.fields.Keys == {"error", "ai_probability"}
              && IsNeutral(r) && r.fields["error"].JStr?
  {
    match a
    case DownloadRaised(m) => NeutralErrorBody(m)
    case Unusable(_) => NeutralErrorBody(MsgDownloadFailed)
    case Usable(_) =>
      match d
      case Returns(res) => res
      case DetectRaises(m) => NeutralErrorBody(m)
  }

  /**
   `analyze_single_video_internal(video_url, max_frames)`. Only `mkdtemp`,
   which runs before the `try`, can make it raise; once the directory exists
   it always returns a record and always cleans up.
   */
  function AnalyzeSingle(url: Json, maxFrames: int, env: Env): (s: Single)
    ensures env.temp.TempRaises? ==> s == Single(Err(Raised(env.temp.msg)), [])
    ensures env.temp.Created? ==> s.result.Ok? && Scoped(s.trace, env.temp.dir)
    ensures env.temp.Created? ==> s.trace[1] == Fetch(url, env.temp.dir, LegacyMaxDuration)
    ensures env.temp.Created? ==>
              (Count(s.trace, KDetect) == 1 <==> Acquire(env.fetch).Usable?)
    ensures env.temp.Created? && Acquire(env.fetch).Usable? ==>
              s.trace[2] == Detect(env.fetch.path, maxFrames, false)
  {
    match env.temp
    case TempRaises(m) => Single(Err(Raised(m)), [])
    case Created(dir) =>
      var a := Acquire(env.fetch);
      var detection := if a.Usable? then Some((a.path, maxFrames)) else None;
      Single(Ok(RecordOf(a, env.detect)), AttemptTrace(url, dir, detection, a.PathAfter(), env.cleanup))
  }

  /** One pass of the loop body: read `url` and `id`, run the helper, set `response['id']`. */
  function ProcessItem(item: Json, maxFrames: int, env: Env): (s: Single)
    ensures s.trace == [] || (env.temp.Created? && Scoped(s.trace, env.temp.dir))
    ensures PassShaped(s)
    ensures !item.JObj? ==> s == Single(Err(NoGetError(TypeName(item))), [])
  {
    match Get(item, "url", JNull)
    case Err(e) => Single(Err(e), [])
    case Ok(url) =>
      match Get(item, "id", url)
      case Err(e) => Single(Err(e), [])
      case Ok(id) =>
        var single := AnalyzeSingle(url, maxFrames, env);
        match single.result
        case Err(e) => Single(Err(e), single.trace)
        case Ok(record) =>
          ScopedReleased(single.trace, env.temp.dir);
          Single(SetItem(record, "id", id), single.trace)
  }

  /** The `url` of an item, `None` when absent. */
  function ItemUrl(item: Json): Json
    requires item.JObj?
  {
    Get(item, "url", JNull).value
  }

  /** The identifier an item's result is tagged with: its `id`, or its `url` when it has none. */
  function ItemId(item: Json): Json
    requires item.JObj?
  {
    if "id" in item.fields then item.fields["id"] else ItemUrl(item)
  }

  /** Appending one pass adds at most one workspace, released, and at most one detector call. */
  lemma AppendPass(prev: seq<Event>, pass: Single)
    requires PassShaped(pass)
    ensures Count(prev + pass.trace, KMkTemp) == Count(prev, KMkTemp) + (if pass.trace == [] then 0 else 1)
    ensures Count(prev + pass.trace, KRmTree) == Count(prev, KRmTree) + (if pass.trace == [] then 0 else 1)
    ensures Count(prev + pass.trace, KDetect) <= Count(prev, KDetect) + 1
  {
    CountAppend(prev, pass.trace, KMkTemp);
    CountAppend(prev, pass.trace, KRmTree);
    CountAppend(prev, pass.trace, KDetect);
  }

  /**
   What a pass of the loop can look like: no effect at all, or exactly one
   workspace, created and released under its own name, with at most one
   detector call; a pass that yields a record always ran the helper.
   */
  predicate PassShaped(p: Single)
  {
    && (p.result.Ok? ==> p.trace != [])
    && Released(p.trace)
    && (p.trace == [] || (Count(p.trace, KMkTemp) == 1 && Count(p.trace, KRmTree) == 1 && Count(p.trace, KDetect) <= 1))
  }

  /** The passes of the loop, one per item, pass `i` running in world `worlds(i)`. */
  function Passes(items: seq<Json>, maxFrames: int, worlds: nat -> Env): (ps: seq<Single>)
    ensures |ps| == |items|
    ensures forall i :: 0 <= i < |items| ==> ps[i] == ProcessItem(items[i], maxFrames, worlds(i))
  {
    seq(|items|, i requires 0 <= i < |items| => ProcessItem(items[i], maxFrames, worlds(i)))
  }

  /** The `results` list so far, the exception that stopped the loop if any, and what the loop did. */
  datatype Run = Run(results: seq<Json>, failure: Option<PyError>, trace: seq<Event>)

  /**
   The first `n` passes of `for video_data in videos`. The loop appends each
   pass's record in order, stops at the first pass that raises, and keeps
   the effects of every pass it ran: every directory it creates, it later
   attempts to remove under the same name.
   */
  function Loop(passes: seq<Single>, n: nat): (r: Run)
    requires n <= |passes|
    requires forall i :: 0 <= i < |passes| ==> PassShaped(passes[i])
    ensures r.failure.None? ==> |r.results| == n
    ensures r.failure.Some? ==> |r.results| < n && passes[|r.results|].result == Err(r.failure.value)
    ensures forall i :: 0 <= i < |r.results| ==> passes[i].result == Ok(r.results[i])
    ensures Count(r.trace, KMkTemp) == Count(r.trace, KRmTree) <= n
    ensures r.failure.None? ==> Count(r.trace, KMkTemp) == n
    ensures Count(r.trace, KDetect) <= n
    ensures Released(r.trace)
  {
    if n == 0 then Run([], None, [])
    else
      var prev := Loop(passes, n - 1);
      if prev.failure.Some? then prev
      else
        var pass := passes[n - 1];
        var trace := prev.trace + pass.trace;
        AppendPass(prev.trace, pass);
        ReleasedAppend(prev.trace, pass.trace);
        match pass.result
        case Ok(record) =>
          var results := prev.results + [record];
          assert forall i :: 0 <= i < |prev.results| ==> results[i] == prev.results[i];
          Run(results, None, trace)
        case Err(e) => Run(prev.results, Some(e), trace)
  }

  /** The outer `except Exception` handler of the batch endpoint: a 500 without a score. */
  function BatchCrash(e: PyError, t: seq<Event>): (out: Outcome)
    ensures out.response.status == 500 && out.trace == t
    ensures ErrorStartsWith(out.response.body, PrefixBatch) && !IsNeutral(out.response.body)
  {
    Outcome(Response(500, ErrorBody(PrefixBatch + Str(e))), t)
  }

  /**
   The loop over a list of items and the response it leads to: the list of
   records, or a 500 for the exception that stopped the loop.
   */
  function RunBatch(items: seq<Json>, maxFrames: int, worlds: nat -> Env): (out: Outcome)
    ensures out.response.status in {200, 500}
    ensures Count(out.trace, KMkTemp) == Count(out.trace, KRmTree) <= |items|
    ensures Released(out.trace)
    ensures out.response.status == 200 ==>
              && out.response.body.JObj? && "results" in out.response.body.fields
              && out.response.body.fields["results"].JList?
              && |out.response.body.fields["results"].items| == |items|
              && Count(out.trace, KMkTemp) == |items|
  {
    var run := Loop(Passes(items, maxFrames, worlds), |items|);
    match run.failure
    case Some(e) => BatchCrash(e, run.trace)
    case None => Outcome(Response(200, JObj(map["results" := JList(run.results)])), run.trace)
  }

  /** The `analyze_batch` handler; item `i` of `videos` runs in world `worlds(i)`. */
  function AnalyzeBatch(req: RequestJson, worlds: nat -> Env): (out: Outcome)
    ensures out.response.status in {200, 400, 500}
    ensures Count(out.trace, KMkTemp) == Count(out.trace, KRmTree)
    ensures Released(out.trace)
    ensures out.response.status == 200 ==>
              && req.Parsed? && req.data.JObj? && "videos" in req.data.fields
              && req.data.fields["videos"].JList?
              && var items := req.data.fields["videos"].items;
                 && out.response.body.JObj? && "results" in out.response.body.fields
                 && out.response.body.fields["results"].JList?
                 && |out.response.body.fields["results"].items| == |items| > 0
                 && Count(out.trace, KMkTemp) == |items|
  {
    match req
    case ParseRaises(m) => BatchCrash(Raised(m), [])
    case Parsed(data) =>
      match Get(data, "videos", JList([]))
      case Err(e) => BatchCrash(e, [])
      case Ok(videos) =>
        match MaxFrames(data)
        case Err(e) => BatchCrash(e, [])
        case Ok(maxFrames) =>
          if !Truthy(videos) then Outcome(Response(400, ErrorBody(MsgVideosRequired)), [])
          else
            match videos
            case JList(items) => RunBatch(items, maxFrames, worlds)
            // iterating a string yields one-character strings, iterating a dict its string keys:
            // the first of them has no `.get`
            case JStr(_) => BatchCrash(NoGetError("str"), [])
            case JObj(_) => BatchCrash(NoGetError("str"), [])
            case _ => BatchCrash(TypeError(Quote(TypeName(videos)) + " object is not iterable"), [])
  }

  /**
   Once `mkdtemp` has returned, the helper never raises: an unusable download
   is the fixed error record, an exception from the downloader or the detector
   is a record carrying its text, and either way the score is neutral. The
   workspace is always released, and the detector runs exactly when the
   download is usable.
   */
  lemma SingleNeverRaises(url: Json, maxFrames: int, env: Env)
    requires env.temp.Created?
    ensures var s := AnalyzeSingle(url, maxFrames, env);
            && s.result.Ok?
            && Scoped(s.trace, env.temp.dir)
            && (Count(s.trace, KDetect) == 1 <==> Acquire(env.fetch).Usable?)
    ensures var r := AnalyzeSingle(url, maxFrames, env).result;
            && (env.fetch.ReturnsNone? || (env.fetch.ReturnsPath? && !Acquire(env.fetch).Usable?) ==>
                  r.value == NeutralErrorBody(MsgDownloadFailed))
            && (env.fetch.FetchRaises? ==> r.value == NeutralErrorBody(env.fetch.msg))
            && (Acquire(env.fetch).Usable? && env.detect.DetectRaises? ==> r.value == NeutralErrorBody(env.detect.msg))
            && (Acquire(env.fetch).Usable? && env.detect.Returns? ==> r.value == env.detect.result)
  {
  }

  /** The `videos` field, the empty list when absent. */
  function VideosField(data: Json): Json
    requires data.JObj?
  {
    Get(data, "videos", JList([])).value
  }

  /**
   `max_frames` is converted before `videos` is checked: a conversion failure
   is a 500 through the outer handler even when `videos` is missing, and a
   missing or empty `videos` is a 400 only when the conversion succeeds.
   Neither path touches the file system.
   */
  lemma BatchValidationOrder(req: RequestJson, worlds: nat -> Env)
    requires req.Parsed? && req.data.JObj?
    ensures var out := AnalyzeBatch(req, worlds);
            MaxFrames(req.data).Err? ==>
              && out.response.status == 500
              && HasError(out.response.body, PrefixBatch + Str(MaxFrames(req.data).error))
              && out.trace == []
    ensures var out := AnalyzeBatch(req, worlds);
            MaxFrames(req.data).Ok? && !Truthy(VideosField(req.data)) ==>
              out == Outcome(Response(400, ErrorBody(MsgVideosRequired)), [])
  {
  }

  /**
   A batch request whose body is `null` fails on `data.get` and is a 500,
   where the single-video endpoint answers the same body with a 400.
   */
  lemma BatchWithoutBodyIsServerError(worlds: nat -> Env, env: Env)
    ensures AnalyzeBatch(Parsed(JNull), worlds).response.status == 500
    ensures HasError(AnalyzeBatch(Parsed(JNull), worlds).response.body, PrefixBatch + Str(NoGetError("NoneType")))
    ensures Analyze.AnalyzeVideo(Parsed(JNull), env).response.status == 400
  {
  }

  /**
   An item the loop passes without raising: a dict, a `mkdtemp` that
   succeeds, and a record that can take an `id` key (an error record always
   can; the detector's result can when it is a dict).
   */
  predicate WellFormedItem(item: Json, env: Env)
  {
    && item.JObj?
    && env.temp.Created?
    && (Acquire(env.fetch).Usable? && env.detect.Returns? ==> env.detect.result.JObj?)
  }

  /** The items before position `n` are all well formed in their worlds. */
  predicate WellFormedUpTo(items: seq<Json>, worlds: nat -> Env, n: nat)
    requires n <= |items|
  {
    forall i :: 0 <= i < n ==> WellFormedItem(items[i], worlds(i))
  }

  /**
   A well-formed item yields the helper's record with `id` set to the item's
   `id`, or its `url` when it has none, overwriting any `id` the detector
   returned; every other key of the record is kept.
   */
  lemma ProcessWellFormed(item: Json, maxFrames: int, env: Env)
    requires WellFormedItem(item, env)
    ensures var s := ProcessItem(item, maxFrames, env);
            var record := AnalyzeSingle(ItemUrl(item), maxFrames, env).result.value;
            && s.result.Ok? && s.result.value.JObj? && record.JObj?
            && s.result.value.fields.Keys == record.fields.Keys + {"id"}
            && s.result.value.fields["id"] == ItemId(item)
            && (forall k :: k in record.fields && k != "id" ==> s.result.value.fields[k] == record.fields[k])
            && s.trace == AnalyzeSingle(ItemUrl(item), maxFrames, env).trace
  {
    SingleNeverRaises(ItemUrl(item), maxFrames, env);
  }

  /** A batch over a non-empty list of items whose frame budget converts runs the loop over the items. */
  lemma BatchOfList(req: RequestJson, worlds: nat -> Env)
    requires req.Parsed? && req.data.JObj? && MaxFrames(req.data).Ok?
    requires VideosField(req.data).JList? && VideosField(req.data).items != []
    ensures var items := VideosField(req.data).items;
            var run := Loop(Passes(items, MaxFrames(req.data).value, worlds), |items|);
            && AnalyzeBatch(req, worlds).trace == run.trace
            && (run.failure.None? ==>
                  AnalyzeBatch(req, worlds).response == Response(200, JObj(map["results" := JList(run.results)])))
            && (run.failure.Some? ==>
                  AnalyzeBatch(req, worlds).response == Response(500, ErrorBody(PrefixBatch + Str(run.failure.value))))
  {
    var data := req.data;
    var items := VideosField(data).items;
    var maxFrames := MaxFrames(data).value;
    assert AnalyzeBatch(req, worlds) == RunBatch(items, maxFrames, worlds) by {
      assert Get(data, "videos", JList([])) == Ok(JList(items));
      assert Truthy(JList(items));
    }
    RunBatchOutcome(items, maxFrames, worlds);
  }

  lemma RunBatchOutcome(items: seq<Json>, maxFrames: int, worlds: nat -> Env)
    ensures var run := Loop(Passes(items, maxFrames, worlds), |items|);
            RunBatch(items, maxFrames, worlds)
            == if run.failure.None? then Outcome(Response(200, JObj(map["results" := JList(run.results)])), run.trace)
               else BatchCrash(run.failure.value, run.trace)
  {
  }

  /**
   When every item is well formed the batch is a 200 whose results follow
   the items one for one, in order: result `i` is item `i`'s record, tagged
   with item `i`'s `id` (or `url`). Each item got its own workspace, and
   every workspace was released.
   */
  lemma BatchKeepsOrderAndIds(req: RequestJson, worlds: nat -> Env)
    requires req.Parsed? && req.data.JObj? && MaxFrames(req.data).Ok?
    requires VideosField(req.data).JList? && VideosField(req.data).items != []
    requires WellFormedUpTo(VideosField(req.data).items, worlds, |VideosField(req.data).items|)
    ensures var items := VideosField(req.data).items;
            var out := AnalyzeBatch(req, worlds);
            && out.response.status == 200
            && out.response.body.JObj? && "results" in out.response.body.fields
            && out.response.body.fields["results"].JList?
            && |out.response.body.fields["results"].items| == |items|
            && (forall i :: 0 <= i < |items| ==>
                  out.response.body.fields["results"].items[i]
                  == ProcessItem(items[i], MaxFrames(req.data).value, worlds(i)).result.value)
            && (forall i :: 0 <= i < |items| ==>
                  out.response.body.fields["results"].items[i].JObj?
                  && "id" in out.response.body.fields["results"].items[i].fields
                  && out.response.body.fields["results"].items[i].fields["id"] == ItemId(items[i]))
            && Count(out.trace, KMkTemp) == Count(out.trace, KRmTree) == |items|
  {
    var items := VideosField(req.data).items;
    var mf := MaxFrames(req.data).value;
    var passes := Passes(items, mf, worlds);
    forall i | 0 <= i < |items|
      ensures passes[i].result.Ok?
      ensures passes[i].result.value.JObj? && "id" in passes[i].result.value.fields
      ensures passes[i].result.value.fields["id"] == ItemId(items[i])
    {
      ProcessWellFormed(items[i], mf, worlds(i));
    }
    BatchOfList(req, worlds);
  }

  /**
   A failing video never stops its siblings: whatever happens to item `j`'s
   download or detector, and whatever its own world, every other item's
   result is the same, provided every item stays well formed.
   */
  lemma SiblingsUnaffected(req: RequestJson, worlds: nat -> Env, other: nat -> Env, j: nat)
    requires req.Parsed? && req.data.JObj? && MaxFrames(req.data).Ok?
    requires VideosField(req.data).JList? && VideosField(req.data).items != []
    requires forall i: nat :: i != j ==> other(i) == worlds(i)
    requires WellFormedUpTo(VideosField(req.data).items, worlds, |VideosField(req.data).items|)
    requires WellFormedUpTo(VideosField(req.data).items, other, |VideosField(req.data).items|)
    ensures var a := AnalyzeBatch(req, worlds).response;
            var b := AnalyzeBatch(req, other).response;
            && a.status == b.status == 200
            && |a.body.fields["results"].items| == |b.body.fields["results"].items|
            && forall i :: 0 <= i < |a.body.fields["results"].items| && i != j ==>
                 a.body.fields["results"].items[i] == b.body.fields["results"].items[i]
  {
    BatchKeepsOrderAndIds(req, worlds);
    BatchKeepsOrderAndIds(req, other);
  }

  /** Once the loop has stopped, later passes change nothing. */
  lemma {:induction false} LoopStops(passes: seq<Single>, m: nat, n: nat)
    requires m <= n <= |passes|
    requires forall i :: 0 <= i < |passes| ==> PassShaped(passes[i])
    requires Loop(passes, m).failure.Some?
    ensures Loop(passes, n) == Loop(passes, m)
    decreases n
  {
    if n > m {
      LoopStops(passes, m, n - 1);
    }
  }

  /**
   Once pass `k` raises, the loop stops there: later passes add nothing to
   the results or to what the loop did.
   */
  lemma PrefixRun(passes: seq<Single>, k: nat, n: nat)
    requires k < n <= |passes|
    requires forall i :: 0 <= i < |passes| ==> PassShaped(passes[i])
    requires Loop(passes, k).failure.None? && passes[k].result.Err?
    ensures Loop(passes, n).failure == Some(passes[k].result.error)
    ensures Loop(passes, n).results == Loop(passes, k).results
    ensures Loop(passes, n).trace == Loop(passes, k).trace + passes[k].trace
    ensures Count(Loop(passes, n).trace, KMkTemp)
            == Count(Loop(passes, k).trace, KMkTemp) + (if passes[k].trace == [] then 0 else 1)
  {
    var prev := Loop(passes, k);
    assert Loop(passes, k + 1) == Run(prev.results, Some(passes[k].result.error), prev.trace + passes[k].trace);
    AppendPass(prev.trace, passes[k]);
    LoopStops(passes, k + 1, n);
  }

  /**
   An item that is not a dict aborts the whole batch: every well-formed item
   before it was analysed and its workspace released, the first bad item
   raises on `.get`, and no later item is looked at.
   */
  lemma NonDictItemAbortsBatch(req: RequestJson, worlds: nat -> Env, k: nat)
    requires req.Parsed? && req.data.JObj? && MaxFrames(req.data).Ok?
    requires VideosField(req.data).JList? && k < |VideosField(req.data).items|
    requires WellFormedUpTo(VideosField(req.data).items, worlds, k)
    requires !VideosField(req.data).items[k].JObj?
    ensures var out := AnalyzeBatch(req, worlds);
            && out.response.status == 500
            && HasError(out.response.body, PrefixBatch + Str(NoGetError(TypeName(VideosField(req.data).items[k]))))
            && Count(out.trace, KMkTemp) == Count(out.trace, KRmTree) == k
  {
    var items := VideosField(req.data).items;
    var mf := MaxFrames(req.data).value;
    var passes := Passes(items, mf, worlds);
    forall i | 0 <= i < k
      ensures passes[i].result.Ok?
    {
      ProcessWellFormed(items[i], mf, worlds(i));
    }
    assert Loop(passes, k).failure.None?;
    PrefixRun(passes, k, |items|);
    BatchOfList(req, worlds);
  }

  /** The record of an item whose download yields nothing: the download error, tagged. */
  lemma DownloadFailedRecord(item: Json, maxFrames: int, env: Env)
    requires item.JObj? && env.temp.Created? && env.fetch.ReturnsNone?
    ensures ProcessItem(item, maxFrames, env).result
            == Ok(JObj(map["error" := JStr(MsgDownloadFailed), "ai_probability" := Neutral, "id" := ItemId(item)]))
  {
    SingleNeverRaises(ItemUrl(item), maxFrames, env);
  }

  /** The record of an item whose detector returns a dict: that dict, tagged. */
  lemma DetectedRecord(item: Json, maxFrames: int, env: Env)
    requires item.JObj? && env.temp.Created? && Acquire(env.fetch).Usable?
    requires env.detect.Returns? && env.detect.result.JObj?
    ensures ProcessItem(item, maxFrames, env).result
            == Ok(JObj(env.detect.result.fields["id" := ItemId(item)]))
  {
    SingleNeverRaises(ItemUrl(item), maxFrames, env);
  }
}
