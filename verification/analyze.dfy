/**
 `POST /analyze`: validate the request, create a temporary directory, download
 the video into it, run the detector over it, and map every way out of that
 sequence to a status code. The `finally` block removes the download and the
 directory whichever way the inner block is left, and the outer
 `except Exception` turns anything that escapes into a 500 with the neutral
 score.
 */
module Analyze {
  import opened Values
  import opened Coerce
  import opened Workspace

  const MsgNotJson := "Request body must be JSON"
  const MsgUrlRequired := "video_url is required"
  const MsgUnusable := "Failed to download video. It may be private, deleted, or geo-restricted."
  const PrefixDownload := "Video download failed: "
  const PrefixAnalysis := "Analysis failed: "

  /** The outer `except Exception` handler. */
  function Crash(e: PyError, t: seq<Event>): (out: Outcome)
    ensures out.response.status == 500 && out.trace == t
    ensures IsNeutral(out.response.body) && ErrorStartsWith(out.response.body, PrefixAnalysis)
  {
    Outcome(Response(500, NeutralErrorBody(PrefixAnalysis + Str(e))), t)
  }

  /** A Python number: `bool`, `int` or `float`, the types the `.2%` format accepts. */
  predicate IsNumber(v: Json)
  {
    v.JBool? || v.JInt? || v.JReal?
  }

  /**
   2^1024 - 2^970, the smallest integer that `float()` rounds to infinity
   under round-half-to-even; from here on `float(n)` raises `OverflowError`.
   */
  const FloatOverflowAt: int := 179769313486231580793728971405303415079934132710037826936173778980444968292764750946649017977587207096330286416692887910946555547851940402630657488671505820681908902000708383676273854845817711531764475730270069855571366959622842914819860834936475292719074168444365510704342711559699508093042880177904174497792

  /** A number `float()` accepts: every bool and float, and every int of magnitude below `FloatOverflowAt`. */
  predicate FitsFloat(v: Json)
  {
    IsNumber(v) && (v.JInt? ==> -FloatOverflowAt < v.i < FloatOverflowAt)
  }

  /**
   `format(v, '.2%')`. The `%` presentation converts an int to `float`
   first, so an int too large for a float raises `OverflowError`.
   */
  function FormatPercent(v: Json): (r: Option<PyError>)
    ensures r.None? <==> FitsFloat(v)
    ensures IsNumber(v) && !FitsFloat(v) ==> r == Some(OverflowError("int too large to convert to float"))
  {
    match v
    case JBool(_) => None
    case JInt(i) =>
      if -FloatOverflowAt < i < FloatOverflowAt then None
      else Some(OverflowError("int too large to convert to float"))
    case JReal(_) => None
    case JStr(_) => Some(ValueError("Unknown format code '%' for object of type 'str'"))
    case _ => Some(TypeError("unsupported format string passed to " + TypeName(v) + ".__format__"))
  }

  /**
   The completion log line, which reads `results['verdict']` and formats
   `results['ai_probability']` as a percentage, and raises when the detector's
   result does not allow that.
   */
  function ReportError(results: Json): (r: Option<PyError>)
    ensures r.None? <==> && results.JObj?
                         && "verdict" in results.fields
                         && "ai_probability" in results.fields
                         && FitsFloat(results.fields["ai_probability"])
  {
    match Subscript(results, "verdict")
    case Err(e) => Some(e)
    case Ok(_) =>
      match Subscript(results, "ai_probability")
      case Err(e) => Some(e)
      case Ok(p) => FormatPercent(p)
  }

  /**
   How the inner `try` ends: a response it returns or an exception that
   escapes it. A failed download is answered inside with a neutral 400; a
   usable one ends in a 200 carrying the detector's result, or in an
   exception from the detector or from the completion log line.
   */
  function InnerResult(a: Acquired, d: DetectOutcome): (r: Result<Response>)
    ensures r.Ok? ==> r.value.status in {200, 400}
    ensures (r.Ok? && r.value.status == 400) <==> !a.Usable?
    ensures r.Ok? && r.value.status == 400 ==> IsNeutral(r.value.body)
    ensures (r.Ok? && r.value.status == 200) <==> a.Usable? && d.Returns? && ReportError(d.result).None?
    ensures r.Ok? && r.value.status == 200 ==> r.value.body == d.result
    ensures a.Usable? && d.DetectRaises? ==> r == Err(Raised(d.msg))
  {
    match a
    case DownloadRaised(m) => Ok(Response(400, NeutralErrorBody(PrefixDownload + m)))
    case Unusable(_) => Ok(Response(400, NeutralErrorBody(MsgUnusable)))
    case Usable(_) =>
      match d
      case DetectRaises(m) => Err(Raised(m))
      case Returns(res) =>
        match ReportError(res)
        case Some(e) => Err(e)
        case None => Ok(Response(200, res))
  }

  /** The `video_url` field, `None` when absent. */
  function UrlField(data: Json): Json
    requires data.JObj?
  {
    Get(data, "video_url", JNull).value
  }

  /** Validation rejects the request with a 400 before anything else happens. */
  predicate Rejected(req: RequestJson)
  {
    && req.Parsed?
    && (!Truthy(req.data) || (req.data.JObj? && !Truthy(UrlField(req.data))))
  }

  /** Validation passes, the frame budget converts, and `mkdtemp` returns a directory. */
  predicate Admitted(req: RequestJson, env: Env)
  {
    && req.Parsed?
    && req.data.JObj? && Truthy(req.data)
    && Truthy(UrlField(req.data))
    && MaxFrames(req.data).Ok?
    && env.temp.Created?
  }

  /** The `analyze_video` handler. */
  function AnalyzeVideo(req: RequestJson, env: Env): (out: Outcome)
    ensures out.response.status in {200, 400, 500}
    ensures out.trace != [] <==> Admitted(req, env)
    ensures out.trace != [] ==> Scoped(out.trace, env.temp.dir)
    ensures out.response.status == 500 ==> IsNeutral(out.response.body) && ErrorStartsWith(out.response.body, PrefixAnalysis)
    ensures out.response.status == 200 ==> env.detect.Returns? && out.response.body == env.detect.result
  {
    match req
    case ParseRaises(m) => Crash(Raised(m), [])
    case Parsed(data) =>
      if !Truthy(data) then Outcome(Response(400, ErrorBody(MsgNotJson)), [])
      else
        match Get(data, "video_url", JNull)
        case Err(e) => Crash(e, [])
        case Ok(url) =>
          if !Truthy(url) then Outcome(Response(400, ErrorBody(MsgUrlRequired)), [])
          else
            match MaxFrames(data)
            case Err(e) => Crash(e, [])
            case Ok(maxFrames) =>
              match env.temp
              case TempRaises(m) => Crash(Raised(m), [])
              case Created(dir) =>
                var a := Acquire(env.fetch);
                var detection := if a.Usable? then Some((a.path, maxFrames)) else None;
                var t := AttemptTrace(url, dir, detection, a.PathAfter(), env.cleanup);
                match InnerResult(a, env.detect)
                case Ok(r) => Outcome(r, t)
                case Err(e) => Crash(e, t)
  }

  /**
   A body that decodes to a falsy value, or a missing or empty `video_url`, is a 400
   before any directory is created, so nothing is downloaded or detected.
   */
  lemma RejectedBeforeWorkspace(req: RequestJson, env: Env)
    requires Rejected(req)
    ensures AnalyzeVideo(req, env).response.status == 400
    ensures AnalyzeVideo(req, env).trace == []
    ensures !Truthy(req.data) ==> HasError(AnalyzeVideo(req, env).response.body, MsgNotJson)
    ensures Truthy(req.data) ==> HasError(AnalyzeVideo(req, env).response.body, MsgUrlRequired)
  {
  }

  /**
   When the download yields nothing usable or raises, the response is a 400
   with the neutral score, its message tells the two cases apart, and the
   detector never runs.
   */
  lemma FetchFailureSkipsDetector(req: RequestJson, env: Env)
    requires Admitted(req, env) && !Acquire(env.fetch).Usable?
    ensures AnalyzeVideo(req, env).response.status == 400
    ensures IsNeutral(AnalyzeVideo(req, env).response.body)
    ensures env.fetch.FetchRaises? ==> HasError(AnalyzeVideo(req, env).response.body, PrefixDownload + env.fetch.msg)
    ensures !env.fetch.FetchRaises? ==> HasError(AnalyzeVideo(req, env).response.body, MsgUnusable)
    ensures Count(AnalyzeVideo(req, env).trace, KDetect) == 0
  {
  }

  /**
   After a usable download the detector runs exactly once, right after the
   download, on the downloaded path, with the converted `max_frames` (100 when
   absent, never checked for being positive) and without visualization.
   */
  lemma DetectorCalledOnce(req: RequestJson, env: Env)
    requires Admitted(req, env) && Acquire(env.fetch).Usable?
    ensures Count(AnalyzeVideo(req, env).trace, KDetect) == 1
    ensures AnalyzeVideo(req, env).trace[2] == Detect(env.fetch.path, MaxFrames(req.data).value, false)
    ensures "max_frames" !in req.data.fields ==> AnalyzeVideo(req, env).trace[2].maxFrames == DefaultMaxFrames
  {
  }

  /**
   The response is a 200 exactly when the detector ran and returned a result
   the completion log line can read; that result is the payload, unchanged.
   */
  lemma SuccessIff(req: RequestJson, env: Env)
    ensures var out := AnalyzeVideo(req, env);
            out.response.status == 200 <==>
              && Admitted(req, env)
              && Acquire(env.fetch).Usable?
              && env.detect.Returns?
              && ReportError(env.detect.result).None?
    ensures var out := AnalyzeVideo(req, env);
            out.response.status == 200 ==> out.response == Response(200, env.detect.result)
  {
  }

  /**
   The response is a 400 exactly when validation rejects the request or the
   download fails; every other failure is a 500.
   */
  lemma ClientErrorIff(req: RequestJson, env: Env)
    ensures var out := AnalyzeVideo(req, env);
            out.response.status == 400 <==>
              Rejected(req) || (Admitted(req, env) && !Acquire(env.fetch).Usable?)
  {
  }

  /**
   A `max_frames` that `int()` cannot convert is a 500 through the outer
   handler, not a validation 400, and no directory is created.
   */
  lemma BadFrameBudgetIsServerError(req: RequestJson, env: Env)
    requires req.Parsed? && req.data.JObj? && Truthy(UrlField(req.data))
    requires MaxFrames(req.data).Err?
    ensures AnalyzeVideo(req, env).response.status == 500
    ensures AnalyzeVideo(req, env).trace == []
    ensures HasError(AnalyzeVideo(req, env).response.body, PrefixAnalysis + Str(MaxFrames(req.data).error))
  {
    assert Truthy(req.data);
    assert Get(req.data, "video_url", JNull) == Ok(UrlField(req.data));
    assert AnalyzeVideo(req, env) == Crash(MaxFrames(req.data).error, []);
  }

  /**
   A detector that raises gives a 500 with the neutral score, and the
   workspace is still cleaned up after the detector ran.
   */
  lemma DetectorFailureIsServerError(req: RequestJson, env: Env)
    requires Admitted(req, env) && Acquire(env.fetch).Usable? && env.detect.DetectRaises?
    ensures AnalyzeVideo(req, env).response.status == 500
    ensures HasError(AnalyzeVideo(req, env).response.body, PrefixAnalysis + env.detect.msg)
    ensures var t := AnalyzeVideo(req, env).trace;
            t[2].Detect? && t[|t| - 1] == RmTree(env.temp.dir)
  {
  }

  /**
   The download is removed exactly when the handler got a non-empty path and
   `os.path.isfile` still reports it in the `finally` block; if the file system
   does not change in between, that is exactly when the download was usable.
   */
  lemma DownloadRemovedIff(req: RequestJson, env: Env)
    requires Admitted(req, env)
    ensures Count(AnalyzeVideo(req, env).trace, KRemoveFile) == 1 <==>
              env.fetch.ReturnsPath? && env.fetch.path != "" && env.cleanup.fileAtCleanup
    ensures env.fetch.ReturnsPath? && env.cleanup.fileAtCleanup == env.fetch.isFile ==>
              (Count(AnalyzeVideo(req, env).trace, KRemoveFile) == 1 <==> Acquire(env.fetch).Usable?)
  {
  }

  /** Cleanup failures are swallowed: what the file system does in the `finally` block never changes the response. */
  lemma CleanupNeverChangesResponse(req: RequestJson, env: Env, c: CleanupOutcome)
    ensures AnalyzeVideo(req, env.(cleanup := c)).response == AnalyzeVideo(req, env).response
  {
  }

  /** A request that sends `max_frames` as the string `"0"` reaches the detector with 0: positivity is never checked. */
  lemma ZeroFramesReachDetector(url: string, env: Env)
    requires url != "" && env.temp.Created? && Acquire(env.fetch).Usable?
    ensures var t := AnalyzeVideo(Parsed(JObj(map["video_url" := JStr(url), "max_frames" := JStr("0")])), env).trace;
            |t| > 2 && t[2] == Detect(env.fetch.path, 0, false)
  {
    var zero := "0";
    assert DigitsValue(zero) == 0;
    assert DigitCount(zero) == 1 by {
      assert zero[1..] == [];
    }
    var req := Parsed(JObj(map["video_url" := JStr(url), "max_frames" := JStr(zero)]));
    assert MaxFrames(req.data) == Ok(0);
    DetectorCalledOnce(req, env);
  }
}
