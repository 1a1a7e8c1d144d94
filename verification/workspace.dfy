/**
 The effects one analysis attempt has on the outside world, recorded as a
 trace of events, and the outcomes the two unseen collaborators (the video
 downloader and the detector) and the file system supply to it.

 An attempt creates a temporary directory, asks the downloader for a file in
 it, may run the detector over that file, and in its `finally` block removes
 the file (if there is one) and the directory.
 */
module Workspace {
  import opened Values

  /** The deprecated `max_duration` both handlers still pass to the downloader. */
  const LegacyMaxDuration := 120

  datatype Event =
    | MkTemp(dir: string)
    | Fetch(url: Json, dir: string, maxDuration: int)
    | Detect(path: string, maxFrames: int, visualize: bool)
    /** `os.remove(path)`; `removed` is false when it raised and the error was swallowed. */
    | RemoveFile(path: string, removed: bool)
    | RmTree(dir: string)

  /** A handler's response together with everything it did to the outside world. */
  datatype Outcome = Outcome(response: Response, trace: seq<Event>)

  /** What `tempfile.mkdtemp()` does. */
  datatype TempOutcome = Created(dir: string) | TempRaises(msg: string)

  /** What `download_youtube_video(...)` does: return nothing, return a path, or raise. */
  datatype FetchOutcome =
    | ReturnsNone
    /** `isFile` is what `os.path.isfile(path)` reports right after the download. */
    | ReturnsPath(path: string, isFile: bool)
    | FetchRaises(msg: string)

  /** What `detector.detect(...)` does: return a result value or raise. */
  datatype DetectOutcome = Returns(result: Json) | DetectRaises(msg: string)

  /**
   What the file system does during cleanup: whether `os.path.isfile` still
   reports the downloaded file in the `finally` block, and whether `os.remove`
   succeeds.
   */
  datatype CleanupOutcome = CleanupOutcome(fileAtCleanup: bool, removeSucceeds: bool)

  /** Everything outside the handler's own code that one attempt depends on. */
  datatype Env = Env(temp: TempOutcome, fetch: FetchOutcome, detect: DetectOutcome, cleanup: CleanupOutcome)

  /**
   The download stage, shared by both handlers: the value `video_path` holds
   afterwards, and whether the handler goes on to detection.
   */
  datatype Acquired =
    /** A non-empty path naming a regular file. */
    | Usable(path: string)
    /** Nothing usable; `path` is what `video_path` was set to, if anything. */
    | Unusable(obtained: Option<string>)
    /** The downloader raised; `video_path` is still `None`. */
    | DownloadRaised(msg: string)
  {
    /** `video_path` when the `finally` block runs. */
    function PathAfter(): Option<string>
    {
      match this
      case Usable(p) => Some(p)
      case Unusable(p) => p
      case DownloadRaised(_) => None
    }
  }

  /** `if not video_path or not os.path.isfile(video_path)` applied to the downloader's outcome. */
  function Acquire(f: FetchOutcome): (a: Acquired)
    ensures a.Usable? <==> f.ReturnsPath? && f.path != "" && f.isFile
    ensures a.DownloadRaised? <==> f.FetchRaises?
    ensures a.PathAfter().Some? <==> f.ReturnsPath?
    ensures f.ReturnsPath? ==> a.PathAfter() == Some(f.path)
  {
    match f
    case ReturnsNone => Unusable(None)
    case ReturnsPath(p, isFile) => if p != "" && isFile then Usable(p) else Unusable(Some(p))
    case FetchRaises(m) => DownloadRaised(m)
  }

  /** The call to the detector: always with the request's frame budget and never visualizing. */
  function DetectCall(path: string, maxFrames: int): (e: Event)
    ensures e.Detect? && e.path == path && e.maxFrames == maxFrames && !e.visualize
  {
    Detect(path, maxFrames, false)
  }

  /**
   The `finally` block of both handlers. The file is removed only when
   `video_path` is truthy and still a file; a failing removal is swallowed;
   the directory removal is always attempted and comes last.
   */
  function Cleanup(path: Option<string>, dir: string, c: CleanupOutcome): (t: seq<Event>)
    ensures 1 <= |t| <= 2 && t[|t| - 1] == RmTree(dir)
    ensures |t| == 2 <==> path.Some? && path.value != "" && c.fileAtCleanup
    ensures |t| == 2 ==> t[0] == RemoveFile(path.value, c.removeSucceeds)
  {
    var removal := if path.Some? && path.value != "" && c.fileAtCleanup
                   then [RemoveFile(path.value, c.removeSucceeds)]
                   else [];
    removal + [RmTree(dir)]
  }

  datatype Kind = KMkTemp | KFetch | KDetect | KRemoveFile | KRmTree

  function KindOf(e: Event): Kind
  {
    match e
    case MkTemp(_) => KMkTemp
    case Fetch(_, _, _) => KFetch
    case Detect(_, _, _) => KDetect
    case RemoveFile(_, _) => KRemoveFile
    case RmTree(_) => KRmTree
  }

  /** The number of events of kind `k` in `t`. */
  function Count(t: seq<Event>, k: Kind): nat
  {
    if t == [] then 0
    else (if KindOf(t[0]) == k then 1 else 0) + Count(t[1..], k)
  }

  lemma {:induction false} CountAppend(a: seq<Event>, b: seq<Event>, k: Kind)
    ensures Count(a + b, k) == Count(a, k) + Count(b, k)
  {
    if a == [] {
      assert a + b == b;
    } else {
      CountAppend(a[1..], b, k);
      assert (a + b)[1..] == a[1..] + b;
    }
  }

  /** An event of kind `k` anywhere in `t` is counted. */
  lemma {:induction false} CountPositive(t: seq<Event>, i: nat, k: Kind)
    requires i < |t| && KindOf(t[i]) == k
    ensures Count(t, k) >= 1
  {
    if i > 0 {
      CountPositive(t[1..], i - 1, k);
    }
  }

  /** Two directory creations at different positions count twice. */
  lemma TwoMkTemps(t: seq<Event>, i: nat)
    requires 0 < i < |t| && t[0].MkTemp? && t[i].MkTemp?
    ensures Count(t, KMkTemp) >= 2
  {
    assert t[..i] + t[i..] == t;
    CountAppend(t[..i], t[i..], KMkTemp);
    CountPositive(t[..i], 0, KMkTemp);
    CountPositive(t[i..], 0, KMkTemp);
  }

  /**
   Every directory created in `t` has its removal attempted later in `t`,
   under the same name.
   */
  predicate Released(t: seq<Event>)
  {
    forall i :: 0 <= i < |t| && t[i].MkTemp? ==> RmTree(t[i].dir) in t[i + 1..]
  }

  /** Traces in which every directory is released stay so when joined. */
  lemma ReleasedAppend(a: seq<Event>, b: seq<Event>)
    requires Released(a) && Released(b)
    ensures Released(a + b)
  {
    var c := a + b;
    forall i | 0 <= i < |c| && c[i].MkTemp?
      ensures RmTree(c[i].dir) in c[i + 1..]
    {
      if i < |a| {
        assert c[i] == a[i];
        assert RmTree(a[i].dir) in a[i + 1..];
        assert c[i + 1..] == a[i + 1..] + b;
      } else {
        assert c[i] == b[i - |a|];
        assert RmTree(b[i - |a|].dir) in b[i - |a| + 1..];
        assert c[i + 1..] == b[i - |a| + 1..];
      }
    }
  }

  /** An attempt's trace releases the one directory it creates. */
  lemma ScopedReleased(t: seq<Event>, dir: string)
    requires Scoped(t, dir)
    ensures Released(t)
  {
    forall i | 0 <= i < |t| && t[i].MkTemp?
      ensures RmTree(t[i].dir) in t[i + 1..]
    {
      if i == 0 {
        assert t[1..][|t| - 2] == RmTree(dir);
      } else {
        TwoMkTemps(t, i);
        assert false;
      }
    }
  }

  /**
   The trace of one attempt that got a workspace: it opens with creating
   `dir`, downloads into it exactly once, ends with removing `dir`, creates and
   removes no other directory, runs the detector and removes a file at most
   once each.
   */
  predicate Scoped(t: seq<Event>, dir: string)
  {
    && |t| >= 2
    && t[0] == MkTemp(dir)
    && t[1].Fetch? && t[1].dir == dir && t[1].maxDuration == LegacyMaxDuration
    && t[|t| - 1] == RmTree(dir)
    && Count(t, KMkTemp) == 1
    && Count(t, KFetch) == 1
    && Count(t, KRmTree) == 1
    && Count(t, KDetect) <= 1
    && Count(t, KRemoveFile) <= 1
  }

  function Tally(e: Event, k: Kind): nat
  {
    if KindOf(e) == k then 1 else 0
  }

  lemma CountOne(x: Event, k: Kind)
    ensures Count([x], k) == Tally(x, k)
  {
    assert [x][1..] == [];
  }

  lemma CountTwo(x: Event, y: Event, k: Kind)
    ensures Count([x, y], k) == Tally(x, k) + Tally(y, k)
  {
    assert [x, y][1..] == [y];
    CountOne(y, k);
  }

  /** Cleanup removes the directory once, and the file once exactly when it removes it at all. */
  lemma CountCleanup(path: Option<string>, dir: string, c: CleanupOutcome)
    ensures var t := Cleanup(path, dir, c);
            && Count(t, KRmTree) == 1
            && Count(t, KRemoveFile) == (if path.Some? && path.value != "" && c.fileAtCleanup then 1 else 0)
            && Count(t, KMkTemp) == 0 && Count(t, KFetch) == 0 && Count(t, KDetect) == 0
  {
    var last := RmTree(dir);
    CountOne(last, KMkTemp);
    CountOne(last, KFetch);
    CountOne(last, KDetect);
    CountOne(last, KRemoveFile);
    CountOne(last, KRmTree);
    if path.Some? && path.value != "" && c.fileAtCleanup {
      var x := RemoveFile(path.value, c.removeSucceeds);
      assert Cleanup(path, dir, c) == [x] + [last];
      CountOne(x, KMkTemp);
      CountOne(x, KFetch);
      CountOne(x, KDetect);
      CountOne(x, KRemoveFile);
      CountOne(x, KRmTree);
      CountAppend([x], [last], KMkTemp);
      CountAppend([x], [last], KFetch);
      CountAppend([x], [last], KDetect);
      CountAppend([x], [last], KRemoveFile);
      CountAppend([x], [last], KRmTree);
    } else {
      assert Cleanup(path, dir, c) == [last];
    }
  }

  /** The detector call an attempt makes, as a trace of at most one event. */
  function DetectTrace(detection: Option<(string, int)>): (t: seq<Event>)
    ensures Count(t, KDetect) == (if detection.Some? then 1 else 0)
    ensures Count(t, KMkTemp) == 0 && Count(t, KFetch) == 0 && Count(t, KRemoveFile) == 0 && Count(t, KRmTree) == 0
    ensures detection.Some? ==> t == [DetectCall(detection.value.0, detection.value.1)]
  {
    match detection
    case None => []
    case Some((p, n)) =>
      var e := DetectCall(p, n);
      CountOne(e, KMkTemp);
      CountOne(e, KFetch);
      CountOne(e, KDetect);
      CountOne(e, KRemoveFile);
      CountOne(e, KRmTree);
      [e]
  }

  /** The count of one kind of event in an attempt's trace, part by part. */
  lemma CountAttempt(head: seq<Event>, x: Event, y: Event, middle: seq<Event>, tail: seq<Event>, k: Kind)
    requires head == [x, y]
    ensures Count(head + middle + tail, k) == Tally(x, k) + Tally(y, k) + Count(middle, k) + Count(tail, k)
  {
    CountAppend(head + middle, tail, k);
    CountAppend(head, middle, k);
    CountTwo(x, y, k);
  }

  /** How many events of each kind a trace that opens with creating a directory and downloading holds. */
  lemma CountsOfAttempt(x: Event, y: Event, middle: seq<Event>, tail: seq<Event>)
    requires x.MkTemp? && y.Fetch?
    ensures Count([x, y] + middle + tail, KMkTemp) == 1 + Count(middle, KMkTemp) + Count(tail, KMkTemp)
    ensures Count([x, y] + middle + tail, KFetch) == 1 + Count(middle, KFetch) + Count(tail, KFetch)
    ensures Count([x, y] + middle + tail, KRmTree) == Count(middle, KRmTree) + Count(tail, KRmTree)
    ensures Count([x, y] + middle + tail, KDetect) == Count(middle, KDetect) + Count(tail, KDetect)
    ensures Count([x, y] + middle + tail, KRemoveFile) == Count(middle, KRemoveFile) + Count(tail, KRemoveFile)
  {
    CountAttempt([x, y], x, y, middle, tail, KMkTemp);
    CountAttempt([x, y], x, y, middle, tail, KFetch);
    CountAttempt([x, y], x, y, middle, tail, KRmTree);
    CountAttempt([x, y], x, y, middle, tail, KDetect);
    CountAttempt([x, y], x, y, middle, tail, KRemoveFile);
  }

  /**
   The trace every attempt produces once `mkdtemp` has returned `dir`:
   create, download, run the detector if `detection` says so (on a path with a
   frame budget), then clean up. Both handlers build their traces with this
   function.
   */
  function AttemptTrace(url: Json, dir: string, detection: Option<(string, int)>, path: Option<string>, c: CleanupOutcome): (t: seq<Event>)
    ensures Scoped(t, dir)
    ensures t[1] == Fetch(url, dir, LegacyMaxDuration)
    ensures Count(t, KDetect) == (if detection.Some? then 1 else 0)
    ensures detection.Some? ==> t[2] == DetectCall(detection.value.0, detection.value.1)
    ensures (Count(t, KRemoveFile) == 1) <==> path.Some? && path.value != "" && c.fileAtCleanup
  {
    var mk := MkTemp(dir);
    var fetch := Fetch(url, dir, LegacyMaxDuration);
    var head := [mk, fetch];
    var middle := DetectTrace(detection);
    var tail := Cleanup(path, dir, c);
    var t := head + middle + tail;
    CountsOfAttempt(mk, fetch, middle, tail);
    CountCleanup(path, dir, c);
    assert t[0] == mk && t[1] == fetch;
    assert t[|t| - 1] == tail[|tail| - 1];
    t
  }
}
