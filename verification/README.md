# Detection service request orchestration, modelled in Dafny

The detection service answers two HTTP endpoints. `POST /analyze` takes one
video URL, and `POST /analyze/batch` takes a list of them. For each video the
handler creates a temporary directory, asks the downloader for a file in it,
and runs the AI-video detector over that file. It then removes the file and
the directory, whichever way the attempt ended. This project models the three
functions that do the orchestration: `analyze_video`, `analyze_batch` and the
batch helper `analyze_single_video_internal`.

The downloader, the detector, `tempfile.mkdtemp` and the file-system checks are
collaborators whose code is not part of this model. Each handler is a pure
function from the decoded request body and the collaborators' outcomes to the
HTTP response and a trace of the effects it had:

- `MkTemp`: the temporary directory is created.
- `Fetch`: the downloader is called.
- `Detect`: the detector is called.
- `RemoveFile`: removal of the downloaded file is attempted.
- `RmTree`: removal of the temporary directory is attempted.

The batch handler gets one set of collaborator outcomes per item position.

Modules:

- `Values` (`values.dfy`): the Python/JSON values the handlers see, plus the
  Python operations the handlers use and the exceptions those raise.
  - Operations: truthiness, `dict.get`, `v[k]` and `v[k] = x`.
  - Exceptions: `AttributeError`, `KeyError`, `OverflowError`, `TypeError`,
    `ValueError`.
- `Coerce` (`coerce.dfy`): `int(data.get('max_frames', 100))`. Python's `int()`
  on bools, ints, floats (truncation toward zero) and decimal strings. A string
  may carry surrounding whitespace, a sign, and single underscores between
  digits, and at most 4300 digits in all.
- `Workspace` (`workspace.dfy`): the collaborators' outcomes, the effect trace,
  and the shared download, detect and cleanup stages.
- `Analyze` (`analyze.dfy`): `analyze_video`.
- `Batch` (`batch.dfy`): `analyze_single_video_internal` and `analyze_batch`.

Behaviour of the code worth knowing:

- A `max_frames` that `int()` rejects is a 500 from the outer handler, not a
  validation 400. Positivity is never checked: `"0"` and `-5` reach the
  detector (`Analyze.BadFrameBudgetIsServerError`,
  `Analyze.ZeroFramesReachDetector`).
- A batch request whose body is `null` fails on `data.get` and gives a 500.
  The single-video endpoint gives a 400 for the same body
  (`Batch.BatchWithoutBodyIsServerError`).
- In the batch, `max_frames` is converted before `videos` is checked for
  emptiness (`Batch.BatchValidationOrder`).
- The batch isolates only what the helper's `try` block catches: download and
  detector exceptions. These abort the whole batch with a 500:
  - a `mkdtemp` failure;
  - an item without `.get`;
  - a detector result that cannot take an `id` key.

  The batch's 500 payload carries no neutral score
  (`Batch.NonDictItemAbortsBatch`, `Batch.BatchCrash`).

## Model

| member | source | states |
|---|---|---|
| Values.Truthy | api/detection_api.py:63-67 | `if not data` and `if not video_url` (and `if not videos` at line 171) test Python truthiness: the false values are exactly `None`, `False`, `0`, `0.0`, `""`, `[]` and `{}`. |
| Values.Get | api/detection_api.py:66 | `.get` succeeds exactly on a dict. It yields the key's value when present and the default otherwise. On any other value it raises the `AttributeError` the handlers' outer `except` catches. |
| Values.Subscript | api/detection_api.py:115 | `results['verdict']` succeeds exactly on a dict holding the key and yields that value. A dict without the key raises `KeyError(key)`. |
| Values.SetItem | api/detection_api.py:181 | `response['id'] = video_id` succeeds exactly on a dict. The result has the old keys plus `id`, `id` is overwritten, and every other key keeps its value. |
| Coerce.IntOf | api/detection_api.py:71 | `int(v)`: an int is itself, a bool is 0 or 1, and a float is truncated. `None`, lists and dicts raise `TypeError`. A string converts exactly when it parses and holds at most 4300 digits, and raises `ValueError` otherwise. |
| Coerce.IntOfString | api/detection_api.py:71 | `int(s)` for a string: the parsed value when the syntax is right and the string has at most 4300 digits (Python's default `int_max_str_digits`), otherwise `ValueError`. |
| Coerce.ParseDecimal | api/detection_api.py:71 | The syntax `int()` accepts in a string: a string without a digit never converts, and a plain string of ASCII digits, with single underscores between digits, converts to the number it denotes. |
| Coerce.Truncate | api/detection_api.py:71 | `int()` of a float truncates toward zero: the result is the integer next to the float on the side of zero. |
| Coerce.MaxFrames | api/detection_api.py:71 | An absent `max_frames` is 100 and a present one is `int()` of its value. A body that is not a dict raises `AttributeError`. |
| Coerce.ParseRender | api/detection_api.py:71 | Round trip: the decimal rendering of every integer `n`, negative ones included, parses back to `n`. |
| Coerce.IntOfRender | api/detection_api.py:71 | `int(str(n)) == n` whenever `n` has at most 4300 digits. Past that limit `int()` raises `ValueError`, as Python's `str(n)` itself does. |
| Coerce.IntOfNonNumeric | api/detection_api.py:71 | A string without a single ASCII digit never converts; it raises `ValueError`. |
| Coerce.FiftyExample | api/detection_api.py:70-71 | A frame budget sent as the string `"50"` converts to 50. |
| Coerce.NegativeExample | api/detection_api.py:71 | `"-3"` converts to -3. |
| Coerce.AbcExample | api/detection_api.py:71 | `"abc"` raises. |
| Coerce.DefaultExample | api/detection_api.py:71 | An absent field is 100, an explicit `null` raises, and `-2.5` truncates to -2. |
| Coerce.PaddedExample | api/detection_api.py:71 | Surrounding whitespace is stripped: `" 7\n"` is 7. |
| Coerce.UnderscoreExample | api/detection_api.py:71 | `"1_000"` is 1000. |
| Coerce.DoubleUnderscoreExample | api/detection_api.py:71 | `"1__0"` raises. |
| Coerce.SeparatorExample | api/detection_api.py:71 | `"\x1c7"` raises: the ASCII information separators are not whitespace to `int()`. |
| Workspace.Acquire | api/detection_api.py:92 | The download is usable exactly when the downloader returned a non-empty path that is a regular file. `video_path` keeps the returned path, and stays `None` when the downloader raised. |
| Workspace.Cleanup | api/detection_api.py:119-132 | Removal of the file is attempted exactly when `video_path` is truthy and still a file. The directory removal is always attempted, and last. |
| Workspace.CountCleanup | api/detection_api.py:119-132 | Cleanup attempts to remove the directory exactly once. It attempts to remove the file at most once, exactly in the case above, and does nothing else. |
| Workspace.DetectTrace | api/detection_api.py:109-113 | Given the detector call an attempt makes, a path and a frame budget or none, the trace holds exactly that call with visualization off, or nothing, and no other kind of event. Its callers pass a call exactly when the download is usable. |
| Workspace.AttemptTrace | api/detection_api.py:77-132 | Once `mkdtemp` returns a directory, the attempt creates it first and downloads into it with `max_duration=120`. The detector runs at most once, right after the download. Removal of the same directory is attempted once, at the end, and no other directory is created or removed. |
| Analyze.Crash | api/detection_api.py:134-140 | The outer handler answers 500 with the neutral score and an `Analysis failed: ` message. |
| Analyze.FormatPercent | api/detection_api.py:115 | The `.2%` format succeeds exactly on a bool, a float, or an int that fits a float. An int of magnitude 2^1024 - 2^970 or more raises `OverflowError`, because `%` converts it to a float first. |
| Analyze.ReportError | api/detection_api.py:115 | The completion log line raises unless the detector's result is a dict with `verdict` and an `ai_probability` that is a number fitting a float. |
| Analyze.InnerResult | api/detection_api.py:80-117 | How the inner `try` ends. A failed download is answered inside with a neutral 400. A usable one ends in a 200 carrying the detector's result exactly when the detector returned and the log line could read it. A raising detector's exception escapes. |
| Analyze.AnalyzeVideo | api/detection_api.py:60-140 | The status is always 200, 400 or 500. The handler touches the file system exactly when validation and conversion pass and `mkdtemp` succeeds, and then it cleans up. A 500 always carries the neutral score. A 200 is the detector's result, unchanged. |
| Analyze.RejectedBeforeWorkspace | api/detection_api.py:62-68 | A body that decodes to a falsy value (`null`, `{}`, `[]`, `""`, `0` or `false`), or a missing or empty `video_url`, gives a 400 with its own message. No directory is created, nothing is downloaded and the detector never runs. |
| Analyze.FetchFailureSkipsDetector | api/detection_api.py:83-105 | An unusable download, or a downloader that raises, gives a 400 with the neutral score and the matching message. The detector never runs. |
| Analyze.DetectorCalledOnce | api/detection_api.py:107-113 | After a usable download the detector runs exactly once, right after the download. It gets the downloaded path, the converted `max_frames` (100 when absent) and `visualize=False`. |
| Analyze.SuccessIff | api/detection_api.py:107-117 | The response is a 200 if and only if every step passed: validation, the download, the detector, and the completion log line. The 200 payload is the detector's result, unchanged. |
| Analyze.ClientErrorIff | api/detection_api.py:60-140 | The response is a 400 if and only if validation rejects the request or the download fails. |
| Analyze.BadFrameBudgetIsServerError | api/detection_api.py:71 | A `max_frames` that `int()` rejects reaches the outer handler: the response is a 500 with the conversion's message, and no directory is created. |
| Analyze.DetectorFailureIsServerError | api/detection_api.py:107-140 | A detector that raises gives a 500 carrying its message, and the directory is still removed at the end. |
| Analyze.DownloadRemovedIff | api/detection_api.py:119-126 | The download is removed exactly when a non-empty path was returned and is still a file at cleanup time. If the file system does not change in between, that is exactly when the download was usable. |
| Analyze.CleanupNeverChangesResponse | api/detection_api.py:119-132 | Whatever the file system does during cleanup, including a failing `os.remove`, the response is the same. |
| Analyze.ZeroFramesReachDetector | api/detection_api.py:71 | `max_frames: "0"` reaches the detector as 0, because positivity is never checked. |
| Batch.RecordOf | api/detection_api.py:197-218 | The helper's record is the detector's result when the download was usable and the detector returned. Otherwise it is a dict with exactly the keys `error` and `ai_probability`, the latter the neutral score. |
| Batch.AnalyzeSingle | api/detection_api.py:192-232 | The helper raises only when `mkdtemp` does, and then it does nothing else. Otherwise it returns a record, cleans up the directory, downloads once into it with `max_duration=120`, and runs the detector exactly when the download is usable. |
| Batch.SingleNeverRaises | api/detection_api.py:192-232 | Once the directory exists, an unusable download is `{"error": "Failed to download video", "ai_probability": 0.5}`. An exception becomes `{"error": str(e), "ai_probability": 0.5}`, and the detector's result is returned unchanged. |
| Batch.ProcessItem | api/detection_api.py:175-182 | One loop pass either does nothing or uses exactly one workspace: a directory created and then, under the same name, removed. An item that is not a dict raises on `.get` before anything happens. |
| Batch.Loop | api/detection_api.py:174-184 | The loop appends each pass's record in order and stops at the first pass that raises, whose exception it reports. Every directory it creates has its removal attempted later under the same name, creations and removals balance in number, and it creates one per item when nothing raised. |
| Batch.LoopStops | api/detection_api.py:174-184 | Once the loop has stopped, later items change nothing. |
| Batch.PrefixRun | api/detection_api.py:174-189 | When item `k` raises, the batch reports that exception and keeps only the results before `k`. Its effects are the first `k` items' plus item `k`'s own. |
| Batch.BatchCrash | api/detection_api.py:186-189 | The batch's outer handler answers 500 with a `Batch analysis failed: ` message and no neutral score. |
| Batch.RunBatch | api/detection_api.py:174-184 | The loop ends in a 200 holding one result per item, or in a 500. Every directory created has its removal attempted later under the same name, and creations and removals balance in number. |
| Batch.AnalyzeBatch | api/detection_api.py:165-189 | The status is always 200, 400 or 500. Every directory created has its removal attempted later under the same name, and creations and removals balance in number. A 200 holds exactly as many results as the non-empty `videos` list has items, each with its own workspace. |
| Batch.BatchValidationOrder | api/detection_api.py:166-172 | A `max_frames` that does not convert is a 500 even when `videos` is missing. A missing or empty `videos` is a 400 only after the conversion succeeded. Neither path touches the file system. |
| Batch.BatchWithoutBodyIsServerError | api/detection_api.py:166-167 | A `null` body is a 500 at the batch endpoint, where the single endpoint answers 400. |
| Batch.ProcessWellFormed | api/detection_api.py:175-182 | A well-formed item yields the helper's record with `id` set to the item's `id`, or its `url` when it has none. That `id` overwrites any `id` the detector returned, and all other keys are kept. |
| Batch.DownloadFailedRecord | api/detection_api.py:205-209 | An item whose download yields nothing gets the download error record, tagged with its identifier. |
| Batch.DetectedRecord | api/detection_api.py:211-212 | An item whose detector returns a dict gets that dict, tagged with its identifier. |
| Batch.BatchKeepsOrderAndIds | api/detection_api.py:174-184 | With well-formed items the batch is a 200 whose results match the items one for one and in order. Result `i` is item `i`'s record, tagged with item `i`'s identifier. One directory is created and removed per item. |
| Batch.SiblingsUnaffected | api/detection_api.py:174-184 | Whatever happens to item `j`'s download or detector, every other item's result is the same, as long as every item stays well formed: a dict, a `mkdtemp` that succeeds, and a record that can take an `id`. |
| Batch.NonDictItemAbortsBatch | api/detection_api.py:175-176 | An item that is not a dict aborts the batch with a 500 naming the `AttributeError`. Exactly the items before it were analysed and their workspaces released. |

## Left out

- Flask wiring: routing, `request.json` and `jsonify`. `request.json` is a parameter. It is either a decoded value (`None` for a JSON `null` body) or the exception it raises. Under Flask 2.1 and later a missing or non-JSON body makes `request.json` raise, so such a request reaches the outer handler and gets a 500, not the 400 of line 64.
- `/health`: a constant payload.
- CORS setup and the argparse bootstrap: neither affects a response.
- `print` and `traceback` logging: the completion line at line 115 is modelled, because its subscripts and its `.2%` format can raise. Every other `print` is assumed not to raise. Python's `print` raises `UnicodeEncodeError` for a character stdout's encoding cannot encode. That is a lone surrogate under UTF-8, or any character outside the console's code page.
- The internals of the detector and the downloader. Their behaviour is a parameter: what they return or raise.
- `max_duration=120` is recorded in the trace. Its effect inside the downloader is not modelled.
- The file system: `mkdtemp`, `os.path.isfile`, `os.remove` and `rmtree` are events or parameters.
  - The model records when `os.remove` fails; that failure is always swallowed.
  - A failing `rmtree` is not modelled, because `ignore_errors=True` means it never raises. `RmTree` records the attempt; the directory may still be left behind.
- `jsonify` failing on a result that is not JSON-serialisable: every modelled value is serialisable.
- Concurrency: each request is sequential. `mkdtemp` gives every attempt a fresh directory name; the model takes the names as parameters and does not rely on them being distinct.
- Values.Quote: Python's `repr` escapes quotes and control characters; this does not, so exception messages built from it agree with Python's only up to that escaping.
- Coerce.IntOf: floats are exact reals, so `int()` of NaN or infinity is not modelled. Strings may use only ASCII digits and the whitespace space and `\t`-`\r`; Python also accepts non-ASCII Unicode whitespace and digits.
- Coerce.IntOf: the digit limit is the default 4300. `sys.set_int_max_str_digits` or `PYTHONINTMAXSTRDIGITS` can change or disable it, and Python releases older than 3.11 and its matching security releases have no limit.
- Coerce.IntOf: a malformed string whose leading run of digits exceeds the limit raises the limit's `ValueError` in Python and the invalid-literal `ValueError` here; only the message differs.
- Values.Json: strings hold Unicode scalar values, so a lone surrogate such as a decoded `"\ud800"` cannot be expressed. In a `video_url` it makes the `print` at line 73 raise, which gives a 500 with no directory created. In a downloaded path it makes the `print` at line 98 raise into the download handler, which gives a 400 although the download was usable.
- Values.Json: ints are unbounded. Python's JSON decoder refuses an integer literal of more than 4300 digits, so `request.json` raises for such a body and the handlers never see one; the model does not restrict `JInt`.
- Analyze.FormatPercent: the message of the `TypeError` raised for non-numbers approximates Python's wording.
- Analyze.ReportError: formatting `verdict` with `str()` is assumed not to raise. Python's `str()` raises `ValueError` on an int of more than 4300 digits anywhere inside the value.
- Batch.ProcessItem: the detector is assumed to return a new dict on every call. Line 181 of api/detection_api.py sets `id` on that dict in place. A detector that returned the same dict object twice would make every earlier result holding it show the last item's `id`. Values here have no identity, so `Batch.BatchKeepsOrderAndIds` rests on this assumption.
