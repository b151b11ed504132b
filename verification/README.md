# Air-quality station proxy — a Dafny model

The backend of the air-quality dashboard is a small Flask proxy in front of an
upstream air-quality data service. It exposes two routes. One lists stations and
passes the upstream body through. The other returns one station's detail,
enriched with `weighted_average_7d`: one sample-weighted 7-day average per
pollutant metric found in the payload.

This project models the deterministic logic inside `backend/app.py`. The HTTP call is
replaced by a parameter.

- `pyvalue.dfy` (`PyValue`): the Python values that `r.json()` yields, with Python
  truthiness, `a or b`, `d.get(k)` and hashability.
- `weighted_average.dfy` (`WeightedAverage`): `_safe_float`, Python's `int()`, the
  per-day decision (skip, take, raise), the 7-accepted-day window, and
  `compute_weighted_average` as a loop (`ComputeWeightedAverage`). The loop is proved
  equal to a recursive reference (`Average`).
- `weighted_average_props.dfy`: what a skipped day changes (nothing), where the
  budget ends, when the computation raises, and bounds on the result.
- `metrics.dfy` / `metrics_props.dfy`: extraction of the metric table from the
  payload. An explicit `metrics` list is used first; otherwise the top-level keys are
  scanned.
- `upstream.dfy` (`Upstream`): upstream URLs (`rstrip('/')`) and the mapping from
  raised exceptions to JSON error replies. The `except` clauses are tried in order.
- `station_detail.dfy` / `station_detail_props.dfy`: the weighted map, the reply
  body, and both handlers end to end.

Modelling choices:
- Python `int` and `float` are both `Num(real)`, with exact arithmetic.
- A dictionary is a `map`. Flask's `jsonify` sorts keys, so key order is never visible
  in a reply. The one order-dependent rule is that a later `metrics` entry overwrites
  an earlier one with the same name; it is modelled as a fold over the list.
- `float(s)` and `int(s)` on strings are the abstract parameter `Conversions`.
  `None` there stands for Python's `ValueError`.
- An exception is modelled by the set of classes it belongs to.
- An exception the handler does not catch becomes `InternalError`, which is Flask's
  500 reply. Examples: `m.get` on a `metrics` entry that is not a dict, or a list used
  as a metric name.
- Within `compute_weighted_average`, every exception is caught per metric and
  becomes `None` for that metric (`backend/app.py:338-347`).

How the code behaves at its edges:
- It uses the first seven accepted days in list order. It does not sort by date or
  de-duplicate days, it keeps no cache, and it raises no error on an unrecognised
  payload: such a payload gets an empty `weighted_average_7d`.
- Its docstrings speak of days with `sample_size > 0` (backend/app.py:13, 116). The
  code only rejects a falsy `sample_size` (backend/app.py:140), so a negative one is
  used as is.
- A `sample_size` of `0.5` is truthy, but `int()` makes it 0. Such a day takes one of
  the seven slots and contributes nothing.
- The two handlers use the corrected `HTTPError` clause from "## Findings". As written,
  that clause answers 500 when the exception has no response.
  `Upstream.FailureReplyAsWritten` models the clauses as written.

## Model

| member | source | states |
|---|---|---|
| WeightedAverage.ComputeWeightedAverage | backend/app.py:121-158 | The for/break/continue loop computes exactly the reference `Average`. That is None for an empty list, otherwise the window's weighted mean, or the exception a reached day raises. |
| WeightedAverage.SafeFloat | backend/app.py:100-106 | `_safe_float` gives None for null, lists and dicts, the number itself for a number, and 1.0/0.0 for a boolean. |
| WeightedAverage.Classify | backend/app.py:135-146 | A non-dict day raises `AttributeError`, and only such a day does. A taken day has a truthy `sample_size`, a converting `average` and a successful `int(sample_size)`. Any other raise comes from `int(sample_size)`. |
| WeightedAverage.Average | backend/app.py:121-158 | An empty list gives None. The result raises exactly when the window does. For a non-empty list that does not raise, the value is present exactly when the window's sample total is nonzero, and then it times that total equals the window's weighted sum. |
| WeightedAverage.Window | backend/app.py:127-148 | The days that contribute number at most the budget (seven). |
| WeightedAverage.Trunc | backend/app.py:144-146 | `int()` of a float truncates toward zero. The result is the integer between zero and x that lies within 1 of x. |
| WeightedAverageProps.DayVerdict | backend/app.py:135-141 | A day is skipped exactly when `sample_size` is missing or falsy, or `average` does not convert (null never converts). A taken day carries the converted average and `int(sample_size)`. |
| WeightedAverageProps.SkippedDayChangesNothing | backend/app.py:135-141 | Removing a skipped day from anywhere in the list leaves the result unchanged. It touches neither the sums nor the 7-day counter. |
| WeightedAverageProps.DaysAfterSeventhAcceptedIgnored | backend/app.py:130-132 | Once seven days are accepted, anything appended to the list is ignored, even a day that would raise. |
| WeightedAverageProps.WindowIsFirstAccepted | backend/app.py:127-148 | When no day raises, the contributing days are exactly the first min(7, n) accepted days in list order. |
| WeightedAverageProps.RaisesIffReachedWithinBudget | backend/app.py:130-146 | The computation raises iff a raising day comes before the seventh accepted day. |
| WeightedAverageProps.NothingAcceptedGivesNone | backend/app.py:152-153 | When every day is skipped, the result is None, not 0. |
| WeightedAverageProps.AverageWithinDailyRange | backend/app.py:156 | With positive sample sizes, the result is some value (not None) within the range of the contributing daily averages. |
| WeightedAverageProps.TwoDayExample | backend/app.py:14 | Averages 10 and 20 with sample sizes 2 and 8 give 18. |
| Metrics.MetricName | backend/app.py:308 | A metric's name is the first truthy of `name`/`metric`, else "unknown". It is always truthy. |
| Metrics.MetricPoints | backend/app.py:310 | A metric's points are the first truthy of `data_points`/`days`, else the empty list. |
| Metrics.Extract | backend/app.py:300-331 | A non-dict payload yields no metrics. Extraction can raise only in the `metrics`-list branch. |
| Metrics.AddEntry | backend/app.py:306-313 | One `metrics` entry raises exactly when it is not a dict or stores a list under an unhashable name. Otherwise it adds at most its own name and leaves every other name's series unchanged. |
| Metrics.FromMetricsList | backend/app.py:306-313 | The loop never drops a name it already holds. When it completes, no entry raised. |
| Metrics.ScanValue | backend/app.py:318-331 | A scanned value is used only if it is a truthy list or dict. A list gives its own items; a dict gives the list under `data_points` or `days`. |
| Metrics.ScanKeys | backend/app.py:316-331 | The scanned table's keys are payload keys, and each holds what `ScanValue` selects for that key. |
| MetricsProps.MetricsListKeys | backend/app.py:304-313 | The table's names are exactly the names of entries that store a list-valued series. |
| MetricsProps.LastEntryWins | backend/app.py:306-313 | The last entry that stores a list under a name decides that name's series. |
| MetricsProps.MetricsListRaisesIff | backend/app.py:306-313 | The loop raises iff some entry is not a dict or stores a list under an unhashable name. The exception is that of the first such entry. |
| MetricsProps.MetricsListShadowsOtherKeys | backend/app.py:304-314 | When a `metrics` list exists, changing any other top-level key does not change the table. |
| MetricsProps.ScanTakesSeriesFromPayload | backend/app.py:314-331 | Without a `metrics` list, table keys are payload keys and nothing raises. A series is the key's own list or a list nested under `data_points`/`days`. Scalar-valued keys never become metrics. |
| MetricsProps.ScannedListIffDayShaped | backend/app.py:318-323 | A top-level list is a metric iff it is non-empty and its first element is a dict with `average`, `sample_size`, or both `min` and `max`. |
| MetricsProps.ScannedDictIffHoldsSeries | backend/app.py:326-331 | A top-level dict is a metric iff it is non-empty and the first truthy of `data_points`/`days` is a list. If neither is truthy, `days` itself must be a list. |
| Upstream.TrimTrailingSlashes | backend/app.py:177 | `rstrip('/')`: the result is the longest prefix that does not end in '/', and everything after it is '/'. |
| Upstream.TrimIgnoresExtraSlashes | backend/app.py:252 | Appending any number of '/' to the base does not change the stripped base. |
| Upstream.OneSlashBeforeStations | backend/app.py:252 | The list and detail URLs are the stripped base, one '/', `stations/`, then the id. They are the same whatever trailing slashes the base has. |
| Upstream.ListUrl | backend/app.py:177 | The list URL ends with exactly one '/' before `stations/`. What precedes it is a prefix of the base. |
| Upstream.DetailUrl | backend/app.py:252 | The detail URL is the list URL followed by the station id. |
| Upstream.FailureReplyAsWritten | backend/app.py:200-223 | As written, an exception escapes (500) exactly when no `except` clause matches, or when it is an `HTTPError` (not a timeout) without a response. |
| Upstream.FailureReply | backend/app.py:266-297 | With the corrected `HTTPError` clause, every caught failure is answered 502, 504 or the upstream status, and never forwarded. |
| Upstream.HttpErrorReply | backend/app.py:272-285 | An HTTP error reply carries the upstream status and detail. With no upstream reply attached it is 502 with the exception text. |
| Upstream.MissingResponseDiscrepancy | backend/app.py:274-281 | With no attached response, the as-written branch raises again (500). The corrected branch answers 502. |
| Upstream.TimeoutCheckedFirst | backend/app.py:266-270 | A timeout gets 504 with the fixed "Upstream timeout" body, even though it is also a request error. |
| Upstream.HttpErrorKeepsUpstreamStatus | backend/app.py:206-218 | An HTTP error that is not a timeout keeps the upstream status. Its detail is the upstream JSON, else the non-empty text, else the exception text. Here the as-written and corrected replies coincide. |
| Upstream.OtherRequestErrorIs502 | backend/app.py:287-291 | Any other request error gets 502 with the exception text. |
| Upstream.InvalidJsonIs502 | backend/app.py:293-297 | An invalid JSON body on the detail route gets 502. The message depends on whether the decode error is also a request error. |
| Upstream.FailureStatuses | backend/app.py:200-223 | With the corrected clause, an exception escapes exactly when no `except` clause matches. The as-written reply differs from the corrected one exactly on an `HTTPError` (not a timeout) without a response. |
| StationDetail.BuildWeightedMap | backend/app.py:334-349 | One entry per metric. A metric whose computation raises gets None, and this leaves every other metric's entry untouched. |
| StationDetail.Enrich | backend/app.py:354-368 | A dict payload gets `weighted_average_7d` added or replaced and keeps every other key. Anything else is wrapped as `{data, weighted_average_7d}`. |
| StationDetail.GetStationDetail | backend/app.py:244-368 | A parsed upstream body is answered with the upstream status and a body holding `weighted_average_7d`. The route answers 500 exactly when metric extraction raises. It never forwards raw bytes. |
| StationDetail.GetStations | backend/app.py:169-223 | The list route forwards exactly when the fetch succeeded, with the upstream body and status unchanged. |
| StationDetailProps.DetailReplyShape | backend/app.py:334-368 | A successful detail reply has the upstream status. Its `weighted_average_7d` has the metrics' keys, each holding the average or null. |
| StationDetailProps.NonDictPayloadWrapped | backend/app.py:361-368 | A non-dict payload is answered `{"data": payload, "weighted_average_7d": {}}`. |
| StationDetailProps.DetailInternalErrorIff | backend/app.py:302-313 | The detail route fails with 500 iff the payload's `metrics` list has an entry on which extraction raises. |
| StationDetailProps.DetailFailureReply | backend/app.py:266-297 | A failed detail fetch is answered by the detail route's `except` clauses, with status 502, 504 or the upstream status. It equals the as-written reply except for an `HTTPError` without a response. |
| StationDetailProps.StationListPassThrough | backend/app.py:188-196 | The station list is forwarded with its body and status; the content type defaults to `application/json`. A failure gets the list route's clauses, which do not catch `ValueError`. It equals the as-written reply except for an `HTTPError` without a response. |

## Findings

| source | as written | input that shows it | evidently intended | confidence | as-written member | corrected member |
|---|---|---|---|---|---|---|
| backend/app.py:272-285 | The status falls back to 502 via `getattr(e.response, "status_code", 502)`. The detail is then read from `e.response.json()` and `e.response.text`. With no response attached, the second read raises `AttributeError` inside the `except` block, so Flask answers 500. | An `HTTPError` whose `response` is `None` | 502 with `str(e)` as detail, as the `getattr` default shows | not executed; only reachable by an `HTTPError` raised without a response, since `raise_for_status` always attaches one (the same code is at backend/app.py:206-218) | Upstream.HttpErrorReplyAsWritten | Upstream.HttpErrorReply |

## Left out

- Rounding of the result to 6 decimals (`round(result, 6)`) and IEEE float behaviour (NaN, infinities, overflow). The model uses exact real arithmetic.
- Python's string parsing in `float(s)` and `int(s)`. These are the abstract `Conversions` parameter.
- Python treats `True`, `1` and `1.0` as the same dictionary key. In the model, `Bool(true)` and `Num(1.0)` are different metric names.
- JSON serialisation by `jsonify`: non-string keys become strings, and key sorting raises on mixed key types. The reply body is the Python value before serialisation.
- The HTTP requests: the `requests.Session` retry and backoff policy, timeouts, redirects, and which failures the library raises. The fetch outcome is an input to the handlers.
- Flask routing (both `/api` and bare paths), CORS, `.env` loading, logging, the debug route print, and server startup.
- The bytes of the station list. They are an opaque sequence that is forwarded unchanged.
- Upstream.FailureStatuses: its first iff is about the corrected `HTTPError` clause. As written, an `HTTPError` without a response also escapes (500); its second clause states exactly that difference.
- StationDetailProps.DetailFailureReply: the handler uses the corrected `HTTPError` clause, so an `HTTPError` without a response gets 502 here, not the 500 of the code as written (see "## Findings").
- StationDetailProps.StationListPassThrough: as for the detail route, an `HTTPError` without a response gets 502 here, not the 500 of the code as written.
- WeightedAverage.SafeFloat: does not model the `OverflowError` that `float()` raises on an integer beyond the double range (a JSON integer literal of a few hundred digits). `_safe_float` catches only `ValueError` and `TypeError` (backend/app.py:104-105), so in the source that day makes `compute_weighted_average` raise and the metric's weighted average becomes None (backend/app.py:340-348); the model gives the number itself and uses the day.
- StationDetail.GetStationDetail: its failure branch uses the corrected `HTTPError` clause (`FailureReply`), so an `HTTPError` without a response gets 502, not the 500 of the code as written (see "## Findings").
- StationDetail.GetStations: as for the detail route, its failure branch uses the corrected `HTTPError` clause, so an `HTTPError` without a response gets 502, not 500.
- WeightedAverage.ComputeWeightedAverage: the value is the exact quotient, not the value rounded to 6 decimals that the source returns.
