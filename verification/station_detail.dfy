/**
 The two handlers of backend/app.py with the HTTP call abstracted: `get` stands for
 `session.get(url)` followed by `raise_for_status()` (and `r.json()` on the detail
 route), yielding either the upstream reply or the exception raised.
 */
module StationDetail {
  import opened Wrappers
  import opened PyValue
  import opened WeightedAverage
  import opened Metrics
  import opened Upstream

  /** The key the detail handler adds to the payload. */
  const WeightedKey := Str("weighted_average_7d")

  /** One metric's entry in `weighted_map`: its average, or `None` when computing it raised. */
  function AverageOrNone(days: seq<Value>, conv: Conversions): Option<real> {
    match Average(days, conv)
    case Success(x) => x
    case Failure(_) => None
  }

  /** `weighted_map`, one entry per extracted metric. */
  function WeightedMap(table: Table, conv: Conversions): map<Value, Option<real>> {
    map k | k in table :: AverageOrNone(table[k], conv)
  }

  /**
   The loop that fills `weighted_map`: exactly one entry per metric, holding that
   metric's average, and `None` only for a metric whose own computation raised or
   found nothing to average; no metric's failure touches another's entry.
   */
  method BuildWeightedMap(table: Table, conv: Conversions) returns (wm: map<Value, Option<real>>)
    ensures wm.Keys == table.Keys
    ensures forall k :: k in table && Average(table[k], conv).Success? ==> wm[k] == Average(table[k], conv).value
    ensures forall k :: k in table && Average(table[k], conv).Failure? ==> wm[k] == None
    ensures wm == WeightedMap(table, conv)
  {
    wm := map[];
    var remaining := table.Keys;
    while remaining != {}
      invariant remaining <= table.Keys
      invariant wm.Keys == table.Keys - remaining
      invariant forall k :: k in wm ==> wm[k] == AverageOrNone(table[k], conv)
      decreases remaining
    {
      var name :| name in remaining;
      var wa := ComputeWeightedAverage(table[name], conv);
      var value := if wa.Success? then wa.value else None;
      wm := wm[name := value];
      remaining := remaining - {name};
    }
  }

  /** A Python `Optional[float]` as it appears in the JSON reply. */
  function OptionValue(o: Option<real>): Value {
    match o
    case None => Null
    case Some(x) => Num(x)
  }

  /** `weighted_map` as a dictionary value. */
  function WeightedValue(wm: map<Value, Option<real>>): Value {
    Dict(map k | k in wm :: OptionValue(wm[k]))
  }

  /**
   The reply body: a dictionary payload with `weighted_average_7d` set (added or
   replaced) and every other key unchanged; anything else wrapped as
   `{"data": payload, "weighted_average_7d": map}`.
   */
  function Enrich(data: Value, wm: map<Value, Option<real>>): (r: Value)
    ensures r.Dict? && WeightedKey in r.fields && r.fields[WeightedKey] == WeightedValue(wm)
    ensures data.Dict? ==> r.fields.Keys == data.fields.Keys + {WeightedKey}
    ensures data.Dict? ==> forall k :: k in data.fields && k != WeightedKey ==> r.fields[k] == data.fields[k]
    ensures !data.Dict? ==> r.fields.Keys == {Str("data"), WeightedKey} && r.fields[Str("data")] == data
  {
    if data.Dict? then Dict(data.fields[WeightedKey := WeightedValue(wm)])
    else Dict(map[Str("data") := data, WeightedKey := WeightedValue(wm)])
  }

  /** The detail fetch: the parsed upstream body and status, or the exception raised. */
  datatype Attempt = Parsed(status: int, data: Value) | Failed(error: Raised)

  /** `get_station_detail(station_id)`. */
  function GetStationDetail(base: string, id: string, get: string -> Attempt, conv: Conversions): (r: Reply)
    ensures !r.Forwarded?
    ensures get(DetailUrl(base, id)).Parsed? && r.JsonReply? ==>
      r.status == get(DetailUrl(base, id)).status && r.body.Dict? && WeightedKey in r.body.fields
    ensures get(DetailUrl(base, id)).Parsed? ==> (r.InternalError? <==> Extract(get(DetailUrl(base, id)).data).Failure?)
  {
    match get(DetailUrl(base, id))
    case Failed(e) => FailureReply(e, true)
    case Parsed(status, data) =>
      match Extract(data)
      case Failure(_) => InternalError
      case Success(table) => JsonReply(Enrich(data, WeightedMap(table, conv)), status)
  }

  /** The list fetch: the upstream status, `Content-Type` header and raw body, or the exception raised. */
  datatype ListAttempt = Fetched(status: int, contentType: Option<string>, content: seq<bv8>) | ListFailed(error: Raised)

  /** `get_stations()`: the upstream body passed through, or an error reply. */
  function GetStations(base: string, get: string -> ListAttempt): (r: Reply)
    ensures r.Forwarded? <==> get(ListUrl(base)).Fetched?
    ensures r.Forwarded? ==> r.content == get(ListUrl(base)).content && r.status == get(ListUrl(base)).status
  {
    match get(ListUrl(base))
    case ListFailed(e) => FailureReply(e, false)
    case Fetched(status, contentType, content) =>
      Forwarded(content, status, contentType.GetOr("application/json"))
  }
}
