/**
 Extraction of metric series from an upstream station payload (the first half of
 the body of `get_station_detail` in backend/app.py, after the fetch).

 An explicit `metrics` list wins; otherwise every top-level key is scanned for a
 list of day objects, or for a dictionary holding one under `data_points`/`days`.
 */
module Metrics {
  import opened Wrappers
  import opened PyValue

  /** `metrics_container`: metric name to its list of day objects. */
  type Table = map<Value, seq<Value>>

  /** An entry's name: `m.get("name") or m.get("metric") or "unknown"`. */
  function MetricName(m: map<Value, Value>): (r: Value)
    ensures Truthy(r)
    ensures Truthy(Get(m, "name")) ==> r == Get(m, "name")
    ensures !Truthy(Get(m, "name")) && Truthy(Get(m, "metric")) ==> r == Get(m, "metric")
    ensures !Truthy(Get(m, "name")) && !Truthy(Get(m, "metric")) ==> r == Str("unknown")
  {
    Or(Or(Get(m, "name"), Get(m, "metric")), Str("unknown"))
  }

  /** An entry's points: `m.get("data_points") or m.get("days") or []`. */
  function MetricPoints(m: map<Value, Value>): (r: Value)
    ensures Truthy(Get(m, "data_points")) ==> r == Get(m, "data_points")
    ensures !Truthy(Get(m, "data_points")) && Truthy(Get(m, "days")) ==> r == Get(m, "days")
    ensures !Truthy(Get(m, "data_points")) && !Truthy(Get(m, "days")) ==> r == List([])
  {
    Or(Or(Get(m, "data_points"), Get(m, "days")), List([]))
  }

  /** An entry of the `metrics` list that stores a series under `name`. */
  predicate Stores(entry: Value, name: Value) {
    entry.Dict? && MetricPoints(entry.fields).List? && MetricName(entry.fields) == name
  }

  /**
   An entry on which the loop raises: `m.get` on something that is not a
   dictionary, or a list-valued series under an unhashable name.
   */
  predicate EntryRaises(entry: Value) {
    !entry.Dict? || (MetricPoints(entry.fields).List? && !Hashable(MetricName(entry.fields)))
  }

  /** One iteration of the loop over `data["metrics"]`. */
  function AddEntry(table: Table, entry: Value): (r: Result<Table, Crash>)
    ensures r.Failure? <==> EntryRaises(entry)
    ensures r.Success? ==> r.value.Keys == table.Keys + (if entry.Dict? && MetricPoints(entry.fields).List? then {MetricName(entry.fields)} else {})
    ensures r.Success? ==> forall k :: k in table && !Stores(entry, k) ==> r.value[k] == table[k]
  {
    if !entry.Dict? then Failure(AttributeError)
    else
      var name := MetricName(entry.fields);
      var points := MetricPoints(entry.fields);
      if !points.List? then Success(table)
      else if !Hashable(name) then Failure(TypeError)
      else Success(table[name := points.items])
  }

  /** The loop over `data["metrics"]`, from the given table onwards. */
  function FromMetricsList(entries: seq<Value>, table: Table): (r: Result<Table, Crash>)
    ensures r.Success? ==> table.Keys <= r.value.Keys
    ensures r.Success? ==> forall i :: 0 <= i < |entries| ==> !EntryRaises(entries[i])
    decreases |entries|
  {
    if entries == [] then Success(table)
    else match AddEntry(table, entries[0])
      case Failure(e) => Failure(e)
      case Success(t) => FromMetricsList(entries[1..], t)
  }

  /** A day object worth treating as a metric: `average`, or `sample_size`, or both `min` and `max`. */
  predicate DayShaped(sample: map<Value, Value>) {
    Has(sample, "average") || Has(sample, "sample_size") || (Has(sample, "min") && Has(sample, "max"))
  }

  /** What the key scan stores for one top-level value, if anything. */
  function ScanValue(v: Value): (r: Option<seq<Value>>)
    ensures r.Some? ==> Truthy(v) && (v.List? || v.Dict?)
    ensures r.Some? && v.List? ==> r.value == v.items
    ensures r.Some? && v.Dict? ==> List(r.value) == Get(v.fields, "data_points") || List(r.value) == Get(v.fields, "days")
  {
    if v.List? && v.items != [] && v.items[0].Dict? && DayShaped(v.items[0].fields) then Some(v.items)
    else if Truthy(v) && v.Dict? && Or(Get(v.fields, "data_points"), Get(v.fields, "days")).List? then
      Some(Or(Get(v.fields, "data_points"), Get(v.fields, "days")).items)
    else None
  }

  /** The scan over `data.items()` when there is no `metrics` list. */
  function ScanKeys(d: map<Value, Value>): (r: Table)
    ensures r.Keys <= d.Keys
    ensures forall k :: k in r ==> ScanValue(d[k]) == Some(r[k])
  {
    map k | k in d && ScanValue(d[k]).Some? :: ScanValue(d[k]).value
  }

  /** Whether the payload carries a list under `metrics`. */
  predicate HasMetricsList(data: Value) {
    data.Dict? && Has(data.fields, "metrics") && data.fields[Str("metrics")].List?
  }

  /**
   The metric table of a payload, or the exception the extraction raises. Only the
   `metrics`-list branch can raise; a payload that is not a dictionary has no metrics.
   */
  function Extract(data: Value): (r: Result<Table, Crash>)
    ensures !data.Dict? ==> r == Success(map[])
    ensures r.Failure? ==> HasMetricsList(data)
  {
    if !data.Dict? then Success(map[])
    else if HasMetricsList(data) then FromMetricsList(data.fields[Str("metrics")].items, map[])
    else Success(ScanKeys(data.fields))
  }
}
