/**
 Properties of metric extraction: which entries and keys become metrics, which
 entry wins when names repeat, when the extraction raises, and what it ignores.
 */
module MetricsProps {
  import opened Wrappers
  import opened PyValue
  import opened Metrics

  /** The table only grows along the loop, and only by storing entries. */
  lemma {:induction false} MetricsListKeys(entries: seq<Value>, table: Table)
    requires FromMetricsList(entries, table).Success?
    ensures forall k :: k in FromMetricsList(entries, table).value <==>
      k in table || exists i :: 0 <= i < |entries| && Stores(entries[i], k)
    decreases |entries|
  {
    if entries != [] {
      var t := AddEntry(table, entries[0]).value;
      var tail := entries[1..];
      MetricsListKeys(tail, t);
      forall k
        ensures k in FromMetricsList(entries, table).value <==>
          k in table || exists i :: 0 <= i < |entries| && Stores(entries[i], k)
      {
        if exists i :: 0 <= i < |tail| && Stores(tail[i], k) {
          var i :| 0 <= i < |tail| && Stores(tail[i], k);
          assert Stores(entries[i + 1], k);
        }
        if exists i :: 0 <= i < |entries| && Stores(entries[i], k) {
          var i :| 0 <= i < |entries| && Stores(entries[i], k);
          if i > 0 {
            assert Stores(tail[i - 1], k);
          }
        }
      }
    }
  }

  /**
   When names repeat, the last entry that stores a list under a name decides that
   name's series.
   */
  lemma {:induction false} LastEntryWins(entries: seq<Value>, table: Table, i: nat)
    requires FromMetricsList(entries, table).Success?
    requires i < |entries| && entries[i].Dict? && MetricPoints(entries[i].fields).List?
    requires forall j :: i < j < |entries| ==> !Stores(entries[j], MetricName(entries[i].fields))
    ensures MetricName(entries[i].fields) in FromMetricsList(entries, table).value
    ensures FromMetricsList(entries, table).value[MetricName(entries[i].fields)]
         == MetricPoints(entries[i].fields).items
    decreases |entries|
  {
    var t := AddEntry(table, entries[0]).value;
    var tail := entries[1..];
    var name := MetricName(entries[i].fields);
    if i == 0 {
      assert t == table[name := MetricPoints(entries[0].fields).items];
      UnstoredKeyKept(tail, t, name);
    } else {
      forall j | i - 1 < j < |tail| ensures !Stores(tail[j], name) {
        assert tail[j] == entries[j + 1];
      }
      LastEntryWins(tail, t, i - 1);
    }
  }

  /** A name that no entry stores keeps the value it had before the loop. */
  lemma {:induction false} UnstoredKeyKept(entries: seq<Value>, table: Table, k: Value)
    requires FromMetricsList(entries, table).Success?
    requires k in table
    requires forall j :: 0 <= j < |entries| ==> !Stores(entries[j], k)
    ensures k in FromMetricsList(entries, table).value
    ensures FromMetricsList(entries, table).value[k] == table[k]
    decreases |entries|
  {
    if entries != [] {
      assert !Stores(entries[0], k);
      var t := AddEntry(table, entries[0]).value;
      forall j | 0 <= j < |entries[1..]| ensures !Stores(entries[1..][j], k) {
        assert entries[1..][j] == entries[j + 1];
      }
      UnstoredKeyKept(entries[1..], t, k);
    }
  }

  /** The error the first raising entry produces. */
  function RaisedBy(entry: Value): Crash {
    if !entry.Dict? then AttributeError else TypeError
  }

  /**
   The loop over the `metrics` list raises exactly when some entry raises, and
   then with the exception of the first such entry.
   */
  lemma {:induction false} MetricsListRaisesIff(entries: seq<Value>, table: Table)
    ensures FromMetricsList(entries, table).Failure? <==>
      exists i :: 0 <= i < |entries| && EntryRaises(entries[i])
    ensures forall i ::
      (0 <= i < |entries| && EntryRaises(entries[i]) && forall j :: 0 <= j < i ==> !EntryRaises(entries[j]))
      ==> FromMetricsList(entries, table) == Failure(RaisedBy(entries[i]))
    decreases |entries|
  {
    if entries != [] {
      var tail := entries[1..];
      assert forall j :: 0 <= j < |tail| ==> tail[j] == entries[j + 1];
      if EntryRaises(entries[0]) {
        assert AddEntry(table, entries[0]) == Failure(RaisedBy(entries[0]));
      } else {
        var t := AddEntry(table, entries[0]).value;
        MetricsListRaisesIff(tail, t);
        forall i | 0 <= i < |entries| && EntryRaises(entries[i])
          ensures exists j :: 0 <= j < |tail| && EntryRaises(tail[j])
        {
          assert i > 0 && EntryRaises(tail[i - 1]);
        }
        forall i | 0 <= i < |entries| && EntryRaises(entries[i]) && (forall j :: 0 <= j < i ==> !EntryRaises(entries[j]))
          ensures FromMetricsList(entries, table) == Failure(RaisedBy(entries[i]))
        {
          assert i > 0 && EntryRaises(tail[i - 1]);
          assert forall j :: 0 <= j < i - 1 ==> !EntryRaises(tail[j]);
        }
      }
    }
  }

  /** With a `metrics` list present, no other top-level key is looked at. */
  lemma MetricsListShadowsOtherKeys(d: map<Value, Value>, k: Value, v: Value)
    requires HasMetricsList(Dict(d)) && k != Str("metrics")
    ensures Extract(Dict(d[k := v])) == Extract(Dict(d))
  {
    assert d[k := v][Str("metrics")] == d[Str("metrics")];
  }

  /**
   Without a `metrics` list, metrics come only from top-level keys, and each series
   is either the key's own list or a list nested one level down under
   `data_points`/`days`; a key holding a string, number, boolean or null is never a metric.
   */
  lemma ScanTakesSeriesFromPayload(d: map<Value, Value>)
    requires !HasMetricsList(Dict(d))
    ensures Extract(Dict(d)).Success?
    ensures Extract(Dict(d)).value.Keys <= d.Keys
    ensures forall k :: k in Extract(Dict(d)).value ==>
      (d[k].List? && Extract(Dict(d)).value[k] == d[k].items) ||
      (d[k].Dict? && (List(Extract(Dict(d)).value[k]) == Get(d[k].fields, "data_points") ||
                      List(Extract(Dict(d)).value[k]) == Get(d[k].fields, "days")))
    ensures forall k :: k in d && (d[k].Null? || d[k].Bool? || d[k].Num? || d[k].Str?) ==>
      k !in Extract(Dict(d)).value
  {
  }

  /**
   A top-level list becomes a metric exactly when it is non-empty and its first
   element is a dictionary with `average`, or `sample_size`, or both `min` and `max`.
   */
  lemma ScannedListIffDayShaped(d: map<Value, Value>, k: Value)
    requires !HasMetricsList(Dict(d)) && k in d && d[k].List?
    ensures k in Extract(Dict(d)).value <==>
      |d[k].items| > 0 && d[k].items[0].Dict? &&
      (Has(d[k].items[0].fields, "average") || Has(d[k].items[0].fields, "sample_size") ||
       (Has(d[k].items[0].fields, "min") && Has(d[k].items[0].fields, "max")))
  {
  }

  /**
   A top-level dictionary becomes a metric exactly when it is non-empty and the first
   truthy of its `data_points`/`days` (or the `days` value itself, when neither is
   truthy) is a list.
   */
  lemma ScannedDictIffHoldsSeries(d: map<Value, Value>, k: Value)
    requires !HasMetricsList(Dict(d)) && k in d && d[k].Dict?
    ensures k in Extract(Dict(d)).value <==>
      d[k].fields != map[] &&
      (if Truthy(Get(d[k].fields, "data_points")) then Get(d[k].fields, "data_points").List?
       else Get(d[k].fields, "days").List?)
  {
  }
}
