/** End-to-end properties of the two handlers. */
module StationDetailProps {
  import opened Wrappers
  import opened PyValue
  import opened WeightedAverage
  import opened Metrics
  import opened MetricsProps
  import opened Upstream
  import opened StationDetail

  /**
   A successful detail fetch is answered with the upstream status; its
   `weighted_average_7d` has exactly one key per extracted metric, holding the
   metric's average or null; a dictionary payload keeps every other key.
   */
  lemma DetailReplyShape(base: string, id: string, get: string -> Attempt, conv: Conversions)
    requires get(DetailUrl(base, id)).Parsed?
    requires Extract(get(DetailUrl(base, id)).data).Success?
    ensures var a := get(DetailUrl(base, id));
      var table := Extract(a.data).value;
      var r := GetStationDetail(base, id, get, conv);
      && r.JsonReply? && r.status == a.status
      && r.body.Dict? && WeightedKey in r.body.fields
      && r.body.fields[WeightedKey].Dict?
      && r.body.fields[WeightedKey].fields.Keys == table.Keys
      && (forall k :: k in table && Average(table[k], conv).Success? && Average(table[k], conv).value.Some? ==>
            r.body.fields[WeightedKey].fields[k] == Num(Average(table[k], conv).value.value))
      && (forall k :: k in table && (Average(table[k], conv).Failure? || Average(table[k], conv).value.None?) ==>
            r.body.fields[WeightedKey].fields[k] == Null)
      && (a.data.Dict? ==> forall k :: k in a.data.fields && k != WeightedKey ==> r.body.fields[k] == a.data.fields[k])
  {
  }

  /**
   A detail payload that is not a dictionary has no metrics and is wrapped as
   `{"data": payload, "weighted_average_7d": {}}`.
   */
  lemma NonDictPayloadWrapped(base: string, id: string, get: string -> Attempt, conv: Conversions)
    requires get(DetailUrl(base, id)).Parsed? && !get(DetailUrl(base, id)).data.Dict?
    ensures GetStationDetail(base, id, get, conv) ==
      JsonReply(Dict(map[Str("data") := get(DetailUrl(base, id)).data, WeightedKey := Dict(map[])]),
                get(DetailUrl(base, id)).status)
  {
    assert WeightedMap(map[], conv) == map[];
    assert WeightedValue(map[]) == Dict(map[]);
  }

  /**
   The detail handler fails with Flask's 500 exactly when the payload's `metrics`
   list holds an entry that is not a dictionary, or a list-valued series under a
   list or dictionary name.
   */
  lemma DetailInternalErrorIff(base: string, id: string, get: string -> Attempt, conv: Conversions)
    requires get(DetailUrl(base, id)).Parsed?
    ensures var data := get(DetailUrl(base, id)).data;
      GetStationDetail(base, id, get, conv).InternalError? <==>
      HasMetricsList(data) &&
      exists i :: 0 <= i < |data.fields[Str("metrics")].items| && EntryRaises(data.fields[Str("metrics")].items[i])
  {
    var data := get(DetailUrl(base, id)).data;
    if HasMetricsList(data) {
      MetricsListRaisesIff(data.fields[Str("metrics")].items, map[]);
    }
  }

  /**
   A failed detail fetch is answered by the detail route's `except` clauses alone;
   the handler as written gives the same reply except for an `HTTPError` without a
   response, which it lets escape.
   */
  lemma DetailFailureReply(base: string, id: string, get: string -> Attempt, conv: Conversions)
    requires get(DetailUrl(base, id)).Failed?
    ensures GetStationDetail(base, id, get, conv) == FailureReply(get(DetailUrl(base, id)).error, true)
    ensures GetStationDetail(base, id, get, conv).JsonReply? ==>
      GetStationDetail(base, id, get, conv).status in {502, 504} ||
      (get(DetailUrl(base, id)).error.response.Some? &&
       GetStationDetail(base, id, get, conv).status == get(DetailUrl(base, id)).error.response.value.status)
    ensures var e := get(DetailUrl(base, id)).error;
      !(Timeout !in e.classes && HTTPError in e.classes && e.response.None?) ==>
      GetStationDetail(base, id, get, conv) == FailureReplyAsWritten(e, true)
  {
    FailureStatuses(get(DetailUrl(base, id)).error, true);
  }

  /**
   The station list is passed through unchanged (body, status, content type, which
   defaults to `application/json`); a failure gets the list route's replies, where
   a `ValueError` is not caught. As written the route also lets an `HTTPError`
   without a response escape; on every other failure the replies coincide.
   */
  lemma StationListPassThrough(base: string, get: string -> ListAttempt)
    ensures get(ListUrl(base)).Fetched? ==>
      GetStations(base, get) == Forwarded(get(ListUrl(base)).content, get(ListUrl(base)).status,
        get(ListUrl(base)).contentType.GetOr("application/json"))
    ensures get(ListUrl(base)).ListFailed? ==> GetStations(base, get) == FailureReply(get(ListUrl(base)).error, false)
    ensures get(ListUrl(base)).ListFailed? ==>
      var e := get(ListUrl(base)).error;
      !(Timeout !in e.classes && HTTPError in e.classes && e.response.None?) ==>
      GetStations(base, get) == FailureReplyAsWritten(e, false)
  {
    if get(ListUrl(base)).ListFailed? {
      FailureStatuses(get(ListUrl(base)).error, false);
    }
  }
}
