/** The metrics pass of `send_messages` (test_script.py lines 90-130): one
    metric per stored reply whose id was sent in this run and whose three
    timestamps are truthy, then averages and the overall span, or "no data".
    Timestamps are exact reals; float rounding is not modelled. */
module LatencyMetrics {
  import opened Wrappers
  import opened ReplyCollection

  /** One dict appended to `metrics`. */
  datatype Metric = Metric(
    messageId: string,
    sendTime: real,
    pickUpTime: real,
    responseTime: real,
    pickUpLatency: real,
    processingLatency: real,
    totalLatency: real)

  /** What is printed after the wait: the statistics, or the "no data" line. */
  datatype Summary =
    | NoData
    | Stats(avgPickUpLatency: real, avgProcessingLatency: real, avgTotalLatency: real, totalDuration: real)

  /** Python truthiness of a timestamp read with `.get`: present and non-zero. */
  predicate Truthy(t: Option<real>)
  {
    t.Some? && t.value != 0.0
  }

  /** The tests at lines 92 and 98: the reply's id was sent in this run and
      all three timestamps are truthy. */
  predicate Qualifies(key: Option<string>, reply: Reply, sent: map<string, real>)
  {
    && key.Some? && key.value in sent
    && sent[key.value] != 0.0
    && Truthy(reply.pickUpTimestamp)
    && Truthy(reply.responseTimestamp)
  }

  /** The metric recorded for a qualifying reply. */
  predicate Describes(m: Metric, responses: Responses, sent: map<string, real>)
  {
    && Some(m.messageId) in responses
    && Qualifies(Some(m.messageId), responses[Some(m.messageId)], sent)
    && m.sendTime == sent[m.messageId]
    && m.pickUpTime == responses[Some(m.messageId)].pickUpTimestamp.value
    && m.responseTime == responses[Some(m.messageId)].responseTimestamp.value
    && m.pickUpLatency == m.pickUpTime - m.sendTime
    && m.processingLatency == m.responseTime - m.pickUpTime
    && m.totalLatency == m.responseTime - m.sendTime
  }

  /** `metrics` holds a metric for every qualifying stored reply and for
      nothing else, each describing its reply. */
  predicate RecordsQualifying(metrics: seq<Metric>, responses: Responses, sent: map<string, real>)
  {
    && (forall m :: m in metrics ==> Describes(m, responses, sent))
    && (forall k :: k in responses && Qualifies(k, responses[k], sent) ==>
          exists m :: m in metrics && Some(m.messageId) == k)
  }

  /** The `for msg_id, response in responses.items()` loop, iterating the keys
      in insertion order. */
  method ComputeMetrics(order: seq<Option<string>>, responses: Responses, sent: map<string, real>)
    returns (metrics: seq<Metric>)
    requires Distinct(order)
    requires forall k :: k in responses <==> k in order
    ensures |metrics| <= |responses|
    ensures RecordsQualifying(metrics, responses, sent)
    ensures forall i, j :: 0 <= i < j < |metrics| ==> metrics[i].messageId != metrics[j].messageId
    ensures forall m :: m in metrics ==> m.pickUpLatency + m.processingLatency == m.totalLatency
  {
    metrics := [];
    var i := 0;
    while i < |order|
      invariant i <= |order|
      invariant |metrics| <= i
      invariant forall m :: m in metrics ==> Describes(m, responses, sent)
      invariant forall m :: m in metrics ==> Some(m.messageId) in order[..i]
      invariant forall k :: 0 <= k < i && Qualifies(order[k], responses[order[k]], sent) ==>
        exists m :: m in metrics && Some(m.messageId) == order[k]
      invariant forall a, b :: 0 <= a < b < |metrics| ==> metrics[a].messageId != metrics[b].messageId
    {
      var msgId := order[i];
      var response := responses[msgId];
      if msgId.Some? && msgId.value in sent {
        var sendTime := sent[msgId.value];
        var pickUpTime := response.pickUpTimestamp;
        var responseTime := response.responseTimestamp;
        if sendTime != 0.0 && Truthy(pickUpTime) && Truthy(responseTime) {
          var m := Metric(msgId.value, sendTime, pickUpTime.value, responseTime.value,
                          pickUpTime.value - sendTime, responseTime.value - pickUpTime.value,
                          responseTime.value - sendTime);
          AppendMetric(order, i, metrics, m);
          metrics := metrics + [m];
        }
      }
      assert order[..i + 1] == order[..i] + [order[i]];
      i := i + 1;
    }
    assert order[..|order|] == order;
    DistinctKeysCount(order, responses);
  }

  /** Appending the metric of order[i] keeps the metric ids distinct, because
      every earlier metric came from an earlier key. */
  lemma AppendMetric(order: seq<Option<string>>, i: nat, metrics: seq<Metric>, m: Metric)
    requires Distinct(order) && i < |order| && order[i] == Some(m.messageId)
    requires forall n :: n in metrics ==> Some(n.messageId) in order[..i]
    requires forall a, b :: 0 <= a < b < |metrics| ==> metrics[a].messageId != metrics[b].messageId
    ensures forall a, b :: 0 <= a < b < |metrics + [m]| ==> (metrics + [m])[a].messageId != (metrics + [m])[b].messageId
  {
  }

  // ---------------------------------------------------------------------------
  // Aggregation
  // ---------------------------------------------------------------------------

  /** The quantities of a metric that the aggregation reads. */
  datatype Quantity = SendTime | ResponseTime | PickUpLatency | ProcessingLatency | TotalLatency

  function Get(m: Metric, q: Quantity): real
  {
    match q
    case SendTime => m.sendTime
    case ResponseTime => m.responseTime
    case PickUpLatency => m.pickUpLatency
    case ProcessingLatency => m.processingLatency
    case TotalLatency => m.totalLatency
  }

  /** `sum(m[q] for m in metrics)` */
  function SumOf(metrics: seq<Metric>, q: Quantity): real
  {
    if metrics == [] then 0.0 else SumOf(metrics[..|metrics| - 1], q) + Get(metrics[|metrics| - 1], q)
  }

  /** `max(f(m) for m in metrics)`: an attained value that bounds every other. */
  function MaxOf(metrics: seq<Metric>, q: Quantity): (r: real)
    requires metrics != []
    ensures exists i :: 0 <= i < |metrics| && r == Get(metrics[i], q)
    ensures forall i :: 0 <= i < |metrics| ==> Get(metrics[i], q) <= r
  {
    if |metrics| == 1 then Get(metrics[0], q)
    else
      var rest := MaxOf(metrics[..|metrics| - 1], q);
      var last := Get(metrics[|metrics| - 1], q);
      if last > rest then last else rest
  }

  /** `min(f(m) for m in metrics)`: an attained value that bounds every other. */
  function MinOf(metrics: seq<Metric>, q: Quantity): (r: real)
    requires metrics != []
    ensures exists i :: 0 <= i < |metrics| && r == Get(metrics[i], q)
    ensures forall i :: 0 <= i < |metrics| ==> r <= Get(metrics[i], q)
  {
    if |metrics| == 1 then Get(metrics[0], q)
    else
      var rest := MinOf(metrics[..|metrics| - 1], q);
      var last := Get(metrics[|metrics| - 1], q);
      if last < rest then last else rest
  }

  /** Lines 112-130: with no metric the "no data" branch, so nothing is divided
      by zero; otherwise each average is the sum over the metrics divided by
      their number, and the duration runs from the earliest send to the latest
      response. */
  function Summarize(metrics: seq<Metric>): (s: Summary)
    ensures s.NoData? <==> metrics == []
    ensures s.Stats? ==>
      && s.avgPickUpLatency * |metrics| as real == SumOf(metrics, PickUpLatency)
      && s.avgProcessingLatency * |metrics| as real == SumOf(metrics, ProcessingLatency)
      && s.avgTotalLatency * |metrics| as real == SumOf(metrics, TotalLatency)
    ensures s.Stats? ==> s.totalDuration == MaxOf(metrics, ResponseTime) - MinOf(metrics, SendTime)
  {
    if metrics == [] then NoData
    else
      var n := |metrics| as real;
      Stats(SumOf(metrics, PickUpLatency) / n,
            SumOf(metrics, ProcessingLatency) / n,
            SumOf(metrics, TotalLatency) / n,
            MaxOf(metrics, ResponseTime) - MinOf(metrics, SendTime))
  }

  /** When every metric's pick-up and processing latencies add up to its total
      latency, their sums add up the same way. */
  lemma {:induction false} SumsOfLatenciesAdd(metrics: seq<Metric>)
    requires forall m :: m in metrics ==> m.pickUpLatency + m.processingLatency == m.totalLatency
    ensures SumOf(metrics, PickUpLatency) + SumOf(metrics, ProcessingLatency) == SumOf(metrics, TotalLatency)
  {
    if metrics != [] {
      var prefix := metrics[..|metrics| - 1];
      assert forall m :: m in prefix ==> m in metrics;
      SumsOfLatenciesAdd(prefix);
    }
  }

  /** A sum of non-negative quantities is non-negative. */
  lemma {:induction false} SumOfNonNegative(metrics: seq<Metric>, q: Quantity)
    requires forall m :: m in metrics ==> 0.0 <= Get(m, q)
    ensures 0.0 <= SumOf(metrics, q)
  {
    if metrics != [] {
      var prefix := metrics[..|metrics| - 1];
      assert forall m :: m in prefix ==> m in metrics;
      SumOfNonNegative(prefix, q);
    }
  }

  lemma QuotientsAdd(a: real, b: real, n: real)
    requires 0.0 < n
    ensures a / n + b / n == (a + b) / n
  {
  }

  lemma QuotientNonNegative(a: real, n: real)
    requires 0.0 <= a && 0.0 < n
    ensures 0.0 <= a / n
  {
  }

  /** The pick-up and processing latencies of every metric add up to its total
      latency, so the averages add up the same way. */
  lemma AverageLatenciesAdd(metrics: seq<Metric>)
    requires forall m :: m in metrics ==> m.pickUpLatency + m.processingLatency == m.totalLatency
    ensures var s := Summarize(metrics);
      s.Stats? ==> s.avgPickUpLatency + s.avgProcessingLatency == s.avgTotalLatency
  {
    if metrics != [] {
      SumsOfLatenciesAdd(metrics);
      QuotientsAdd(SumOf(metrics, PickUpLatency), SumOf(metrics, ProcessingLatency), |metrics| as real);
    }
  }

  /** total_duration is the latest response time minus the earliest send time. */
  lemma TotalDurationSpan(metrics: seq<Metric>)
    requires metrics != []
    ensures exists i, j ::
      && 0 <= i < |metrics| && 0 <= j < |metrics|
      && Summarize(metrics).totalDuration == metrics[i].responseTime - metrics[j].sendTime
      && (forall k :: 0 <= k < |metrics| ==> metrics[k].responseTime <= metrics[i].responseTime)
      && (forall k :: 0 <= k < |metrics| ==> metrics[j].sendTime <= metrics[k].sendTime)
  {
    var hi := MaxOf(metrics, ResponseTime);
    var lo := MinOf(metrics, SendTime);
    var i :| 0 <= i < |metrics| && hi == Get(metrics[i], ResponseTime);
    var j :| 0 <= j < |metrics| && lo == Get(metrics[j], SendTime);
    assert Summarize(metrics).totalDuration == metrics[i].responseTime - metrics[j].sendTime;
    forall k | 0 <= k < |metrics|
      ensures metrics[k].responseTime <= metrics[i].responseTime
      ensures metrics[j].sendTime <= metrics[k].sendTime
    {
      assert Get(metrics[k], ResponseTime) <= hi && lo <= Get(metrics[k], SendTime);
    }
  }

  /** The overall duration covers the total latency of every single request. */
  lemma DurationCoversEveryRequest(metrics: seq<Metric>)
    requires forall m :: m in metrics ==> m.totalLatency == m.responseTime - m.sendTime
    ensures var s := Summarize(metrics);
      s.Stats? ==> forall m :: m in metrics ==> m.totalLatency <= s.totalDuration
  {
  }

  /** Under one non-decreasing clock (send, then pick-up, then response) no
      average latency is negative. */
  lemma AveragesNonNegative(metrics: seq<Metric>)
    requires forall m :: m in metrics ==>
      && m.sendTime <= m.pickUpTime <= m.responseTime
      && m.pickUpLatency == m.pickUpTime - m.sendTime
      && m.processingLatency == m.responseTime - m.pickUpTime
      && m.totalLatency == m.responseTime - m.sendTime
    ensures var s := Summarize(metrics);
      s.Stats? ==> 0.0 <= s.avgPickUpLatency && 0.0 <= s.avgProcessingLatency && 0.0 <= s.avgTotalLatency
  {
    if metrics != [] {
      var n := |metrics| as real;
      SumOfNonNegative(metrics, PickUpLatency);
      SumOfNonNegative(metrics, ProcessingLatency);
      SumOfNonNegative(metrics, TotalLatency);
      QuotientNonNegative(SumOf(metrics, PickUpLatency), n);
      QuotientNonNegative(SumOf(metrics, ProcessingLatency), n);
      QuotientNonNegative(SumOf(metrics, TotalLatency), n);
    }
  }
}
