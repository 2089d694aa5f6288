/** `send_messages` of the load-test harness (test_script.py): publish
    `num_messages` requests recording each send time under its id, wait for the
    replies, and report latency statistics.

    Everything outside the program is an input: the ids from `uuid.uuid4()`,
    the data from `random.uniform`, the `time.time()` readings, and the replies
    the consumer thread receives together with how far it has got at each
    check of the wait loop. */
module LoadHarness {
  import opened Wrappers
  import opened ReplyCollection
  import opened LatencyMetrics

  /** `delivery_mode=2`: the request is persistent. */
  const PERSISTENT: nat := 2

  /** The dict serialised by `generate_message`. */
  datatype Request = Request(messageId: string, data: seq<real>, sendTimestamp: real)

  /** One `basic_publish` on the request channel. */
  datatype Publication = Publication(
    routingKey: string,
    body: Request,
    replyTo: string,
    correlationId: string,
    deliveryMode: nat)

  /** The number of iterations of `for i in range(num_messages)`. */
  function Iterations(numMessages: int): nat
  {
    if numMessages > 0 then numMessages else 0
  }

  /** The `sent_messages` dict after recording sendTimes[i] under ids[i] in
      turn: it holds exactly the sent ids. */
  function SentMap(ids: seq<string>, sendTimes: seq<real>): (sent: map<string, real>)
    requires |ids| == |sendTimes|
    ensures forall id :: id in sent <==> id in ids
  {
    if ids == [] then map[]
    else SentMap(ids[..|ids| - 1], sendTimes[..|sendTimes| - 1])[ids[|ids| - 1] := sendTimes[|sendTimes| - 1]]
  }

  /** An id sent once more after request i is not overwritten: its entry
      holds the send time of its last request. */
  lemma {:induction false} SentMapLatest(ids: seq<string>, sendTimes: seq<real>, i: nat)
    requires |ids| == |sendTimes| && i < |ids|
    requires forall j :: i < j < |ids| ==> ids[j] != ids[i]
    ensures ids[i] in SentMap(ids, sendTimes) && SentMap(ids, sendTimes)[ids[i]] == sendTimes[i]
  {
    if i < |ids| - 1 {
      SentMapLatest(ids[..|ids| - 1], sendTimes[..|sendTimes| - 1], i);
    }
  }

  /** The publish loop: request i gets id ids[i], data inputs[i] and send time
      sendTimes[i]; `sent_messages` maps each id to its send time and the
      request is published to the work queue with its id as correlation id and
      the response queue as reply_to. */
  method PublishRequests(
    queueName: string, responseQueueName: string, numMessages: int,
    ids: seq<string>, inputs: seq<seq<real>>, sendTimes: seq<real>)
    returns (sent: map<string, real>, published: seq<Publication>)
    requires |ids| == |inputs| == |sendTimes| == Iterations(numMessages)
    ensures |published| == Iterations(numMessages)
    ensures forall i :: 0 <= i < |published| ==>
      && published[i].routingKey == queueName
      && published[i].body == Request(ids[i], inputs[i], sendTimes[i])
      && published[i].correlationId == ids[i]
      && published[i].replyTo == responseQueueName
      && published[i].deliveryMode == PERSISTENT
    ensures sent == SentMap(ids, sendTimes)
    ensures forall id :: id in sent <==> id in ids
    ensures forall i :: 0 <= i < |ids| && (forall j :: i < j < |ids| ==> ids[j] != ids[i]) ==>
      sent[ids[i]] == sendTimes[i]
  {
    sent, published := map[], [];
    var i := 0;
    while i < numMessages
      invariant 0 <= i <= Iterations(numMessages)
      invariant |published| == i
      invariant forall k :: 0 <= k < i ==>
        published[k] == Publication(queueName, Request(ids[k], inputs[k], sendTimes[k]), responseQueueName, ids[k], PERSISTENT)
      invariant sent == SentMap(ids[..i], sendTimes[..i])
    {
      var messageBody := Request(ids[i], inputs[i], sendTimes[i]);
      var messageId := messageBody.messageId;
      sent := sent[messageId := messageBody.sendTimestamp];
      published := published + [Publication(queueName, messageBody, responseQueueName, messageId, PERSISTENT)];
      assert ids[..i + 1][..i] == ids[..i] && sendTimes[..i + 1][..i] == sendTimes[..i];
      i := i + 1;
    }
    assert ids[..i] == ids && sendTimes[..i] == sendTimes;
    forall i | 0 <= i < |ids| && (forall j :: i < j < |ids| ==> ids[j] != ids[i])
      ensures sent[ids[i]] == sendTimes[i]
    {
      SentMapLatest(ids, sendTimes, i);
    }
  }

  /** Line 72: the time per message, or 0 when nothing was sent. */
  function AverageSendTime(totalSendTime: real, numMessages: int): (avg: real)
    ensures numMessages > 0 ==> avg * numMessages as real == totalSendTime
    ensures numMessages <= 0 ==> avg == 0.0
  {
    if numMessages > 0 then totalSendTime / numMessages as real else 0.0
  }

  /** What the environment supplies to one run. */
  datatype Environment = Environment(
    ids: seq<string>,
    inputs: seq<seq<real>>,
    sendTimes: seq<real>,
    startTime: real,
    endTime: real,
    arrivals: seq<ReplyDelivery>,
    delivered: seq<nat>,
    elapsed: seq<real>)

  /** One id, data vector and send time per request; the consumer's progress
      never goes back and never passes the replies that exist; the wait loop's
      clock readings reach the timeout. */
  predicate WellFormed(env: Environment, numMessages: int, timeout: int)
  {
    && |env.ids| == |env.inputs| == |env.sendTimes| == Iterations(numMessages)
    && 0 < |env.delivered| == |env.elapsed|
    && (forall k :: 0 <= k < |env.delivered| ==> env.delivered[k] <= |env.arrivals|)
    && (forall j, k :: 0 <= j <= k < |env.delivered| ==> env.delivered[j] <= env.delivered[k])
    && env.elapsed[|env.elapsed| - 1] >= timeout as real
  }

  /** What one run prints, with the number of checks the wait loop made. */
  datatype Report = Report(
    published: seq<Publication>,
    averageSendTime: real,
    polls: nat,
    timedOut: bool,
    received: nat,
    metrics: seq<Metric>,
    summary: Summary)

  /** `send_messages`. */
  method SendMessages(queueName: string, numMessages: int, responseQueueName: string, timeout: int, env: Environment)
    returns (report: Report)
    requires WellFormed(env, numMessages, timeout)
    ensures |report.published| == Iterations(numMessages)
    ensures forall i :: 0 <= i < |report.published| ==>
      report.published[i].correlationId == report.published[i].body.messageId == env.ids[i]
      && report.published[i].replyTo == responseQueueName
    ensures report.averageSendTime == AverageSendTime(env.endTime - env.startTime, numMessages)
    ensures report.polls < |env.delivered|
    ensures report.received == |Receive(map[], env.arrivals[..env.delivered[report.polls]])|
    ensures report.received >= numMessages || env.elapsed[report.polls] >= timeout as real
    ensures forall j :: 0 <= j < report.polls ==>
      |Receive(map[], env.arrivals[..env.delivered[j]])| < numMessages && env.elapsed[j] < timeout as real
    ensures report.timedOut <==> report.received < numMessages
    ensures |report.metrics| <= report.received
    ensures forall m :: m in report.metrics ==> m.messageId in env.ids
    ensures RecordsQualifying(report.metrics, Receive(map[], env.arrivals[..env.delivered[report.polls]]),
                              SentMap(env.ids, env.sendTimes))
    ensures forall i, j :: 0 <= i < j < |report.metrics| ==> report.metrics[i].messageId != report.metrics[j].messageId
    ensures forall m :: m in report.metrics ==> m.pickUpLatency + m.processingLatency == m.totalLatency
    ensures report.summary == Summarize(report.metrics)
    ensures report.summary.NoData? <==> report.metrics == []
    ensures report.summary.Stats? ==>
      report.summary.avgPickUpLatency + report.summary.avgProcessingLatency == report.summary.avgTotalLatency
  {
    var consumer := new ReplyConsumer();
    var sent, published := PublishRequests(queueName, responseQueueName, numMessages, env.ids, env.inputs, env.sendTimes);
    var averageSendTime := AverageSendTime(env.endTime - env.startTime, numMessages);

    assert env.arrivals[..0] == [];
    var polls, timedOut := WaitForResponses(consumer, env.arrivals, env.delivered, env.elapsed,
                                            numMessages, timeout, map[], 0);

    var metrics := ComputeMetrics(consumer.order, consumer.responses, sent);
    assert RecordsQualifying(metrics, Receive(map[], env.arrivals[..env.delivered[polls]]), SentMap(env.ids, env.sendTimes));
    var summary := Summarize(metrics);
    AverageLatenciesAdd(metrics);
    report := Report(published, averageSendTime, polls, timedOut, |consumer.responses|, metrics, summary);
  }

  /** Replies from an earlier run left on the response queue count toward the
      wait loop's threshold and the "received" figure but never yield a metric:
      here one stale reply ends the wait for a single request, yet no stored
      reply qualifies. */
  lemma StaleReplySatisfiesWait()
    ensures var stale := Reply(Some("earlier-run"), Some(2.0), Some(3.0));
      var responses := Receive(map[], [ReplyDelivery(1, stale)]);
      var sent := map["this-run" := 1.0];
      && |responses| >= 1
      && forall k :: k in responses ==> !Qualifies(k, responses[k], sent)
  {
  }
}
