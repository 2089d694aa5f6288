/** One request's round trip across the two processes: the harness publishes
    it, the worker handles the delivery the broker hands over, and the harness
    stores the reply. The broker is assumed to deliver the publication's
    correlation id and reply_to unchanged, JSON to carry the fields unchanged,
    and both processes to read one non-decreasing clock. */
module EndToEnd {
  import opened Wrappers
  import Worker
  import ReplyCollection
  import LatencyMetrics
  import LoadHarness

  /** The delivery the worker receives for a publication, with its body bytes. */
  function DeliveryOf(p: LoadHarness.Publication, deliveryTag: nat, body: seq<bv8>): Worker.Delivery
  {
    Worker.Delivery(deliveryTag, Worker.Properties(Some(p.correlationId), Some(p.replyTo)), body)
  }

  /** The worker's reply as the harness reads it back with `.get`. */
  function AsReceived(r: Worker.ReplyEnvelope): ReplyCollection.Reply
  {
    ReplyCollection.Reply(r.messageId, Some(r.pickUpTimestamp), Some(r.responseTimestamp))
  }

  /** Identity is preserved end to end: a reply to a harness request goes to the
      harness's response queue under the request's id, both as correlation id
      and as message_id, and echoes the request's data. */
  lemma ReplyCarriesRequestIdentity(
    p: LoadHarness.Publication, deliveryTag: nat, body: seq<bv8>,
    parse: seq<bv8> -> Option<Worker.Document>,
    preprocess: Option<seq<real>> -> Option<seq<real>>, predict: seq<real> -> Option<seq<real>>,
    publishSucceeds: bool, pickUpTime: real, responseTime: real)
    requires p.correlationId == p.body.messageId
    requires parse(body) == Some(Worker.Dict(Some(p.body.messageId), Some(p.body.data)))
    ensures var h := Worker.Handle(DeliveryOf(p, deliveryTag, body), parse, preprocess, predict,
                                   publishSucceeds, pickUpTime, responseTime);
      forall a :: a in h.trace && a.Publish? ==>
        && a.routingKey == Some(p.replyTo)
        && a.correlationId == Some(p.body.messageId)
        && a.reply.messageId == Some(p.body.messageId)
        && a.reply.result.originalInput == Some(p.body.data)
  {
  }

  /** A stored reply to a request of this run, stamped after a non-zero send
      time by the same clock, qualifies for a metric. */
  lemma RoundTripQualifies(
    id: string, reply: Worker.ReplyEnvelope, responses: ReplyCollection.Responses, sent: map<string, real>)
    requires reply.messageId == Some(id) && id in sent
    requires 0.0 < sent[id] <= reply.pickUpTimestamp <= reply.responseTimestamp
    requires Some(id) in responses && responses[Some(id)] == AsReceived(reply)
    ensures LatencyMetrics.Qualifies(Some(id), responses[Some(id)], sent)
  {
  }

  /** The metric recorded for such a reply has non-negative latencies, with
      the total the largest. */
  lemma RoundTripLatencies(
    id: string, reply: Worker.ReplyEnvelope, responses: ReplyCollection.Responses,
    sent: map<string, real>, m: LatencyMetrics.Metric)
    requires reply.messageId == Some(id) && id in sent
    requires 0.0 < sent[id] <= reply.pickUpTimestamp <= reply.responseTimestamp
    requires Some(id) in responses && responses[Some(id)] == AsReceived(reply)
    requires m.messageId == id && LatencyMetrics.Describes(m, responses, sent)
    ensures 0.0 <= m.pickUpLatency <= m.totalLatency
    ensures 0.0 <= m.processingLatency <= m.totalLatency
  {
  }
}
