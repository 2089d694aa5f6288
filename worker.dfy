/** The worker's per-delivery handling (app/main.py): `process_message` builds
    the result envelope from the request, and `callback` turns one delivery into
    channel actions — publish the reply then ack, or nack without requeue.

    Collaborators are parameters: `parse` stands for `json.loads(body.decode())`
    (None where it raises), `preprocess` for `preprocessing_operations` and
    `predict` for `ONNXModelWrapper.predict` (None where they raise), and the two
    `time.time()` readings are the numbers `pickUpTime` and `responseTime`. */
module Worker {
  import opened Wrappers

  /** The broker properties the worker reads from a delivery. */
  datatype Properties = Properties(correlationId: Option<string>, replyTo: Option<string>)

  datatype Delivery = Delivery(deliveryTag: nat, properties: Properties, body: seq<bv8>)

  /** What `json.loads` yields, as far as the worker looks at it: a dict, whose
      `.get('message_id')` and `.get('data')` are read (None when absent), or any
      other JSON value, on which `.get` raises. */
  datatype Document = Dict(messageId: Option<string>, data: Option<seq<real>>) | NonDict

  /** The dict returned by `process_message`. */
  datatype ProcessResult = ProcessResult(originalInput: Option<seq<real>>, processedData: seq<real>, modelOutput: seq<real>)

  /** The reply body serialised by `callback`. */
  datatype ReplyEnvelope = ReplyEnvelope(
    messageId: Option<string>,
    pickUpTimestamp: real,
    responseTimestamp: real,
    result: ProcessResult)

  /** One call made on the worker's channel. */
  datatype Action =
    | Publish(routingKey: Option<string>, correlationId: Option<string>, reply: ReplyEnvelope)
    | Ack(deliveryTag: nat)
    | Nack(deliveryTag: nat, multiple: bool, requeue: bool)

  /** How a call of `callback` ends: it acked, it nacked, or an exception escaped it. */
  datatype Outcome = Acked | Nacked | Raised

  datatype Handling = Handling(trace: seq<Action>, outcome: Outcome)

  // ---------------------------------------------------------------------------
  // process_message
  // ---------------------------------------------------------------------------

  /** `process_message`: decode the body, run the two pipeline stages on its
      `data` field and assemble the result; None where any step raises. */
  function ProcessMessage(
    body: seq<bv8>,
    parse: seq<bv8> -> Option<Document>,
    preprocess: Option<seq<real>> -> Option<seq<real>>,
    predict: seq<real> -> Option<seq<real>>): (r: Option<ProcessResult>)
    ensures r.Some? <==>
      && parse(body).Some? && parse(body).value.Dict?
      && preprocess(parse(body).value.data).Some?
      && predict(preprocess(parse(body).value.data).value).Some?
    ensures r.Some? ==>
      && r.value.originalInput == parse(body).value.data
      && r.value.processedData == preprocess(r.value.originalInput).value
      && r.value.modelOutput == predict(r.value.processedData).value
  {
    match parse(body)
    case None => None
    case Some(doc) =>
      if doc.NonDict? then None
      else
        match preprocess(doc.data)
        case None => None
        case Some(processed) =>
          match predict(processed)
          case None => None
          case Some(output) => Some(ProcessResult(doc.data, processed, output))
  }

  /** With identity stages, the model output echoes the request's data. */
  lemma IdentityPipelineEchoesInput(
    body: seq<bv8>, parse: seq<bv8> -> Option<Document>, messageId: Option<string>, data: seq<real>)
    requires parse(body) == Some(Dict(messageId, Some(data)))
    ensures var r := ProcessMessage(body, parse, d => d, d => Some(d));
      r.Some? && r.value.originalInput == Some(data) && r.value.modelOutput == data
  {
  }

  // ---------------------------------------------------------------------------
  // callback
  // ---------------------------------------------------------------------------

  /** The number of acks and nacks in a trace. */
  function Resolutions(trace: seq<Action>): nat
  {
    if trace == [] then 0
    else Resolutions(trace[..|trace| - 1]) + (if trace[|trace| - 1].Publish? then 0 else 1)
  }

  /** `callback` as written: the decode at line 30 and the `.get` at line 31 run
      before the `try`, so their exceptions escape with the delivery unresolved;
      inside the `try` any failure of processing or publishing becomes a nack. */
  function Handle(
    d: Delivery,
    parse: seq<bv8> -> Option<Document>,
    preprocess: Option<seq<real>> -> Option<seq<real>>,
    predict: seq<real> -> Option<seq<real>>,
    publishSucceeds: bool,
    pickUpTime: real,
    responseTime: real): (h: Handling)
    ensures h.outcome == Raised <==> !Parsed(d, parse)
    ensures h.outcome == Raised ==> h.trace == []
  {
    match parse(d.body)
    case None => Handling([], Raised)
    case Some(doc) =>
      if doc.NonDict? then Handling([], Raised)
      else HandleParsed(d, doc.messageId, ProcessMessage(d.body, parse, preprocess, predict),
                        publishSucceeds, pickUpTime, responseTime)
  }

  /** The `try` block of `callback`, once the request id is known. */
  function HandleParsed(
    d: Delivery,
    messageId: Option<string>,
    result: Option<ProcessResult>,
    publishSucceeds: bool,
    pickUpTime: real,
    responseTime: real): (h: Handling)
    ensures h.outcome != Raised
    ensures h.outcome == Acked <==> result.Some? && publishSucceeds
    ensures h.trace != [] && h.trace[|h.trace| - 1] ==
      if h.outcome == Acked then Ack(d.deliveryTag) else Nack(d.deliveryTag, false, false)
  {
    match result
    case None => Handling([Nack(d.deliveryTag, false, false)], Nacked)
    case Some(res) =>
      if publishSucceeds then
        var reply := ReplyEnvelope(messageId, pickUpTime, responseTime, res);
        Handling([Publish(d.properties.replyTo, d.properties.correlationId, reply), Ack(d.deliveryTag)], Acked)
      else
        Handling([Nack(d.deliveryTag, false, false)], Nacked)
  }

  /** The body decodes to a dict, so `callback` gets past line 31 into its `try`. */
  predicate Parsed(d: Delivery, parse: seq<bv8> -> Option<Document>)
  {
    parse(d.body).Some? && parse(d.body).value.Dict?
  }

  /** Processing and publishing both succeed: the reply is published to the
      request's reply_to, then the delivery is acked; nothing is nacked. */
  lemma HandleSuccessTrace(
    d: Delivery, parse: seq<bv8> -> Option<Document>,
    preprocess: Option<seq<real>> -> Option<seq<real>>, predict: seq<real> -> Option<seq<real>>,
    pickUpTime: real, responseTime: real)
    requires Parsed(d, parse)
    requires ProcessMessage(d.body, parse, preprocess, predict).Some?
    ensures var h := Handle(d, parse, preprocess, predict, true, pickUpTime, responseTime);
      && h.outcome == Acked
      && h.trace == [
           Publish(d.properties.replyTo, d.properties.correlationId,
                   ReplyEnvelope(parse(d.body).value.messageId, pickUpTime, responseTime,
                                 ProcessMessage(d.body, parse, preprocess, predict).value)),
           Ack(d.deliveryTag)]
  {
  }

  /** Processing or publishing raises: the delivery is nacked once, with
      multiple=False and requeue=False, and not acked. */
  lemma HandleFailureTrace(
    d: Delivery, parse: seq<bv8> -> Option<Document>,
    preprocess: Option<seq<real>> -> Option<seq<real>>, predict: seq<real> -> Option<seq<real>>,
    publishSucceeds: bool, pickUpTime: real, responseTime: real)
    requires Parsed(d, parse)
    requires ProcessMessage(d.body, parse, preprocess, predict).None? || !publishSucceeds
    ensures var h := Handle(d, parse, preprocess, predict, publishSucceeds, pickUpTime, responseTime);
      h.outcome == Nacked && h.trace == [Nack(d.deliveryTag, false, false)]
  {
  }

  /** Every delivery that gets into the `try` is resolved exactly once: one ack
      or one nack, and the outcome names which. */
  lemma HandleResolvesParsedOnce(
    d: Delivery, parse: seq<bv8> -> Option<Document>,
    preprocess: Option<seq<real>> -> Option<seq<real>>, predict: seq<real> -> Option<seq<real>>,
    publishSucceeds: bool, pickUpTime: real, responseTime: real)
    requires Parsed(d, parse)
    ensures var h := Handle(d, parse, preprocess, predict, publishSucceeds, pickUpTime, responseTime);
      && Resolutions(h.trace) == 1
      && (h.outcome == Acked <==> Ack(d.deliveryTag) in h.trace)
      && (h.outcome == Nacked <==> Nack(d.deliveryTag, false, false) in h.trace)
  {
    var h := Handle(d, parse, preprocess, predict, publishSucceeds, pickUpTime, responseTime);
    if h.outcome == Acked {
      assert |h.trace| == 2 && h.trace[0].Publish?;
      assert h.trace[..1] == [h.trace[0]] && h.trace[..1][..0] == [];
      assert Resolutions(h.trace[..1]) == 0;
    } else {
      assert h.trace == [Nack(d.deliveryTag, false, false)] && h.trace[..0] == [];
    }
  }

  /** A reply is published only for a request that `process_message` handled,
      to the request's reply_to, under the request's correlation id, carrying the
      request's message_id and, as original_input, the request's data field. */
  lemma HandleReplyIdentity(
    d: Delivery, parse: seq<bv8> -> Option<Document>,
    preprocess: Option<seq<real>> -> Option<seq<real>>, predict: seq<real> -> Option<seq<real>>,
    publishSucceeds: bool, pickUpTime: real, responseTime: real)
    ensures var h := Handle(d, parse, preprocess, predict, publishSucceeds, pickUpTime, responseTime);
      forall a :: a in h.trace && a.Publish? ==>
        && ProcessMessage(d.body, parse, preprocess, predict).Some?
        && a.routingKey == d.properties.replyTo
        && a.correlationId == d.properties.correlationId
        && a.reply.messageId == parse(d.body).value.messageId
        && a.reply.result.originalInput == parse(d.body).value.data
        && a.reply.result == ProcessMessage(d.body, parse, preprocess, predict).value
  {
  }

  /** The pick-up reading is taken before processing and the response reading
      after it, so under a non-decreasing clock the published timestamps are
      ordered. */
  lemma HandleTimestampsOrdered(
    d: Delivery, parse: seq<bv8> -> Option<Document>,
    preprocess: Option<seq<real>> -> Option<seq<real>>, predict: seq<real> -> Option<seq<real>>,
    publishSucceeds: bool, pickUpTime: real, responseTime: real)
    requires pickUpTime <= responseTime
    ensures var h := Handle(d, parse, preprocess, predict, publishSucceeds, pickUpTime, responseTime);
      forall a :: a in h.trace && a.Publish? ==> a.reply.pickUpTimestamp <= a.reply.responseTimestamp
  {
  }

  /** The gap at line 30: a body that does not decode to a dict raises before
      the `try`, so the delivery is neither acked nor nacked. */
  lemma UnparsedBodyIsNeverResolved(
    d: Delivery, parse: seq<bv8> -> Option<Document>,
    preprocess: Option<seq<real>> -> Option<seq<real>>, predict: seq<real> -> Option<seq<real>>,
    publishSucceeds: bool, pickUpTime: real, responseTime: real)
    requires !Parsed(d, parse)
    ensures var h := Handle(d, parse, preprocess, predict, publishSucceeds, pickUpTime, responseTime);
      h.outcome == Raised && Resolutions(h.trace) == 0
  {
  }

  /** A concrete delivery that is left unresolved: its body is not JSON. */
  lemma UndecodableDeliveryWitness()
    ensures var d := Delivery(7, Properties(Some("c"), Some("response_queue")), [0xff]);
      Resolutions(Handle(d, _ => None, x => x, x => Some(x), true, 0.0, 0.0).trace) == 0
  {
  }

  /** `callback` with the decode and the id lookup moved inside the `try` and
      `message_id = None` bound before it, so that the `except` branch can
      log it: a body that does not decode is nacked without requeue, like
      every other per-message failure. */
  function HandleCorrected(
    d: Delivery,
    parse: seq<bv8> -> Option<Document>,
    preprocess: Option<seq<real>> -> Option<seq<real>>,
    predict: seq<real> -> Option<seq<real>>,
    publishSucceeds: bool,
    pickUpTime: real,
    responseTime: real): (h: Handling)
    ensures Parsed(d, parse) ==> h == Handle(d, parse, preprocess, predict, publishSucceeds, pickUpTime, responseTime)
    ensures !Parsed(d, parse) ==> h == Handling([Nack(d.deliveryTag, false, false)], Nacked)
  {
    match parse(d.body)
    case None => Handling([Nack(d.deliveryTag, false, false)], Nacked)
    case Some(doc) =>
      if doc.NonDict? then Handling([Nack(d.deliveryTag, false, false)], Nacked)
      else HandleParsed(d, doc.messageId, ProcessMessage(d.body, parse, preprocess, predict),
                        publishSucceeds, pickUpTime, responseTime)
  }

  /** With the correction every delivery is resolved exactly once, whatever
      its body and whatever the collaborators do, and a body that does not
      decode to a dict is nacked without requeue. */
  lemma HandleCorrectedResolvesOnce(
    d: Delivery, parse: seq<bv8> -> Option<Document>,
    preprocess: Option<seq<real>> -> Option<seq<real>>, predict: seq<real> -> Option<seq<real>>,
    publishSucceeds: bool, pickUpTime: real, responseTime: real)
    ensures var h := HandleCorrected(d, parse, preprocess, predict, publishSucceeds, pickUpTime, responseTime);
      && h.outcome != Raised
      && Resolutions(h.trace) == 1
      && (!Parsed(d, parse) ==> h.outcome == Nacked && h.trace == [Nack(d.deliveryTag, false, false)])
      && (h.outcome == Acked <==> Ack(d.deliveryTag) in h.trace)
      && (h.outcome == Nacked <==> Nack(d.deliveryTag, false, false) in h.trace)
  {
    if Parsed(d, parse) {
      HandleResolvesParsedOnce(d, parse, preprocess, predict, publishSucceeds, pickUpTime, responseTime);
    } else {
      assert [Nack(d.deliveryTag, false, false)][..0] == [];
    }
  }

  // ---------------------------------------------------------------------------
  // The channel and the callback as a sequence of calls on it
  // ---------------------------------------------------------------------------

  /** The worker's channel, seen through the calls made on it. */
  class Channel {
    var actions: seq<Action>

    constructor ()
      ensures actions == []
    {
      actions := [];
    }

    /** `basic_publish`; `succeeds` is the broker's answer: when it is false the
        call raises and nothing is published. */
    method BasicPublish(routingKey: Option<string>, correlationId: Option<string>, reply: ReplyEnvelope, succeeds: bool)
      returns (published: bool)
      modifies this
      ensures published == succeeds
      ensures actions == old(actions) + (if succeeds then [Publish(routingKey, correlationId, reply)] else [])
    {
      published := succeeds;
      if succeeds {
        actions := actions + [Publish(routingKey, correlationId, reply)];
      }
    }

    method BasicAck(deliveryTag: nat)
      modifies this
      ensures actions == old(actions) + [Ack(deliveryTag)]
    {
      actions := actions + [Ack(deliveryTag)];
    }

    method BasicNack(deliveryTag: nat, multiple: bool, requeue: bool)
      modifies this
      ensures actions == old(actions) + [Nack(deliveryTag, multiple, requeue)]
    {
      actions := actions + [Nack(deliveryTag, multiple, requeue)];
    }
  }

  /** `callback`: the calls it makes on the channel are exactly the trace of
      Handle, and its outcome is Handle's. */
  method Callback(
    ch: Channel, d: Delivery,
    parse: seq<bv8> -> Option<Document>,
    preprocess: Option<seq<real>> -> Option<seq<real>>,
    predict: seq<real> -> Option<seq<real>>,
    publishSucceeds: bool, pickUpTime: real, responseTime: real)
    returns (outcome: Outcome)
    modifies ch
    ensures var h := Handle(d, parse, preprocess, predict, publishSucceeds, pickUpTime, responseTime);
      ch.actions == old(ch.actions) + h.trace && outcome == h.outcome
  {
    var requestData := parse(d.body);
    if requestData.None? || requestData.value.NonDict? {
      // json.loads or .get raised before the try: the exception leaves the callback
      return Raised;
    }
    var messageId := requestData.value.messageId;
    var result := ProcessMessage(d.body, parse, preprocess, predict);
    if result.None? {
      ch.BasicNack(d.deliveryTag, false, false);
      return Nacked;
    }
    var responseMessage := ReplyEnvelope(messageId, pickUpTime, responseTime, result.value);
    var published := ch.BasicPublish(d.properties.replyTo, d.properties.correlationId, responseMessage, publishSucceeds);
    if !published {
      ch.BasicNack(d.deliveryTag, false, false);
      return Nacked;
    }
    ch.BasicAck(d.deliveryTag);
    return Acked;
  }
}
