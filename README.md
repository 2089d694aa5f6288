# Inference request/reply over a work queue — a Dafny model

This project models the sequential logic of a small request/reply system
built on a message broker. Clients publish inference jobs to a durable work
queue. A worker runs each job through a preprocess → predict pipeline and
publishes a reply, carrying the request's correlation id, to the queue named
in `reply_to`. A load-test harness publishes a batch of requests, collects
the replies keyed by `message_id`, waits up to a timeout, and reports latency
statistics. A third, offline tool generates the dummy ONNX model: a chain of
Identity nodes.

The broker, the clock, randomness, JSON and the inference engine are inputs
to the model:

- the worker gets `parse` (decoding the body), `preprocess` and `predict` as
  functions that return `None` where the real call raises;
- the worker gets the two `time.time()` readings as numbers, and the outcome
  of `basic_publish` as a boolean;
- the harness gets the uuids, the random data vectors and the clock readings
  as sequences;
- the harness gets the replies its consumer thread receives as a sequence
  `arrivals`, and `delivered[k]` says how many of them the thread has stored
  when the wait loop checks its condition for the k-th time.

Modules:

- `Wrappers` (wrappers.dfy): `Option`.
- `DummyModel` (dummy_model.dfy): the node-chain loop of
  `create_dummy_onnx_model`. It includes the decimal rendering of `f'{i}'`
  and its inverse, which together give distinct node and output names.
- `Worker` (worker.dfy): `process_message` as a function. `callback` is a
  method over a `Channel` class that logs the publish/ack/nack calls. The
  pure function `Handle` gives the trace those calls form. `HandleCorrected`
  is the version with the decode and the id lookup inside the `try`, with
  `message_id = None` bound before it.
- `ReplyCollection` (reply_collection.dfy): the shared `responses` dict as
  the class `ReplyConsumer`. It keeps the map, the dict's insertion order and
  the acked delivery tags. `receive_response` is a method of that class. The
  file also holds the fold `Receive` over a stream of replies and the wait
  loop.
- `LatencyMetrics` (latency_metrics.dfy): the metrics loop, and the
  `sum`/`max`/`min` aggregation with its "no data" branch.
- `LoadHarness` (load_harness.dfy): the publish loop, the average send time
  and `send_messages` as a whole.
- `EndToEnd` (end_to_end.dfy): one request's round trip, from the harness's
  publication through the worker's reply to the harness's metric. It assumes
  the broker delivers the properties and JSON carries the fields unchanged,
  and that both processes read one clock.

The model follows the code in four places a reader might not expect:

- the worker's decode at app/main.py:30 is outside the `try`, so a bad body
  is not nacked (see Findings);
- a later reply with the same `message_id` overwrites the stored one;
- the wait loop counts every stored reply, including replies whose id was
  not sent in this run;
- `message_id` and the timestamps are read with `.get`, so a missing field
  becomes `None`.

## Model

| member | source | states |
|---|---|---|
| `DummyModel.NatToDecimal` | create_dummy_onnx_model.py:44 | `f'{i}'`: a non-empty decimal rendering of the index, read back by `DecimalValue` (see `DecimalRoundTrip`) |
| `DummyModel.DecimalRoundTrip` | create_dummy_onnx_model.py:44 | reading the decimal rendering of an index back gives the index |
| `DummyModel.DecimalInjective` | create_dummy_onnx_model.py:44-45 | distinct indices are rendered as distinct strings |
| `DummyModel.BuildChain` | create_dummy_onnx_model.py:41-53 | the loop yields exactly max(size, 0) nodes; node k is named `identity_k` and has op type Identity; node 0 reads `input` and every later node reads its predecessor's output; the last node writes `output` and every earlier node writes `intermediate_output_k` |
| `DummyModel.ChainNamesDistinct` | create_dummy_onnx_model.py:44-50 | in such a chain the node names are pairwise distinct |
| `DummyModel.ChainOutputsDistinct` | create_dummy_onnx_model.py:45 | the output names are pairwise distinct and none is the graph input `input` |
| `DummyModel.ChainProducesGraphOutput` | create_dummy_onnx_model.py:35-45 | exactly the last node writes the declared graph output `output`, so it has a producer iff the chain is non-empty (size > 0) |
| `Worker.ProcessMessage` | app/main.py:13-22 | succeeds iff the body decodes to a dict and both pipeline stages return; then `original_input` is the request's `data` field, `processed_data` is preprocess of it and `model_output` is predict of that |
| `Worker.IdentityPipelineEchoesInput` | app/main.py:17-22 | with identity stages the model output equals the request's data |
| `Worker.Handle` | app/main.py:28-47 | `callback` as written: it raises, with no call on the channel, iff the body does not decode to a dict |
| `Worker.HandleParsed` | app/main.py:34-47 | the `try` block never raises; it acks iff processing returned and the publish went through; the last call it makes is that ack or the nack with multiple=False and requeue=False |
| `Worker.HandleSuccessTrace` | app/main.py:34-44 | a parsed request that processes and publishes yields exactly [publish reply, ack], with no nack |
| `Worker.HandleFailureTrace` | app/main.py:45-47 | when processing or publishing raises, the trace is exactly one nack with multiple=False and requeue=False, and no ack |
| `Worker.HandleResolvesParsedOnce` | app/main.py:34-47 | every delivery that reaches the `try` is resolved exactly once, and the outcome says whether by ack or by nack |
| `Worker.HandleReplyIdentity` | app/main.py:28-43 | a reply is published only when `process_message` returned; it goes to the request's reply_to under its correlation id, carries its message_id and has its data as original_input |
| `Worker.HandleTimestampsOrdered` | app/main.py:32-36 | under a non-decreasing clock a published reply has pick_up_timestamp <= response_timestamp |
| `Worker.UnparsedBodyIsNeverResolved` | app/main.py:30-34 | a body that does not decode to a dict makes the callback raise with neither ack nor nack |
| `Worker.UndecodableDeliveryWitness` | app/main.py:30 | a concrete non-JSON delivery is left unresolved |
| `Worker.HandleCorrected` | app/main.py:24-47 | with the decode and the id lookup inside the `try` and `message_id = None` bound before it, a parsed delivery is handled as before and every other delivery is nacked with multiple=False and requeue=False, with no publish and no ack |
| `Worker.HandleCorrectedResolvesOnce` | app/main.py:24-47 | with the decode and the id lookup inside the `try` and `message_id = None` bound before it, every delivery is resolved exactly once, whatever its body, and a body that does not decode to a dict gets exactly one nack with multiple=False and requeue=False |
| `Worker.Channel.BasicPublish` | app/main.py:43 | the reply is logged as published iff the broker accepts it |
| `Worker.Channel.BasicAck` | app/main.py:44 | logs one ack of the given tag |
| `Worker.Channel.BasicNack` | app/main.py:47 | logs one nack with the given flags |
| `Worker.Callback` | app/main.py:24-47 | the calls made on the channel are exactly Handle's trace, and the outcome is Handle's |
| `ReplyCollection.ReplyConsumer.constructor` | test_script.py:31 | the dict starts empty |
| `ReplyCollection.ReplyConsumer.ReceiveResponse` | test_script.py:16-23 | stores the reply under its message_id, overwriting any earlier one, leaves every other entry alone, appends a new key to the iteration order, and acks exactly this delivery's tag |
| `ReplyCollection.Receive` | test_script.py:16-23 | the dict after `receive_response` has stored each reply of a stream in turn under its message_id (its properties are the lemmas below) |
| `ReplyCollection.ReceiveKeys` | test_script.py:22 | after a stream of replies, a key is present iff it was present before or some reply carried it |
| `ReplyCollection.ReceiveKeepsLatest` | test_script.py:22 | the stored value for an id is the last reply that carried it |
| `ReplyCollection.ReceiveKeepsOthers` | test_script.py:22 | an entry that no reply names keeps its value |
| `ReplyCollection.ReceiveGrows` | test_script.py:22-23 | storing more replies never removes a key, so the count the wait loop polls never decreases |
| `ReplyCollection.ReceiveSize` | test_script.py:22 | the dict gains at most one entry per reply |
| `ReplyCollection.Drain` | test_script.py:39-45 | the consumer stores the next replies in order and acks their tags in order |
| `ReplyCollection.WaitForResponses` | test_script.py:79-85 | the loop stops at the first check where len(responses) >= expected or the elapsed time has reached the timeout; at every earlier check both were false; the timeout message is reported iff len(responses) < expected afterwards |
| `LatencyMetrics.Qualifies` | test_script.py:91-98 | a stored reply yields a metric iff its id was sent in this run with a truthy send time and both its timestamps are present and truthy |
| `LatencyMetrics.ComputeMetrics` | test_script.py:90-110 | a metric exists for every stored reply whose id was sent and whose three timestamps are truthy, and for no other; each holds the three timestamps and latencies of that reply; ids are distinct; len(metrics) <= len(responses); pick-up plus processing latency is total latency |
| `LatencyMetrics.SumOf` | test_script.py:119-121 | `sum(...)` of one quantity over the metrics (its properties are `SumsOfLatenciesAdd` and `Summarize`) |
| `LatencyMetrics.MaxOf` | test_script.py:113 | the maximum is attained and bounds every element |
| `LatencyMetrics.MinOf` | test_script.py:113 | the minimum is attained and bounds every element |
| `LatencyMetrics.Summarize` | test_script.py:112-130 | the "no data" branch runs iff there is no metric, so nothing is divided by zero; otherwise each average times the count is the sum, and total_duration is the maximum response_time minus the minimum send_time |
| `LatencyMetrics.TotalDurationSpan` | test_script.py:113 | total_duration is the response_time of a metric no other response follows, minus the send_time of a metric no other send precedes |
| `LatencyMetrics.SumsOfLatenciesAdd` | test_script.py:99-101 | summed pick-up and processing latencies add up to summed total latency |
| `LatencyMetrics.AverageLatenciesAdd` | test_script.py:119-121 | average pick-up plus average processing latency is average total latency |
| `LatencyMetrics.DurationCoversEveryRequest` | test_script.py:113 | total_duration is at least every request's total latency |
| `LatencyMetrics.AveragesNonNegative` | test_script.py:119-121 | when send <= pick-up <= response for every metric, no average is negative |
| `LoadHarness.SentMap` | test_script.py:53-57 | `sent_messages` after recording each send time under its id in turn holds exactly the sent ids |
| `LoadHarness.SentMapLatest` | test_script.py:57 | an id's entry holds the send time of its last request |
| `LoadHarness.PublishRequests` | test_script.py:53-68 | request i is published to the work queue, persistent, with its own id as correlation id and the response queue as reply_to; sent_messages is `SentMap` of the ids and send times, so it holds exactly the sent ids, each mapped to its send timestamp (the last one if an id repeats) |
| `LoadHarness.AverageSendTime` | test_script.py:70-72 | the average times the count is the total send time, and it is 0 when num_messages <= 0 |
| `LoadHarness.SendMessages` | test_script.py:25-130 | one run: the publications, the wait's exit condition, timed-out iff fewer than num_messages replies are stored; the metrics record every qualifying reply stored by the end of the wait and nothing else, each with its reply's timestamps and the send time in sent_messages, with distinct ids and at most one per stored reply; the summary is `Summarize` of those metrics, "no data" iff there is none, with averages that add up |
| `LoadHarness.StaleReplySatisfiesWait` | test_script.py:80-92 | a reply whose id was not sent in this run counts toward the wait threshold but no stored reply then qualifies for a metric |
| `EndToEnd.ReplyCarriesRequestIdentity` | app/main.py:28-43 | a reply to a harness request goes to the harness's response queue with the request's id as both correlation id and message_id, and echoes the request's data |
| `EndToEnd.RoundTripQualifies` | test_script.py:91-98 | a stored reply to a request of this run, stamped after a non-zero send time by the same clock, qualifies for a metric |
| `EndToEnd.RoundTripLatencies` | test_script.py:99-101 | the metric of such a reply has non-negative latencies, with the total the largest |

## Left out

- The broker and all pika calls: connections, `queue_declare`, `basic_consume`, `start_consuming`, `basic_qos(prefetch_count=1)` and the admission bound it enforces. They are I/O, and the bound is enforced by the broker rather than by this code.
- The consumer thread is not run as a thread. Its progress is the input `delivered`. Reads of `responses` while the thread is still writing are not modelled: the check at test_script.py:84 re-reads the dict after the loop, and the metrics loop iterates it while replies may still arrive.
- `KeyboardInterrupt` handling, `print` output and its formatting, and `argparse`.
- `time.time()`, `time.sleep`, `uuid.uuid4()` and `random.uniform` are inputs. The wait loop's clock readings are assumed to reach the timeout.
- JSON encoding and decoding are not modelled. The worker's decode is the parameter `parse`. The harness's replies arrive already decoded: a reply body that fails to decode in `receive_response` is not modelled.
- `message_id` is modelled as a string or missing. JSON ids of other types are not modelled: a number would be stored under that number, and a list or object would make `responses[msg_id] = response` at test_script.py:22 raise `TypeError` in the consumer thread.
- JSON values other than lists of numbers in `data` are not modelled. Timestamps are exact reals, not floats.
- `preprocessing_operations` and `ONNXModelWrapper.predict` are opaque functions. Their sources are not part of this model.
- The onnx calls `make_tensor_value_info`, `make_graph`, `make_model` and `onnx.save` are foreign library calls and file output.
- Worker.Callback: `basic_ack` is assumed not to raise. If it raised, the source would nack after the publish.
- Worker.Channel.BasicPublish: a failing publish is logged as no publication. Whether a partly sent reply reached the queue is not modelled.

## Findings

| source | as written | input that shows it | evidently intended | confidence | as-written member | corrected member |
|---|---|---|---|---|---|---|
| app/main.py:30-31 | `json.loads(body.decode())` and `.get('message_id')` run before the `try`, so a body that is not JSON, or is JSON but not an object, raises out of `callback` and the delivery is neither acked nor nacked | a delivery whose body is the single byte 0xff | the decode and the id lookup sit inside the `try`, with `message_id = None` bound before it so the `except` branch's log line cannot raise, and the delivery is nacked with requeue=False like every other per-message failure | not executed | `Worker.UndecodableDeliveryWitness` | `Worker.HandleCorrectedResolvesOnce` |

`Worker.Callback` models the code as written, so it follows `Handle`.
`HandleCorrected` keeps `Handle`'s behaviour for every body that decodes to
a dict, and it nacks every other body. Moving the two lines into the `try`
is not enough on its own: the `except` branch at app/main.py:45-46 logs
`message_id`, which would then be unbound when the decode fails.
