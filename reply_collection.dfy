/** The harness's `responses` dict (test_script.py): the reply consumer stores
    each reply under its `message_id` and acks it, and `send_messages` polls the
    dict's size until enough replies are in or the timeout has elapsed.

    The consumer thread is not modelled as a thread: the replies it receives are
    the sequence `arrivals`, and `delivered[k]` says how many of them it has
    stored when the wait loop evaluates its condition for the k-th time. */
module ReplyCollection {
  import opened Wrappers

  /** A reply as the harness reads it: `.get` of the three keys it uses, each
      None when the key is absent. */
  datatype Reply = Reply(messageId: Option<string>, pickUpTimestamp: Option<real>, responseTimestamp: Option<real>)

  /** One delivery on the reply queue. */
  datatype ReplyDelivery = ReplyDelivery(deliveryTag: nat, reply: Reply)

  type Responses = map<Option<string>, Reply>

  predicate Distinct<T(==)>(s: seq<T>)
  {
    forall i, j :: 0 <= i < j < |s| ==> s[i] != s[j]
  }

  /** The dict `table` after the replies of `arrivals` have been stored in turn,
      each under its own message_id. */
  function Receive(table: Responses, arrivals: seq<ReplyDelivery>): Responses
  {
    if arrivals == [] then table
    else
      var last := arrivals[|arrivals| - 1].reply;
      Receive(table, arrivals[..|arrivals| - 1])[last.messageId := last]
  }

  /** The delivery tags of `arrivals`, in order. */
  function Tags(arrivals: seq<ReplyDelivery>): seq<nat>
  {
    if arrivals == [] then [] else Tags(arrivals[..|arrivals| - 1]) + [arrivals[|arrivals| - 1].deliveryTag]
  }

  lemma {:induction false} TagsSplit(arrivals: seq<ReplyDelivery>, i: nat, j: nat, k: nat)
    requires i <= j <= k <= |arrivals|
    ensures Tags(arrivals[i..k]) == Tags(arrivals[i..j]) + Tags(arrivals[j..k])
    decreases k - j
  {
    if j < k {
      TagsSplit(arrivals, i, j, k - 1);
      assert arrivals[i..k][..k - i - 1] == arrivals[i..k - 1];
      assert arrivals[j..k][..k - j - 1] == arrivals[j..k - 1];
    }
  }

  /** A key is present afterwards iff it was present before or some reply
      carried it. */
  lemma {:induction false} ReceiveKeys(table: Responses, arrivals: seq<ReplyDelivery>, key: Option<string>)
    ensures key in Receive(table, arrivals) <==>
      key in table || exists i :: 0 <= i < |arrivals| && arrivals[i].reply.messageId == key
  {
    if arrivals != [] {
      var prefix := arrivals[..|arrivals| - 1];
      ReceiveKeys(table, prefix, key);
      if exists i :: 0 <= i < |arrivals| && arrivals[i].reply.messageId == key {
        var i :| 0 <= i < |arrivals| && arrivals[i].reply.messageId == key;
        if i < |arrivals| - 1 {
          assert prefix[i] == arrivals[i];
        }
      }
      if exists i :: 0 <= i < |prefix| && prefix[i].reply.messageId == key {
        var i :| 0 <= i < |prefix| && prefix[i].reply.messageId == key;
        assert arrivals[i] == prefix[i];
      }
    }
  }

  /** A later reply with the same message_id overwrites an earlier one: the
      stored value is the last reply that carried the key. */
  lemma {:induction false} ReceiveKeepsLatest(table: Responses, arrivals: seq<ReplyDelivery>, i: nat)
    requires i < |arrivals|
    requires forall j :: i < j < |arrivals| ==> arrivals[j].reply.messageId != arrivals[i].reply.messageId
    ensures arrivals[i].reply.messageId in Receive(table, arrivals)
    ensures Receive(table, arrivals)[arrivals[i].reply.messageId] == arrivals[i].reply
  {
    if i < |arrivals| - 1 {
      var prefix := arrivals[..|arrivals| - 1];
      assert prefix[i] == arrivals[i];
      ReceiveKeepsLatest(table, prefix, i);
    }
  }

  /** No other entry changes: a key that no reply carried keeps its old value. */
  lemma {:induction false} ReceiveKeepsOthers(table: Responses, arrivals: seq<ReplyDelivery>, key: Option<string>)
    requires key in table
    requires forall i :: 0 <= i < |arrivals| ==> arrivals[i].reply.messageId != key
    ensures key in Receive(table, arrivals) && Receive(table, arrivals)[key] == table[key]
  {
    if arrivals != [] {
      var prefix := arrivals[..|arrivals| - 1];
      assert forall i :: 0 <= i < |prefix| ==> prefix[i] == arrivals[i];
      ReceiveKeepsOthers(table, prefix, key);
    }
  }

  /** Storing more replies never shrinks the dict, so once the wait loop's
      threshold is reached it stays reached. */
  lemma {:induction false} ReceiveGrows(table: Responses, arrivals: seq<ReplyDelivery>, i: nat, j: nat)
    requires i <= j <= |arrivals|
    ensures Receive(table, arrivals[..i]).Keys <= Receive(table, arrivals[..j]).Keys
    ensures |Receive(table, arrivals[..i])| <= |Receive(table, arrivals[..j])|
    decreases j - i
  {
    if i < j {
      ReceiveGrows(table, arrivals, i, j - 1);
      assert arrivals[..j][..j - 1] == arrivals[..j - 1];
    }
    assert Receive(table, arrivals[..i]).Keys <= Receive(table, arrivals[..j]).Keys;
  }

  /** The dict holds at most one entry per stored reply (fewer when ids repeat). */
  lemma {:induction false} ReceiveSize(table: Responses, arrivals: seq<ReplyDelivery>)
    ensures |Receive(table, arrivals)| <= |table| + |arrivals|
  {
    if arrivals != [] {
      ReceiveSize(table, arrivals[..|arrivals| - 1]);
    }
  }

  /** A distinct key sequence has as many elements as the set of its keys. */
  lemma {:induction false} DistinctKeysCount(order: seq<Option<string>>, responses: Responses)
    requires Distinct(order)
    requires forall k :: k in responses <==> k in order
    ensures |order| == |responses|
  {
    if order == [] {
      assert responses.Keys == {};
    } else {
      var last := order[|order| - 1];
      var prefix := order[..|order| - 1];
      var rest := map k | k in responses && k != last :: responses[k];
      forall k ensures k in rest <==> k in prefix {
        if k in prefix {
          var i :| 0 <= i < |prefix| && prefix[i] == k;
          assert order[i] == k;
        }
        if k in order && k != last {
          var i :| 0 <= i < |order| && order[i] == k;
          assert prefix[i] == k;
        }
      }
      DistinctKeysCount(prefix, rest);
      assert responses.Keys == rest.Keys + {last};
    }
  }

  /** The reply consumer and the dict it shares with `send_messages`. */
  class ReplyConsumer {
    /** The `responses` dict. */
    var responses: Responses
    /** The dict's keys in insertion order, the order in which it is iterated. */
    var order: seq<Option<string>>
    /** The delivery tags acked on the reply channel, in order. */
    var acked: seq<nat>

    ghost predicate Valid()
      reads this
    {
      Distinct(order) && forall k :: k in responses <==> k in order
    }

    constructor ()
      ensures Valid()
      ensures responses == map[] && order == [] && acked == []
    {
      responses, order, acked := map[], [], [];
    }

    /** `receive_response`: store the reply under its message_id, overwriting
        an earlier reply with the same id, then ack this delivery. */
    method ReceiveResponse(d: ReplyDelivery)
      requires Valid()
      modifies this
      ensures Valid()
      ensures responses == old(responses)[d.reply.messageId := d.reply]
      ensures order == if d.reply.messageId in old(responses) then old(order) else old(order) + [d.reply.messageId]
      ensures acked == old(acked) + [d.deliveryTag]
    {
      var messageId := d.reply.messageId;
      if messageId !in responses {
        order := order + [messageId];
      }
      responses := responses[messageId := d.reply];
      acked := acked + [d.deliveryTag];
    }
  }

  /** Storing arrivals[i] extends the fold and the acked tags by one step. */
  lemma StoreNext(base: Responses, arrivals: seq<ReplyDelivery>, from: nat, i: nat)
    requires from <= i < |arrivals|
    ensures Receive(base, arrivals[..i + 1]) ==
      Receive(base, arrivals[..i])[arrivals[i].reply.messageId := arrivals[i].reply]
    ensures Tags(arrivals[from..i + 1]) == Tags(arrivals[from..i]) + [arrivals[i].deliveryTag]
  {
    assert arrivals[..i + 1][..i] == arrivals[..i];
    assert arrivals[from..i + 1][..i - from] == arrivals[from..i];
  }

  /** The consumer thread stores arrivals[from..to] while the harness sleeps. */
  method Drain(consumer: ReplyConsumer, arrivals: seq<ReplyDelivery>, from: nat, to: nat, ghost base: Responses)
    requires consumer.Valid()
    requires from <= to <= |arrivals|
    requires consumer.responses == Receive(base, arrivals[..from])
    modifies consumer
    ensures consumer.Valid()
    ensures consumer.responses == Receive(base, arrivals[..to])
    ensures consumer.acked == old(consumer.acked) + Tags(arrivals[from..to])
  {
    var i := from;
    while i < to
      invariant from <= i <= to
      invariant consumer.Valid()
      invariant consumer.responses == Receive(base, arrivals[..i])
      invariant consumer.acked == old(consumer.acked) + Tags(arrivals[from..i])
    {
      StoreNext(base, arrivals, from, i);
      consumer.ReceiveResponse(arrivals[i]);
      i := i + 1;
    }
  }

  /** The wait loop of `send_messages` (with the check after it): poll until the
      dict holds `expected` replies or `timeout` seconds have elapsed.
      `elapsed[k]` is `time.time() - start_wait` at the k-th evaluation of the
      loop condition; the readings are assumed to reach the timeout. */
  method WaitForResponses(
    consumer: ReplyConsumer, arrivals: seq<ReplyDelivery>, delivered: seq<nat>, elapsed: seq<real>,
    expected: int, timeout: int, ghost base: Responses, handled: nat)
    returns (polls: nat, timedOut: bool)
    requires consumer.Valid()
    requires 0 < |delivered| == |elapsed|
    requires handled <= delivered[0]
    requires forall k :: 0 <= k < |delivered| ==> delivered[k] <= |arrivals|
    requires forall j, k :: 0 <= j <= k < |delivered| ==> delivered[j] <= delivered[k]
    requires elapsed[|elapsed| - 1] >= timeout as real
    requires consumer.responses == Receive(base, arrivals[..handled])
    modifies consumer
    ensures polls < |delivered|
    ensures consumer.Valid()
    ensures consumer.responses == Receive(base, arrivals[..delivered[polls]])
    ensures consumer.acked == old(consumer.acked) + Tags(arrivals[handled..delivered[polls]])
    ensures |consumer.responses| >= expected || elapsed[polls] >= timeout as real
    ensures forall j :: 0 <= j < polls ==>
      |Receive(base, arrivals[..delivered[j]])| < expected && elapsed[j] < timeout as real
    ensures timedOut <==> |consumer.responses| < expected
  {
    Drain(consumer, arrivals, handled, delivered[0], base);
    polls := 0;
    assert delivered[0] <= |arrivals|;
    while |consumer.responses| < expected && elapsed[polls] < timeout as real
      invariant polls < |delivered|
      invariant consumer.Valid()
      invariant consumer.responses == Receive(base, arrivals[..delivered[polls]])
      invariant consumer.acked == old(consumer.acked) + Tags(arrivals[handled..delivered[polls]])
      invariant forall j :: 0 <= j < polls ==>
        |Receive(base, arrivals[..delivered[j]])| < expected && elapsed[j] < timeout as real
      decreases |delivered| - polls
    {
      // time.sleep(0.1): meanwhile the consumer thread stores the next replies
      Drain(consumer, arrivals, delivered[polls], delivered[polls + 1], base);
      TagsSplit(arrivals, handled, delivered[polls], delivered[polls + 1]);
      polls := polls + 1;
    }
    timedOut := |consumer.responses| < expected;
  }
}
