/** The message handler of the email consumer: decode, deduplicate, send,
    and on failure dead-letter or republish with backoff. The broker channel
    is a log of the actions issued on it; decoding and encoding are given
    functions; the retry delay is a computed number, not a timer. */
module Consumer {
  import opened Envelope
  import opened Circuit
  import opened Dedup
  import opened Sender

  const Exchange: string := "notifications.direct"
  const LiveQueue: string := "email.queue"
  const DeadLetterQueue: string := "failed.queue"
  const DefaultMaxRetries: nat := 4
  const DefaultBaseDelay: nat := 2000

  /** An action issued on the channel for the message being handled. */
  datatype Action =
    | Ack
    | Nack(allUpTo: bool, requeue: bool)
    | Publish(exchange: string, routingKey: string, content: Bytes, persistent: bool)

  predicate Settles(a: Action)
  {
    a.Ack? || a.Nack?
  }

  /** The broker channel, as the log of what was issued on it. */
  class Channel {
    var log: seq<Action>

    constructor ()
      ensures log == []
    {
      log := [];
    }

    method Ack()
      modifies this
      ensures log == old(log) + [Action.Ack]
    {
      log := log + [Action.Ack];
    }

    method Nack(allUpTo: bool, requeue: bool)
      modifies this
      ensures log == old(log) + [Action.Nack(allUpTo, requeue)]
    {
      log := log + [Action.Nack(allUpTo, requeue)];
    }

    method Publish(exchange: string, routingKey: string, content: Bytes, persistent: bool)
      modifies this
      ensures log == old(log) + [Action.Publish(exchange, routingKey, content, persistent)]
    {
      log := log + [Action.Publish(exchange, routingKey, content, persistent)];
    }
  }

  /** JSON.parse of the content, as a partial function (`None` where it
      throws), and JSON.stringify into bytes. */
  datatype Codec = Codec(parse: Bytes -> Option<Parsed>, encode: Payload -> Bytes)

  /** The bytes of the text `null`. */
  const NullText: Bytes := [110, 117, 108, 108]

  /** A codec that parses the text `null` as JSON does. */
  predicate ParsesNull(codec: Codec)
  {
    codec.parse(NullText) == Some(NullDocument)
  }

  /** The request payload of the content, when there is one. */
  function Decode(codec: Codec, content: Bytes): Option<Payload>
  {
    match codec.parse(content)
    case Some(Document(p)) => Some(p)
    case _ => None
  }

  datatype Settings = Settings(codec: Codec, maxRetries: nat, baseDelay: nat)

  /** How the handler disposed of a message. */
  datatype Disposition =
    | Malformed
    | Duplicate
    | Delivered(provider: Provider)
    | DeadLettered
    | Retried(delay: nat, republished: Payload)
    | Abandoned

  function Pow2(n: nat): (r: nat)
    ensures r >= 1
  {
    if n == 0 then 1 else 2 * Pow2(n - 1)
  }

  /** `baseDelay * 2 ** retryCount`. */
  function RetryDelay(baseDelay: nat, retryCount: nat): (r: nat)
    ensures r >= baseDelay
    ensures r == 0 <==> baseDelay == 0
  {
    baseDelay * Pow2(retryCount)
  }

  /** The decision after every provider failed. */
  function AfterFailure(s: Settings, p: Payload): (d: Disposition)
    ensures d.DeadLettered? <==> RetryCount(p) + 1 >= s.maxRetries
    ensures d.DeadLettered? || d.Retried?
    ensures d.Retried? ==>
      && d.delay == RetryDelay(s.baseDelay, RetryCount(p))
      && d.republished.requestId == p.requestId && d.republished.fields == p.fields
      && RetryCount(d.republished) == RetryCount(p) + 1 < s.maxRetries
  {
    var nextRetry := RetryCount(p) + 1;
    if nextRetry >= s.maxRetries then DeadLettered
    else Retried(RetryDelay(s.baseDelay, RetryCount(p)), WithRetryCount(p, nextRetry))
  }

  /** The channel actions for a disposition of a message with this content. */
  function ActionsFor(content: Bytes, d: Disposition, encode: Payload -> Bytes): seq<Action>
  {
    match d
    case Malformed => [Nack(false, false)]
    case Duplicate => [Ack]
    case Delivered(_) => [Ack]
    case DeadLettered => [Publish(Exchange, DeadLetterQueue, content, true), Ack]
    case Retried(_, p) => [Publish(Exchange, LiveQueue, encode(p), true), Ack]
    case Abandoned => []
  }

  /** The state the handler touches: the dedup store and both breakers. */
  datatype World = World(store: Entries, sg: Breaker, smtp: Breaker)

  /** The effect of handling one message: its disposition, the record handed
      to `sendEmail` (if it was called), the transport invocations, the
      channel actions in order, and the state afterwards. */
  datatype Handled = Handled(
    disposition: Disposition,
    request: Option<Message>,
    calls: seq<TransportCall>,
    actions: seq<Action>,
    world: World)

  /** The handler on values, for a message with this content, the store
      clock `dedupNow` (seconds) and the transports' answers. Content that
      parses to JSON `null` is rejected like content that does not parse. */
  function Handle(w: World, content: Bytes, s: Settings, from: string, dedupNow: int, t: Transports): (h: Handled)
    ensures h.disposition != Abandoned
    ensures 1 <= |h.actions| <= 2 && Settles(h.actions[|h.actions| - 1])
    ensures forall i :: 0 <= i < |h.actions| - 1 ==> h.actions[i].Publish?
    ensures Decode(s.codec, content).None? ==> h.actions == [Nack(false, false)] && h.world == w
    ensures h.request.Some? ==>
      Decode(s.codec, content).Some? && h.request.value == ForSending(Decode(s.codec, content).value)
    ensures h.calls != [] ==> h.request.Some?
    ensures Consistent(w.sg) && Consistent(w.smtp) ==> Consistent(h.world.sg) && Consistent(h.world.smtp)
  {
    match Decode(s.codec, content)
    case None =>
      Handled(Malformed, None, [], ActionsFor(content, Malformed, s.codec.encode), w)
    case Some(p) =>
      var c := CheckAndMark(w.store, p.requestId, dedupNow);
      if c.duplicate then
        Handled(Duplicate, None, [], ActionsFor(content, Duplicate, s.codec.encode), w.(store := c.entries))
      else
        var msg := ForSending(p);
        var step := Chain(w.sg, w.smtp, msg, from, t);
        var d := if step.result.Ok? then Delivered(step.result.value.provider) else AfterFailure(s, p);
        Handled(d, Some(msg), step.calls, ActionsFor(content, d, s.codec.encode),
                World(c.entries, step.sg, step.smtp))
  }

  /** The handler as written: content that parses to JSON `null` gets past
      the parse, and the destructuring of the payload then throws, so the
      callback ends with no ack and no nack. */
  function HandleAsWritten(w: World, content: Bytes, s: Settings, from: string, dedupNow: int, t: Transports): (h: Handled)
    ensures h.actions == [] <==> s.codec.parse(content) == Some(NullDocument)
    ensures h.actions != [] ==> Settles(h.actions[|h.actions| - 1])
  {
    if s.codec.parse(content) == Some(NullDocument) then Handled(Abandoned, None, [], [], w)
    else Handle(w, content, s, from, dedupNow, t)
  }

  /** The consumer callback for one delivery (`None` when the consumer was
      cancelled). Returns the disposition and the transport invocations. */
  method HandleMessage(
    ch: Channel, store: KeyValueStore, chain: ProviderChain,
    delivery: Option<Bytes>, s: Settings, dedupNow: int, t: Transports)
    returns (d: Option<Disposition>, calls: seq<TransportCall>)
    requires chain.Valid()
    modifies ch, store, chain.sgCircuit, chain.smtpCircuit
    ensures chain.Valid()
    ensures delivery.None? ==>
      && d.None? && calls == [] && ch.log == old(ch.log) && store.entries == old(store.entries)
      && chain.sgCircuit.Snapshot() == old(chain.sgCircuit.Snapshot())
      && chain.smtpCircuit.Snapshot() == old(chain.smtpCircuit.Snapshot())
    ensures delivery.Some? ==>
      var h := Handle(World(old(store.entries), old(chain.sgCircuit.Snapshot()), old(chain.smtpCircuit.Snapshot())),
                      delivery.value, s, chain.fromEmail, dedupNow, t);
      && d == Some(h.disposition) && calls == h.calls && ch.log == old(ch.log) + h.actions
      && store.entries == h.world.store
      && chain.sgCircuit.Snapshot() == h.world.sg && chain.smtpCircuit.Snapshot() == h.world.smtp
  {
    calls := [];
    if delivery.None? {
      return None, [];
    }
    var content := delivery.value;
    var decoded := Decode(s.codec, content);
    if decoded.None? {
      ch.Nack(false, false);
      return Some(Malformed), [];
    }
    var payload := decoded.value;

    var duplicate := IsDuplicate(store, payload.requestId, dedupNow);
    if duplicate {
      ch.Ack();
      return Some(Duplicate), [];
    }

    var result;
    result, calls := chain.SendEmail(ForSending(payload), t);
    if result.Ok? {
      ch.Ack();
      return Some(Delivered(result.value.provider)), calls;
    }

    var retryCount := RetryCount(payload);
    var nextRetry := retryCount + 1;
    if nextRetry >= s.maxRetries {
      ch.Publish(Exchange, DeadLetterQueue, content, true);
      ch.Ack();
      d := Some(DeadLettered);
    } else {
      var delay := RetryDelay(s.baseDelay, retryCount);
      var newPayload := WithRetryCount(payload, nextRetry);
      ch.Publish(Exchange, LiveQueue, s.codec.encode(newPayload), true);
      ch.Ack();
      d := Some(Retried(delay, newPayload));
    }
  }

  // ----- properties -----

  /** Content that does not decode is nacked without requeue; nothing is
      sent, published or changed. */
  lemma MalformedIsRejected(w: World, content: Bytes, s: Settings, from: string, dedupNow: int, t: Transports)
    requires Decode(s.codec, content).None?
    ensures var h := Handle(w, content, s, from, dedupNow, t);
      && h.disposition == Malformed && h.actions == [Nack(false, false)]
      && h.request.None? && h.calls == [] && h.world == w
  {
  }

  /** A duplicate is acked; `sendEmail` is not called, nothing is published
      and nothing changes. */
  lemma DuplicateIsSkipped(w: World, content: Bytes, s: Settings, from: string, dedupNow: int, t: Transports)
    requires Decode(s.codec, content).Some?
    requires Seen(w.store, Decode(s.codec, content).value.requestId, dedupNow)
    ensures var h := Handle(w, content, s, from, dedupNow, t);
      && h.disposition == Duplicate && h.actions == [Ack]
      && h.request.None? && h.calls == [] && h.world == w
  {
  }

  /** A fresh request is marked in the store and handed to the sender as the
      payload without `retry_count`, with its `request_id` kept. */
  lemma FreshRequestIsSent(w: World, content: Bytes, s: Settings, from: string, dedupNow: int, t: Transports)
    requires Decode(s.codec, content).Some?
    requires !Seen(w.store, Decode(s.codec, content).value.requestId, dedupNow)
    ensures var p := Decode(s.codec, content).value;
      var h := Handle(w, content, s, from, dedupNow, t);
      && h.request == Some(Message(p.requestId, p.fields))
      && (WellFormed(p) ==> "retry_count" !in h.request.value.fields && "request_id" !in h.request.value.fields)
      && h.world.store == w.store[Key(p.requestId) := Entry(Marker, dedupNow + TtlSeconds)]
      && h.disposition != Malformed && h.disposition != Duplicate
  {
  }

  /** A delivered message is acked exactly once, with no publish. */
  lemma DeliveredIsAcked(w: World, content: Bytes, s: Settings, from: string, dedupNow: int, t: Transports)
    requires Handle(w, content, s, from, dedupNow, t).disposition.Delivered?
    ensures Handle(w, content, s, from, dedupNow, t).actions == [Ack]
  {
  }

  /** When the next retry would reach `maxRetries`, the original bytes are
      published unchanged to the dead-letter queue, then the message is acked. */
  lemma ExhaustedIsDeadLettered(w: World, content: Bytes, s: Settings, from: string, dedupNow: int, t: Transports)
    requires Decode(s.codec, content).Some?
    requires !Seen(w.store, Decode(s.codec, content).value.requestId, dedupNow)
    requires Chain(w.sg, w.smtp, ForSending(Decode(s.codec, content).value), from, t).result.Err?
    requires RetryCount(Decode(s.codec, content).value) + 1 >= s.maxRetries
    ensures var h := Handle(w, content, s, from, dedupNow, t);
      && h.disposition == DeadLettered
      && h.actions == [Publish("notifications.direct", "failed.queue", content, true), Ack]
  {
  }

  /** Otherwise the payload is republished to the live queue after
      `baseDelay * 2^retry_count`, equal to the original except that
      `retry_count` is one more, and the ack comes after the publish. */
  lemma FailureIsRetried(w: World, content: Bytes, s: Settings, from: string, dedupNow: int, t: Transports)
    requires Decode(s.codec, content).Some?
    requires !Seen(w.store, Decode(s.codec, content).value.requestId, dedupNow)
    requires Chain(w.sg, w.smtp, ForSending(Decode(s.codec, content).value), from, t).result.Err?
    requires RetryCount(Decode(s.codec, content).value) + 1 < s.maxRetries
    ensures var p := Decode(s.codec, content).value;
      var h := Handle(w, content, s, from, dedupNow, t);
      && h.disposition.Retried?
      && h.disposition.delay == s.baseDelay * Pow2(RetryCount(p))
      && h.disposition.republished == Payload(p.requestId, Some(RetryCount(p) + 1), p.fields)
      && h.actions == [Publish("notifications.direct", "email.queue", s.codec.encode(h.disposition.republished), true), Ack]
  {
  }

  /** Every handled message ends in exactly one ack or nack, issued last,
      after at most one publish. */
  lemma SettledExactlyOnce(w: World, content: Bytes, s: Settings, from: string, dedupNow: int, t: Transports)
    ensures var a := Handle(w, content, s, from, dedupNow, t).actions;
      && 1 <= |a| <= 2
      && Settles(a[|a| - 1])
      && forall i :: 0 <= i < |a| - 1 ==> a[i].Publish?
  {
  }

  /** As written, the content `null` is never settled: the callback issues
      no action at all for it. */
  lemma NullIsAbandonedAsWritten(w: World, s: Settings, from: string, dedupNow: int, t: Transports)
    requires ParsesNull(s.codec)
    ensures var h := HandleAsWritten(w, NullText, s, from, dedupNow, t);
      h.actions == [] && h.calls == [] && h.world == w
  {
  }

  /** Corrected, the content `null` is nacked without requeue, like any
      content that is not a request. */
  lemma NullIsRejected(w: World, s: Settings, from: string, dedupNow: int, t: Transports)
    requires ParsesNull(s.codec)
    ensures var h := Handle(w, NullText, s, from, dedupNow, t);
      h.disposition == Malformed && h.actions == [Nack(false, false)] && h.calls == [] && h.world == w
  {
  }

  /** On every other content the handler as written and the corrected one agree. */
  lemma AsWrittenAgreesElsewhere(w: World, content: Bytes, s: Settings, from: string, dedupNow: int, t: Transports)
    requires s.codec.parse(content) != Some(NullDocument)
    ensures HandleAsWritten(w, content, s, from, dedupNow, t) == Handle(w, content, s, from, dedupNow, t)
  {
  }

  /** Each retry waits twice as long as the one before. */
  lemma RetryDelayDoubles(baseDelay: nat, n: nat)
    ensures RetryDelay(baseDelay, n + 1) == 2 * RetryDelay(baseDelay, n)
  {
  }

  /** Retry delays never decrease with the retry count. */
  lemma {:induction false} RetryDelayMonotone(baseDelay: nat, m: nat, n: nat)
    requires m <= n
    ensures RetryDelay(baseDelay, m) <= RetryDelay(baseDelay, n)
    decreases n - m
  {
    if m < n {
      RetryDelayMonotone(baseDelay, m, n - 1);
      RetryDelayDoubles(baseDelay, n - 1);
    }
  }

  /** With the default settings, a request whose every attempt fails is
      retried after 2000, 4000 and 8000, and dead-lettered when its
      `retry_count` is 3. */
  lemma DefaultSchedule(codec: Codec, p: Payload)
    ensures var s := Settings(codec, DefaultMaxRetries, DefaultBaseDelay);
      && AfterFailure(s, WithRetryCount(p, 0)) == Retried(2000, WithRetryCount(p, 1))
      && AfterFailure(s, WithRetryCount(p, 1)) == Retried(4000, WithRetryCount(p, 2))
      && AfterFailure(s, WithRetryCount(p, 2)) == Retried(8000, WithRetryCount(p, 3))
      && AfterFailure(s, WithRetryCount(p, 3)) == DeadLettered
  {
  }

  /** A request with no `retry_count` is handled as if it were 0. */
  lemma MissingRetryCountIsZero(s: Settings, p: Payload)
    requires p.retryCount.None?
    ensures AfterFailure(s, p)
         == if 1 >= s.maxRetries then DeadLettered else Retried(s.baseDelay, WithRetryCount(p, 1))
  {
  }

  /** A republished retry keeps its `request_id`; decoded again within the
      time to live, it is a duplicate: acked, with no transport invoked. */
  lemma RetryIsDuplicateWithinTtl(
    w: World, content: Bytes, s: Settings, from: string, dedupNow: int, t: Transports,
    laterNow: int, laterT: Transports)
    requires Handle(w, content, s, from, dedupNow, t).disposition.Retried?
    requires var q := Handle(w, content, s, from, dedupNow, t).disposition.republished;
      Decode(s.codec, s.codec.encode(q)) == Some(q)
    requires laterNow < dedupNow + TtlSeconds
    ensures var h := Handle(w, content, s, from, dedupNow, t);
      var q := h.disposition.republished;
      && q.requestId == Decode(s.codec, content).value.requestId
      && var again := Handle(h.world, s.codec.encode(q), s, from, laterNow, laterT);
      again.disposition == Duplicate && again.calls == [] && again.actions == [Ack]
  {
    var h := Handle(w, content, s, from, dedupNow, t);
    var p := Decode(s.codec, content).value;
    assert !Seen(w.store, p.requestId, dedupNow);
    assert h.world.store == CheckAndMark(w.store, p.requestId, dedupNow).entries;
    SecondCheckIsDuplicate(w.store, p.requestId, dedupNow, laterNow);
  }
}
