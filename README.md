# Email worker delivery pipeline, in Dafny

This project models the delivery pipeline of a queue-driven email worker.
The worker consumes JSON delivery requests from a RabbitMQ queue. It drops
requests whose `request_id` was already seen, using a Redis key with a
24-hour expiry. It then tries SendGrid and, failing that, SMTP, each
through its own circuit breaker. When both fail, it either republishes the
request with an incremented `retry_count` after an exponential delay, or
dead-letters the original bytes.

The model has five modules, one file each:

- `Envelope` (envelope.dfy): message bytes, JSON values with JavaScript
  truthiness, the decoded request payload (`request_id`, optional
  `retry_count`, all other fields) and the record handed to the sender.
- `Circuit` (circuit.dfy): the breaker. The transition of one `call` is a
  function on breaker values (`CallStep`), and a run of calls is another
  (`Run`). The class `CircuitBreaker` keeps the same fields, and its
  methods are proved to follow those functions. The invariant "OPEN or
  HALF_OPEN implies `failureCount >= failureThreshold`" is proved over
  single calls and whole runs.
- `Dedup` (dedup.dfy): `isDuplicate` as a check-and-mark on a map from key
  to (value, expiry). `CheckAndMark` is the value-level behaviour.
  `KeyValueStore` is the store updated in place, and the method
  `IsDuplicate` follows the source's get-then-set against it.
- `Sender` (sender.dfy): the mail record, the SendGrid-then-SMTP chain on
  breaker values (`Chain`), and the class `ProviderChain`. That class holds
  two distinct `CircuitBreaker` objects, and its `SendEmail` method is
  proved to follow `Chain`.
- `Consumer` (consumer.dfy): the consumer callback. `Handle` gives the
  whole effect of one message on values: its disposition, the record sent,
  the transport invocations, the channel actions and the new store and
  breakers. `HandleMessage` does the same in place, issuing ack / nack /
  publish on a `Channel` that keeps a log of actions.

Calls to code outside the core are inputs:

- Clock readings are parameters: milliseconds for the breakers, seconds
  for the store.
- What a transport does when it is invoked is an `Attempt`: its outcome
  and the clock reading when it settled. That reading is the `Date.now()`
  used by `onFailure`.
- `JSON.parse` is a given partial function from bytes to `Parsed`.
  `JSON.stringify` into bytes is a given function.
- The sender address (`FROM_EMAIL`), `maxRetries` and `baseDelay` are
  parameters.

In three places the code is simpler than a reader might expect; the model
follows the code:

- When both providers fail, `sendEmail` rethrows the SMTP call's own
  error. That error is the transport's, or the SMTP breaker's fast-fail.
  It is not wrapped in a separate "all providers failed" error.
- The duplicate check is a GET followed by a SET, not one atomic
  operation. The model makes the two calls in sequence.
- A failed store call is not caught anywhere, so there is no fail-open
  path to model.

Dedup marks a request id on first sight, before any delivery outcome is
known. A retry republishes the same `request_id`. So, while the mark lives
(86400 s, far longer than the default delays of 2 to 8 s), the retry's next
dequeue is classed as a duplicate and acked without sending
(`RetryIsDuplicateWithinTtl`).
The retry schedule (`DefaultSchedule`) is therefore only reached once that
mark has expired or been removed.

## Model

| member | source | states |
|---|---|---|
| `Circuit.CircuitBreaker.constructor` | src/circuit.js:2-8 | a new breaker is CLOSED with `failureCount = 0`, `nextAttempt = now`; threshold and recovery time default to 5 and 10000 |
| `Circuit.InitialIsClosed` | src/circuit.js:2-8 | the initial breaker is closed, has counted nothing, keeps the given limits and satisfies the invariant |
| `Circuit.Succeeded` | src/circuit.js:29-32 | after a success the breaker is CLOSED, the count is 0 and the invariant holds, whatever the state before; the limits are kept |
| `Circuit.Failed` | src/circuit.js:34-40 | a failure adds exactly one to the count, either opens the breaker or keeps its state, keeps the limits and preserves the invariant |
| `Circuit.Admit` | src/circuit.js:11-17 | the call is refused iff the breaker is OPEN before its deadline; a due OPEN breaker is admitted as HALF_OPEN, any other is admitted unchanged |
| `Circuit.CallStep` | src/circuit.js:10-27 | `fn` runs iff the call is admitted; a refused call throws the breaker's error and changes nothing; an admitted call returns `fn`'s value or rethrows its error; the invariant and the limits are kept |
| `Circuit.CircuitBreaker.Call` | src/circuit.js:10-27 | the new fields, the returned or thrown value and whether `fn` ran are exactly those of `CallStep` on the old fields; the invariant is kept |
| `Circuit.CircuitBreaker.OnSuccess` | src/circuit.js:29-32 | count becomes 0, state CLOSED, deadline unchanged |
| `Circuit.CircuitBreaker.OnFailure` | src/circuit.js:34-40 | count rises by one; reaching the threshold opens the breaker until `now + recoveryTime`, otherwise state and deadline are unchanged |
| `Circuit.OpenFastFails` | src/circuit.js:11-14 | OPEN and `now < nextAttempt`: the call throws the breaker's own error, `fn` is not invoked, no field changes |
| `Circuit.DueBreakerRunsTrial` | src/circuit.js:11-17 | OPEN and due: admission turns the breaker HALF_OPEN, and `fn` is invoked as that trial; success closes with count 0, failure (given the invariant) reopens at once with a fresh deadline settle time + recovery |
| `Circuit.SuccessCloses` | src/circuit.js:19-22 | a successful `fn`: its value is returned, count 0, state CLOSED, limits and deadline kept |
| `Circuit.FailureCounts` | src/circuit.js:23-26 | a failing `fn`: the same error is rethrown, count rises by exactly 1, OPEN with the new deadline iff the threshold is reached, else state and deadline unchanged |
| `Circuit.CallKeepsConsistent` | src/circuit.js:10-40 | every call keeps "OPEN or HALF_OPEN implies count >= threshold" and never changes the limits |
| `Circuit.RunKeepsConsistent` | src/circuit.js:10-40 | the invariant holds after any sequence of calls |
| `Circuit.OpenStaysOpenOnFailures` | src/circuit.js:11-17 | an open breaker whose calls all fail stays OPEN whatever the clock readings |
| `Circuit.OpenRejectsUntilDeadline` | src/circuit.js:11-14 | any number of calls before the deadline leave an open breaker exactly as it was |
| `Circuit.ConsecutiveFailuresOpen` | src/circuit.js:34-39 | from CLOSED, enough consecutive failures to reach the threshold (at least one) leave the breaker OPEN |
| `Dedup.KeyValueStore.SetWithTtl` | src/utils.js:18 | SET with EX: the key now holds the value until `now + ttl`, every other key unchanged |
| `Dedup.CheckAndMark` | src/utils.js:9-20 | the answer is true iff the id is seen (live and truthy); a duplicate leaves the store unchanged; otherwise the key reads `"1"` for the whole TTL; every other key is kept |
| `Dedup.IsDuplicate` | src/utils.js:9-20 | the answer and the new store are those of `CheckAndMark` on the old store |
| `Dedup.SeenIsDuplicate` | src/utils.js:13-16 | a live key with a truthy value: answer true, store and expiry untouched |
| `Dedup.UnseenIsMarked` | src/utils.js:18-19 | otherwise: answer false, key `"idempotency:" + id` set to `"1"` expiring 86400 s from now, no other key changes |
| `Dedup.SecondCheckIsDuplicate` | src/utils.js:13-19 | two checks of a fresh id within the TTL answer false, then true |
| `Dedup.ExpiredIsRemarked` | src/utils.js:18 | once the TTL has passed the id counts as absent again and is re-marked with a fresh expiry |
| `Dedup.KeyInjective` | src/utils.js:10 | distinct request ids give distinct keys |
| `Dedup.OtherIdsUnaffected` | src/utils.js:10-18 | marking one id never changes whether another id is seen or its check's answer |
| `Sender.BuildMail` | src/sender.js:22-28 | the record takes the sender address, has a recipient iff the message has `to_email`, and its `text` is either `""` or the message's truthy `text_body` |
| `Sender.Chain` | src/sender.js:21-54 | an invoked SendGrid call comes first with the built mail; at most two transport calls; success always says `success: true`; a SendGrid success leaves the SMTP breaker alone; an error thrown is the SMTP call's; both invariants are kept |
| `Sender.MailCopiesFields` | src/sender.js:22-28 | the mail copies `to_email`, `subject`, `html_body` (absent stays absent), takes the sender address, and `text` is `text_body` if truthy, else `""` |
| `Sender.CallsCarryTheMail` | src/sender.js:22-47 | every transport invocation receives the one mail record built from the message |
| `Sender.SendGridSuccess` | src/sender.js:30-36 | SendGrid succeeds: result `{success: true, provider: sendgrid}`, only SendGrid invoked, SMTP breaker untouched |
| `Sender.SendGridFailureFallsThrough` | src/sender.js:37-45 | any SendGrid failure, fast-fail included, leads to one SMTP breaker call; SMTP is the last transport invoked when it runs |
| `Sender.SmtpRescues` | src/sender.js:44-49 | SendGrid fails and SMTP succeeds: provider smtp |
| `Sender.BothFailThrowsLast` | src/sender.js:50-53 | both fail: the error thrown is the SMTP call's |
| `Sender.ChainSucceedsIffAProviderDoes` | src/sender.js:30-53 | the chain succeeds iff one provider call does, and names the first that did |
| `Sender.ChainKeepsConsistent` | src/sender.js:30-53 | a send keeps both breakers' invariants |
| `Sender.ProviderChain.constructor` | src/sender.js:10-11 | two distinct, fresh breakers with default limits |
| `Sender.ProviderChain.SendEmail` | src/sender.js:21-54 | result, transport invocations and both breakers' new fields are those of `Chain`; each attempt changes only its own breaker |
| `Envelope.ForSending` | src/consumer.js:39-48 | for a well-formed payload, the fields handed to `sendEmail` hold neither `retry_count` nor `request_id` (the id travels separately) |
| `Consumer.RetryDelay` | src/consumer.js:59 | the delay is at least `baseDelay`, and zero only for a zero base |
| `Consumer.AfterFailure` | src/consumer.js:51-66 | dead-letter iff `retry_count + 1 >= maxRetries`, else a retry after `RetryDelay(baseDelay, retry_count)` of the payload with the same `request_id` and fields and `retry_count + 1` |
| `Consumer.Handle` | src/consumer.js:28-74 | the handler corrected for content that parses to `null`, which it nacks where the code leaves the message unsettled: every message ends in one ack or nack, issued last, after at most one publish; undecodable content is nacked with nothing changed; a request is sent only as `ForSending` of the decoded payload; both breakers' invariants are kept |
| `Consumer.HandleAsWritten` | src/consumer.js:28-74 | the code as written: it issues no channel action exactly when the content parses to `null`, and otherwise ends with an ack or nack |
| `Consumer.HandleMessage` | src/consumer.js:28-74 | no delivery: nothing happens; otherwise the disposition, transport invocations, appended channel actions, store and breakers are those of the corrected handler `Handle` |
| `Consumer.MalformedIsRejected` | src/consumer.js:31-37 | content that does not decode: nack with requeue false, nothing sent, published or changed |
| `Consumer.DuplicateIsSkipped` | src/consumer.js:41-45 | a duplicate is acked, `sendEmail` not called, nothing published or changed |
| `Consumer.FreshRequestIsSent` | src/consumer.js:39-48 | a fresh request is marked, and `sendEmail` receives the payload minus `retry_count`, `request_id` kept; for a well-formed payload neither key reappears among the other fields |
| `Consumer.DeliveredIsAcked` | src/consumer.js:47-49 | a delivered message is acked exactly once with no publish |
| `Consumer.ExhaustedIsDeadLettered` | src/consumer.js:51-57 | failure with `retry_count + 1 >= maxRetries`: the original bytes to `failed.queue` on `notifications.direct`, persistent, then ack |
| `Consumer.FailureIsRetried` | src/consumer.js:59-70 | otherwise: delay `baseDelay * 2^retry_count`, payload equal to the original but for `retry_count + 1`, published to `email.queue`, then ack |
| `Consumer.SettledExactlyOnce` | src/consumer.js:35-70 | the corrected handler ends every message with exactly one ack or nack, issued last, after at most one publish |
| `Consumer.RetryDelayDoubles` | src/consumer.js:59 | each retry delay is twice the previous |
| `Consumer.RetryDelayMonotone` | src/consumer.js:59 | delays never decrease with the retry count |
| `Consumer.DefaultSchedule` | src/consumer.js:51-59 | with 4 and 2000: retries after 2000, 4000, 8000, dead-letter at `retry_count` 3 |
| `Consumer.MissingRetryCountIsZero` | src/consumer.js:39 | a payload without `retry_count` fails over as retry 0 |
| `Consumer.RetryIsDuplicateWithinTtl` | src/consumer.js:41-66 | a republished retry keeps its `request_id`; decoded again within the TTL it is acked as a duplicate with no transport invoked |
| `Consumer.NullIsAbandonedAsWritten` | src/consumer.js:31-39 | as written, content `null` gets no ack, no nack, no send |
| `Consumer.NullIsRejected` | src/consumer.js:31-37 | corrected, content `null` is nacked without requeue |
| `Consumer.AsWrittenAgreesElsewhere` | src/consumer.js:28-74 | on every other content the handler as written and the corrected one coincide |

## Findings

| source | as written | input that shows it | evidently intended | confidence | as-written member | corrected member |
|---|---|---|---|---|---|---|
| src/consumer.js:31-39 | only a throwing `JSON.parse` is caught; content that parses to `null` reaches the destructuring at line 39, which throws, so the callback rejects before any ack or nack | message content `null` | content that is not a request object is nacked like unparsable content | high; not executed | `Consumer.NullIsAbandonedAsWritten` (on `Consumer.HandleAsWritten`) | `Consumer.NullIsRejected`, `Consumer.SettledExactlyOnce` (on `Consumer.Handle`, which `HandleMessage` follows) |

## Left out

- The server process (health route, etcd lease, broker readiness polling, SIGTERM), exchange and queue declaration and binding, and the amqplib, Redis, SendGrid and nodemailer clients. These are I/O; the channel is a log of actions, the store a map, the transports oracles.
- `setApiKey` and the real send calls: they are inside the guarded operation, whose result is an input.
- Timers: the retry's publish and ack happen after `delay` in the source; the model appends them at once and returns the delay as a number. Redelivery of a message whose timer never fired is not modelled.
- Logging (pino) is not modelled.
- Concurrency: the gap between GET and SET in `isDuplicate`, concurrent HALF_OPEN trials and concurrently handled messages. Every call is sequential.
- A failing Redis call (an unhandled rejection in the callback) is not modelled.
- Environment-variable parsing (`parseInt(...) || 4`, the string `BASE_DELAY` in the multiplication) and JSON internals: `maxRetries` and `baseDelay` are naturals, parsing and stringifying are given functions.
- Envelope.Payload: `request_id` is taken to be a string and `retry_count` a natural or absent. A missing or non-string `request_id` (stringified by the key template) and a non-numeric `retry_count` (JavaScript `+` and `**` coercions) are the decoder's business and not modelled.
- Envelope.Value: JSON numbers are integers; fractions and the limits of double precision (for `2 ** retry_count`, and the failure counter) are not modelled.
- Content that parses to a JSON primitive other than `null` is folded into the decoder: destructuring it does not throw.
