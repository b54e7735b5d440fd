# Settlement relay of the eclair RabbitMQ plugin, in Dafny

The eclair RabbitMQ plugin starts one actor, `InvoiceSubscriberActor`. The
actor subscribes to the node's payment events. For every `PaymentReceived`
event it builds a six-field settlement record as a Gson `JsonObject`:

- `r_hash`: the base64 payment hash;
- `amt_paid_sat`: the amount in whole satoshis;
- `settled`: `true`;
- `is_key_send`: `false`;
- `state`: `1`;
- `settle_date`: the event's timestamp.

The actor publishes the record once, on exchange `lnd_invoice` with routing
key `invoice.incoming.settled` and content type `application/json`, over
the broker channel it holds for its whole life. If the publish throws, the
actor logs the exception's message and carries on. It ignores every other
event.

The project has six modules:

- `Options` (`options.dfy`): the `Option` type.
- `Base64` (`base64.dfy`): the encoding of section 4 of RFC 4648 used for
  `r_hash`, with a strict decoder. It proves both round trips: decoding
  inverts encoding, and every text that decodes is the encoding of its
  result.
- `JavaLong` (`java_long.dfy`): Java's `long` and its division, which
  truncates toward zero. It proves how that division relates to Dafny's
  Euclidean division.
- `Json` (`json.dfy`): the part of Gson's `JsonObject` the relay uses.
  Members are kept in insertion order. `addProperty` appends a new name and
  replaces the value of an existing one where it stands.
- `Settlement` (`settlement.dfy`): payment events, the settlement record,
  the pure `Encode`, and the payload built by the six `addProperty` calls.
- `Relay` (`relay.dfy`): the relay itself.
  - `Step` handles one delivery. `Run` handles a trace of deliveries.
  - `Attempted`, `Published` and `Errors` are reference definitions of a
    trace's effects. `RunEffects` ties `Run` to them.
  - `Channel` is a class that records publish calls.
  - `InvoiceSubscriberActor` is a class whose `Receive` method is the
    handler. Its invariant `Valid()` says its state is `Run` over the
    deliveries it has handled.

Whether a publish returns or throws is not something the relay decides. It
enters the model as an input, `PublishOutcome`. The record and the payload
are Dafny functions, so equal events always give equal records and equal
payloads.

`settle_date` is the event's timestamp taken unchanged as a long, as line
45 of the actor does. The payload reuses the field names of LND's invoice
message (`r_hash`, `amt_paid_sat`, `settle_date`, ...), where `settle_date`
is in seconds since the epoch; the model follows the code and does not
convert it.

## Model

| member | source | states |
|---|---|---|
| Settlement.Encode | eclair-rabbitmq/src/main/java/com/getalby/eclair/InvoiceSubscriberActor.java:36-45 | An event yields a record exactly when it is a `PaymentReceived`. Every record has settled = true, is_key_send = false and state = 1. Its settle date is the event's timestamp unchanged. |
| Settlement.EncodeHash | eclair-rabbitmq/src/main/java/com/getalby/eclair/InvoiceSubscriberActor.java:40 | `r_hash` is 44 characters of base64 that decode back to exactly the 32-byte payment hash. |
| Settlement.EncodeAmount | eclair-rabbitmq/src/main/java/com/getalby/eclair/InvoiceSubscriberActor.java:41 | `amt_paid_sat` is the millisatoshi amount over 1000, truncated toward zero. Its magnitude is the largest whole number of satoshis within the amount. It equals `amount / 1000` on a non-negative amount. On a negative amount that is not a whole number of satoshis, it is one more than the floor. On a multiple of 1000 it is exact. It is negative only for a negative amount. |
| Settlement.PayloadMembers | eclair-rabbitmq/src/main/java/com/getalby/eclair/InvoiceSubscriberActor.java:39-45 | The payload has exactly six members, one per `addProperty` call, in call order (r_hash, amt_paid_sat, settled, is_key_send, state, settle_date). Each holds its field of the record. Its names are those six names in that order. |
| Settlement.Payload | eclair-rabbitmq/src/main/java/com/getalby/eclair/InvoiceSubscriberActor.java:39-45 | The payload: six `addProperty` calls on a fresh `JsonObject`, in the order of the source. Its contract says its members are exactly the six fields of the record in that order, so no call overwrote another; `PayloadMembers`, `PayloadValues` and `RecordOfPayload` state what that means for names, lookups and reading back. |
| Settlement.PayloadValues | eclair-rabbitmq/src/main/java/com/getalby/eclair/InvoiceSubscriberActor.java:39-45 | Looking each of the six names up in the payload gives that field of the record. |
| Settlement.RecordOfPayload | eclair-rabbitmq/src/main/java/com/getalby/eclair/InvoiceSubscriberActor.java:39-45 | Reading a payload back by member name gives exactly the record it was built from. |
| Settlement.EncodeInjectiveOnHash | eclair-rabbitmq/src/main/java/com/getalby/eclair/InvoiceSubscriberActor.java:40 | Two received payments with the same `r_hash` have the same payment hash. |
| Base64.Encode | eclair-rabbitmq/src/main/java/com/getalby/eclair/InvoiceSubscriberActor.java:40 | The encoding has four characters for every started group of three bytes. |
| Base64.DecodeEncode | eclair-rabbitmq/src/main/java/com/getalby/eclair/InvoiceSubscriberActor.java:40 | Decoding the encoding of any byte string gives that byte string back. |
| Base64.EncodeDecode | eclair-rabbitmq/src/main/java/com/getalby/eclair/InvoiceSubscriberActor.java:40 | Any text the strict decoder accepts is the encoding of what it decodes to, so each byte string has exactly one encoding. |
| Base64.EncodeInjective | eclair-rabbitmq/src/main/java/com/getalby/eclair/InvoiceSubscriberActor.java:40 | Distinct byte strings have distinct encodings. |
| Base64.TestVectorsShort | eclair-rabbitmq/src/main/java/com/getalby/eclair/InvoiceSubscriberActor.java:40 | The encodings of "", "f", "fo" and "foo" are the test vectors of section 10 of RFC 4648: "", "Zg==", "Zm8=", "Zm9v". |
| Base64.TestVectorFoobar | eclair-rabbitmq/src/main/java/com/getalby/eclair/InvoiceSubscriberActor.java:40 | The encoding of "foobar" is "Zm9vYmFy", as in section 10 of RFC 4648. |
| Base64.TestVectorsHigh | eclair-rabbitmq/src/main/java/com/getalby/eclair/InvoiceSubscriberActor.java:40 | Sextets 62 and 63 are '+' and '/': [251, 255] encodes to "+/8=" and [255, 254, 253] to "//79". |
| JavaLong.Div | eclair-rabbitmq/src/main/java/com/getalby/eclair/InvoiceSubscriberActor.java:41 | Java `long` division by a positive divisor. The remainder `a - q*b` is smaller than the divisor in magnitude and has the sign of the dividend, i.e. the quotient is rounded toward zero. |
| JavaLong.DivNonNegative | eclair-rabbitmq/src/main/java/com/getalby/eclair/InvoiceSubscriberActor.java:41 | On a non-negative dividend, Java's division equals Euclidean division. |
| JavaLong.DivNegative | eclair-rabbitmq/src/main/java/com/getalby/eclair/InvoiceSubscriberActor.java:41 | On a negative dividend that the divisor does not divide, Java's division is one more than Euclidean division. |
| Json.AddPropertyGet | eclair-rabbitmq/src/main/java/com/getalby/eclair/InvoiceSubscriberActor.java:40-45 | After `addProperty(name, value)`, `name` holds `value` and every other name holds what it held before. |
| Json.AddPropertyKeys | eclair-rabbitmq/src/main/java/com/getalby/eclair/InvoiceSubscriberActor.java:40-45 | `addProperty` appends a new name at the end. It keeps the order of the names when the name was already present. |
| Json.AddPropertyFresh | eclair-rabbitmq/src/main/java/com/getalby/eclair/InvoiceSubscriberActor.java:40-45 | A property whose name is not yet present is appended as the last member. |
| Json.AddPropertiesFresh | eclair-rabbitmq/src/main/java/com/getalby/eclair/InvoiceSubscriberActor.java:39-45 | Consecutive `addProperty` calls with distinct new names append their members in call order. |
| Json.AddPropertyKeepsDistinct | eclair-rabbitmq/src/main/java/com/getalby/eclair/InvoiceSubscriberActor.java:40-45 | `addProperty` never creates a duplicate name. |
| Json.GetMember | eclair-rabbitmq/src/main/java/com/getalby/eclair/InvoiceSubscriberActor.java:39-45 | In an object without duplicate names, each member's name looks up that member's value. |
| Json.AddProperty | eclair-rabbitmq/src/main/java/com/getalby/eclair/InvoiceSubscriberActor.java:40-45 | Gson's `addProperty`: a new name is appended, an existing name has its value replaced where it stands. Its own contract only says no member is lost; `AddPropertyGet` (lookups after the call) and `AddPropertyKeys` (order of the names) state its behaviour. |
| Relay.MessageFor | eclair-rabbitmq/src/main/java/com/getalby/eclair/InvoiceSubscriberActor.java:36-57 | There is a message to publish exactly when the event is a `PaymentReceived`. |
| Relay.MessageForReceived | eclair-rabbitmq/src/main/java/com/getalby/eclair/InvoiceSubscriberActor.java:50-56 | A received payment's message goes to exchange `lnd_invoice` with routing key `invoice.incoming.settled` and content type `application/json`. Its body has the six names in order and reads back as the event's record. |
| Relay.Step | eclair-rabbitmq/src/main/java/com/getalby/eclair/InvoiceSubscriberActor.java:35-61 | A non-`PaymentReceived` event leaves the whole state unchanged. A received payment makes exactly one publish attempt, with its message. If that publish returns, the message is published and nothing is logged. If it throws, the message is not published and the exception's message is logged. |
| Relay.StepEffect | eclair-rabbitmq/src/main/java/com/getalby/eclair/InvoiceSubscriberActor.java:35-61 | One step appends that delivery's own attempt, publish and error to the state, whatever the state was. |
| Relay.Run | eclair-rabbitmq/src/main/java/com/getalby/eclair/InvoiceSubscriberActor.java:35-61 | The handler applied to deliveries one after another, in delivery order. Its contract says a run only appends publish attempts, at most one per delivery; `RunEffects` states exactly what it appends. |
| Relay.RunEffects | eclair-rabbitmq/src/main/java/com/getalby/eclair/InvoiceSubscriberActor.java:35-61 | Across a trace, the publish attempts are exactly the messages of the received payments, and the published messages are exactly those whose publish returned. The log is exactly the messages of the publishes that threw. All three are in delivery order, after what was there before. |
| Relay.FailureIsolated | eclair-rabbitmq/src/main/java/com/getalby/eclair/InvoiceSubscriberActor.java:49-60 | A publish that throws is attempted once, logged once and never published, and it is not retried. The deliveries after it contribute exactly what they would have contributed without the failure. Beside its log entry the failure changes nothing: the trace publishes what the trace without that delivery publishes, and attempts what the same trace with a returning publish attempts; a returning publish logs nothing. |
| Relay.Channel.constructor | eclair-rabbitmq/src/main/java/com/getalby/eclair/RabbitMQPlugin.java:30-31 | A new channel has no publish calls recorded. |
| Relay.Channel.BasicPublish | eclair-rabbitmq/src/main/java/com/getalby/eclair/InvoiceSubscriberActor.java:50-57 | One `basicPublish` call is recorded. It is also recorded as published when it returns. When it throws, its message is reported to the caller. |
| Relay.InvoiceSubscriberActor.constructor | eclair-rabbitmq/src/main/java/com/getalby/eclair/InvoiceSubscriberActor.java:22-26 | The actor holds the given channel, is not yet subscribed, has an empty log and satisfies its invariant. |
| Relay.InvoiceSubscriberActor.PreStart | eclair-rabbitmq/src/main/java/com/getalby/eclair/InvoiceSubscriberActor.java:66-72 | The actor is subscribed afterwards, and nothing else changes. |
| Relay.InvoiceSubscriberActor.PostStop | eclair-rabbitmq/src/main/java/com/getalby/eclair/InvoiceSubscriberActor.java:74-80 | The actor is unsubscribed afterwards, and nothing else changes. |
| Relay.InvoiceSubscriberActor.Receive | eclair-rabbitmq/src/main/java/com/getalby/eclair/InvoiceSubscriberActor.java:33-64 | Handling an event keeps the invariant and changes the observable state exactly as `Step` does. It asks nothing of the event or the outcome beyond the invariant. The channel's attempts and publishes and the actor's log are always the reference effects of every delivery handled so far. |

## Left out

- The rendering of the payload to JSON text (`gson.toJson(...).getBytes()`) is left out. The message body is the `JsonObject` itself. The member order and values are modelled; the character-level output of Gson is not.
- `logger.info` of the payload and `logger.error` are output only. The error log is modelled as the sequence of messages passed to `logger.error`.
- A `null` exception message is not modelled. Exception messages are strings.
- Only an exception thrown by the publish call is modelled, as the `PublishOutcome` input. Nothing else in the handler can throw for well-formed events.
- `PublishOutcome.Throws` stands for a `java.lang.Exception` only, which the handler catches. A `java.lang.Error` thrown by `basicPublish` is not caught by the handler and escapes to the actor's supervisor; that path is not modelled.
- The Akka event stream, the actor mailbox and the concurrency between them are left out. `preStart`/`postStop` become the `subscribed` flag. `Receive` does not depend on it, just as the handler does not.
- The plugin's configuration reading, its broker connection and `System.exit(1)` on a failed connection (`RabbitMQPlugin.java`) are I/O. Only the fact that the actor holds one channel for its lifetime is kept, as the `const channel` field.
- The keysend plugin (`KeysendPlugin.java`, `KeysendActor.java`, `KeysendActorTest.java`) is not part of this model. It is an HTTP route and logging wiring, with no logic of the relay.
- The byte vector's `toBase64` comes from a library that is not part of this model. It is modelled by the standard encoding of section 4 of RFC 4648.
- JavaLong.Div: defined only for positive divisors. The only divisor the relay uses is 1000, so the overflowing `MIN_VALUE / -1` case never arises.
