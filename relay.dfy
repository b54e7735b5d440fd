/** The settlement relay: an actor that receives the node's payment events
    and, for each received payment, publishes its settlement record on the
    broker channel it holds, logging (and otherwise ignoring) a failed
    publish. */
module Relay {
  import opened Options
  import opened Json
  import opened Settlement

  const Exchange := "lnd_invoice"
  const RoutingKey := "invoice.incoming.settled"
  const ContentType := "application/json"

  /** The AMQP basic properties the relay sets: only the content type. */
  datatype BasicProperties = BasicProperties(contentType: string)

  /** One `basicPublish` call. The body is the JSON object whose Gson
      rendering is sent. */
  datatype Message = Message(exchange: string, routingKey: string, props: BasicProperties, body: JsonObject)

  /** How the channel answers one publish call: it returns, or it throws an
      exception carrying a message. */
  datatype PublishOutcome = Returns | Throws(message: string)

  /** One event handed to the actor, with the outcome its publish would
      have. */
  datatype Delivery = Delivery(event: PaymentEvent, outcome: PublishOutcome)

  /** The message a payment event is published as: one for a received
      payment, none for anything else. */
  function MessageFor(e: PaymentEvent): (m: Option<Message>)
    ensures m.Some? <==> e.PaymentReceived?
  {
    match Encode(e)
    case None => None
    case Some(r) => Some(Message(Exchange, RoutingKey, BasicProperties(ContentType), Payload(r)))
  }

  /** A received payment is published on the fixed exchange and routing
      key, typed as JSON, with a body that holds the six members in order
      and reads back as the event's settlement record. */
  lemma MessageForReceived(e: PaymentEvent)
    requires e.PaymentReceived?
    ensures var m := MessageFor(e).value;
      && m.exchange == "lnd_invoice"
      && m.routingKey == "invoice.incoming.settled"
      && m.props.contentType == "application/json"
      && Keys(m.body) == FieldNames
      && RecordOf(m.body) == Encode(e)
  {
    var r := Encode(e).value;
    RecordOfPayload(r);
    PayloadMembers(r);
  }

  /** What an observer sees of the relay: the publish calls made on its
      channel, those of them that returned, and the error log. */
  datatype RelayState = RelayState(attempts: seq<Message>, published: seq<Message>, errorLog: seq<string>)

  /** Handling one delivery. Anything but a received payment leaves the
      state as it was. A received payment makes exactly one publish call;
      if the call throws, its message is logged and nothing else happens. */
  function Step(s: RelayState, d: Delivery): (r: RelayState)
    ensures !d.event.PaymentReceived? ==> r == s
    ensures d.event.PaymentReceived? ==>
      && |r.attempts| == |s.attempts| + 1
      && r.attempts[..|s.attempts|] == s.attempts
      && Some(r.attempts[|s.attempts|]) == MessageFor(d.event)
    ensures d.event.PaymentReceived? && d.outcome.Returns? ==>
      r.published == s.published + [r.attempts[|s.attempts|]] && r.errorLog == s.errorLog
    ensures d.event.PaymentReceived? && d.outcome.Throws? ==>
      r.published == s.published && r.errorLog == s.errorLog + [d.outcome.message]
  {
    match MessageFor(d.event)
    case None => s
    case Some(m) =>
      match d.outcome
      case Returns => RelayState(s.attempts + [m], s.published + [m], s.errorLog)
      case Throws(msg) => RelayState(s.attempts + [m], s.published, s.errorLog + [msg])
  }

  /** Handling deliveries one after another, in the order they arrive. */
  function Run(s: RelayState, trace: seq<Delivery>): (r: RelayState)
    ensures |s.attempts| <= |r.attempts| <= |s.attempts| + |trace|
    ensures r.attempts[..|s.attempts|] == s.attempts
    decreases |trace|
  {
    if |trace| == 0 then s
    else Step(Run(s, trace[..|trace| - 1]), trace[|trace| - 1])
  }

  // Reference definitions of a run's effects, delivery by delivery.

  function AttemptOf(d: Delivery): seq<Message>
  {
    match MessageFor(d.event)
    case Some(m) => [m]
    case None => []
  }

  function PublishOf(d: Delivery): seq<Message>
  {
    match MessageFor(d.event)
    case Some(m) => if d.outcome.Returns? then [m] else []
    case None => []
  }

  function ErrorOf(d: Delivery): seq<string>
  {
    if d.event.PaymentReceived? && d.outcome.Throws? then [d.outcome.message] else []
  }

  /** The concatenation of `f(d)` over the deliveries of a trace. */
  function Collect<T>(trace: seq<Delivery>, f: Delivery -> seq<T>): seq<T>
    decreases |trace|
  {
    if |trace| == 0 then [] else f(trace[0]) + Collect(trace[1..], f)
  }

  /** The messages of the received payments, in delivery order. */
  function Attempted(trace: seq<Delivery>): seq<Message>
  {
    Collect(trace, AttemptOf)
  }

  /** The messages of the received payments whose publish returned. */
  function Published(trace: seq<Delivery>): seq<Message>
  {
    Collect(trace, PublishOf)
  }

  /** The exception messages of the publishes that threw. */
  function Errors(trace: seq<Delivery>): seq<string>
  {
    Collect(trace, ErrorOf)
  }

  lemma {:induction false} CollectAppend<T>(t1: seq<Delivery>, t2: seq<Delivery>, f: Delivery -> seq<T>)
    ensures Collect(t1 + t2, f) == Collect(t1, f) + Collect(t2, f)
    decreases |t1|
  {
    if |t1| > 0 {
      assert (t1 + t2)[0] == t1[0];
      assert (t1 + t2)[1..] == t1[1..] + t2;
      CollectAppend(t1[1..], t2, f);
    } else {
      assert t1 + t2 == t2;
    }
  }

  lemma SplitLast<T>(t: seq<T>)
    requires |t| > 0
    ensures t == t[..|t| - 1] + [t[|t| - 1]]
  {
  }

  lemma AppendAssoc<T>(a: seq<T>, b: seq<T>, c: seq<T>, bc: seq<T>)
    requires bc == b + c
    ensures a + b + c == a + bc
  {
  }

  lemma CollectOne<T>(d: Delivery, f: Delivery -> seq<T>)
    ensures Collect([d], f) == f(d)
  {
    assert [d][1..] == [];
  }

  /** One step appends the delivery's own effect, whatever came before. */
  lemma StepEffect(s: RelayState, d: Delivery)
    ensures Step(s, d) == RelayState(s.attempts + AttemptOf(d), s.published + PublishOf(d), s.errorLog + ErrorOf(d))
  {
    match MessageFor(d.event)
    case None =>
      assert s.attempts + [] == s.attempts && s.published + [] == s.published && s.errorLog + [] == s.errorLog;
    case Some(m) =>
      match d.outcome
      case Returns => assert s.errorLog + [] == s.errorLog;
      case Throws(msg) => assert s.published + [] == s.published;
  }

  /** The effect of a run: the publish calls are exactly the received
      payments' messages, the published messages exactly those whose
      publish returned, and the log exactly the messages of those that
      threw, each in delivery order after what was there before. */
  lemma {:induction false} RunEffects(s: RelayState, trace: seq<Delivery>)
    ensures Run(s, trace) == RelayState(
      s.attempts + Attempted(trace),
      s.published + Published(trace),
      s.errorLog + Errors(trace))
    decreases |trace|
  {
    if |trace| > 0 {
      var init, d := trace[..|trace| - 1], trace[|trace| - 1];
      SplitLast(trace);
      var r := Run(s, init);
      assert Run(s, trace) == Step(r, d);
      RunEffects(s, init);
      StepEffect(r, d);
      CollectAppend(init, [d], AttemptOf);
      CollectAppend(init, [d], PublishOf);
      CollectAppend(init, [d], ErrorOf);
      CollectOne(d, AttemptOf);
      CollectOne(d, PublishOf);
      CollectOne(d, ErrorOf);
      assert Attempted(trace) == Attempted(init) + AttemptOf(d);
      assert Published(trace) == Published(init) + PublishOf(d);
      assert Errors(trace) == Errors(init) + ErrorOf(d);
      AppendAssoc(s.attempts, Attempted(init), AttemptOf(d), Attempted(trace));
      AppendAssoc(s.published, Published(init), PublishOf(d), Published(trace));
      AppendAssoc(s.errorLog, Errors(init), ErrorOf(d), Errors(trace));
    }
  }

  /** A publish that throws is logged once and dropped: its message is
      attempted once and never published, not retried later, and the
      deliveries after it are handled exactly as if it had not failed.
      Beside its log entry, the failure changes nothing: the same trace
      without the delivery publishes the same messages, and the same trace
      with a publish that returns makes the same attempts.
      With `RunEffects` this is what a run through the failure does. */
  lemma FailureIsolated(t1: seq<Delivery>, e: PaymentEvent, msg: string, t2: seq<Delivery>)
    requires e.PaymentReceived?
    ensures var t := t1 + [Delivery(e, Throws(msg))] + t2;
      && Attempted(t) == Attempted(t1) + [MessageFor(e).value] + Attempted(t2)
      && Published(t) == Published(t1) + Published(t2)
      && Errors(t) == Errors(t1) + [msg] + Errors(t2)
    ensures var t := t1 + [Delivery(e, Throws(msg))] + t2;
      && Published(t) == Published(t1 + t2)
      && Attempted(t) == Attempted(t1 + [Delivery(e, Returns)] + t2)
      && Errors(t1 + [Delivery(e, Returns)] + t2) == Errors(t1 + t2)
  {
    var d, ok := Delivery(e, Throws(msg)), Delivery(e, Returns);
    CollectAppend(t1 + [d], t2, AttemptOf);
    CollectAppend(t1, [d], AttemptOf);
    CollectOne(d, AttemptOf);
    CollectAppend(t1 + [ok], t2, AttemptOf);
    CollectAppend(t1, [ok], AttemptOf);
    CollectOne(ok, AttemptOf);
    CollectAppend(t1 + [d], t2, PublishOf);
    CollectAppend(t1, [d], PublishOf);
    CollectOne(d, PublishOf);
    assert Published(t1) + [] == Published(t1);
    CollectAppend(t1, t2, PublishOf);
    CollectAppend(t1 + [d], t2, ErrorOf);
    CollectAppend(t1, [d], ErrorOf);
    CollectOne(d, ErrorOf);
    CollectAppend(t1 + [ok], t2, ErrorOf);
    CollectAppend(t1, [ok], ErrorOf);
    CollectOne(ok, ErrorOf);
    assert Errors(t1) + [] == Errors(t1);
    CollectAppend(t1, t2, ErrorOf);
  }

  /** The broker channel the relay holds: it records every publish call
      and the calls that returned. Whether a call returns is an input. */
  class Channel {
    var attempts: seq<Message>
    var published: seq<Message>

    constructor ()
      ensures attempts == [] && published == []
    {
      attempts, published := [], [];
    }

    /** `basicPublish`: one call; a call that throws reports its message. */
    method BasicPublish(exchange: string, routingKey: string, props: BasicProperties, body: JsonObject,
                        outcome: PublishOutcome) returns (thrown: Option<string>)
      modifies this
      ensures attempts == old(attempts) + [Message(exchange, routingKey, props, body)]
      ensures published == old(published) + if outcome.Returns? then [Message(exchange, routingKey, props, body)] else []
      ensures thrown == if outcome.Throws? then Some(outcome.message) else None
    {
      var m := Message(exchange, routingKey, props, body);
      attempts := attempts + [m];
      match outcome
      case Returns =>
        published := published + [m];
        thrown := None;
      case Throws(msg) =>
        thrown := Some(msg);
    }
  }

  /** The actor. It holds one channel for its lifetime; `subscribed` stands
      for its subscription to the node's payment events. The ghost history
      is every delivery it has handled, and `Valid` ties what it has done
      to `Run` over that history. */
  class InvoiceSubscriberActor {
    const channel: Channel
    var subscribed: bool
    var errorLog: seq<string>
    ghost var origin: RelayState
    ghost var history: seq<Delivery>

    ghost function State(): RelayState
      reads this, channel
    {
      RelayState(channel.attempts, channel.published, errorLog)
    }

    ghost predicate Valid()
      reads this, channel
    {
      State() == Run(origin, history)
    }

    constructor (channel: Channel)
      ensures this.channel == channel && !subscribed && errorLog == [] && history == []
      ensures origin == RelayState(channel.attempts, channel.published, [])
      ensures Valid()
    {
      this.channel := channel;
      subscribed := false;
      errorLog := [];
      origin := RelayState(channel.attempts, channel.published, []);
      history := [];
    }

    /** Subscribe to the node's payment events. */
    method PreStart()
      modifies this`subscribed
      ensures subscribed
    {
      subscribed := true;
    }

    /** Unsubscribe from the node's payment events. */
    method PostStop()
      modifies this`subscribed
      ensures !subscribed
    {
      subscribed := false;
    }

    /** The receive handler: filter, build the record, publish once, and
      on an exception log its message and carry on. */
    method Receive(e: PaymentEvent, outcome: PublishOutcome)
      requires Valid()
      modifies this, channel
      ensures Valid()
      ensures history == old(history) + [Delivery(e, outcome)]
      ensures State() == Step(old(State()), Delivery(e, outcome))
      ensures subscribed == old(subscribed) && origin == old(origin)
      ensures channel.attempts == origin.attempts + Attempted(history)
      ensures channel.published == origin.published + Published(history)
      ensures errorLog == origin.errorLog + Errors(history)
    {
      if e.PaymentReceived? {
        var payload := Payload(Encode(e).value);
        var thrown := channel.BasicPublish(Exchange, RoutingKey, BasicProperties(ContentType), payload, outcome);
        if thrown.Some? {
          errorLog := errorLog + [thrown.value];
        }
      }
      history := history + [Delivery(e, outcome)];
      assert history[..|history| - 1] == old(history);
      RunEffects(origin, history);
    }
  }
}
