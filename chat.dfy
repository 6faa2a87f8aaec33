/** The per-connection relays of chat/main.py: `chat_producer` (client to
    store and broker) and `chat_consumer` (broker to client).

    The websocket, Redis and Cassandra are not modelled as libraries: what
    they hand the loops is an input sequence, and what the loops do to them is
    an effect log. Pydantic validation and `json.loads` are abstracted to the
    outcome they produce for a frame. */
module Chat {
  import opened Util
  import opened Uuids

  type Byte = b: int | 0 <= b < 256

  /** A reading of `datetime.datetime.now()`. */
  type Timestamp = int

  /** `ChatMessage`: what a client submits. */
  datatype ChatMessage = ChatMessage(event: string, message: string)

  /** `ChatMessageExtended`: the client's message with the conversation, the
      server's clock reading and the sender. */
  datatype ChatMessageExtended = ChatMessageExtended(
    event: string, message: string, chatId: Uuid, createdAt: Timestamp, userFrom: Uuid)

  /** The columns `save_message_to_cassandra` inserts into `messages_by_chat`.
      The `event` field of the message is not among them. */
  datatype Row = Row(chatId: Uuid, createdAt: Timestamp, userFrom: Uuid, message: string)

  /** The row `save_message_to_cassandra` writes for `m`: the four bound
      columns, filled from the message's fields of the same name. */
  function RowOf(m: ChatMessageExtended): (r: Row)
    ensures r.chatId == m.chatId && r.createdAt == m.createdAt
    ensures r.userFrom == m.userFrom && r.message == m.message
  {
    Row(m.chatId, m.createdAt, m.userFrom, m.message)
  }

  /** Two messages are stored as the same row exactly when they agree on
      the four columns, whatever their events: the event is not stored. */
  lemma SameRow(m: ChatMessageExtended, m': ChatMessageExtended)
    ensures RowOf(m) == RowOf(m') <==>
      m.chatId == m'.chatId && m.createdAt == m'.createdAt
      && m.userFrom == m'.userFrom && m.message == m'.message
    ensures RowOf(m) == RowOf(m.(event := m'.event))
  {
  }

  /** What the relays do to the outside world, in order. */
  datatype Effect =
    | Subscribe(channel: string)                          // channel.subscribe(...)
    | Save(row: Row)                                      // save_message_to_cassandra(...)
    | Publish(channel: string, payload: ChatMessageExtended)  // redis.publish(...)
    | Send(data: seq<Byte>)                               // ws.send_json(...)
    | Close                                               // channel.close()

  // ---------------------------------------------------------------------
  // chat_producer

  /** One key of a received JSON object, as `ChatMessage(...)` sees it:
      missing, a value pydantic accepts for a `str` field (giving `text`),
      or one it rejects. */
  datatype Field = Absent | Accepted(text: string) | Rejected

  /** What `ws.receive_json()` yields: the client closed, text that is not
      JSON, JSON that is not an object, or an object. */
  datatype Frame = Disconnect | Undecodable | NotAnObject | Object(event: Field, message: Field)

  /** A frame together with what the environment does while it is handled:
      the reading `datetime.now()` gives, and whether the Cassandra write or
      the Redis publish raises. */
  datatype Arrival = Arrival(frame: Frame, now: Timestamp, saveFails: bool, publishFails: bool)

  /** Exceptions that leave the loops uncaught: from decoding, from the key
      lookups, and from the store or the broker client. */
  datatype PyError = JsonDecodeError | KeyError | TypeError | StoreError | BrokerError

  /** How the `try` block of the producer ends for one frame. */
  datatype Received = Valid(msg: ChatMessage) | Disconnected | Invalid | Uncaught(error: PyError)

  /** The producer's `try`: receive, look up `'event'` then `'message'`
      (a missing key raises `KeyError`, which is not caught), and validate. */
  function Receive(f: Frame): Received {
    match f
    case Disconnect => Disconnected
    case Undecodable => Uncaught(JsonDecodeError)
    case NotAnObject => Uncaught(TypeError)
    case Object(event, message) =>
      if event.Absent? || message.Absent? then Uncaught(KeyError)
      else if event.Rejected? || message.Rejected? then Invalid
      else Valid(ChatMessage(event.text, message.text))
  }

  /** A frame the producer saves and publishes. */
  predicate Relayed(a: Arrival) {
    Receive(a.frame).Valid? && !a.saveFails && !a.publishFails
  }

  predicate EndsProducer(a: Arrival) {
    !Relayed(a)
  }

  /** `status.WS_1008_POLICY_VIOLATION`. */
  const WS_1008_POLICY_VIOLATION: int := 1008

  /** How `chat_producer` ends: the loop `break`s on a disconnect, raises
      `WebSocketException(1008)` on a validation error, lets another
      exception through, or is still waiting for the next frame. */
  datatype ProducerEnd = ClientDisconnected | PolicyViolation(code: int) | Crashed(error: PyError) | AwaitingFrame

  function ProducerVerdict(a: Arrival): ProducerEnd
    requires EndsProducer(a)
  {
    var r := Receive(a.frame);
    if r.Disconnected? then ClientDisconnected
    else if r.Invalid? then PolicyViolation(WS_1008_POLICY_VIOLATION)
    else if r.Uncaught? then Crashed(r.error)
    else if a.saveFails then Crashed(StoreError)
    else Crashed(BrokerError)
  }

  /** The enrichment step: the message with the connection's `chat_id`,
      `user_id` as `user_from`, and the clock reading as `created_at`. */
  function Extend(m: ChatMessage, chat: Uuid, user: Uuid, now: Timestamp): ChatMessageExtended {
    ChatMessageExtended(m.event, m.message, chat, now, user)
  }

  /** The effects of the frame that ends the loop: none, except when the
      write succeeded and the publish then raised -- the message is stored
      but never published, and nothing undoes or retries that. */
  function Stranded(chat: Uuid, user: Uuid, a: Arrival): (es: seq<Effect>)
    ensures |es| <= 1
    ensures forall j :: 0 <= j < |es| ==> es[j].Save?
    ensures es != [] ==> a.publishFails && !a.saveFails && Receive(a.frame).Valid?
    ensures Receive(a.frame).Valid? && !a.saveFails && a.publishFails ==>
      es == [Save(RowOf(Extend(Receive(a.frame).msg, chat, user, a.now)))]
  {
    var r := Receive(a.frame);
    if r.Valid? && !a.saveFails && a.publishFails
    then [Save(RowOf(Extend(r.msg, chat, user, a.now)))]
    else []
  }

  /** The messages the producer builds from a run of relayed frames. */
  function Enriched(chat: Uuid, user: Uuid, arrivals: seq<Arrival>): (ms: seq<ChatMessageExtended>)
    requires forall j {:trigger arrivals[j]} :: 0 <= j < |arrivals| ==> Relayed(arrivals[j])
    ensures |ms| == |arrivals|
  {
    seq(|arrivals|, j requires 0 <= j < |arrivals| && Relayed(arrivals[j]) =>
      Extend(Receive(arrivals[j].frame).msg, chat, user, arrivals[j].now))
  }

  /** The effects of relaying `ms` on channel `ch`: each message saved, then published. */
  function Relay(ch: string, ms: seq<ChatMessageExtended>): seq<Effect> {
    if ms == [] then []
    else Relay(ch, ms[..|ms| - 1]) + [Save(RowOf(ms[|ms| - 1])), Publish(ch, ms[|ms| - 1])]
  }

  lemma RelayAppend(ch: string, ms: seq<ChatMessageExtended>, m: ChatMessageExtended)
    ensures Relay(ch, ms + [m]) == Relay(ch, ms) + [Save(RowOf(m)), Publish(ch, m)]
  {
    assert (ms + [m])[..|ms|] == ms;
  }

  /** The `while True` loop of `chat_producer`. */
  method Producer(chat: Uuid, user: Uuid, arrivals: seq<Arrival>) returns (log: seq<Effect>, end: ProducerEnd)
    ensures end.PolicyViolation? ==> end.code == WS_1008_POLICY_VIOLATION
    ensures var k := FirstWhere(arrivals, EndsProducer);
      && log == Relay(ChannelName(chat), Enriched(chat, user, arrivals[..k]))
                + (if k < |arrivals| then Stranded(chat, user, arrivals[k]) else [])
      && end == (if k < |arrivals| then ProducerVerdict(arrivals[k]) else AwaitingFrame)
  {
    var channel := ChannelName(chat);
    log := [];
    var i := 0;
    while i < |arrivals|
      invariant i <= |arrivals|
      invariant forall j :: 0 <= j < i ==> Relayed(arrivals[j])
      invariant log == Relay(channel, Enriched(chat, user, arrivals[..i]))
    {
      var received := Receive(arrivals[i].frame);
      if !received.Valid? {
        FirstWhereIs(arrivals, EndsProducer, i);
        if received.Disconnected? {
          end := ClientDisconnected;
        } else if received.Invalid? {
          end := PolicyViolation(WS_1008_POLICY_VIOLATION);
        } else {
          end := Crashed(received.error);
        }
        return;
      }
      var message := Extend(received.msg, chat, user, arrivals[i].now);
      if arrivals[i].saveFails {
        FirstWhereIs(arrivals, EndsProducer, i);
        end := Crashed(StoreError);
        return;
      }
      log := log + [Save(RowOf(message))];
      if arrivals[i].publishFails {
        FirstWhereIs(arrivals, EndsProducer, i);
        end := Crashed(BrokerError);
        return;
      }
      log := log + [Publish(channel, message)];
      assert Enriched(chat, user, arrivals[..i + 1]) == Enriched(chat, user, arrivals[..i]) + [message];
      RelayAppend(channel, Enriched(chat, user, arrivals[..i]), message);
      i := i + 1;
    }
    FirstWhereIs(arrivals, EndsProducer, i);
    assert arrivals[..i] == arrivals;
    end := AwaitingFrame;
  }

  /** Each relayed message gives exactly two effects, its save and then its
      publish, in the order the messages came. */
  lemma {:induction false} RelayShape(ch: string, ms: seq<ChatMessageExtended>, j: nat)
    requires j < |ms|
    ensures |Relay(ch, ms)| == 2 * |ms|
    ensures Relay(ch, ms)[2 * j] == Save(RowOf(ms[j]))
    ensures Relay(ch, ms)[2 * j + 1] == Publish(ch, ms[j])
  {
    var init := ms[..|ms| - 1];
    if j < |ms| - 1 {
      RelayShape(ch, init, j);
    } else if |ms| > 1 {
      RelayShape(ch, init, 0);
    }
  }

  /** In a producer log -- the relayed messages' effects, possibly followed
      by a stranded store write -- every publish is immediately preceded by
      the store write of the same message, and goes to channel `ch`. */
  lemma SaveBeforePublish(ch: string, ms: seq<ChatMessageExtended>, stranded: seq<Effect>, q: nat)
    requires forall j :: 0 <= j < |stranded| ==> stranded[j].Save?
    requires q < |Relay(ch, ms) + stranded|
    requires (Relay(ch, ms) + stranded)[q].Publish?
    ensures q >= 1
    ensures (Relay(ch, ms) + stranded)[q - 1] == Save(RowOf((Relay(ch, ms) + stranded)[q].payload))
    ensures (Relay(ch, ms) + stranded)[q].channel == ch
  {
    assert ms != [];
    RelayShape(ch, ms, 0);
    RelayShape(ch, ms, q / 2);
  }

  /** The store rows of a run of messages. */
  function Rows(ms: seq<ChatMessageExtended>): (rs: seq<Row>)
    ensures |rs| == |ms|
  {
    seq(|ms|, j requires 0 <= j < |ms| => RowOf(ms[j]))
  }

  /** No deduplication: a message is published as many times as it occurs,
      and a row is saved as many times as a message with that row occurs. */
  lemma {:induction false} OnePerMessage(ch: string, ms: seq<ChatMessageExtended>)
    ensures forall m :: multiset(Relay(ch, ms))[Publish(ch, m)] == multiset(ms)[m]
    ensures forall r :: multiset(Relay(ch, ms))[Save(r)] == multiset(Rows(ms))[r]
  {
    if ms != [] {
      var init, last := ms[..|ms| - 1], ms[|ms| - 1];
      OnePerMessage(ch, init);
      assert ms == init + [last];
      assert Rows(ms) == Rows(init) + [RowOf(last)];
    }
  }

  /** What the `j`-th relayed frame leads to: a store row with its message
      text, the conversation, the sender and the clock reading (but not its
      event), then a publish of the full message on the conversation's channel. */
  lemma RelayedFrame(chat: Uuid, user: Uuid, arrivals: seq<Arrival>, j: nat)
    requires forall i {:trigger arrivals[i]} :: 0 <= i < |arrivals| ==> Relayed(arrivals[i])
    requires j < |arrivals|
    ensures Relayed(arrivals[j])
    ensures var c := Receive(arrivals[j].frame).msg;
      var log := Relay(ChannelName(chat), Enriched(chat, user, arrivals));
      && |log| == 2 * |arrivals|
      && log[2 * j] == Save(Row(chat, arrivals[j].now, user, c.message))
      && log[2 * j + 1] == Publish(ChannelName(chat),
           ChatMessageExtended(c.event, c.message, chat, arrivals[j].now, user))
  {
    RelayShape(ChannelName(chat), Enriched(chat, user, arrivals), j);
  }

  // ---------------------------------------------------------------------
  // chat_consumer

  /** `bytes.isspace` for one byte: space, tab, newline, vertical tab, form
      feed, carriage return. */
  predicate IsSpace(b: Byte) {
    b == 32 || 9 <= b <= 13
  }

  function LStrip(s: seq<Byte>): seq<Byte> {
    if s != [] && IsSpace(s[0]) then LStrip(s[1..]) else s
  }

  function RStrip(s: seq<Byte>): seq<Byte> {
    if s != [] && IsSpace(s[|s| - 1]) then RStrip(s[..|s| - 1]) else s
  }

  /** `bytes.strip()` with no argument. */
  function Strip(s: seq<Byte>): seq<Byte> {
    RStrip(LStrip(s))
  }

  predicate AllSpace(s: seq<Byte>) {
    forall i :: 0 <= i < |s| ==> IsSpace(s[i])
  }

  lemma {:induction false} LStripShape(s: seq<Byte>)
    ensures LStrip(s) == [] <==> AllSpace(s)
    ensures LStrip(s) != [] ==> !IsSpace(LStrip(s)[0])
  {
    if s != [] && IsSpace(s[0]) {
      LStripShape(s[1..]);
      if AllSpace(s[1..]) {
        forall i | 0 <= i < |s| ensures IsSpace(s[i]) {
          if i > 0 { assert s[i] == s[1..][i - 1]; }
        }
      }
    }
  }

  lemma {:induction false} RStripEmpty(s: seq<Byte>)
    ensures RStrip(s) == [] <==> AllSpace(s)
  {
    if s != [] && IsSpace(s[|s| - 1]) {
      RStripEmpty(s[..|s| - 1]);
      if AllSpace(s[..|s| - 1]) {
        forall i | 0 <= i < |s| ensures IsSpace(s[i]) {
          if i < |s| - 1 { assert s[i] == s[..|s| - 1][i]; }
        }
      }
    }
  }

  /** `not data.strip()` holds exactly for empty or whitespace-only data. */
  lemma StripEmptyIffBlank(s: seq<Byte>)
    ensures Strip(s) == [] <==> AllSpace(s)
  {
    LStripShape(s);
    var l := LStrip(s);
    RStripEmpty(l);
    if l != [] {
      assert !IsSpace(l[0]);
    }
  }

  /** What `channel.get_message(ignore_subscribe_messages=True)` returns:
      nothing, or a message with its `data`. Whether `json.loads` accepts
      the data and whether the websocket send raises `RuntimeError` at that
      moment are given with it. */
  datatype Delivery = NoMessage | Message(data: seq<Byte>, decodes: bool, sendFails: bool)

  /** The consumer's `continue` test: `not message or not message['data'].strip()`. */
  predicate Skipped(d: Delivery) {
    d.NoMessage? || Strip(d.data) == []
  }

  /** A delivery that ends the consumer loop. */
  predicate Halts(d: Delivery) {
    !Skipped(d) && (!d.decodes || d.sendFails)
  }

  /** How `chat_consumer` ends: a send failed, so it broke out and closed the
      channel; `json.loads` raised (and `channel.close()` was skipped); or it
      is still listening. */
  datatype ConsumerEnd = ClientGone | DecodeCrash | Listening

  /** The data of the deliveries that are not skipped, in arrival order. */
  function Forwarded(ds: seq<Delivery>): seq<seq<Byte>> {
    if ds == [] then []
    else
      var last := ds[|ds| - 1];
      Forwarded(ds[..|ds| - 1]) + (if Skipped(last) then [] else [last.data])
  }

  function Sends(bs: seq<seq<Byte>>): (es: seq<Effect>)
    ensures |es| == |bs|
  {
    seq(|bs|, j requires 0 <= j < |bs| => Send(bs[j]))
  }

  /** The `i`-th delivery made a send fail. */
  predicate StoppedBySend(ds: seq<Delivery>, i: nat) {
    i < |ds| && Halts(ds[i]) && ds[i].decodes
  }

  /** The `while True` loop of `chat_consumer`, with the subscription before
      it and the `channel.close()` after it. */
  method Consumer(chat: Uuid, deliveries: seq<Delivery>) returns (log: seq<Effect>, end: ConsumerEnd)
    ensures |log| >= 1 && log[0] == Subscribe(ChannelName(chat))
    ensures Close in log <==> end == ClientGone
    ensures var k := FirstWhere(deliveries, Halts);
      && log == [Subscribe(ChannelName(chat))] + Sends(Forwarded(deliveries[..k]))
                + (if k < |deliveries| && deliveries[k].decodes then [Close] else [])
      && end == (if k == |deliveries| then Listening
                 else if deliveries[k].decodes then ClientGone
                 else DecodeCrash)
  {
    log := [Subscribe(ChannelName(chat))];
    var i: nat := 0;
    var broke := false;
    while i < |deliveries|
      invariant i <= |deliveries|
      invariant forall j :: 0 <= j < i ==> !Halts(deliveries[j])
      invariant log == [Subscribe(ChannelName(chat))] + Sends(Forwarded(deliveries[..i]))
      invariant broke ==> StoppedBySend(deliveries, i)
    {
      var d := deliveries[i];
      assert deliveries[..i + 1][..i] == deliveries[..i];
      if Skipped(d) {
        i := i + 1;
        continue;
      }
      if !d.decodes {
        FirstWhereIs(deliveries, Halts, i);
        end := DecodeCrash;
        return;
      }
      if d.sendFails {
        broke := true;
        break;
      }
      log := log + [Send(d.data)];
      i := i + 1;
    }
    FirstWhereIs(deliveries, Halts, i);
    if broke {
      log := log + [Close];
      end := ClientGone;
    } else {
      assert deliveries[..i] == deliveries;
      end := Listening;
    }
  }

  /** Forwarding distributes over concatenation: the consumer keeps the
      arrival order. */
  lemma {:induction false} ForwardedAppend(a: seq<Delivery>, b: seq<Delivery>)
    ensures Forwarded(a + b) == Forwarded(a) + Forwarded(b)
  {
    if b != [] {
      var init := b[..|b| - 1];
      assert (a + b)[..|a + b| - 1] == a + init;
      ForwardedAppend(a, init);
    } else {
      assert a + b == a;
    }
  }

  /** Each delivery, in its place, contributes its data to what is sent,
      or nothing when it is absent or blank. */
  lemma ForwardedAt(a: seq<Delivery>, d: Delivery, b: seq<Delivery>)
    ensures Forwarded(a + [d] + b) ==
            Forwarded(a) + (if Skipped(d) then [] else [d.data]) + Forwarded(b)
  {
    ForwardedAppend(a + [d], b);
    ForwardedAppend(a, [d]);
    assert [d][..0] == [];
  }

  /** Nothing empty or whitespace-only is sent. */
  lemma {:induction false} ForwardedNotBlank(ds: seq<Delivery>)
    ensures forall j :: 0 <= j < |Forwarded(ds)| ==> !AllSpace(Forwarded(ds)[j])
  {
    if ds != [] {
      var last := ds[|ds| - 1];
      ForwardedNotBlank(ds[..|ds| - 1]);
      if !Skipped(last) {
        StripEmptyIffBlank(last.data);
      }
    }
  }
}
