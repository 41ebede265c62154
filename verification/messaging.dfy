/** The messaging infrastructure the workers run on: the processed-message store
    (`Idempotency`, backed by a key/TTL store) and the queue consumer with its
    per-delivery acknowledgement rule. */
module Messaging {
  import opened Common

  // ---------------------------------------------------------------------------
  // Processed-message store
  // ---------------------------------------------------------------------------

  const KeyPrefix: string := "processed:"

  /** Thirty days, in seconds. */
  const DefaultTtl: int := 30 * 24 * 60 * 60

  /** The store key of a message id. */
  function ProcessedKey(messageId: string): (key: string)
    ensures |key| == |KeyPrefix| + |messageId|
    ensures key[..|KeyPrefix|] == KeyPrefix && key[|KeyPrefix|..] == messageId
  {
    KeyPrefix + messageId
  }

  /** Distinct message ids never share a key. */
  lemma ProcessedKeyInjective(a: string, b: string)
    requires ProcessedKey(a) == ProcessedKey(b)
    ensures a == b
  {
    assert a == ProcessedKey(a)[|KeyPrefix|..];
  }

  /** `Idempotency`: the key/TTL store is a map from key to the instant (in seconds)
      at which the key expires; `online` says whether the store answers. */
  class Idempotency {
    var online: bool
    var store: map<string, int>

    constructor (online: bool)
      ensures this.online == online && store == map[]
    {
      this.online := online;
      store := map[];
    }

    /** The key exists in the store at `now`: set and not yet expired. */
    predicate Live(key: string, now: int)
      reads this
    {
      key in store && store[key] > now
    }

    /** `EXISTS processed:<id>`; a store error is logged and read as "not processed". */
    method IsProcessed(messageId: string, now: int) returns (processed: bool)
      ensures processed <==> online && Live(ProcessedKey(messageId), now)
    {
      if !online {
        return false;
      }
      processed := ProcessedKey(messageId) in store && store[ProcessedKey(messageId)] > now;
    }

    /** `SETEX processed:<id> ttl 1`: overwrites whatever was there. The store refuses
        a non-positive TTL; that error, like every store error, is logged and swallowed. */
    method MarkAsProcessed(messageId: string, now: int, ttl: int := DefaultTtl)
      modifies this`store
      ensures online && ttl > 0 ==> store == old(store)[ProcessedKey(messageId) := now + ttl]
      ensures !(online && ttl > 0) ==> store == old(store)
    {
      if online && ttl > 0 {
        store := store[ProcessedKey(messageId) := now + ttl];
      }
    }

    /** `SET processed:<id> 1 EX ttl NX`: claims the key only when it is absent and
        answers whether it did. On a store error it fails open and answers true. */
    method CheckAndMark(messageId: string, now: int, ttl: int := DefaultTtl) returns (first: bool)
      modifies this`store
      ensures first <==> !online || ttl <= 0 || !old(Live(ProcessedKey(messageId), now))
      ensures online && ttl > 0 && !old(Live(ProcessedKey(messageId), now)) ==>
                store == old(store)[ProcessedKey(messageId) := now + ttl]
      ensures !(online && ttl > 0 && !old(Live(ProcessedKey(messageId), now))) ==> store == old(store)
      ensures online && ttl > 0 ==> Live(ProcessedKey(messageId), now)
    {
      if !online || ttl <= 0 {
        return true;
      }
      var key := ProcessedKey(messageId);
      if key in store && store[key] > now {
        return false;
      }
      store := store[key := now + ttl];
      return true;
    }

    /** `DEL processed:<id>`; a store error is logged and swallowed. */
    method Remove(messageId: string)
      modifies this`store
      ensures online ==> store == old(store) - {ProcessedKey(messageId)}
      ensures !online ==> store == old(store)
    {
      if online {
        store := store - {ProcessedKey(messageId)};
      }
    }
  }

  /** Claiming the same message twice: the first claim wins, and a second claim at
      any later instant before the key expires is refused and changes nothing,
      while the store answers and the TTL is positive. */
  method ClaimTwice(idem: Idempotency, messageId: string, now: int, later: int, ttl: int)
    returns (first: bool, second: bool)
    requires idem.online && ttl > 0 && !idem.Live(ProcessedKey(messageId), now)
    requires now <= later < now + ttl
    modifies idem`store
    ensures first && !second
    ensures idem.store == old(idem.store)[ProcessedKey(messageId) := now + ttl]
  {
    first := idem.CheckAndMark(messageId, now, ttl);
    second := idem.CheckAndMark(messageId, later, ttl);
  }

  /** After `remove`, the message reads as unprocessed and can be claimed again. */
  method RemoveThenClaim(idem: Idempotency, messageId: string, now: int)
    returns (processed: bool, claimed: bool)
    requires idem.online
    modifies idem`store
    ensures !processed && claimed
  {
    idem.Remove(messageId);
    processed := idem.IsProcessed(messageId, now);
    claimed := idem.CheckAndMark(messageId, now);
  }

  // ---------------------------------------------------------------------------
  // Consumer
  // ---------------------------------------------------------------------------

  /** `ConsumeOptions`: every field may be left out. There is no idempotency switch. */
  datatype ConsumeOptions = ConsumeOptions(
    exchange: Option<string>, routingKey: Option<string>,
    noAck: Option<bool>, prefetch: Option<int>)

  /** The options once defaults are applied. */
  datatype ConsumeSettings = ConsumeSettings(binding: Option<Binding>, noAck: bool, prefetch: int)

  datatype Binding = Binding(exchange: string, routingKey: string)

  /** `const { exchange, routingKey, noAck = false, prefetch = 1 } = options`, the
      `if (exchange)` test for a non-empty exchange and `routingKey || ""`. */
  function Resolve(options: ConsumeOptions): (s: ConsumeSettings)
    ensures options.noAck.None? ==> !s.noAck
    ensures options.noAck.Some? ==> s.noAck == options.noAck.value
    ensures options.prefetch.None? ==> s.prefetch == 1
    ensures options.prefetch.Some? ==> s.prefetch == options.prefetch.value
    ensures s.binding.Some? <==> options.exchange.Some? && options.exchange.value != ""
    ensures s.binding.Some? ==> s.binding.value.exchange == options.exchange.value
    ensures s.binding.Some? && options.routingKey.Some? ==> s.binding.value.routingKey == options.routingKey.value
    ensures s.binding.Some? && options.routingKey.None? ==> s.binding.value.routingKey == ""
  {
    ConsumeSettings(
      if options.exchange.Some? && options.exchange.value != ""
      then Some(Binding(options.exchange.value, options.routingKey.GetOr("")))
      else None,
      options.noAck.GetOr(false),
      options.prefetch.GetOr(1))
  }

  /** A delivery: its tag and its body as text. */
  datatype RawMessage = RawMessage(deliveryTag: nat, content: string)

  /** What the consumer tells the broker about one delivery. */
  datatype Signal =
    | Ack(deliveryTag: nat)
    | Nack(deliveryTag: nat, allUpTo: bool, requeue: bool)

  /** The broker channel, reduced to what the consumer declares on it and the
      acknowledgements it sends. */
  class Channel {
    var prefetchCount: int
    var queues: set<string>
    var exchanges: set<string>
    var bindings: seq<(string, Binding)>
    var consumers: map<string, bool>
    var signals: seq<Signal>

    constructor ()
      ensures prefetchCount == 0 && queues == {} && exchanges == {} && bindings == []
      ensures consumers == map[] && signals == []
    {
      prefetchCount := 0;
      queues := {};
      exchanges := {};
      bindings := [];
      consumers := map[];
      signals := [];
    }
  }

  /** The outcome of one delivery, from the consumer's side. */
  datatype Delivery = Ignored | Handled(succeeded: bool) | Unparsable

  /** The consumer's acknowledgement rule: ack after the handler returns, nack without
      requeue when the body does not parse or the handler throws, and nothing at all
      for a null delivery or when the queue is consumed with `noAck`. */
  function SignalFor(d: Delivery, noAck: bool, tag: nat): (r: seq<Signal>)
    ensures noAck || d == Ignored ==> r == []
    ensures !noAck && d == Handled(true) ==> r == [Ack(tag)]
    ensures !noAck && (d == Handled(false) || d == Unparsable) ==> r == [Nack(tag, false, false)]
    ensures forall s :: s in r ==> s.deliveryTag == tag && (s.Nack? ==> !s.requeue && !s.allUpTo)
  {
    if noAck then []
    else match d
      case Ignored => []
      case Handled(ok) => if ok then [Ack(tag)] else [Nack(tag, false, false)]
      case Unparsable => [Nack(tag, false, false)]
  }

  /** `RabbitMQConsumer`. `handled` records the bodies passed to handlers, in order. */
  class RabbitMQConsumer {
    var channel: Channel?
    var handled: seq<string>

    constructor ()
      ensures channel == null && handled == []
    {
      channel := null;
      handled := [];
    }

    /** Opens a channel. */
    method Connect()
      modifies this`channel
      ensures channel != null && fresh(channel)
      ensures channel.prefetchCount == 0 && channel.queues == {} && channel.exchanges == {}
      ensures channel.bindings == [] && channel.consumers == map[] && channel.signals == []
    {
      channel := new Channel();
    }

    /** Declares an exchange (topic by default), opening a channel first when there is none. */
    method AssertExchange(name: string)
      modifies this`channel, channel
      ensures channel != null
      ensures old(channel) != null ==>
                && channel == old(channel) && channel.exchanges == old(channel.exchanges) + {name}
                && channel.prefetchCount == old(channel.prefetchCount) && channel.queues == old(channel.queues)
                && channel.bindings == old(channel.bindings) && channel.consumers == old(channel.consumers)
                && channel.signals == old(channel.signals)
      ensures old(channel) == null ==>
                && fresh(channel) && channel.exchanges == {name}
                && channel.prefetchCount == 0 && channel.queues == {} && channel.bindings == []
                && channel.consumers == map[] && channel.signals == []
    {
      if channel == null {
        channel := new Channel();
      }
      channel.exchanges := channel.exchanges + {name};
    }

    /** Sets the prefetch, declares the queue, binds it when an exchange is given, and
        registers the delivery callback with the resolved `noAck`. */
    method Consume(queue: string, options: ConsumeOptions)
      modifies this`channel, channel
      ensures channel != null
      ensures old(channel) != null ==> channel == old(channel)
      ensures old(channel) == null ==> fresh(channel)
      ensures channel.prefetchCount == Resolve(options).prefetch
      ensures channel.queues == (if old(channel) == null then {} else old(channel.queues)) + {queue}
      ensures Resolve(options).binding.Some? ==>
                && channel.exchanges == (if old(channel) == null then {} else old(channel.exchanges))
                                        + {Resolve(options).binding.value.exchange}
                && channel.bindings == (if old(channel) == null then [] else old(channel.bindings))
                                       + [(queue, Resolve(options).binding.value)]
      ensures Resolve(options).binding.None? ==>
                && channel.exchanges == (if old(channel) == null then {} else old(channel.exchanges))
                && channel.bindings == (if old(channel) == null then [] else old(channel.bindings))
      ensures channel.consumers == (if old(channel) == null then map[] else old(channel.consumers))[queue := Resolve(options).noAck]
      ensures channel.signals == (if old(channel) == null then [] else old(channel.signals))
    {
      if channel == null {
        channel := new Channel();
      }
      var settings := Resolve(options);
      channel.prefetchCount := settings.prefetch;
      channel.queues := channel.queues + {queue};
      if settings.binding.Some? {
        channel.exchanges := channel.exchanges + {settings.binding.value.exchange};
        channel.bindings := channel.bindings + [(queue, settings.binding.value)];
      }
      channel.consumers := channel.consumers[queue := settings.noAck];
    }

    /** One call of the delivery callback registered for `queue`. The body is parsed
        by `parse` (JSON.parse, `None` when it throws) and handed to `handler`, whose
        result says whether it returned (true) or threw (false). The channel keeps
        one consumer per queue, the last one registered; the broker would keep every
        consumer of a queue consumed twice, each with its own `noAck`. */
    method Deliver<T>(queue: string, raw: Option<RawMessage>, parse: string -> Option<T>, handler: T -> bool)
      returns (d: Delivery)
      requires channel != null && queue in channel.consumers
      modifies this`handled, channel`signals
      ensures raw.None? ==> d == Ignored
      ensures raw.Some? && parse(raw.value.content).None? ==> d == Unparsable
      ensures raw.Some? && parse(raw.value.content).Some? ==> d == Handled(handler(parse(raw.value.content).value))
      ensures handled == old(handled) + (if d.Handled? then [raw.value.content] else [])
      ensures channel.signals == old(channel.signals)
                + (if raw.None? then [] else SignalFor(d, channel.consumers[queue], raw.value.deliveryTag))
    {
      if raw.None? {
        return Ignored;
      }
      var noAck := channel.consumers[queue];
      var message := parse(raw.value.content);
      if message.None? {
        d := Unparsable;
      } else {
        handled := handled + [raw.value.content];
        d := Handled(handler(message.value));
      }
      channel.signals := channel.signals + SignalFor(d, noAck, raw.value.deliveryTag);
    }
  }

  /** Nothing remembers what was delivered: the same message delivered twice reaches
      the handler twice and is acknowledged twice. */
  method Redeliver<T>(consumer: RabbitMQConsumer, queue: string, message: RawMessage,
                      parse: string -> Option<T>, handler: T -> bool)
    returns (first: Delivery, second: Delivery)
    requires consumer.channel != null && queue in consumer.channel.consumers
    requires parse(message.content).Some?
    modifies consumer`handled, consumer.channel`signals
    ensures first == second == Handled(handler(parse(message.content).value))
    ensures consumer.handled == old(consumer.handled) + [message.content, message.content]
  {
    first := consumer.Deliver(queue, Some(message), parse, handler);
    second := consumer.Deliver(queue, Some(message), parse, handler);
  }
}
