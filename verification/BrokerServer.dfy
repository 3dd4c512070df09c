/** The broker's and the socket endpoint's own code, one call at a time. */
module BrokerServer {
  import opened Wrappers
  import opened Broker

  class RealtimeBroker {
    var local: map<Channel, set<Queue>>
    var subs: set<string>
    var queues: map<Queue, seq<Payload>>

    /** Redis is subscribed to the control channel and the channels with a listener. */
    ghost predicate Valid()
      reads this
    {
      && subs == {Name(CONTROL_CHANNEL)} + (set ch | ch in local :: Name(ch))
      && CONTROL_CHANNEL !in local
      && (forall ch :: ch in local ==> local[ch] != {} && local[ch] <= queues.Keys)
    }

    ghost predicate Lists(ch: Channel, q: Queue)
      reads this
    {
      q in Listeners(local, ch)
    }

    constructor ()
      ensures Valid() && queues == map[] && forall ch, q :: !Lists(ch, q)
    {
      local, subs, queues := map[], {Name(CONTROL_CHANNEL)}, map[];
    }

    method NewQueue(q: Queue)
      requires Valid() && q !in queues
      modifies this`queues
      ensures Valid() && queues == old(queues)[q := []]
    {
      queues := queues[q := []];
    }

    method AddSubscriber(ch: Channel, q: Queue)
      requires Valid() && ch != CONTROL_CHANNEL && q in queues
      modifies this`local, this`subs
      ensures Valid()
      ensures forall c, p :: Lists(c, p) <==> old(Lists(c, p)) || (c == ch && p == q)
    {
      var listeners := if ch in local then local[ch] else {};
      if listeners == {} { subs := subs + {Name(ch)}; }
      local := local[ch := listeners + {q}];
    }

    method RemoveSubscriber(ch: Channel, q: Queue)
      requires Valid()
      modifies this`local, this`subs
      ensures Valid()
      ensures forall c, p :: Lists(c, p) <==> old(Lists(c, p)) && !(c == ch && p == q)
    {
      if ch !in local { return; }
      var listeners := local[ch] - {q};
      if listeners == {} {
        local := local - {ch};
        subs := subs - {Name(ch)};
        forall c | Name(c) == Name(ch) ensures c == ch { NameIsInjective(c, ch); }
        assert subs == {Name(CONTROL_CHANNEL)} + (set c | c in local :: Name(c));
      } else {
        local := local[ch := listeners];
      }
    }

    /** put_nowait on a copy of the channel's listeners, one queue after another. */
    method Relay(ch: Channel, payload: Payload)
      requires Valid()
      modifies this`queues
      ensures Valid() && queues.Keys == old(queues).Keys
      ensures forall q :: q in queues ==> queues[q] == old(queues)[q] + if Lists(ch, q) then [payload] else []
    {
      var todo := if ch in local then local[ch] else {};
      while todo != {}
        invariant todo <= Listeners(local, ch) && queues.Keys == old(queues).Keys
        invariant forall q :: q in queues ==>
          queues[q] == old(queues)[q] + if Lists(ch, q) && q !in todo then [payload] else []
        decreases |todo|
      {
        var q :| q in todo;
        todo := todo - {q};
        queues := queues[q := queues[q] + [payload]];
      }
    }
  }

  datatype Answer = Subscribed | Unsubscribed | Forbidden

  class Connection {
    const broker: RealtimeBroker
    const queue: Queue
    var subscribed: set<Channel>

    /** The socket's own view and the broker's index say the same. */
    ghost predicate Agrees()
      reads this, broker
    {
      && broker.Valid() && queue in broker.queues && CONTROL_CHANNEL !in subscribed
      && forall ch :: broker.Lists(ch, queue) <==> ch in subscribed
    }

    constructor (broker: RealtimeBroker, queue: Queue)
      requires broker.Valid() && queue !in broker.queues
      modifies broker
      ensures this.broker == broker && this.queue == queue && Agrees() && subscribed == {}
      ensures broker.local == old(broker.local) && broker.subs == old(broker.subs)
    {
      this.broker, this.queue, subscribed := broker, queue, {};
      new;
      broker.NewQueue(queue);
      forall ch ensures !broker.Lists(ch, queue) {
        if ch in broker.local { assert broker.local[ch] <= old(broker.queues).Keys; }
      }
    }

    method OnSubscribe(ch: Channel, member: bool) returns (answer: Answer)
      requires Agrees()
      modifies this, broker
      ensures Agrees()
      ensures answer == if ch in old(subscribed) || (Askable(ch) && member) then Subscribed else Forbidden
      ensures subscribed == if answer == Subscribed then old(subscribed) + {ch} else old(subscribed)
      ensures forall c, p :: p != queue ==> (broker.Lists(c, p) <==> old(broker.Lists(c, p)))
    {
      if ch in subscribed { return Subscribed; }
      if !Askable(ch) || !member { return Forbidden; }
      ControlIsNotAskable();
      broker.AddSubscriber(ch, queue);
      subscribed := subscribed + {ch};
      answer := Subscribed;
    }

    method OnUnsubscribe(ch: Channel) returns (answer: Answer)
      requires Agrees()
      modifies this, broker
      ensures Agrees() && answer == Unsubscribed && subscribed == old(subscribed) - {ch}
      ensures forall c, p :: p != queue ==> (broker.Lists(c, p) <==> old(broker.Lists(c, p)))
    {
      if ch in subscribed {
        subscribed := subscribed - {ch};
        broker.RemoveSubscriber(ch, queue);
      }
      answer := Unsubscribed;
    }

    /** After cleanup the queue is listed nowhere, and nobody else has moved. */
    method Cleanup()
      requires Agrees()
      modifies broker
      ensures broker.Valid() && forall ch :: !broker.Lists(ch, queue)
      ensures forall c, p :: p != queue ==> (broker.Lists(c, p) <==> old(broker.Lists(c, p)))
      ensures broker.queues == old(broker.queues)
    {
      var todo := subscribed;
      while todo != {}
        invariant broker.Valid() && broker.queues == old(broker.queues)
        invariant forall c, p :: broker.Lists(c, p) <==> if p == queue then c in todo else old(broker.Lists(c, p))
        decreases |todo|
      {
        var ch :| ch in todo;
        todo := todo - {ch};
        broker.RemoveSubscriber(ch, queue);
      }
    }
  }
}
