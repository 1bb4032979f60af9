/** The in-process publish/subscribe broker: topics, subscriber lists, the message
    store, and synchronous fan-out of every published record to the topic's
    subscribers in subscription order. */
module PubSub {
  import opened Results
  import opened PyStr

  type Topic = string

  /** Message ids come from a fresh-id supply (a counter standing for `uuid4`). */
  type MessageId = nat

  /** A subscriber callback, as an opaque handle compared by identity. */
  datatype Callback = Callback(handle: nat)

  /** The JSON-like values a producer puts in a message's content. */
  datatype Value =
    | Str(s: string)
    | Int(i: int)
    | Bool(b: bool)
    | Null
    | List(items: seq<Value>)
    | Dict(fields: map<string, Value>)

  /** A message's content: a dictionary from string keys to values. */
  type Content = map<string, Value>

  /** The stored message record `{id, content, timestamp, topic}`. */
  datatype Message = Message(id: MessageId, content: Content, timestamp: string, topic: Topic)

  /** One invocation of a subscriber callback with a message record. */
  datatype Delivery = Delivery(callback: Callback, record: Message)

  /** The error `list.remove` raises when the element is absent. */
  datatype BrokerError = ValueError(message: string)

  const NotInList: string := "list.remove(x): x not in list"

  /** The topic `producer` and `consumer` use when none is given. */
  const DefaultTopic: Topic := "default"

  /** The subscriber list of `t`, empty when the topic is unknown. */
  function SubscribersOf(subs: map<Topic, seq<Callback>>, t: Topic): seq<Callback>
  {
    if t in subs then subs[t] else []
  }

  /** The id-to-record table of `t`, empty when the topic has no store yet. */
  function StoreOf(store: map<Topic, map<MessageId, Message>>, t: Topic): map<MessageId, Message>
  {
    if t in store then store[t] else map[]
  }

  /** Cutting the first `c` out of `s`, when `s` does not start with `c`, keeps
      the head and cuts the first `c` out of the tail. */
  lemma {:induction false} CutBehindHead(s: seq<Callback>, c: Callback)
    requires c in s && s[0] != c
    ensures c in s[1..] && FirstIndex(s, c) == 1 + FirstIndex(s[1..], c)
    ensures s[..FirstIndex(s, c)] + s[FirstIndex(s, c) + 1..] ==
            [s[0]] + (s[1..][..FirstIndex(s[1..], c)] + s[1..][FirstIndex(s[1..], c) + 1..])
  {
    assert s == [s[0]] + s[1..];
    var tail := s[1..];
    var k := FirstIndex(tail, c);
    assert FirstIndex(s, c) == k + 1;
    assert s[..k + 1] == [s[0]] + tail[..k];
    assert s[k + 2..] == tail[k + 1..];
  }

  /** Python's `list.remove(c)`: drops the first occurrence of `c`, or raises
      `ValueError` when `c` is absent. */
  function ListRemove(s: seq<Callback>, c: Callback): (r: Result<seq<Callback>, BrokerError>)
    ensures r.Err? <==> c !in s
    ensures r.Err? ==> r.error == ValueError(NotInList)
    ensures r.Ok? ==> r.value == s[..FirstIndex(s, c)] + s[FirstIndex(s, c) + 1..]
  {
    if |s| == 0 then Err(ValueError(NotInList))
    else if s[0] == c then Ok(s[1..])
    else
      assert c in s <==> c in s[1..] by { assert s == [s[0]] + s[1..]; }
      var tail := ListRemove(s[1..], c);
      if tail.Err? then tail
      else
        CutBehindHead(s, c);
        Ok([s[0]] + tail.value)
  }

  /** A successful `list.remove(c)` shortens the list by exactly one entry, and
      that entry is `c`: the other callbacks keep their multiplicity. */
  lemma {:induction false} RemoveDropsOne(s: seq<Callback>, c: Callback)
    requires c in s
    ensures |ListRemove(s, c).value| == |s| - 1
    ensures multiset(ListRemove(s, c).value) == multiset(s) - multiset{c}
  {
    var k := FirstIndex(s, c);
    var before, after := s[..k], s[k + 1..];
    assert ListRemove(s, c).value == before + after;
    assert s == before + [c] + after;
    assert multiset(s) == multiset(before) + multiset{c} + multiset(after);
  }

  /** Removing a callback right after subscribing it, when it was not yet
      subscribed, gives the old list back. */
  lemma {:induction false} RemoveUndoesAppend(s: seq<Callback>, c: Callback)
    requires c !in s
    ensures ListRemove(s + [c], c) == Ok(s)
  {
    if |s| > 0 {
      assert (s + [c])[1..] == s[1..] + [c];
      RemoveUndoesAppend(s[1..], c);
      assert [s[0]] + s[1..] == s;
    }
  }

  /** Subscribing the same callback twice and unsubscribing it once leaves it
      subscribed exactly once more than before. */
  lemma DoubleSubscribeSingleRemove(s: seq<Callback>, c: Callback)
    ensures ListRemove(s + [c, c], c).Ok?
    ensures multiset(ListRemove(s + [c, c], c).value)[c] == multiset(s)[c] + 1
  {
    var s2 := s + [c, c];
    assert s2[|s|] == c;
    RemoveDropsOne(s2, c);
    assert multiset(s2) == multiset(s) + multiset{c, c};
  }

  /** The invocations `publish` makes for `record`: each callback of `subs`
      once, in list order. */
  function Fanout(subs: seq<Callback>, record: Message): (r: seq<Delivery>)
    ensures |r| == |subs|
  {
    if |subs| == 0 then []
    else Fanout(subs[..|subs| - 1], record) + [Delivery(subs[|subs| - 1], record)]
  }

  /** Delivery order is subscription order: the k-th invocation goes to the
      k-th subscriber, with the published record. */
  lemma {:induction false} FanoutAt(subs: seq<Callback>, record: Message, k: nat)
    requires k < |subs|
    ensures Fanout(subs, record)[k] == Delivery(subs[k], record)
  {
    var init := subs[..|subs| - 1];
    if k < |init| {
      FanoutAt(init, record, k);
      assert init[k] == subs[k];
    }
  }

  /** Each callback receives a record as many times as it occurs in the list, so
      a callback subscribed once gets each publish exactly once, and one not
      subscribed gets nothing. */
  lemma {:induction false} FanoutCount(subs: seq<Callback>, record: Message, c: Callback)
    ensures multiset(Fanout(subs, record))[Delivery(c, record)] == multiset(subs)[c]
  {
    if |subs| > 0 {
      var init, last := subs[..|subs| - 1], subs[|subs| - 1];
      FanoutCount(init, record, c);
      assert subs == init + [last];
      assert multiset(subs) == multiset(init) + multiset{last};
      assert multiset(Fanout(subs, record)) == multiset(Fanout(init, record)) + multiset{Delivery(last, record)};
    }
  }

  /** Table mapping from topic to id-to-record tables. */
  type Store = map<Topic, map<MessageId, Message>>

  /** `m` is the record stored under its own topic and id. */
  predicate Stored(store: Store, m: Message)
  {
    m.topic in store && m.id in store[m.topic] && store[m.topic][m.id] == m
  }

  /** Every record is filed under its own topic and its own id, and every id is
      below `bound`, the next id the supply hands out. */
  ghost predicate WellKeyed(store: Store, bound: MessageId)
  {
    forall t, i :: t in store && i in store[t] ==>
      store[t][i].topic == t && store[t][i].id == i && i < bound
  }

  /** An id names at most one record across all topics. */
  ghost predicate IdsUnique(store: Store)
  {
    forall t, u, i :: t in store && u in store && i in store[t] && i in store[u] ==> t == u
  }

  /** `store` after filing `record` under its topic and id. */
  function Insert(store: Store, record: Message): (r: Store)
    ensures r.Keys == store.Keys + {record.topic}
    ensures record.id in r[record.topic] && r[record.topic][record.id] == record
    ensures forall i :: i in StoreOf(store, record.topic) ==> i in r[record.topic]
    ensures record.id !in StoreOf(store, record.topic) ==>
              |r[record.topic]| == |StoreOf(store, record.topic)| + 1
    ensures forall t :: t in store && t != record.topic ==> r[t] == store[t]
  {
    store[record.topic := StoreOf(store, record.topic)[record.id := record]]
  }

  /** A fresh id is not yet stored under any topic. */
  lemma FreshNotStored(store: Store, bound: MessageId)
    requires WellKeyed(store, bound)
    ensures forall t :: t in store ==> bound !in store[t]
  {
  }

  /** Filing a record with the next fresh id keeps every record filed under its
      own topic and id and below the advanced supply. */
  lemma InsertWellKeyed(store: Store, bound: MessageId, record: Message)
    requires WellKeyed(store, bound) && record.id == bound
    ensures WellKeyed(Insert(store, record), bound + 1)
  {
  }

  /** After filing `record`, an id held by topic `t` is the record's own id under
      the record's topic, or was already held by `t`. */
  lemma InsertedFrom(store: Store, record: Message, t: Topic, i: MessageId)
    requires t in Insert(store, record) && i in Insert(store, record)[t]
    ensures (t == record.topic && i == record.id) || (t in store && i in store[t])
  {
    if t == record.topic && i != record.id {
      assert Insert(store, record)[t] == StoreOf(store, t)[record.id := record];
    }
  }

  /** Filing a record with a fresh id keeps ids unique across topics. */
  lemma InsertIdsUnique(store: Store, bound: MessageId, record: Message)
    requires WellKeyed(store, bound) && IdsUnique(store) && record.id == bound
    ensures IdsUnique(Insert(store, record))
  {
    var r := Insert(store, record);
    FreshNotStored(store, bound);
    forall t, u, i | t in r && u in r && i in r[t] && i in r[u]
      ensures t == u
    {
      InsertedFrom(store, record, t, i);
      InsertedFrom(store, record, u, i);
    }
  }

  /** Filing a record with a fresh id keeps every earlier record where it was. */
  lemma InsertKeepsStored(store: Store, bound: MessageId, record: Message, m: Message)
    requires WellKeyed(store, bound) && record.id == bound && Stored(store, m)
    ensures Stored(Insert(store, record), m)
  {
    assert store[m.topic][m.id].id < bound;
  }

  /** Every delivered record is the one stored under its topic and id. */
  ghost predicate AllStored(store: Store, deliveries: seq<Delivery>)
  {
    forall d :: d in deliveries ==> Stored(store, d.record)
  }

  /** The broker's invariant, over its five tables: the subscriber and queue
      tables have the same topics; every record is filed under its own topic
      and id, below the next id; an id names at most one record across all
      topics; and every delivered record is the stored one. */
  ghost predicate BrokerInv(subscribers: map<Topic, seq<Callback>>, queues: set<Topic>, store: Store,
                            nextId: MessageId, deliveries: seq<Delivery>)
  {
    && subscribers.Keys == queues
    && WellKeyed(store, nextId)
    && IdsUnique(store)
    && AllStored(store, deliveries)
  }

  /** Storing a record under the next fresh id and advancing the supply keeps
      the invariant, and the record is then stored. */
  lemma InsertKeepsInv(subscribers: map<Topic, seq<Callback>>, queues: set<Topic>, store: Store,
                       nextId: MessageId, deliveries: seq<Delivery>, record: Message)
    requires BrokerInv(subscribers, queues, store, nextId, deliveries) && record.id == nextId
    ensures BrokerInv(subscribers, queues, Insert(store, record), nextId + 1, deliveries)
    ensures Stored(Insert(store, record), record)
    ensures forall t :: t in store ==> nextId !in store[t]
  {
    FreshNotStored(store, nextId);
    InsertWellKeyed(store, nextId, record);
    InsertIdsUnique(store, nextId, record);
    forall d | d in deliveries ensures Stored(Insert(store, record), d.record) {
      InsertKeepsStored(store, nextId, record, d.record);
    }
  }

  /** The broker object (one instance; the process-wide singleton is not modelled). */
  class MessageBroker {
    /** Topic to the ordered list of subscriber callbacks. */
    var subscribers: map<Topic, seq<Callback>>
    /** Keys of the per-topic queue table; the queues themselves are never used. */
    var queues: set<Topic>
    /** Topic to the table from message id to stored record. */
    var store: Store
    /** Every callback invocation so far, in the order they happened. */
    var deliveries: seq<Delivery>
    /** The next id the fresh-id supply hands out. */
    var nextId: MessageId

    /** The broker's invariant (`BrokerInv`) over its fields. */
    ghost predicate Valid()
      reads this
    {
      BrokerInv(subscribers, queues, store, nextId, deliveries)
    }

    /** `_initialize`: three empty tables. */
    constructor ()
      ensures Valid()
      ensures subscribers == map[] && queues == {} && store == map[] && deliveries == []
    {
      subscribers := map[];
      queues := {};
      store := map[];
      deliveries := [];
      nextId := 0;
    }

    /** Appends `callback` to the list of `topic`, creating the topic's list and
        queue entry first when the topic is new. */
    method Subscribe(topic: Topic, callback: Callback)
      requires Valid()
      modifies this
      ensures Valid()
      ensures subscribers.Keys == old(subscribers.Keys) + {topic}
      ensures subscribers[topic] == SubscribersOf(old(subscribers), topic) + [callback]
      ensures forall t :: t in old(subscribers) && t != topic ==> subscribers[t] == old(subscribers[t])
      ensures queues == old(queues) + {topic}
      ensures store == old(store) && deliveries == old(deliveries) && nextId == old(nextId)
    {
      if topic !in subscribers {
        subscribers := subscribers[topic := []];
        queues := queues + {topic};
      }
      subscribers := subscribers[topic := subscribers[topic] + [callback]];
    }

    /** Removes the first occurrence of `callback` from the list of `topic`.
        Unknown topic: nothing happens. Known topic without that callback:
        `ValueError`, and nothing changes. */
    method Unsubscribe(topic: Topic, callback: Callback) returns (r: Result<(), BrokerError>)
      requires Valid()
      modifies this
      ensures Valid()
      ensures topic !in old(subscribers) ==> r.Ok? && subscribers == old(subscribers)
      ensures topic in old(subscribers) && callback !in old(subscribers[topic]) ==>
                r == Err(ValueError(NotInList)) && subscribers == old(subscribers)
      ensures topic in old(subscribers) && callback in old(subscribers[topic]) ==>
                && r.Ok?
                && subscribers == old(subscribers)[topic := ListRemove(old(subscribers[topic]), callback).value]
                && |subscribers[topic]| == |old(subscribers[topic])| - 1
      ensures queues == old(queues) && store == old(store)
      ensures deliveries == old(deliveries) && nextId == old(nextId)
    {
      r := Ok(());
      if topic in subscribers {
        match ListRemove(subscribers[topic], callback)
        case Ok(rest) =>
          subscribers := subscribers[topic := rest];
        case Err(e) =>
          r := Err(e);
      }
    }

    /** Builds the record `{id, content, timestamp, topic}` with a fresh id,
        stores it under `store[topic][id]`, invokes every subscriber of `topic`
        with it in list order, and returns the id. */
    method Publish(topic: Topic, content: Content, timestamp: string) returns (id: MessageId)
      requires Valid()
      modifies this
      ensures Valid()
      ensures forall t :: t in old(store) ==> id !in old(store[t])
      ensures store == Insert(old(store), Message(id, content, timestamp, topic))
      ensures subscribers == old(subscribers) && queues == old(queues)
      ensures deliveries == old(deliveries) + Fanout(SubscribersOf(old(subscribers), topic), Message(id, content, timestamp, topic))
    {
      id := nextId;
      var record := Message(id, content, timestamp, topic);
      InsertKeepsInv(subscribers, queues, store, nextId, deliveries, record);
      nextId := nextId + 1;
      store := Insert(store, record);
      if topic in subscribers {
        Deliver(subscribers[topic], record);
      }
    }

    /** The loop of `publish`: invokes each callback of `subs` with `record`, in
        list order. */
    method Deliver(subs: seq<Callback>, record: Message)
      requires Valid() && Stored(store, record)
      modifies this`deliveries
      ensures Valid()
      ensures deliveries == old(deliveries) + Fanout(subs, record)
    {
      for k := 0 to |subs|
        invariant Valid()
        invariant deliveries == old(deliveries) + Fanout(subs[..k], record)
      {
        deliveries := deliveries + [Delivery(subs[k], record)];
        assert subs[..k + 1][..k] == subs[..k];
      }
      assert subs[..|subs|] == subs;
    }
  }

  /** `producer(message, topic="default")`: publishes through the broker. */
  method Producer(broker: MessageBroker, message: Content, timestamp: string, topic: Topic := DefaultTopic)
    returns (id: MessageId)
    requires broker.Valid()
    modifies broker
    ensures broker.Valid()
    ensures forall t :: t in old(broker.store) ==> id !in old(broker.store[t])
    ensures broker.store == Insert(old(broker.store), Message(id, message, timestamp, topic))
    ensures broker.subscribers == old(broker.subscribers) && broker.queues == old(broker.queues)
    ensures broker.deliveries ==
              old(broker.deliveries) + Fanout(SubscribersOf(old(broker.subscribers), topic), Message(id, message, timestamp, topic))
  {
    id := broker.Publish(topic, message, timestamp);
  }

  /** `consumer(callback, topic="default")`: subscribes through the broker. */
  method Consumer(broker: MessageBroker, callback: Callback, topic: Topic := DefaultTopic)
    requires broker.Valid()
    modifies broker
    ensures broker.Valid()
    ensures broker.subscribers == old(broker.subscribers)[topic := SubscribersOf(old(broker.subscribers), topic) + [callback]]
    ensures broker.queues == old(broker.queues) + {topic}
    ensures broker.store == old(broker.store) && broker.deliveries == old(broker.deliveries)
  {
    broker.Subscribe(topic, callback);
  }
}
