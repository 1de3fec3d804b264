/** Fan-out of usage payloads to subscribers. Every locked section and every close after an unlock
    is a step of its own, so any interleaving of them is a sequence of steps. */
module UsageFanout {
  import opened Text
  import opened UsageQueue

  const BUFFER_SIZE: nat := 256

  // buffer and closed are the channel itself. The rest is its history: what was sent to it, what
  // its reader took, and the stretch of publications between its subscription and its removal.
  datatype Channel = Channel(buffer: seq<Bytes>, closed: bool, sent: seq<Bytes>, received: seq<Bytes>,
                             start: nat, stop: Option<nat>)

  // closing counts the closes that are due after an unlock; published is every payload handed to
  // subscribers so far; fault says that a closed channel was sent to or closed again.
  datatype Fanout = Fanout(subscribers: set<nat>, nextSubscriberID: nat, channels: map<nat, Channel>,
                           closing: multiset<nat>, published: seq<Bytes>, fault: bool)

  const EMPTY := Fanout({}, 0, map[], multiset{}, [], false)

  // ----- The steps -----

  function Subscribe(f: Fanout): Fanout {
    var id := f.nextSubscriberID + 1;
    f.(nextSubscriberID := id, subscribers := f.subscribers + {id},
       channels := f.channels[id := Channel([], false, [], [], |f.published|, None)])
  }

  // A full subscriber is dropped and closed on the spot.
  function Deliver(c: Channel, payload: Bytes, now: nat): Channel {
    if |c.buffer| < BUFFER_SIZE then c.(buffer := c.buffer + [payload], sent := c.sent + [payload])
    else c.(closed := true, stop := Some(now))
  }

  predicate HasRoom(f: Fanout, id: nat) {
    id in f.channels && |f.channels[id].buffer| < BUFFER_SIZE
  }

  function Publish(f: Fanout, payload: Bytes): Fanout {
    if f.subscribers == {} then f
    else f.(
      subscribers := (set id | id in f.subscribers && HasRoom(f, id)),
      channels := (map id | id in f.channels ::
        if id in f.subscribers then Deliver(f.channels[id], payload, |f.published|) else f.channels[id]),
      published := f.published + [payload],
      fault := f.fault || exists id :: id in f.subscribers && id in f.channels && f.channels[id].closed)
  }

  function Removed(f: Fanout, id: nat): Channel
    requires id in f.channels
  {
    f.channels[id].(stop := Some(|f.published|))
  }

  // The locked half of unsubscribing.
  function Unsubscribe(f: Fanout, id: nat): Fanout {
    if id in f.subscribers && id in f.channels then
      f.(subscribers := f.subscribers - {id}, channels := f.channels[id := Removed(f, id)],
         closing := f.closing + multiset{id})
    else f
  }

  // The locked half of clearing.
  function Clear(f: Fanout): Fanout {
    f.(subscribers := {}, closing := f.closing + multiset(f.subscribers),
       channels := (map id | id in f.channels :: if id in f.subscribers then Removed(f, id) else f.channels[id]))
  }

  // One close that is due.
  function Close(f: Fanout, id: nat): Fanout {
    if id in f.closing && id in f.channels then
      f.(closing := f.closing - multiset{id}, channels := f.channels[id := f.channels[id].(closed := true)],
         fault := f.fault || f.channels[id].closed)
    else f
  }

  // A reader takes what is buffered, closed or not.
  function Receive(f: Fanout, id: nat): Fanout {
    if id in f.channels && f.channels[id].buffer != [] then
      var c := f.channels[id];
      f.(channels := f.channels[id := c.(buffer := c.buffer[1..], received := c.received + [c.buffer[0]])])
    else f
  }

  // ----- What every step keeps -----

  ghost predicate Delivered(c: Channel, published: seq<Bytes>) {
    var end := if c.stop.Some? then c.stop.value else |published|;
    c.start <= end <= |published| && c.sent == published[c.start..end]
  }

  ghost predicate ChannelOk(f: Fanout, id: nat)
    requires id in f.channels
  {
    var c := f.channels[id];
    && id <= f.nextSubscriberID
    && |c.buffer| <= BUFFER_SIZE
    && c.sent == c.received + c.buffer
    && Delivered(c, f.published)
    && (id in f.subscribers <==> c.stop.None?)
    && f.closing[id] == (if id !in f.subscribers && !c.closed then 1 else 0)
    && (id in f.subscribers ==> !c.closed)
  }

  ghost predicate Inv(f: Fanout) {
    && !f.fault
    && f.subscribers <= f.channels.Keys
    && (forall id :: id in f.closing ==> id in f.channels)
    && forall id :: id in f.channels ==> ChannelOk(f, id)
  }

  lemma SubscribeKeeps(f: Fanout)
    requires Inv(f)
    ensures Inv(Subscribe(f))
  {
    var g := Subscribe(f);
    forall id | id in g.channels ensures ChannelOk(g, id) {
      assert id in f.channels ==> ChannelOk(f, id);
      assert id == g.nextSubscriberID ==> id !in f.channels;
    }
  }

  lemma DeliveredOk(f: Fanout, payload: Bytes, id: nat)
    requires Inv(f) && id in f.channels
    ensures id in Publish(f, payload).channels && ChannelOk(Publish(f, payload), id)
  {
    assert ChannelOk(f, id);
  }

  lemma PublishKeeps(f: Fanout, payload: Bytes)
    requires Inv(f)
    ensures Inv(Publish(f, payload))
  {
    var g := Publish(f, payload);
    forall id | id in g.channels ensures ChannelOk(g, id) {
      DeliveredOk(f, payload, id);
    }
  }

  lemma UnsubscribeKeeps(f: Fanout, id: nat)
    requires Inv(f)
    ensures Inv(Unsubscribe(f, id))
  {
    var g := Unsubscribe(f, id);
    forall other | other in g.channels ensures ChannelOk(g, other) {
      assert ChannelOk(f, other);
    }
  }

  lemma ClearKeeps(f: Fanout)
    requires Inv(f)
    ensures Inv(Clear(f))
  {
    var g := Clear(f);
    forall id | id in g.channels ensures ChannelOk(g, id) {
      assert ChannelOk(f, id);
    }
  }

  lemma CloseKeeps(f: Fanout, id: nat)
    requires Inv(f)
    ensures Inv(Close(f, id))
  {
    var g := Close(f, id);
    forall other | other in g.channels ensures ChannelOk(g, other) {
      assert ChannelOk(f, other);
    }
  }

  lemma ReceiveKeeps(f: Fanout, id: nat)
    requires Inv(f)
    ensures Inv(Receive(f, id))
  {
    var g := Receive(f, id);
    forall other | other in g.channels ensures ChannelOk(g, other) {
      assert ChannelOk(f, other);
    }
  }

  // ----- Whole runs -----

  datatype Op =
    | OpSubscribe
    | OpPublish(payload: Bytes)
    | OpUnsubscribe(id: nat)
    | OpClear
    | OpClose(id: nat)
    | OpReceive(id: nat)

  function Apply(f: Fanout, op: Op): Fanout {
    match op
    case OpSubscribe => Subscribe(f)
    case OpPublish(payload) => Publish(f, payload)
    case OpUnsubscribe(id) => Unsubscribe(f, id)
    case OpClear => Clear(f)
    case OpClose(id) => Close(f, id)
    case OpReceive(id) => Receive(f, id)
  }

  function Run(ops: seq<Op>): Fanout {
    if ops == [] then EMPTY else Apply(Run(ops[..|ops| - 1]), ops[|ops| - 1])
  }

  lemma ApplyKeeps(f: Fanout, op: Op)
    requires Inv(f)
    ensures Inv(Apply(f, op))
  {
    match op
    case OpSubscribe => SubscribeKeeps(f);
    case OpPublish(payload) => PublishKeeps(f, payload);
    case OpUnsubscribe(id) => UnsubscribeKeeps(f, id);
    case OpClear => ClearKeeps(f);
    case OpClose(id) => CloseKeeps(f, id);
    case OpReceive(id) => ReceiveKeeps(f, id);
  }

  // In every run: no channel is closed twice or sent to after its close; what was sent to it is
  // exactly the publications of its stretch, in order; a removed channel is closed or about to be.
  lemma {:induction false} RunsAreSafe(ops: seq<Op>)
    ensures Inv(Run(ops))
  {
    if ops != [] {
      RunsAreSafe(ops[..|ops| - 1]);
      ApplyKeeps(Run(ops[..|ops| - 1]), ops[|ops| - 1]);
    }
  }

  // So whenever a channel is sent to, or one of the closes that are due comes, it is open; and no channel
  // has two closes due.
  lemma OpenWhenUsed(ops: seq<Op>)
    ensures var f := Run(ops);
            && (forall id :: id in f.subscribers ==> id in f.channels && !f.channels[id].closed)
            && (forall id :: id in f.closing ==> id in f.channels && !f.channels[id].closed && f.closing[id] == 1)
  {
    RunsAreSafe(ops);
    var f := Run(ops);
    forall id | id in f.closing ensures id in f.channels && !f.channels[id].closed && f.closing[id] == 1 {
      assert ChannelOk(f, id);
    }
    forall id | id in f.subscribers ensures id in f.channels && !f.channels[id].closed {
      assert ChannelOk(f, id);
    }
  }

  // What later steps may do to a channel: extend it while it is subscribed, close it, drain it.
  ghost predicate ChannelGrows(c: Channel, d: Channel) {
    && d.start == c.start && c.sent <= d.sent && c.received <= d.received
    && (c.stop.Some? ==> d.stop == c.stop && d.sent == c.sent)
    && (c.closed ==> d.closed)
  }

  ghost predicate Grows(f: Fanout, g: Fanout) {
    && f.published <= g.published && f.channels.Keys <= g.channels.Keys
    && forall id :: id in f.channels ==> ChannelGrows(f.channels[id], g.channels[id])
  }

  lemma PublishGrows(f: Fanout, payload: Bytes, id: nat)
    requires Inv(f) && id in f.channels
    ensures id in Publish(f, payload).channels && ChannelGrows(f.channels[id], Publish(f, payload).channels[id])
  {
    assert ChannelOk(f, id);
  }

  lemma SubscribeGrows(f: Fanout, id: nat)
    requires Inv(f) && id in f.channels
    ensures id in Subscribe(f).channels && ChannelGrows(f.channels[id], Subscribe(f).channels[id])
  {
    assert ChannelOk(f, id);
  }

  lemma UnsubscribeGrows(f: Fanout, other: nat, id: nat)
    requires Inv(f) && id in f.channels
    ensures id in Unsubscribe(f, other).channels && ChannelGrows(f.channels[id], Unsubscribe(f, other).channels[id])
  {
    assert ChannelOk(f, id);
  }

  lemma ClearGrows(f: Fanout, id: nat)
    requires Inv(f) && id in f.channels
    ensures id in Clear(f).channels && ChannelGrows(f.channels[id], Clear(f).channels[id])
  {
    assert ChannelOk(f, id);
  }

  lemma CloseGrows(f: Fanout, other: nat, id: nat)
    requires Inv(f) && id in f.channels
    ensures id in Close(f, other).channels && ChannelGrows(f.channels[id], Close(f, other).channels[id])
  {
    assert ChannelOk(f, id);
  }

  lemma ReceiveGrows(f: Fanout, other: nat, id: nat)
    requires Inv(f) && id in f.channels
    ensures id in Receive(f, other).channels && ChannelGrows(f.channels[id], Receive(f, other).channels[id])
  {
    assert ChannelOk(f, id);
  }

  lemma StepGrowsAt(f: Fanout, op: Op, id: nat)
    requires Inv(f) && id in f.channels
    ensures id in Apply(f, op).channels && ChannelGrows(f.channels[id], Apply(f, op).channels[id])
  {
    match op
    case OpPublish(payload) => PublishGrows(f, payload, id);
    case OpSubscribe => SubscribeGrows(f, id);
    case OpUnsubscribe(other) => UnsubscribeGrows(f, other, id);
    case OpClear => ClearGrows(f, id);
    case OpClose(other) => CloseGrows(f, other, id);
    case OpReceive(other) => ReceiveGrows(f, other, id);
  }

  lemma StepGrows(f: Fanout, op: Op)
    requires Inv(f)
    ensures Grows(f, Apply(f, op))
  {
    forall id | id in f.channels
      ensures id in Apply(f, op).channels && ChannelGrows(f.channels[id], Apply(f, op).channels[id])
    {
      StepGrowsAt(f, op, id);
    }
    assert f.published <= Apply(f, op).published;
  }

  lemma GrowsOn(f: Fanout, g: Fanout, h: Fanout)
    requires Grows(f, g) && Grows(g, h)
    ensures Grows(f, h)
  {
    forall id | id in f.channels ensures id in h.channels && ChannelGrows(f.channels[id], h.channels[id]) {
      assert ChannelGrows(f.channels[id], g.channels[id]) && ChannelGrows(g.channels[id], h.channels[id]);
    }
  }

  // The stretch is fixed: it starts at the subscription and, once the channel is removed, ends for
  // good; nothing already sent or published is ever taken back.
  lemma {:induction false} StretchIsFixed(ops: seq<Op>, k: nat)
    requires k <= |ops|
    ensures Grows(Run(ops[..k]), Run(ops))
    decreases |ops|
  {
    if k == |ops| {
      assert ops[..k] == ops;
      RunsAreSafe(ops);
    } else {
      var before := ops[..|ops| - 1];
      StretchIsFixed(before, k);
      assert before[..k] == ops[..k];
      RunsAreSafe(before);
      StepGrows(Run(before), ops[|ops| - 1]);
      GrowsOn(Run(ops[..k]), Run(before), Run(ops));
    }
  }

  // A subscription starts at the publications made so far.
  lemma RunOneMore(ops: seq<Op>, op: Op)
    ensures Run(ops + [op]) == Apply(Run(ops), op)
  {
    assert (ops + [op])[..|ops|] == ops;
  }

  lemma SubscribedHere(f: Fanout)
    requires Inv(f)
    ensures var g := Subscribe(f);
            var id := g.nextSubscriberID;
            id !in f.channels && id in g.subscribers && id in g.channels && g.channels[id].start == |f.published|
  {
    forall id | id in f.channels ensures id <= f.nextSubscriberID {
      assert ChannelOk(f, id);
    }
  }

  lemma SubscriptionStartsHere(ops: seq<Op>)
    ensures var f, g := Run(ops), Run(ops + [OpSubscribe]);
            var id := g.nextSubscriberID;
            id !in f.channels && id in g.subscribers && id in g.channels && g.channels[id].start == |f.published|
  {
    RunsAreSafe(ops);
    RunOneMore(ops, OpSubscribe);
    SubscribedHere(Run(ops));
  }

  // Without subscribers nothing is published. Unsubscribing, or clearing, takes the channel out at once and
  // closes it later; other channels stay as they are. A reader takes the oldest payload of its channel.
  lemma NobodyNothing(f: Fanout, payload: Bytes)
    requires f.subscribers == {}
    ensures Publish(f, payload) == f
  {
  }

  lemma UnsubscribeEnds(f: Fanout, id: nat)
    requires Inv(f) && id in f.subscribers
    ensures var g := Unsubscribe(f, id);
            && g.subscribers == f.subscribers - {id} && g.published == f.published
            && id in g.closing && Close(g, id).channels[id].closed && id !in Close(g, id).closing
            && forall k :: k in f.channels && k != id ==> g.channels[k] == f.channels[k] == Close(g, id).channels[k]
  {
    assert id in f.channels && ChannelOk(f, id);
  }

  lemma ClearEnds(f: Fanout, id: nat)
    requires Inv(f) && id in f.subscribers
    ensures var g := Clear(f);
            && g.subscribers == {} && g.published == f.published
            && id in g.closing && Close(g, id).channels[id].closed
            && forall k :: k in f.channels && k !in f.subscribers ==> g.channels[k] == f.channels[k]
  {
    assert id in f.channels && ChannelOk(f, id);
  }

  lemma ReceiveTakes(f: Fanout, id: nat)
    requires id in f.channels && f.channels[id].buffer != []
    ensures var c, d := f.channels[id], Receive(f, id).channels[id];
            && d.received == c.received + [c.buffer[0]] && [c.buffer[0]] + d.buffer == c.buffer
            && d.closed == c.closed
  {
  }

  // A publication reaches nobody exactly if every subscriber is full; then all are dropped,
  // and it still counts as published.
  lemma FullSubscribersLoseIt(f: Fanout, payload: Bytes)
    requires Inv(f) && f.subscribers != {}
    ensures var g := Publish(f, payload);
            && g.published == f.published + [payload]
            && ((forall id :: id in f.channels ==> g.channels[id].sent == f.channels[id].sent) <==>
                (forall id :: id in f.subscribers ==> !HasRoom(f, id)))
            && (g.subscribers == {} <==> forall id :: id in f.subscribers ==> !HasRoom(f, id))
            && forall id :: id in f.subscribers ==> (!HasRoom(f, id) <==> |f.channels[id].buffer| == 256)
  {
    var g := Publish(f, payload);
    forall id | id in f.channels
      ensures g.channels[id].sent == f.channels[id].sent <==> !(id in f.subscribers && HasRoom(f, id))
    {
      assert |f.channels[id].sent + [payload]| == |f.channels[id].sent| + 1;
    }
    assert f.subscribers <= f.channels.Keys;
    forall id ensures id in g.subscribers <==> id in f.subscribers && HasRoom(f, id) {
    }
  }

  // What one call of Enqueue does to the subscribers and the queue when nothing comes between its two
  // sections: subscribers first, the queue only when there are none.
  ghost function EnqueueAlone(f: Fanout, live: seq<Item>, payload: Bytes, enabled: bool, now: int, window: int)
    : (Fanout, seq<Item>)
  {
    if !enabled || payload == [] then (f, live)
    else if f.subscribers != {} then (Publish(f, payload), live)
    else (f, Pruned(live, Cutoff(now, window)) + [Item(now, payload)])
  }

  // ----- The queue's own code -----

  // channels, closing and published stand for the runtime's side: the channels with their history,
  // the closes still due by whoever left a locked section, and the log of publications.
  class Hub {
    var subscribers: set<nat>
    var nextSubscriberID: nat
    var channels: map<nat, Channel>
    var closing: multiset<nat>
    var published: seq<Bytes>
    const queue: Queue

    ghost function State(): Fanout
      reads this
    {
      Fanout(subscribers, nextSubscriberID, channels, closing, published, false)
    }

    ghost predicate Valid()
      reads this, queue
    {
      Inv(State()) && queue.Valid()
    }

    constructor ()
      ensures Valid() && fresh(queue) && State() == EMPTY && queue.Live() == []
    {
      subscribers, nextSubscriberID, channels := {}, 0, map[];
      closing, published := multiset{}, [];
      queue := new Queue();
    }

    method SubscribeUsage() returns (id: nat)
      requires Valid()
      modifies this
      ensures Valid() && State() == Subscribe(old(State())) && id == nextSubscriberID && id in subscribers
    {
      ghost var f := State();
      SubscribeKeeps(f);
      nextSubscriberID := nextSubscriberID + 1;
      id := nextSubscriberID;
      channels := channels[id := Channel([], false, [], [], |published|, None)];
      subscribers := subscribers + {id};
      assert State() == Subscribe(f);
    }

    // publishToSubscribers: the subscribers are visited in any order.
    method PublishToSubscribers(payload: Bytes) returns (found: bool)
      requires Valid()
      modifies this
      ensures Valid() && State() == Publish(old(State()), payload) && (found <==> old(subscribers) != {})
    {
      ghost var f := State();
      PublishKeeps(f, payload);
      if |subscribers| == 0 {
        return false;
      }
      DeliverAll(payload, |published|);
      published := published + [payload];
      PublishForm(f, payload);
      return true;
    }

    static lemma PublishForm(f: Fanout, payload: Bytes)
      requires Inv(f) && f.subscribers != {}
      ensures var g := Publish(f, payload);
              && g.nextSubscriberID == f.nextSubscriberID && g.closing == f.closing && !g.fault
              && g.published == f.published + [payload]
              && g.subscribers == (set id | id in f.subscribers && |f.channels[id].buffer| < BUFFER_SIZE)
              && g.channels == (map id | id in f.channels ::
                   if id in f.subscribers then Deliver(f.channels[id], payload, |f.published|) else f.channels[id])
    {
      assert forall id :: id in f.subscribers ==> ChannelOk(f, id);
    }

    method DeliverAll(payload: Bytes, now: nat)
      requires subscribers <= channels.Keys
      modifies this`channels, this`subscribers
      ensures channels == map id | id in old(channels) ::
                if id in old(subscribers) then Deliver(old(channels)[id], payload, now) else old(channels)[id]
      ensures subscribers == set id | id in old(subscribers) && |old(channels)[id].buffer| < BUFFER_SIZE
    {
      var todo := subscribers;
      while todo != {}
        invariant todo <= old(subscribers) && channels.Keys == old(channels).Keys
        invariant forall id :: id in channels ==>
                    channels[id] ==
                      if id in old(subscribers) && id !in todo then Deliver(old(channels)[id], payload, now)
                                    else old(channels)[id]
        invariant forall id :: id in subscribers <==>
                    id in old(subscribers) && (id in todo || |old(channels)[id].buffer| < BUFFER_SIZE)
        decreases todo
      {
        var id :| id in todo;
        todo := todo - {id};
        DeliverTo(id, payload, now);
      }
    }

    // One subscriber: sent to if there is room, else dropped and closed.
    method DeliverTo(id: nat, payload: Bytes, now: nat)
      requires id in channels
      modifies this`channels, this`subscribers
      ensures channels == old(channels)[id := Deliver(old(channels)[id], payload, now)]
      ensures subscribers ==
              if |old(channels)[id].buffer| < BUFFER_SIZE then old(subscribers) else old(subscribers) - {id}
    {
      var c := channels[id];
      if |c.buffer| < BUFFER_SIZE {
        channels := channels[id := c.(buffer := c.buffer + [payload], sent := c.sent + [payload])];
      } else {
        subscribers := subscribers - {id};
        channels := channels[id := c.(closed := true, stop := Some(now))];
      }
    }

    method UnsubscribeLocked(id: nat)
      requires Valid()
      modifies this
      ensures Valid() && State() == Unsubscribe(old(State()), id)
    {
      UnsubscribeKeeps(State(), id);
      if id in subscribers {
        subscribers := subscribers - {id};
        channels := channels[id := channels[id].(stop := Some(|published|))];
        closing := closing + multiset{id};
      }
    }

    // The locked half of clear; the queued items go too.
    method ClearLocked()
      requires Valid()
      modifies this, queue
      ensures Valid() && State() == Clear(old(State())) && queue.Live() == []
    {
      ClearKeeps(State());
      DropAll();
      queue.Clear();
    }

    method DropAll()
      requires subscribers <= channels.Keys
      modifies this`subscribers, this`channels, this`closing
      ensures State() == Clear(old(State()))
    {
      ghost var f := State();
      var now := |published|;
      closing := closing + multiset(subscribers);
      channels := map id | id in channels ::
        if id in subscribers then channels[id].(stop := Some(now)) else channels[id];
      subscribers := {};
      assert channels == Clear(f).channels;
    }

    // close, some time after the lock was let go.
    method CloseDue(id: nat)
      requires Valid() && id in closing
      modifies this
      ensures Valid() && State() == Close(old(State()), id) && !old(channels)[id].closed
    {
      CloseKeeps(State(), id);
      assert ChannelOk(State(), id);
      closing := closing - multiset{id};
      channels := channels[id := channels[id].(closed := true)];
    }

    // Enqueue, of a call nothing comes between.
    method Enqueue(payload: Bytes, enabled: bool, now: int, window: int)
      requires Valid()
      modifies this, queue
      ensures Valid()
      ensures (State(), queue.Live()) == EnqueueAlone(old(State()), old(queue.Live()), payload, enabled, now, window)
    {
      if !enabled || |payload| == 0 {
        return;
      }
      var found := PublishToSubscribers(payload);
      if !found {
        queue.Enqueue(payload, now, window);
      }
    }
  }
}
