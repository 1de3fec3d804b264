/** Offering usage payloads: every call takes the lock twice, once for the subscribers and, if there
    were none, once more for the queue. Others may come in between. */
module UsageOffers {
  import opened Text
  import opened UsageQueue
  import opened UsageFanout

  // pending holds, for each caller, the payload it found no subscriber for and has not queued yet;
  // offered and queued are the history.
  datatype Usage = Usage(fanout: Fanout, live: seq<Item>, pending: seq<Option<Bytes>>,
                         offered: seq<Bytes>, queued: seq<Bytes>)

  // The first section of Enqueue.
  function Offer(u: Usage, c: nat, payload: Bytes, enabled: bool): Usage
    requires c < |u.pending|
  {
    if !enabled || payload == [] || u.pending[c].Some? then u
    else
      var v := u.(offered := u.offered + [payload]);
      if u.fanout.subscribers != {} then v.(fanout := Publish(u.fanout, payload))
      else v.(pending := u.pending[c := Some(payload)])
  }

  // The second.
  function PutInQueue(u: Usage, c: nat, now: int, window: int): Usage
    requires c < |u.pending|
  {
    match u.pending[c]
    case None => u
    case Some(payload) =>
      u.(live := Pruned(u.live, Cutoff(now, window)) + [Item(now, payload)],
         pending := u.pending[c := None], queued := u.queued + [payload])
  }

  // Everything else: the subscribers' side, and items leaving the front of the queue.
  datatype Action =
    | First(caller: nat, payload: Bytes, enabled: bool)
    | Second(caller: nat, now: int, window: int)
    | Subscribers(op: Op)
    | Leave(count: nat)

  function Step(u: Usage, a: Action): Usage {
    match a
    case First(c, payload, enabled) => if c < |u.pending| then Offer(u, c, payload, enabled) else u
    case Second(c, now, window) => if c < |u.pending| then PutInQueue(u, c, now, window) else u
    case Subscribers(op) =>
      if op.OpPublish? then u
      else u.(fanout := Apply(u.fanout, op), live := if op.OpClear? then [] else u.live)
    case Leave(count) => u.(live := u.live[Least(count, |u.live|)..])
  }

  function New(callers: nat): Usage {
    Usage(EMPTY, [], seq(callers, i => None), [], [])
  }

  function RunFrom(u: Usage, actions: seq<Action>): Usage {
    if actions == [] then u else Step(RunFrom(u, actions[..|actions| - 1]), actions[|actions| - 1])
  }

  // ----- Every payload once -----

  function Waiting(pending: seq<Option<Bytes>>): multiset<Bytes> {
    if pending == [] then multiset{}
    else
      Waiting(pending[..|pending| - 1])
      + (if pending[|pending| - 1].Some? then multiset{pending[|pending| - 1].value} else multiset{})
  }

  lemma {:induction false} NobodyWaits(pending: seq<Option<Bytes>>)
    requires forall c :: 0 <= c < |pending| ==> pending[c].None?
    ensures Waiting(pending) == multiset{}
  {
    if pending != [] {
      NobodyWaits(pending[..|pending| - 1]);
    }
  }

  function WaitingAt(pending: seq<Option<Bytes>>, v: Bytes): nat {
    Waiting(pending)[v]
  }

  lemma WaitingLast(pending: seq<Option<Bytes>>, v: Bytes)
    requires pending != []
    ensures WaitingAt(pending, v)
            == WaitingAt(pending[..|pending| - 1], v) + (if pending[|pending| - 1] == Some(v) then 1 else 0)
  {
  }

  lemma {:induction false} WaitChangesAt(pending: seq<Option<Bytes>>, c: nat, payload: Bytes, v: Bytes)
    requires c < |pending| && pending[c].None?
    ensures WaitingAt(pending[c := Some(payload)], v) == WaitingAt(pending, v) + (if v == payload then 1 else 0)
    decreases |pending|
  {
    var n, changed := |pending| - 1, pending[c := Some(payload)];
    WaitingLast(pending, v);
    WaitingLast(changed, v);
    ChangedFront(pending, c, payload);
    if c < n {
      WaitChangesAt(pending[..n], c, payload, v);
    }
  }

  lemma ChangedFront(pending: seq<Option<Bytes>>, c: nat, payload: Bytes)
    requires c < |pending|
    ensures var n, changed := |pending| - 1, pending[c := Some(payload)];
            && changed[..n] == (if c == n then pending[..n] else pending[..n][c := Some(payload)])
            && changed[n] == if c == n then Some(payload) else pending[n]
  {
  }

  lemma WaitChanges(pending: seq<Option<Bytes>>, c: nat, payload: Bytes)
    requires c < |pending| && pending[c].None?
    ensures Waiting(pending[c := Some(payload)]) == Waiting(pending) + multiset{payload}
  {
    var after := Waiting(pending[c := Some(payload)]);
    forall v ensures after[v] == (Waiting(pending) + multiset{payload})[v] {
      WaitChangesAt(pending, c, payload, v);
    }
  }

  // Every payload offered was published, or queued, or is about to be queued, each exactly once ...
  ghost predicate Balanced(offered: seq<Bytes>, published: seq<Bytes>, queued: seq<Bytes>, waiting: multiset<Bytes>) {
    multiset(offered) == multiset(published) + multiset(queued) + waiting
  }

  // ... and what is in the queue is the end of what was queued.
  ghost predicate TailOf(live: seq<Item>, queued: seq<Bytes>) {
    |live| <= |queued| && forall i :: 0 <= i < |live| ==> live[i].payload == queued[|queued| - |live| + i]
  }

  ghost predicate OnceEach(u: Usage) {
    Balanced(u.offered, u.fanout.published, u.queued, Waiting(u.pending)) && TailOf(u.live, u.queued)
  }

  lemma CountSnoc(s: seq<Bytes>, x: Bytes)
    ensures multiset(s + [x]) == multiset(s) + multiset{x}
  {
  }

  // A new payload goes to one of the three.
  lemma OneMoreOffered(offered: seq<Bytes>, published: seq<Bytes>, queued: seq<Bytes>, waiting: multiset<Bytes>,
                       x: Bytes)
    requires Balanced(offered, published, queued, waiting)
    ensures Balanced(offered + [x], published + [x], queued, waiting)
    ensures Balanced(offered + [x], published, queued, waiting + multiset{x})
  {
    CountSnoc(offered, x);
    CountSnoc(published, x);
  }

  // A waiting payload is queued.
  lemma OneMoreQueued(offered: seq<Bytes>, published: seq<Bytes>, queued: seq<Bytes>, waiting: multiset<Bytes>,
                      x: Bytes)
    requires Balanced(offered, published, queued, waiting + multiset{x})
    ensures Balanced(offered, published, queued + [x], waiting)
  {
    CountSnoc(queued, x);
  }

  lemma PublishAdds(f: Fanout, payload: Bytes)
    requires f.subscribers != {}
    ensures Publish(f, payload).published == f.published + [payload]
  {
  }

  lemma OthersPublishNothing(f: Fanout, op: Op)
    requires !op.OpPublish?
    ensures Apply(f, op).published == f.published
  {
  }

  lemma OfferKeeps(u: Usage, c: nat, payload: Bytes, enabled: bool)
    requires OnceEach(u) && c < |u.pending|
    ensures OnceEach(Offer(u, c, payload, enabled))
  {
    if enabled && payload != [] && u.pending[c].None? {
      OneMoreOffered(u.offered, u.fanout.published, u.queued, Waiting(u.pending), payload);
      if u.fanout.subscribers != {} {
        PublishAdds(u.fanout, payload);
      } else {
        WaitChanges(u.pending, c, payload);
      }
    }
  }

  lemma TailDrops(live: seq<Item>, queued: seq<Bytes>, n: nat)
    requires TailOf(live, queued) && n <= |live|
    ensures TailOf(live[n..], queued)
  {
  }

  lemma TailGrows(live: seq<Item>, queued: seq<Bytes>, item: Item)
    requires TailOf(live, queued)
    ensures TailOf(live + [item], queued + [item.payload])
  {
  }

  lemma PutKeepsBalance(u: Usage, c: nat)
    requires OnceEach(u) && c < |u.pending| && u.pending[c].Some?
    ensures Balanced(u.offered, u.fanout.published, u.queued + [u.pending[c].value], Waiting(u.pending[c := None]))
  {
    var payload, freed := u.pending[c].value, u.pending[c := None];
    WaitChanges(freed, c, payload);
    assert freed[c := Some(payload)] == u.pending;
    OneMoreQueued(u.offered, u.fanout.published, u.queued, Waiting(freed), payload);
  }

  lemma PutKeeps(u: Usage, c: nat, now: int, window: int)
    requires OnceEach(u) && c < |u.pending|
    ensures OnceEach(PutInQueue(u, c, now, window))
  {
    if u.pending[c].Some? {
      PutKeepsBalance(u, c);
      var kept := Pruned(u.live, Cutoff(now, window));
      TailDrops(u.live, u.queued, |u.live| - |kept|);
      TailGrows(kept, u.queued, Item(now, u.pending[c].value));
    }
  }

  lemma LeavingKeeps(u: Usage, n: nat)
    requires OnceEach(u) && n <= |u.live|
    ensures OnceEach(u.(live := u.live[n..]))
  {
    TailDrops(u.live, u.queued, n);
  }

  lemma SubscribersKeep(u: Usage, op: Op)
    requires OnceEach(u)
    ensures OnceEach(Step(u, Subscribers(op)))
  {
    if !op.OpPublish? {
      OthersPublishNothing(u.fanout, op);
    }
  }

  lemma StepKeeps(u: Usage, a: Action)
    requires OnceEach(u)
    ensures OnceEach(Step(u, a))
  {
    match a
    case First(c, payload, enabled) => if c < |u.pending| { OfferKeeps(u, c, payload, enabled); }
    case Second(c, now, window) => if c < |u.pending| { PutKeeps(u, c, now, window); }
    case Subscribers(op) => SubscribersKeep(u, op);
    case Leave(count) => LeavingKeeps(u, Least(count, |u.live|));
  }

  // Whoever subscribes, unsubscribes, clears or pops between the two sections of a call.
  lemma {:induction false} EveryPayloadOnce(callers: nat, actions: seq<Action>)
    ensures OnceEach(RunFrom(New(callers), actions))
    decreases |actions|
  {
    if actions == [] {
      NobodyWaits(New(callers).pending);
    } else {
      EveryPayloadOnce(callers, actions[..|actions| - 1]);
      StepKeeps(RunFrom(New(callers), actions[..|actions| - 1]), actions[|actions| - 1]);
    }
  }

  // The subscribers' side of such a run is a run of its own, so its safety holds as well.
  lemma {:induction false} FanoutStaysSafe(callers: nat, actions: seq<Action>)
    ensures Inv(RunFrom(New(callers), actions).fanout)
    decreases |actions|
  {
    if actions != [] {
      var u := RunFrom(New(callers), actions[..|actions| - 1]);
      FanoutStaysSafe(callers, actions[..|actions| - 1]);
      match actions[|actions| - 1]
      case First(c, payload, enabled) => PublishKeeps(u.fanout, payload);
      case Subscribers(op) => ApplyKeeps(u.fanout, op);
      case _ =>
    }
  }

  // ----- When a payload is lost -----

  // In any state a run can reach: an offered payload reaches no subscriber and does not go to the
  // queue either, exactly if there are subscribers and all of them are full.
  lemma LostExactly(u: Usage, c: nat, payload: Bytes)
    requires Inv(u.fanout) && c < |u.pending| && u.pending[c].None? && payload != []
    ensures var v := Offer(u, c, payload, true);
            (v.pending == u.pending && v.queued == u.queued &&
             forall id :: id in u.fanout.channels ==> v.fanout.channels[id].sent == u.fanout.channels[id].sent) <==>
            (u.fanout.subscribers != {} && forall id :: id in u.fanout.subscribers ==> !HasRoom(u.fanout, id))
  {
    if u.fanout.subscribers != {} {
      FullSubscribersLoseIt(u.fanout, payload);
    } else {
      assert Offer(u, c, payload, true).pending[c].Some?;
    }
  }

  // The two sections of a call that nothing comes between amount to EnqueueAlone.
  lemma OfferUninterrupted(u: Usage, c: nat, payload: Bytes, enabled: bool, now: int, window: int)
    requires c < |u.pending| && u.pending[c].None?
    ensures var v := PutInQueue(Offer(u, c, payload, enabled), c, now, window);
            (v.fanout, v.live) == EnqueueAlone(u.fanout, u.live, payload, enabled, now, window)
  {
    var first := Offer(u, c, payload, enabled);
    if enabled && payload != [] && u.fanout.subscribers == {} {
      assert first.pending[c] == Some(payload) && first.live == u.live && first.fanout == u.fanout;
    } else {
      assert first.pending[c] == None;
    }
  }

  // What comes between the sections: the subscribers' side moves as it does by itself, only clearing
  // empties the queue, and the queue loses items from its front alone.
  lemma OthersMove(u: Usage, op: Op, count: nat)
    requires !op.OpPublish?
    ensures var v := Step(u, Subscribers(op));
            && v.fanout == Apply(u.fanout, op) && v.pending == u.pending && v.offered == u.offered
            && v.queued == u.queued && v.live == (if op.OpClear? then [] else u.live)
    ensures count <= |u.live| ==> Step(u, Leave(count)) == u.(live := u.live[count..])
  {
  }

  // A second section puts the payload in the queue, by age as any other call, and leaves the caller idle.
  lemma SecondQueues(u: Usage, c: nat, now: int, window: int)
    requires c < |u.pending| && u.pending[c].Some?
    ensures var v := Step(u, Second(c, now, window));
            && v.pending[c].None? && v.fanout == u.fanout && v.queued == u.queued + [u.pending[c].value]
            && v.live != [] && v.live[|v.live| - 1] == Item(now, u.pending[c].value)
            && LeftByAge(u.live, v.live[..|v.live| - 1], now, window)
  {
    var left := Pruned(u.live, Cutoff(now, window));
    PrunedIsByAge(u.live, now, window);
    NewestOff(left, Item(now, u.pending[c].value));
  }
}
