/** The usage queue: a buffer with a moving head, pruned by age and compacted now and then, which
    behaves as a plain first-in first-out queue. */
module UsageQueue {

  newtype byte = x: int | 0 <= x < 256
  type Bytes = seq<byte>

  // Times are in nanoseconds.
  datatype Item = Item(at: int, payload: Bytes)

  const SECOND := 1_000_000_000
  const DEFAULT_RETENTION_SECONDS := 60
  const MAX_RETENTION_SECONDS := 3600

  // SetRetentionSeconds.
  function NormalizedRetention(value: int): (r: int)
    ensures 0 < r <= MAX_RETENTION_SECONDS
    ensures 0 < value <= MAX_RETENTION_SECONDS ==> r == value
    ensures value <= 0 ==> r == 60
    ensures value > MAX_RETENTION_SECONDS ==> r == 3600
  {
    if value <= 0 then DEFAULT_RETENTION_SECONDS
    else if value > MAX_RETENTION_SECONDS then MAX_RETENTION_SECONDS
    else value
  }

  function Cutoff(now: int, window: int): int {
    now - (if window <= 0 then DEFAULT_RETENTION_SECONDS else window) * SECOND
  }

  // ----- The queue as a sequence -----

  // Without the items at the front that are older than the cutoff.
  function Pruned(live: seq<Item>, cutoff: int): (r: seq<Item>)
    ensures |r| <= |live| && r == live[|live| - |r|..]
  {
    if live != [] && live[0].at < cutoff then Pruned(live[1..], cutoff) else live
  }

  function Payloads(items: seq<Item>): (r: seq<Bytes>)
    ensures |r| == |items| && forall i :: 0 <= i < |items| ==> r[i] == items[i].payload
  {
    seq(|items|, i requires 0 <= i < |items| => items[i].payload)
  }

  function Least(a: nat, b: nat): nat {
    if a < b then a else b
  }

  ghost predicate Ordered(items: seq<Item>) {
    forall i, j :: 0 <= i < j < |items| ==> items[i].at <= items[j].at
  }

  // The items that are not older than the cutoff, wherever they stand.
  function Unexpired(items: seq<Item>, cutoff: int): seq<Item> {
    if items == [] then []
    else (if items[0].at < cutoff then [] else [items[0]]) + Unexpired(items[1..], cutoff)
  }

  lemma {:induction false} AllUnexpired(items: seq<Item>, cutoff: int)
    requires forall i :: 0 <= i < |items| ==> items[i].at >= cutoff
    ensures Unexpired(items, cutoff) == items
  {
    if items != [] {
      AllUnexpired(items[1..], cutoff);
    }
  }

  // No expired item stands behind one that is not.
  ghost predicate ExpiredFirst(live: seq<Item>, cutoff: int) {
    forall i, j :: 0 <= i < j < |live| && live[j].at < cutoff ==> live[i].at < cutoff
  }

  lemma {:induction false} UnexpiredAre(live: seq<Item>, cutoff: int, i: nat)
    requires i < |Unexpired(live, cutoff)|
    ensures Unexpired(live, cutoff)[i].at >= cutoff
  {
    if live[0].at < cutoff {
      UnexpiredAre(live[1..], cutoff, i);
    } else if i > 0 {
      UnexpiredAre(live[1..], cutoff, i - 1);
    }
  }

  // Behind an item that is not expired pruning leaves everything.
  lemma SomeLeftBehind(live: seq<Item>, cutoff: int, i: nat, j: nat)
    requires i < j < |live| && live[i].at >= cutoff && live[j].at < cutoff && live[0].at >= cutoff
    ensures Pruned(live, cutoff) != Unexpired(live, cutoff)
  {
    if Pruned(live, cutoff) == Unexpired(live, cutoff) {
      UnexpiredAre(live, cutoff, j);
    }
  }

  // Pruning the front removes exactly what expired if and only if no expired item stands behind one
  // that is not, as can happen to calls that read the clock and then wait for the lock.
  lemma {:induction false} PruningIsExact(live: seq<Item>, cutoff: int)
    ensures Pruned(live, cutoff) == Unexpired(live, cutoff) <==> ExpiredFirst(live, cutoff)
  {
    if live != [] {
      if live[0].at < cutoff {
        PruningIsExact(live[1..], cutoff);
        FirstExpired(live, cutoff);
      } else if j: nat :| j < |live| && live[j].at < cutoff {
        SomeLeftBehind(live, cutoff, 0, j);
      } else {
        AllUnexpired(live, cutoff);
      }
    }
  }

  lemma FirstExpired(live: seq<Item>, cutoff: int)
    requires live != [] && live[0].at < cutoff
    ensures ExpiredFirst(live, cutoff) <==> ExpiredFirst(live[1..], cutoff)
  {
    var rest := live[1..];
    forall i, j | ExpiredFirst(live, cutoff) && 0 <= i < j < |rest| && rest[j].at < cutoff ensures rest[i].at < cutoff {
      assert rest[i] == live[i + 1] && rest[j] == live[j + 1];
    }
    forall i, j | ExpiredFirst(rest, cutoff) && 0 <= i < j < |live| && live[j].at < cutoff ensures live[i].at < cutoff {
      if i > 0 {
        assert rest[i - 1] == live[i] && rest[j - 1] == live[j];
      }
    }
  }

  lemma PrunedStep(items: seq<Item>, head: nat, cutoff: int)
    requires head < |items|
    ensures Pruned(items[head..], cutoff) ==
            if items[head].at < cutoff then Pruned(items[head + 1..], cutoff) else items[head..]
  {
    assert items[head..][1..] == items[head + 1..];
  }

  lemma PrunedDone(items: seq<Item>, head: nat, cutoff: int)
    requires head <= |items| && (head < |items| ==> items[head].at >= cutoff)
    ensures Pruned(items[head..], cutoff) == items[head..]
  {
  }

  lemma NothingThere(live: seq<Item>)
    requires |live| == 0
    ensures live == [] && Payloads(live[..0]) == [] && live[0..] == []
  {
  }

  // In order, and nothing from later than now: so it is under a clock that does not go back.
  ghost predicate InOrder(live: seq<Item>, now: int) {
    Ordered(live) && forall i :: 0 <= i < |live| ==> live[i].at <= now
  }

  // Then pruning is exact for every window, and stays so.
  lemma OrderMakesExact(live: seq<Item>, cutoff: int, now: int)
    requires InOrder(live, now)
    ensures Pruned(live, cutoff) == Unexpired(live, cutoff) && InOrder(Pruned(live, cutoff), now)
  {
    PruningIsExact(live, cutoff);
    RestInOrder(live, |live| - |Pruned(live, cutoff)|, now);
  }

  lemma RestInOrder(live: seq<Item>, n: nat, now: int)
    requires InOrder(live, now) && n <= |live|
    ensures InOrder(live[n..], now)
  {
  }

  lemma MoreInOrder(live: seq<Item>, item: Item, now: int)
    requires InOrder(live, now) && item.at == now
    ensures InOrder(live + [item], now)
  {
  }

  lemma OrderKept(live: seq<Item>, cutoff: int, now: int, n: nat, payload: Bytes)
    requires n <= |Pruned(live, cutoff)|
    ensures InOrder(live, now) ==>
              && Pruned(live, cutoff) == Unexpired(live, cutoff)
              && InOrder(Pruned(live, cutoff)[n..], now) && InOrder(Pruned(live, cutoff) + [Item(now, payload)], now)
  {
    if InOrder(live, now) {
      OrderMakesExact(live, cutoff, now);
      RestInOrder(Pruned(live, cutoff), n, now);
      MoreInOrder(Pruned(live, cutoff), Item(now, payload), now);
    }
  }

  // ----- What stays, by age -----

  // Not older than the window: that many seconds where it is positive, else a minute.
  predicate Young(item: Item, now: int, window: int) {
    now - item.at <= (if window > 0 then window else 60) * 1_000_000_000
  }

  // Of the items that were there just those before the first young one are gone.
  ghost predicate OldFrontGone(was: seq<Item>, left: seq<Item>, now: int, window: int) {
    && |left| <= |was| && left == was[|was| - |left|..]
    && (forall i :: 0 <= i < |was| - |left| ==> !Young(was[i], now, window))
    && (left != [] ==> Young(left[0], now, window))
  }

  // Just the young ones are left.
  ghost predicate YoungLeft(was: seq<Item>, left: seq<Item>, now: int, window: int) {
    && |left| <= |was| && left == was[|was| - |left|..]
    && forall i :: 0 <= i < |was| ==> (i >= |was| - |left| <==> Young(was[i], now, window))
  }

  lemma CutoffIsAge(item: Item, now: int, window: int)
    ensures item.at < Cutoff(now, window) <==> !Young(item, now, window)
  {
  }

  lemma {:induction false} PrunedByAge(live: seq<Item>, now: int, window: int)
    ensures OldFrontGone(live, Pruned(live, Cutoff(now, window)), now, window)
  {
    if live != [] {
      CutoffIsAge(live[0], now, window);
      if live[0].at < Cutoff(now, window) {
        PrunedByAge(live[1..], now, window);
        OneMoreGone(live, Pruned(live[1..], Cutoff(now, window)), now, window);
      }
    }
  }

  lemma OneMoreGone(live: seq<Item>, left: seq<Item>, now: int, window: int)
    requires live != [] && !Young(live[0], now, window) && OldFrontGone(live[1..], left, now, window)
    ensures OldFrontGone(live, left, now, window)
  {
    var rest := live[1..];
    forall i | 0 <= i < |live| - |left| ensures !Young(live[i], now, window) {
      if i > 0 {
        assert live[i] == rest[i - 1];
      }
    }
  }

  // In order, that is: a record stays exactly if it is not older than the window.
  lemma InOrderYoungStay(live: seq<Item>, left: seq<Item>, now: int, window: int)
    requires Ordered(live) && OldFrontGone(live, left, now, window)
    ensures YoungLeft(live, left, now, window)
  {
    var n := |live| - |left|;
    forall i | n <= i < |live| ensures Young(live[i], now, window) {
      assert live[n] == left[0];
      assert i > n ==> live[n].at <= live[i].at;
    }
  }

  // What a pop takes and leaves of what is left: room for that many, the oldest first.
  ghost predicate TakenFrom(left: seq<Item>, out: seq<Bytes>, after: seq<Item>, count: int) {
    && |out| <= |left| && |out| == (if count < |left| then count else |left|)
    && (forall i :: 0 <= i < |out| ==> out[i] == left[i].payload)
    && after == left[|out|..]
  }

  // A pop from a queue that held was: by age, and exactly by age where the queue was in order.
  ghost predicate PoppedByAge(was: seq<Item>, out: seq<Bytes>, after: seq<Item>, count: int, now: int, window: int) {
    exists left ::
      && OldFrontGone(was, left, now, window) && TakenFrom(left, out, after, count)
      && (Ordered(was) ==> YoungLeft(was, left, now, window))
  }

  // What is left by an operation that takes nothing.
  ghost predicate LeftByAge(was: seq<Item>, left: seq<Item>, now: int, window: int) {
    OldFrontGone(was, left, now, window) && (Ordered(was) ==> YoungLeft(was, left, now, window))
  }

  lemma PrunedIsByAge(was: seq<Item>, now: int, window: int)
    ensures LeftByAge(was, Pruned(was, Cutoff(now, window)), now, window)
  {
    PrunedByAge(was, now, window);
    if Ordered(was) {
      InOrderYoungStay(was, Pruned(was, Cutoff(now, window)), now, window);
    }
  }

  lemma NewestOff(left: seq<Item>, item: Item)
    ensures (left + [item])[..|left + [item]| - 1] == left && (left + [item])[|left + [item]| - 1] == item
  {
  }

  lemma PopIsByAge(was: seq<Item>, count: int, now: int, window: int)
    requires count > 0
    ensures var left := Pruned(was, Cutoff(now, window));
            var n := Least(count, |left|);
            PoppedByAge(was, Payloads(left[..n]), left[n..], count, now, window)
  {
    var left := Pruned(was, Cutoff(now, window));
    PrunedIsByAge(was, now, window);
    assert TakenFrom(left, Payloads(left[..Least(count, |left|)]), left[Least(count, |left|)..], count);
  }

  class Queue {
    var items: seq<Item>
    var head: nat

    ghost predicate Valid()
      reads this
    {
      head <= |items|
    }

    // What is in the queue, oldest first.
    ghost function Live(): seq<Item>
      requires head <= |items|
      reads this
    {
      items[head..]
    }

    // Not more than half of a long buffer is dead.
    ghost predicate Compact()
      reads this
    {
      head == 0 || (head < 1024 && 2 * head < |items|)
    }

    constructor ()
      ensures Valid() && Live() == [] && Compact()
    {
      items, head := [], 0;
    }

    method Clear()
      modifies this`items, this`head
      ensures Valid() && Live() == [] && Compact()
    {
      items, head := [], 0;
    }

    method SkipExpired(cutoff: int)
      requires head <= |items|
      modifies this`head
      ensures head <= |items| && Live() == Pruned(old(Live()), cutoff)
    {
      ghost var left := Pruned(items[head..], cutoff);
      while head < |items| && items[head].at < cutoff
        invariant head <= |items|
        invariant Pruned(items[head..], cutoff) == left
        decreases |items| - head
      {
        PrunedStep(items, head, cutoff);
        head := head + 1;
      }
      PrunedDone(items, head, cutoff);
    }

    // pruneLocked.
    method Prune(now: int, window: int)
      requires Valid()
      modifies this
      ensures Valid() && Live() == Pruned(old(Live()), Cutoff(now, window))
    {
      var cutoff := Cutoff(now, window);
      if head >= |items| {
        assert Live() == [];
        items, head := [], 0;
      } else {
        SkipExpired(cutoff);
      }
    }

    // maybeCompactLocked: invisible from outside.
    method MaybeCompact()
      requires Valid()
      modifies this`items, this`head
      ensures Valid() && Live() == old(Live()) && Compact()
    {
      if head == 0 {
        return;
      }
      if head >= |items| {
        items, head := [], 0;
        return;
      }
      if head < 1024 && head * 2 < |items| {
        return;
      }
      items, head := items[head..], 0;
    }

    method Enqueue(payload: Bytes, now: int, window: int)
      requires Valid()
      modifies this
      ensures Valid() && Compact()
      ensures Live() == Pruned(old(Live()), Cutoff(now, window)) + [Item(now, payload)]
      ensures InOrder(old(Live()), now) ==>
                InOrder(Live(), now) && Live() == Unexpired(old(Live()), Cutoff(now, window)) + [Item(now, payload)]
      ensures Live() != [] && Live()[|Live()| - 1] == Item(now, payload)
      ensures LeftByAge(old(Live()), Live()[..|Live()| - 1], now, window)
    {
      ghost var left := Pruned(Live(), Cutoff(now, window));
      PrunedIsByAge(Live(), now, window);
      NewestOff(left, Item(now, payload));
      OrderKept(Live(), Cutoff(now, window), now, 0, payload);
      Push(payload, now, window);
    }

    method Push(payload: Bytes, now: int, window: int)
      requires Valid()
      modifies this
      ensures Valid() && Compact()
      ensures Live() == Pruned(old(Live()), Cutoff(now, window)) + [Item(now, payload)]
    {
      Prune(now, window);
      Append(Item(now, payload));
      MaybeCompact();
    }

    method Append(item: Item)
      requires Valid()
      modifies this`items
      ensures Valid() && Live() == old(Live()) + [item]
    {
      items := items + [item];
    }

    // The payloads of the first count items.
    method Front(count: nat) returns (out: seq<Bytes>)
      requires head + count <= |items|
      ensures out == Payloads(Live()[..count])
    {
      out := [];
      for i := 0 to count
        invariant out == Payloads(Live()[..i])
      {
        out := out + [items[head + i].payload];
        assert Live()[..i + 1] == Live()[..i] + [items[head + i]];
      }
    }

    // popOldest.
    method PopOldest(count: int, now: int, window: int) returns (out: seq<Bytes>)
      requires Valid() && count > 0
      modifies this
      ensures Valid() && Compact()
      ensures var live := Pruned(old(Live()), Cutoff(now, window));
              var n := Least(count, |live|);
              out == Payloads(live[..n]) && Live() == live[n..]
      ensures InOrder(old(Live()), now) ==>
                InOrder(Live(), now)
                && Pruned(old(Live()), Cutoff(now, window)) == Unexpired(old(Live()), Cutoff(now, window))
      ensures PoppedByAge(old(Live()), out, Live(), count, now, window)
    {
      PopIsByAge(Live(), count, now, window);
      ghost var kept := Pruned(Live(), Cutoff(now, window));
      OrderKept(Live(), Cutoff(now, window), now, Least(count, |kept|), []);
      Prune(now, window);
      out := PopFront(count);
      MaybeCompact();
    }

    // The first items, as many as there are.
    method PopFront(count: int) returns (out: seq<Bytes>)
      requires Valid() && count > 0
      modifies this`items, this`head
      ensures Valid()
      ensures var n := Least(count, |old(Live())|); out == Payloads(old(Live())[..n]) && Live() == old(Live())[n..]
    {
      var available := |items| - head;
      if available <= 0 {
        NothingThere(Live());
        items, head := [], 0;
        return [];
      }
      out := TakeFront(if count > available then available else count);
    }

    method TakeFront(count: nat) returns (out: seq<Bytes>)
      requires Valid() && head + count <= |items|
      modifies this`head
      ensures Valid() && out == Payloads(old(Live())[..count]) && Live() == old(Live())[count..]
    {
      ghost var live := Live();
      out := Front(count);
      head := head + count;
      assert Live() == live[count..];
    }

    method PeekAll(now: int, window: int) returns (out: seq<Bytes>)
      requires Valid()
      modifies this
      ensures Valid()
      ensures Live() == Pruned(old(Live()), Cutoff(now, window)) && out == Payloads(Live())
      ensures InOrder(old(Live()), now) ==>
                InOrder(Live(), now) && Live() == Unexpired(old(Live()), Cutoff(now, window))
      ensures LeftByAge(old(Live()), Live(), now, window)
      ensures |out| == |Live()| && forall i :: 0 <= i < |out| ==> out[i] == Live()[i].payload
    {
      PrunedIsByAge(Live(), now, window);
      OrderKept(Live(), Cutoff(now, window), now, 0, []);
      Prune(now, window);
      out := CopyOut();
    }

    method CopyOut() returns (out: seq<Bytes>)
      requires Valid()
      ensures out == Payloads(Live())
    {
      var available := |items| - head;
      if available <= 0 {
        NothingThere(Live());
        return [];
      }
      out := Front(available);
      assert Live()[..available] == Live();
    }
  }
}
