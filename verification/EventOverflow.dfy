/** What a full channel costs: when a call of Emit that is told to drop the oldest loses its own
    payload instead. */
module EventOverflow {
  import opened UsageQueue
  import opened EventWriter

  // Actions of everyone but one emitter.
  ghost predicate Spares(actions: seq<Action>, e: nat) {
    forall a :: a in actions ==> a != Advance(e) && !(a.Emit? && a.emitter == e)
  }

  lemma StepSpares(w: State, a: Action, e: nat)
    requires e < |w.emitters| && a != Advance(e) && !(a.Emit? && a.emitter == e)
    ensures var w' := Step(w, a); |w'.emitters| == |w.emitters| && w'.emitters[e] == w.emitters[e] && w'.cfg == w.cfg
  {
  }

  lemma {:induction false} OthersSpare(w: State, actions: seq<Action>, e: nat)
    requires e < |w.emitters| && Spares(actions, e)
    ensures var w' := RunFrom(w, actions);
            |w'.emitters| == |w.emitters| && w'.emitters[e] == w.emitters[e] && w'.cfg == w.cfg
    decreases |actions|
  {
    if actions != [] {
      var before := actions[..|actions| - 1];
      assert forall a :: a in before ==> a in actions;
      OthersSpare(w, before, e);
      StepSpares(RunFrom(w, before), actions[|actions| - 1], e);
    }
  }

  // ----- A call among others -----

  // What a call finds at its eviction and at its second try, when others do o1 before the first
  // and o2 and o3 around the counting between the two.
  function AtEviction(w: State, e: nat, o1: seq<Action>): State
    requires e < |w.emitters|
  {
    RunFrom(EmitterStep(w, e), o1)
  }

  function AtSecondTry(evicting: State, e: nat, o2: seq<Action>, o3: seq<Action>): State {
    RunFrom(Step(RunFrom(Step(evicting, Advance(e)), o2), Advance(e)), o3)
  }

  // The state after the call's last attempt to get its payload in.
  function CallEnd(w: State, e: nat, o1: seq<Action>, o2: seq<Action>, o3: seq<Action>): State
    requires e < |w.emitters|
  {
    if !Full(w) then EmitterStep(w, e)
    else
      var evicting := AtEviction(w, e, o1);
      Step(if evicting.core.ch == [] then evicting else AtSecondTry(evicting, e, o2, o3), Advance(e))
  }

  lemma EvictsOrLoses(evicting: State, e: nat)
    requires e < |evicting.emitters| && evicting.emitters[e].TryEvict?
    ensures var w' := Step(evicting, Advance(e));
            && |w'.emitters| == |evicting.emitters|
            && w'.emitters[e] ==
              if evicting.core.ch == [] then CountLost else CountEvicted(evicting.emitters[e].payload)
  {
  }

  lemma CountsEviction(w: State, e: nat)
    requires e < |w.emitters| && w.emitters[e].CountEvicted?
    ensures var w' := Step(w, Advance(e));
            |w'.emitters| == |w.emitters| && w'.emitters[e] == SecondTry(w.emitters[e].payload)
            && w'.core.ch == w.core.ch
  {
  }

  lemma SendsOrLoses(w: State, e: nat)
    requires e < |w.emitters| && (w.emitters[e].SecondTry? || (w.emitters[e].FirstTry? && !Full(w)))
    ensures var w' := Step(w, Advance(e));
            && |w'.emitters| == |w.emitters|
            && w'.emitters[e] == (if Full(w) then CountLost else CountSent)
            && w'.past.sent == (if Full(w) then w.past.sent else w.past.sent + [w.emitters[e].payload])
  {
  }

  lemma SecondTryReached(evicting: State, e: nat, o2: seq<Action>, o3: seq<Action>)
    requires e < |evicting.emitters| && evicting.emitters[e].TryEvict? && evicting.core.ch != []
    requires Spares(o2, e) && Spares(o3, e)
    ensures var second := AtSecondTry(evicting, e, o2, o3);
            && |second.emitters| == |evicting.emitters|
            && second.emitters[e] == SecondTry(evicting.emitters[e].payload)
  {
    var evicted := Step(evicting, Advance(e));
    EvictsOrLoses(evicting, e);
    OthersSpare(evicted, o2, e);
    var counting := RunFrom(evicted, o2);
    CountsEviction(counting, e);
    OthersSpare(Step(counting, Advance(e)), o3, e);
  }

  lemma EvictionReached(w: State, e: nat, o1: seq<Action>)
    requires e < |w.emitters| && w.emitters[e].FirstTry? && w.cfg.dropOldest && Full(w) && Spares(o1, e)
    ensures var evicting := AtEviction(w, e, o1);
            && |evicting.emitters| == |w.emitters|
            && evicting.emitters[e] == TryEvict(w.emitters[e].payload)
  {
    OthersSpare(EmitterStep(w, e), o1, e);
  }

  // From any state and whatever others do meanwhile: a call that finds the channel full and is told
  // to drop the oldest loses its own payload exactly if the channel is empty by the time it evicts or
  // full again by the time it tries a second time; otherwise the payload gets in.
  lemma LosesOwnExactly(w: State, e: nat, o1: seq<Action>, o2: seq<Action>, o3: seq<Action>)
    requires e < |w.emitters| && w.emitters[e].FirstTry? && w.cfg.dropOldest
    requires Spares(o1, e) && Spares(o2, e) && Spares(o3, e)
    ensures var evicting := AtEviction(w, e, o1);
            var end := CallEnd(w, e, o1, o2, o3);
            && |end.emitters| == |w.emitters| && (end.emitters[e].CountLost? || end.emitters[e].CountSent?)
            && (end.emitters[e].CountLost? <==>
                Full(w) && (evicting.core.ch == [] || Full(AtSecondTry(evicting, e, o2, o3))))
            && (end.emitters[e].CountSent? ==>
                |end.past.sent| > 0 && end.past.sent[|end.past.sent| - 1] == w.emitters[e].payload)
  {
    if Full(w) {
      var evicting := AtEviction(w, e, o1);
      EvictionReached(w, e, o1);
      if evicting.core.ch == [] {
        EvictsOrLoses(evicting, e);
      } else {
        SecondTryReached(evicting, e, o2, o3);
        SendsOrLoses(AtSecondTry(evicting, e, o2, o3), e);
      }
    } else {
      SendsOrLoses(w, e);
    }
  }

  // ----- A single emitter -----

  // The place an only emitter makes by evicting is still there when it tries again.
  ghost predicate RoomKept(w: State) {
    |w.emitters| == 1 && w.cfg.channelSize > 0 && |w.core.ch| <= w.cfg.channelSize
    && (w.emitters[0].CountEvicted? || w.emitters[0].SecondTry? ==> !Full(w))
  }

  lemma StepKeepsRoom(w: State, a: Action)
    requires RoomKept(w)
    ensures RoomKept(Step(w, a))
  {
  }

  lemma {:induction false} RunKeepsRoom(w: State, actions: seq<Action>)
    requires RoomKept(w)
    ensures RoomKept(RunFrom(w, actions))
    decreases |actions|
  {
    if actions != [] {
      RunKeepsRoom(w, actions[..|actions| - 1]);
      StepKeepsRoom(RunFrom(w, actions[..|actions| - 1]), actions[|actions| - 1]);
    }
  }

  // With one emitter, in every reachable state, its own payload is lost exactly if the consumer has
  // emptied the channel between the first try and the eviction.
  lemma OneEmitterLosesOwn(cfg: Config, actions: seq<Action>, o1: seq<Action>, o2: seq<Action>, o3: seq<Action>)
    requires cfg.dropOldest && Spares(o1, 0) && Spares(o2, 0) && Spares(o3, 0)
    requires var w := RunFrom(New(cfg, 1), actions); |w.emitters| == 1 && w.emitters[0].FirstTry?
    ensures var w := RunFrom(New(cfg, 1), actions);
            var end := CallEnd(w, 0, o1, o2, o3);
            |end.emitters| == 1 && (end.emitters[0].CountLost? <==> Full(w) && AtEviction(w, 0, o1).core.ch == [])
  {
    var w := RunFrom(New(cfg, 1), actions);
    CfgStays(cfg, 1, actions);
    RunKeepsRoom(New(cfg, 1), actions);
    LosesOwnExactly(w, 0, o1, o2, o3);
    if Full(w) {
      var evicting := AtEviction(w, 0, o1);
      EvictionReached(w, 0, o1);
      StepKeepsRoom(w, Advance(0));
      RunKeepsRoom(EmitterStep(w, 0), o1);
      if evicting.core.ch != [] {
        SecondTryReached(evicting, 0, o2, o3);
        var evicted := Step(evicting, Advance(0));
        StepKeepsRoom(evicting, Advance(0));
        RunKeepsRoom(evicted, o2);
        StepKeepsRoom(RunFrom(evicted, o2), Advance(0));
        RunKeepsRoom(Step(RunFrom(evicted, o2), Advance(0)), o3);
      }
    }
  }

  // ----- It happens, whatever the size of the channel -----

  // n calls of the emitter one after the other, and n payloads refused by the consumer.
  function FillActions(p: Bytes, n: nat): seq<Action> {
    if n == 0 then [] else FillActions(p, n - 1) + [Emit(0, p), Advance(0), Advance(0)]
  }

  function DrainActions(n: nat): seq<Action> {
    if n == 0 then [] else [Take, Judge(false)] + DrainActions(n - 1)
  }

  lemma RunThree(w: State, a: Action, b: Action, c: Action)
    ensures RunFrom(w, [a, b, c]) == Step(Step(Step(w, a), b), c)
  {
    assert [a, b, c] == [a, b] + [c];
    RunConcat(w, [a, b], [c]);
    RunPair(w, a, b);
    RunOne(Step(Step(w, a), b), c);
  }

  // A stopped consumer, an idle emitter and n payloads in the channel.
  ghost predicate Filled(w: State, cfg: Config, n: nat) {
    && w.cfg == Normalized(cfg) && w.emitters == [Idle] && w.consumer.Stopped?
    && |w.core.ch| == n && w.core.queued == n && w.core.dropped == 0 && w.past.emits == n && Bad(w.past.left) == 0
  }

  lemma FillOne(w: State, cfg: Config, n: nat, p: Bytes)
    requires Filled(w, cfg, n) && n < w.cfg.channelSize && p != []
    ensures Filled(Step(Step(Step(w, Emit(0, p)), Advance(0)), Advance(0)), cfg, n + 1)
  {
    var begun := Step(w, Emit(0, p));
    assert begun.emitters == [FirstTry(p)];
    var sent := Step(begun, Advance(0));
    assert sent.emitters == [CountSent];
  }

  lemma {:induction false} Fill(cfg: Config, p: Bytes, n: nat)
    requires p != [] && n <= Normalized(cfg).channelSize
    ensures Filled(RunFrom(New(cfg, 1), FillActions(p, n)), cfg, n)
    decreases n
  {
    if n > 0 {
      var w := RunFrom(New(cfg, 1), FillActions(p, n - 1));
      Fill(cfg, p, n - 1);
      FillOne(w, cfg, n - 1, p);
      RunConcat(New(cfg, 1), FillActions(p, n - 1), [Emit(0, p), Advance(0), Advance(0)]);
      RunThree(w, Emit(0, p), Advance(0), Advance(0));
    }
  }

  // Nothing but the channel, the consumer's history and its dead letters changed.
  ghost predicate DrainedBy(w: State, v: State) {
    && v.cfg == w.cfg && v.emitters == w.emitters && v.consumer.Waiting? && v.past.emits == w.past.emits
    && v.core.queued == w.core.queued && v.core.dropped == w.core.dropped && Bad(v.past.left) == Bad(w.past.left)
  }

  lemma DrainOne(w: State)
    requires w.consumer.Waiting? && w.core.ch != []
    ensures var v := Step(Step(w, Take), Judge(false)); DrainedBy(w, v) && v.core.ch == w.core.ch[1..]
  {
    OneMore(w.past.left, Fate(w.core.ch[0], true));
  }

  lemma {:induction false} Drain(w: State, n: nat)
    requires w.consumer.Waiting? && |w.core.ch| == n
    ensures var v := RunFrom(w, DrainActions(n)); DrainedBy(w, v) && v.core.ch == []
    decreases n
  {
    if n > 0 {
      var v := Step(Step(w, Take), Judge(false));
      DrainOne(w);
      Drain(v, n - 1);
      RunConcat(w, [Take, Judge(false)], DrainActions(n - 1));
      RunPair(w, Take, Judge(false));
    }
  }

  function LossActions(p: Bytes, n: nat): seq<Action> {
    FillActions(p, n) + [Emit(0, p), Advance(0), Start] + DrainActions(n) + [Advance(0), Advance(0)]
  }

  lemma FullAndTried(w: State, cfg: Config, n: nat, p: Bytes)
    requires Filled(w, cfg, n) && n == w.cfg.channelSize && cfg.dropOldest && p != []
    ensures var v := Step(Step(Step(w, Emit(0, p)), Advance(0)), Start);
            && v.cfg == w.cfg && v.emitters == [TryEvict(p)] && v.consumer.Waiting? && v.core == w.core
            && v.past.emits == n + 1 && v.past.left == w.past.left
  {
    var begun := Step(w, Emit(0, p));
    assert begun.emitters == [FirstTry(p)];
  }

  lemma LosesItself(w: State, p: Bytes)
    requires w.emitters == [TryEvict(p)] && w.core.ch == []
    ensures var v := Step(Step(w, Advance(0)), Advance(0));
            && v.core == w.core.(dropped := w.core.dropped + 1) && v.past == w.past && v.emitters == [Idle]
  {
    assert Step(w, Advance(0)).emitters == [CountLost];
  }

  // A channel of any size: filled, found full, emptied by the consumer before the eviction. The
  // newest payload is the one that is lost, with the channel empty and nothing evicted.
  lemma NewestMayBeLost(cfg: Config, p: Bytes)
    requires cfg.dropOldest && p != []
    ensures var n := Normalized(cfg).channelSize;
            var w := RunFrom(New(cfg, 1), LossActions(p, n));
            && w.past.emits == n + 1 && w.core.queued == n && w.core.dropped == 1
            && w.core.ch == [] && Bad(w.past.left) == 0 && w.emitters == [Idle]
  {
    var n, start := Normalized(cfg).channelSize, New(cfg, 1);
    var full := RunFrom(start, FillActions(p, n));
    Fill(cfg, p, n);
    FullAndTried(full, cfg, n, p);
    RunThree(full, Emit(0, p), Advance(0), Start);
    var tried := RunFrom(full, [Emit(0, p), Advance(0), Start]);
    Drain(tried, n);
    var drained := RunFrom(tried, DrainActions(n));
    LosesItself(drained, p);
    RunPair(drained, Advance(0), Advance(0));
    RunConcat(start, FillActions(p, n), [Emit(0, p), Advance(0), Start]);
    RunConcat(start, FillActions(p, n) + [Emit(0, p), Advance(0), Start], DrainActions(n));
    RunConcat(start, FillActions(p, n) + [Emit(0, p), Advance(0), Start] + DrainActions(n), [Advance(0), Advance(0)]);
  }
}
