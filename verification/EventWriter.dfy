/** The request event writer: any number of emitters put payloads into a bounded channel, one
    consumer normalises them, batches them and stores the batches. Every access to the channel and
    every counter update is a step of its own. */
module EventWriter {
  import opened UsageQueue

  datatype Config = Config(channelSize: int, batchSize: int, dropOldest: bool)

  // NewWriter.
  function Normalized(cfg: Config): (r: Config)
    ensures r.channelSize > 0 && r.batchSize > 0
    ensures cfg.channelSize > 0 && cfg.batchSize > 0 ==> r == cfg
    ensures cfg.channelSize <= 0 ==> r.channelSize == 4096
    ensures cfg.batchSize <= 0 ==> r.batchSize == 100
  {
    cfg.(channelSize := if cfg.channelSize <= 0 then 4096 else cfg.channelSize,
         batchSize := if cfg.batchSize <= 0 then 100 else cfg.batchSize)
  }

  // ----- Storing a batch -----

  // What executing the insert says of one event.
  datatype Row = Affected | Unaffected | Broken

  datatype Stored = Stored(inserted: nat, skipped: nat) | Refused

  function Tally(rows: seq<Row>): Stored {
    if rows == [] then Stored(0, 0)
    else
      match Tally(rows[..|rows| - 1])
      case Refused => Refused
      case Stored(i, s) =>
        match rows[|rows| - 1]
        case Affected => Stored(i + 1, s)
        case Unaffected => Stored(i, s + 1)
        case Broken => Refused
  }

  // A batch is stored whole or not at all.
  function Insertion(rows: seq<Row>, committed: bool): Stored {
    if committed then Tally(rows) else Refused
  }

  lemma {:induction false} TallySums(rows: seq<Row>)
    ensures Tally(rows).Stored? ==> Tally(rows).inserted + Tally(rows).skipped == |rows|
    ensures Tally(rows) == Refused <==> Broken in rows
  {
    if rows != [] {
      TallySums(rows[..|rows| - 1]);
      assert rows == rows[..|rows| - 1] + [rows[|rows| - 1]];
    }
  }

  // Inserted are the rows the insert affected, skipped the others.
  lemma {:induction false} TallyCounts(rows: seq<Row>)
    requires Tally(rows).Stored?
    ensures Tally(rows) == Stored(multiset(rows)[Affected], multiset(rows)[Unaffected])
  {
    if rows != [] {
      TallyCounts(rows[..|rows| - 1]);
      assert rows == rows[..|rows| - 1] + [rows[|rows| - 1]];
    }
  }

  lemma {:induction false} BrokenStays(rows: seq<Row>, i: nat)
    requires i <= |rows| && Tally(rows[..i]).Refused?
    ensures Tally(rows).Refused?
    decreases |rows| - i
  {
    if i == |rows| {
      assert rows[..i] == rows;
    } else {
      assert rows[..i + 1][..i] == rows[..i];
      BrokenStays(rows, i + 1);
    }
  }

  // InsertEvents.
  method InsertEvents(rows: seq<Row>, committed: bool) returns (result: Stored)
    ensures result == Insertion(rows, committed)
    ensures result.Stored? <==> committed && Broken !in rows
    ensures result.Stored? ==> result == Stored(multiset(rows)[Affected], multiset(rows)[Unaffected])
  {
    TallySums(rows);
    if Tally(rows).Stored? {
      TallyCounts(rows);
    }
    var inserted, skipped := 0, 0;
    for i := 0 to |rows|
      invariant Tally(rows[..i]) == Stored(inserted, skipped)
    {
      assert rows[..i + 1][..i] == rows[..i];
      if rows[i].Broken? {
        BrokenStays(rows, i + 1);
        return Refused;
      }
      if rows[i].Affected? {
        inserted := inserted + 1;
      } else {
        skipped := skipped + 1;
      }
    }
    assert rows[..|rows|] == rows;
    if !committed {
      return Refused;
    }
    return Stored(inserted, skipped);
  }

  // ----- State -----

  datatype Core = Core(ch: seq<Bytes>, batch: seq<Bytes>,
                       queued: nat, dropped: nat, inserted: nat, skipped: nat, deadLetters: nat)

  // Where a call of Emit stands.
  datatype Emitting =
    | Idle
    | FirstTry(payload: Bytes)
    | CountSent
    | TryEvict(payload: Bytes)
    | CountEvicted(payload: Bytes)
    | SecondTry(payload: Bytes)
    | CountLost

  // Where the consumer stands; stop tells a flush on shutdown.
  datatype Consuming =
    | Stopped
    | Waiting
    | Holding(raw: Bytes)
    | Flushing(stop: bool)
    | Storing(pending: nat, stop: bool)
    | Burying(done: nat, stop: bool)

  // A payload that went on, or did not.
  datatype Fate = Fate(payload: Bytes, good: bool)

  // What left the channel (taken by the consumer, or evicted), what the consumer made of it (accepted
  // or rejected) and what became of the batches (stored or buried).
  datatype History = History(emits: nat, sent: seq<Bytes>, left: seq<Fate>, handled: seq<Fate>, flushed: seq<Fate>)

  // cancelled: the context the consumer runs under is.
  datatype State = State(cfg: Config, core: Core, emitters: seq<Emitting>, consumer: Consuming, cancelled: bool,
                         past: History)

  // ----- Steps of the emitters -----

  function Send(w: State, payload: Bytes): State {
    w.(core := w.core.(ch := w.core.ch + [payload]), past := w.past.(sent := w.past.sent + [payload]))
  }

  function Receive(w: State, evicted: bool): State
    requires w.core.ch != []
  {
    w.(core := w.core.(ch := w.core.ch[1..]), past := w.past.(left := w.past.left + [Fate(w.core.ch[0], !evicted)]))
  }

  function At(w: State, e: nat, phase: Emitting): State
    requires e < |w.emitters|
  {
    w.(emitters := w.emitters[e := phase])
  }

  function Full(w: State): bool {
    |w.core.ch| >= w.cfg.channelSize
  }

  function EmitterStep(w: State, e: nat): State
    requires e < |w.emitters|
  {
    match w.emitters[e]
    case Idle => w
    case FirstTry(p) =>
      if !Full(w) then At(Send(w, p), e, CountSent)
      else if w.cfg.dropOldest then At(w, e, TryEvict(p))
      else At(w, e, CountLost)
    case CountSent => At(w.(core := w.core.(queued := w.core.queued + 1)), e, Idle)
    case TryEvict(p) => if w.core.ch != [] then At(Receive(w, true), e, CountEvicted(p)) else At(w, e, CountLost)
    case CountEvicted(p) => At(w.(core := w.core.(dropped := w.core.dropped + 1)), e, SecondTry(p))
    case SecondTry(p) => if !Full(w) then At(Send(w, p), e, CountSent) else At(w, e, CountLost)
    case CountLost => At(w.(core := w.core.(dropped := w.core.dropped + 1)), e, Idle)
  }

  function BeginEmit(w: State, e: nat, raw: Bytes): State
    requires e < |w.emitters|
  {
    if raw == [] || !w.emitters[e].Idle? then w
    else At(w.(past := w.past.(emits := w.past.emits + 1)), e, FirstTry(raw))
  }

  // ----- Steps of the consumer -----

  function AfterFlush(stop: bool): Consuming {
    if stop then Stopped else Waiting
  }

  function Outcomes(batch: seq<Bytes>, stored: bool): (r: seq<Fate>)
    ensures |r| == |batch|
  {
    seq(|batch|, i requires 0 <= i < |batch| => Fate(batch[i], stored))
  }

  function EndFlush(w: State, stored: bool, stop: bool): State {
    w.(core := w.core.(batch := []), consumer := AfterFlush(stop),
       past := w.past.(flushed := w.past.flushed + Outcomes(w.core.batch, stored)))
  }

  function Normalise(w: State, ok: bool): State
    requires w.consumer.Holding?
  {
    var raw := w.consumer.raw;
    var w' := w.(past := w.past.(handled := w.past.handled + [Fate(raw, ok)]));
    if !ok then w'.(core := w.core.(deadLetters := w.core.deadLetters + 1), consumer := Waiting)
    else
      var batch := w.core.batch + [raw];
      w'.(core := w.core.(batch := batch), consumer := if |batch| >= w.cfg.batchSize then Flushing(false) else Waiting)
  }

  // A cancelled context begins no transaction.
  function Insert(w: State, rows: seq<Row>, committed: bool): State
    requires w.consumer.Flushing?
  {
    if w.core.batch == [] then w.(consumer := AfterFlush(w.consumer.stop))
    else if |rows| != |w.core.batch| then w
    else
      match Insertion(rows, committed && !w.cancelled)
      case Refused => w.(consumer := Burying(0, w.consumer.stop))
      case Stored(inserted, skipped) =>
        w.(core := w.core.(inserted := w.core.inserted + inserted), consumer := Storing(skipped, w.consumer.stop))
  }

  // The rest of a flush: the second counter, or one dead letter after the other.
  function CountOn(w: State): State {
    match w.consumer
    case Storing(pending, stop) => EndFlush(w.(core := w.core.(skipped := w.core.skipped + pending)), true, stop)
    case Burying(done, stop) =>
      if done < |w.core.batch| then
        w.(core := w.core.(deadLetters := w.core.deadLetters + 1), consumer := Burying(done + 1, stop))
      else EndFlush(w, false, stop)
    case _ => w
  }

  datatype Action =
    | Emit(emitter: nat, raw: Bytes)
    | Advance(emitter: nat)
    | Start
    | Take
    | Judge(ok: bool)
    | Tick
    | Cancel
    | Notice
    | Store(rows: seq<Row>, committed: bool)
    | Count

  function Step(w: State, a: Action): State {
    match a
    case Emit(e, raw) => if e < |w.emitters| then BeginEmit(w, e, raw) else w
    case Advance(e) => if e < |w.emitters| then EmitterStep(w, e) else w
    case Start => if w.consumer.Stopped? then w.(consumer := Waiting, cancelled := false) else w
    case Take =>
      if w.consumer.Waiting? && w.core.ch != [] then Receive(w, false).(consumer := Holding(w.core.ch[0])) else w
    case Judge(ok) => if w.consumer.Holding? then Normalise(w, ok) else w
    case Tick => if w.consumer.Waiting? then w.(consumer := Flushing(false)) else w
    case Cancel => if w.consumer.Stopped? then w else w.(cancelled := true)
    case Notice => if w.consumer.Waiting? && w.cancelled then w.(consumer := Flushing(true)) else w
    case Store(rows, committed) => if w.consumer.Flushing? then Insert(w, rows, committed) else w
    case Count => CountOn(w)
  }

  function RunFrom(w: State, actions: seq<Action>): State {
    if actions == [] then w else Step(RunFrom(w, actions[..|actions| - 1]), actions[|actions| - 1])
  }

  function New(cfg: Config, emitters: nat): State {
    var core := Core([], [], 0, 0, 0, 0, 0);
    State(Normalized(cfg), core, seq(emitters, i => Idle), Stopped, false, History(0, [], [], [], []))
  }

  // ----- Reading the history -----

  function Payloads(fates: seq<Fate>): (r: seq<Bytes>)
    ensures |r| == |fates|
  {
    seq(|fates|, i requires 0 <= i < |fates| => fates[i].payload)
  }

  // The payloads that went on, in order.
  function Good(fates: seq<Fate>): seq<Bytes> {
    if fates == [] then []
    else Good(fates[..|fates| - 1]) + (if fates[|fates| - 1].good then [fates[|fates| - 1].payload] else [])
  }

  // How many did not: evictions, rejections, buried ones.
  function Bad(fates: seq<Fate>): nat {
    if fates == [] then 0 else Bad(fates[..|fates| - 1]) + (if fates[|fates| - 1].good then 0 else 1)
  }

  // Calls of Emit that sent but did not count yet.
  function SentUncounted(emitters: seq<Emitting>): nat {
    if emitters == [] then 0
    else SentUncounted(emitters[..|emitters| - 1]) + (if emitters[|emitters| - 1].CountSent? then 1 else 0)
  }

  // What a call of Emit has yet to count: its own payload, and one it evicted.
  function Due(phase: Emitting): nat {
    if phase.Idle? then 0 else if phase.CountEvicted? then 2 else 1
  }

  function TotalDue(emitters: seq<Emitting>): nat {
    if emitters == [] then 0 else TotalDue(emitters[..|emitters| - 1]) + Due(emitters[|emitters| - 1])
  }

  // ----- The invariant -----

  function InHand(w: State): seq<Bytes> {
    if w.consumer.Holding? then [w.consumer.raw] else []
  }

  // Every payload sent is, in order: out of the channel or in it; of those the consumer took, judged
  // or in hand; of those it accepted, flushed or in the batch.
  ghost predicate Flows(w: State) {
    && w.past.sent == Payloads(w.past.left) + w.core.ch
    && Good(w.past.left) == Payloads(w.past.handled) + InHand(w)
    && Good(w.past.handled) == Payloads(w.past.flushed) + w.core.batch
  }

  ghost predicate Bounded(w: State) {
    && w.cfg.channelSize > 0 && w.cfg.batchSize > 0
    && |w.core.ch| <= w.cfg.channelSize
    && |w.core.batch| <= w.cfg.batchSize
    && (w.consumer.Waiting? || w.consumer.Holding? || w.consumer.Stopped? ==> |w.core.batch| < w.cfg.batchSize)
    && (w.consumer.Stopped? ==> w.core.batch == [])
    && (w.consumer.Storing? ==> w.consumer.pending <= |w.core.batch|)
    && (w.consumer.Burying? ==> w.consumer.done <= |w.core.batch|)
  }

  ghost predicate EmittersCount(w: State) {
    && |w.past.sent| == w.core.queued + SentUncounted(w.emitters)
    && w.past.emits + Bad(w.past.left) == w.core.queued + w.core.dropped + TotalDue(w.emitters)
  }

  ghost predicate ConsumerCounts(w: State) {
    && w.core.inserted + w.core.skipped == |w.past.flushed| - Bad(w.past.flushed)
       + (if w.consumer.Storing? then |w.core.batch| - w.consumer.pending else 0)
    && w.core.deadLetters == Bad(w.past.flushed) + Bad(w.past.handled)
       + (if w.consumer.Burying? then w.consumer.done else 0)
  }

  predicate Evicting(phase: Emitting) {
    phase.TryEvict? || phase.CountEvicted? || phase.SecondTry?
  }

  // Without the overflow policy nothing that was sent is taken back.
  ghost predicate Keeps(w: State) {
    && (w.cfg.dropOldest || Bad(w.past.left) == 0)
    && forall e :: 0 <= e < |w.emitters| ==>
         (w.cfg.dropOldest || !Evicting(w.emitters[e]))
  }

  ghost predicate Inv(w: State) {
    Flows(w) && Bounded(w) && EmittersCount(w) && ConsumerCounts(w) && Keeps(w)
  }

  // ----- Sums and histories under one change -----

  lemma {:induction false} PhaseChanges(emitters: seq<Emitting>, e: nat, phase: Emitting)
    requires e < |emitters|
    ensures TotalDue(emitters[e := phase]) == TotalDue(emitters) - Due(emitters[e]) + Due(phase)
    ensures SentUncounted(emitters[e := phase])
            == SentUncounted(emitters) - (if emitters[e].CountSent? then 1 else 0) + (if phase.CountSent? then 1 else 0)
    decreases |emitters|
  {
    var n := |emitters| - 1;
    if e == n {
      assert emitters[e := phase][..n] == emitters[..n];
    } else {
      PhaseChanges(emitters[..n], e, phase);
      assert emitters[e := phase][..n] == emitters[..n][e := phase];
    }
  }

  lemma {:induction false} AllIdle(emitters: seq<Emitting>)
    requires forall e :: 0 <= e < |emitters| ==> emitters[e].Idle?
    ensures TotalDue(emitters) == 0 && SentUncounted(emitters) == 0
  {
    if emitters != [] {
      AllIdle(emitters[..|emitters| - 1]);
    }
  }

  lemma OneMore(fates: seq<Fate>, x: Fate)
    ensures Bad(fates + [x]) == Bad(fates) + (if x.good then 0 else 1)
    ensures Good(fates + [x]) == Good(fates) + (if x.good then [x.payload] else [])
    ensures Payloads(fates + [x]) == Payloads(fates) + [x.payload]
  {
    assert (fates + [x])[..|fates|] == fates;
  }

  lemma OneMoreOutcome(flushed: seq<Fate>, batch: seq<Bytes>, stored: bool)
    requires batch != []
    ensures var n := |batch| - 1;
            flushed + Outcomes(batch, stored) == (flushed + Outcomes(batch[..n], stored)) + [Fate(batch[n], stored)]
  {
  }

  lemma SettleOne(flushed: seq<Fate>, batch: seq<Bytes>, stored: bool)
    requires batch != []
    ensures var n := |batch| - 1;
            var f, all := flushed + Outcomes(batch[..n], stored), flushed + Outcomes(batch, stored);
            && Bad(all) == Bad(f) + (if stored then 0 else 1)
            && Good(all) == Good(f) + (if stored then [batch[n]] else [])
            && Payloads(all) == Payloads(f) + [batch[n]]
  {
    var n := |batch| - 1;
    OneMoreOutcome(flushed, batch, stored);
    OneMore(flushed + Outcomes(batch[..n], stored), Fate(batch[n], stored));
  }

  // x holds the batch's first part behind front.
  lemma Behind(x: seq<Bytes>, front: seq<Bytes>, batch: seq<Bytes>)
    requires batch != [] && x == front + batch[..|batch| - 1]
    ensures x + [batch[|batch| - 1]] == front + batch
  {
  }

  lemma {:induction false} BatchSettles(flushed: seq<Fate>, batch: seq<Bytes>, stored: bool)
    ensures Bad(flushed + Outcomes(batch, stored)) == Bad(flushed) + (if stored then 0 else |batch|)
    ensures Payloads(flushed + Outcomes(batch, stored)) == Payloads(flushed) + batch
    decreases |batch|
  {
    if batch == [] {
      assert flushed + Outcomes(batch, stored) == flushed;
    } else {
      var front := batch[..|batch| - 1];
      BatchSettles(flushed, front, stored);
      SettleOne(flushed, batch, stored);
      Behind(Payloads(flushed + Outcomes(front, stored)), Payloads(flushed), batch);
    }
  }

  lemma {:induction false} GoodSettles(flushed: seq<Fate>, batch: seq<Bytes>, stored: bool)
    ensures Good(flushed + Outcomes(batch, stored)) == Good(flushed) + (if stored then batch else [])
    decreases |batch|
  {
    if batch == [] {
      assert flushed + Outcomes(batch, stored) == flushed;
    } else {
      var front := batch[..|batch| - 1];
      GoodSettles(flushed, front, stored);
      SettleOne(flushed, batch, stored);
      if stored {
        Behind(Good(flushed + Outcomes(front, stored)), Good(flushed), batch);
      }
    }
  }

  // ----- Every step keeps the invariant -----

  lemma MoveChannelHead(payloads: seq<Bytes>, ch: seq<Bytes>)
    requires ch != []
    ensures (payloads + [ch[0]]) + ch[1..] == payloads + ch
  {
  }

  lemma SendKeepsFlow(w: State, payload: Bytes)
    requires Flows(w)
    ensures Flows(Send(w, payload))
  {
    assert Payloads(w.past.left) + (w.core.ch + [payload]) == (Payloads(w.past.left) + w.core.ch) + [payload];
  }

  lemma EvictKeepsFlow(w: State)
    requires Flows(w) && w.core.ch != []
    ensures Flows(Receive(w, true)) && Bad(Receive(w, true).past.left) == Bad(w.past.left) + 1
  {
    OneMore(w.past.left, Fate(w.core.ch[0], false));
    MoveChannelHead(Payloads(w.past.left), w.core.ch);
    assert Good(w.past.left) + [] == Good(w.past.left);
  }

  lemma AdvanceKeepsFlow(w: State, e: nat)
    requires Flows(w) && e < |w.emitters|
    ensures Flows(EmitterStep(w, e))
  {
    AdvanceMoves(w, e);
    match w.emitters[e]
    case FirstTry(p) => SendKeepsFlow(w, p);
    case SecondTry(p) => SendKeepsFlow(w, p);
    case TryEvict(p) => if w.core.ch != [] { EvictKeepsFlow(w); }
    case _ =>
  }

  ghost predicate SameFlow(w: State, v: State) {
    w.past == v.past && w.core.ch == v.core.ch && w.core.batch == v.core.batch && w.consumer == v.consumer
  }

  // A step of an emitter sends, evicts or leaves the flow alone.
  lemma AdvanceMoves(w: State, e: nat)
    requires e < |w.emitters|
    ensures var w' := EmitterStep(w, e);
            match w.emitters[e]
            case FirstTry(p) => SameFlow(w', if Full(w) then w else Send(w, p))
            case SecondTry(p) => SameFlow(w', if Full(w) then w else Send(w, p))
            case TryEvict(p) => SameFlow(w', if w.core.ch == [] then w else Receive(w, true))
            case _ => SameFlow(w', w)
  {
  }

  // A step of an emitter changes its own phase and no other.
  lemma AdvanceOne(w: State, e: nat)
    requires e < |w.emitters|
    ensures var w' := EmitterStep(w, e);
            |w'.emitters| == |w.emitters| && w'.emitters == w.emitters[e := w'.emitters[e]]
  {
  }

  // What was sent is counted now or by the sender's next step.
  lemma AdvanceSends(w: State, e: nat)
    requires e < |w.emitters|
    ensures var w' := EmitterStep(w, e);
            && |w'.emitters| == |w.emitters|
            && |w'.past.sent| - w'.core.queued - (if w'.emitters[e].CountSent? then 1 else 0)
               == |w.past.sent| - w.core.queued - (if w.emitters[e].CountSent? then 1 else 0)
  {
  }

  lemma AdvanceEvicts(w: State, e: nat)
    requires e < |w.emitters|
    ensures var w' := EmitterStep(w, e);
            && w'.past.emits == w.past.emits
            && Bad(w'.past.left) == Bad(w.past.left) + (if w.emitters[e].TryEvict? && w.core.ch != [] then 1 else 0)
  {
    if w.emitters[e].TryEvict? && w.core.ch != [] {
      OneMore(w.past.left, Fate(w.core.ch[0], false));
    }
  }

  // What a call owes shrinks as it counts, and grows by what it evicts.
  lemma AdvanceOwes(w: State, e: nat)
    requires e < |w.emitters|
    ensures var w' := EmitterStep(w, e);
            && |w'.emitters| == |w.emitters|
            && w'.core.queued + w'.core.dropped + Due(w'.emitters[e])
               == w.core.queued + w.core.dropped + Due(w.emitters[e])
                  + (if w.emitters[e].TryEvict? && w.core.ch != [] then 1 else 0)
  {
  }

  lemma AdvanceKeepsCounts(w: State, e: nat)
    requires EmittersCount(w) && e < |w.emitters|
    ensures EmittersCount(EmitterStep(w, e))
  {
    AdvanceOne(w, e);
    AdvanceSends(w, e);
    AdvanceEvicts(w, e);
    AdvanceOwes(w, e);
    PhaseChanges(w.emitters, e, EmitterStep(w, e).emitters[e]);
  }

  lemma AdvanceSparesConsumer(w: State, e: nat)
    requires e < |w.emitters|
    ensures var w' := EmitterStep(w, e);
            && w'.consumer == w.consumer && w'.cfg == w.cfg && w'.core.batch == w.core.batch
            && w'.core.inserted == w.core.inserted && w'.core.skipped == w.core.skipped
            && w'.core.deadLetters == w.core.deadLetters
            && w'.past.handled == w.past.handled && w'.past.flushed == w.past.flushed
  {
  }

  lemma AdvanceKeepsSize(w: State, e: nat)
    requires e < |w.emitters| && |w.core.ch| <= w.cfg.channelSize
    ensures |EmitterStep(w, e).core.ch| <= w.cfg.channelSize
  {
  }

  // Without the policy a call never comes to evict.
  lemma NeverEvicts(w: State, e: nat)
    requires e < |w.emitters| && !w.cfg.dropOldest && !Evicting(w.emitters[e])
    ensures var w' := EmitterStep(w, e);
            w'.cfg == w.cfg && e < |w'.emitters| && !Evicting(w'.emitters[e])
  {
  }

  lemma CfgKept(w: State, e: nat)
    requires e < |w.emitters|
    ensures EmitterStep(w, e).cfg == w.cfg
  {
  }

  lemma AdvanceKeepsKeeping(w: State, e: nat)
    requires Keeps(w) && e < |w.emitters|
    ensures Keeps(EmitterStep(w, e))
  {
    CfgKept(w, e);
    if !w.cfg.dropOldest {
      AdvanceOne(w, e);
      AdvanceEvicts(w, e);
      NeverEvicts(w, e);
    }
  }

  lemma AdvanceKeeps(w: State, e: nat)
    requires Inv(w) && e < |w.emitters|
    ensures Inv(EmitterStep(w, e))
  {
    AdvanceKeepsFlow(w, e);
    AdvanceKeepsCounts(w, e);
    AdvanceSparesConsumer(w, e);
    AdvanceKeepsSize(w, e);
    AdvanceKeepsKeeping(w, e);
  }

  lemma BeginKeeps(w: State, e: nat, raw: Bytes)
    requires Inv(w) && e < |w.emitters|
    ensures Inv(BeginEmit(w, e, raw))
  {
    if raw != [] && w.emitters[e].Idle? {
      PhaseChanges(w.emitters, e, FirstTry(raw));
    }
  }

  lemma TakeKeeps(w: State)
    requires Inv(w) && w.consumer.Waiting? && w.core.ch != []
    ensures Inv(Step(w, Take))
  {
    OneMore(w.past.left, Fate(w.core.ch[0], true));
    MoveChannelHead(Payloads(w.past.left), w.core.ch);
    assert Payloads(w.past.handled) + [] == Payloads(w.past.handled);
  }

  lemma JudgeKeepsFlow(w: State, ok: bool)
    requires Flows(w) && w.consumer.Holding?
    ensures Flows(Normalise(w, ok))
  {
    var raw := w.consumer.raw;
    OneMore(w.past.handled, Fate(raw, ok));
    assert Payloads(w.past.handled) + [raw] + [] == Payloads(w.past.handled) + [raw];
    if ok {
      assert Payloads(w.past.flushed) + (w.core.batch + [raw]) == (Payloads(w.past.flushed) + w.core.batch) + [raw];
    } else {
      assert Good(w.past.handled) + [] == Good(w.past.handled);
    }
  }

  lemma JudgeKeeps(w: State, ok: bool)
    requires Inv(w) && w.consumer.Holding?
    ensures Inv(Normalise(w, ok))
  {
    JudgeKeepsFlow(w, ok);
    OneMore(w.past.handled, Fate(w.consumer.raw, ok));
  }

  lemma InsertKeeps(w: State, rows: seq<Row>, committed: bool)
    requires Inv(w) && w.consumer.Flushing?
    ensures Inv(Insert(w, rows, committed))
  {
    TallySums(rows);
  }

  lemma EndFlushKeepsFlow(w: State, stored: bool, stop: bool)
    requires Flows(w) && !w.consumer.Holding?
    ensures Flows(EndFlush(w, stored, stop))
  {
    BatchSettles(w.past.flushed, w.core.batch, stored);
    assert Payloads(w.past.flushed) + w.core.batch + [] == Payloads(w.past.flushed) + w.core.batch;
  }

  lemma StoringKeeps(w: State)
    requires Inv(w) && w.consumer.Storing?
    ensures Inv(CountOn(w))
  {
    BatchSettles(w.past.flushed, w.core.batch, true);
    EndFlushKeepsFlow(w.(core := w.core.(skipped := w.core.skipped + w.consumer.pending)), true, w.consumer.stop);
  }

  lemma BuryingKeeps(w: State)
    requires Inv(w) && w.consumer.Burying?
    ensures Inv(CountOn(w))
  {
    if w.consumer.done >= |w.core.batch| {
      BatchSettles(w.past.flushed, w.core.batch, false);
      EndFlushKeepsFlow(w, false, w.consumer.stop);
    }
  }

  lemma CountKeeps(w: State)
    requires Inv(w)
    ensures Inv(CountOn(w))
  {
    match w.consumer
    case Storing(_, _) => StoringKeeps(w);
    case Burying(_, _) => BuryingKeeps(w);
    case _ =>
  }

  lemma StepKeeps(w: State, a: Action)
    requires Inv(w)
    ensures Inv(Step(w, a))
  {
    match a
    case Emit(e, raw) => if e < |w.emitters| { BeginKeeps(w, e, raw); }
    case Advance(e) => if e < |w.emitters| { AdvanceKeeps(w, e); }
    case Take => if w.consumer.Waiting? && w.core.ch != [] { TakeKeeps(w); }
    case Judge(ok) => if w.consumer.Holding? { JudgeKeeps(w, ok); }
    case Store(rows, committed) => if w.consumer.Flushing? { InsertKeeps(w, rows, committed); }
    case Count => CountKeeps(w);
    case _ =>
  }

  lemma NewHolds(cfg: Config, emitters: nat)
    ensures Inv(New(cfg, emitters))
  {
    AllIdle(New(cfg, emitters).emitters);
  }

  // Whatever the emitters and the consumer do, and in whatever order their steps come.
  lemma {:induction false} RunsHold(cfg: Config, emitters: nat, actions: seq<Action>)
    ensures Inv(RunFrom(New(cfg, emitters), actions))
  {
    if actions == [] {
      NewHolds(cfg, emitters);
    } else {
      RunsHold(cfg, emitters, actions[..|actions| - 1]);
      StepKeeps(RunFrom(New(cfg, emitters), actions[..|actions| - 1]), actions[|actions| - 1]);
    }
  }

  // ----- What the counters say -----

  // Of the batch, what no counter knows of yet.
  function Uncounted(w: State): int {
    match w.consumer
    case Storing(pending, _) => pending
    case Burying(done, _) => |w.core.batch| - done
    case _ => |w.core.batch|
  }

  lemma {:induction false} FateCount(fates: seq<Fate>)
    ensures |fates| == Bad(fates) + |Good(fates)|
  {
    if fates != [] {
      FateCount(fates[..|fates| - 1]);
    }
  }

  lemma Accounts(w: State)
    requires Inv(w)
    ensures w.core.queued + SentUncounted(w.emitters)
            == |w.core.ch| + Bad(w.past.left) + |InHand(w)| + Uncounted(w)
               + w.core.inserted + w.core.skipped + w.core.deadLetters
    ensures w.past.emits + Bad(w.past.left) == w.core.queued + w.core.dropped + TotalDue(w.emitters)
    ensures |w.core.ch| <= w.cfg.channelSize && |w.core.batch| <= w.cfg.batchSize
  {
    FateCount(w.past.left);
    FateCount(w.past.handled);
  }

  // Between calls, with nothing in hand, the published status adds up exactly; and without the
  // overflow policy the dropped ones are just those that never got in.
  lemma StatusAddsUp(cfg: Config, emitters: nat, actions: seq<Action>)
    ensures var w := RunFrom(New(cfg, emitters), actions);
            var s := w.core;
            (forall e :: 0 <= e < |w.emitters| ==> w.emitters[e].Idle?)
            && (w.consumer.Waiting? || w.consumer.Stopped?) ==>
              && s.queued == |s.ch| + Bad(w.past.left) + |s.batch| + s.inserted + s.skipped + s.deadLetters
              && w.past.emits + Bad(w.past.left) == s.queued + s.dropped
              && (!cfg.dropOldest ==> Bad(w.past.left) == 0)
  {
    var w := RunFrom(New(cfg, emitters), actions);
    RunsHold(cfg, emitters, actions);
    Accounts(w);
    CfgStays(cfg, emitters, actions);
    if forall e :: 0 <= e < |w.emitters| ==> w.emitters[e].Idle? {
      AllIdle(w.emitters);
    }
  }

  lemma {:induction false} CfgStays(cfg: Config, emitters: nat, actions: seq<Action>)
    ensures RunFrom(New(cfg, emitters), actions).cfg == Normalized(cfg)
  {
    if actions != [] {
      CfgStays(cfg, emitters, actions[..|actions| - 1]);
    }
  }

  // ----- Uninterrupted calls -----

  function EmitAlone(cfg: Config, s: Core, raw: Bytes): Core {
    if raw == [] then s
    else if |s.ch| < cfg.channelSize then s.(ch := s.ch + [raw], queued := s.queued + 1)
    else if cfg.dropOldest && s.ch != [] then
      s.(ch := s.ch[1..] + [raw], queued := s.queued + 1, dropped := s.dropped + 1)
    else s.(dropped := s.dropped + 1)
  }

  function FlushAlone(s: Core, result: Stored): Core {
    if s.batch == [] then s
    else
      match result
      case Refused => s.(batch := [], deadLetters := s.deadLetters + |s.batch|)
      case Stored(inserted, skipped) =>
        s.(batch := [], inserted := s.inserted + inserted, skipped := s.skipped + skipped)
  }

  function JudgeAlone(cfg: Config, s: Core, ok: bool, result: Stored): Core
    requires s.ch != []
  {
    var taken := s.(ch := s.ch[1..]);
    if !ok then taken.(deadLetters := s.deadLetters + 1)
    else
      var grown := taken.(batch := s.batch + [s.ch[0]]);
      if |grown.batch| >= cfg.batchSize then FlushAlone(grown, result) else grown
  }

  function Times(a: Action, n: nat): seq<Action> {
    if n == 0 then [] else Times(a, n - 1) + [a]
  }

  lemma {:induction false} RunConcat(w: State, a: seq<Action>, b: seq<Action>)
    ensures RunFrom(w, a + b) == RunFrom(RunFrom(w, a), b)
    decreases |b|
  {
    if b == [] {
      assert a + b == a;
    } else {
      RunConcat(w, a, b[..|b| - 1]);
      assert (a + b)[..|a + b| - 1] == a + b[..|b| - 1];
    }
  }

  lemma RunOne(w: State, a: Action)
    ensures RunFrom(w, [a]) == Step(w, a)
  {
    assert [a][..0] == [];
  }

  // From the front instead of the back.
  lemma {:induction false} RunTimes(w: State, a: Action, n: nat)
    requires n > 0
    ensures RunFrom(w, Times(a, n)) == RunFrom(Step(w, a), Times(a, n - 1))
    decreases n
  {
    if n == 1 {
      assert Times(a, 1) == [a] by { assert Times(a, 0) == []; }
      RunOne(w, a);
    } else {
      RunTimes(w, a, n - 1);
      assert Times(a, n)[..|Times(a, n)| - 1] == Times(a, n - 1);
      assert Times(a, n - 1)[..|Times(a, n - 1)| - 1] == Times(a, n - 2);
    }
  }

  // n steps of one emitter and no other.
  function Advances(w: State, e: nat, n: nat): State
    requires e < |w.emitters|
    decreases n
  {
    if n == 0 then w else Advances(EmitterStep(w, e), e, n - 1)
  }

  lemma AdvanceIsStep(w: State, e: nat)
    requires e < |w.emitters|
    ensures Step(w, Advance(e)) == EmitterStep(w, e) && |EmitterStep(w, e).emitters| == |w.emitters|
  {
  }

  lemma {:induction false} AdvancesRun(w: State, e: nat, n: nat)
    requires e < |w.emitters|
    ensures RunFrom(w, Times(Advance(e), n)) == Advances(w, e, n)
    decreases n
  {
    if n > 0 {
      RunTimes(w, Advance(e), n);
      AdvanceIsStep(w, e);
      AdvancesRun(EmitterStep(w, e), e, n - 1);
    }
  }

  // Where n uninterrupted steps lead to: the core given, and the emitter idle again.
  ghost predicate Returns(w: State, e: nat, n: nat, core: Core) {
    e < |w.emitters| && Advances(w, e, n).core == core && Advances(w, e, n).emitters == w.emitters[e := Idle]
  }

  lemma StepReturns(w: State, e: nat, n: nat, core: Core)
    requires n > 0 && e < |w.emitters| && Returns(EmitterStep(w, e), e, n - 1, core)
    ensures Returns(w, e, n, core)
  {
  }

  lemma {:induction false} FromIdle(w: State, e: nat, n: nat)
    requires e < |w.emitters| && w.emitters[e].Idle?
    ensures Returns(w, e, n, w.core)
    decreases n
  {
    if n > 0 {
      FromIdle(EmitterStep(w, e), e, n - 1);
    }
  }

  lemma FromCounting(w: State, e: nat, n: nat)
    requires n > 0 && e < |w.emitters| && (w.emitters[e].CountSent? || w.emitters[e].CountLost?)
    ensures Returns(w, e, n, if w.emitters[e].CountSent? then w.core.(queued := w.core.queued + 1)
                             else w.core.(dropped := w.core.dropped + 1))
  {
    var w' := EmitterStep(w, e);
    FromIdle(w', e, n - 1);
    StepReturns(w, e, n, w'.core);
  }

  function Sent(core: Core, payload: Bytes): Core {
    core.(ch := core.ch + [payload], queued := core.queued + 1)
  }

  function Lost(core: Core): Core {
    core.(dropped := core.dropped + 1)
  }

  lemma FromSecond(w: State, e: nat, n: nat)
    requires n > 1 && e < |w.emitters| && w.emitters[e].SecondTry?
    ensures Returns(w, e, n, if Full(w) then Lost(w.core) else Sent(w.core, w.emitters[e].payload))
  {
    FromCounting(EmitterStep(w, e), e, n - 1);
    StepReturns(w, e, n, if Full(w) then Lost(w.core) else Sent(w.core, w.emitters[e].payload));
  }

  lemma FromEvicted(w: State, e: nat, n: nat)
    requires n > 2 && e < |w.emitters| && w.emitters[e].CountEvicted?
    ensures Returns(w, e, n, if Full(w) then Lost(Lost(w.core)) else Sent(Lost(w.core), w.emitters[e].payload))
  {
    FromSecond(EmitterStep(w, e), e, n - 1);
    StepReturns(w, e, n, if Full(w) then Lost(Lost(w.core)) else Sent(Lost(w.core), w.emitters[e].payload));
  }

  lemma FromEvicting(w: State, e: nat, n: nat)
    requires n > 3 && e < |w.emitters| && w.emitters[e].TryEvict? && 0 < |w.core.ch| <= w.cfg.channelSize
    ensures Returns(w, e, n, Sent(Lost(w.core.(ch := w.core.ch[1..])), w.emitters[e].payload))
  {
    FromEvicted(EmitterStep(w, e), e, n - 1);
    StepReturns(w, e, n, Sent(Lost(w.core.(ch := w.core.ch[1..])), w.emitters[e].payload));
  }

  lemma FromFirst(w: State, e: nat, n: nat)
    requires n > 4 && e < |w.emitters| && w.emitters[e].FirstTry? && w.emitters[e].payload != []
    requires |w.core.ch| <= w.cfg.channelSize && w.cfg.channelSize > 0
    ensures Returns(w, e, n, EmitAlone(w.cfg, w.core, w.emitters[e].payload))
  {
    var w' := EmitterStep(w, e);
    if Full(w) && w.cfg.dropOldest {
      FromEvicting(w', e, n - 1);
    } else {
      FromCounting(w', e, n - 1);
    }
    StepReturns(w, e, n, EmitAlone(w.cfg, w.core, w.emitters[e].payload));
  }

  // The steps of one call, when nothing comes between them, amount to EmitAlone.
  lemma EmitUninterrupted(w: State, e: nat, raw: Bytes)
    requires Inv(w) && e < |w.emitters| && w.emitters[e].Idle?
    ensures var w' := RunFrom(w, [Emit(e, raw)] + Times(Advance(e), 5));
            w'.core == EmitAlone(w.cfg, w.core, raw) && w'.emitters == w.emitters
  {
    var begun := BeginEmit(w, e, raw);
    RunConcat(w, [Emit(e, raw)], Times(Advance(e), 5));
    RunOne(w, Emit(e, raw));
    AdvancesRun(begun, e, 5);
    if raw == [] {
      FromIdle(w, e, 5);
    } else {
      FromFirst(begun, e, 5);
    }
  }

  lemma BuryLast(w: State)
    requires w.consumer.Burying? && w.consumer.done == |w.core.batch|
    ensures CountOn(w).core == w.core.(batch := []) && CountOn(w).consumer == AfterFlush(w.consumer.stop)
  {
  }

  lemma BuryOne(w: State)
    requires w.consumer.Burying? && w.consumer.done < |w.core.batch|
    ensures CountOn(w).core == w.core.(deadLetters := w.core.deadLetters + 1)
    ensures CountOn(w).consumer == Burying(w.consumer.done + 1, w.consumer.stop)
  {
  }

  lemma {:induction false} BuryAll(w: State, n: nat)
    requires w.consumer.Burying? && w.consumer.done + n == |w.core.batch|
    ensures var w' := RunFrom(w, Times(Count, n + 1));
            w'.core == w.core.(batch := [], deadLetters := w.core.deadLetters + n)
            && w'.consumer == AfterFlush(w.consumer.stop)
    decreases n
  {
    RunTimes(w, Count, n + 1);
    if n == 0 {
      BuryLast(w);
      assert Times(Count, 0) == [];
    } else {
      BuryOne(w);
      BuryAll(CountOn(w), n - 1);
    }
  }

  lemma InsertMoves(w: State, rows: seq<Row>, committed: bool)
    requires w.consumer.Flushing? && |rows| == |w.core.batch| > 0
    ensures Step(w, Store(rows, committed)) == Insert(w, rows, committed)
    ensures var w' := Insert(w, rows, committed);
            match Insertion(rows, committed && !w.cancelled)
            case Refused => w'.core == w.core && w'.consumer == Burying(0, w.consumer.stop)
            case Stored(i, k) =>
              w'.core == w.core.(inserted := w.core.inserted + i) && w'.consumer == Storing(k, w.consumer.stop)
  {
  }

  lemma CountSkipped(w: State)
    requires w.consumer.Storing?
    ensures CountOn(w).core == w.core.(skipped := w.core.skipped + w.consumer.pending, batch := [])
    ensures CountOn(w).consumer == AfterFlush(w.consumer.stop)
  {
  }

  // How many counting steps a flush takes after the insert.
  function CountingSteps(rows: seq<Row>, committed: bool): nat {
    if Insertion(rows, committed).Refused? then |rows| + 1 else 1
  }

  // v is what a refused insert of w's batch leaves ...
  lemma RefusedSettles(w: State, v: State)
    requires w.consumer.Flushing? && w.core.batch != []
    requires v.core == w.core && v.consumer == Burying(0, w.consumer.stop)
    ensures var w' := RunFrom(v, Times(Count, |w.core.batch| + 1));
            w'.core == FlushAlone(w.core, Refused) && w'.consumer == AfterFlush(w.consumer.stop)
  {
    BuryAll(v, |w.core.batch|);
  }

  // ... and what one that stored it does.
  lemma StoredSettles(w: State, v: State, inserted: nat, skipped: nat)
    requires w.consumer.Flushing? && w.core.batch != []
    requires v.core == w.core.(inserted := w.core.inserted + inserted)
    requires v.consumer == Storing(skipped, w.consumer.stop)
    ensures var w' := RunFrom(v, Times(Count, 1));
            w'.core == FlushAlone(w.core, Stored(inserted, skipped)) && w'.consumer == AfterFlush(w.consumer.stop)
  {
    RunTimes(v, Count, 1);
    CountSkipped(v);
  }

  // The state after a flush whose insert had that result.
  ghost predicate FlushedBy(w: State, v: State, result: Stored)
    requires w.consumer.Flushing?
  {
    var w' := RunFrom(v, Times(Count, if result.Refused? then |w.core.batch| + 1 else 1));
    w'.core == FlushAlone(w.core, result) && w'.consumer == AfterFlush(w.consumer.stop)
  }

  lemma CountingEndsFlush(w: State, rows: seq<Row>, committed: bool)
    requires w.consumer.Flushing? && |rows| == |w.core.batch| > 0
    ensures FlushedBy(w, Insert(w, rows, committed), Insertion(rows, committed && !w.cancelled))
  {
    InsertMoves(w, rows, committed);
    match Insertion(rows, committed && !w.cancelled)
    case Refused => RefusedSettles(w, Insert(w, rows, committed));
    case Stored(i, k) => StoredSettles(w, Insert(w, rows, committed), i, k);
  }

  // The steps of a flush after the batch is there.
  function FlushActions(rows: seq<Row>, committed: bool, cancelled: bool): seq<Action> {
    [Store(rows, committed)] + Times(Count, CountingSteps(rows, committed && !cancelled))
  }

  // The steps of one flush amount to FlushAlone; under a cancelled context the batch is refused.
  lemma FlushUninterrupted(w: State, rows: seq<Row>, committed: bool)
    requires w.consumer.Flushing? && |rows| == |w.core.batch| > 0
    ensures var w' := RunFrom(w, FlushActions(rows, committed, w.cancelled));
            && w'.core == FlushAlone(w.core, Insertion(rows, committed && !w.cancelled))
            && w'.consumer == AfterFlush(w.consumer.stop)
  {
    InsertMoves(w, rows, committed);
    RunConcat(w, [Store(rows, committed)], Times(Count, CountingSteps(rows, committed && !w.cancelled)));
    RunOne(w, Store(rows, committed));
    CountingEndsFlush(w, rows, committed);
  }

  // Whether a payload taken next fills the batch.
  predicate Fills(cfg: Config, s: Core, ok: bool) {
    ok && |s.batch| + 1 >= cfg.batchSize
  }

  function HandleActions(w: State, ok: bool, rows: seq<Row>, committed: bool): seq<Action> {
    [Take, Judge(ok)] + (if Fills(w.cfg, w.core, ok) then FlushActions(rows, committed, w.cancelled) else [])
  }

  lemma RunPair(w: State, a: Action, b: Action)
    ensures RunFrom(w, [a, b]) == Step(Step(w, a), b)
  {
    assert [a, b] == [a] + [b];
    RunConcat(w, [a], [b]);
    RunOne(w, a);
    RunOne(Step(w, a), b);
  }

  lemma TakeAndJudge(w: State, ok: bool)
    requires w.consumer.Waiting? && w.core.ch != []
    ensures var w' := RunFrom(w, [Take, Judge(ok)]);
            && w'.core == (if ok then w.core.(ch := w.core.ch[1..], batch := w.core.batch + [w.core.ch[0]])
                           else w.core.(ch := w.core.ch[1..], deadLetters := w.core.deadLetters + 1))
            && w'.consumer == (if Fills(w.cfg, w.core, ok) then Flushing(false) else Waiting)
            && w'.cancelled == w.cancelled
  {
    RunPair(w, Take, Judge(ok));
    assert w.core.ch == [w.core.ch[0]] + w.core.ch[1..];
  }

  // The steps of handling one payload amount to JudgeAlone, and the consumer waits again.
  lemma HandleUninterrupted(w: State, ok: bool, rows: seq<Row>, committed: bool)
    requires w.consumer.Waiting? && w.core.ch != [] && |rows| == |w.core.batch| + 1
    ensures var w' := RunFrom(w, HandleActions(w, ok, rows, committed));
            && w'.core == JudgeAlone(w.cfg, w.core, ok, Insertion(rows, committed && !w.cancelled))
            && w'.consumer.Waiting?
  {
    TakeAndJudge(w, ok);
    var taken := RunFrom(w, [Take, Judge(ok)]);
    var flush := if Fills(w.cfg, w.core, ok) then FlushActions(rows, committed, w.cancelled) else [];
    RunConcat(w, [Take, Judge(ok)], flush);
    if Fills(w.cfg, w.core, ok) {
      FlushUninterrupted(taken, rows, committed);
    }
  }

  // A committed batch without a broken row is stored, and only such a one.
  lemma StoredExactly(rows: seq<Row>, committed: bool)
    ensures Insertion(rows, committed).Stored? <==> committed && Broken !in rows
  {
    TallySums(rows);
  }

  // The timer flushes a batch that is not full, and the consumer waits again.
  lemma TickFlushes(w: State, rows: seq<Row>, committed: bool)
    requires w.consumer.Waiting? && |rows| == |w.core.batch| > 0
    ensures var w' := RunFrom(w, [Tick] + FlushActions(rows, committed, w.cancelled));
            && w'.core == FlushAlone(w.core, Insertion(rows, committed && !w.cancelled))
            && w'.core.batch == [] && w'.consumer.Waiting?
  {
    RunConcat(w, [Tick], FlushActions(rows, committed, w.cancelled));
    RunOne(w, Tick);
    FlushUninterrupted(Step(w, Tick), rows, committed);
  }

  // A consumer that notices the cancellation buries what is pending and stops.
  lemma NoticeStops(w: State, rows: seq<Row>, committed: bool)
    requires w.consumer.Waiting? && w.cancelled && |rows| == |w.core.batch| > 0
    ensures var w' := RunFrom(w, [Notice] + FlushActions(rows, committed, true));
            && w'.core == w.core.(batch := [], deadLetters := w.core.deadLetters + |w.core.batch|)
            && w'.consumer.Stopped?
  {
    RunConcat(w, [Notice], FlushActions(rows, committed, true));
    RunOne(w, Notice);
    FlushUninterrupted(Step(w, Notice), rows, committed);
  }

  lemma NoticeStopsEmpty(w: State, committed: bool)
    requires w.consumer.Waiting? && w.cancelled && w.core.batch == []
    ensures var w' := RunFrom(w, [Notice, Store([], committed)]); w'.core == w.core && w'.consumer.Stopped?
  {
    RunPair(w, Notice, Store([], committed));
  }

  // A call with nothing to say is no step at all.
  lemma EmptyIsIgnored(w: State, e: nat)
    ensures Step(w, Emit(e, [])) == w && EmitAlone(w.cfg, w.core, []) == w.core
  {
  }

  // ----- Shutdown -----

  // Since the context was cancelled in from, the counting of a batch stored before may have been
  // finished, and nothing else was stored.
  ghost predicate StoresNoMore(from: State, w: State) {
    && w.cancelled && w.core.inserted == from.core.inserted
    && if w.consumer.Storing? then
         && w.consumer == from.consumer && w.core.batch == from.core.batch
         && w.core.skipped == from.core.skipped && w.past.flushed == from.past.flushed
       else
         && w.core.skipped == from.core.skipped + (if from.consumer.Storing? then from.consumer.pending else 0)
         && Good(w.past.flushed) == Good(from.past.flushed) + (if from.consumer.Storing? then from.core.batch else [])
  }

  lemma CancelledStays(w: State, a: Action)
    requires a != Start && w.cancelled
    ensures Step(w, a).cancelled
  {
  }

  lemma CancelledInsert(w: State, rows: seq<Row>, committed: bool)
    requires w.cancelled && w.consumer.Flushing?
    ensures var v := Insert(w, rows, committed);
            && v.core.inserted == w.core.inserted && v.core.skipped == w.core.skipped
            && v.past.flushed == w.past.flushed && v.cancelled && !v.consumer.Storing?
  {
  }

  lemma CountingOn(from: State, w: State)
    requires StoresNoMore(from, w)
    ensures StoresNoMore(from, CountOn(w))
  {
    match w.consumer
    case Storing(_, _) => GoodSettles(w.past.flushed, w.core.batch, true);
    case Burying(_, _) => GoodSettles(w.past.flushed, w.core.batch, false);
    case _ =>
  }

  lemma EmittingOn(from: State, w: State, e: nat)
    requires StoresNoMore(from, w) && e < |w.emitters|
    ensures StoresNoMore(from, EmitterStep(w, e))
  {
    AdvanceSparesConsumer(w, e);
  }

  lemma StoresNoMoreOn(from: State, w: State, a: Action)
    requires StoresNoMore(from, w) && a != Start
    ensures StoresNoMore(from, Step(w, a))
  {
    CancelledStays(w, a);
    match a
    case Advance(e) => if e < |w.emitters| { EmittingOn(from, w, e); }
    case Store(rows, committed) => if w.consumer.Flushing? { CancelledInsert(w, rows, committed); }
    case Count => CountingOn(from, w);
    case _ =>
  }

  lemma StoppedAddsUp(w: State)
    requires Inv(w) && w.consumer.Stopped?
    ensures w.core.batch == []
    ensures w.core.inserted + w.core.skipped + w.core.deadLetters == |Good(w.past.left)|
  {
    FateCount(w.past.handled);
  }

  // The consumer goes on as long as nobody cancels: it is not stopped, and no flush under way stops it.
  ghost predicate GoesOn(w: State) {
    && !w.cancelled && !w.consumer.Stopped?
    && (w.consumer.Flushing? || w.consumer.Storing? || w.consumer.Burying? ==> !w.consumer.stop)
  }

  lemma GoesOnStep(w: State, a: Action)
    requires GoesOn(w) && a != Cancel
    ensures GoesOn(Step(w, a))
  {
  }

  // A consumer that is started, for the first time or again, goes on.
  lemma StartGoesOn(w: State)
    requires w.consumer.Stopped?
    ensures GoesOn(Step(w, Start)) && Step(w, Start).consumer.Waiting? && Step(w, Start).core == w.core
  {
  }

  lemma {:induction false} StopsOnlyWhenCancelled(w: State, actions: seq<Action>)
    requires GoesOn(w) && Cancel !in actions
    ensures GoesOn(RunFrom(w, actions))
    decreases |actions|
  {
    if actions != [] {
      var before, last := actions[..|actions| - 1], actions[|actions| - 1];
      assert forall a :: a in before ==> a in actions;
      StopsOnlyWhenCancelled(w, before);
      GoesOnStep(RunFrom(w, before), last);
    }
  }

  // From the cancellation on, whatever the consumer was at and whatever it still takes: nothing more
  // is stored. When it has stopped, no batch is left, and of all it ever took what was not stored
  // before is counted dead.
  lemma {:induction false} PendingAtStopIsBuried(w: State, actions: seq<Action>)
    requires Inv(w) && w.cancelled && Start !in actions
    ensures var v := RunFrom(w, actions);
            && Inv(v) && StoresNoMore(w, v)
            && (v.consumer.Stopped? ==>
                  v.core.batch == []
                  && v.core.inserted + v.core.skipped + v.core.deadLetters == |Good(v.past.left)|)
    decreases |actions|
  {
    if actions == [] {
      assert Good(w.past.flushed) + [] == Good(w.past.flushed);
    } else {
      var before, last := actions[..|actions| - 1], actions[|actions| - 1];
      assert forall a :: a in before ==> a in actions;
      PendingAtStopIsBuried(w, before);
      StoresNoMoreOn(w, RunFrom(w, before), last);
      StepKeeps(RunFrom(w, before), last);
    }
    if RunFrom(w, actions).consumer.Stopped? {
      StoppedAddsUp(RunFrom(w, actions));
    }
  }

  // ----- The writer's own code -----

  // What is held somewhere or accounted for: no payload is lost or counted twice.
  function Held(s: Core): nat {
    |s.ch| + |s.batch| + s.inserted + s.skipped + s.deadLetters
  }

  class Writer {
    const cfg: Config
    var ch: seq<Bytes>
    var batch: seq<Bytes>
    var queued: nat
    var dropped: nat
    var inserted: nat
    var skipped: nat
    var deadLetters: nat

    ghost function Now(): Core
      reads this
    {
      Core(ch, batch, queued, dropped, inserted, skipped, deadLetters)
    }

    ghost predicate Valid()
      reads this
    {
      cfg.channelSize > 0 && |ch| <= cfg.channelSize && |batch| < cfg.batchSize
    }

    constructor (cfg: Config)
      ensures Valid() && this.cfg == Normalized(cfg) && Now() == New(cfg, 0).core
    {
      this.cfg := Normalized(cfg);
      ch, batch := [], [];
      queued, dropped, inserted, skipped, deadLetters := 0, 0, 0, 0, 0;
    }

    // A call that nothing comes between; two of its branches are for others that do come between.
    method Emit(raw: Bytes)
      modifies this
      ensures old(Valid()) ==> Valid() && Now() == EmitAlone(cfg, old(Now()), raw)
    {
      if |raw| == 0 {
        return;
      }
      if |ch| < cfg.channelSize {
        ch := ch + [raw];
        queued := queued + 1;
        return;
      }
      if cfg.dropOldest {
        if |ch| > 0 {
          ch := ch[1..];
          dropped := dropped + 1;
        } else {
          dropped := dropped + 1;
          return;
        }
        if |ch| < cfg.channelSize {
          ch := ch + [raw];
          queued := queued + 1;
        } else {
          dropped := dropped + 1;
        }
        return;
      }
      dropped := dropped + 1;
    }

    // rows: what executing the insert says of each event of the batch.
    method Flush(rows: seq<Row>, committed: bool)
      requires |rows| == |batch|
      modifies this
      ensures Held(Now()) == old(Held(Now()))
      ensures batch == [] && Now() == FlushAlone(old(Now()), Insertion(rows, committed))
    {
      if |batch| == 0 {
        return;
      }
      TallySums(rows);
      var result := InsertEvents(rows, committed);
      if result.Refused? {
        for i := 0 to |batch|
          invariant Now() == old(Now()).(deadLetters := old(deadLetters) + i)
        {
          deadLetters := deadLetters + 1;
        }
      } else {
        inserted := inserted + result.inserted;
        skipped := skipped + result.skipped;
      }
      batch := [];
    }

    // One payload of the channel, normalised with success or not.
    method Handle(ok: bool, rows: seq<Row>, committed: bool)
      requires Valid() && |ch| > 0 && |rows| == |batch| + 1
      modifies this
      ensures Held(Now()) == old(Held(Now())) && ch == old(ch)[1..]
      ensures Valid() && Now() == JudgeAlone(cfg, old(Now()), ok, Insertion(rows, committed))
    {
      var raw := ch[0];
      ch := ch[1..];
      if !ok {
        deadLetters := deadLetters + 1;
        return;
      }
      batch := batch + [raw];
      if |batch| >= cfg.batchSize {
        Flush(rows, committed);
      }
    }
  }
}
