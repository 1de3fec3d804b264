/** The connection loop itself: bytes in, bytes out, and the queue in between. */
module RedisConnection {
  import opened Text
  import opened UsageQueue
  import opened Resp
  import opened RedisSession

  // ----- Writing replies -----

  lemma Regroup(a: Bytes, b: Bytes, c: Bytes)
    ensures (a + b) + c == a + (b + c)
  {
  }

  lemma SnocTail<T>(items: seq<T>, item: T)
    requires items != []
    ensures (items + [item])[0] == items[0] && (items + [item])[1..] == items[1..] + [item]
  {
  }

  lemma {:induction false} BulkStringsSnoc(items: seq<Option<Bytes>>, item: Option<Bytes>)
    ensures BulkStrings(items + [item]) == BulkStrings(items) + BulkString(item)
  {
    if items == [] {
      assert [item][1..] == [];
    } else {
      BulkStringsSnoc(items[1..], item);
      SnocTail(items, item);
      Regroup(BulkString(items[0]), BulkStrings(items[1..]), BulkString(item));
    }
  }

  lemma PrefixSnoc(items: seq<Option<Bytes>>, i: nat)
    requires i < |items|
    ensures BulkStrings(items[..i + 1]) == BulkStrings(items[..i]) + BulkString(items[i])
  {
    BulkStringsSnoc(items[..i], items[i]);
    assert items[..i] + [items[i]] == items[..i + 1];
  }

  class Writer {
    var out: Bytes

    constructor ()
      ensures out == []
    {
      out := [];
    }

    method WriteSimpleString(value: string)
      modifies this
      ensures out == old(out) + Encode(Simple(value))
    {
      out := out + ([PLUS] + BytesOf(value) + CRLF);
    }

    method WriteError(fault: Fault)
      modifies this
      ensures out == old(out) + Encode(Error(fault))
    {
      var message := FaultText(fault);
      out := out + ([MINUS] + BytesOf(message) + CRLF);
    }

    method WriteNilBulkString()
      modifies this
      ensures out == old(out) + BulkString(None)
    {
      assert Digits(1) == [49];
      assert BulkString(None) == [36, 45, 49, 13, 10];
      out := out + [36, 45, 49, 13, 10];
    }

    method WriteBulkString(payload: Option<Bytes>)
      modifies this
      ensures out == old(out) + BulkString(payload)
    {
      if payload.None? {
        WriteNilBulkString();
        return;
      }
      out := out + ([DOLLAR] + Itoa(|payload.value|) + CRLF);
      out := out + payload.value;
      out := out + CRLF;
    }

    method WriteArrayHeader(count: nat)
      modifies this
      ensures out == old(out) + ([STAR] + Itoa(count) + CRLF)
    {
      out := out + ([STAR] + Itoa(count) + CRLF);
    }

    method WriteInteger(value: nat)
      modifies this
      ensures out == old(out) + ([COLON] + Itoa(value) + CRLF)
    {
      out := out + ([COLON] + Itoa(value) + CRLF);
    }

    method WritePubSubSubscribe(channel: string, count: nat)
      modifies this
      ensures out == old(out) + Encode(Ack(channel, count))
    {
      AckForm(out, channel, count);
      WriteArrayHeader(3);
      WriteBulkString(Some(BytesOf("subscribe")));
      WriteBulkString(Some(BytesOf(channel)));
      WriteInteger(count);
    }

    method WriteArrayOfBulkStrings(items: seq<Option<Bytes>>)
      modifies this
      ensures out == old(out) + ArrayOfBulkStrings(items)
    {
      ghost var start := out;
      var header := [STAR] + Itoa(|items|) + CRLF;
      out := out + header;
      for i := 0 to |items|
        invariant out == start + header + BulkStrings(items[..i])
      {
        PrefixSnoc(items, i);
        Regroup(start + header, BulkStrings(items[..i]), BulkString(items[i]));
        WriteBulkString(items[i]);
      }
      assert items[..|items|] == items;
      Regroup(start, header, BulkStrings(items));
    }
  }

  lemma AckForm(out: Bytes, channel: string, count: nat)
    ensures out + ([STAR] + Itoa(3) + CRLF)
            + BulkString(Some(BytesOf("subscribe"))) + BulkString(Some(BytesOf(channel)))
            + ([COLON] + Itoa(count) + CRLF)
            == out + Encode(Ack(channel, count))
  {
    var header, sub, ch, n := [STAR] + Itoa(3) + CRLF, BulkString(Some(BytesOf("subscribe"))),
                              BulkString(Some(BytesOf(channel))), [COLON] + Itoa(count) + CRLF;
    Regroup(out, header, sub);
    Regroup(out, header + sub, ch);
    Regroup(out, header + sub + ch, n);
  }

  lemma Said(base: Bytes, replies: seq<Reply>, reply: Reply)
    ensures (base + EncodeAll(replies)) + Encode(reply) == base + EncodeAll(replies + [reply])
  {
    assert (replies + [reply])[..|replies|] == replies;
  }

  // ----- One command -----

  // The answer to a command that names no key.
  method Refuse(env: Env, fault: Fault, writer: Writer)
    modifies writer
    ensures writer.out == old(writer.out) + Encode(Refusal(env, fault))
  {
    if env.management.Checks? {
      var verdict := env.management.verdict([]);
      if verdict.banned {
        writer.WriteError(KeyRefused(verdict.message));
        return;
      }
    }
    writer.WriteError(fault);
  }

  method HandleAuth(args: seq<Bytes>, authed: bool, env: Env, writer: Writer) returns (authed': bool)
    modifies writer
    ensures AuthEffect(args, authed, env).Answer? && authed' == AuthEffect(args, authed, env).authed
    ensures writer.out == old(writer.out) + Encode(AuthEffect(args, authed, env).reply)
  {
    authed' := authed;
    var password := AuthPassword(args);
    if password.None? {
      Refuse(env, AuthArguments, writer);
      return;
    }
    if env.management.NoManagement? {
      writer.WriteError(ManagementOff);
      return;
    }
    var verdict := env.management.verdict(password.value);
    if !verdict.allowed {
      writer.WriteError(KeyRefused(verdict.message));
      return;
    }
    authed' := true;
    writer.WriteSimpleString("OK");
  }

  // Whether the connection now follows the channel.
  method HandleSubscribe(args: seq<Bytes>, writer: Writer) returns (subscribed: bool)
    modifies writer
    ensures subscribed <==> SubscribeEffect(args) == Subscribed
    ensures !subscribed ==> SubscribeEffect(args).Answer? && SubscribeEffect(args).authed
    ensures var reply := if subscribed then Ack(USAGE_CHANNEL, 1) else SubscribeEffect(args).reply;
            writer.out == old(writer.out) + Encode(reply)
  {
    subscribed := false;
    if |args| != 2 {
      writer.WriteError(SubscribeArguments);
      return;
    }
    var channel := Trim(TextOf(args[1]));
    if !EqualFold(channel, USAGE_CHANNEL) {
      writer.WriteError(BadChannel(channel));
      return;
    }
    subscribed := true;
    writer.WritePubSubSubscribe(USAGE_CHANNEL, 1);
  }

  method WritePopped(items: seq<Bytes>, hasCount: bool, writer: Writer)
    modifies writer
    ensures writer.out == old(writer.out) + Encode(PopReply(items, hasCount))
  {
    if hasCount {
      writer.WriteArrayOfBulkStrings(Somes(items));
      return;
    }
    if |items| == 0 {
      writer.WriteNilBulkString();
      return;
    }
    writer.WriteBulkString(Some(items[0]));
  }

  lemma PruneLeaves(w: World, cutoff: int)
    ensures Prune(w, cutoff).live == Pruned(w.live, cutoff)
  {
  }

  lemma TakeLeaves(w: World, n: nat, reason: Reason)
    requires n <= |w.live|
    ensures Take(w, n, reason).live == w.live[n..]
  {
  }

  lemma PopLeaves(w: World, count: nat, now: int, window: int, reason: Reason)
    ensures var kept := Pruned(w.live, Cutoff(now, window));
            PopOldest(w, count, now, window, reason).live == kept[Least(count, |kept|)..]
  {
    var p := Prune(w, Cutoff(now, window));
    PruneLeaves(w, Cutoff(now, window));
    TakeLeaves(p, Least(count, |p.live|), reason);
  }

  // redisqueue.PopOldest: nothing while the usage output is off.
  method PopUsage(count: nat, env: Env, queue: Queue, ghost w: World) returns (items: seq<Bytes>)
    requires queue.Valid() && w.live == queue.Live() && count > 0
    modifies queue
    ensures queue.Valid()
    ensures !env.usageEnabled ==> items == [] && queue.Live() == old(queue.Live())
    ensures env.usageEnabled ==> items == Popped(w.live, count, env.now, env.window)
    ensures env.usageEnabled ==> queue.Live() == PopOldest(w, count, env.now, env.window, Mine).live
  {
    if !env.usageEnabled {
      return [];
    }
    PopLeaves(w, count, env.now, env.window, Mine);
    items := queue.PopOldest(count, env.now, env.window);
  }

  lemma PopSays(w: World, count: nat, hasCount: bool, env: Env)
    ensures var w' := PopAndSay(w, count, hasCount, env);
            && w'.authed == w.authed && w'.open == env.flushed
            && w'.replies == w.replies
              + [PopReply(if env.usageEnabled then Popped(w.live, count, env.now, env.window) else [], hasCount)]
            && w'.live == if env.usageEnabled then PopOldest(w, count, env.now, env.window, Mine).live else w.live
  {
  }

  method HandlePop(args: seq<Bytes>, cmd: string, env: Env, writer: Writer, queue: Queue, ghost base: Bytes,
                   ghost w: World)
    requires queue.Valid() && w.live == queue.Live() && w.authed
    requires writer.out == base + EncodeAll(w.replies)
    modifies writer, queue
    ensures queue.Valid()
    ensures var w' := Carry(w, PopEffect(args, cmd), env);
            && queue.Live() == w'.live && w'.authed && w'.open == env.flushed
            && writer.out == base + EncodeAll(w'.replies)
  {
    var count := PopCount(args);
    if count.None? {
      Said(base, w.replies, PopEffect(args, cmd).reply);
      writer.WriteError(PopArguments(cmd));
      return;
    }
    if count.value.0 <= 0 {
      Said(base, w.replies, PopEffect(args, cmd).reply);
      writer.WriteError(BadCount);
      return;
    }
    var items := PopUsage(count.value.0, env, queue, w);
    PopSays(w, count.value.0, count.value.1, env);
    Said(base, w.replies, PopReply(items, count.value.1));
    WritePopped(items, count.value.1, writer);
  }

  // What an effect that is answered at once, or with an acknowledgement, leaves and writes.
  lemma AnswerCarried(base: Bytes, w: World, effect: Effect, env: Env)
    requires effect.Answer?
    ensures var w' := Carry(w, effect, env);
            && w'.live == w.live && w'.authed == effect.authed && w'.open == env.flushed
            && base + EncodeAll(w'.replies) == base + EncodeAll(w.replies) + Encode(effect.reply)
  {
    Said(base, w.replies, effect.reply);
  }

  lemma AckCarried(base: Bytes, w: World, env: Env)
    ensures var w' := Carry(w, Subscribed, env);
            && w'.live == w.live && w'.authed == w.authed && !w'.open
            && base + EncodeAll(w'.replies) == base + EncodeAll(w.replies) + Encode(Ack(USAGE_CHANNEL, 1))
  {
    Said(base, w.replies, Ack(USAGE_CHANNEL, 1));
  }

  // A command on a connection that is let in.
  method HandleAuthed(args: seq<Bytes>, cmd: string, env: Env, writer: Writer, queue: Queue, ghost base: Bytes,
                      ghost w: World)
    returns (open: bool)
    requires queue.Valid() && w.live == queue.Live() && w.authed && VerbOf(cmd) != AuthVerb
    requires writer.out == base + EncodeAll(w.replies)
    modifies writer, queue
    ensures queue.Valid()
    ensures var w' := Carry(w, CommandEffect(args, cmd, true, env), env);
            && queue.Live() == w'.live && w'.authed && open == w'.open && writer.out == base + EncodeAll(w'.replies)
  {
    open := env.flushed;
    match VerbOf(cmd) {
      case SubscribeVerb =>
        var subscribed := HandleSubscribe(args, writer);
        if subscribed {
          AckCarried(base, w, env);
          open := false;
        } else {
          AnswerCarried(base, w, SubscribeEffect(args), env);
        }
      case PopVerb =>
        HandlePop(args, cmd, env, writer, queue, base, w);
      case OtherVerb =>
        AnswerCarried(base, w, Answer(Error(UnknownCommand(cmd)), true), env);
        writer.WriteError(UnknownCommand(cmd));
    }
  }

  // One pass of the loop over a command that could be read.
  method HandleOne(args: seq<Bytes>, authed: bool, env: Env, writer: Writer, queue: Queue, ghost base: Bytes,
                   ghost w: World)
    returns (authed': bool, open: bool)
    requires queue.Valid() && w.live == queue.Live() && w.authed == authed
    requires writer.out == base + EncodeAll(w.replies)
    modifies writer, queue
    ensures queue.Valid()
    ensures var w' := HandleCommand(w, args, env);
            && queue.Live() == w'.live && authed' == w'.authed && open == w'.open
            && writer.out == base + EncodeAll(w'.replies)
  {
    authed', open := authed, env.flushed;
    if |args| == 0 {
      AnswerCarried(base, w, Answer(Error(EmptyCommand), authed), env);
      writer.WriteError(EmptyCommand);
      return;
    }
    var cmd := Command(args);
    if VerbOf(cmd) == AuthVerb {
      authed' := HandleAuth(args, authed, env, writer);
      AnswerCarried(base, w, AuthEffect(args, authed, env), env);
    } else if !authed {
      AnswerCarried(base, w, Answer(Refusal(env, NotAuthed), false), env);
      Refuse(env, NotAuthed, writer);
    } else {
      open := HandleAuthed(args, cmd, env, writer, queue, base, w);
    }
  }

  // ----- Everything else that uses the queue -----

  // The uses of the queue from elsewhere before a command is handled, and what it then finds.
  datatype Turn = Turn(others: seq<Other>, env: Env)

  function AfterOthers(w: World, others: seq<Other>): World
    decreases |others|
  {
    if others == [] then w else AfterOthers(Disturb(w, others[0]), others[1..])
  }

  // What a use of the queue from elsewhere leaves in it.
  function Left(live: seq<Item>, other: Other): seq<Item> {
    match other
    case Arrival(payload, now, window) => Pruned(live, Cutoff(now, window)) + [Item(now, payload)]
    case OtherPop(count, now, window) =>
      if count == 0 then live
      else
        var kept := Pruned(live, Cutoff(now, window));
        kept[Least(count, |kept|)..]
    case Peek(now, window) => Pruned(live, Cutoff(now, window))
    case ClearAll => []
  }

  lemma AddLeaves(w: World, item: Item, live: seq<Item>)
    requires w.live == live
    ensures Add(w, item).live == live + [item]
  {
  }

  lemma DisturbLeaves(w: World, other: Other)
    ensures Disturb(w, other).live == Left(w.live, other)
  {
    match other
    case Arrival(payload, now, window) =>
      PruneLeaves(w, Cutoff(now, window));
      AddLeaves(Prune(w, Cutoff(now, window)), Item(now, payload), Pruned(w.live, Cutoff(now, window)));
    case OtherPop(count, now, window) => PopLeaves(w, count, now, window, Others);
    case Peek(now, window) => PruneLeaves(w, Cutoff(now, window));
    case ClearAll => TakeLeaves(w, |w.live|, Cleared);
  }

  method PopElsewhere(queue: Queue, count: nat, now: int, window: int)
    requires queue.Valid()
    modifies queue
    ensures queue.Valid() && queue.Live() == Left(old(queue.Live()), OtherPop(count, now, window))
  {
    if count > 0 {
      var out := queue.PopOldest(count, now, window);
    }
  }

  method UseQueue(queue: Queue, other: Other)
    requires queue.Valid()
    modifies queue
    ensures queue.Valid() && queue.Live() == Left(old(queue.Live()), other)
  {
    match other
    case Arrival(payload, now, window) => queue.Enqueue(payload, now, window);
    case OtherPop(count, now, window) => PopElsewhere(queue, count, now, window);
    case Peek(now, window) => var out := queue.PeekAll(now, window);
    case ClearAll => queue.Clear();
  }

  method UseQueueOften(queue: Queue, others: seq<Other>, ghost w: World)
    requires queue.Valid() && w.live == queue.Live()
    modifies queue
    ensures queue.Valid() && queue.Live() == AfterOthers(w, others).live
    decreases |others|
  {
    if |others| > 0 {
      DisturbLeaves(w, others[0]);
      OthersFirst(w, others);
      UseQueue(queue, others[0]);
      UseQueueOften(queue, others[1..], Disturb(w, others[0]));
    }
  }

  // ----- The loop -----

  function Session(w: World, input: Bytes, turns: nat -> Turn, k: nat): World
    decreases |input|
  {
    if !turns(k).env.routesEnabled then w.(open := false)
    else
      match ReadArray(input)
      case Failed(e) =>
        if e == EndOfInput then w.(open := false)
        else w.(replies := w.replies + [Error(Unreadable(e))], open := false)
      case Done(args, rest) =>
        var w' := HandleCommand(AfterOthers(w, turns(k).others), args, turns(k).env);
        if w'.open then Session(w', rest, turns, k + 1) else w'
  }

  // The client's side of the connection is as it was.
  ghost predicate SaidNothing(w: World, w': World) {
    w'.replies == w.replies && w'.authed == w.authed && w'.open == w.open && w'.subscribed == w.subscribed
  }

  lemma OtherSaysNothing(w: World, other: Other)
    ensures SaidNothing(w, Disturb(w, other))
  {
  }

  lemma SaidNothingTwice(w: World, w': World, w'': World)
    requires SaidNothing(w, w') && SaidNothing(w', w'')
    ensures SaidNothing(w, w'')
  {
  }

  lemma OthersFirst(w: World, others: seq<Other>)
    requires others != []
    ensures AfterOthers(w, others) == AfterOthers(Disturb(w, others[0]), others[1..])
  {
  }

  lemma {:induction false} OthersSayNothing(w: World, others: seq<Other>)
    ensures SaidNothing(w, AfterOthers(w, others))
    decreases |others|
  {
    if others != [] {
      var next := Disturb(w, others[0]);
      OtherSaysNothing(w, others[0]);
      OthersSayNothing(next, others[1..]);
      OthersFirst(w, others);
      SaidNothingTwice(w, next, AfterOthers(w, others));
    }
  }

  // What is written is the replies of the session, in order, and the queue is left as the session
  // leaves it.
  method HandleConnection(home: bool, reader: Reader, writer: Writer, queue: Queue, turns: nat -> Turn)
    requires queue.Valid()
    modifies reader, writer, queue
    ensures queue.Valid()
    ensures home ==> writer.out == old(writer.out) + Encode(Error(HomeMode)) && queue.Live() == old(queue.Live())
    ensures var w := Session(Start(old(queue.Live())), old(reader.data), turns, 0);
            !home ==> writer.out == old(writer.out) + EncodeAll(w.replies) && queue.Live() == w.live
  {
    if home {
      writer.WriteError(HomeMode);
      return;
    }
    ghost var base := writer.out;
    ghost var w := Start(queue.Live());
    ghost var end := Session(w, reader.data, turns, 0);
    assert base + [] == base;
    var authed, open, k := false, true, 0;
    while open
      invariant queue.Valid() && w.live == queue.Live() && w.authed == authed && w.open == open
      invariant writer.out == base + EncodeAll(w.replies)
      invariant end == if open then Session(w, reader.data, turns, k) else w
      decreases open, |reader.data|
    {
      if !turns(k).env.routesEnabled {
        return;
      }
      ghost var input := reader.data;
      var r := reader.ReadRESPArray();
      if r.Err? {
        if r.error != EndOfInput {
          Said(base, w.replies, Error(Unreadable(r.error)));
          writer.WriteError(Unreadable(r.error));
        }
        return;
      }
      assert ReadArray(input) == Done(r.value, reader.data);
      UseQueueOften(queue, turns(k).others, w);
      OthersSayNothing(w, turns(k).others);
      w := AfterOthers(w, turns(k).others);
      authed, open := HandleOne(r.value, authed, turns(k).env, writer, queue, base, w);
      w := HandleCommand(w, r.value, turns(k).env);
      k := k + 1;
    }
  }

  // ----- The loop as a run -----

  function Elsewheres(others: seq<Other>): (r: seq<Event>)
    ensures |r| == |others|
  {
    seq(|others|, i requires 0 <= i < |others| => Elsewhere(others[i]))
  }

  // The events of a session, in order.
  function Script(w: World, input: Bytes, turns: nat -> Turn, k: nat): seq<Event>
    decreases |input|
  {
    if !turns(k).env.routesEnabled || ReadArray(input).Failed? then []
    else
      var r := ReadArray(input);
      var w' := HandleCommand(AfterOthers(w, turns(k).others), r.value, turns(k).env);
      Elsewheres(turns(k).others) + [Handle(r.value, turns(k).env)]
        + (if w'.open then Script(w', r.rest, turns, k + 1) else [])
  }

  lemma RunMore(w: World, events: seq<Event>, e: Event)
    ensures RunFrom(w, events + [e]) == Next(RunFrom(w, events), e)
  {
    assert (events + [e])[..|events|] == events;
  }

  lemma LastOff<T>(a: seq<T>, b: seq<T>)
    requires b != []
    ensures b == b[..|b| - 1] + [b[|b| - 1]] && a + b == (a + b[..|b| - 1]) + [b[|b| - 1]]
  {
  }

  lemma {:induction false} RunConcat(w: World, a: seq<Event>, b: seq<Event>)
    ensures RunFrom(w, a + b) == RunFrom(RunFrom(w, a), b)
    decreases |b|
  {
    if b == [] {
      assert a + b == a;
    } else {
      var front, last := b[..|b| - 1], b[|b| - 1];
      LastOff(a, b);
      RunConcat(w, a, front);
      RunMore(w, a + front, last);
      RunMore(RunFrom(w, a), front, last);
    }
  }

  lemma RunOne(w: World, e: Event)
    ensures RunFrom(w, [e]) == Next(w, e)
  {
    assert [e][..0] == [];
  }

  lemma ElsewheresFirst(others: seq<Other>)
    requires others != []
    ensures Elsewheres(others) == [Elsewhere(others[0])] + Elsewheres(others[1..])
  {
  }

  lemma {:induction false} OthersRun(w: World, others: seq<Other>)
    ensures RunFrom(w, Elsewheres(others)) == AfterOthers(w, others)
    decreases |others|
  {
    if others != [] {
      RunOne(w, Elsewhere(others[0]));
      OthersRun(Disturb(w, others[0]), others[1..]);
      RunConcat(w, [Elsewhere(others[0])], Elsewheres(others[1..]));
      ElsewheresFirst(others);
    }
  }

  lemma TurnRuns(w: World, t: Turn, args: seq<Bytes>, more: seq<Event>)
    requires w.open
    ensures RunFrom(w, Elsewheres(t.others) + [Handle(args, t.env)] + more)
            == RunFrom(HandleCommand(AfterOthers(w, t.others), args, t.env), more)
  {
    OthersRun(w, t.others);
    OthersSayNothing(w, t.others);
    RunConcat(w, Elsewheres(t.others), [Handle(args, t.env)]);
    RunOne(AfterOthers(w, t.others), Handle(args, t.env));
    RunConcat(w, Elsewheres(t.others) + [Handle(args, t.env)], more);
  }

  // The session is the run of its script, but for the error told to a client whose bytes are no
  // command.
  ghost predicate EndsLike(end: World, w: World) {
    && end.(open := true, replies := []) == w.(open := true, replies := [])
    && w.replies <= end.replies && |end.replies| <= |w.replies| + 1
    && (|end.replies| > |w.replies| ==> end.replies[|w.replies|].Error?)
  }

  lemma {:induction false} SessionIsRun(w: World, input: Bytes, turns: nat -> Turn, k: nat)
    requires w.open
    ensures EndsLike(Session(w, input, turns, k), RunFrom(w, Script(w, input, turns, k)))
    decreases |input|
  {
    if turns(k).env.routesEnabled && ReadArray(input).Done? {
      var r := ReadArray(input);
      var w' := HandleCommand(AfterOthers(w, turns(k).others), r.value, turns(k).env);
      TurnRuns(w, turns(k), r.value, if w'.open then Script(w', r.rest, turns, k + 1) else []);
      if w'.open {
        SessionIsRun(w', r.rest, turns, k + 1);
      }
    }
  }

  // One error more carries nothing.
  lemma ErrorCarriesNothing(replies: seq<Reply>, more: seq<Reply>)
    requires replies <= more && |more| <= |replies| + 1 && (|more| > |replies| ==> more[|replies|].Error?)
    ensures CarriedAll(more) == CarriedAll(replies)
  {
    if |more| > |replies| {
      CarriedSaid(replies, more[|replies|]);
      assert replies + [more[|replies|]] == more;
      assert CarriedAll(replies) + [] == CarriedAll(replies);
    } else {
      assert more == replies;
    }
  }

  lemma EndConserves(initial: seq<Item>, end: World, w: World)
    requires EndsLike(end, w) && Conserved(initial, w)
    ensures Conserved(initial, end)
  {
    ErrorCarriesNothing(w.replies, end.replies);
  }

  // Whatever bytes a client sends: the payloads written to it are exactly those its session took
  // from the queue, oldest first, and nothing that was in the queue is lost or out of order.
  lemma SessionConserves(initial: seq<Item>, input: Bytes, turns: nat -> Turn)
    ensures Conserved(initial, Session(Start(initial), input, turns, 0))
  {
    var script := Script(Start(initial), input, turns, 0);
    SessionIsRun(Start(initial), input, turns, 0);
    RunConserves(initial, script);
    EndConserves(initial, Session(Start(initial), input, turns, 0), RunFrom(Start(initial), script));
  }

  // ----- Commands sent one after the other -----

  function Pipeline(commands: seq<seq<Bytes>>): Bytes {
    if commands == [] then [] else ArrayOfBulkStrings(Somes(commands[0])) + Pipeline(commands[1..])
  }

  function Handles(commands: seq<seq<Bytes>>, turns: nat -> Turn, k: nat): seq<Event> {
    if commands == [] then [] else [Handle(commands[0], turns(k).env)] + Handles(commands[1..], turns, k + 1)
  }

  lemma {:induction false} ReadBacksSomes(items: seq<Bytes>)
    ensures ReadBacks(Somes(items)) == items
  {
    if items != [] {
      assert Somes(items)[1..] == Somes(items[1..]);
      ReadBacksSomes(items[1..]);
    }
  }

  lemma PipelineReads(commands: seq<seq<Bytes>>)
    requires commands != [] && |commands[0]| <= MAX_INT
    requires forall i :: 0 <= i < |commands[0]| ==> |commands[0][i]| <= MAX_INT
    ensures ReadArray(Pipeline(commands)) == Done(commands[0], Pipeline(commands[1..]))
  {
    ArrayRoundTrip(Somes(commands[0]), Pipeline(commands[1..]));
    ReadBacksSomes(commands[0]);
  }

  lemma FirstHandled(w: World, commands: seq<seq<Bytes>>, turns: nat -> Turn, k: nat)
    requires w.open && commands != []
    ensures RunFrom(w, Handles(commands, turns, k))
            == RunFrom(HandleCommand(w, commands[0], turns(k).env), Handles(commands[1..], turns, k + 1))
  {
    RunConcat(w, [Handle(commands[0], turns(k).env)], Handles(commands[1..], turns, k + 1));
    RunOne(w, Handle(commands[0], turns(k).env));
  }

  lemma {:induction false} ClosedStays(w: World, commands: seq<seq<Bytes>>, turns: nat -> Turn, k: nat)
    requires !w.open
    ensures RunFrom(w, Handles(commands, turns, k)) == w
    decreases |commands|
  {
    if commands != [] {
      RunConcat(w, [Handle(commands[0], turns(k).env)], Handles(commands[1..], turns, k + 1));
      RunOne(w, Handle(commands[0], turns(k).env));
      ClosedStays(w, commands[1..], turns, k + 1);
    }
  }

  lemma SessionStep(w: World, input: Bytes, args: seq<Bytes>, rest: Bytes, turns: nat -> Turn, k: nat)
    requires turns(k).others == [] && turns(k).env.routesEnabled && ReadArray(input) == Done(args, rest)
    ensures var next := HandleCommand(w, args, turns(k).env);
            Session(w, input, turns, k) == if next.open then Session(next, rest, turns, k + 1) else next
  {
  }

  lemma SessionEnds(w: World, turns: nat -> Turn, k: nat)
    ensures Session(w, [], turns, k) == w.(open := false)
  {
  }

  // Nobody else at the queue, and the routes on.
  ghost predicate Undisturbed(turns: nat -> Turn) {
    forall i: nat :: turns(i).others == [] && turns(i).env.routesEnabled
  }

  // Short enough for lengths to be numbers.
  ghost predicate Sendable(commands: seq<seq<Bytes>>) {
    forall c :: c in commands ==> |c| <= MAX_INT && forall i :: 0 <= i < |c| ==> |c[i]| <= MAX_INT
  }

  lemma SendableRest(commands: seq<seq<Bytes>>)
    requires Sendable(commands) && commands != []
    ensures Sendable(commands[1..])
  {
    assert forall c :: c in commands[1..] ==> c in commands;
  }

  lemma PipelineFirst(w: World, commands: seq<seq<Bytes>>, turns: nat -> Turn, k: nat)
    requires Undisturbed(turns) && Sendable(commands) && commands != []
    ensures var next := HandleCommand(w, commands[0], turns(k).env);
            Session(w, Pipeline(commands), turns, k)
            == if next.open then Session(next, Pipeline(commands[1..]), turns, k + 1) else next
  {
    assert commands[0] in commands;
    PipelineReads(commands);
    SessionStep(w, Pipeline(commands), commands[0], Pipeline(commands[1..]), turns, k);
  }

  // A client that sends commands one after the other, with nobody else at the queue, gets all of them
  // handled, in order, until the connection closes.
  lemma {:induction false} PipelineRuns(w: World, commands: seq<seq<Bytes>>, turns: nat -> Turn, k: nat)
    requires w.open && Undisturbed(turns) && Sendable(commands)
    ensures Session(w, Pipeline(commands), turns, k) == RunFrom(w, Handles(commands, turns, k)).(open := false)
    decreases |commands|
  {
    if commands == [] {
      SessionEnds(w, turns, k);
    } else {
      var next := HandleCommand(w, commands[0], turns(k).env);
      PipelineFirst(w, commands, turns, k);
      FirstHandled(w, commands, turns, k);
      SendableRest(commands);
      if next.open {
        PipelineRuns(next, commands[1..], turns, k + 1);
      } else {
        ClosedStays(next, commands[1..], turns, k + 1);
      }
    }
  }
}
