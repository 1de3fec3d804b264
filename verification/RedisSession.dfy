/** One connection to the usage port: commands in, one reply each out, payloads leaving the queue
    from the front. */
module RedisSession {
  import opened Text
  import opened UsageQueue
  import opened Resp

  // ----- Texts on the wire -----

  // A byte beyond ASCII stands for itself: it is neither white space nor a letter.
  function CharOf(b: byte): char {
    if b < 128 then b as char else (b as int + 0xE000) as char
  }

  function TextOf(b: Bytes): (s: string)
    ensures |s| == |b|
  {
    seq(|b|, i requires 0 <= i < |b| => CharOf(b[i]))
  }

  function BytesOf(s: string): (b: Bytes)
    ensures |b| == |s|
  {
    seq(|s|, i requires 0 <= i < |s| => (s[i] as int % 256) as byte)
  }

  function UpperChar(c: char): char {
    if 'a' <= c <= 'z' then (c as int - 32) as char else c
  }

  function ToUpper(s: string): (t: string)
    ensures |t| == |s|
  {
    seq(|s|, i requires 0 <= i < |s| => UpperChar(s[i]))
  }

  // ----- Replies -----

  datatype Fault =
    | EmptyCommand
    | NotAuthed
    | KeyRefused(message: string)
    | AuthArguments
    | ManagementOff
    | SubscribeArguments
    | BadChannel(channel: string)
    | PopArguments(cmd: string)
    | BadCount
    | UnknownCommand(cmd: string)
    | HomeMode
    | Unreadable(error: ReadError)

  function FaultText(fault: Fault): string {
    match fault
    case EmptyCommand => "ERR empty command"
    case NotAuthed => "NOAUTH Authentication required."
    case KeyRefused(message) => "ERR " + message
    case AuthArguments => "ERR wrong number of arguments for 'auth' command"
    case ManagementOff => "ERR remote management disabled"
    case SubscribeArguments => "ERR wrong number of arguments for 'subscribe' command"
    case BadChannel(channel) => "ERR unsupported channel '" + channel + "'"
    case PopArguments(cmd) => "ERR wrong number of arguments for '" + ToLower(cmd) + "' command"
    case BadCount => "ERR value is not an integer or out of range"
    case UnknownCommand(cmd) => "ERR unknown command '" + ToLower(cmd) + "'"
    case HomeMode => "ERR redis usage output disabled in home mode"
    case Unreadable(error) => "ERR " + ErrorText(error)
  }

  function ErrorText(error: ReadError): string {
    match error
    case EndOfInput => "EOF"
    case UnexpectedEnd => "unexpected EOF"
    case ProtocolError => "protocol error"
  }

  datatype Reply =
    | Error(fault: Fault)
    | Simple(text: string)
    | NilBulk
    | Bulk(payload: Bytes)
    | Array(items: seq<Bytes>)
    | Ack(channel: string, count: nat)

  function Somes(items: seq<Bytes>): (r: seq<Option<Bytes>>)
    ensures |r| == |items|
  {
    seq(|items|, i requires 0 <= i < |items| => Some(items[i]))
  }

  function Encode(reply: Reply): Bytes {
    match reply
    case Error(fault) => [MINUS] + BytesOf(FaultText(fault)) + CRLF
    case Simple(text) => [PLUS] + BytesOf(text) + CRLF
    case NilBulk => BulkString(None)
    case Bulk(payload) => BulkString(Some(payload))
    case Array(items) => ArrayOfBulkStrings(Somes(items))
    case Ack(channel, count) =>
      [STAR] + Itoa(3) + CRLF + BulkString(Some(BytesOf("subscribe"))) + BulkString(Some(BytesOf(channel)))
      + ([COLON] + Itoa(count) + CRLF)
  }

  function EncodeAll(replies: seq<Reply>): Bytes {
    if replies == [] then [] else EncodeAll(replies[..|replies| - 1]) + Encode(replies[|replies| - 1])
  }

  // The payloads a reply carries.
  function Carried(reply: Reply): seq<Bytes> {
    match reply
    case Bulk(payload) => [payload]
    case Array(items) => items
    case _ => []
  }

  function CarriedAll(replies: seq<Reply>): seq<Bytes> {
    if replies == [] then [] else CarriedAll(replies[..|replies| - 1]) + Carried(replies[|replies| - 1])
  }

  const USAGE_CHANNEL := "usage"

  // ----- What a command finds -----

  // The key check of the management API: switched off, or its verdict on each key.
  datatype Verdict = Verdict(allowed: bool, banned: bool, message: string)
  datatype Management = NoManagement | Checks(verdict: Bytes -> Verdict)

  // flushed: whether the reply could be sent.
  datatype Env = Env(routesEnabled: bool, usageEnabled: bool, management: Management, now: int, window: int,
                     flushed: bool)

  // The answer to a command that names no key: a banned client is told so.
  function Refusal(env: Env, fault: Fault): Reply {
    if env.management.Checks? && env.management.verdict([]).banned
    then Error(KeyRefused(env.management.verdict([]).message))
    else Error(fault)
  }

  function Command(args: seq<Bytes>): string
    requires args != []
  {
    ToUpper(Trim(TextOf(args[0])))
  }

  // parseAuthPassword: a user name is accepted and ignored.
  function AuthPassword(args: seq<Bytes>): Option<Bytes> {
    if |args| == 2 then Some(args[1]) else if |args| == 3 then Some(args[2]) else None
  }

  // parsePopCount: the count, and whether it was given; 0 when it is no number.
  function PopCount(args: seq<Bytes>): Option<(int, bool)> {
    if |args| == 2 then Some((1, false))
    else if |args| == 3 then
      match Atoi(BytesOf(Trim(TextOf(args[2]))))
      case None => Some((0, true))
      case Some(n) => Some((n, true))
    else None
  }

  // ----- The effect of a command -----

  datatype Effect =
    | Answer(reply: Reply, authed: bool)
    | Pop(count: nat, hasCount: bool)
    | Subscribed

  datatype Verb = AuthVerb | SubscribeVerb | PopVerb | OtherVerb

  function VerbOf(cmd: string): Verb {
    if cmd == "AUTH" then AuthVerb
    else if cmd == "SUBSCRIBE" then SubscribeVerb
    else if cmd == "LPOP" || cmd == "RPOP" then PopVerb
    else OtherVerb
  }

  function AuthEffect(args: seq<Bytes>, authed: bool, env: Env): Effect {
    match AuthPassword(args)
    case None => Answer(Refusal(env, AuthArguments), authed)
    case Some(password) =>
      if env.management.NoManagement? then Answer(Error(ManagementOff), authed)
      else if !env.management.verdict(password).allowed
      then Answer(Error(KeyRefused(env.management.verdict(password).message)), authed)
      else Answer(Simple("OK"), true)
  }

  // Of a connection that is let in.
  function SubscribeEffect(args: seq<Bytes>): Effect {
    if |args| != 2 then Answer(Error(SubscribeArguments), true)
    else if !EqualFold(Trim(TextOf(args[1])), USAGE_CHANNEL) then Answer(Error(BadChannel(Trim(TextOf(args[1])))), true)
    else Subscribed
  }

  function PopEffect(args: seq<Bytes>, cmd: string): Effect {
    match PopCount(args)
    case None => Answer(Error(PopArguments(cmd)), true)
    case Some((count, hasCount)) => if count <= 0 then Answer(Error(BadCount), true) else Pop(count, hasCount)
  }

  function CommandEffect(args: seq<Bytes>, cmd: string, authed: bool, env: Env): Effect {
    match VerbOf(cmd)
    case AuthVerb => AuthEffect(args, authed, env)
    case verb =>
      if !authed then Answer(Refusal(env, NotAuthed), false)
      else match verb
        case SubscribeVerb => SubscribeEffect(args)
        case PopVerb => PopEffect(args, cmd)
        case _ => Answer(Error(UnknownCommand(cmd)), true)
  }

  function EffectOf(args: seq<Bytes>, authed: bool, env: Env): Effect {
    if args == [] then Answer(Error(EmptyCommand), authed) else CommandEffect(args, Command(args), authed, env)
  }

  function PopReply(items: seq<Bytes>, hasCount: bool): Reply {
    if hasCount then Array(items) else if items == [] then NilBulk else Bulk(items[0])
  }

  // ----- The queue and the connection as one world -----

  // How an item left the queue.
  datatype Reason = Expired | Mine | Others | Cleared
  datatype Gone = Gone(item: Item, reason: Reason)

  // arrived, gone and replies are the history of the run; a connection that subscribed leaves the
  // loop and goes on elsewhere.
  datatype World = World(live: seq<Item>, arrived: seq<Item>, gone: seq<Gone>,
                         authed: bool, replies: seq<Reply>, open: bool, subscribed: bool)

  function Leaving(items: seq<Item>, reason: Reason): (r: seq<Gone>)
    ensures |r| == |items|
  {
    seq(|items|, i requires 0 <= i < |items| => Gone(items[i], reason))
  }

  function Take(w: World, n: nat, reason: Reason): World
    requires n <= |w.live|
  {
    w.(live := w.live[n..], gone := w.gone + Leaving(w.live[..n], reason))
  }

  function Prune(w: World, cutoff: int): World {
    Take(w, |w.live| - |Pruned(w.live, cutoff)|, Expired)
  }

  function PopOldest(w: World, count: nat, now: int, window: int, reason: Reason): World {
    var p := Prune(w, Cutoff(now, window));
    Take(p, Least(count, |p.live|), reason)
  }

  // What PopOldest returns.
  function Popped(live: seq<Item>, count: nat, now: int, window: int): seq<Bytes> {
    var kept := Pruned(live, Cutoff(now, window));
    Payloads(kept[..Least(count, |kept|)])
  }

  // What happens to the queue from elsewhere.
  datatype Other =
    | Arrival(payload: Bytes, now: int, window: int)
    | OtherPop(count: nat, now: int, window: int)
    | Peek(now: int, window: int)
    | ClearAll

  datatype Event = Elsewhere(other: Other) | Handle(args: seq<Bytes>, env: Env)

  function Add(w: World, item: Item): World {
    w.(live := w.live + [item], arrived := w.arrived + [item])
  }

  function Disturb(w: World, other: Other): World {
    match other
    case Arrival(payload, now, window) => Add(Prune(w, Cutoff(now, window)), Item(now, payload))
    case OtherPop(count, now, window) => if count == 0 then w else PopOldest(w, count, now, window, Others)
    case Peek(now, window) => Prune(w, Cutoff(now, window))
    case ClearAll => Take(w, |w.live|, Cleared)
  }

  function Say(w: World, reply: Reply, env: Env): World {
    w.(replies := w.replies + [reply], open := env.flushed)
  }

  function PopAndSay(w: World, count: nat, hasCount: bool, env: Env): World {
    if !env.usageEnabled then Say(w, PopReply([], hasCount), env)
    else
      Say(PopOldest(w, count, env.now, env.window, Mine),
          PopReply(Popped(w.live, count, env.now, env.window), hasCount), env)
  }

  function Carry(w: World, effect: Effect, env: Env): World {
    match effect
    case Answer(reply, authed) => Say(w.(authed := authed), reply, env)
    case Subscribed => Say(w, Ack(USAGE_CHANNEL, 1), env).(open := false, subscribed := env.flushed)
    case Pop(count, hasCount) => PopAndSay(w, count, hasCount, env)
  }

  function HandleCommand(w: World, args: seq<Bytes>, env: Env): World {
    Carry(w, EffectOf(args, w.authed, env), env)
  }

  function Next(w: World, e: Event): World {
    match e
    case Elsewhere(other) => Disturb(w, other)
    case Handle(args, env) => if w.open then HandleCommand(w, args, env) else w
  }

  function RunFrom(w: World, events: seq<Event>): World {
    if |events| == 0 then w else Next(RunFrom(w, events[..|events| - 1]), events[|events| - 1])
  }

  function Start(live: seq<Item>): World {
    World(live, [], [], false, [], true, false)
  }

  // ----- Conservation -----

  function ItemsOf(gone: seq<Gone>): (r: seq<Item>)
    ensures |r| == |gone| && forall i :: 0 <= i < |gone| ==> r[i] == gone[i].item
  {
    seq(|gone|, i requires 0 <= i < |gone| => gone[i].item)
  }

  // The payloads this connection took, in order.
  function Taken(gone: seq<Gone>): seq<Bytes> {
    if gone == [] then []
    else Taken(gone[..|gone| - 1]) + (if gone[|gone| - 1].reason == Mine then [gone[|gone| - 1].item.payload] else [])
  }

  // Everything that ever was in the queue left from the front or is still there, in order; what
  // the replies carried is what this connection took, no more and no less; and it took nothing
  // before it was let in.
  ghost predicate Conserved(initial: seq<Item>, w: World) {
    && initial + w.arrived == ItemsOf(w.gone) + w.live
    && CarriedAll(w.replies) == Taken(w.gone)
    && (!w.authed ==> Taken(w.gone) == [])
  }

  lemma {:induction false} TakenConcat(a: seq<Gone>, b: seq<Gone>)
    ensures Taken(a + b) == Taken(a) + Taken(b)
  {
    if b == [] {
      assert a + b == a;
    } else {
      TakenConcat(a, b[..|b| - 1]);
      assert (a + b)[..|a + b| - 1] == a + b[..|b| - 1];
    }
  }

  lemma {:induction false} TakenLeaving(items: seq<Item>, reason: Reason)
    ensures Taken(Leaving(items, reason)) == if reason == Mine then Payloads(items) else []
  {
    if items != [] {
      var n := |items| - 1;
      TakenLeaving(items[..n], reason);
      assert Leaving(items, reason)[..n] == Leaving(items[..n], reason);
      assert Payloads(items) == Payloads(items[..n]) + [items[n].payload];
    }
  }

  lemma CutFlow(gone: seq<Gone>, live: seq<Item>, n: nat, reason: Reason)
    requires n <= |live|
    ensures ItemsOf(gone + Leaving(live[..n], reason)) + live[n..] == ItemsOf(gone) + live
  {
  }

  // Items leave from the front without being lost or reordered.
  lemma TakeKeepsFlow(w: World, n: nat, reason: Reason)
    requires n <= |w.live|
    ensures ItemsOf(Take(w, n, reason).gone) + Take(w, n, reason).live == ItemsOf(w.gone) + w.live
    ensures Taken(Take(w, n, reason).gone) == Taken(w.gone) + (if reason == Mine then Payloads(w.live[..n]) else [])
  {
    CutFlow(w.gone, w.live, n, reason);
    TakenConcat(w.gone, Leaving(w.live[..n], reason));
    TakenLeaving(w.live[..n], reason);
  }

  lemma TakeConserves(initial: seq<Item>, w: World, n: nat, reason: Reason)
    requires Conserved(initial, w) && n <= |w.live| && reason != Mine
    ensures Conserved(initial, Take(w, n, reason))
  {
    TakeKeepsFlow(w, n, reason);
  }

  lemma AddConserves(initial: seq<Item>, w: World, item: Item)
    requires Conserved(initial, w)
    ensures Conserved(initial, Add(w, item))
  {
    assert initial + (w.arrived + [item]) == (initial + w.arrived) + [item];
    assert ItemsOf(w.gone) + (w.live + [item]) == (ItemsOf(w.gone) + w.live) + [item];
  }

  lemma DisturbConserves(initial: seq<Item>, w: World, other: Other)
    requires Conserved(initial, w)
    ensures Conserved(initial, Disturb(w, other))
  {
    match other
    case Arrival(payload, now, window) =>
      var cutoff := Cutoff(now, window);
      TakeConserves(initial, w, |w.live| - |Pruned(w.live, cutoff)|, Expired);
      AddConserves(initial, Prune(w, cutoff), Item(now, payload));
    case OtherPop(count, now, window) =>
      var cutoff := Cutoff(now, window);
      TakeConserves(initial, w, |w.live| - |Pruned(w.live, cutoff)|, Expired);
      TakeConserves(initial, Prune(w, cutoff), Least(count, |Pruned(w.live, cutoff)|), Others);
    case Peek(now, window) =>
      TakeConserves(initial, w, |w.live| - |Pruned(w.live, Cutoff(now, window))|, Expired);
    case ClearAll =>
      TakeConserves(initial, w, |w.live|, Cleared);
  }

  lemma CarriedSaid(replies: seq<Reply>, reply: Reply)
    ensures CarriedAll(replies + [reply]) == CarriedAll(replies) + Carried(reply)
  {
    assert (replies + [reply])[..|replies|] == replies;
  }

  lemma SayConserves(initial: seq<Item>, w: World, reply: Reply, env: Env)
    requires Conserved(initial, w) && Carried(reply) == []
    ensures Conserved(initial, Say(w, reply, env))
  {
    CarriedSaid(w.replies, reply);
    assert CarriedAll(w.replies) + [] == CarriedAll(w.replies);
  }

  // A pop without a count takes at most one item, so its reply carries all it took.
  lemma PopReplyCarries(items: seq<Bytes>, hasCount: bool)
    requires !hasCount ==> |items| <= 1
    ensures Carried(PopReply(items, hasCount)) == items
  {
  }

  lemma AnswersCarryNothing(args: seq<Bytes>, authed: bool, env: Env)
    ensures Permitted(EffectOf(args, authed, env), authed)
  {
  }

  lemma PopConserves(initial: seq<Item>, w: World, count: nat, hasCount: bool, env: Env)
    requires Conserved(initial, w) && w.authed && (!hasCount ==> count == 1)
    ensures var p := PopOldest(w, count, env.now, env.window, Mine);
            var reply := PopReply(Popped(w.live, count, env.now, env.window), hasCount);
            Conserved(initial, Say(p, reply, env))
  {
    var cutoff := Cutoff(env.now, env.window);
    TakeConserves(initial, w, |w.live| - |Pruned(w.live, cutoff)|, Expired);
    var pruned := Prune(w, cutoff);
    var out := Popped(w.live, count, env.now, env.window);
    PopReplyCarries(out, hasCount);
    SayTaken(initial, pruned, Least(count, |pruned.live|), PopReply(out, hasCount), env);
  }

  // Taking some items and saying just them.
  lemma SayTaken(initial: seq<Item>, w: World, n: nat, reply: Reply, env: Env)
    requires Conserved(initial, w) && w.authed && n <= |w.live| && Carried(reply) == Payloads(w.live[..n])
    ensures Conserved(initial, Say(Take(w, n, Mine), reply, env))
  {
    TakeKeepsFlow(w, n, Mine);
    CarriedSaid(w.replies, reply);
  }

  // What an effect may be, whatever the command.
  ghost predicate Permitted(effect: Effect, authed: bool) {
    match effect
    case Answer(reply, authed') => Carried(reply) == [] && (authed ==> authed')
    case Pop(count, hasCount) => authed && (!hasCount ==> count == 1)
    case Subscribed => authed
  }

  lemma HandleConserves(initial: seq<Item>, w: World, args: seq<Bytes>, env: Env)
    requires Conserved(initial, w)
    ensures Conserved(initial, HandleCommand(w, args, env))
  {
    AnswersCarryNothing(args, w.authed, env);
    CarryConserves(initial, w, EffectOf(args, w.authed, env), env);
  }

  lemma CarryConserves(initial: seq<Item>, w: World, effect: Effect, env: Env)
    requires Conserved(initial, w) && Permitted(effect, w.authed)
    ensures Conserved(initial, Carry(w, effect, env))
  {
    match effect
    case Answer(reply, authed) =>
      SayConserves(initial, w.(authed := authed), reply, env);
    case Subscribed => SayConserves(initial, w, Ack(USAGE_CHANNEL, 1), env);
    case Pop(count, hasCount) =>
      if env.usageEnabled {
        PopConserves(initial, w, count, hasCount, env);
      } else {
        SayConserves(initial, w, PopReply([], hasCount), env);
      }
  }

  // Over any run of commands, interleaved with anything else that happens to the queue.
  lemma {:induction false} RunConserves(initial: seq<Item>, events: seq<Event>)
    ensures Conserved(initial, RunFrom(Start(initial), events))
  {
    if |events| == 0 {
      assert ItemsOf([]) + initial == initial == initial + [];
    } else {
      var w := RunFrom(Start(initial), events[..|events| - 1]);
      RunConserves(initial, events[..|events| - 1]);
      match events[|events| - 1]
      case Elsewhere(other) => DisturbConserves(initial, w, other);
      case Handle(args, env) => if w.open { HandleConserves(initial, w, args, env); }
    }
  }

  // ----- One reply per command -----

  // The commands of a run that reached the connection while it was open.
  function Reached(w: World, events: seq<Event>): nat {
    if |events| == 0 then 0
    else
      var before := events[..|events| - 1];
      Reached(w, before) + (if events[|events| - 1].Handle? && RunFrom(w, before).open then 1 else 0)
  }

  lemma CarrySaysOne(w: World, effect: Effect, env: Env)
    ensures var said := Carry(w, effect, env).replies; |said| == |w.replies| + 1 && w.replies <= said
  {
  }

  lemma DisturbSaysNothing(w: World, other: Other)
    ensures var w' := Disturb(w, other);
            && w'.replies == w.replies && w'.open == w.open
            && w'.subscribed == w.subscribed && w'.authed == w.authed
  {
  }

  // Every command gets exactly one reply, given before the next command is looked at.
  lemma {:induction false} OneReplyEach(initial: seq<Item>, events: seq<Event>)
    ensures |RunFrom(Start(initial), events).replies| == Reached(Start(initial), events)
  {
    if |events| != 0 {
      var w := RunFrom(Start(initial), events[..|events| - 1]);
      OneReplyEach(initial, events[..|events| - 1]);
      match events[|events| - 1]
      case Elsewhere(other) => DisturbSaysNothing(w, other);
      case Handle(args, env) => if w.open { CarrySaysOne(w, EffectOf(args, w.authed, env), env); }
    }
  }

  lemma RepliesOnlyGrow(w: World, e: Event)
    ensures w.replies <= Next(w, e).replies && |Next(w, e).replies| <= |w.replies| + 1
  {
    match e
    case Elsewhere(other) => DisturbSaysNothing(w, other);
    case Handle(args, env) => CarrySaysOne(w, EffectOf(args, w.authed, env), env);
  }

  // ----- Before a successful AUTH -----

  ghost predicate LetsIn(args: seq<Bytes>, env: Env) {
    && (|args| == 2 || |args| == 3)
    && ToUpper(Trim(TextOf(args[0]))) == "AUTH"
    && env.management.Checks?
    && env.management.verdict(args[|args| - 1]).allowed
  }

  lemma AuthLetsIn(args: seq<Bytes>, env: Env)
    requires args != [] && VerbOf(Command(args)) == AuthVerb
    ensures AuthEffect(args, false, env).Answer? && (AuthEffect(args, false, env).authed <==> LetsIn(args, env))
  {
  }

  lemma OnlyAnswersBefore(args: seq<Bytes>, env: Env)
    ensures var e := EffectOf(args, false, env); e.Answer? && (e.authed <==> LetsIn(args, env))
  {
    if args != [] && VerbOf(Command(args)) == AuthVerb {
      AuthLetsIn(args, env);
    }
  }

  // A command on a connection not yet let in leaves the queue alone, keeps the loop going while
  // replies can be sent, and lets the connection in exactly when it is an AUTH with an accepted key.
  lemma BeforeAuth(w: World, args: seq<Bytes>, env: Env)
    requires w.open && !w.authed
    ensures var w' := HandleCommand(w, args, env);
            && w'.live == w.live && w'.gone == w.gone && w'.arrived == w.arrived
            && w'.open == env.flushed && w'.subscribed == w.subscribed
            && (w'.authed <==> LetsIn(args, env))
  {
    OnlyAnswersBefore(args, env);
  }

  // Once let in, a connection stays in.
  lemma AuthStays(w: World, e: Event)
    requires w.authed
    ensures Next(w, e).authed
  {
    match e
    case Elsewhere(other) => DisturbSaysNothing(w, other);
    case Handle(args, env) => AnswersCarryNothing(args, true, env);
  }

  // A connection starts outside, with no reply given and the loop open, and over any run it is let in only
  // by an AUTH with an accepted key that reached it.
  lemma {:induction false} LetInByAuth(initial: seq<Item>, events: seq<Event>)
    ensures var w := RunFrom(Start(initial), events);
            w.authed <==> exists i :: 0 <= i < |events| && LetsInAt(initial, events, i)
  {
    if |events| != 0 {
      var before, last := events[..|events| - 1], events[|events| - 1];
      var w := RunFrom(Start(initial), before);
      LetInByAuth(initial, before);
      LetsInEarlier(initial, events);
      match last
      case Elsewhere(other) => DisturbSaysNothing(w, other);
      case Handle(args, env) =>
        if w.open && w.authed {
          AuthStays(w, last);
        } else if w.open {
          BeforeAuth(w, args, env);
        }
    }
  }

  ghost predicate LetsInAt(initial: seq<Item>, events: seq<Event>, i: nat)
    requires i < |events|
  {
    events[i].Handle? && LetsIn(events[i].args, events[i].env) && RunFrom(Start(initial), events[..i]).open
  }

  lemma LetsInEarlier(initial: seq<Item>, events: seq<Event>)
    requires events != []
    ensures var before := events[..|events| - 1];
            (exists i :: 0 <= i < |events| && LetsInAt(initial, events, i)) <==>
            (exists i :: 0 <= i < |before| && LetsInAt(initial, before, i))
            || LetsInAt(initial, events, |events| - 1)
  {
    var before := events[..|events| - 1];
    forall i | 0 <= i < |before| ensures LetsInAt(initial, before, i) <==> LetsInAt(initial, events, i) {
      assert before[..i] == events[..i];
    }
    if i :| 0 <= i < |before| && LetsInAt(initial, before, i) {
      assert LetsInAt(initial, events, i);
    }
  }
}
