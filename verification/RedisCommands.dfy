/** What each command of the usage port does, in the protocol's own terms: the name it is called by, the
    payloads it answers with by age, and the lines that go over the wire. */
module RedisCommands {
  import opened Text
  import opened UsageQueue
  import opened Resp
  import opened RedisSession

  // ----- Names -----

  // The name a command is called by: its first argument without white space around it, in capitals.
  function NameOf(args: seq<Bytes>): string {
    if args == [] then "" else ToUpper(Trim(TextOf(args[0])))
  }

  // ASCII bytes are their characters; others are all different, and neither white space nor letters.
  lemma HighBytes(b: byte, c: byte)
    ensures b < 128 ==> CharOf(b) as int == b as int
    ensures b >= 128 ==> !IsSpace(CharOf(b)) && UpperChar(CharOf(b)) == CharOf(b) == LowerChar(CharOf(b))
    ensures CharOf(b) == CharOf(c) ==> b == c
  {
  }

  // The bytes spell the word, in capitals or not.
  ghost predicate Spells(b: Bytes, word: string) {
    |b| == |word| && forall i :: 0 <= i < |b| ==>
      'A' <= word[i] <= 'Z' && (b[i] as int == word[i] as int || b[i] as int == word[i] as int + 32)
  }

  lemma SpelledIsNamed(args: seq<Bytes>, word: string)
    requires args != [] && word != "" && Spells(args[0], word)
    ensures NameOf(args) == word
  {
    var text := TextOf(args[0]);
    assert text[0] == CharOf(args[0][0]) && text[|text| - 1] == CharOf(args[0][|text| - 1]);
    assert TrimLeft(text) == text && TrimRight(text) == text;
    assert forall i :: 0 <= i < |word| ==> ToUpper(text)[i] == word[i];
  }

  // ----- Answers -----

  // The command was answered with this reply and nothing else changed but the queue, which holds live.
  ghost predicate Answered(w: World, w': World, reply: Reply, live: seq<Item>, env: Env) {
    && w'.replies == w.replies + [reply] && w'.live == live && w'.arrived == w.arrived
    && w'.authed == w.authed && w'.open == env.flushed && w'.subscribed == w.subscribed
  }

  // Answered with some payloads taken from those that are young enough, oldest first.
  ghost predicate PopAnswered(w: World, w': World, env: Env, count: int, out: seq<Bytes>, reply: Reply) {
    PoppedByAge(w.live, out, w'.live, count, env.now, env.window) && Answered(w, w', reply, w'.live, env)
  }

  lemma PopTakes(w: World, count: nat, env: Env)
    requires count > 0
    ensures PoppedByAge(w.live, Popped(w.live, count, env.now, env.window),
                        PopOldest(w, count, env.now, env.window, Mine).live, count, env.now, env.window)
  {
    var kept := Pruned(w.live, Cutoff(env.now, env.window));
    PopIsByAge(w.live, count, env.now, env.window);
    PruneLive(w, Cutoff(env.now, env.window));
    assert PopOldest(w, count, env.now, env.window, Mine).live == kept[Least(count, |kept|)..];
  }

  lemma PruneLive(w: World, cutoff: int)
    ensures Prune(w, cutoff).live == Pruned(w.live, cutoff)
  {
  }

  lemma PopCarried(w: World, count: nat, hasCount: bool, env: Env)
    requires count > 0 && env.usageEnabled
    ensures var w' := Carry(w, Pop(count, hasCount), env);
            var out := Popped(w.live, count, env.now, env.window);
            PopAnswered(w, w', env, count, out, PopReply(out, hasCount))
  {
    PopTakes(w, count, env);
  }

  lemma NoPopCarried(w: World, count: nat, hasCount: bool, env: Env)
    requires !env.usageEnabled
    ensures Answered(w, Carry(w, Pop(count, hasCount), env), if hasCount then Array([]) else NilBulk, w.live, env)
  {
  }

  lemma AnswerCarried(w: World, reply: Reply, env: Env)
    ensures Answered(w, Carry(w, Answer(reply, w.authed), env), reply, w.live, env)
  {
  }

  lemma PopIsPop(w: World, args: seq<Bytes>, env: Env)
    requires w.authed && args != [] && (NameOf(args) == "LPOP" || NameOf(args) == "RPOP")
    ensures EffectOf(args, true, env) == PopEffect(args, NameOf(args))
  {
    assert NameOf(args)[0] != 'A' && NameOf(args)[0] != 'S' && "AUTH"[0] == 'A' && "SUBSCRIBE"[0] == 'S';
  }

  // LPOP and RPOP key: the oldest payload that is young enough, or nil.
  lemma PopOne(w: World, args: seq<Bytes>, env: Env)
    requires w.authed && |args| == 2 && (NameOf(args) == "LPOP" || NameOf(args) == "RPOP")
    ensures var w' := HandleCommand(w, args, env);
            if !env.usageEnabled then Answered(w, w', NilBulk, w.live, env)
            else exists out ::
                   PopAnswered(w, w', env, 1, out, if out == [] then NilBulk else Bulk(out[0]))
  {
    PopIsPop(w, args, env);
    if env.usageEnabled {
      PopCarried(w, 1, false, env);
    } else {
      NoPopCarried(w, 1, false, env);
    }
  }

  // LPOP and RPOP key count: so many, or as many as there are; no number above zero is refused.
  lemma PopSome(w: World, args: seq<Bytes>, env: Env)
    requires w.authed && |args| == 3 && (NameOf(args) == "LPOP" || NameOf(args) == "RPOP")
    ensures var w' := HandleCommand(w, args, env);
            var n := Atoi(BytesOf(Trim(TextOf(args[2]))));
            if n.None? || n.value <= 0 then Answered(w, w', Error(BadCount), w.live, env)
            else if !env.usageEnabled then Answered(w, w', Array([]), w.live, env)
            else exists out :: PopAnswered(w, w', env, n.value, out, Array(out))
  {
    PopIsPop(w, args, env);
    var n := Atoi(BytesOf(Trim(TextOf(args[2]))));
    if n.None? || n.value <= 0 {
      AnswerCarried(w, Error(BadCount), env);
    } else if env.usageEnabled {
      PopCarried(w, n.value, true, env);
    } else {
      NoPopCarried(w, n.value, true, env);
    }
  }

  lemma PopRefused(w: World, args: seq<Bytes>, env: Env)
    requires w.authed && args != [] && |args| != 2 && |args| != 3
    requires NameOf(args) == "LPOP" || NameOf(args) == "RPOP"
    ensures Answered(w, HandleCommand(w, args, env), Error(PopArguments(NameOf(args))), w.live, env)
  {
    PopIsPop(w, args, env);
    AnswerCarried(w, Error(PopArguments(NameOf(args))), env);
  }

  // SUBSCRIBE usage leaves the loop with the acknowledgement; anything else to subscribe to is refused.
  lemma Subscribing(w: World, args: seq<Bytes>, env: Env)
    requires w.authed && NameOf(args) == "SUBSCRIBE"
    ensures var w' := HandleCommand(w, args, env);
            if |args| != 2 then Answered(w, w', Error(SubscribeArguments), w.live, env)
            else
              var channel := Trim(TextOf(args[1]));
              if ToLower(channel) != "usage" then Answered(w, w', Error(BadChannel(channel)), w.live, env)
              else w' == w.(replies := w.replies + [Ack("usage", 1)], open := false, subscribed := env.flushed)
  {
    SubscribeIs(args, env);
    if |args| != 2 {
      AnswerCarried(w, Error(SubscribeArguments), env);
    } else {
      ChannelIs(Trim(TextOf(args[1])));
      AnswerCarried(w, Error(BadChannel(Trim(TextOf(args[1])))), env);
      SubscribedCarried(w, env);
    }
  }

  lemma SubscribeIs(args: seq<Bytes>, env: Env)
    requires NameOf(args) == "SUBSCRIBE"
    ensures EffectOf(args, true, env) == SubscribeEffect(args)
  {
    assert NameOf(args)[0] == 'S' && "AUTH"[0] == 'A';
  }

  lemma ChannelIs(channel: string)
    ensures EqualFold(channel, USAGE_CHANNEL) <==> ToLower(channel) == "usage"
  {
    assert ToLower("usage") == "usage";
  }

  lemma SubscribedCarried(w: World, env: Env)
    ensures Carry(w, Subscribed, env)
            == w.(replies := w.replies + [Ack("usage", 1)], open := false, subscribed := env.flushed)
  {
  }

  // AUTH with a key the check accepts lets the connection in; what it says otherwise changes nothing.
  lemma Authenticating(w: World, args: seq<Bytes>, env: Env)
    requires NameOf(args) == "AUTH"
    ensures var w' := HandleCommand(w, args, env);
            if |args| != 2 && |args| != 3 then Answered(w, w', Refusal(env, AuthArguments), w.live, env)
            else if env.management.NoManagement? then Answered(w, w', Error(ManagementOff), w.live, env)
            else
              var verdict := env.management.verdict(args[|args| - 1]);
              if !verdict.allowed then Answered(w, w', Error(KeyRefused(verdict.message)), w.live, env)
              else w' == w.(replies := w.replies + [Simple("OK")], authed := true, open := env.flushed)
  {
  }

  // The one reply given is not that the command is unknown.
  ghost predicate ToldOtherwise(w: World, w': World, name: string) {
    |w'.replies| == |w.replies| + 1 && w'.replies[|w.replies|] != Error(UnknownCommand(name))
  }

  lemma AuthKnown(w: World, args: seq<Bytes>, env: Env)
    requires w.authed && NameOf(args) == "AUTH"
    ensures ToldOtherwise(w, HandleCommand(w, args, env), "AUTH")
  {
    Authenticating(w, args, env);
  }

  lemma SubscribeKnown(w: World, args: seq<Bytes>, env: Env)
    requires w.authed && NameOf(args) == "SUBSCRIBE"
    ensures ToldOtherwise(w, HandleCommand(w, args, env), "SUBSCRIBE")
  {
    Subscribing(w, args, env);
  }

  lemma PopKnown(w: World, args: seq<Bytes>, env: Env)
    requires w.authed && args != [] && (NameOf(args) == "LPOP" || NameOf(args) == "RPOP")
    ensures ToldOtherwise(w, HandleCommand(w, args, env), NameOf(args))
  {
    PopIsPop(w, args, env);
    PopTold(w, PopEffect(args, NameOf(args)), NameOf(args), env);
  }

  lemma PopTold(w: World, effect: Effect, name: string, env: Env)
    requires effect.Pop? || (effect.Answer? && effect.reply != Error(UnknownCommand(name)))
    ensures ToldOtherwise(w, Carry(w, effect, env), name)
  {
  }

  // A command with a name of its own is never told that it is unknown.
  lemma KnownIsKnown(w: World, args: seq<Bytes>, env: Env)
    requires w.authed && (args == [] || NameOf(args) in ["AUTH", "SUBSCRIBE", "LPOP", "RPOP"])
    ensures ToldOtherwise(w, HandleCommand(w, args, env), NameOf(args))
  {
    if args != [] {
      if NameOf(args) == "AUTH" {
        AuthKnown(w, args, env);
      } else if NameOf(args) == "SUBSCRIBE" {
        SubscribeKnown(w, args, env);
      } else {
        PopKnown(w, args, env);
      }
    }
  }

  // A command nobody knows is told so, and only such a one, once the connection is let in.
  lemma UnknownExactly(w: World, args: seq<Bytes>, env: Env)
    requires w.authed
    ensures Answered(w, HandleCommand(w, args, env), Error(UnknownCommand(NameOf(args))), w.live, env) <==>
            args != [] && NameOf(args) !in ["AUTH", "SUBSCRIBE", "LPOP", "RPOP"]
  {
    if args == [] || NameOf(args) in ["AUTH", "SUBSCRIBE", "LPOP", "RPOP"] {
      KnownIsKnown(w, args, env);
    } else {
      AnswerCarried(w, Error(UnknownCommand(NameOf(args))), env);
    }
  }

  // A connection that is not let in is told to authenticate, a banned client that it is banned.
  lemma Unauthenticated(w: World, args: seq<Bytes>, env: Env)
    requires !w.authed && args != [] && NameOf(args) != "AUTH"
    ensures var w' := HandleCommand(w, args, env);
            var banned := env.management.Checks? && env.management.verdict([]).banned;
            Answered(w, w', Error(if banned then KeyRefused(env.management.verdict([]).message) else NotAuthed), w.live,
                     env)
  {
    AnswerCarried(w, Refusal(env, NotAuthed), env);
  }

  // ----- On the wire -----

  // A line: the mark, the text, carriage return and line feed.
  function Line(mark: char, text: string): Bytes {
    BytesOf([mark] + text) + [13, 10]
  }

  lemma LineIs(mark: char, text: string)
    ensures Line(mark, text) == BytesOf([mark]) + BytesOf(text) + [13, 10]
  {
  }

  // What a client reads where a command fails.
  lemma FaultLines(name: string, channel: string)
    ensures Encode(Error(NotAuthed)) == Line('-', "NOAUTH Authentication required.")
    ensures Encode(Error(EmptyCommand)) == Line('-', "ERR empty command")
    ensures Encode(Error(KeyRefused(name))) == Line('-', "ERR " + name)
    ensures Encode(Error(ManagementOff)) == Line('-', "ERR remote management disabled")
    ensures Encode(Error(BadChannel(channel))) == Line('-', "ERR unsupported channel '" + channel + "'")
  {
    FaultIsLine(NotAuthed);
    FaultIsLine(EmptyCommand);
    FaultIsLine(KeyRefused(name));
    FaultIsLine(ManagementOff);
    FaultIsLine(BadChannel(channel));
  }

  lemma ArgumentLines()
    ensures Encode(Error(AuthArguments)) == Line('-', "ERR wrong number of arguments for 'auth' command")
    ensures Encode(Error(SubscribeArguments)) == Line('-', "ERR wrong number of arguments for 'subscribe' command")
  {
    FaultIsLine(AuthArguments);
    FaultIsLine(SubscribeArguments);
  }

  lemma PopFaultLines(name: string)
    ensures Encode(Error(PopArguments(name)))
            == Line('-', "ERR wrong number of arguments for '" + ToLower(name) + "' command")
    ensures Encode(Error(BadCount)) == Line('-', "ERR value is not an integer or out of range")
    ensures Encode(Error(UnknownCommand(name))) == Line('-', "ERR unknown command '" + ToLower(name) + "'")
    ensures Encode(Simple(name)) == Line('+', name)
  {
    FaultIsLine(PopArguments(name));
    FaultIsLine(BadCount);
    FaultIsLine(UnknownCommand(name));
    LineIs('+', name);
    assert BytesOf("+") == [43];
  }

  lemma FaultIsLine(fault: Fault)
    ensures Encode(Error(fault)) == Line('-', FaultText(fault))
  {
    LineIs('-', FaultText(fault));
    assert BytesOf("-") == [45];
  }

  // What a client reads of bytes that are no command, in home mode, and of SUBSCRIBE.
  lemma OtherLines()
    ensures Encode(Error(Unreadable(UnexpectedEnd))) == Line('-', "ERR " + "unexpected EOF")
    ensures Encode(Error(Unreadable(ProtocolError))) == Line('-', "ERR " + "protocol error")
    ensures Encode(Error(HomeMode)) == Line('-', "ERR redis usage output disabled in home mode")
  {
    FaultIsLine(Unreadable(UnexpectedEnd));
    FaultIsLine(Unreadable(ProtocolError));
    FaultIsLine(HomeMode);
  }

  lemma AckLines()
    ensures Encode(Ack("usage", 1)) ==
            Line('*', "3") + Line('$', "9") + Line('s', "ubscribe") + Line('$', "5") + Line('u', "sage")
            + Line(':', "1")
  {
    SmallNumbers();
    LineIs('*', "3");
    LineIs('$', "9");
    LineIs('$', "5");
    LineIs(':', "1");
    assert ['s'] + "ubscribe" == "subscribe" && ['u'] + "sage" == "usage";
    assert BytesOf("*") == [42] && BytesOf("$") == [36] && BytesOf(":") == [58];
    assert |BytesOf("subscribe")| == 9 && |BytesOf("usage")| == 5;
  }

  lemma SmallNumbers()
    ensures Itoa(3) == BytesOf("3") && Itoa(9) == BytesOf("9") && Itoa(5) == BytesOf("5") && Itoa(1) == BytesOf("1")
  {
  }
}
