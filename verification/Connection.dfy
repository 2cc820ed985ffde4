/** One command over one connection (get_redis_repy of src/core.c). */
module Connection {
  import opened Core

  // ----- What the server makes of a stream of commands -----

  const PLAIN: Mode := Mode(false, false)

  function Serve(mode: Mode, command: Command): Mode {
    match command
    case ReadOnly => Mode(true, false)
    case ReadWrite => Mode(false, false)
    case Asking => Mode(mode.readOnly, true)
    case Own(_) => Mode(mode.readOnly, false)
  }

  function ServeAll(mode: Mode, commands: seq<Command>): Mode {
    if commands == [] then mode else Serve(ServeAll(mode, commands[..|commands| - 1]), commands[|commands| - 1])
  }

  lemma {:induction false} ServeMore(mode: Mode, a: seq<Command>, b: seq<Command>)
    ensures ServeAll(mode, a + b) == ServeAll(ServeAll(mode, a), b)
  {
    if b == [] {
      assert a + b == a;
    } else {
      ServeMore(mode, a, b[..|b| - 1]);
      assert (a + b)[..|a + b| - 1] == a + b[..|b| - 1];
    }
  }

  // ----- The client's side -----

  // A connection between two commands: it is broken, or every command was answered and
  // the server is back in its initial mode.
  ghost predicate Settled(context: RedisContext)
    reads context
  {
    context.err || (context.pending == [] && ServeAll(PLAIN, context.sent) == PLAIN)
  }

  // What precedes the caller's command in the pipeline, and what follows it.
  function Prologue(readonly: bool, asking: bool): seq<Command> {
    (if readonly then [ReadOnly] else []) + (if asking then [Asking] else [])
  }

  function Epilogue(readonly: bool): seq<Command> {
    if readonly then [ReadWrite] else []
  }

  // The server executes the caller's command in the mode it was meant for, and is left as it was.
  lemma Wrapped(before: seq<Command>, readonly: bool, asking: bool, argv: seq<string>)
    requires ServeAll(PLAIN, before) == PLAIN
    ensures ServeAll(PLAIN, before + Prologue(readonly, asking)) == Mode(readonly, asking)
    ensures ServeAll(PLAIN, before + Prologue(readonly, asking) + [Own(argv)] + Epilogue(readonly)) == PLAIN
  {
    var p, e := Prologue(readonly, asking), Epilogue(readonly);
    ServeMore(PLAIN, before, p);
    if readonly && asking {
      assert p[..1] == [ReadOnly] && p[..1][..0] == [];
    } else if readonly || asking {
      assert p[..0] == [];
    }
    ServeMore(PLAIN, before + p, [Own(argv)] + e);
    assert before + p + ([Own(argv)] + e) == before + p + [Own(argv)] + e;
    ServeMore(Mode(readonly, asking), [Own(argv)], e);
    assert [Own(argv)][..0] == [];
    if readonly { assert e[..0] == []; }
  }

  // redisAppendCommand, which does not look at the error.
  method Append(context: RedisContext, command: Command)
    modifies context`pending, context`sent, context`lost
    ensures context.pending == old(context.pending) + [command] && context.sent == old(context.sent) + [command]
    ensures context.lost == old(context.lost) + if context.err then [command] else []
  {
    context.pending := context.pending + [command];
    context.sent := context.sent + [command];
    if context.err {
      context.lost := context.lost + [command];
    }
  }

  // What the network makes of one pipeline: whether the timeout can be set, how many replies
  // arrive before the connection fails, and what the reply to the caller's command says.
  datatype Arrival = Arrival(timeoutSet: bool, replies: nat, body: Body)

  // The reply to the caller's command arrives; all replies do.
  predicate Reaches(a: Arrival, readonly: bool, asking: bool) {
    a.timeoutSet && a.replies >= (if readonly then 1 else 0) + (if asking then 1 else 0) + 1
  }

  predicate Completes(a: Arrival, readonly: bool, asking: bool) {
    a.timeoutSet && a.replies >= (if readonly then 2 else 0) + (if asking then 1 else 0) + 1
  }

  // redisGetReply: the next reply in order, or an error that stays.
  method GetReply(context: RedisContext, received: bool, body: Body) returns (reply: Option<Reply>)
    requires 0 < |context.pending| <= |context.sent|
    modifies context`err, context`pending
    ensures reply.Some? <==> received && !old(context.err)
    ensures reply.Some? ==>
      && !context.err && reply.value.body == body
      && reply.value.from == context.server && reply.value.to == old(context.pending)[0]
      && reply.value.under == ServeAll(PLAIN, context.sent[..|context.sent| - |old(context.pending)|])
      && context.pending == old(context.pending)[1..]
    ensures reply.None? ==> context.err && context.pending == old(context.pending)
  {
    if context.err || !received {
      context.err := true;
      return None;
    }
    var under := ServeAll(PLAIN, context.sent[..|context.sent| - |context.pending|]);
    reply := Some(Reply(context.server, context.pending[0], under, body));
    context.pending := context.pending[1..];
  }

  // What goes over a connection for one command.
  function Pipe(readonly: bool, asking: bool, argv: seq<string>): seq<Command> {
    Prologue(readonly, asking) + [Own(argv)] + Epilogue(readonly)
  }

  predicate ReadsOnly(server: RedisServer)
    reads server`role
  {
    server.db.clustered && server.role == SLAVE
  }

  // get_redis_repy. Nothing is queued on a connection with unread replies, so the reply to
  // the caller's command cannot be mistaken for another one. The connection is in error while
  // the pipeline is queued if and only if the timeout could not be set, which the source only
  // logs; nothing comes of it then. A reply that arrives is handed to the caller, and the
  // connection is in error afterwards if and only if some reply did not arrive.
  method Execute(context: RedisContext, argv: seq<string>, asking: bool, arrival: Arrival)
    returns (result: Option<Reply>)
    requires !context.err && Settled(context)
    modifies context`err, context`pending, context`sent, context`lost
    ensures Settled(context)
    ensures result.Some? ==>
      && result.value.from == context.server && result.value.to == Own(argv)
      && result.value.under.asking == asking
      && (result.value.under.readOnly <==> context.server.db.clustered && context.server.role == SLAVE)
      && result.value.body == arrival.body
    ensures result.Some? <==> Reaches(arrival, ReadsOnly(context.server), asking)
    ensures context.err <==> !Completes(arrival, ReadsOnly(context.server), asking)
    ensures if result.None? then context.err else context.lost == old(context.lost)
    ensures context.sent == old(context.sent) + Pipe(ReadsOnly(context.server), asking, argv)
    ensures context.lost == old(context.lost)
      + if arrival.timeoutSet then [] else Pipe(ReadsOnly(context.server), asking, argv)
  {
    hide ServeAll, Pipe, Prologue, Epilogue;
    var readonly := context.server.db.clustered && context.server.role == SLAVE;
    // redisSetTimeout
    if !arrival.timeoutSet {
      context.err := true;
    }
    Queue(context, readonly, asking, argv);
    Wrapped(old(context.sent), readonly, asking, argv);
    PipeParts(old(context.sent), readonly, asking, argv);
    result := Fetch(context, readonly, asking, argv, arrival, old(context.sent));
  }

  // Build the pipeline.
  method Queue(context: RedisContext, readonly: bool, asking: bool, argv: seq<string>)
    requires context.pending == []
    modifies context`pending, context`sent, context`lost
    ensures context.pending == Pipe(readonly, asking, argv)
    ensures context.sent == old(context.sent) + Pipe(readonly, asking, argv)
    ensures context.lost == old(context.lost) + if context.err then Pipe(readonly, asking, argv) else []
  {
    if readonly { Append(context, ReadOnly); }
    if asking { Append(context, Asking); }
    Append(context, Own(argv));
    if readonly { Append(context, ReadWrite); }
  }

  // The case in which a command is queued on a broken connection: the timeout of a new
  // connection cannot be set.
  method QueuedInError(server: RedisServer) returns (context: RedisContext, result: Option<Reply>)
    requires !ReadsOnly(server)
    ensures fresh(context) && context.err && context.lost == [Own(["GET", "key"])] && result.None?
  {
    context := new RedisContext(server, 0, 0);
    result := Execute(context, ["GET", "key"], false, Arrival(false, 0, OtherReply(0)));
  }

  lemma PipeParts(before: seq<Command>, readonly: bool, asking: bool, argv: seq<string>)
    ensures before + Pipe(readonly, asking, argv) ==
      before + Prologue(readonly, asking) + [Own(argv)] + Epilogue(readonly)
    ensures [] + Pipe(readonly, asking, argv) == Pipe(readonly, asking, argv)
  {
  }

  // The replies are fetched in the order of the pipeline; only one of them matters.
  method Fetch(context: RedisContext, readonly: bool, asking: bool, argv: seq<string>, arrival: Arrival,
               ghost before: seq<Command>)
    returns (result: Option<Reply>)
    requires context.pending == Pipe(readonly, asking, argv) && context.sent == before + Pipe(readonly, asking, argv)
    requires context.err <==> !arrival.timeoutSet
    modifies context`err, context`pending
    ensures context.err || context.pending == []
    ensures result.Some? ==>
      && result.value.from == context.server && result.value.to == Own(argv)
      && result.value.under == ServeAll(PLAIN, before + Prologue(readonly, asking))
      && result.value.body == arrival.body
    ensures result.Some? <==> Reaches(arrival, readonly, asking)
    ensures context.err <==> !Completes(arrival, readonly, asking)
  {
    hide ServeAll;
    var i := 0;
    if readonly {
      var body: Body := *;
      var reply := GetReply(context, i < arrival.replies, body);
      i := i + 1;
    }
    if asking {
      var body: Body := *;
      var reply := GetReply(context, i < arrival.replies, body);
      i := i + 1;
    }
    assert !context.err ==> context.sent[..|context.sent| - |context.pending|] == before + Prologue(readonly, asking);
    result := GetReply(context, i < arrival.replies, arrival.body);
    i := i + 1;
    if readonly {
      var body: Body := *;
      var reply := GetReply(context, i < arrival.replies, body);
    }
  }
}
