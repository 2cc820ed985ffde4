/** Executing one command against a database (redis_execute of src/core.c). */
module Executor {
  import opened Lists
  import opened Core
  import opened Connection
  import opened Registry
  import opened TaskContexts
  import opened Planning
  import Fips180
  import opened Planner
  import Sha1

  // ----- Getting a connection -----

  // What a server's pool hands over.
  ghost predicate HandedOver(c: RedisContext, server: RedisServer)
    reads c
  {
    !c.err && Settled(c) && c.server == server
  }

  // lock_shared_redis_context, for what matters to the caller. Who waits for whom and what
  // becomes of the pool is the subject of SharedPool and PoolLists: what they hand over is
  // an idle connection or a new one, if any (PoolUse.LastPass).
  method LockShared(db: Database, plan: Plan, idle: set<RedisContext>, now: int, version: nat, established: bool)
    returns (result: Option<RedisContext>)
    requires plan.nextServer < |plan.servers| && plan.servers[plan.nextServer] in db.registered
    requires forall c | c in idle :: Settled(c)
    modifies plan`nextServer, db`connectionsTotal, db`connectionsFailed
    modifies db.registered`sicknessTst, db.registered`sicknessExp
    ensures plan.nextServer == (old(plan.nextServer) + 1) % |plan.servers|
    ensures result.Some? ==>
      var c := result.value;
      && HandedOver(c, plan.servers[old(plan.nextServer)]) && (c in idle || fresh(c))
      && (fresh(c) ==> established && c.version == version && c.tst == now)
    // Nothing else is touched if an idle connection is handed over.
    ensures var server, made := plan.servers[old(plan.nextServer)], result.None? || fresh(result.value);
      && (result.None? ==> !established)
      && db.connectionsTotal == old(db.connectionsTotal) + (if made && established then 1 else 0)
      && db.connectionsFailed == old(db.connectionsFailed) + (if made && !established then 1 else 0)
      && (forall s | s in db.registered && (s != server || !made) ::
          s.sicknessTst == old(s.sicknessTst) && s.sicknessExp == old(s.sicknessExp))
      && (result.Some? && made ==>
          && server.sicknessTst == old(server.sicknessTst)
          && server.sicknessExp == if old(server.sicknessExp) > now then now else old(server.sicknessExp))
      && (result.None? && db.sicknessTtl > 0 ==>
          server.sicknessTst == now && server.sicknessExp == now + db.sicknessTtl)
      && (result.None? && db.sicknessTtl == 0 ==>
          server.sicknessTst == old(server.sicknessTst) && server.sicknessExp == old(server.sicknessExp))
  {
    var server := plan.servers[plan.nextServer];
    plan.nextServer := (plan.nextServer + 1) % |plan.servers|;
    var pooled: bool := *;
    if pooled && exists c :: c in idle && c.server == server && !c.err {
      var c :| c in idle && c.server == server && !c.err;
      return Some(c);
    }
    db.Connect(server, now, established, false);
    if !established {
      return None;
    }
    var c := new RedisContext(server, version, now);
    return Some(c);
  }

  // ----- One attempt -----

  // What the caller may rely on: the reply is to the command that its arguments now hold,
  // served under ASKING exactly if asked to and read-only in clusters at most, by a
  // registered server of the database, the given one if there is one.
  ghost predicate Answers(reply: Reply, db: Database, argv: seq<string>, asking: bool, server: Option<RedisServer>)
    reads db`registered
  {
    && reply.to == Own(argv)
    && reply.under.asking == asking && (reply.under.readOnly ==> db.clustered)
    && reply.from in db.registered && (server.Some? ==> reply.from == server.value)
  }

  predicate IsEval(argv: seq<string>) {
    |argv| >= 2 && |argv[0]| == 4
    && argv[0][0] in "eE" && argv[0][1] in "vV" && argv[0][2] in "aA" && argv[0][3] in "lL"
  }

  predicate IsNoScript(body: Body) {
    body.ErrorReply? && "NOSCRIPT" <= body.text
  }

  function Bytes(s: string): (b: seq<bv8>)
    ensures |b| == |s|
  {
    seq(|s|, i requires 0 <= i < |s| => ((s[i] as int) % 256) as bv8)
  }

  // Characters are bytes.
  lemma BytesMean(s: string, i: nat, b: bv8)
    requires i < |s| && s[i] as int % 256 == b as int
    ensures Bytes(s)[i] == b
  {
    ByteIs(b);
  }

  lemma ByteIs(b: bv8)
    ensures (b as int) as bv8 == b
  {
  }

  ghost function Hashed(argv: seq<string>): (r: seq<string>)
    requires |argv| >= 2
    ensures |r| == |argv|
  {
    argv[0 := "EVALSHA"][1 := Sha1.Hex(Fips180.Digest(Bytes(argv[1])))]
  }

  // What can have become of the arguments of a command: EVAL is tried as EVALSHA, and the
  // script is put back if the server does not know it.
  ghost predicate Rewritten(argv: seq<string>, original: seq<string>) {
    argv == original || (IsEval(original) && (argv == Hashed(original) || argv == original[0 := "EVAL"]))
  }

  ghost predicate ScriptFits(argv: seq<string>) {
    |argv| >= 2 ==> |argv[1]| + 63 < 0x1_0000_0000
  }

  // EVAL is recognized in any case.
  lemma IsEvalMeans(argv: seq<string>)
    ensures IsEval(argv) <==>
      |argv| >= 2 && |argv[0]| == 4 && forall i | 0 <= i < 4 :: argv[0][i] in {"EVAL"[i], "eval"[i]}
  {
    assert "EVAL"[0] == 'E' && "EVAL"[1] == 'V' && "EVAL"[2] == 'A' && "EVAL"[3] == 'L';
    assert "eval"[0] == 'e' && "eval"[1] == 'v' && "eval"[2] == 'a' && "eval"[3] == 'l';
  }

  lemma RewrittenAgain(argv: seq<string>, middle: seq<string>, original: seq<string>)
    requires Rewritten(middle, original) && Rewritten(argv, middle)
    ensures Rewritten(argv, original)
  {
    hide Sha1.Hex, Fips180.Digest, Bytes;
  }

  lemma RewrittenFits(argv: seq<string>, original: seq<string>)
    requires Rewritten(argv, original) && ScriptFits(original)
    ensures |argv| == |original| && ScriptFits(argv)
  {
    hide Sha1.Hex, Fips180.Digest, Bytes;
  }

  // EVALSHA was answered in full by an error that says that the script is not known.
  predicate Unknown(hashed: Arrival, readonly: bool, asking: bool) {
    Completes(hashed, readonly, asking) && hashed.body.ErrorReply? && "NOSCRIPT" <= hashed.body.text
  }

  // The body of the loop of redis_execute, between locking and unlocking. An unknown script
  // is never the answer to an attempt that started from EVAL, unless the connection broke.
  // hashed, plain: what becomes of EVALSHA, if that is tried, and of the command itself.
  method Attempt(db: Database, context: RedisContext, argv: array<string>, asking: bool,
                 hashed: Arrival, plain: Arrival)
    returns (result: Option<Reply>)
    requires argv.Length >= 1 && ScriptFits(argv[..])
    requires !context.err && Settled(context)
    modifies context`err, context`pending, context`sent, context`lost, argv, db`commandsNoscript
    ensures Settled(context)
    ensures result.Some? ==>
      && result.value.from == context.server && result.value.to == Own(argv[..])
      && result.value.under == Mode(ReadsOnly(context.server), asking)
    ensures result.None? ==> context.err
    // The script goes out as its name first, and itself only if that is not known.
    ensures var readonly := context.server.db.clustered && context.server.role == SLAVE;
      var again := IsEval(old(argv[..])) && Unknown(hashed, readonly, asking);
      var last := if !IsEval(old(argv[..])) || again then plain else hashed;
      && argv[..] == (
          if again then old(argv[..])[0 := "EVAL"]
          else if IsEval(old(argv[..])) then Hashed(old(argv[..])) else old(argv[..]))
      && (result.Some? <==> Reaches(last, readonly, asking)) && (result.Some? ==> result.value.body == last.body)
      && (context.err <==> !Completes(last, readonly, asking))
      && db.commandsNoscript == old(db.commandsNoscript) + if again then 1 else 0
    ensures Rewritten(argv[..], old(argv[..]))
    ensures context.sent == old(context.sent)
      + (if IsEval(old(argv[..])) then Pipe(ReadsOnly(context.server), asking, Hashed(old(argv[..]))) else [])
      + (if !IsEval(old(argv[..])) || argv[..] == old(argv[..])[0 := "EVAL"]
         then Pipe(ReadsOnly(context.server), asking, argv[..])
         else [])
    ensures result.Some? ==> context.lost == old(context.lost)
    ensures result.Some? && IsEval(old(argv[..])) && IsNoScript(result.value.body) ==>
      context.err || argv[..] == old(argv[..])[0 := "EVAL"]
  {
    hide Settled, Sha1.Hex, Fips180.Digest, Bytes, Pipe, Reaches, Completes, Hashed, IsEval;
    result := None;
    var done := false;
    if IsEval(argv[..]) {
      result, done := TryName(db, context, argv, asking, hashed);
    }
    NothingSent(context.sent);
    if !done {
      result := Connection.Execute(context, argv[..], asking, plain);
    }
  }

  lemma NothingSent(sent: seq<Command>)
    ensures sent + [] == sent
  {
  }

  // EVALSHA. If the script is not known the arguments are put back.
  method TryName(db: Database, context: RedisContext, argv: array<string>, asking: bool, hashed: Arrival)
    returns (result: Option<Reply>, done: bool)
    requires IsEval(argv[..]) && ScriptFits(argv[..])
    requires !context.err && Settled(context)
    modifies context`err, context`pending, context`sent, context`lost, argv, db`commandsNoscript
    ensures Settled(context)
    ensures done <==> !Unknown(hashed, ReadsOnly(context.server), asking)
    ensures done ==>
      && argv[..] == Hashed(old(argv[..])) && argv[..] != old(argv[..])[0 := "EVAL"]
      && (result.Some? <==> Reaches(hashed, ReadsOnly(context.server), asking))
      && (context.err <==> !Completes(hashed, ReadsOnly(context.server), asking))
    ensures !done ==> argv[..] == old(argv[..])[0 := "EVAL"] && !context.err && result.None?
    ensures result.Some? ==>
      && result.value.from == context.server && result.value.to == Own(argv[..])
      && result.value.under == Mode(ReadsOnly(context.server), asking) && result.value.body == hashed.body
    ensures result.None? && done ==> context.err
    ensures result.Some? && IsNoScript(result.value.body) ==> context.err
    ensures context.sent == old(context.sent) + Pipe(ReadsOnly(context.server), asking, Hashed(old(argv[..])))
    ensures result.Some? || !done ==> context.lost == old(context.lost)
    ensures db.commandsNoscript == old(db.commandsNoscript) + if done then 0 else 1
  {
    hide Settled, Sha1.Hex, Fips180.Digest, Bytes, Pipe;
    argv[0] := "EVALSHA";
    var script := argv[1];
    argv[1] := Sha1.ScriptName(Bytes(script), true);
    assert argv[..] == Hashed(old(argv[..]));
    result := Connection.Execute(context, argv[..], asking, hashed);
    if !context.err && result.Some? && IsNoScript(result.value.body) {
      argv[0] := "EVAL";
      argv[1] := script;
      assert argv[..] == old(argv[..])[0 := "EVAL"];
      result := None;
      db.commandsNoscript := db.commandsNoscript + 1;
      done := false;
    } else {
      done := true;
      assert |argv[..][0]| == 7 && |old(argv[..])[0 := "EVAL"][0]| == 4;
    }
  }

  // A private connection can neither be opened nor replaced.
  ghost predicate Hopeless(db: Database, contexts: seq<RedisContext>) {
    !db.sharedConnections && NoRoomEver(db, contexts)
  }

  // A plan after one attempt, and the server that this was for.
  ghost predicate OneFurther(plan: Plan, nextContext: nat, nextServer: nat)
    reads plan
  {
    if nextContext < |plan.contexts| then plan.nextContext == nextContext + 1 && plan.nextServer == nextServer
    else
      && plan.nextContext == nextContext && plan.servers != []
      && plan.nextServer == (nextServer + 1) % |plan.servers|
  }

  ghost predicate NextIs(plan: Plan, nextContext: nat, nextServer: nat, server: RedisServer)
    reads plan
  {
    if nextContext < |plan.contexts| then server == plan.contexts[nextContext].server
    else nextServer < |plan.servers| && server == plan.servers[nextServer]
  }

  // lock_redis_context
  method Lock(db: Database, state: TaskState, plan: Plan, idle: set<RedisContext>, ghost server: Option<RedisServer>,
              now: int, version: nat, established: bool)
    returns (context: Option<RedisContext>, aborted: bool)
    requires TaskValid(state, db) && PlanValid(plan, state, db) && Idle(idle)
    requires LeadsTo(plan, db, server)
    requires plan.servers != [] || (!db.sharedConnections && plan.nextContext < |plan.contexts|)
    requires db.sharedConnections ==> plan.contexts == []
    modifies plan`nextContext, plan`nextServer, state
    modifies db`dropped, db`connectionsTotal, db`connectionsFailed, db.registered`sicknessTst, db.registered`sicknessExp
    ensures TaskValid(state, db) && PlanValid(plan, state, db) && Idle(idle)
    ensures OnlyNew(old(state.contexts), state.contexts, db)
    ensures forall c | c in state.contexts :: c in old(state.contexts) || (fresh(c) && c.version == version)
    ensures state.ncontexts <= Max(old(state.ncontexts), db.maxConnections)
    ensures OneFurther(plan, old(plan.nextContext), old(plan.nextServer))
    ensures aborted <==> Hopeless(db, old(state.contexts)) && old(plan.nextContext) >= |plan.contexts|
    ensures aborted ==> context.None? && state.contexts == old(state.contexts)
    ensures context.Some? ==>
      var c := context.value;
      && !c.err && Settled(c) && c.server in db.registered && c.server.db == db
      && (server.Some? ==> c.server == server.value)
      && NextIs(plan, old(plan.nextContext), old(plan.nextServer), c.server)
      && c !in plan.contexts[plan.nextContext..] && (c in state.contexts || c in idle || fresh(c))
  {
    hide Settled, NoDup;
    if db.sharedConnections {
      context := LockShared(db, plan, idle, now, version, established);
      aborted := false;
      assert plan.contexts[plan.nextContext..] == [];
    } else {
      context, aborted := LockPrivate(db, state, plan, now, version, established);
    }
  }

  // One attempt on a connection that was handed out leaves all the others as they are.
  method Use(db: Database, state: TaskState, plan: Plan, idle: set<RedisContext>, context: RedisContext,
             argv: array<string>, asking: bool)
    returns (result: Option<Reply>)
    requires TaskValid(state, db) && PlanValid(plan, state, db) && Idle(idle)
    requires argv.Length >= 1 && ScriptFits(argv[..])
    requires !context.err && Settled(context) && context !in plan.contexts[plan.nextContext..]
    modifies context`err, context`pending, context`sent, context`lost, argv, db`commandsNoscript
    ensures TaskValid(state, db) && PlanValid(plan, state, db) && Idle(idle)
    ensures result.Some? ==>
      && result.value.from == context.server && result.value.to == Own(argv[..])
      && result.value.under == Mode(ReadsOnly(context.server), asking)
    ensures Rewritten(argv[..], old(argv[..]))
  {
    hide Settled, NoDup, Rewritten, ScriptFits, Pipe, Hashed, IsEval, IsNoScript;
    var hashed: Arrival, plain: Arrival := *, *;
    result := Attempt(db, context, argv, asking, hashed, plain);
  }

  // Lock, attempt, unlock. The arguments and the connections used keep their invariants.
  method TryOnce(db: Database, state: TaskState, plan: Plan, idle: set<RedisContext>, argv: array<string>, asking: bool,
                 ghost server: Option<RedisServer>, now: int, version: nat, established: bool)
    returns (result: Option<Reply>, aborted: bool)
    requires TaskValid(state, db) && PlanValid(plan, state, db) && Idle(idle)
    requires argv.Length >= 1 && ScriptFits(argv[..])
    requires LeadsTo(plan, db, server)
    requires plan.servers != [] || (!db.sharedConnections && plan.nextContext < |plan.contexts|)
    requires db.sharedConnections ==> plan.contexts == []
    modifies plan`nextContext, plan`nextServer, state, argv, db`commandsNoscript
    modifies db`dropped, db`connectionsTotal, db`connectionsFailed, db.registered`sicknessTst, db.registered`sicknessExp
    modifies Elems(state.contexts)`err, Elems(state.contexts)`pending
    modifies Elems(state.contexts)`sent, Elems(state.contexts)`lost
    modifies idle`err, idle`pending, idle`sent, idle`lost
    ensures TaskValid(state, db) && PlanValid(plan, state, db) && Idle(idle)
    ensures OnlyNew(old(state.contexts), state.contexts, db)
    ensures forall c | c in state.contexts :: c in old(state.contexts) || (fresh(c) && c.version == version)
    ensures state.ncontexts <= Max(old(state.ncontexts), db.maxConnections)
    ensures OneFurther(plan, old(plan.nextContext), old(plan.nextServer))
    ensures aborted <==> Hopeless(db, old(state.contexts)) && old(plan.nextContext) >= |plan.contexts|
    ensures aborted ==> result.None? && state.contexts == old(state.contexts)
    ensures result.Some? ==> Answers(result.value, db, argv[..], asking, server)
    ensures result.Some? ==> NextIs(plan, old(plan.nextContext), old(plan.nextServer), result.value.from)
    ensures result.Some? ==> (result.value.under.readOnly <==> db.clustered && result.value.from.role == SLAVE)
    ensures Rewritten(argv[..], old(argv[..]))
  {
    hide Settled, NoDup, Rewritten, ScriptFits, LeadsTo, OnlyNew, OneFurther, NextIs, TaskValid, PlanValid, Idle,
      Hopeless;
    var context: Option<RedisContext>;
    context, aborted := Lock(db, state, plan, idle, server, now, version, established);
    result := None;
    if context.Some? {
      result := Use(db, state, plan, idle, context.value, argv, asking);
    } else {
      SameArguments(argv[..]);
    }
  }

  lemma SameArguments(argv: seq<string>)
    ensures Rewritten(argv, argv)
  {
  }

  function Max(a: nat, b: nat): nat {
    if a < b then b else a
  }

  ghost predicate Idle(idle: set<RedisContext>)
    reads idle
  {
    forall c | c in idle :: Settled(c)
  }

  // ----- redis_execute -----

  // Statistics of one attempt.
  method CountAttempt(db: Database, retries: nat, failed: bool)
    modifies db`commandsRetried, db`commandsFailed, db`commandsTotal
    ensures db.commandsRetried == old(db.commandsRetried) + if retries > 0 then 1 else 0
    ensures db.commandsFailed == old(db.commandsFailed) + if failed then 1 else 0
    ensures db.commandsTotal == old(db.commandsTotal) + if failed then 0 else 1
  {
    if retries > 0 {
      db.commandsRetried := db.commandsRetried + 1;
    }
    if failed {
      db.commandsFailed := db.commandsFailed + 1;
    } else {
      db.commandsTotal := db.commandsTotal + 1;
    }
  }

  // What a plan must have for the attempts that are left.
  ghost predicate Enough(plan: Plan, attempts: nat)
    reads plan
  {
    plan.servers != [] || attempts <= |plan.contexts| - plan.nextContext
  }

  // A reply to attempt number attempts of a plan, counted from 1.
  ghost predicate ServedBy(reply: Reply, plan: Plan, nextContext: nat, nextServer: nat, attempts: nat)
    reads plan
  {
    && attempts > 0 && nextContext <= |plan.contexts|
    && (nextContext + attempts - 1 < |plan.contexts| || plan.servers != [])
    && reply.from == ServerOf(plan.contexts, plan.servers, nextContext, nextServer, attempts - 1)
  }

  lemma StillInTurn(plan: Plan, nextContext: nat, nextServer: nat, k: nat, nextContext': nat, nextServer': nat,
                    result: Option<Reply>)
    requires nextContext <= |plan.contexts| && (plan.servers != [] ==> nextServer < |plan.servers|)
    requires
      if nextContext + k <= |plan.contexts| then nextContext' == nextContext + k && nextServer' == nextServer
      else
        && nextContext' == |plan.contexts| && plan.servers != []
        && nextServer' == (nextServer + (nextContext + k - |plan.contexts|)) % |plan.servers|
    requires OneFurther(plan, nextContext', nextServer')
    ensures Advanced(plan, nextContext, nextServer, k + 1)
    ensures result.Some? && NextIs(plan, nextContext', nextServer', result.value.from) ==>
      ServedBy(result.value, plan, nextContext, nextServer, k + 1)
  {
    AdvancedMore(plan, nextContext, nextServer, k, nextContext', nextServer');
  }

  // The body of the loop of redis_execute, up to the question whether to try again.
  method AttemptAndCount(db: Database, state: TaskState, plan: Plan, idle: set<RedisContext>, retries: nat,
                         argv: array<string>, asking: bool, ghost server: Option<RedisServer>, version: nat,
                         ghost original: seq<string>, ghost nextContext: nat, ghost nextServer: nat, ghost k: nat)
    returns (result: Option<Reply>, aborted: bool)
    requires TaskValid(state, db) && PlanValid(plan, state, db) && Idle(idle)
    requires argv.Length >= 1 && ScriptFits(original) && Rewritten(argv[..], original)
    requires LeadsTo(plan, db, server) && Enough(plan, 1) && (db.sharedConnections ==> plan.contexts == [])
    requires nextContext <= |plan.contexts| && (plan.servers != [] ==> nextServer < |plan.servers|)
    requires Advanced(plan, nextContext, nextServer, k)
    modifies plan`nextContext, plan`nextServer, state, argv
    modifies db`commandsNoscript, db`commandsRetried, db`commandsFailed, db`commandsTotal
    modifies db`dropped, db`connectionsTotal, db`connectionsFailed, db.registered`sicknessTst, db.registered`sicknessExp
    modifies Elems(state.contexts)`err, Elems(state.contexts)`pending
    modifies Elems(state.contexts)`sent, Elems(state.contexts)`lost
    modifies idle`err, idle`pending, idle`sent, idle`lost
    ensures TaskValid(state, db) && PlanValid(plan, state, db) && Idle(idle)
    ensures OnlyNew(old(state.contexts), state.contexts, db)
    ensures forall c | c in state.contexts :: c in old(state.contexts) || (fresh(c) && c.version == version)
    ensures state.ncontexts <= Max(old(state.ncontexts), db.maxConnections)
    ensures aborted <==> Hopeless(db, old(state.contexts)) && old(plan.nextContext) >= |plan.contexts|
    ensures aborted ==> result.None? && state.contexts == old(state.contexts)
    ensures result.Some? ==>
      && Answers(result.value, db, argv[..], asking, server)
      && ServedBy(result.value, plan, nextContext, nextServer, k + 1)
    ensures result.Some? ==> (result.value.under.readOnly <==> db.clustered && result.value.from.role == SLAVE)
    ensures Rewritten(argv[..], original) && Advanced(plan, nextContext, nextServer, k + 1)
    ensures plan.servers != [] || plan.nextContext == old(plan.nextContext) + 1
    ensures db.commandsRetried == old(db.commandsRetried) + if retries > 0 && !aborted then 1 else 0
    ensures db.commandsFailed == old(db.commandsFailed) + if result.None? && !aborted then 1 else 0
    ensures db.commandsTotal == old(db.commandsTotal) + if result.Some? then 1 else 0
  {
    hide NoDup, Settled, Rewritten, ScriptFits, TaskValid, PlanValid, Idle, AllSettled, Usable, OnlyNew, Answers,
      Hopeless, LeadsTo;
    RewrittenFits(argv[..], original);
    var now: int, established: bool := *, *;
    ghost var before := argv[..];
    ghost var nextContext', nextServer' := plan.nextContext, plan.nextServer;
    result, aborted := TryOnce(db, state, plan, idle, argv, asking, server, now, version, established);
    RewrittenAgain(argv[..], before, original);
    StillInTurn(plan, nextContext, nextServer, k, nextContext', nextServer', result);
    if !aborted {
      CountAttempt(db, retries, result.None?);
    }
  }

  // The loop of redis_execute.
  method Retry(db: Database, state: TaskState, plan: Plan, idle: set<RedisContext>, maxRetries: nat,
               argv: array<string>, retries0: nat, asking: bool, ghost server: Option<RedisServer>, version: nat)
    returns (result: Option<Reply>, retries: nat, aborted: bool, ghost attempts: nat)
    requires TaskValid(state, db) && PlanValid(plan, state, db) && Idle(idle)
    requires argv.Length >= 1 && ScriptFits(argv[..])
    requires retries0 <= maxRetries && Enough(plan, maxRetries - retries0 + 1)
    requires db.sharedConnections ==> plan.contexts == []
    requires LeadsTo(plan, db, server)
    modifies plan`nextContext, plan`nextServer, state, argv
    modifies db`commandsNoscript, db`commandsRetried, db`commandsFailed, db`commandsTotal
    modifies db`dropped, db`connectionsTotal, db`connectionsFailed, db.registered`sicknessTst, db.registered`sicknessExp
    modifies Elems(state.contexts)`err, Elems(state.contexts)`pending
    modifies Elems(state.contexts)`sent, Elems(state.contexts)`lost
    modifies idle`err, idle`pending, idle`sent, idle`lost
    ensures TaskValid(state, db) && Idle(idle)
    ensures OnlyNew(old(state.contexts), state.contexts, db)
    ensures forall c | c in state.contexts :: c in old(state.contexts) || (fresh(c) && c.version == version)
    ensures state.ncontexts <= Max(old(state.ncontexts), db.maxConnections)
    ensures result.Some? ==> Answers(result.value, db, argv[..], asking, server)
    ensures Rewritten(argv[..], old(argv[..]))
    ensures aborted ==> result.None? && Hopeless(db, state.contexts)
    ensures Hopeless(db, old(state.contexts)) ==> aborted
    ensures retries0 <= retries <= maxRetries && (result.None? && !aborted ==> retries == maxRetries)
    ensures attempts == retries - retries0 + (if aborted then 0 else 1)
    // Whichever attempt succeeded was for the server whose turn it was.
    ensures result.Some? ==> ServedBy(result.value, plan, old(plan.nextContext), old(plan.nextServer), attempts)
    ensures result.Some? ==> (result.value.under.readOnly <==> db.clustered && result.value.from.role == SLAVE)
    ensures db.commandsTotal == old(db.commandsTotal) + (if result.Some? then 1 else 0)
    ensures db.commandsFailed == old(db.commandsFailed) + attempts - (if result.Some? then 1 else 0)
    ensures db.commandsRetried == old(db.commandsRetried) + attempts - (if retries0 > 0 || attempts == 0 then 0 else 1)
  {
    hide NoDup, Settled, Rewritten, ScriptFits, TaskValid, Idle, AllSettled, Usable, Answers;
    NothingPlanned(plan, state, db);
    hide Hopeless;
    retries, result, aborted, attempts := retries0, None, false, 0;
    SameArguments(argv[..]);
    while result.None?
      invariant !aborted
      invariant Hopeless(db, old(state.contexts)) ==>
        attempts == 0 && result.None? && state.contexts == old(state.contexts) && plan.nextContext >= |plan.contexts|
      invariant TaskValid(state, db) && PlanValid(plan, state, db) && Idle(idle)
      invariant OnlyNew(old(state.contexts), state.contexts, db)
      invariant forall c | c in state.contexts :: c in old(state.contexts) || (fresh(c) && c.version == version)
      invariant state.ncontexts <= Max(old(state.ncontexts), db.maxConnections)
      invariant Rewritten(argv[..], old(argv[..]))
      invariant retries0 <= retries <= maxRetries
      invariant attempts == retries - retries0 + if result.Some? then 1 else 0
      invariant result.None? ==> Enough(plan, maxRetries - retries + 1)
      invariant Advanced(plan, old(plan.nextContext), old(plan.nextServer), attempts)
      invariant result.Some? ==>
        && Answers(result.value, db, argv[..], asking, server)
        && ServedBy(result.value, plan, old(plan.nextContext), old(plan.nextServer), attempts)
      invariant result.Some? ==> (result.value.under.readOnly <==> db.clustered && result.value.from.role == SLAVE)
      invariant db.commandsTotal == old(db.commandsTotal) + (if result.Some? then 1 else 0)
      invariant db.commandsFailed == old(db.commandsFailed) + attempts - (if result.Some? then 1 else 0)
      invariant db.commandsRetried ==
        old(db.commandsRetried) + attempts - (if retries0 > 0 || attempts == 0 then 0 else 1)
      decreases maxRetries - retries, result.None?
    {
      result, aborted := AttemptAndCount(db, state, plan, idle, retries, argv, asking, server, version,
                                         old(argv[..]), old(plan.nextContext), old(plan.nextServer), attempts);
      if aborted {
        return;
      }
      attempts := attempts + 1;
      if result.None? {
        if retries < maxRetries {
          retries := retries + 1;
        } else {
          break;
        }
      }
    }
  }

  // Without private connections none can have been planned.
  lemma NothingPlanned(plan: Plan, state: TaskState, db: Database)
    requires PlanValid(plan, state, db)
    ensures Hopeless(db, state.contexts) ==> plan.nextContext >= |plan.contexts|
  {
    if plan.nextContext < |plan.contexts| {
      assert plan.contexts[plan.nextContext..][0] in state.contexts;
    }
  }

  // redis_execute. With no private connections and a limit of 0 the process ends on an
  // assertion (aborted) instead of opening one.
  method Execute(db: Database, state: TaskState, idle: set<RedisContext>, maxRetries: nat, argv: array<string>,
                 retries0: nat, server: Option<RedisServer>, asking: bool, master: bool, slot: nat, now: int,
                 version: nat, hungUp: set<RedisContext>)
    returns (result: Option<Reply>, retries: nat, aborted: bool, ghost attempts: nat, ghost planned: Planned)
    requires Registered(db) && TaskValid(state, db) && Idle(idle)
    requires argv.Length >= 1 && ScriptFits(argv[..]) && slot < 16384
    requires server.Some? ==> server.value in db.registered
    requires retries0 <= maxRetries
    // A plan without a given server is only made for the first attempt.
    requires server.Some? || retries0 == 0
    modifies state, argv, db.servers, db`commandsNoscript, db`commandsRetried, db`commandsFailed, db`commandsTotal
    modifies db`dropped, db`connectionsTotal, db`connectionsFailed, db.registered`sicknessTst, db.registered`sicknessExp
    modifies Elems(state.contexts)`err, Elems(state.contexts)`pending
    modifies Elems(state.contexts)`sent, Elems(state.contexts)`lost
    modifies idle`err, idle`pending, idle`sent, idle`lost
    ensures Registered(db) && TaskValid(state, db) && Idle(idle)
    ensures OnlyNew(old(state.contexts), state.contexts, db)
    ensures forall c | c in state.contexts :: c in old(state.contexts) || (fresh(c) && c.version == version)
    ensures state.ncontexts <= Max(old(state.ncontexts), db.maxConnections)
    ensures result.Some? ==> Answers(result.value, db, argv[..], asking, server)
    ensures Rewritten(argv[..], old(argv[..]))
    // The call is planned for its server or its slot, and each attempt is for whoever the plan
    // names for it. Without a given server only those are asked who suit the slot.
    ensures PlannedFrom(planned, old(Available(db, state.contexts, Wished(server, master, slot), now, version, hungUp)),
                        old(PlanOf(db, master, slot, now)), server,
                        if retries0 > 0 then maxRetries - retries0 else maxRetries + 1)
    ensures result.Some? ==> FromPlan(result.value, planned, attempts)
    ensures result.Some? ==> (result.value.under.readOnly <==> db.clustered && result.value.from.role == SLAVE)
    ensures result.Some? && server.None? ==> result.value.from in old(Suited(db, master, slot, now))
    // The queues are turned by what is planned from them.
    ensures Queues(db) ==
      if server.Some? then old(Queues(db))
      else Rotated(old(Queues(db)), old(Chosen(db, 1, master, slot, now)), maxRetries + 1 - |planned.contexts|)
    // Attempts are counted, and retries in step with them.
    ensures retries0 <= retries <= maxRetries && (result.None? && !aborted ==> retries == maxRetries)
    ensures var nobody := server.None? && old(NobodyFor(db, master));
      && (nobody ==> !aborted && attempts == 0)
      && (!nobody ==> attempts == retries - retries0 + if aborted then 0 else 1)
      && (!nobody && Hopeless(db, old(state.contexts)) ==> aborted)
    ensures aborted ==> result.None? && Hopeless(db, state.contexts)
    ensures db.commandsTotal == old(db.commandsTotal) + (if result.Some? then 1 else 0)
    ensures db.commandsFailed == old(db.commandsFailed) + attempts - (if result.Some? then 1 else 0)
    ensures db.commandsRetried == old(db.commandsRetried) + attempts - (if retries0 > 0 || attempts == 0 then 0 else 1)
  {
    hide NoDup, Settled, Rewritten, ScriptFits, NobodyFor, TaskValid, Idle, Shaped, InPlace, Known, PlanOf,
      Limited, Available, Elems, Usable, Suited, PlannedFrom, PlanValid, LeadsTo, Queues, Rotated, Chosen;
    var maxSize := if retries0 > 0 then maxRetries - retries0 else 1 + maxRetries - retries0;
    var plan;
    plan, planned := PlanCall(db, state, maxSize, server, master, slot, now, version, hungUp);
    if plan.contexts != [] || plan.servers != [] {
      FewerElems(state.contexts, old(state.contexts));
      result, retries, aborted, attempts :=
        Retry(db, state, plan, idle, maxRetries, argv, retries0, asking, server, version);
    } else {
      SameArguments(argv[..]);
      result, retries, aborted, attempts := None, maxRetries, false, 0;
    }
  }

  // A reply to attempt number attempts of a plan, from the beginning.
  ghost predicate FromPlan(reply: Reply, planned: Planned, attempts: nat) {
    && attempts > 0 && (attempts - 1 < |planned.contexts| || planned.servers != [])
    && reply.from == ServerOf(planned.contexts, planned.servers, 0, 0, attempts - 1)
  }

  lemma FewerElems<T>(few: seq<T>, many: seq<T>)
    requires forall x | x in few :: x in many
    ensures Elems(few) <= Elems(many) && (many == [] ==> few == [])
  {
    if few != [] {
      assert few[0] in many;
    }
  }
}
