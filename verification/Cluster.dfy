/** Executing one command against a clustered database (cluster_execute of src/cluster.c). */
module Cluster {
  import opened Lists
  import opened ClusterCommands
  import opened Core
  import opened Connection
  import opened Registry
  import opened TaskContexts
  import opened Planner
  import opened Planning
  import Crc16
  import Discovery
  import ClusterReply
  import Executor
  import HashSlot

  // ----- Which slot a command belongs to -----

  // The slot of a key.
  ghost function SlotOf(key: string): (slot: nat)
    ensures slot < 16384
  {
    HashSlot.Masked(Crc16.Crc(HashSlot.HashedPart(Executor.Bytes(key))))
  }

  // The slot of a command, if it can be executed in a cluster.
  ghost function KeySlot(argv: seq<string>): Option<nat>
    requires argv != []
  {
    var index := KeyIndex(argv[0]);
    if 0 < index < |argv| then Some(SlotOf(argv[index])) else None
  }

  // ----- Redirections -----

  predicate IsMoved(body: Body) {
    body.ErrorReply? && "MOVED" <= body.text
  }

  predicate IsRedirection(body: Body) {
    IsMoved(body) || (body.ErrorReply? && "ASK" <= body.text)
  }

  // The words that servers use. An error with any other is for the caller.
  lemma RedirectionMeans()
    ensures forall body :: IsMoved(body) <==> body.ErrorReply? && "MOVED" <= body.text
    ensures forall body ::
      IsRedirection(body) <==> body.ErrorReply? && ("MOVED" <= body.text || "ASK" <= body.text)
    ensures forall body :: IsMoved(body) ==> !("ASK" <= body.text)
  {
    assert "MOVED"[0] != "ASK"[0];
  }

  function AfterSpace(s: string): Option<string> {
    if s == "" then None else if s[0] == ' ' then Some(s[1..]) else AfterSpace(s[1..])
  }

  // What follows the second space.
  function Target(text: string): Option<string> {
    var rest := AfterSpace(text);
    if rest.None? then None else AfterSpace(rest.value)
  }

  lemma {:induction false} SpaceAfter(word: string, rest: string)
    requires ' ' !in word
    ensures AfterSpace(word + " " + rest) == Some(rest)
  {
    if word != "" {
      assert (word + " " + rest)[1..] == word[1..] + " " + rest;
      SpaceAfter(word[1..], rest);
    }
  }

  // The location is read back from the error that a server sends.
  lemma TargetRoundTrip(kind: string, slot: string, location: string)
    requires ' ' !in kind && ' ' !in slot
    ensures Target(kind + " " + slot + " " + location) == Some(location)
  {
    SpaceAfter(kind, slot + " " + location);
    assert kind + " " + slot + " " + location == kind + " " + (slot + " " + location);
    SpaceAfter(slot, location);
  }

  // A redirection that the module cannot follow: it has no location, or not one with a port.
  ghost predicate Malformed(body: Body) {
    body.ErrorReply? && (Target(body.text).None? || ParseLocation(Target(body.text).value).Socket?)
  }

  // Such replies exist: any error that starts like a redirection may be one.
  lemma MalformedExample()
    ensures IsRedirection(ErrorReply("ASK me later")) && Malformed(ErrorReply("ASK me later"))
  {
    TargetRoundTrip("ASK", "me", "later");
    assert "ASK" + " " + "me" + " " + "later" == "ASK me later";
    assert LastColon("later") == -1;
  }

  // ----- Following a redirection -----

  // Everybody has the slots that one reply gives them.
  ghost predicate ToldBy(db: Database, asked: Option<RedisServer>, reply: Option<ClusterReply.Value>,
                         setup: ClusterReply.Setup)
    reads db`registered, db.registered`slots
  {
    asked.Some? && asked.value.location.Host? && Discovery.SlotsOfReply(db, asked.value, reply, setup)
  }

  // Register the server that a redirection names, and learn the topology again if it is a
  // MOVED one, from that server if it can tell. Nothing comes of it only if the redirection is
  // malformed. established, answer: what becomes of asking the server for its role; first:
  // what it says about the topology.
  method Follow(db: Database, rules: seq<WeightRule>, state: TaskState, body: Body, setup: ClusterReply.Setup, now: nat,
                established: bool, answer: Role, first: Option<ClusterReply.Value>)
    returns (server: Option<RedisServer>, asking: bool,
             ghost done: bool, ghost asked: Option<RedisServer>, ghost reply: Option<ClusterReply.Value>)
    requires Registered(db) && ValidRules(rules) && TaskValid(state, db) && db.clustered && IsRedirection(body)
    modifies db`registered, db`serversTotal, db`serversFailed, db`connectionsTotal, db`connectionsFailed, db.servers
    modifies db`discoveriesTotal, db`discoveriesFailed, db`moved, db`ask
    modifies db.registered`role, db.registered`sicknessTst, db.registered`sicknessExp, db.registered`slots
    ensures Registered(db) && TaskValid(state, db) && old(db.registered) <= db.registered
    ensures forall s | s in db.registered :: s in old(db.registered) || fresh(s)
    ensures server.None? <==> Malformed(body)
    ensures server.Some? ==> server.value in db.registered && Target(body.text) == Some(server.value.location.raw)
    ensures asking ==> server.Some? && !IsMoved(body)
    ensures server.Some? ==> (asking <==> !IsMoved(body))
    ensures server.Some? && body.ErrorReply? ==> ("MOVED" <= body.text ==> !asking) && ("ASK" <= body.text ==> asking)
    // After MOVED, and only then, the topology is learnt again.
    ensures server.Some? && !asking ==>
      && db.discoveriesTotal == old(db.discoveriesTotal) + (if done then 1 else 0)
      && (done || db.discoveriesFailed > old(db.discoveriesFailed))
      && (done ==> ToldBy(db, asked, reply, setup))
      && (Discovery.Tells(first, server.value, setup) ==> done && asked == server && reply == first)
    ensures server.None? || asking ==>
      db.discoveriesTotal == old(db.discoveriesTotal) && db.discoveriesFailed == old(db.discoveriesFailed)
    ensures !done ==> forall s | s in db.registered ::
      s.slots == if s in old(db.registered) then old(s.slots) else NoSlots()
    // After ASK the server has the role that it names itself, or the one it had.
    ensures server.Some? && asking ==>
      server.value.role ==
        if established && answer != TBD then answer
        else if server.value in old(db.registered) then old(server.value.role) else TBD
    ensures db.moved == old(db.moved) + if server.Some? && IsMoved(body) then 1 else 0
    ensures db.ask == old(db.ask) + if server.Some? && !IsMoved(body) then 1 else 0
  {
    hide NoDup, Elems, InPlace, Shaped, Known, ParseLocation, WeightOf, NoSlots, Requeued, Target, Settled;
    hide IsMoved, IsRedirection, Discovery.SlotsOfReply, Discovery.Tells;
    RedirectionMeans();
    server, asking, done, asked, reply := None, false, false, None, None;
    var location := Target(body.text);
    if location.None? {
      return;
    }
    ghost var before := db.registered;
    server := Add(db, rules, location.value, TBD, now, established, answer);
    if server.None? {
      return;
    }
    if IsMoved(body) {
      db.moved := db.moved + 1;
      ghost var who;
      done, who, reply := Discovery.DiscoverSlots(db, rules, server.value, first, setup, now);
      asked := Some(who);
    } else {
      db.ask := db.ask + 1;
      asking := true;
    }
  }

  // ----- cluster_execute -----

  function Hops(maxHops: nat): nat {
    if maxHops > 0 then maxHops else 4294967295
  }

  // ----- The trail of redirections -----

  // A reply that was followed, and the server that it led to.
  datatype Hop = Hop(reply: Reply, server: RedisServer)

  ghost predicate Followed(reply: Reply, server: RedisServer) {
    IsRedirection(reply.body) && Target(reply.body.text) == Some(server.location.raw)
  }

  // A reply of a given server, if any, served under ASKING or not.
  ghost predicate AnswersTo(reply: Reply, registered: set<RedisServer>, asking: bool, server: Option<RedisServer>) {
    reply.from in registered && reply.under.asking == asking && (server.Some? ==> reply.from == server.value)
  }

  // Where the trail leads, and whether ASKING is due there: after ASK and not after MOVED.
  function LastServer(trail: seq<Hop>): Option<RedisServer> {
    if trail == [] then None else Some(trail[|trail| - 1].server)
  }

  predicate AskingDue(trail: seq<Hop>) {
    trail != [] && !IsMoved(trail[|trail| - 1].reply.body)
  }

  // Every redirection is the answer of the server that the one before led to, and leads to
  // a registered server.
  ghost predicate Trail(trail: seq<Hop>, registered: set<RedisServer>) {
    forall k | 0 <= k < |trail| ::
      && Followed(trail[k].reply, trail[k].server) && trail[k].server in registered
      && AnswersTo(trail[k].reply, registered, AskingDue(trail[..k]), LastServer(trail[..k]))
  }

  lemma TrailStays(trail: seq<Hop>, few: set<RedisServer>, many: set<RedisServer>)
    requires Trail(trail, few) && few <= many
    ensures Trail(trail, many)
  {
    hide Followed;
  }

  function Asks(trail: seq<Hop>): (n: nat)
    ensures n <= |trail|
  {
    if trail == [] then 0
    else Asks(trail[..|trail| - 1]) + if IsMoved(trail[|trail| - 1].reply.body) then 0 else 1
  }

  lemma LongerTrail(trail: seq<Hop>, registered: set<RedisServer>, hop: Hop)
    requires Trail(trail, registered) && Followed(hop.reply, hop.server) && hop.server in registered
    requires AnswersTo(hop.reply, registered, AskingDue(trail), LastServer(trail))
    ensures Trail(trail + [hop], registered)
    ensures LastServer(trail + [hop]) == Some(hop.server) && (AskingDue(trail + [hop]) <==> !IsMoved(hop.reply.body))
    ensures Asks(trail + [hop]) == Asks(trail) + if IsMoved(hop.reply.body) then 0 else 1
  {
    hide Followed, AnswersTo, IsMoved;
    var longer := trail + [hop];
    assert longer[..|trail|] == trail;
    forall k | 0 <= k < |longer|
      ensures Followed(longer[k].reply, longer[k].server) && longer[k].server in registered
      ensures AnswersTo(longer[k].reply, registered, AskingDue(longer[..k]), LastServer(longer[..k]))
    {
      if k < |trail| {
        assert longer[..k] == trail[..k] && longer[k] == trail[k];
      }
    }
  }

  lemma NoTrail(registered: set<RedisServer>)
    ensures Trail([], registered) && LastServer([]) == None && !AskingDue([]) && Asks([]) == 0
  {
  }

  // In a cluster any server will do.
  lemma SomebodyIs(db: Database, master: bool)
    requires db.clustered
    ensures NobodyFor(db, master) <==> db.registered == {}
  {
  }

  // The answers of the server that a reply redirects to are up to the network.
  method FollowReply(db: Database, rules: seq<WeightRule>, state: TaskState, reply: Reply, setup: ClusterReply.Setup)
    returns (server: Option<RedisServer>, asking: bool)
    requires Registered(db) && ValidRules(rules) && TaskValid(state, db) && db.clustered && IsRedirection(reply.body)
    modifies db`registered, db`serversTotal, db`serversFailed, db`connectionsTotal, db`connectionsFailed, db.servers
    modifies db`discoveriesTotal, db`discoveriesFailed, db`moved, db`ask
    modifies db.registered`role, db.registered`sicknessTst, db.registered`sicknessExp, db.registered`slots
    ensures Registered(db) && TaskValid(state, db) && old(db.registered) <= db.registered
    ensures forall s | s in db.registered :: s in old(db.registered) || fresh(s)
    ensures server.None? <==> Malformed(reply.body)
    ensures server.Some? ==>
      server.value in db.registered && Followed(reply, server.value) && (asking <==> !IsMoved(reply.body))
    ensures server.None? ==> !asking
    ensures db.moved == old(db.moved) + if server.Some? && !asking then 1 else 0
    ensures db.ask == old(db.ask) + if asking then 1 else 0
  {
    hide *;
    var now: nat, established: bool, answer: Role, first: Option<ClusterReply.Value> := *, *, *, *;
    ghost var done, asked, topology;
    server, asking, done, asked, topology :=
      Follow(db, rules, state, reply.body, setup, now, established, answer, first);
    FollowedTo(reply, server);
  }

  lemma FollowedTo(reply: Reply, server: Option<RedisServer>)
    requires IsRedirection(reply.body)
    ensures server.Some? && Target(reply.body.text) == Some(server.value.location.raw) ==> Followed(reply, server.value)
  {
  }

  // The body of the loop: execute the command and follow the redirection, if it is one.
  // A redirection is followed (hop), or malformed (aborted).
  method ExecuteOnce(db: Database, rules: seq<WeightRule>, state: TaskState, idle: set<RedisContext>, maxRetries: nat,
                     argv: array<string>, retries0: nat, server0: Option<RedisServer>, asking0: bool, master: bool,
                     slot: nat, setup: ClusterReply.Setup, now: int, version: nat, hungUp: set<RedisContext>)
    returns (result: Option<Reply>, retries: nat, server: Option<RedisServer>, asking: bool, hop: bool, aborted: bool,
             ghost attempts: nat, ghost redirection: Option<Reply>, ghost planned: Planned)
    requires Registered(db) && ValidRules(rules) && TaskValid(state, db) && Executor.Idle(idle) && db.clustered
    requires argv.Length >= 1 && Executor.ScriptFits(argv[..]) && slot < 16384
    requires server0.Some? ==> server0.value in db.registered
    requires retries0 <= maxRetries && (server0.Some? || retries0 == 0)
    modifies db`registered, db`serversTotal, db`serversFailed, db`connectionsTotal, db`connectionsFailed, db.servers
    modifies db`discoveriesTotal, db`discoveriesFailed, db`moved, db`ask, db`dropped
    modifies db`commandsNoscript, db`commandsRetried, db`commandsFailed, db`commandsTotal
    modifies db.registered`role, db.registered`sicknessTst, db.registered`sicknessExp, db.registered`slots
    modifies state, argv, Elems(state.contexts)`err, Elems(state.contexts)`pending
    modifies Elems(state.contexts)`sent, Elems(state.contexts)`lost
    modifies idle`err, idle`pending, idle`sent, idle`lost
    ensures Registered(db) && TaskValid(state, db) && Executor.Idle(idle)
    ensures old(db.registered) <= db.registered && forall s | s in db.registered :: s in old(db.registered) || fresh(s)
    ensures OnlyNew(old(state.contexts), state.contexts, db)
    ensures forall c | c in state.contexts :: c in old(state.contexts) || (fresh(c) && c.version == version)
    ensures state.ncontexts <= Executor.Max(old(state.ncontexts), db.maxConnections)
    ensures Executor.Rewritten(argv[..], old(argv[..]))
    ensures retries0 <= retries <= maxRetries && attempts <= retries - retries0 + 1
    ensures db.commandsTotal + db.commandsFailed == old(db.commandsTotal) + old(db.commandsFailed) + attempts
    ensures db.moved == (if hop && !asking then old(db.moved) + 1 else old(db.moved))
    ensures db.ask == (if hop && asking then old(db.ask) + 1 else old(db.ask))
    ensures hop ==>
      && result.None? && !aborted && server.Some? && server.value in db.registered
      && redirection.Some? && Followed(redirection.value, server.value)
      && AnswersTo(redirection.value, db.registered, asking0, server0) && (asking <==> !IsMoved(redirection.value.body))
    ensures result.Some? ==> Executor.Answers(result.value, db, argv[..], asking0, server0)
    ensures result.Some? ==> (aborted <==> IsRedirection(result.value.body))
    ensures result.Some? && !aborted && result.value.body.ErrorReply? ==>
      !("MOVED" <= result.value.body.text) && !("ASK" <= result.value.body.text)
    // In a cluster slaves are asked in read-only mode, and masters are not.
    ensures result.Some? && !aborted ==> (result.value.under.readOnly <==> result.value.from.role == SLAVE)
    ensures aborted ==> if result.Some? then Malformed(result.value.body) else Executor.Hopeless(db, state.contexts)
    ensures Executor.Hopeless(db, old(state.contexts)) && (server0.Some? || old(db.registered) != {}) ==> aborted
    ensures result.None? && !hop && !aborted ==> retries == maxRetries
    // Without a given server the call is planned for its slot.
    ensures server0.None? ==>
      PlannedFrom(planned, old(Available(db, state.contexts, ForSlot(master, slot), now, version, hungUp)),
                  old(PlanOf(db, master, slot, now)), None, maxRetries + 1)
    ensures var reply := if hop then redirection else result;
      reply.Some? ==>
        && Executor.FromPlan(reply.value, planned, attempts)
        && (server0.None? ==> reply.value.from in old(Suited(db, master, slot, now)))
  {
    hide NoDup, Elems, InPlace, Shaped, Known, Settled, Executor.Rewritten, Executor.ScriptFits, NobodyFor, TaskValid,
      Executor.Idle, Executor.Hopeless, Malformed, Target, IsRedirection, IsMoved, OnlyNew, Followed, Suited, Available,
      PlanOf, PlannedFrom, Executor.FromPlan;
    SomebodyIs(db, master);
    RedirectionMeans();
    result, retries, aborted, attempts, planned :=
      Executor.Execute(db, state, idle, maxRetries, argv, retries0, server0, asking0, master, slot, now, version,
                       hungUp);
    asking, hop, server, redirection := false, false, None, None;
    if result.Some? && IsRedirection(result.value.body) {
      server, asking := FollowReply(db, rules, state, result.value, setup);
      if server.None? {
        aborted := true;
      } else {
        hop, redirection, result := true, result, None;
      }
    }
  }

  // The loop of cluster_execute.
  method Redirect(db: Database, rules: seq<WeightRule>, state: TaskState, idle: set<RedisContext>, maxRetries: nat,
                  argv: array<string>, master: bool, slot: nat, setup: ClusterReply.Setup, now: int, version: nat,
                  hungUp: set<RedisContext>)
    returns (result: Option<Reply>, retries: nat, aborted: bool, ghost attempts: nat, ghost trail: seq<Hop>,
             ghost planned: Planned)
    requires Registered(db) && ValidRules(rules) && TaskValid(state, db) && Executor.Idle(idle) && db.clustered
    requires argv.Length >= 1 && Executor.ScriptFits(argv[..]) && slot < 16384
    modifies db`registered, db`serversTotal, db`serversFailed, db`connectionsTotal, db`connectionsFailed, db.servers
    modifies db`discoveriesTotal, db`discoveriesFailed, db`moved, db`ask, db`dropped
    modifies db`commandsNoscript, db`commandsRetried, db`commandsFailed, db`commandsTotal
    modifies db.registered`role, db.registered`sicknessTst, db.registered`sicknessExp, db.registered`slots
    modifies state, argv, Elems(state.contexts)`err, Elems(state.contexts)`pending
    modifies Elems(state.contexts)`sent, Elems(state.contexts)`lost
    modifies idle`err, idle`pending, idle`sent, idle`lost
    ensures Registered(db) && TaskValid(state, db) && Executor.Idle(idle)
    ensures old(db.registered) <= db.registered && forall s | s in db.registered :: s in old(db.registered) || fresh(s)
    ensures OnlyNew(old(state.contexts), state.contexts, db)
    ensures forall c | c in state.contexts :: c in old(state.contexts) || (fresh(c) && c.version == version)
    ensures state.ncontexts <= Executor.Max(old(state.ncontexts), db.maxConnections)
    ensures Executor.Rewritten(argv[..], old(argv[..]))
    ensures retries <= maxRetries && attempts <= maxRetries + Hops(db.maxHops) + 1
    ensures db.commandsTotal + db.commandsFailed == old(db.commandsTotal) + old(db.commandsFailed) + attempts
    // Whoever was asked last, and how, is where the trail of redirections led.
    ensures Trail(trail, db.registered) && |trail| <= Hops(db.maxHops) + 1
    ensures db.ask == old(db.ask) + Asks(trail) && db.moved == old(db.moved) + |trail| - Asks(trail)
    ensures result.Some? ==> Executor.Answers(result.value, db, argv[..], AskingDue(trail), LastServer(trail))
    ensures result.Some? ==> (aborted <==> IsRedirection(result.value.body))
    ensures result.Some? && !aborted && result.value.body.ErrorReply? ==>
      !("MOVED" <= result.value.body.text) && !("ASK" <= result.value.body.text)
    // In a cluster slaves are asked in read-only mode, and masters are not.
    ensures result.Some? && !aborted ==> (result.value.under.readOnly <==> result.value.from.role == SLAVE)
    ensures aborted ==> if result.Some? then Malformed(result.value.body) else Executor.Hopeless(db, state.contexts)
    ensures Executor.Hopeless(db, old(state.contexts)) && old(db.registered) != {} ==> aborted
    // It gives up only when the retries or the hops are used up.
    ensures result.None? && !aborted && retries < maxRetries ==>
      |trail| == (if db.maxHops > 0 then db.maxHops else 0xFFFF_FFFF) + 1
    // The first call is planned for the slot: whoever answers it suits that.
    ensures PlannedFrom(planned, old(Available(db, state.contexts, ForSlot(master, slot), now, version, hungUp)),
                        old(PlanOf(db, master, slot, now)), None, maxRetries + 1)
    ensures result.Some? && trail == [] ==>
      && Executor.FromPlan(result.value, planned, attempts)
      && result.value.from in old(Suited(db, master, slot, now))
    ensures trail != [] ==> trail[0].reply.from in old(Suited(db, master, slot, now))
  {
    hide NoDup, Elems, InPlace, Shaped, Known, Settled, Executor.Rewritten, Executor.ScriptFits, TaskValid,
      Executor.Idle, Executor.Hopeless, Malformed, IsRedirection, IsMoved, Trail, Asks, AskingDue, LastServer, Followed,
      AnswersTo, Suited, Available, PlanOf, PlannedFrom, Executor.FromPlan, Executor.Answers;
    Executor.SameArguments(argv[..]);
    retries := 0;
    result, aborted, attempts, trail := None, false, 0, [];
    NoTrail(db.registered);
    ghost var available := Available(db, state.contexts, ForSlot(master, slot), now, version, hungUp);
    ghost var order, suited := PlanOf(db, master, slot, now), Suited(db, master, slot, now);
    planned := Planned([], []);
    var time, gone := now, hungUp;
    var hops := Hops(db.maxHops);
    var asking, hop := false, true;
    var server: Option<RedisServer> := None;
    ghost var calls := 0;
    while result.None?
      invariant hops + calls == Hops(db.maxHops)
      invariant Registered(db) && TaskValid(state, db) && Executor.Idle(idle)
      invariant old(db.registered) <= db.registered
      invariant forall s | s in db.registered :: s in old(db.registered) || fresh(s)
      invariant OnlyNew(old(state.contexts), state.contexts, db)
      invariant forall c | c in state.contexts :: c in old(state.contexts) || (fresh(c) && c.version == version)
      invariant calls == 0 ==> state.contexts == old(state.contexts) && db.registered == old(db.registered)
      invariant Executor.Hopeless(db, old(state.contexts)) && old(db.registered) != {} ==> calls == 0
      invariant state.ncontexts <= Executor.Max(old(state.ncontexts), db.maxConnections)
      invariant retries <= maxRetries && attempts <= retries + calls
      invariant server.Some? ==> server.value in db.registered
      // Every call but the first is for the server of a redirection.
      invariant if calls > 0 then server.Some? else retries == 0
      invariant db.commandsTotal + db.commandsFailed == old(db.commandsTotal) + old(db.commandsFailed) + attempts
      invariant Trail(trail, db.registered) && |trail| == calls && server == LastServer(trail)
      invariant asking == AskingDue(trail)
      invariant db.ask == old(db.ask) + Asks(trail) && db.moved == old(db.moved) + |trail| - Asks(trail)
      invariant result.None? && !aborted && Executor.Rewritten(argv[..], old(argv[..]))
      invariant calls == 0 ==>
        && time == now && gone == hungUp
        && Available(db, state.contexts, ForSlot(master, slot), now, version, hungUp) == available
        && PlanOf(db, master, slot, now) == order && Suited(db, master, slot, now) == suited
      invariant calls > 0 ==>
        && trail[0].reply.from in suited
        && PlannedFrom(planned, available, order, None, maxRetries + 1)
      decreases hops
    {
      Executor.RewrittenFits(argv[..], old(argv[..]));
      Members(state.contexts);
      Members(old(state.contexts));
      ghost var before := argv[..];
      ghost var n, redirection, plan;
      ghost var registered := db.registered;
      result, retries, server, asking, hop, aborted, n, redirection, plan :=
        ExecuteOnce(db, rules, state, idle, maxRetries, argv, retries, server, asking, master, slot, setup,
                    time, version, gone);
      time, gone := *, *;
      if calls == 0 {
        planned := plan;
      }
      Executor.RewrittenAgain(argv[..], before, old(argv[..]));
      attempts := attempts + n;
      TrailStays(trail, registered, db.registered);
      if hop {
        LongerTrail(trail, db.registered, Hop(redirection.value, server.value));
        trail := trail + [Hop(redirection.value, server.value)];
      }
      if hop && hops > 0 && retries <= maxRetries {
        hops := hops - 1;
        calls := calls + 1;
      } else {
        break;
      }
    }
  }

  // Commands go out at most once per retry and once per hop, and once more. A redirection is
  // never handed to the caller: it is followed or, once the hops are used up, dropped. One
  // that is malformed ends the process on an assertion: this is the outcome aborted.
  method Execute(db: Database, rules: seq<WeightRule>, state: TaskState, idle: set<RedisContext>, maxRetries: nat,
                 argv: array<string>, master: bool, setup: ClusterReply.Setup, now: int, version: nat,
                 hungUp: set<RedisContext>)
    returns (result: Option<Reply>, retries: nat, aborted: bool, ghost attempts: nat, ghost trail: seq<Hop>,
             ghost planned: Planned, ghost slot: Option<nat>)
    requires Registered(db) && ValidRules(rules) && TaskValid(state, db) && Executor.Idle(idle) && db.clustered
    requires argv.Length >= 1 && Executor.ScriptFits(argv[..])
    modifies db`registered, db`serversTotal, db`serversFailed, db`connectionsTotal, db`connectionsFailed, db.servers
    modifies db`discoveriesTotal, db`discoveriesFailed, db`moved, db`ask, db`dropped
    modifies db`commandsNoscript, db`commandsRetried, db`commandsFailed, db`commandsTotal
    modifies db.registered`role, db.registered`sicknessTst, db.registered`sicknessExp, db.registered`slots
    modifies state, argv, Elems(state.contexts)`err, Elems(state.contexts)`pending
    modifies Elems(state.contexts)`sent, Elems(state.contexts)`lost
    modifies idle`err, idle`pending, idle`sent, idle`lost
    ensures Registered(db) && TaskValid(state, db) && Executor.Idle(idle)
    ensures old(db.registered) <= db.registered && forall s | s in db.registered :: s in old(db.registered) || fresh(s)
    ensures OnlyNew(old(state.contexts), state.contexts, db)
    ensures forall c | c in state.contexts :: c in old(state.contexts) || (fresh(c) && c.version == version)
    ensures state.ncontexts <= Executor.Max(old(state.ncontexts), db.maxConnections)
    ensures Executor.Rewritten(argv[..], old(argv[..]))
    ensures retries <= maxRetries && attempts <= maxRetries + Hops(db.maxHops) + 1
    ensures db.commandsTotal + db.commandsFailed == old(db.commandsTotal) + old(db.commandsFailed) + attempts
    // Whoever was asked last, and how, is where the trail of redirections led.
    ensures Trail(trail, db.registered) && |trail| <= Hops(db.maxHops) + 1
    ensures db.ask == old(db.ask) + Asks(trail) && db.moved == old(db.moved) + |trail| - Asks(trail)
    ensures result.Some? ==> Executor.Answers(result.value, db, argv[..], AskingDue(trail), LastServer(trail))
    ensures result.Some? ==> (aborted <==> IsRedirection(result.value.body))
    ensures result.Some? && !aborted && result.value.body.ErrorReply? ==>
      !("MOVED" <= result.value.body.text) && !("ASK" <= result.value.body.text)
    // In a cluster slaves are asked in read-only mode, and masters are not.
    ensures result.Some? && !aborted ==> (result.value.under.readOnly <==> result.value.from.role == SLAVE)
    ensures aborted ==> if result.Some? then Malformed(result.value.body) else Executor.Hopeless(db, state.contexts)
    ensures slot.Some? && old(db.registered) != {} && Executor.Hopeless(db, old(state.contexts)) ==> aborted
    ensures slot.None? ==> result.None? && attempts == 0
    // It gives up only when the retries or the hops are used up.
    ensures slot.Some? && result.None? && !aborted && retries < maxRetries ==>
      |trail| == (if db.maxHops > 0 then db.maxHops else 0xFFFF_FFFF) + 1
    // The first call is planned for the slot of the key.
    ensures slot.Some? ==>
      && slot.value < 16384
      && PlannedFrom(planned, old(Available(db, state.contexts, ForSlot(master, slot.value), now, version, hungUp)),
                     old(PlanOf(db, master, slot.value, now)), None, maxRetries + 1)
      && (result.Some? && trail == [] ==>
          && Executor.FromPlan(result.value, planned, attempts)
          && result.value.from in old(Suited(db, master, slot.value, now)))
      && (trail != [] ==> trail[0].reply.from in old(Suited(db, master, slot.value, now)))
    ensures slot == KeySlot(old(argv[..]))
  {
    hide NoDup, Elems, Registered, Settled, Executor.Rewritten, Executor.ScriptFits, TaskValid, Executor.Idle,
      KeySlot, Malformed, IsRedirection, Executor.Hopeless, Trail, Executor.Answers, Suited, Available, PlanOf,
      PlannedFrom, Executor.FromPlan;
    var found := FindSlot(argv);
    slot := found;
    if found.Some? {
      result, retries, aborted, attempts, trail, planned :=
        Redirect(db, rules, state, idle, maxRetries, argv, master, found.value, setup, now, version, hungUp);
    } else {
      Executor.SameArguments(argv[..]);
      NoTrail(db.registered);
      result, retries, aborted, attempts, trail, planned := None, 0, false, 0, [], Planned([], []);
    }
  }

  // Can the command be executed in a cluster, and in which slot?
  method FindSlot(argv: array<string>) returns (slot: Option<nat>)
    requires argv.Length > 0
    ensures slot == KeySlot(argv[..])
    ensures slot.Some? ==> slot.value < 16384
  {
    hide KeyIndex, SlotOf;
    var index := KeyIndex(argv[0]);
    if 0 < index < argv.Length {
      var number := SlotNumber(argv[index]);
      return Some(number);
    }
    return None;
  }

  method SlotNumber(key: string) returns (slot: nat)
    ensures slot == SlotOf(key)
  {
    hide Crc16.Crc, HashSlot.HashedPart, Executor.Bytes;
    var word := HashSlot.GetClusterSlot(Executor.Bytes(key));
    return word as nat;
  }
}
