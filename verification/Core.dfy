/** The objects of src/core.h, the check of a pooled connection and the opening of a new one. */
module Core {
  import opened Lists

  datatype Option<+T> = None | Some(value: T)

  // The order of the roles is the order in which the planner prefers them.
  type Role = r: nat | r < 3
  const SLAVE: Role := 0
  const MASTER: Role := 1
  const TBD: Role := 2

  datatype Location =
    | Host(raw: string, host: string, port: nat)
    | Socket(raw: string)

  // Why a connection is dropped.
  datatype Drop = Error | Version | Ttl | Sick | HungUp | Overflow

  // What goes over a connection: the caller's own command and what it is wrapped in.
  datatype Command = ReadOnly | Asking | ReadWrite | Own(argv: seq<string>)

  datatype Body = ErrorReply(text: string) | OtherReply(content: nat)

  // What a server keeps about a connection. READONLY and READWRITE switch a mode; ASKING
  // covers only the next command (Redis Cluster Specification, sections "ASK redirection"
  // and "Scaling reads using replica nodes").
  datatype Mode = Mode(readOnly: bool, asking: bool)

  // A reply: who sent it, the command that it answers and the mode in which that was served.
  datatype Reply = Reply(from: RedisServer, to: Command, under: Mode, body: Body)

  class RedisServer {
    const db: Database
    const location: Location
    var role: Role
    var weight: nat
    // Sickness timestamps: when it was flagged, and until when.
    var sicknessTst: int
    var sicknessExp: int
    // Cluster slots served.
    var slots: Slots
    // Shared pool.
    var ncontexts: nat
    var freeContexts: seq<RedisContext>
    var busyContexts: seq<RedisContext>

    // new_redis_server
    constructor (db: Database, location: Location, role: Role)
      ensures this.db == db && this.location == location && this.role == role && weight == 0
      ensures sicknessTst == sicknessExp == 0
      ensures slots == NoSlots()
      ensures ncontexts == 0 && freeContexts == [] && busyContexts == []
    {
      this.db := db;
      this.location := location;
      this.role := role;
      weight := 0;
      sicknessTst, sicknessExp := 0, 0;
      slots := NoSlots();
      ncontexts := 0;
      freeContexts, busyContexts := [], [];
    }
  }

  function NoSlots(): (s: seq<bool>)
    ensures |s| == 16384
    ensures forall i | 0 <= i < 16384 :: !s[i]
  {
    seq(16384, i => false)
  }

  type Slots = s: seq<bool> | |s| == 16384 witness NoSlots()

  class RedisContext {
    const server: RedisServer
    const version: nat
    const tst: int
    // The sticky error of the client library.
    var err: bool
    // Commands queued whose replies have not been fetched, oldest first.
    var pending: seq<Command>
    // Every command ever queued on it.
    var sent: seq<Command>
    // Those among them that were queued when it was already in error.
    var lost: seq<Command>

    // new_redis_context, on a connection just established.
    constructor (server: RedisServer, version: nat, tst: int)
      ensures this.server == server && this.version == version && this.tst == tst
      ensures !err && pending == [] && sent == [] && lost == []
    {
      this.server := server;
      this.version := version;
      this.tst := tst;
      err := false;
      pending := [];
      sent := [];
      lost := [];
    }
  }

  class Database {
    const clustered: bool
    const sharedConnections: bool
    const maxConnections: nat
    const maxHops: nat
    const connectionTtl: nat
    const sicknessTtl: nat
    // Tail queues by weight and role.
    const servers: array2<seq<RedisServer>>
    // Every server that was ever registered.
    ghost var registered: set<RedisServer>
    // Statistics.
    var serversTotal: nat
    var serversFailed: nat
    var connectionsTotal: nat
    var connectionsFailed: nat
    var dropped: multiset<Drop>
    var commandsTotal: nat
    var commandsFailed: nat
    var commandsRetried: nat
    var commandsNoscript: nat
    var discoveriesTotal: nat
    var discoveriesFailed: nat
    var moved: nat
    var ask: nat

    constructor (clustered: bool, sharedConnections: bool, maxConnections: nat, maxHops: nat, connectionTtl: nat,
                 sicknessTtl: nat)
      ensures this.clustered == clustered && this.sharedConnections == sharedConnections
      ensures this.maxConnections == maxConnections && this.maxHops == maxHops
      ensures this.connectionTtl == connectionTtl && this.sicknessTtl == sicknessTtl
      ensures registered == {} && fresh(servers) && servers.Length0 == 4 && servers.Length1 == 3
      ensures forall w, r | 0 <= w < 4 && 0 <= r < 3 :: servers[w, r] == []
      ensures serversTotal == 0
    {
      this.clustered := clustered;
      this.sharedConnections := sharedConnections;
      this.maxConnections := maxConnections;
      this.maxHops := maxHops;
      this.connectionTtl := connectionTtl;
      this.sicknessTtl := sicknessTtl;
      servers := new seq<RedisServer>[4, 3]((w, r) => []);
      registered := {};
      serversTotal, serversFailed := 0, 0;
      connectionsTotal, connectionsFailed := 0, 0;
      dropped := multiset{};
      commandsTotal, commandsFailed, commandsRetried, commandsNoscript := 0, 0, 0, 0;
      discoveriesTotal, discoveriesFailed := 0, 0;
      moved, ask := 0, 0;
    }

    // ----- is_valid_redis_context -----

    // What is wrong with a connection, if anything; the first fault counts.
    ghost function Fault(context: RedisContext, now: int, version: nat, hungUp: bool): Option<Drop>
      reads context`err, context.server`sicknessTst
    {
      FaultIn(context.err, context.version != version, now - context.tst,
              context.tst <= context.server.sicknessTst, hungUp)
    }

    ghost function FaultIn(err: bool, outdated: bool, age: int, flaggedSince: bool, hungUp: bool): Option<Drop> {
      if err then Some(Error)
      else if outdated then Some(Version)
      else if connectionTtl > 0 && age > connectionTtl then Some(Ttl)
      else if sicknessTtl > 0 && flaggedSince then Some(Sick)
      else if hungUp then Some(HungUp)
      else None
    }

    // The connections that survive the check: in particular none in error.
    ghost function Valid(contexts: set<RedisContext>, now: int, version: nat,
                         hungUp: set<RedisContext>): (v: set<RedisContext>)
      reads contexts`err, (set c | c in contexts :: c.server)`sicknessTst
      ensures forall c | c in v :: !c.err
    {
      set c | c in contexts && Fault(c, now, version, c in hungUp) == None
    }

    lemma ValidMeans(c: RedisContext, contexts: set<RedisContext>, now: int, version: nat, hungUp: set<RedisContext>)
      requires c in contexts
      ensures c in Valid(contexts, now, version, hungUp) <==> Fault(c, now, version, c in hungUp) == None
    {
    }

    // A connection is sound if it works, was made for this VCL, is not too old, its server has
    // not been flagged since it was opened, and the peer is still there.
    lemma FaultMeans(c: RedisContext, now: int, version: nat, hungUp: bool)
      ensures Fault(c, now, version, hungUp) == None <==>
        && !c.err && c.version == version
        && (connectionTtl > 0 ==> now - c.tst <= connectionTtl)
        && (sicknessTtl > 0 ==> c.tst > c.server.sicknessTst)
        && !hungUp
    {
    }

    method IsValid(context: RedisContext, now: int, version: nat, hungUp: bool) returns (valid: bool)
      modifies this`dropped
      ensures valid <==>
        && !context.err && context.version == version
        && (connectionTtl > 0 ==> now - context.tst <= connectionTtl)
        && (sicknessTtl > 0 ==> context.tst > context.server.sicknessTst)
        && !hungUp
      ensures var fault := Fault(context, now, version, hungUp);
        && (valid <==> fault == None)
        && dropped == old(dropped) + if fault.Some? then multiset{fault.value} else multiset{}
    {
      if context.err {
        dropped := dropped + multiset{Error};
        return false;
      }
      if context.version != version {
        dropped := dropped + multiset{Version};
        return false;
      }
      if connectionTtl > 0 && now - context.tst > connectionTtl {
        dropped := dropped + multiset{Ttl};
        return false;
      }
      if sicknessTtl > 0 && context.tst <= context.server.sicknessTst {
        dropped := dropped + multiset{Sick};
        return false;
      }
      if hungUp {
        dropped := dropped + multiset{HungUp};
        return false;
      }
      return true;
    }

    // ----- new_rcontext -----

    // Whether the connection was established is up to the network. The sickness flag of
    // the server follows: it ends now, or is set for the configured time.
    method Connect(server: RedisServer, now: int, established: bool, ephemeral: bool)
      modifies this`connectionsTotal, this`connectionsFailed, server`sicknessTst, server`sicknessExp
      ensures server.sicknessExp ==
        if established then (if old(server.sicknessExp) > now then now else old(server.sicknessExp))
        else if sicknessTtl > 0 then now + sicknessTtl else old(server.sicknessExp)
      ensures server.sicknessTst == if !established && sicknessTtl > 0 then now else old(server.sicknessTst)
      ensures connectionsTotal == old(connectionsTotal) + if established && !ephemeral then 1 else 0
      ensures connectionsFailed == old(connectionsFailed) + if !established && !ephemeral then 1 else 0
    {
      if established {
        if server.sicknessExp > now {
          server.sicknessExp := now;
        }
        if !ephemeral {
          connectionsTotal := connectionsTotal + 1;
        }
      } else {
        if sicknessTtl > 0 {
          server.sicknessTst := now;
          server.sicknessExp := now + sicknessTtl;
        }
        if !ephemeral {
          connectionsFailed := connectionsFailed + 1;
        }
      }
    }
  }
}
