/** The steps of SharedPool as the C code takes them: handing out and using one connection. */
module PoolUse {
  import opened Lists
  import opened Core
  import opened Connection
  import opened PoolLists
  import Executor
  import SharedPool
  import TaskContexts

  // The idle connections of a server are settled and its own.
  ghost predicate FreeSettled(server: RedisServer)
    reads server, server.freeContexts
  {
    forall c | c in server.freeContexts :: Settled(c) && c.server == server
  }

  // The last pass of lock_shared_redis_context through its critical section hands over what
  // Executor.LockShared promises: nothing, or a sound connection of the server, idle before
  // or new, that is now among the busy ones. Otherwise the thread goes to sleep, and every
  // connection it could have is busy.
  method LastPass(db: Database, server: RedisServer, now: int, version: nat, hungUp: set<RedisContext>,
                  established: bool)
    returns (result: Option<RedisContext>, asleep: bool)
    requires SharedPool.Consistent(PoolOf(server), db.maxConnections) && FreeSettled(server)
    modifies db`dropped, db`connectionsTotal, db`connectionsFailed
    modifies server`freeContexts, server`busyContexts, server`ncontexts, server`sicknessTst, server`sicknessExp
    ensures SharedPool.Consistent(PoolOf(server), db.maxConnections) && FreeSettled(server)
    ensures result.Some? ==>
      && Executor.HandedOver(result.value, server) && (result.value in old(server.freeContexts) || fresh(result.value))
      && result.value in server.busyContexts
    ensures asleep ==> result.None? && server.freeContexts == [] && |server.busyContexts| == db.maxConnections
  {
    hide Settled, SharedPool.Consistent;
    ghost var free := server.freeContexts;
    var o := OnePass(db, server, now, version, hungUp, established);
    forall c | c in server.freeContexts ensures Settled(c) && c.server == server {
      assert c in free;
    }
    match o
    case Took(c) => result, asleep := Some(c), false;
    case Connected(c) =>
      TaskContexts.NewSettled(c);
      result, asleep := Some(c), false;
    case Refused => result, asleep := None, false;
    case Full => result, asleep := None, true;
  }

  // The section keeps the pool consistent; nobody joins the idle ones.
  method OnePass(db: Database, server: RedisServer, now: int, version: nat, hungUp: set<RedisContext>,
                 established: bool)
    returns (o: SharedPool.Outcome<RedisContext>)
    requires SharedPool.Consistent(PoolOf(server), db.maxConnections)
    modifies db`dropped, db`connectionsTotal, db`connectionsFailed
    modifies server`freeContexts, server`busyContexts, server`ncontexts, server`sicknessTst, server`sicknessExp
    ensures SharedPool.Consistent(PoolOf(server), db.maxConnections)
    ensures forall c | c in server.freeContexts :: c in old(server.freeContexts)
    ensures o.Took? ==> o.c in old(server.freeContexts) && o.c in server.busyContexts && !o.c.err
    ensures o.Connected? ==>
      && fresh(o.made) && o.made in server.busyContexts && o.made.server == server
      && !o.made.err && o.made.pending == [] && o.made.sent == []
    ensures o.Full? ==> server.freeContexts == [] && |server.busyContexts| == db.maxConnections
  {
    hide NoDup, Elems, SharedPool.Consistent, SharedPool.Section, Core.Database.Valid;
    ghost var p := PoolOf(server);
    ghost var valid := db.Valid(Elems(p.free), now, version, hungUp);
    o := LockSection(db, server, now, version, hungUp, established);
    AllElems(p.free);
    AllElems(p.busy);
    SharedPool.SectionKeeps(p, PoolOf(server), db.maxConnections, valid, o);
    AllElems(server.freeContexts);
  }

  lemma AllElems<T>(s: seq<T>)
    ensures forall x :: x in s <==> x in Elems(s)
  {
  }

  // What the client library remembers of a connection.
  ghost function ConnOf(c: RedisContext): SharedPool.Conn
    reads c
  {
    SharedPool.Conn(c.err, |c.pending|)
  }

  // One command over a connection is an exchange of the state machine.
  method ExchangeOnce(context: RedisContext, argv: seq<string>, asking: bool, arrival: Arrival,
                      ghost s: SharedPool.State, ghost t: nat)
    returns (result: Option<Reply>, ghost s': SharedPool.State)
    requires !context.err && Settled(context)
    requires SharedPool.MayExchange(s, t) && s.conn[s.holding[t].c] == ConnOf(context)
    modifies context`err, context`pending, context`sent, context`lost
    ensures Settled(context)
    ensures SharedPool.Exchange(s, s', t, ConnOf(context))
  {
    result := Connection.Execute(context, argv, asking, arrival);
    ghost var h := s.holding[t];
    s' := s.(holding := s.holding[t := SharedPool.Hold(h.c, h.uses + 1)], conn := s.conn[h.c := ConnOf(context)]);
  }

  // Giving a connection back is a release: the pool stays consistent, and what it hands over
  // next is settled again.
  method ReleaseOnce(context: RedisContext, ghost max: nat)
    requires SharedPool.Consistent(PoolOf(context.server), max) && FreeSettled(context.server)
    requires Settled(context) && context in context.server.busyContexts
    modifies context.server`freeContexts, context.server`busyContexts
    ensures PoolOf(context.server) == SharedPool.Returned(old(PoolOf(context.server)), context)
    ensures SharedPool.Consistent(PoolOf(context.server), max) && FreeSettled(context.server)
  {
    hide NoDup, Settled, SharedPool.Consistent;
    ghost var p := PoolOf(context.server);
    assert context in Elems(p.busy);
    SharedPool.ReturnedKeeps(p, context, max);
    UnlockSection(context);
  }
}
