/** The critical sections of the shared pool, on its lists (src/core.c). */
module PoolLists {
  import opened Lists
  import opened Core
  import opened SharedPool

  ghost function PoolOf(server: RedisServer): Pool<RedisContext>
    reads server
  {
    Pool(server.freeContexts, server.busyContexts, server.ncontexts)
  }

  ghost predicate Sound(db: Database, c: RedisContext, now: int, version: nat, hungUp: set<RedisContext>)
    reads c`err, c.server`sicknessTst
  {
    db.Fault(c, now, version, c in hungUp) == None
  }

  // The first loop of lock_shared_redis_context: drop stale contexts until a valid one is found.
  method TakeFree(db: Database, server: RedisServer, now: int, version: nat, hungUp: set<RedisContext>,
                  ghost p: Pool<RedisContext>, ghost valid: set<RedisContext>)
    returns (result: Option<RedisContext>)
    requires p == PoolOf(server) && Consistent(p, db.maxConnections)
    requires forall i | 0 <= i < |p.free| :: p.free[i] in valid <==> Sound(db, p.free[i], now, version, hungUp)
    modifies db`dropped, server`freeContexts, server`busyContexts, server`ncontexts
    ensures Taken(p, PoolOf(server), valid, result)
    ensures |db.dropped| - |old(db.dropped)| == p.ncontexts - server.ncontexts
  {
    hide Consistent, Gone, Taken, Sound;
    ghost var k := 0;
    NothingGone(p, valid);
    while server.freeContexts != []
      invariant Gone(p, PoolOf(server), valid, k)
      invariant |db.dropped| - |old(db.dropped)| == p.ncontexts - server.ncontexts
      invariant forall i | k <= i < |p.free| :: p.free[i] in valid <==> Sound(db, p.free[i], now, version, hungUp)
      decreases |p.free| - k
    {
      FirstLeft(p, PoolOf(server), valid, k, db.maxConnections);
      var c := server.freeContexts[0];
      ghost var q := PoolOf(server);
      var ok := TakeFirst(db, server, now, version, hungUp);
      if ok {
        TakenOne(p, q, PoolOf(server), valid, k);
        return Some(c);
      }
      OneGone(p, q, PoolOf(server), valid, k);
      k := k + 1;
    }
    TakenNone(p, PoolOf(server), valid, k);
    return None;
  }

  // The first k connections were stale and are gone.
  ghost predicate Gone(p: Pool<RedisContext>, q: Pool<RedisContext>, valid: set<RedisContext>, k: nat) {
    && k <= |p.free| && q == Pool(p.free[k..], p.busy, p.ncontexts - k)
    && DropStale(p.free, valid) == DropStale(p.free[k..], valid)
  }

  // The stale connections at the head of the free ones are gone, and the first sound one, if
  // any, is busy.
  ghost predicate Taken(p: Pool<RedisContext>, q: Pool<RedisContext>, valid: set<RedisContext>,
                        result: Option<RedisContext>) {
    var rest := DropStale(p.free, valid);
    var n := p.ncontexts - (|p.free| - |rest|);
    if rest == [] then result == None && q == Pool([], p.busy, n)
    else result == Some(rest[0]) && q == Pool(rest[1..], p.busy + [rest[0]], n)
  }

  lemma NothingGone(p: Pool<RedisContext>, valid: set<RedisContext>)
    ensures Gone(p, p, valid, 0)
  {
    assert p.free[0..] == p.free;
  }

  lemma FirstLeft(p: Pool<RedisContext>, q: Pool<RedisContext>, valid: set<RedisContext>, k: nat, max: nat)
    requires Consistent(p, max) && Gone(p, q, valid, k) && q.free != []
    ensures k < |p.free| && q.free[0] == p.free[k] && q.free[0] !in q.busy && q.ncontexts > 0
  {
    hide NoDup, DropStale;
    assert p.free[k] in Elems(p.free);
    assert forall c | c in p.busy :: c in Elems(p.busy);
  }

  lemma OneGone(p: Pool<RedisContext>, q: Pool<RedisContext>, q': Pool<RedisContext>, valid: set<RedisContext>, k: nat)
    requires Gone(p, q, valid, k) && q.free != [] && q.free[0] !in valid
    requires q' == Pool(q.free[1..], q.busy, q.ncontexts - 1)
    ensures Gone(p, q', valid, k + 1)
  {
    DropOne(p.free, valid, k);
  }

  lemma TakenOne(p: Pool<RedisContext>, q: Pool<RedisContext>, q': Pool<RedisContext>, valid: set<RedisContext>, k: nat)
    requires Gone(p, q, valid, k) && q.free != [] && q.free[0] in valid
    requires q' == Pool(q.free[1..], q.busy + [q.free[0]], q.ncontexts)
    ensures Taken(p, q', valid, Some(q.free[0]))
  {
    DropOne(p.free, valid, k);
  }

  lemma TakenNone(p: Pool<RedisContext>, q: Pool<RedisContext>, valid: set<RedisContext>, k: nat)
    requires Gone(p, q, valid, k) && q.free == []
    ensures Taken(p, q, valid, None)
  {
  }

  // The body of the loop: the first idle connection becomes busy, or is dropped.
  method TakeFirst(db: Database, server: RedisServer, now: int, version: nat, hungUp: set<RedisContext>)
    returns (ok: bool)
    requires server.freeContexts != [] && server.freeContexts[0] !in server.busyContexts && server.ncontexts > 0
    modifies db`dropped, server`freeContexts, server`busyContexts, server`ncontexts
    ensures ok <==> old(Sound(db, server.freeContexts[0], now, version, hungUp))
    ensures |db.dropped| == |old(db.dropped)| + if ok then 0 else 1
    ensures var p := old(PoolOf(server));
      PoolOf(server) ==
        if ok then Pool(p.free[1..], p.busy + [p.free[0]], p.ncontexts)
        else Pool(p.free[1..], p.busy, p.ncontexts - 1)
  {
    hide Core.Database.FaultIn;
    var c := server.freeContexts[0];
    ghost var busy := server.busyContexts;
    MarkBusy(server);
    assert c.err == old(c.err) && c.server.sicknessTst == old(c.server.sicknessTst);
    ok := db.IsValid(c, now, version, c in hungUp);
    if !ok {
      Discard(server, c, busy);
    }
  }

  // VTAILQ_REMOVE from the free list and VTAILQ_INSERT_TAIL into the busy one.
  method MarkBusy(server: RedisServer)
    requires server.freeContexts != []
    modifies server`freeContexts, server`busyContexts
    ensures var p := old(PoolOf(server));
      PoolOf(server) == Pool(p.free[1..], p.busy + [p.free[0]], p.ncontexts)
  {
    server.busyContexts := server.busyContexts + [server.freeContexts[0]];
    server.freeContexts := server.freeContexts[1..];
  }

  method Discard(server: RedisServer, c: RedisContext, ghost busy: seq<RedisContext>)
    requires c !in busy && server.busyContexts == busy + [c] && server.ncontexts > 0
    modifies server`busyContexts, server`ncontexts
    ensures PoolOf(server) == Pool(server.freeContexts, busy, old(server.ncontexts) - 1)
  {
    RemoveLast(busy, c);
    server.busyContexts := Remove(server.busyContexts, c);
    server.ncontexts := server.ncontexts - 1;
  }

  lemma DropOne<C>(free: seq<C>, valid: set<C>, k: nat)
    requires k < |free|
    ensures free[k] in valid ==> DropStale(free[k..], valid) == free[k..] && free[k..][0] == free[k]
    ensures free[k] !in valid ==> DropStale(free[k..], valid) == DropStale(free[k + 1..], valid)
    ensures free[k..][1..] == free[k + 1..]
  {
  }

  lemma InElems<T>(s: seq<T>, i: nat)
    requires i < |s|
    ensures s[i] in Elems(s)
  {
  }

  lemma RemoveLast<T>(s: seq<T>, x: T)
    requires x !in s
    ensures Remove(s + [x], x) == s
  {
    if s != [] {
      assert (s + [x])[1..] == s[1..] + [x];
      RemoveLast(s[1..], x);
    }
  }

  // One critical section of lock_shared_redis_context, from the label retry on.
  // hungUp: what poll reports; established: what a connection attempt would give.
  method LockSection(db: Database, server: RedisServer, now: int, version: nat, hungUp: set<RedisContext>,
                     established: bool)
    returns (o: Outcome<RedisContext>)
    requires Consistent(PoolOf(server), db.maxConnections)
    modifies db`dropped, db`connectionsTotal, db`connectionsFailed
    modifies server`freeContexts, server`busyContexts, server`ncontexts, server`sicknessTst, server`sicknessExp
    ensures Section(old(PoolOf(server)), PoolOf(server), db.maxConnections,
                    old(db.Valid(Elems(server.freeContexts), now, version, hungUp)), o)
    ensures o.Took? ==> !o.c.err
    ensures o.Connected? ==>
      && fresh(o.made) && o.made.server == server && o.made.tst == now && o.made.version == version
      && !o.made.err && o.made.pending == [] && o.made.sent == []
    ensures o.Connected? || o.Refused? ==> (established <==> o.Connected?)
    // Only a connection attempt touches the sickness of the server and the statistics.
    ensures o.Took? || o.Full? ==>
      && server.sicknessTst == old(server.sicknessTst) && server.sicknessExp == old(server.sicknessExp)
    ensures o.Connected? ==>
      && server.sicknessTst == old(server.sicknessTst)
      && server.sicknessExp == if old(server.sicknessExp) > now then now else old(server.sicknessExp)
    ensures o.Refused? ==>
      && server.sicknessTst == (if db.sicknessTtl > 0 then now else old(server.sicknessTst))
      && server.sicknessExp == if db.sicknessTtl > 0 then now + db.sicknessTtl else old(server.sicknessExp)
    ensures db.connectionsTotal == old(db.connectionsTotal) + if o.Connected? then 1 else 0
    ensures db.connectionsFailed == old(db.connectionsFailed) + if o.Refused? then 1 else 0
    // Whatever leaves the pool is counted.
    ensures |db.dropped| - |old(db.dropped)| == old(server.ncontexts) - server.ncontexts + if o.Connected? then 1 else 0
  {
    hide Consistent, DropStale, Elems, Core.Database.Valid;
    ghost var p := PoolOf(server);
    ghost var valid := db.Valid(Elems(p.free), now, version, hungUp);
    forall i | 0 <= i < |p.free| ensures p.free[i] in valid <==> Sound(db, p.free[i], now, version, hungUp) {
      InElems(p.free, i);
      db.ValidMeans(p.free[i], Elems(p.free), now, version, hungUp);
    }
    var result := TakeFree(db, server, now, version, hungUp, p, valid);
    if result.Some? {
      return Took(result.value);
    }
    if server.ncontexts >= db.maxConnections {
      return Full;
    }
    db.Connect(server, now, established, false);
    if established {
      var c := new RedisContext(server, version, now);
      server.busyContexts := server.busyContexts + [c];
      server.ncontexts := server.ncontexts + 1;
      return Connected(c);
    }
    return Refused;
  }

  // unlock_shared_redis_context, up to the signal.
  method UnlockSection(context: RedisContext)
    requires context in context.server.busyContexts
    modifies context.server`freeContexts, context.server`busyContexts
    ensures PoolOf(context.server) == Returned(old(PoolOf(context.server)), context)
    // Who was given back first is handed out first.
    ensures context.server.freeContexts == old(context.server.freeContexts) + [context]
  {
    var server := context.server;
    server.busyContexts := Remove(server.busyContexts, context);
    server.freeContexts := server.freeContexts + [context];
  }
}
