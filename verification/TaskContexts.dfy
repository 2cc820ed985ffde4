/** The private connections of a VCL task: how a plan collects them, and how they are handed
    out and replaced (src/core.c). */
module TaskContexts {
  import opened Lists
  import opened Core
  import opened Connection
  import opened PlanProperties

  class TaskState {
    var ncontexts: nat
    var contexts: seq<RedisContext>

    constructor ()
      ensures ncontexts == 0 && contexts == []
    {
      ncontexts := 0;
      contexts := [];
    }
  }

  class Plan {
    var contexts: seq<RedisContext>
    var nextContext: nat
    var servers: seq<RedisServer>
    var nextServer: nat

    // new_execution_plan
    constructor ()
      ensures contexts == [] && nextContext == 0 && servers == [] && nextServer == 0
    {
      contexts, servers := [], [];
      nextContext, nextServer := 0, 0;
    }
  }

  // The connections of a VCL task: counted, without duplicates, each settled, and none of them
  // to a server of this database that is not registered.
  ghost predicate TaskValid(state: TaskState, db: Database)
    reads state, state.contexts, db`registered
  {
    && state.ncontexts == |state.contexts| && NoDup(state.contexts)
    && AllSettled(state.contexts, db, db.registered)
  }

  ghost predicate AllSettled(contexts: seq<RedisContext>, db: Database, registered: set<RedisServer>)
    reads contexts
  {
    forall c | c in contexts :: Settled(c) && (c.server.db == db ==> c.server in registered)
  }

  // What is left of a plan can be used: its connections are still among the private ones, and sound.
  ghost predicate PlanValid(plan: Plan, state: TaskState, db: Database)
    reads plan, state`contexts, plan.contexts, db`registered
  {
    && plan.nextContext <= |plan.contexts|
    && NoDup(plan.contexts)
    && Usable(plan.contexts[plan.nextContext..], state.contexts)
    && (plan.servers != [] ==> plan.nextServer < |plan.servers|)
    && (forall s | s in plan.servers :: s in db.registered && s.db == db)
  }

  // Connections that were not there before are to servers of this database.
  ghost predicate OnlyNew(before: seq<RedisContext>, after: seq<RedisContext>, db: Database) {
    forall c | c in after :: c in before || c.server.db == db
  }

  ghost predicate Usable(planned: seq<RedisContext>, contexts: seq<RedisContext>)
    reads planned
  {
    forall c | c in planned :: c in contexts && !c.err
  }

  lemma SettledMembers(few: seq<RedisContext>, many: seq<RedisContext>, db: Database, registered: set<RedisServer>)
    requires AllSettled(many, db, registered) && forall c | c in few :: c in many
    ensures AllSettled(few, db, registered)
  {
  }

  lemma UsableMembers(planned: seq<RedisContext>, few: seq<RedisContext>, many: seq<RedisContext>)
    requires Usable(planned, few) && forall c | c in few :: c in many
    ensures Usable(planned, many)
  {
  }

  // ----- Collecting the connections of a plan -----

  datatype Wanted = ForServer(server: RedisServer) | ForSlot(master: bool, slot: nat)

  predicate Matches(db: Database, c: RedisContext, wanted: Wanted)
    reads c.server
  {
    && c.server.db == db
    && match wanted
       case ForServer(server) => c.server == server
       case ForSlot(master, slot) =>
         && (master <==> c.server.role == MASTER)
         && slot < 16384 && (!db.clustered || c.server.slots[slot])
  }

  // The private list when the first k connections have been looked at.
  function Cleaned(contexts: seq<RedisContext>, keep: set<RedisContext>, k: nat): seq<RedisContext>
    requires k <= |contexts|
  {
    Filter(contexts[..k], keep) + contexts[k..]
  }

  lemma CleanedStart(cs: seq<RedisContext>, keep: set<RedisContext>)
    ensures Cleaned(cs, keep, 0) == cs
  {
  }

  lemma CleanedNext(cs: seq<RedisContext>, keep: set<RedisContext>, k: nat)
    requires k < |cs| && NoDup(cs)
    ensures cs[k] in keep ==> Cleaned(cs, keep, k + 1) == Cleaned(cs, keep, k)
    ensures cs[k] !in keep ==> Cleaned(cs, keep, k + 1) == Remove(Cleaned(cs, keep, k), cs[k])
    ensures cs[k] !in keep ==> |Cleaned(cs, keep, k + 1)| == |Cleaned(cs, keep, k)| - 1
  {
    hide Filter, NoDup, Remove;
    var f := Filter(cs[..k], keep);
    FilterNext(cs, keep, k);
    assert cs[k..] == [cs[k]] + cs[k + 1..];
    assert Cleaned(cs, keep, k) == f + [cs[k]] + cs[k + 1..];
    if cs[k] !in keep {
      NotBefore(cs, keep, k);
      RemoveMiddle(f, cs[k], cs[k + 1..]);
    }
  }

  lemma NotBefore(cs: seq<RedisContext>, keep: set<RedisContext>, k: nat)
    requires k < |cs| && NoDup(cs)
    ensures cs[k] !in Filter(cs[..k], keep)
  {
    FilterMembers(cs[..k], keep);
  }

  lemma CleanedMembers(cs: seq<RedisContext>, keep: set<RedisContext>, k: nat)
    requires k <= |cs| && NoDup(cs)
    ensures NoDup(Cleaned(cs, keep, k))
    ensures forall c | c in Cleaned(cs, keep, k) :: c in cs
    ensures forall c | c in cs && c in keep :: c in Cleaned(cs, keep, k)
  {
    var f := Filter(cs[..k], keep);
    FilterMembers(cs[..k], keep);
    FilterNoDup(cs[..k], keep);
    forall i, j | 0 <= i < j < |f + cs[k..]| ensures (f + cs[k..])[i] != (f + cs[k..])[j] {
      if i < |f| <= j {
        assert f[i] in f;
      }
    }
    assert cs == cs[..k] + cs[k..];
  }

  // What a plan takes of the sound connections it wants. With no limit given, all of them.
  function Limited<T>(s: seq<T>, limit: nat): seq<T> {
    if 0 < limit < |s| then s[..limit] else s
  }

  // The search for the connections of a plan. Those that match but are no longer sound are
  // dropped, up to the point where the plan is full.
  method Collect(db: Database, state: TaskState, wanted: Wanted, maxSize: nat, now: int, version: nat,
                 hungUp: set<RedisContext>, ghost matching: set<RedisContext>, ghost sound: set<RedisContext>)
    returns (list: seq<RedisContext>, ghost looked: nat)
    requires state.ncontexts == |state.contexts| && NoDup(state.contexts)
    requires forall c | c in state.contexts :: c in matching <==> Matches(db, c, wanted)
    requires forall c | c in state.contexts :: c in sound <==> db.Fault(c, now, version, c in hungUp) == None
    modifies state, db`dropped
    ensures list == Limited(Filter(old(state.contexts), matching * sound), maxSize)
    ensures looked <= |old(state.contexts)| && (looked < |old(state.contexts)| ==> |list| == maxSize)
    ensures var keep := set c | c in old(state.contexts) && (c in matching ==> c in sound);
      state.contexts == Cleaned(old(state.contexts), keep, looked)
    ensures state.ncontexts == |state.contexts| <= old(state.ncontexts)
    ensures |db.dropped| - |old(db.dropped)| == |old(state.contexts)| - |state.contexts|
  {
    hide NoDup, Core.Database.FaultIn, Cleaned, Filter, Remove;
    ghost var keep := set c | c in state.contexts && (c in matching ==> c in sound);
    var cs := state.contexts;
    CleanedStart(cs, keep);
    assert Filter(cs[..0], matching * sound) == [] by { FilterNothing(cs[..0], matching * sound); }
    list := [];
    for i := 0 to |cs|
      invariant state.contexts == Cleaned(cs, keep, i) && state.ncontexts == |state.contexts| <= |cs|
      invariant list == Filter(cs[..i], matching * sound) && (maxSize > 0 ==> |list| < maxSize)
      invariant |db.dropped| - |old(db.dropped)| == |cs| - |state.contexts|
    {
      var c := cs[i];
      CleanedNext(cs, keep, i);
      FilterNext(cs, matching * sound, i);
      if Matches(db, c, wanted) {
        var valid := db.IsValid(c, now, version, c in hungUp);
        if valid {
          list := list + [c];
          if |list| == maxSize {
            looked := i + 1;
            FilterSplit(cs, matching * sound, i + 1);
            return;
          }
        } else {
          state.contexts := Remove(state.contexts, c);
          state.ncontexts := state.ncontexts - 1;
        }
      }
    }
    assert cs[..|cs|] == cs;
    looked := |cs|;
  }

  lemma FilterNothing<T>(s: seq<T>, e: set<T>)
    requires s == []
    ensures Filter(s, e) == []
  {
  }

  lemma FilterSplit<T>(s: seq<T>, e: set<T>, k: nat)
    requires k <= |s|
    ensures Filter(s[..k], e) <= Filter(s, e)
  {
    assert s == s[..k] + s[k..];
    FilterAppend(s[..k], s[k..], e);
  }

  // ----- lock_private_redis_context -----

  // Connections of the plan come first; then the servers of the plan in turn. A connection
  // is closed for lack of room only once those of the plan have been used up.
  method LockPrivate(db: Database, state: TaskState, plan: Plan, now: int, version: nat, established: bool)
    returns (result: Option<RedisContext>, aborted: bool)
    requires TaskValid(state, db) && PlanValid(plan, state, db)
    requires plan.nextContext < |plan.contexts| || plan.servers != []
    modifies plan`nextContext, plan`nextServer, state
    modifies db`dropped, db`connectionsTotal, db`connectionsFailed, db.registered`sicknessTst, db.registered`sicknessExp
    ensures TaskValid(state, db) && PlanValid(plan, state, db)
    ensures result.Some? ==> result.value in state.contexts && !result.value.err
    ensures result.Some? ==> result.value !in plan.contexts[plan.nextContext..]
    ensures OnlyNew(old(state.contexts), state.contexts, db)
    ensures forall c | c in state.contexts :: c in old(state.contexts) || (fresh(c) && c.version == version)
    ensures aborted <==> NoRoomEver(db, old(state.contexts)) && old(plan.nextContext) >= |plan.contexts|
    ensures
      if old(plan.nextContext) < |plan.contexts| then
        && result == Some(plan.contexts[old(plan.nextContext)])
        && plan.nextContext == old(plan.nextContext) + 1 && plan.nextServer == old(plan.nextServer)
        && state.contexts == old(state.contexts)
        && (forall s | s in db.registered ::
            s.sicknessTst == old(s.sicknessTst) && s.sicknessExp == old(s.sicknessExp))
      else
        var server := plan.servers[old(plan.nextServer)];
        && plan.nextContext == old(plan.nextContext)
        && plan.nextServer == (old(plan.nextServer) + 1) % |plan.servers|
        && (established && !aborted <==> result.Some?)
        && (result.Some? ==> result.value.server == server && fresh(result.value))
        && (result.Some? ==> result.value.tst == now && result.value.version == version)
        && Replaced(db, old(state.contexts), state.contexts, old(db.dropped), db.dropped, result, aborted)
        // The server is no longer sick, or it is flagged; no other server is touched.
        && (result.Some? ==>
            && server.sicknessTst == old(server.sicknessTst)
            && server.sicknessExp == if old(server.sicknessExp) > now then now else old(server.sicknessExp))
        && (result.None? && !aborted && db.sicknessTtl > 0 ==>
            server.sicknessTst == now && server.sicknessExp == now + db.sicknessTtl)
        && (forall s | s in db.registered && (s != server || aborted || (result.None? && db.sicknessTtl == 0)) ::
            s.sicknessTst == old(s.sicknessTst) && s.sicknessExp == old(s.sicknessExp))
    ensures var opening := old(plan.nextContext) >= |plan.contexts| && !aborted;
      && db.connectionsTotal == old(db.connectionsTotal) + (if opening && established then 1 else 0)
      && db.connectionsFailed == old(db.connectionsFailed) + (if opening && !established then 1 else 0)
  {
    hide NoDup, Settled, Replaced;
    if plan.nextContext < |plan.contexts| {
      result, aborted := Some(plan.contexts[plan.nextContext]), false;
      plan.nextContext := plan.nextContext + 1;
      NextPlanned(plan.contexts, old(plan.nextContext), state.contexts);
    } else {
      assert plan.nextServer < |plan.servers|;
      var server := plan.servers[plan.nextServer];
      plan.nextServer := (plan.nextServer + 1) % |plan.servers|;
      result, aborted := OpenPrivate(db, state, server, now, version, established);
      assert plan.contexts[plan.nextContext..] == [];
    }
  }

  // The server of attempt number k, from given positions in a plan on: that of the next
  // connection as long as there is one, and then the servers in turn.
  function ServerOf(contexts: seq<RedisContext>, servers: seq<RedisServer>, nextContext: nat, nextServer: nat,
                    k: nat): RedisServer
    requires nextContext <= |contexts|
    requires nextContext + k < |contexts| || servers != []
  {
    if nextContext + k < |contexts| then contexts[nextContext + k].server
    else servers[(nextServer + (nextContext + k - |contexts|)) % |servers|]
  }

  // Where a plan stands after k attempts.
  ghost predicate Advanced(plan: Plan, nextContext: nat, nextServer: nat, k: nat)
    reads plan
  {
    if nextContext + k <= |plan.contexts| then plan.nextContext == nextContext + k && plan.nextServer == nextServer
    else
      && plan.nextContext == |plan.contexts| && plan.servers != []
      && plan.nextServer == (nextServer + (nextContext + k - |plan.contexts|)) % |plan.servers|
  }

  lemma AdvancedMore(plan: Plan, nextContext: nat, nextServer: nat, k: nat, nextContext': nat, nextServer': nat)
    requires nextContext <= |plan.contexts| && (plan.servers != [] ==> nextServer < |plan.servers|)
    // Where it stood after k attempts, and where it stands after one more.
    requires
      if nextContext + k <= |plan.contexts| then nextContext' == nextContext + k && nextServer' == nextServer
      else
        && nextContext' == |plan.contexts| && plan.servers != []
        && nextServer' == (nextServer + (nextContext + k - |plan.contexts|)) % |plan.servers|
    requires
      if nextContext' < |plan.contexts| then plan.nextContext == nextContext' + 1 && plan.nextServer == nextServer'
      else
        && plan.nextContext == nextContext' && plan.servers != []
        && plan.nextServer == (nextServer' + 1) % |plan.servers|
    ensures Advanced(plan, nextContext, nextServer, k + 1)
    ensures
      ServerOf(plan.contexts, plan.servers, nextContext, nextServer, k) ==
        if nextContext' < |plan.contexts| then plan.contexts[nextContext'].server else plan.servers[nextServer']
  {
    if nextContext' >= |plan.contexts| {
      var n := |plan.servers|;
      var a := nextServer + (nextContext + k - |plan.contexts|);
      NextTurn(a, n);
      NextTurn(nextServer', n);
      if a < n { Small(a, n); }
      Small(a % n, n);
    }
  }

  lemma Small(a: nat, n: nat)
    requires a < n
    ensures a % n == a
  {
  }

  // No server of a plan is tried twice before all of them have been tried once.
  lemma NoneTwice(contexts: seq<RedisContext>, servers: seq<RedisServer>, nextContext: nat, nextServer: nat,
                  j: nat, k: nat)
    requires nextContext <= |contexts| <= nextContext + j && j < k < j + |servers| && NoDup(servers)
    ensures
      ServerOf(contexts, servers, nextContext, nextServer, j) != ServerOf(contexts, servers, nextContext, nextServer, k)
  {
    var a, b := nextServer + (nextContext + j - |contexts|), nextServer + (nextContext + k - |contexts|);
    if a % |servers| == b % |servers| {
      CloseAndCongruent(a, b, |servers|);
    }
  }

  // There is no connection to close and none may be opened: the source looks at the head of
  // an empty list and ends the process on an assertion.
  ghost predicate NoRoomEver(db: Database, contexts: seq<RedisContext>) {
    db.maxConnections == 0 && contexts == []
  }

  // The private list once a connection has been opened, in place of the oldest one if there
  // was no room.
  ghost predicate Replaced(db: Database, before: seq<RedisContext>, after: seq<RedisContext>, dropped0: multiset<Drop>,
                           dropped: multiset<Drop>, result: Option<RedisContext>, aborted: bool)
  {
    if aborted then after == before && dropped == dropped0 && result.None?
    else
      var full := |before| >= db.maxConnections;
      && (full ==> before != [])
      && after == (if full then before[1..] else before) + (if result.Some? then [result.value] else [])
      && dropped == dropped0 + if full then multiset{Overflow} else multiset{}
  }

  method CloseOldest(db: Database, state: TaskState)
    requires TaskValid(state, db) && state.contexts != []
    modifies state, db`dropped
    ensures TaskValid(state, db)
    ensures state.contexts == old(state.contexts)[1..] && db.dropped == old(db.dropped) + multiset{Overflow}
  {
    hide NoDup, Settled;
    ShorterTask(state.contexts);
    state.contexts := state.contexts[1..];
    state.ncontexts := state.ncontexts - 1;
    db.dropped := db.dropped + multiset{Overflow};
  }

  method AddPrivate(db: Database, state: TaskState, server: RedisServer, now: int, version: nat, established: bool)
    returns (result: Option<RedisContext>)
    requires TaskValid(state, db) && server in db.registered
    modifies state, db`connectionsTotal, db`connectionsFailed, server`sicknessTst, server`sicknessExp
    ensures TaskValid(state, db)
    ensures established <==> result.Some?
    ensures result.Some? ==>
      && fresh(result.value) && !result.value.err
      && result.value.server == server && result.value.tst == now && result.value.version == version
    // A connection that is established clears the sickness of the server; a failure flags it.
    ensures server.sicknessTst == if !established && db.sicknessTtl > 0 then now else old(server.sicknessTst)
    ensures server.sicknessExp ==
      if established then (if old(server.sicknessExp) > now then now else old(server.sicknessExp))
      else if db.sicknessTtl > 0 then now + db.sicknessTtl else old(server.sicknessExp)
    ensures db.connectionsTotal == old(db.connectionsTotal) + if established then 1 else 0
    ensures db.connectionsFailed == old(db.connectionsFailed) + if established then 0 else 1
    ensures state.contexts == old(state.contexts) + if result.Some? then [result.value] else []
  {
    hide NoDup, Settled;
    db.Connect(server, now, established, false);
    result := None;
    if established {
      var c := new RedisContext(server, version, now);
      assert Settled(c) by { NewSettled(c); }
      LongerTask(state.contexts, c);
      state.contexts := state.contexts + [c];
      state.ncontexts := state.ncontexts + 1;
      result := Some(c);
    }
  }

  // Open a connection, in place of the oldest one if there is no room.
  method OpenPrivate(db: Database, state: TaskState, server: RedisServer, now: int, version: nat, established: bool)
    returns (result: Option<RedisContext>, aborted: bool)
    requires TaskValid(state, db) && server in db.registered && server.db == db
    modifies state, db`dropped, db`connectionsTotal, db`connectionsFailed, server`sicknessTst, server`sicknessExp
    ensures TaskValid(state, db)
    ensures aborted <==> NoRoomEver(db, old(state.contexts))
    ensures established && !aborted <==> result.Some?
    ensures result.Some? ==>
      && result.value in state.contexts && fresh(result.value) && !result.value.err
      && result.value.server == server && result.value.tst == now && result.value.version == version
    ensures Replaced(db, old(state.contexts), state.contexts, old(db.dropped), db.dropped, result, aborted)
    ensures OnlyNew(old(state.contexts), state.contexts, db)
    ensures forall c | c in state.contexts :: c in old(state.contexts) || (fresh(c) && c.version == version)
    ensures server.sicknessTst ==
      if !aborted && !established && db.sicknessTtl > 0 then now else old(server.sicknessTst)
    ensures server.sicknessExp ==
      if !aborted && established && old(server.sicknessExp) > now then now
      else if !aborted && !established && db.sicknessTtl > 0 then now + db.sicknessTtl
      else old(server.sicknessExp)
    ensures db.connectionsTotal == old(db.connectionsTotal) + if !aborted && established then 1 else 0
    ensures db.connectionsFailed == old(db.connectionsFailed) + if !aborted && !established then 1 else 0
  {
    hide NoDup, Settled, AllSettled;
    aborted := false;
    if state.ncontexts >= db.maxConnections {
      if state.contexts == [] {
        return None, true;
      }
      CloseOldest(db, state);
    }
    result := AddPrivate(db, state, server, now, version, established);
  }

  lemma NewSettled(c: RedisContext)
    requires c.pending == [] && c.sent == []
    ensures Settled(c)
  {
  }

  lemma NextPlanned(planned: seq<RedisContext>, k: nat, contexts: seq<RedisContext>)
    requires k < |planned| && NoDup(planned) && Usable(planned[k..], contexts)
    ensures planned[k] in contexts && !planned[k].err
    ensures Usable(planned[k + 1..], contexts) && planned[k] !in planned[k + 1..]
  {
    assert planned[k] == planned[k..][0];
    assert planned[k + 1..] == planned[k..][1..];
  }

  lemma ShorterTask(contexts: seq<RedisContext>)
    requires NoDup(contexts) && contexts != []
    ensures NoDup(contexts[1..])
  {
  }

  lemma LongerTask(contexts: seq<RedisContext>, c: RedisContext)
    requires NoDup(contexts) && c !in contexts
    ensures NoDup(contexts + [c])
  {
  }
}
