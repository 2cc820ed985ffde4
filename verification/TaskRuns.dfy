/** Any number of commands from one VCL task, on any number of databases. */
module TaskRuns {
  import opened Lists
  import opened Core
  import opened Connection
  import opened Registry
  import opened TaskContexts
  import opened SentinelUpdate
  import Cluster
  import ClusterReply
  import Executor

  // A command for the database with a given number.
  datatype Call = Call(db: nat, argv: seq<string>, maxRetries: nat, master: bool)

  ghost predicate AllRegistered(dbs: seq<Database>)
    reads dbs, (set db | db in dbs :: db.servers), ServersOf(dbs)
  {
    forall db | db in dbs :: Registered(db)
  }

  ghost function Largest(dbs: seq<Database>): nat {
    if dbs == [] then 0 else Executor.Max(Largest(dbs[..|dbs| - 1]), dbs[|dbs| - 1].maxConnections)
  }

  lemma {:induction false} AtMostLargest(dbs: seq<Database>, i: nat)
    requires i < |dbs|
    ensures dbs[i].maxConnections <= Largest(dbs)
  {
    if i < |dbs| - 1 {
      AtMostLargest(dbs[..|dbs| - 1], i);
    }
  }

  // What a command on one database leaves of the connections to another.
  lemma OtherTask(state: TaskState, before: seq<RedisContext>, db: Database, other: Database)
    requires TaskValid(state, db) && OnlyNew(before, state.contexts, db) && other != db
    requires HereOnly(before, other)
    ensures TaskValid(state, other)
  {
    hide Settled;
  }

  // One command on its database, with redirections and discoveries in a cluster.
  method Dispatch(db: Database, state: TaskState, idle: set<RedisContext>, rules: seq<WeightRule>,
                  setup: ClusterReply.Setup, call: Call, version: nat)
    returns (aborted: bool)
    requires Registered(db) && TaskValid(state, db) && Executor.Idle(idle) && ValidRules(rules)
    requires call.argv != [] && Executor.ScriptFits(call.argv)
    modifies db`registered, db`serversTotal, db`serversFailed, db`connectionsTotal, db`connectionsFailed, db.servers
    modifies db`discoveriesTotal, db`discoveriesFailed, db`moved, db`ask, db`dropped
    modifies db`commandsNoscript, db`commandsRetried, db`commandsFailed, db`commandsTotal
    modifies db.registered`role, db.registered`sicknessTst, db.registered`sicknessExp, db.registered`slots
    modifies state, Elems(state.contexts)`err, Elems(state.contexts)`pending
    modifies Elems(state.contexts)`sent, Elems(state.contexts)`lost
    modifies idle`err, idle`pending, idle`sent, idle`lost
    ensures Registered(db) && TaskValid(state, db) && Executor.Idle(idle)
    ensures old(db.registered) <= db.registered && forall s | s in db.registered :: s in old(db.registered) || fresh(s)
    ensures OnlyNew(old(state.contexts), state.contexts, db)
    ensures forall c | c in state.contexts :: c in old(state.contexts) || fresh(c)
    ensures state.ncontexts <= Executor.Max(old(state.ncontexts), db.maxConnections)
    ensures aborted && !db.clustered ==> db.maxConnections == 0
  {
    hide NoDup, Elems, Registered, Settled, Executor.Idle, TaskValid, Executor.ScriptFits, Executor.Rewritten, Usable;
    hide OnlyNew, Executor.Answers;
    var argv := new string[|call.argv|](i requires 0 <= i < |call.argv| => call.argv[i]);
    assert argv[..] == call.argv;
    var result, retries;
    ghost var attempts, trail, planned, slot;
    var now: int, hungUp: set<RedisContext> := *, *;
    if db.clustered {
      result, retries, aborted, attempts, trail, planned, slot :=
        Cluster.Execute(db, rules, state, idle, call.maxRetries, argv, call.master, setup, now, version, hungUp);
    } else {
      result, retries, aborted, attempts, planned :=
        Executor.Execute(db, state, idle, call.maxRetries, argv, 0, None, false, call.master, 0, now, version, hungUp);
    }
  }

  // The other databases do not notice.
  method OneCall(dbs: seq<Database>, db: Database, state: TaskState, idle: set<RedisContext>, rules: seq<WeightRule>,
                 setup: ClusterReply.Setup, call: Call, version: nat)
    returns (aborted: bool)
    requires Separate(dbs) && AllRegistered(dbs) && Executor.Idle(idle) && ValidRules(rules)
    requires forall db | db in dbs :: TaskValid(state, db)
    requires db in dbs && call.argv != [] && Executor.ScriptFits(call.argv)
    modifies db`registered, db`serversTotal, db`serversFailed, db`connectionsTotal, db`connectionsFailed, db.servers
    modifies db`discoveriesTotal, db`discoveriesFailed, db`moved, db`ask, db`dropped
    modifies db`commandsNoscript, db`commandsRetried, db`commandsFailed, db`commandsTotal
    modifies db.registered`role, db.registered`sicknessTst, db.registered`sicknessExp, db.registered`slots
    modifies state, Elems(state.contexts)`err, Elems(state.contexts)`pending
    modifies Elems(state.contexts)`sent, Elems(state.contexts)`lost
    modifies idle`err, idle`pending, idle`sent, idle`lost
    ensures AllRegistered(dbs) && Executor.Idle(idle)
    ensures forall db | db in dbs :: TaskValid(state, db)
    ensures forall s | s in db.registered :: s in old(db.registered) || fresh(s)
    ensures forall c | c in Elems(state.contexts) :: c in old(Elems(state.contexts)) || fresh(c)
    ensures state.ncontexts <= Executor.Max(old(state.ncontexts), db.maxConnections)
    ensures aborted && !db.clustered ==> db.maxConnections == 0
  {
    hide NoDup, Elems, Registered, Settled, Executor.Idle, TaskValid, Separate, Executor.ScriptFits;
    SeparateFrom(dbs, db);
    forall other | other in dbs ensures HereOnly(state.contexts, other) {
      Belong(state, other);
    }
    aborted := Dispatch(db, state, idle, rules, setup, call, version);
    forall other | other in dbs && other != db ensures TaskValid(state, other) {
      OtherTask(state, old(state.contexts), db, other);
    }
    ElemsMean(state.contexts, old(state.contexts));
  }

  ghost predicate HereOnly(contexts: seq<RedisContext>, db: Database)
    reads db`registered
  {
    forall c | c in contexts && c.server.db == db :: c.server in db.registered
  }

  lemma Belong(state: TaskState, db: Database)
    requires TaskValid(state, db)
    ensures HereOnly(state.contexts, db)
  {
  }

  lemma SeparateFrom(dbs: seq<Database>, db: Database)
    requires db in dbs && Separate(dbs) && AllRegistered(dbs)
    ensures forall other | other in dbs && other != db ::
      other.servers != db.servers && other.registered !! db.registered
  {
    hide InPlace, NoDup, Elems;
    forall other | other in dbs && other != db
      ensures other.servers != db.servers && other.registered !! db.registered
    {
      assert Registered(other) && Registered(db);
    }
  }

  lemma ElemsMean(after: seq<RedisContext>, before: seq<RedisContext>)
    ensures forall c | c in Elems(after) :: c in after
    ensures forall c | c in before :: c in Elems(before)
  {
  }

  // The private connections stay counted, distinct and settled, and there are never more
  // of them than the largest of the databases allows. A run ends early if a command ends
  // the process.
  method AnyRun(dbs: seq<Database>, state: TaskState, idle: set<RedisContext>, rules: seq<WeightRule>,
                setup: ClusterReply.Setup, calls: seq<Call>, version: nat)
    requires Separate(dbs) && AllRegistered(dbs) && Executor.Idle(idle) && ValidRules(rules)
    requires forall db | db in dbs :: TaskValid(state, db)
    requires forall k | 0 <= k < |calls| ::
      calls[k].db < |dbs| && calls[k].argv != [] && Executor.ScriptFits(calls[k].argv)
    requires state.ncontexts <= Largest(dbs)
    modifies dbs`registered, dbs`serversTotal, dbs`serversFailed, dbs`connectionsTotal, dbs`connectionsFailed
    modifies dbs`discoveriesTotal, dbs`discoveriesFailed, dbs`moved, dbs`ask, dbs`dropped
    modifies dbs`commandsNoscript, dbs`commandsRetried, dbs`commandsFailed, dbs`commandsTotal
    modifies (set db | db in dbs :: db.servers)
    modifies ServersOf(dbs)`role, ServersOf(dbs)`sicknessTst, ServersOf(dbs)`sicknessExp, ServersOf(dbs)`slots
    modifies state, Elems(state.contexts)`err, Elems(state.contexts)`pending
    modifies Elems(state.contexts)`sent, Elems(state.contexts)`lost
    modifies idle`err, idle`pending, idle`sent, idle`lost
    ensures AllRegistered(dbs) && Executor.Idle(idle)
    ensures forall db | db in dbs :: TaskValid(state, db)
    ensures state.ncontexts <= Largest(dbs)
  {
    hide NoDup, Elems, AllRegistered, Settled, Executor.Idle, TaskValid, Separate, Executor.ScriptFits, Largest,
      ValidRules;
    for k := 0 to |calls|
      invariant AllRegistered(dbs) && Executor.Idle(idle)
      invariant forall db | db in dbs :: TaskValid(state, db)
      invariant forall db, s | db in dbs && s in db.registered :: s in old(ServersOf(dbs)) || fresh(s)
      invariant forall c | c in Elems(state.contexts) :: c in old(Elems(state.contexts)) || fresh(c)
      invariant state.ncontexts <= Largest(dbs)
    {
      AtMostLargest(dbs, calls[k].db);
      var aborted := OneCall(dbs, dbs[calls[k].db], state, idle, rules, setup, calls[k], version);
      if aborted {
        return;
      }
    }
  }
}
