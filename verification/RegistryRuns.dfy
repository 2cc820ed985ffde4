/** Everything that changes the registry of a database, in any order. */
module RegistryRuns {
  import opened Lists
  import opened Core
  import opened Registry
  import ClusterReply
  import Discovery
  import Planner
  import SentinelInventory
  import SentinelUpdate

  datatype Operation =
    | AddServer(location: string, role: Role, established: bool, answer: Role)
    | PlanCommand(master: bool, slot: nat, limit: nat)
    | DiscoverSlots(w: nat, r: Role, i: nat, reply: Option<ClusterReply.Value>)
    | PushInventory(state: SentinelInventory.State)

  // Whatever happens in whatever order: each server stays in exactly one queue, that of its
  // weight and role, locations stay distinct, clusters have no sockets and the count is
  // right; nobody is dropped and no weight changes.
  method AnyRun(db: Database, rules: seq<WeightRule>, setup: ClusterReply.Setup, operations: seq<Operation>,
                times: seq<nat>)
    requires Registered(db) && ValidRules(rules) && |times| == |operations|
    requires forall k | 0 <= k < |operations| && operations[k].PushInventory? :: operations[k].state.Valid()
    requires forall k | 0 <= k < |times| :: times[k] < SentinelUpdate.FOREVER
    modifies db`registered, db`serversTotal, db`serversFailed, db`connectionsTotal, db`connectionsFailed, db.servers
    modifies db`discoveriesTotal, db`discoveriesFailed
    modifies db.registered`role, db.registered`sicknessTst, db.registered`sicknessExp, db.registered`slots
    ensures Registered(db)
    ensures old(db.registered) <= db.registered
    ensures forall s | s in old(db.registered) :: s.weight == old(s.weight)
  {
    hide NoDup, Elems, InPlace, Known, Discovery.Announced, Discovery.Snapshots, Discovery.Registrations,
      Discovery.AllNodes, Discovery.SlotsFrom, NoSlots, Requeued, ParseLocation, WeightOf, SentinelUpdate.UpToDate,
      SentinelInventory.Keyed, Planner.PlanOf, Planner.Queues;
    for k := 0 to |operations|
      invariant Registered(db) && old(db.registered) <= db.registered
      invariant forall s | s in db.registered :: s in old(db.registered) || fresh(s)
      invariant forall j | 0 <= j < |operations| && operations[j].PushInventory? :: operations[j].state.Valid()
    {
      var now := times[k];
      match operations[k]
      case AddServer(location, role, established, answer) =>
        var result := Add(db, rules, location, role, now, established, answer);
      case PlanCommand(master, slot, limit) =>
        if slot < 16384 && limit > 0 {
          var list := Planner.PlanServers(db, master, slot, now, limit);
        }
      case DiscoverSlots(w, r, i, reply) =>
        if db.clustered && w < 4 && i < |db.servers[w, r]| {
          Discovery.QueuedIsHost(db, w, r, i);
          var done := Discovery.DiscoverFrom(db, rules, db.servers[w, r][i], reply, setup, now);
        }
      case PushInventory(state) =>
        if !db.clustered {
          var end := SentinelUpdate.UpdateDb(db, state, now);
        }
    }
  }

  // From a new database on.
  method RunFromNew(clustered: bool, sharedConnections: bool, maxConnections: nat, maxHops: nat, connectionTtl: nat,
                    sicknessTtl: nat,
                    rules: seq<WeightRule>, setup: ClusterReply.Setup, operations: seq<Operation>, times: seq<nat>)
    returns (db: Database)
    requires ValidRules(rules) && |times| == |operations|
    requires forall k | 0 <= k < |operations| && operations[k].PushInventory? :: operations[k].state.Valid()
    requires forall k | 0 <= k < |times| :: times[k] < SentinelUpdate.FOREVER
    ensures fresh(db) && Registered(db)
  {
    db := new Database(clustered, sharedConnections, maxConnections, maxHops, connectionTtl, sicknessTtl);
    EmptyRegistry(db);
    AnyRun(db, rules, setup, operations, times);
  }
}
