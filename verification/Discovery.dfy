/** Updating the registry from a reply to CLUSTER SHARDS (src/cluster.c). */
module Discovery {
  import opened Lists
  import opened Core
  import opened Registry
  import opened ClusterReply

  // ----- What a reply asks for -----

  // One range of slots for the server at a location.
  datatype Registration = Registration(location: string, range: Range)

  function At(location: string, ranges: seq<Range>): (r: seq<Registration>)
    ensures |r| == |ranges|
    ensures forall i | 0 <= i < |r| :: r[i].location == location
  {
    if ranges == [] then [] else At(location, ranges[..|ranges| - 1]) + [Registration(location, ranges[|ranges| - 1])]
  }

  function ForNodes(nodes: seq<Node>, ranges: seq<Range>): seq<Registration> {
    if nodes == [] then [] else ForNodes(nodes[..|nodes| - 1], ranges) + At(LocationOf(nodes[|nodes| - 1]), ranges)
  }

  // All the registrations of the shards of a reply, and all their nodes.
  function Registrations(shards: seq<Value>, host: string, setup: Setup): seq<Registration> {
    if shards == [] then []
    else
      var last := shards[|shards| - 1];
      Registrations(shards[..|shards| - 1], host, setup)
      + ForNodes(ShardNodes(last, host, setup), ShardRanges(last, setup))
  }

  function AllNodes(shards: seq<Value>, host: string, setup: Setup): seq<Node> {
    if shards == [] then []
    else AllNodes(shards[..|shards| - 1], host, setup) + ShardNodes(shards[|shards| - 1], host, setup)
  }

  // A shard gives a server slots if it has a valid range with them and a node there.
  ghost predicate Gives(shard: Value, host: string, setup: Setup, location: string, range: Range) {
    (exists n | n in ShardNodes(shard, host, setup) :: LocationOf(n) == location) && range in ShardRanges(shard, setup)
  }

  lemma {:induction false} RegistrationsMean(shards: seq<Value>, host: string, setup: Setup, location: string,
                                             range: Range)
    ensures Registration(location, range) in Registrations(shards, host, setup)
      <==> exists a | 0 <= a < |shards| :: Gives(shards[a], host, setup, location, range)
  {
    hide ShardNodes, ShardRanges, LocationOf;
    if shards != [] {
      var k := |shards| - 1;
      var few := shards[..k];
      RegistrationsMean(few, host, setup, location, range);
      ForNodesMean(ShardNodes(shards[k], host, setup), ShardRanges(shards[k], setup), location, range);
      if Registration(location, range) in Registrations(few, host, setup) {
        var a :| 0 <= a < |few| && Gives(few[a], host, setup, location, range);
        assert Gives(shards[a], host, setup, location, range);
      }
      if a :| 0 <= a < |shards| && Gives(shards[a], host, setup, location, range) {
        assert a < k ==> Gives(few[a], host, setup, location, range);
      }
    }
  }

  lemma {:induction false} ForNodesMean(nodes: seq<Node>, ranges: seq<Range>, location: string, range: Range)
    ensures Registration(location, range) in ForNodes(nodes, ranges)
      <==> (exists n | n in nodes :: LocationOf(n) == location) && range in ranges
  {
    hide LocationOf;
    if nodes != [] {
      var k := |nodes| - 1;
      ForNodesMean(nodes[..k], ranges, location, range);
      AtMeans(LocationOf(nodes[k]), ranges, location, range);
      assert nodes == nodes[..k] + [nodes[k]];
    }
  }

  lemma {:induction false} AtMeans(place: string, ranges: seq<Range>, location: string, range: Range)
    ensures Registration(location, range) in At(place, ranges) <==> location == place && range in ranges
  {
    if ranges != [] {
      AtMeans(place, ranges[..|ranges| - 1], location, range);
      assert ranges == ranges[..|ranges| - 1] + [ranges[|ranges| - 1]];
    }
  }

  // ----- Slots -----

  function SetRange(slots: Slots, r: Range): Slots {
    seq(16384, i requires 0 <= i < 16384 => slots[i] || InRange(i, r))
  }

  function SetRanges(slots: Slots, ranges: seq<Range>): Slots {
    if ranges == [] then slots else SetRange(SetRanges(slots, ranges[..|ranges| - 1]), ranges[|ranges| - 1])
  }

  // The slots that a list of registrations gives to the server at a location.
  function SlotsFrom(regs: seq<Registration>, location: string): Slots {
    if regs == [] then NoSlots()
    else
      var last := regs[|regs| - 1];
      var slots := SlotsFrom(regs[..|regs| - 1], location);
      if last.location == location then SetRange(slots, last.range) else slots
  }

  lemma {:induction false} SlotsMean(regs: seq<Registration>, location: string, i: nat)
    requires i < 16384
    ensures SlotsFrom(regs, location)[i] <==> exists r | r in regs :: r.location == location && InRange(i, r.range)
  {
    if regs != [] {
      SlotsMean(regs[..|regs| - 1], location, i);
      assert regs == regs[..|regs| - 1] + [regs[|regs| - 1]];
    }
  }

  lemma {:induction false} SlotsMore(regs: seq<Registration>, location: string, ranges: seq<Range>, other: string)
    ensures SlotsFrom(regs + At(location, ranges), other) ==
      if other == location then SetRanges(SlotsFrom(regs, other), ranges) else SlotsFrom(regs, other)
  {
    hide SetRange;
    if ranges == [] {
      assert regs + At(location, ranges) == regs;
    } else {
      var k := |ranges| - 1;
      SlotsMore(regs, location, ranges[..k], other);
      assert regs + At(location, ranges) == regs + At(location, ranges[..k]) + [Registration(location, ranges[k])];
    }
  }

  lemma {:induction false} SlotsAbsent(regs: seq<Registration>, location: string)
    requires forall k | 0 <= k < |regs| :: regs[k].location != location
    ensures SlotsFrom(regs, location) == NoSlots()
  {
    if regs != [] {
      SlotsAbsent(regs[..|regs| - 1], location);
    }
  }

  // The two inner loops.
  method RegisterRanges(server: RedisServer, ranges: seq<Range>)
    requires forall k | 0 <= k < |ranges| :: ValidRange(ranges[k])
    modifies server`slots
    ensures server.slots == SetRanges(old(server.slots), ranges)
  {
    for k := 0 to |ranges|
      invariant server.slots == SetRanges(old(server.slots), ranges[..k])
    {
      assert ranges[..k + 1][..k] == ranges[..k];
      ghost var before := server.slots;
      var r := ranges[k];
      for islot := r.start to r.end + 1
        invariant forall i | 0 <= i < 16384 :: server.slots[i] == (before[i] || r.start <= i < islot)
      {
        server.slots := server.slots[islot := true];
      }
      assert server.slots == SetRange(before, r);
    }
    assert ranges[..|ranges|] == ranges;
  }

  // unsafe_reset_slots
  method ResetSlots(db: Database)
    requires Registered(db)
    modifies db.registered`slots
    ensures forall s | s in db.registered :: s.slots == NoSlots()
  {
    hide Known, NoSlots;
    for iweight := 0 to 4
      invariant forall s | s in db.registered && s.weight < iweight :: s.slots == NoSlots()
    {
      for irole := 0 to 3
        invariant forall s | s in db.registered && s.weight < iweight :: s.slots == NoSlots()
        invariant forall s | s in db.registered && s.weight == iweight && s.role < irole :: s.slots == NoSlots()
      {
        ResetQueue(db, iweight, irole);
      }
    }
    AllWeights(db);
  }

  method ResetQueue(db: Database, w: nat, r: Role)
    requires Registered(db) && w < 4
    modifies db.registered`slots
    ensures forall s | s in db.registered :: s.slots == if s.weight == w && s.role == r then NoSlots() else old(s.slots)
  {
    hide NoDup, Known, NoSlots;
    var q := db.servers[w, r];
    assert Elems(q) == set s | s in db.registered && s.weight == w && s.role == r;
    for i := 0 to |q|
      invariant forall s | s in db.registered :: s.slots == if s in q[..i] then NoSlots() else old(s.slots)
    {
      assert q[i] in Elems(q);
      q[i].slots := NoSlots();
    }
    forall s | s in db.registered ensures s in q[..|q|] <==> s.weight == w && s.role == r {
      assert s in q[..|q|] <==> s in Elems(q);
    }
  }

  // ----- What a discovery does to the registry -----

  datatype Snapshot = Snapshot(role: Role, sicknessExp: int, slots: Slots)

  ghost function Snapshots(db: Database): map<RedisServer, Snapshot>
    reads db`registered, db.registered`role, db.registered`sicknessExp, db.registered`slots
  {
    map s | s in db.registered :: Snapshot(s.role, s.sicknessExp, s.slots)
  }

  ghost function Locations(servers: set<RedisServer>): set<string> {
    set s | s in servers :: s.location.raw
  }

  // The last node announced at a location.
  function NodeAt(nodes: seq<Node>, location: string): Option<Node> {
    if nodes == [] then None
    else if LocationOf(nodes[|nodes| - 1]) == location then Some(nodes[|nodes| - 1])
    else NodeAt(nodes[..|nodes| - 1], location)
  }

  // Nobody leaves the registry, and those who join were announced. Whoever was announced
  // has the role given last, and is sick if it was said not to be online; whoever was not
  // is as before.
  ghost predicate Announced(state: map<RedisServer, Snapshot>, start: map<RedisServer, Snapshot>, nodes: seq<Node>,
                            ttl: nat, now: int) {
    && start.Keys <= state.Keys
    && (forall n | n in nodes :: LocationOf(n) in Locations(state.Keys))
    && forall s | s in state ::
      AsAnnounced(NodeAt(nodes, s.location.raw), if s in start then Some(start[s]) else None, state[s], ttl, now)
  }

  ghost predicate AsAnnounced(node: Option<Node>, before: Option<Snapshot>, after: Snapshot, ttl: nat, now: int) {
    match node
    case None => before.Some? && after.role == before.value.role && after.sicknessExp == before.value.sicknessExp
    case Some(n) =>
      && after.role == n.role
      && if !n.healthy && ttl > 0 then after.sicknessExp == now + ttl else after.sicknessExp <= now
  }

  // As long as nothing has been registered nobody's slots have changed; from then on
  // everybody has the slots registered since.
  ghost predicate Assigned(state: map<RedisServer, Snapshot>, start: map<RedisServer, Snapshot>,
                           regs: seq<Registration>) {
    && (forall k | 0 <= k < |regs| :: regs[k].location in Locations(state.Keys))
    && forall s | s in state :: state[s].slots ==
        if regs != [] then SlotsFrom(regs, s.location.raw) else if s in start then start[s].slots else NoSlots()
  }

  // ----- unsafe_add_node -----

  lemma NodeIsHost(node: Node)
    ensures ParseLocation(LocationOf(node)).Host?
  {
    var raw := LocationOf(node);
    assert raw[|node.endpoint|] == ':';
  }

  // The step from one state to the next when a server is added or updated.
  ghost predicate Added(before: map<RedisServer, Snapshot>, after: map<RedisServer, Snapshot>, s: RedisServer,
                        node: Node, ttl: nat, now: int) {
    && after.Keys == before.Keys + {s} && s.location.raw == LocationOf(node)
    && (forall t | t in before && t != s :: after[t] == before[t])
    && after[s].slots == (if s in before then before[s].slots else NoSlots())
    && after[s].role == node.role
    && (if !node.healthy && ttl > 0 then after[s].sicknessExp == now + ttl else after[s].sicknessExp <= now)
    && (forall t | t in after && t.location.raw == s.location.raw :: t == s)
  }

  lemma AddedAnnounced(before: map<RedisServer, Snapshot>, after: map<RedisServer, Snapshot>,
                       start: map<RedisServer, Snapshot>,
                       s: RedisServer, nodes: seq<Node>, node: Node, ttl: nat, now: int)
    requires Added(before, after, s, node, ttl, now) && Announced(before, start, nodes, ttl, now)
    ensures Announced(after, start, nodes + [node], ttl, now)
  {
    hide LocationOf, NodeAt;
    forall t | t in after
      ensures AsAnnounced(NodeAt(nodes + [node], t.location.raw),
                          if t in start then Some(start[t]) else None, after[t], ttl, now)
    {
      NodeAtNext(nodes, node, t.location.raw);
    }
    assert Locations(after.Keys) == Locations(before.Keys) + {LocationOf(node)};
  }

  lemma NodeAtNext(nodes: seq<Node>, node: Node, location: string)
    ensures NodeAt(nodes + [node], location) ==
      if LocationOf(node) == location then Some(node) else NodeAt(nodes, location)
  {
    assert (nodes + [node])[..|nodes|] == nodes;
  }

  lemma AddedAssigned(before: map<RedisServer, Snapshot>, after: map<RedisServer, Snapshot>,
                      start: map<RedisServer, Snapshot>,
                      s: RedisServer, regs: seq<Registration>, node: Node, ttl: nat, now: int)
    requires Added(before, after, s, node, ttl, now) && Assigned(before, start, regs) && start.Keys <= before.Keys
    ensures Assigned(after, start, regs)
  {
    hide LocationOf, SlotsFrom, NoSlots;
    if s !in before && regs != [] {
      forall k | 0 <= k < |regs| ensures regs[k].location != s.location.raw {
        assert regs[k].location in Locations(before.Keys);
        var t :| t in before.Keys && t.location.raw == regs[k].location;
        assert t in after;
      }
      SlotsAbsent(regs, s.location.raw);
    }
    assert Locations(before.Keys) <= Locations(after.Keys);
  }

  // unsafe_add_redis_server, and the sickness of a node that is not online.
  method AddAt(db: Database, rules: seq<WeightRule>, node: Node, location: string, now: nat)
    returns (server: RedisServer)
    requires Registered(db) && ValidRules(rules) && node.role != TBD && location == LocationOf(node)
    modifies db`registered, db`serversTotal, db`serversFailed, db`connectionsTotal, db`connectionsFailed, db.servers
    modifies db.registered`role, db.registered`sicknessTst, db.registered`sicknessExp
    ensures Registered(db)
    ensures db.registered == old(db.registered) + {server} && (server in old(db.registered) || fresh(server))
    ensures Added(old(Snapshots(db)), Snapshots(db), server, node, db.sicknessTtl, now)
    ensures !node.healthy && db.sicknessTtl > 0 ==> server.sicknessTst == now
  {
    hide NoDup, Elems, InPlace, ParseLocation, LocationOf, WeightOf, NoSlots, Requeued, ValidRules, Known, Snapshots;
    NodeIsHost(node);
    SnapshotsAt(db);
    var result := Add(db, rules, location, node.role, now, false, TBD);
    server := result.value;
    if !node.healthy && db.sicknessTtl > 0 {
      server.sicknessTst := now;
      server.sicknessExp := now + db.sicknessTtl;
    }
    SnapshotsAt(db);
    OnlyOne(db, server);
  }

  lemma SnapshotsAt(db: Database)
    ensures Snapshots(db).Keys == db.registered
    ensures forall s | s in db.registered :: Snapshots(db)[s] == Snapshot(s.role, s.sicknessExp, s.slots)
  {
  }

  lemma OnlyOne(db: Database, s: RedisServer)
    requires Known(db) && s in db.registered
    ensures forall t | t in db.registered && t.location.raw == s.location.raw :: t == s
  {
  }

  method AddNode(db: Database, rules: seq<WeightRule>, node: Node, now: nat)
    returns (result: Option<RedisServer>)
    requires Registered(db) && ValidRules(rules) && node.role != TBD
    modifies db`registered, db`serversTotal, db`serversFailed, db`connectionsTotal, db`connectionsFailed, db.servers
    modifies db.registered`role, db.registered`sicknessTst, db.registered`sicknessExp
    ensures Registered(db)
    ensures forall s | s in db.registered :: s in old(db.registered) || fresh(s)
    ensures result.Some? <==> |LocationOf(node)| < 256
    ensures result.Some? ==> result.value in db.registered
    ensures result.Some? ==> Added(old(Snapshots(db)), Snapshots(db), result.value, node, db.sicknessTtl, now)
    ensures result.Some? && !node.healthy && db.sicknessTtl > 0 ==> result.value.sicknessTst == now
    ensures result.None? ==> Snapshots(db) == old(Snapshots(db))
  {
    hide NoDup, Elems, Registered, LocationOf, Added, Snapshots;
    var location := LocationOf(node);
    if |location| >= 256 {
      return None;
    }
    var server := AddAt(db, rules, node, location, now);
    result := Some(server);
  }

  // ----- The loops of unsafe_discover_slots_aux -----

  ghost predicate Progress(db: Database, start: map<RedisServer, Snapshot>, nodes: seq<Node>, regs: seq<Registration>,
                           now: int)
    reads db`registered, db.registered`role, db.registered`sicknessExp, db.registered`slots
  {
    Announced(Snapshots(db), start, nodes, db.sicknessTtl, now) && Assigned(Snapshots(db), start, regs)
  }

  // The step from one state to the next when slots are assigned.
  ghost predicate SameButSlots(before: map<RedisServer, Snapshot>, after: map<RedisServer, Snapshot>) {
    && before.Keys == after.Keys
    && forall t | t in after :: after[t].role == before[t].role && after[t].sicknessExp == before[t].sicknessExp
  }

  lemma SameAnnounced(before: map<RedisServer, Snapshot>, after: map<RedisServer, Snapshot>,
                      start: map<RedisServer, Snapshot>, nodes: seq<Node>, ttl: nat, now: int)
    requires SameButSlots(before, after) && Announced(before, start, nodes, ttl, now)
    ensures Announced(after, start, nodes, ttl, now)
  {
    hide LocationOf, NodeAt;
  }

  ghost predicate SlotsAre(state: map<RedisServer, Snapshot>, regs: seq<Registration>) {
    forall t | t in state :: state[t].slots == SlotsFrom(regs, t.location.raw)
  }

  lemma RangesAssigned(before: map<RedisServer, Snapshot>, after: map<RedisServer, Snapshot>,
                       start: map<RedisServer, Snapshot>, s: RedisServer, regs: seq<Registration>, ranges: seq<Range>)
    requires SlotsAre(before, regs) && (forall k | 0 <= k < |regs| :: regs[k].location in Locations(before.Keys))
    requires before.Keys == after.Keys && s in after && ranges != []
    requires forall t | t in after && t.location.raw == s.location.raw :: t == s
    requires forall t | t in after ::
      after[t].slots == if t == s then SetRanges(before[t].slots, ranges) else before[t].slots
    ensures Assigned(after, start, regs + At(s.location.raw, ranges))
  {
    hide SlotsFrom, NoSlots, SetRanges;
    var more := regs + At(s.location.raw, ranges);
    forall t | t in after ensures after[t].slots == SlotsFrom(more, t.location.raw) {
      SlotsMore(regs, s.location.raw, ranges, t.location.raw);
    }
    assert s.location.raw in Locations(after.Keys);
  }

  // Register the ranges of a shard for one of its nodes, forgetting all slots before the first time.
  method AssignSlots(db: Database, server: RedisServer, ranges: seq<Range>, reset: bool,
                     ghost start: map<RedisServer, Snapshot>, ghost regs: seq<Registration>)
    requires Registered(db) && server in db.registered && ranges != []
    requires forall k | 0 <= k < |ranges| :: ValidRange(ranges[k])
    requires Assigned(Snapshots(db), start, regs) && (reset <==> regs != [])
    modifies db.registered`slots
    ensures SameButSlots(old(Snapshots(db)), Snapshots(db))
    ensures Assigned(Snapshots(db), start, regs + At(server.location.raw, ranges))
  {
    hide NoDup, Elems, InPlace, Known, SlotsFrom, NoSlots, Snapshots, SetRanges;
    SnapshotsAt(db);
    OnlyOne(db, server);
    if !reset {
      ResetSlots(db);
    }
    SnapshotsAt(db);
    ghost var middle := Snapshots(db);
    assert SlotsAre(middle, regs) by { NothingYet(); }
    RegisterRanges(server, ranges);
    SnapshotsAt(db);
    RangesAssigned(middle, Snapshots(db), start, server, regs, ranges);
  }

  lemma NothingYet()
    ensures forall location: string :: SlotsFrom([], location) == NoSlots()
  {
  }

  // The body of the loop over the nodes of a shard.
  method ProcessNode(db: Database, rules: seq<WeightRule>, reply: Value, host: string, setup: Setup,
                     ranges: seq<Range>, now: nat, reset: bool,
                     ghost start: map<RedisServer, Snapshot>, ghost nodes: seq<Node>, ghost regs: seq<Registration>)
    returns (registered: nat)
    requires Registered(db) && ValidRules(rules)
    requires forall k | 0 <= k < |ranges| :: ValidRange(ranges[k])
    requires Progress(db, start, nodes, regs, now) && (reset <==> regs != [])
    modifies db`registered, db`serversTotal, db`serversFailed, db`connectionsTotal, db`connectionsFailed, db.servers
    modifies db.registered`role, db.registered`sicknessTst, db.registered`sicknessExp, db.registered`slots
    ensures Registered(db)
    ensures forall s | s in db.registered :: s in old(db.registered) || fresh(s)
    ensures var node := Accepted(reply, host, setup);
      && registered == (if node.Some? then |ranges| else 0)
      && Progress(db, start, if node.Some? then nodes + [node.value] else nodes,
                  if node.Some? then regs + At(LocationOf(node.value), ranges) else regs, now)
  {
    hide NoDup, Elems, InPlace, Known, Snapshots, NodeOf, LocationOf, Announced, Assigned, SameButSlots, At;
    var node := ParseNode(reply, host, setup);
    if node.None? {
      return 0;
    }
    NodeHasRole(reply, host, setup);
    ghost var before := Snapshots(db);
    var server := AddNode(db, rules, node.value, now);
    if server.None? {
      return 0;
    }
    ghost var middle := Snapshots(db);
    AddedAnnounced(before, middle, start, server.value, nodes, node.value, db.sicknessTtl, now);
    assert start.Keys <= before.Keys by { AnnouncedKeeps(before, start, nodes, db.sicknessTtl, now); }
    AddedAssigned(before, middle, start, server.value, regs, node.value, db.sicknessTtl, now);
    if |ranges| > 0 {
      AssignSlots(db, server.value, ranges, reset, start, regs);
      SameAnnounced(middle, Snapshots(db), start, nodes + [node.value], db.sicknessTtl, now);
    } else {
      assert regs + At(LocationOf(node.value), ranges) == regs;
    }
    return |ranges|;
  }

  lemma NodeHasRole(reply: Value, host: string, setup: Setup)
    ensures NodeOf(reply, host, setup).Some? ==> NodeOf(reply, host, setup).value.role != TBD
  {
  }

  lemma AnnouncedKeeps(state: map<RedisServer, Snapshot>, start: map<RedisServer, Snapshot>, nodes: seq<Node>,
                       ttl: nat, now: int)
    requires Announced(state, start, nodes, ttl, now)
    ensures start.Keys <= state.Keys
  {
  }

  function ForShard(shard: Value, host: string, setup: Setup): seq<Registration> {
    ForNodes(ShardNodes(shard, host, setup), ShardRanges(shard, setup))
  }

  lemma NodesOfNext(nodes: seq<Value>, host: string, setup: Setup, ranges: seq<Range>, j: nat)
    requires j < |nodes|
    ensures var node := Accepted(nodes[j], host, setup);
      && NodesOf(nodes[..j + 1], host, setup) ==
        NodesOf(nodes[..j], host, setup) + (if node.Some? then [node.value] else [])
      && ForNodes(NodesOf(nodes[..j + 1], host, setup), ranges) ==
         ForNodes(NodesOf(nodes[..j], host, setup), ranges)
         + if node.Some? then At(LocationOf(node.value), ranges) else []
  {
    hide Accepted, At, LocationOf;
    assert nodes[..j + 1][..j] == nodes[..j];
    var few := NodesOf(nodes[..j], host, setup);
    var node := Accepted(nodes[j], host, setup);
    assert nodes[..j + 1][j] == nodes[j];
    if node.Some? {
      var ns := few + [node.value];
      assert ns[..|few|] == few && ns[|ns| - 1] == node.value;
      assert ForNodes(ns, ranges) == ForNodes(few, ranges) + At(LocationOf(node.value), ranges);
    } else {
      assert few + [] == few;
    }
  }

  // The loop over the nodes of a shard.
  method ProcessNodes(db: Database, rules: seq<WeightRule>, replies: seq<Value>, host: string, setup: Setup,
                      ranges: seq<Range>, now: nat, reset0: bool,
                      ghost start: map<RedisServer, Snapshot>, ghost nodes: seq<Node>, ghost regs: seq<Registration>)
    returns (registered: nat)
    requires Registered(db) && ValidRules(rules)
    requires forall k | 0 <= k < |ranges| :: ValidRange(ranges[k])
    requires Progress(db, start, nodes, regs, now) && (reset0 <==> regs != [])
    modifies db`registered, db`serversTotal, db`serversFailed, db`connectionsTotal, db`connectionsFailed, db.servers
    modifies db.registered`role, db.registered`sicknessTst, db.registered`sicknessExp, db.registered`slots
    ensures Registered(db)
    ensures forall s | s in db.registered :: s in old(db.registered) || fresh(s)
    ensures var more := NodesOf(replies, host, setup);
      && registered == |ForNodes(more, ranges)|
      && Progress(db, start, nodes + more, regs + ForNodes(more, ranges), now)
  {
    hide NoDup, Elems, Registered, Snapshots, Accepted, NodesOf, ForNodes, LocationOf, Progress, At, ValidRange;
    var reset := reset0;
    registered := 0;
    ghost var ns, rs := nodes, regs;
    NothingProcessed(replies, host, setup, ranges);
    assert nodes + [] == nodes && regs + [] == regs;
    for j := 0 to |replies|
      invariant Registered(db) && Progress(db, start, ns, rs, now)
      invariant forall s | s in db.registered :: s in old(db.registered) || fresh(s)
      invariant ns == nodes + NodesOf(replies[..j], host, setup)
      invariant rs == regs + ForNodes(NodesOf(replies[..j], host, setup), ranges)
      invariant registered == |ForNodes(NodesOf(replies[..j], host, setup), ranges)|
      invariant reset <==> rs != []
    {
      var n := ProcessNode(db, rules, replies[j], host, setup, ranges, now, reset, start, ns, rs);
      NodesOfNext(replies, host, setup, ranges, j);
      ghost var node := Accepted(replies[j], host, setup);
      if node.Some? {
        ns := ns + [node.value];
        rs := rs + At(LocationOf(node.value), ranges);
      }
      registered := registered + n;
      if n > 0 {
        reset := true;
      }
    }
    assert replies[..|replies|] == replies;
  }

  lemma NothingProcessed(replies: seq<Value>, host: string, setup: Setup, ranges: seq<Range>)
    ensures NodesOf(replies[..0], host, setup) == [] && ForNodes([], ranges) == []
  {
  }

  // The body of the loop over the shards.
  method ProcessShard(db: Database, rules: seq<WeightRule>, shard: Value, host: string, setup: Setup, now: nat,
                      reset: bool,
                      ghost start: map<RedisServer, Snapshot>, ghost nodes: seq<Node>, ghost regs: seq<Registration>)
    returns (registered: nat)
    requires Registered(db) && ValidRules(rules)
    requires Progress(db, start, nodes, regs, now) && (reset <==> regs != [])
    modifies db`registered, db`serversTotal, db`serversFailed, db`connectionsTotal, db`connectionsFailed, db.servers
    modifies db.registered`role, db.registered`sicknessTst, db.registered`sicknessExp, db.registered`slots
    ensures Registered(db)
    ensures forall s | s in db.registered :: s in old(db.registered) || fresh(s)
    ensures registered == |ForShard(shard, host, setup)|
    ensures Progress(db, start, nodes + ShardNodes(shard, host, setup), regs + ForShard(shard, host, setup), now)
  {
    hide NoDup, Elems, Registered, Snapshots, NodesOf, Progress, Property, Ranges, At, LocationOf;
    assert nodes + [] == nodes && regs + [] == regs;
    NoNodes(host, setup);
    if !IsTable(shard, setup) {
      return 0;
    }
    var slots, ns := ParseShard(shard, setup);
    if slots == None || ns == None {
      return 0;
    }
    if |slots.value| % 2 != 0 {
      return 0;
    }
    var ranges := ParseRanges(slots.value);
    registered := ProcessNodes(db, rules, ns.value, host, setup, ranges, now, reset, start, nodes, regs);
  }

  // ----- unsafe_discover_slots_aux -----

  // What a reply contains. Without a connection, or with an error, there is none.
  function ShardsOf(reply: Option<Value>): seq<Value> {
    if reply.Some? && reply.value.Array? then reply.value.elements else []
  }

  // The loop over the shards.
  method ProcessShards(db: Database, rules: seq<WeightRule>, shards: seq<Value>, host: string, setup: Setup, now: nat)
    returns (registered: nat)
    requires Registered(db) && ValidRules(rules)
    modifies db`registered, db`serversTotal, db`serversFailed, db`connectionsTotal, db`connectionsFailed, db.servers
    modifies db.registered`role, db.registered`sicknessTst, db.registered`sicknessExp, db.registered`slots
    ensures Registered(db)
    ensures forall s | s in db.registered :: s in old(db.registered) || fresh(s)
    ensures registered == |Registrations(shards, host, setup)|
    ensures Progress(db, old(Snapshots(db)), AllNodes(shards, host, setup), Registrations(shards, host, setup), now)
  {
    hide Registered, Registrations, AllNodes, ForShard, ShardNodes, Progress, Snapshots;
    ghost var start := Snapshots(db);
    registered := 0;
    Beginning(db, shards, host, setup, now);
    for i := 0 to |shards|
      invariant Registered(db)
      invariant Progress(db, start, AllNodes(shards[..i], host, setup), Registrations(shards[..i], host, setup), now)
      invariant forall s | s in db.registered :: s in old(db.registered) || fresh(s)
      invariant registered == |Registrations(shards[..i], host, setup)|
    {
      var n := ProcessShard(db, rules, shards[i], host, setup, now, registered > 0, start,
                            AllNodes(shards[..i], host, setup), Registrations(shards[..i], host, setup));
      OneMoreShard(shards, host, setup, i);
      registered := registered + n;
    }
    assert shards[..|shards|] == shards;
  }

  // Unless some range was registered nobody's slots change and the discovery has failed.
  // Otherwise everybody has exactly the slots that the reply gives them.
  method DiscoverFrom(db: Database, rules: seq<WeightRule>, server: RedisServer, reply: Option<Value>, setup: Setup,
                      now: nat)
    returns (done: bool)
    requires Registered(db) && ValidRules(rules) && server.location.Host?
    modifies db`registered, db`serversTotal, db`serversFailed, db`connectionsTotal, db`connectionsFailed, db.servers
    modifies db`discoveriesTotal, db`discoveriesFailed
    modifies db.registered`role, db.registered`sicknessTst, db.registered`sicknessExp, db.registered`slots
    ensures Registered(db) && old(db.registered) <= db.registered
    ensures forall s | s in db.registered :: s in old(db.registered) || fresh(s)
    ensures done <==> Registrations(ShardsOf(reply), server.location.host, setup) != []
    ensures !done ==> forall s | s in db.registered ::
      s.slots == if s in old(db.registered) then old(s.slots) else NoSlots()
    ensures done ==> forall s | s in db.registered ::
      s.slots == SlotsFrom(Registrations(ShardsOf(reply), server.location.host, setup), s.location.raw)
    ensures Announced(Snapshots(db), old(Snapshots(db)), AllNodes(ShardsOf(reply), server.location.host, setup),
                      db.sicknessTtl, now)
    ensures db.discoveriesTotal == old(db.discoveriesTotal) + if done then 1 else 0
    ensures db.discoveriesFailed == old(db.discoveriesFailed) + if done then 0 else 1
  {
    hide NoDup, Elems, Shaped, InPlace, Known, Registrations, AllNodes, ForShard, ShardNodes, NoSlots, SlotsFrom,
      Announced, Snapshots;
    ghost var start := Snapshots(db);
    SnapshotsAt(db);
    var shards := ShardsOf(reply);
    var host := server.location.host;
    var registered := ProcessShards(db, rules, shards, host, setup, now);
    SnapshotsAt(db);
    AnnouncedKeeps(Snapshots(db), start, AllNodes(shards, host, setup), db.sicknessTtl, now);
    done := registered > 0;
    if done {
      db.discoveriesTotal := db.discoveriesTotal + 1;
    } else {
      db.discoveriesFailed := db.discoveriesFailed + 1;
    }
  }

  lemma OneMoreShard(shards: seq<Value>, host: string, setup: Setup, i: nat)
    requires i < |shards|
    ensures AllNodes(shards[..i + 1], host, setup) ==
      AllNodes(shards[..i], host, setup) + ShardNodes(shards[i], host, setup)
    ensures Registrations(shards[..i + 1], host, setup) ==
      Registrations(shards[..i], host, setup) + ForShard(shards[i], host, setup)
  {
    assert shards[..i + 1][..i] == shards[..i];
  }

  lemma Beginning(db: Database, shards: seq<Value>, host: string, setup: Setup, now: int)
    ensures AllNodes(shards[..0], host, setup) == [] && Registrations(shards[..0], host, setup) == []
    ensures Progress(db, Snapshots(db), [], [], now)
  {
  }

  // A shard has an acceptable node at a location and a pair of slots that covers slot i.
  ghost predicate Covers(shard: Value, host: string, setup: Setup, location: string, i: int) {
    && IsTable(shard, setup)
    && var slots := Property(shard.elements, "slots", Pairs(shard));
    && var nodes := Property(shard.elements, "nodes", Pairs(shard));
    && slots.Some? && nodes.Some? && |slots.value.elements| % 2 == 0
    && (exists v | v in nodes.value.elements :: NodeHere(v, host, setup, location))
    && (exists j | 0 <= j < |slots.value.elements| / 2 :: PairCovers(slots.value.elements, j, i))
  }

  lemma CoversMeans(shard: Value, host: string, setup: Setup, location: string, i: int)
    ensures Covers(shard, host, setup, location, i) <==>
      exists range :: Gives(shard, host, setup, location, range) && InRange(i, range)
  {
    hide Property, NodesOf, Ranges, NodeHere, PairCovers, InRange, LocationOf;
    NoNodes(host, setup);
    if IsTable(shard, setup) {
      var slots := Property(shard.elements, "slots", Pairs(shard));
      var nodes := Property(shard.elements, "nodes", Pairs(shard));
      if slots.Some? && nodes.Some? && |slots.value.elements| % 2 == 0 {
        FitsShard(slots.value);
        FitsShard(nodes.value);
        NodesMean(nodes.value.elements, host, setup, location);
        RangesMean(slots.value.elements, |slots.value.elements| / 2, i);
        if Covers(shard, host, setup, location, i) {
          var r :| r in ShardRanges(shard, setup) && InRange(i, r);
          assert Gives(shard, host, setup, location, r);
        }
      }
    }
  }

  // After a discovery a server serves a slot if and only if the reply has a shard with an
  // acceptable node at its location and a valid pair of slots around it.
  lemma WhoServes(shards: seq<Value>, host: string, setup: Setup, location: string, i: nat)
    requires i < 16384
    ensures SlotsFrom(Registrations(shards, host, setup), location)[i] <==>
      exists a | 0 <= a < |shards| :: Covers(shards[a], host, setup, location, i)
  {
    hide Gives, Covers, SlotsFrom, Registrations;
    var regs := Registrations(shards, host, setup);
    SlotsMean(regs, location, i);
    if r :| r in regs && r.location == location && InRange(i, r.range) {
      RegistrationsMean(shards, host, setup, location, r.range);
      assert r == Registration(location, r.range);
      var a :| 0 <= a < |shards| && Gives(shards[a], host, setup, location, r.range);
      CoversMeans(shards[a], host, setup, location, i);
    }
    if a :| 0 <= a < |shards| && Covers(shards[a], host, setup, location, i) {
      CoversMeans(shards[a], host, setup, location, i);
      var range :| Gives(shards[a], host, setup, location, range) && InRange(i, range);
      RegistrationsMean(shards, host, setup, location, range);
      assert Registration(location, range) in regs;
    }
  }

  // ----- Who is announced as what -----

  // Node number b of a shard is acceptable and stands at a location.
  ghost predicate Announces(shard: Value, host: string, setup: Setup, location: string, b: nat) {
    b < |NodeReplies(shard, setup)| && NodeHere(NodeReplies(shard, setup)[b], host, setup, location)
  }

  // Node number b of shard number a is the last that is announced at a location.
  ghost predicate LastToAnnounce(shards: seq<Value>, host: string, setup: Setup, location: string, a: nat, b: nat) {
    && a < |shards| && Announces(shards[a], host, setup, location, b)
    && (forall d: nat | d > b :: !Announces(shards[a], host, setup, location, d))
    && forall c, d: nat | a < c < |shards| :: !Announces(shards[c], host, setup, location, d)
  }

  lemma {:induction false} NodeAtMore(nodes: seq<Node>, more: seq<Node>, location: string)
    ensures NodeAt(nodes + more, location) ==
      if NodeAt(more, location).Some? then NodeAt(more, location) else NodeAt(nodes, location)
  {
    hide LocationOf;
    if more == [] {
      assert nodes + more == nodes;
    } else {
      NodeAtMore(nodes, more[..|more| - 1], location);
      assert nodes + more == nodes + more[..|more| - 1] + [more[|more| - 1]];
      NodeAtNext(nodes + more[..|more| - 1], more[|more| - 1], location);
    }
  }

  // Among the nodes of one shard the last one counts.
  lemma {:induction false} LastNode(replies: seq<Value>, host: string, setup: Setup, location: string)
    ensures NodeAt(NodesOf(replies, host, setup), location).None? <==>
      forall b | 0 <= b < |replies| :: !NodeHere(replies[b], host, setup, location)
    ensures forall b | 0 <= b < |replies| && NodeHere(replies[b], host, setup, location)
                       && (forall d | b < d < |replies| :: !NodeHere(replies[d], host, setup, location)) ::
      NodeAt(NodesOf(replies, host, setup), location) == Accepted(replies[b], host, setup)
  {
    hide Accepted, LocationOf;
    if replies != [] {
      var n := |replies| - 1;
      LastNode(replies[..n], host, setup, location);
      assert forall b | 0 <= b < n :: replies[..n][b] == replies[b];
      var last := Accepted(replies[n], host, setup);
      NodeAtMore(NodesOf(replies[..n], host, setup), if last.Some? then [last.value] else [], location);
    }
  }

  lemma LastNodeOfShard(shard: Value, host: string, setup: Setup, location: string)
    ensures NodeAt(ShardNodes(shard, host, setup), location).None? <==>
      forall b: nat :: !Announces(shard, host, setup, location, b)
    ensures forall b: nat | Announces(shard, host, setup, location, b)
                            && (forall d: nat | d > b :: !Announces(shard, host, setup, location, d)) ::
      NodeAt(ShardNodes(shard, host, setup), location) == Accepted(NodeReplies(shard, setup)[b], host, setup)
  {
    hide NodesOf, NodeReplies, NodeAt, NodeHere, Accepted;
    var replies := NodeReplies(shard, setup);
    LastNode(replies, host, setup, location);
    forall b: nat | b < |replies|
      ensures NodeHere(replies[b], host, setup, location) <==> Announces(shard, host, setup, location, b)
    {
    }
  }

  // What a discovery goes by is the last acceptable announcement of a location, in the order
  // of the reply.
  lemma {:induction false} LastAnnouncementCounts(shards: seq<Value>, host: string, setup: Setup, location: string)
    ensures NodeAt(AllNodes(shards, host, setup), location).Some? <==>
      exists a: nat, b: nat :: LastToAnnounce(shards, host, setup, location, a, b)
    ensures forall a: nat, b: nat | LastToAnnounce(shards, host, setup, location, a, b) ::
      NodeAt(AllNodes(shards, host, setup), location) == Accepted(NodeReplies(shards[a], setup)[b], host, setup)
  {
    hide NodeAt, Announces, NodeReplies, ShardNodes, Accepted;
    if shards == [] {
      assert NodeAt([], location) == None by { NoNode(location); }
    } else {
      var n := |shards| - 1;
      var few := shards[..n];
      LastAnnouncementCounts(few, host, setup, location);
      NodeAtMore(AllNodes(few, host, setup), ShardNodes(shards[n], host, setup), location);
      LastNodeOfShard(shards[n], host, setup, location);
      OnlyInReplies(shards, host, setup, location);
      if b0: nat :| Announces(shards[n], host, setup, location, b0) {
        var b := LastIn(shards[n], host, setup, location, b0);
        assert LastToAnnounce(shards, host, setup, location, n, b);
      } else {
        forall a: nat, b: nat ensures
          LastToAnnounce(shards, host, setup, location, a, b) <==> LastToAnnounce(few, host, setup, location, a, b)
        {
          assert a < n ==> few[a] == shards[a];
        }
      }
    }
  }

  lemma NoNode(location: string)
    ensures NodeAt([], location) == None
  {
  }

  lemma OnlyInReplies(shards: seq<Value>, host: string, setup: Setup, location: string)
    ensures forall a: nat, b: nat | a < |shards| && Announces(shards[a], host, setup, location, b) ::
      b < |NodeReplies(shards[a], setup)|
  {
  }

  lemma LastIn(shard: Value, host: string, setup: Setup, location: string, b0: nat) returns (b: nat)
    requires Announces(shard, host, setup, location, b0)
    ensures Announces(shard, host, setup, location, b)
    ensures forall d: nat | d > b :: !Announces(shard, host, setup, location, d)
    decreases |NodeReplies(shard, setup)| - b0
  {
    if d: nat :| d > b0 && Announces(shard, host, setup, location, d) {
      b := LastIn(shard, host, setup, location, d);
    } else {
      b := b0;
    }
  }

  // Everybody has exactly the slots that the reply of one server gives them.
  ghost predicate SlotsOfReply(db: Database, asked: RedisServer, reply: Option<Value>, setup: Setup)
    requires asked.location.Host?
    reads db`registered, db.registered`slots
  {
    forall s | s in db.registered ::
      s.slots == SlotsFrom(Registrations(ShardsOf(reply), asked.location.host, setup), s.location.raw)
  }

  // Something can be registered from a reply of a server.
  ghost predicate Tells(reply: Option<Value>, server: RedisServer, setup: Setup) {
    server.location.Host? && Registrations(ShardsOf(reply), server.location.host, setup) != []
  }

  // unsafe_discover_slots: the server given first, then others until one of them answers
  // with something that can be registered. Either nobody's slots change, or everybody has
  // those of one reply: that of the server given first, if it is of any use.
  method DiscoverSlots(db: Database, rules: seq<WeightRule>, server: RedisServer, first: Option<Value>, setup: Setup,
                       now: nat)
    returns (ghost done: bool, ghost asked: RedisServer, ghost reply: Option<Value>)
    requires Registered(db) && ValidRules(rules) && db.clustered && server in db.registered
    modifies db`registered, db`serversTotal, db`serversFailed, db`connectionsTotal, db`connectionsFailed, db.servers
    modifies db`discoveriesTotal, db`discoveriesFailed
    modifies db.registered`role, db.registered`sicknessTst, db.registered`sicknessExp, db.registered`slots
    ensures Registered(db) && old(db.registered) <= db.registered
    ensures forall s | s in db.registered :: s in old(db.registered) || fresh(s)
    ensures asked in db.registered && asked.location.Host?
    ensures done ==> SlotsOfReply(db, asked, reply, setup)
    ensures Tells(first, server, setup) ==> done && asked == server && reply == first
    ensures !done ==> forall s | s in db.registered ::
      s.slots == if s in old(db.registered) then old(s.slots) else NoSlots()
    // Every reply counts as a discovery or as a failure of one.
    ensures db.discoveriesTotal == old(db.discoveriesTotal) + if done then 1 else 0
    ensures done || db.discoveriesFailed > old(db.discoveriesFailed)
  {
    hide NoDup, Elems, InPlace, Announced, Snapshots, Registrations, AllNodes, SlotsFrom, NoSlots;
    var found := DiscoverFrom(db, rules, server, first, setup, now);
    done, asked, reply := found, server, first;
    var more: nat := *;
    while !found && more > 0
      invariant Registered(db) && old(db.registered) <= db.registered && done == found
      invariant forall s | s in db.registered :: s in old(db.registered) || fresh(s)
      invariant asked in db.registered && asked.location.Host?
      invariant done ==> SlotsOfReply(db, asked, reply, setup)
      invariant Tells(first, server, setup) ==> done && asked == server && reply == first
      invariant db.discoveriesTotal == old(db.discoveriesTotal) + if done then 1 else 0
      invariant done || db.discoveriesFailed > old(db.discoveriesFailed)
      invariant !done ==> forall s | s in db.registered ::
        s.slots == if s in old(db.registered) then old(s.slots) else NoSlots()
    {
      var w: nat, r: Role, i: nat := *, *, *;
      if w < 4 && i < |db.servers[w, r]| && db.servers[w, r][i] != server {
        var other := db.servers[w, r][i];
        QueuedIsHost(db, w, r, i);
        var answer: Option<Value> := *;
        found := DiscoverFrom(db, rules, other, answer, setup, now);
        done, asked, reply := found, other, answer;
      }
      more := more - 1;
    }
  }

  lemma QueuedIsHost(db: Database, w: nat, r: Role, i: nat)
    requires Registered(db) && db.clustered && w < 4 && i < |db.servers[w, r]|
    ensures db.servers[w, r][i].location.Host? && db.servers[w, r][i] in db.registered
  {
    hide NoDup;
    assert db.servers[w, r][i] in Elems(db.servers[w, r]);
  }
}
