/** The servers of a database, kept in queues by weight and role (unsafe_add_redis_server
    of src/core.c), and what every operation on the queues keeps. */
module Registry {
  import opened Lists
  import opened Core
  import opened Numbers

  // ----- Locations and weights -----

  function LastColon(raw: string): (i: int)
    ensures -1 <= i < |raw|
    ensures i >= 0 ==> raw[i] == ':'
    ensures forall j | i < j < |raw| :: raw[j] != ':'
  {
    if raw == "" then -1
    else if raw[|raw| - 1] == ':' then |raw| - 1
    else LastColon(raw[..|raw| - 1])
  }

  // The location of a server. The port is what atoi gives, as a 32-bit unsigned number.
  function ParseLocation(raw: string): (l: Location)
    ensures l.raw == raw
  {
    var i := LastColon(raw);
    if i >= 0 then Host(raw, raw[..i], StrToL(raw[i + 1..]) % 0x1_0000_0000) else Socket(raw)
  }

  datatype WeightRule = WeightRule(weight: nat, matches: string -> bool)

  ghost function WeightOf(rules: seq<WeightRule>, location: Location): nat {
    if location.Socket? then 0
    else if rules == [] then 3
    else if rules[0].matches(location.raw) then rules[0].weight
    else WeightOf(rules[1..], location)
  }

  ghost predicate ValidRules(rules: seq<WeightRule>) {
    forall i | 0 <= i < |rules| :: rules[i].weight < 4
  }

  lemma WeightOfIsWeight(rules: seq<WeightRule>, location: Location)
    requires ValidRules(rules)
    ensures WeightOf(rules, location) < 4
  {
  }

  ghost predicate FirstMatch(rules: seq<WeightRule>, location: Location, i: nat)
    requires i < |rules|
  {
    rules[i].matches(location.raw) && forall j | 0 <= j < i :: !rules[j].matches(location.raw)
  }

  method ComputeWeight(rules: seq<WeightRule>, location: Location) returns (weight: nat)
    ensures weight == WeightOf(rules, location)
    // The first rule that matches counts.
    ensures location.Socket? ==> weight == 0
    ensures location.Host? ==> forall i | 0 <= i < |rules| && FirstMatch(rules, location, i) ::
      weight == rules[i].weight
    ensures location.Host? && (forall i | 0 <= i < |rules| :: !rules[i].matches(location.raw)) ==> weight == 3
  {
    if location.Socket? { return 0; }
    for i := 0 to |rules|
      invariant WeightOf(rules, location) == WeightOf(rules[i..], location)
      invariant forall j | 0 <= j < i :: !rules[j].matches(location.raw)
    {
      assert rules[i..][1..] == rules[i + 1..];
      if rules[i].matches(location.raw) { return rules[i].weight; }
    }
    return 3;
  }

  // ----- The invariant -----

  ghost predicate Shaped(db: Database) {
    db.servers.Length0 == 4 && db.servers.Length1 == 3
  }

  // Whoever is in a queue is registered and belongs there, and is there once.
  ghost predicate InPlace(db: Database)
    requires Shaped(db)
    reads db`registered, db.servers, db.registered`weight, db.registered`role
  {
    forall w, r | 0 <= w < 4 && 0 <= r < 3 ::
      NoDup(db.servers[w, r]) && Elems(db.servers[w, r]) == set s | s in db.registered && s.weight == w && s.role == r
  }

  ghost predicate Known(db: Database)
    reads db`registered, db`serversTotal, db.registered`weight
  {
    && (forall s | s in db.registered :: s.db == db && s.weight < 4)
    && (forall s, t | s in db.registered && t in db.registered && s.location.raw == t.location.raw :: s == t)
    && (forall s | s in db.registered :: s.location == ParseLocation(s.location.raw))
    && (db.clustered ==> forall s | s in db.registered :: s.location.Host?)
    && db.serversTotal == |db.registered|
  }

  // Each registered server is in exactly one queue, that of its weight and role; raw
  // locations are distinct; a clustered database has no sockets; the count is right.
  ghost predicate Registered(db: Database)
    reads db`registered, db`serversTotal, db.servers, db.registered`weight, db.registered`role
  {
    Shaped(db) && InPlace(db) && Known(db)
  }

  lemma EmptyRegistry(db: Database)
    requires Shaped(db) && db.registered == {} && db.serversTotal == 0
    requires forall w, r | 0 <= w < 4 && 0 <= r < 3 :: db.servers[w, r] == []
    ensures Registered(db)
  {
  }

  lemma WhereItIs(db: Database, s: RedisServer)
    requires Registered(db) && s in db.registered
    ensures s.weight < 4 && s in db.servers[s.weight, s.role]
    ensures forall w, r | 0 <= w < 4 && 0 <= r < 3 && s in db.servers[w, r] :: w == s.weight && r == s.role
  {
    hide NoDup;
    assert s in Elems(db.servers[s.weight, s.role]);
    forall w, r | 0 <= w < 4 && 0 <= r < 3 && s in db.servers[w, r] ensures w == s.weight && r == s.role {
      assert s in Elems(db.servers[w, r]);
    }
  }

  // ----- Moving a server -----

  predicate Rows(rows: seq<seq<seq<RedisServer>>>) {
    |rows| == 4 && forall a | 0 <= a < 4 :: |rows[a]| == 3
  }

  // All queues, by weight and role.
  ghost function RowsOf(db: Database): (rows: seq<seq<seq<RedisServer>>>)
    requires Shaped(db)
    reads db.servers
    ensures Rows(rows) && forall a, b | 0 <= a < 4 && 0 <= b < 3 :: rows[a][b] == db.servers[a, b]
  {
    [Row(db, 0), Row(db, 1), Row(db, 2), Row(db, 3)]
  }

  ghost function Row(db: Database, w: nat): (row: seq<seq<RedisServer>>)
    requires Shaped(db) && w < 4
    reads db.servers
    ensures |row| == 3
  {
    [db.servers[w, 0], db.servers[w, 1], db.servers[w, 2]]
  }

  // A queue from which s has been removed and to whose tail it has been added if so told.
  function Requeued(q: seq<RedisServer>, s: RedisServer, here: bool): seq<RedisServer> {
    Remove(q, s) + if here then [s] else []
  }

  lemma RemoveAbsent<T>(q: seq<T>, s: T)
    requires s !in Elems(q)
    ensures Remove(q, s) == q
  {
    if q != [] {
      assert q[0] in Elems(q);
      RemoveAbsent(q[1..], s);
    }
  }

  lemma RequeuedMembers(q: seq<RedisServer>, s: RedisServer, here: bool)
    requires NoDup(q)
    ensures NoDup(Requeued(q, s, here))
    ensures Elems(Requeued(q, s, here)) == Elems(q) - {s} + if here then {s} else {}
  {
    hide NoDup, Elems;
    if s in Elems(q) { RemoveLeaves(q, s); } else { RemoveAbsent(q, s); }
    if here { Snoc(Remove(q, s), s); } else { assert Requeued(q, s, here) == Remove(q, s); }
  }

  // Take a server out of its queue, give it a role, and append it to the queue of that role.
  method Relocate(db: Database, s: RedisServer, role: Role)
    requires Registered(db) && s in db.registered
    modifies db.servers, s`role
    ensures Registered(db) && s.role == role
    ensures forall w, r | 0 <= w < 4 && 0 <= r < 3 ::
      db.servers[w, r] == Requeued(old(db.servers[w, r]), s, w == s.weight && r == role)
  {
    hide InPlace, Known, Requeued, Placed, NoDup, Elems, Remove;
    WhereItIs(db, s);
    Elsewhere(db, s);
    ghost var rows := RowsOf(db);
    ghost var roles := map t | t in db.registered :: t.role;
    PlacedBefore(db, rows, roles);
    Requeue(db, s, role);
    s.role := role;
    StillInPlace(db, rows, roles, s);
  }

  // The queues hold the servers by their weights and by these roles.
  ghost predicate Placed(registered: set<RedisServer>, rows: seq<seq<seq<RedisServer>>>, roles: map<RedisServer, Role>)
    requires Rows(rows) && roles.Keys == registered
    reads registered`weight
  {
    forall w, r | 0 <= w < 4 && 0 <= r < 3 ::
      && NoDup(rows[w][r])
      && Elems(rows[w][r]) == set t | t in registered && t.weight == w && roles[t] == r
  }

  lemma PlacedBefore(db: Database, rows: seq<seq<seq<RedisServer>>>, roles: map<RedisServer, Role>)
    requires Shaped(db) && InPlace(db) && rows == RowsOf(db)
    requires roles == map t | t in db.registered :: t.role
    ensures Placed(db.registered, rows, roles)
  {
    hide NoDup, Elems;
  }

  lemma StillInPlace(db: Database, rows: seq<seq<seq<RedisServer>>>, roles: map<RedisServer, Role>, s: RedisServer)
    requires Shaped(db) && s in db.registered && Rows(rows) && roles.Keys == db.registered
    requires Placed(db.registered, rows, roles)
    requires forall t | t in db.registered && t != s :: t.role == roles[t]
    requires forall w, r | 0 <= w < 4 && 0 <= r < 3 ::
      db.servers[w, r] == Requeued(rows[w][r], s, w == s.weight && r == s.role)
    ensures InPlace(db)
  {
    hide NoDup, Elems, Requeued;
    forall w, r | 0 <= w < 4 && 0 <= r < 3
      ensures NoDup(db.servers[w, r])
      ensures Elems(db.servers[w, r]) == set t | t in db.registered && t.weight == w && t.role == r
    {
      RequeuedMembers(rows[w][r], s, w == s.weight && r == s.role);
    }
  }

  // VTAILQ_REMOVE from the queue of the old role and VTAILQ_INSERT_TAIL into that of the new.
  method Requeue(db: Database, s: RedisServer, role: Role)
    requires Shaped(db) && s.weight < 4
    requires forall w, r | 0 <= w < 4 && 0 <= r < 3 && (w != s.weight || r != s.role) ::
      Remove(db.servers[w, r], s) == db.servers[w, r]
    modifies db.servers
    ensures forall w, r | 0 <= w < 4 && 0 <= r < 3 ::
      db.servers[w, r] == Requeued(old(db.servers[w, r]), s, w == s.weight && r == role)
  {
    var w0, r0 := s.weight, s.role;
    db.servers[w0, r0] := Remove(db.servers[w0, r0], s);
    db.servers[w0, role] := db.servers[w0, role] + [s];
    forall w, r | 0 <= w < 4 && 0 <= r < 3
      ensures db.servers[w, r] == Requeued(old(db.servers[w, r]), s, w == w0 && r == role)
    {
      assert Remove(old(db.servers[w, r]), s) + [] == Remove(old(db.servers[w, r]), s);
    }
  }

  lemma Elsewhere(db: Database, s: RedisServer)
    requires Registered(db) && s in db.registered
    ensures forall w, r | 0 <= w < 4 && 0 <= r < 3 && (w != s.weight || r != s.role) ::
      Remove(db.servers[w, r], s) == db.servers[w, r]
  {
    hide NoDup, Elems;
    forall w, r | 0 <= w < 4 && 0 <= r < 3 && (w != s.weight || r != s.role)
      ensures Remove(db.servers[w, r], s) == db.servers[w, r]
    {
      RemoveAbsent(db.servers[w, r], s);
    }
  }

  // ----- unsafe_add_redis_server -----

  method Find(db: Database, location: string) returns (result: Option<RedisServer>)
    requires Registered(db)
    ensures result.Some? ==> result.value in db.registered && result.value.location.raw == location
    ensures result.None? ==> forall s | s in db.registered :: s.location.raw != location
  {
    hide Known;
    for iweight := 0 to 4
      invariant forall s | s in db.registered && s.weight < iweight :: s.location.raw != location
    {
      for irole := 0 to 3
        invariant forall s | s in db.registered && s.weight == iweight && s.role < irole :: s.location.raw != location
      {
        var q := db.servers[iweight, irole];
        for i := 0 to |q|
          invariant forall j | 0 <= j < i :: q[j].location.raw != location
        {
          if q[i].location.raw == location {
            assert q[i] in Elems(q);
            return Some(q[i]);
          }
        }
        forall s | s in db.registered && s.weight == iweight && s.role == irole ensures s.location.raw != location {
          assert s in Elems(q);
        }
      }
    }
    assert forall s | s in db.registered :: s.weight < 4 by { AllWeights(db); }
    return None;
  }

  lemma AllWeights(db: Database)
    requires Known(db)
    ensures forall s | s in db.registered :: s.weight < 4
  {
  }

  // Ask the server itself. Whether it can be reached and what it answers, TBD for nothing of
  // use, is up to the network.
  method DiscoverRole(db: Database, server: RedisServer, now: int, established: bool, answer: Role)
    returns (role: Role)
    modifies db`connectionsTotal, db`connectionsFailed, server`sicknessTst, server`sicknessExp
    ensures role == if established then answer else TBD
    ensures db.connectionsTotal == old(db.connectionsTotal) && db.connectionsFailed == old(db.connectionsFailed)
    ensures server.sicknessExp ==
      if established then (if old(server.sicknessExp) > now then now else old(server.sicknessExp))
      else if db.sicknessTtl > 0 then now + db.sicknessTtl else old(server.sicknessExp)
    ensures server.sicknessTst == if !established && db.sicknessTtl > 0 then now else old(server.sicknessTst)
  {
    db.Connect(server, now, established, true);
    role := TBD;
    if established {
      role := answer;
    }
  }

  // Put a new server in its queue.
  method Enroll(db: Database, s: RedisServer)
    requires Registered(db) && s !in db.registered && s.db == db && s.weight < 4
    requires forall t | t in db.registered :: t.location.raw != s.location.raw
    requires s.location == ParseLocation(s.location.raw) && (db.clustered ==> s.location.Host?)
    modifies db.servers, db`registered, db`serversTotal
    ensures Registered(db) && db.registered == old(db.registered) + {s}
    ensures forall w, r | 0 <= w < 4 && 0 <= r < 3 ::
      db.servers[w, r] == Requeued(old(db.servers[w, r]), s, w == s.weight && r == s.role)
  {
    hide NoDup, Elems, Known;
    NotQueued(db, s);
    Count(db, s);
    db.servers[s.weight, s.role] := db.servers[s.weight, s.role] + [s];
    forall w, r | 0 <= w < 4 && 0 <= r < 3
      ensures db.servers[w, r] == Requeued(old(db.servers[w, r]), s, w == s.weight && r == s.role)
    {
      assert old(db.servers[w, r]) + [] == old(db.servers[w, r]);
    }
    forall w, r | 0 <= w < 4 && 0 <= r < 3
      ensures NoDup(db.servers[w, r])
      ensures Elems(db.servers[w, r]) == set t | t in db.registered && t.weight == w && t.role == r
    {
      RequeuedMembers(old(db.servers[w, r]), s, w == s.weight && r == s.role);
    }
  }

  method Count(db: Database, s: RedisServer)
    requires Known(db) && s !in db.registered && s.db == db && s.weight < 4
    requires forall t | t in db.registered :: t.location.raw != s.location.raw
    requires s.location == ParseLocation(s.location.raw) && (db.clustered ==> s.location.Host?)
    modifies db`registered, db`serversTotal
    ensures Known(db) && db.registered == old(db.registered) + {s}
  {
    hide ParseLocation;
    db.serversTotal := db.serversTotal + 1;
    db.registered := db.registered + {s};
  }

  lemma NotQueued(db: Database, s: RedisServer)
    requires Registered(db) && s !in db.registered
    ensures forall w, r | 0 <= w < 4 && 0 <= r < 3 :: Remove(db.servers[w, r], s) == db.servers[w, r]
  {
    hide NoDup, Elems;
    forall w, r | 0 <= w < 4 && 0 <= r < 3 ensures Remove(db.servers[w, r], s) == db.servers[w, r] {
      RemoveAbsent(db.servers[w, r], s);
    }
  }

  // established, answer: what becomes of asking the server for its role, if that is not given.
  method Add(db: Database, rules: seq<WeightRule>, location: string, role: Role, now: nat,
             established: bool, answer: Role)
    returns (result: Option<RedisServer>)
    requires Registered(db) && ValidRules(rules)
    modifies db`registered, db`serversTotal, db`serversFailed, db`connectionsTotal, db`connectionsFailed, db.servers
    modifies db.registered`role, db.registered`sicknessTst, db.registered`sicknessExp
    ensures Registered(db)
    // Nothing is added only if a clustered database is given a socket.
    ensures result.None? <==> db.clustered && ParseLocation(location).Socket?
    ensures result.None? ==> db.registered == old(db.registered) && db.serversFailed == old(db.serversFailed) + 1
    ensures result.None? ==> forall w, r | 0 <= w < 4 && 0 <= r < 3 :: db.servers[w, r] == old(db.servers[w, r])
    ensures result.Some? ==>
      var s := result.value;
      && db.registered == old(db.registered) + {s} && db.serversFailed == old(db.serversFailed)
      && s.location.raw == location
      && s.role == (
          if role != TBD then role
          else if established && answer != TBD then answer
          else if s in old(db.registered) then old(s.role) else TBD)
      && (forall w, r | 0 <= w < 4 && 0 <= r < 3 ::
          db.servers[w, r] == Requeued(old(db.servers[w, r]), s, w == s.weight && r == s.role))
      && (s in old(db.registered) <==> exists t :: t in old(db.registered) && t.location.raw == location)
      && (s !in old(db.registered) ==>
          && fresh(s) && s.slots == NoSlots()
          && s.location == ParseLocation(location) && s.weight == WeightOf(rules, s.location))
      // Only a new server can end up sick: if it had to be asked and could not be reached.
      && var flagged := role == TBD && !established && db.sicknessTtl > 0;
      && (s in old(db.registered) ==>
          && s.sicknessExp == (if flagged || old(s.sicknessExp) > now then now else old(s.sicknessExp))
          && s.sicknessTst == if flagged then now else old(s.sicknessTst))
      && (s !in old(db.registered) ==>
          && s.sicknessExp == (if flagged then now + db.sicknessTtl else 0)
          && s.sicknessTst == if flagged then now else 0)
    ensures db.connectionsTotal == old(db.connectionsTotal) && db.connectionsFailed == old(db.connectionsFailed)
    ensures forall t | t in old(db.registered) && result != Some(t) ::
      t.role == old(t.role) && t.sicknessExp == old(t.sicknessExp) && t.sicknessTst == old(t.sicknessTst)
  {
    hide NoDup, Elems, WeightOf, ParseLocation, NoSlots, Known, InPlace, Requeued;
    result := Find(db, location);
    if result.None? {
      var where := ParseLocation(location);
      if db.clustered && where.Socket? {
        db.serversFailed := db.serversFailed + 1;
        return None;
      }
      var s := new RedisServer(db, where, role);
      if s.role == TBD {
        var discovered := DiscoverRole(db, s, now, established, answer);
        s.role := discovered;
      }
      var weight := ComputeWeight(rules, where);
      s.weight := weight;
      WeightOfIsWeight(rules, where);
      Enroll(db, s);
      result := Some(s);
    } else {
      var s := result.value;
      KnownLocation(db, s);
      var newRole := role;
      if role == TBD {
        newRole := DiscoverRole(db, s, now, established, answer);
        if newRole == TBD { newRole := s.role; }
      }
      if s.sicknessExp > now {
        s.sicknessExp := now;
      }
      Relocate(db, s, newRole);
    }
  }

  lemma KnownLocation(db: Database, s: RedisServer)
    requires Known(db) && s in db.registered
    ensures s.location == ParseLocation(s.location.raw) && (db.clustered ==> s.location.Host?)
  {
  }
}
