/** The plan for executing one command: private connections first, then servers
    (plan_execution of src/core.c). */
module Planning {
  import opened Lists
  import opened Core
  import opened Connection
  import opened Registry
  import opened Planner
  import opened PlanProperties
  import opened TaskContexts

  ghost function Wanting(db: Database, contexts: seq<RedisContext>, wanted: Wanted): set<RedisContext>
    reads set c | c in contexts :: c.server
  {
    set c | c in contexts && Matches(db, c, wanted)
  }

  // The connections that a plan could use, in the order of the private list.
  ghost function Available(db: Database, contexts: seq<RedisContext>, wanted: Wanted, now: int, version: nat,
                           hungUp: set<RedisContext>): seq<RedisContext>
    reads contexts, set c | c in contexts :: c.server
  {
    if db.sharedConnections then []
    else Filter(contexts, Wanting(db, contexts, wanted) * db.Valid(Elems(contexts), now, version, hungUp))
  }

  // These are the sound ones to the right kind of server, which in a cluster serves the slot,
  // or to the server given.
  lemma AvailableMeans(db: Database, contexts: seq<RedisContext>, wanted: Wanted, now: int, version: nat,
                       hungUp: set<RedisContext>, c: RedisContext)
    ensures c in Available(db, contexts, wanted, now, version, hungUp) <==>
      && !db.sharedConnections && c in contexts && c.server.db == db
      && (wanted.ForServer? ==> c.server == wanted.server)
      && (wanted.ForSlot? ==>
          && (wanted.master <==> c.server.role == MASTER)
          && wanted.slot < 16384 && (db.clustered ==> c.server.slots[wanted.slot]))
      && !c.err && c.version == version
      && (db.connectionTtl > 0 ==> now - c.tst <= db.connectionTtl)
      && (db.sicknessTtl > 0 ==> c.tst > c.server.sicknessTst)
      && c !in hungUp
  {
    hide Core.Database.Valid, Filter;
    if !db.sharedConnections {
      FilterMembers(contexts, Wanting(db, contexts, wanted) * db.Valid(Elems(contexts), now, version, hungUp));
      if c in contexts {
        db.ValidMeans(c, Elems(contexts), now, version, hungUp);
      } else {
        OnlyThese(db, contexts, now, version, hungUp, c);
      }
    }
  }

  lemma OnlyThese(db: Database, contexts: seq<RedisContext>, now: int, version: nat, hungUp: set<RedisContext>,
                  c: RedisContext)
    ensures c in db.Valid(Elems(contexts), now, version, hungUp) ==> c in contexts
  {
    hide Core.Database.FaultIn;
  }

  // The connections that a search does not close if it comes across them.
  ghost function Kept(db: Database, contexts: seq<RedisContext>, wanted: Wanted, now: int, version: nat,
                      hungUp: set<RedisContext>): set<RedisContext>
    reads contexts, set c | c in contexts :: c.server
  {
    set c | c in contexts
            && (c in Wanting(db, contexts, wanted) ==> c in db.Valid(Elems(contexts), now, version, hungUp))
  }

  // What a search leaves: the others are gone, up to where the plan was full.
  ghost predicate Swept(before: seq<RedisContext>, after: seq<RedisContext>, kept: set<RedisContext>,
                        list: seq<RedisContext>, maxSize: nat)
  {
    exists k: nat | k <= |before| :: after == Cleaned(before, kept, k) && (k < |before| ==> |list| == maxSize)
  }

  // After that, the first connection of the plan goes to the tail.
  ghost predicate SweptAndMoved(before: seq<RedisContext>, after: seq<RedisContext>, kept: set<RedisContext>,
                                list: seq<RedisContext>, maxSize: nat)
  {
    exists k: nat | k <= |before| ::
      after == FirstToTail(Cleaned(before, kept, k), list) && (k < |before| ==> |list| == maxSize)
  }

  function FirstToTail(contexts: seq<RedisContext>, list: seq<RedisContext>): seq<RedisContext> {
    if list == [] then contexts else Remove(contexts, list[0]) + [list[0]]
  }

  lemma ThenMoved(before: seq<RedisContext>, middle: seq<RedisContext>, kept: set<RedisContext>,
                  list: seq<RedisContext>, maxSize: nat)
    requires Swept(before, middle, kept, list, maxSize)
    ensures SweptAndMoved(before, FirstToTail(middle, list), kept, list, maxSize)
  {
    hide FirstToTail, Cleaned;
    var k: nat :| k <= |before| && middle == Cleaned(before, kept, k) && (k < |before| ==> |list| == maxSize);
  }

  // The search of the private connections.
  method Search(db: Database, state: TaskState, wanted: Wanted, maxSize: nat, now: int, version: nat,
                hungUp: set<RedisContext>)
    returns (list: seq<RedisContext>)
    requires TaskValid(state, db) && !db.sharedConnections
    modifies state, db`dropped
    ensures TaskValid(state, db)
    ensures NoDup(list) && Usable(list, state.contexts) && forall c | c in list :: Matches(db, c, wanted)
    ensures list == Limited(old(Available(db, state.contexts, wanted, now, version, hungUp)), maxSize)
    ensures state.ncontexts <= old(state.ncontexts) && forall c | c in state.contexts :: c in old(state.contexts)
    // Nobody else's connection is closed, and no sound one.
    ensures forall c | c in old(state.contexts) && c !in state.contexts ::
      Matches(db, c, wanted) && db.Fault(c, now, version, c in hungUp).Some?
    ensures Swept(old(state.contexts), state.contexts, old(Kept(db, state.contexts, wanted, now, version, hungUp)),
                  list, maxSize)
  {
    hide NoDup, Filter, Cleaned, Limited, Settled, Matches, Core.Database.FaultIn, Elems, AllSettled, Usable, Wanting,
      Core.Database.Valid;
    ghost var cs := state.contexts;
    ghost var m, v := Wanting(db, cs, wanted), db.Valid(Elems(cs), now, version, hungUp);
    ghost var keep := Kept(db, cs, wanted, now, version, hungUp);
    assert keep == set c | c in cs && (c in m ==> c in v);
    WantingMeans(db, cs, wanted);
    SoundMeans(db, cs, now, version, hungUp);
    ghost var looked;
    list, looked := Collect(db, state, wanted, maxSize, now, version, hungUp, m, v);
    CleanedMembers(cs, keep, looked);
    TakenMembers(cs, m * v, maxSize);
    SettledMembers(state.contexts, cs, db, db.registered);
    AreUsable(list, state.contexts);
  }

  // Databases with shared connections have no private connections.
  method PlanContexts(db: Database, state: TaskState, plan: Plan, wanted: Wanted, maxSize: nat, now: int, version: nat,
                      hungUp: set<RedisContext>)
    requires TaskValid(state, db) && plan.contexts == [] && plan.nextContext == 0 && plan.servers == []
    modifies state, db`dropped, plan`contexts
    ensures TaskValid(state, db) && PlanValid(plan, state, db)
    ensures plan.contexts == Limited(old(Available(db, state.contexts, wanted, now, version, hungUp)), maxSize)
    ensures forall c | c in plan.contexts :: Matches(db, c, wanted)
    ensures state.ncontexts <= old(state.ncontexts) && forall c | c in state.contexts :: c in old(state.contexts)
    ensures forall c | c in old(state.contexts) && c !in state.contexts ::
      Matches(db, c, wanted) && db.Fault(c, now, version, c in hungUp).Some?
    ensures
      if db.sharedConnections then plan.contexts == [] && state.contexts == old(state.contexts)
      else Swept(old(state.contexts), state.contexts, old(Kept(db, state.contexts, wanted, now, version, hungUp)),
                 plan.contexts, maxSize)
  {
    hide NoDup, Filter, Limited, Matches, Core.Database.FaultIn, Elems, AllSettled, Usable, Swept, Kept;
    if !db.sharedConnections {
      hide Available;
      var list := Search(db, state, wanted, maxSize, now, version, hungUp);
      plan.contexts := list;
      assert plan.contexts[0..] == plan.contexts;
    } else {
      NothingUsable(state.contexts);
      NothingLimited(maxSize);
    }
  }

  lemma NothingUsable(contexts: seq<RedisContext>)
    ensures Usable([], contexts) && NoDup<RedisContext>([])
  {
  }

  lemma NothingLimited(limit: nat)
    ensures Limited<RedisContext>([], limit) == []
  {
  }

  lemma WantingMeans(db: Database, cs: seq<RedisContext>, wanted: Wanted)
    ensures forall c | c in cs :: c in Wanting(db, cs, wanted) <==> Matches(db, c, wanted)
  {
  }

  lemma AreUsable(planned: seq<RedisContext>, contexts: seq<RedisContext>)
    requires forall c | c in planned :: c in contexts && !c.err
    ensures Usable(planned, contexts)
  {
  }

  lemma SoundMeans(db: Database, cs: seq<RedisContext>, now: int, version: nat, hungUp: set<RedisContext>)
    ensures forall c | c in cs :: c in db.Valid(Elems(cs), now, version, hungUp) <==>
      db.Fault(c, now, version, c in hungUp) == None
    ensures forall c | c in db.Valid(Elems(cs), now, version, hungUp) :: !c.err
  {
    hide Core.Database.FaultIn;
  }

  lemma TakenMembers(cs: seq<RedisContext>, e: set<RedisContext>, limit: nat)
    requires NoDup(cs)
    ensures NoDup(Limited(Filter(cs, e), limit))
    ensures forall c | c in Limited(Filter(cs, e), limit) :: c in cs && c in e
  {
    FilterMembers(cs, e);
    FilterNoDup(cs, e);
  }

  // The servers of a plan for which no server was named. A plan with a connection is not
  // left without servers: that of the connection is a candidate itself.
  method PlanList(db: Database, plan: Plan, master: bool, slot: nat, now: int, limit: nat)
    requires Registered(db) && slot < 16384 && limit > 0
    requires plan.servers == [] && plan.nextServer == 0
    requires forall c | c in plan.contexts :: Matches(db, c, ForSlot(master, slot)) && c.server in db.registered
    modifies plan`servers, db.servers
    ensures Registered(db)
    ensures plan.servers == Take(old(PlanOf(db, master, slot, now)), limit)
    ensures Queues(db) == Rotated(old(Queues(db)), old(Chosen(db, 1, master, slot, now)), limit)
    ensures forall s | s in plan.servers :: s in db.registered && s.db == db
    ensures plan.servers == [] <==> NobodyFor(db, master)
    ensures plan.servers == [] ==> plan.contexts == []
  {
    hide NoDup, Elems, InPlace, Known, Matches, Candidates, PlanOf, Take;
    WhenNobody(db, master, slot, now);
    AllHere(db);
    PlanMembers(db, master, slot, now);
    CandidatesHere(db, master, slot, now);
    TakeMembers(PlanOf(db, master, slot, now), limit, Candidates(db, master, slot, now));
    if plan.contexts != [] {
      ContextIsCandidate(db, plan.contexts[0], master, slot, now);
    }
    plan.servers := PlanServers(db, master, slot, now, limit);
  }

  lemma CandidatesHere(db: Database, master: bool, slot: nat, now: int)
    requires slot < 16384
    ensures Candidates(db, master, slot, now) <= db.registered
  {
  }

  // populate_execution_plan
  method Populate(db: Database, state: TaskState, plan: Plan, maxSize: nat, master: bool, slot: nat,
                  now: int, version: nat, hungUp: set<RedisContext>)
    requires Registered(db) && TaskValid(state, db) && slot < 16384
    requires plan.contexts == [] && plan.nextContext == 0 && plan.servers == [] && plan.nextServer == 0
    modifies state, db`dropped, db.servers, plan`contexts, plan`servers
    ensures Registered(db) && TaskValid(state, db) && PlanValid(plan, state, db)
    ensures state.ncontexts <= old(state.ncontexts) && forall c | c in state.contexts :: c in old(state.contexts)
    ensures plan.contexts ==
      Limited(old(Available(db, state.contexts, ForSlot(master, slot), now, version, hungUp)), maxSize)
    ensures forall c | c in plan.contexts :: c.server.db == db
    ensures plan.contexts != [] ==> state.contexts != [] && state.contexts[|state.contexts| - 1] == plan.contexts[0]
    ensures
      if db.sharedConnections then state.contexts == old(state.contexts)
      else SweptAndMoved(old(state.contexts), state.contexts,
                         old(Kept(db, state.contexts, ForSlot(master, slot), now, version, hungUp)),
                         plan.contexts, maxSize)
    ensures Queues(db) ==
      Rotated(old(Queues(db)), old(Chosen(db, 1, master, slot, now)), maxSize - |plan.contexts|)
    ensures plan.servers ==
      if |plan.contexts| < maxSize then Take(old(PlanOf(db, master, slot, now)), maxSize - |plan.contexts|) else []
    // A plan that has something has enough, and it has something if there is anyone to turn to.
    ensures plan.servers == [] ==> plan.contexts == [] || |plan.contexts| >= maxSize
    ensures maxSize > 0 ==> (plan.contexts == [] && plan.servers == [] <==> NobodyFor(db, master))
    ensures db.sharedConnections ==> plan.contexts == []
  {
    hide NobodyFor, NoDup, Limited, Elems, InPlace, Known, Matches, PlanOf, Take, Available, AllSettled, Usable,
      Core.Database.FaultIn;
    hide Queues, Rotated, Chosen, Kept, Swept, SweptAndMoved;
    ghost var before, kept := state.contexts, Kept(db, state.contexts, ForSlot(master, slot), now, version, hungUp);
    PlanContexts(db, state, plan, ForSlot(master, slot), maxSize, now, version, hungUp);
    ghost var cs := state.contexts;
    if !db.sharedConnections {
      ThenMoved(before, cs, kept, plan.contexts, maxSize);
    }
    ServersKnown(plan.contexts, cs, db, db.registered, ForSlot(master, slot));
    MatchesLead(plan.contexts, db, ForSlot(master, slot));
    MoveHead(db, state, plan);
    PlanRest(db, plan, master, slot, now, maxSize);
  }

  // The servers of a plan that has its connections.
  method PlanRest(db: Database, plan: Plan, master: bool, slot: nat, now: int, maxSize: nat)
    requires Registered(db) && slot < 16384
    requires plan.servers == [] && plan.nextServer == 0
    requires forall c | c in plan.contexts :: Matches(db, c, ForSlot(master, slot)) && c.server in db.registered
    modifies plan`servers, db.servers
    ensures Registered(db)
    ensures Queues(db) ==
      Rotated(old(Queues(db)), old(Chosen(db, 1, master, slot, now)), maxSize - |plan.contexts|)
    ensures plan.servers ==
      if |plan.contexts| < maxSize then Take(old(PlanOf(db, master, slot, now)), maxSize - |plan.contexts|) else []
    ensures forall s | s in plan.servers :: s in db.registered && s.db == db
    ensures plan.servers == [] ==> plan.contexts == [] || |plan.contexts| >= maxSize
    ensures maxSize > 0 ==> (plan.contexts == [] && plan.servers == [] <==> NobodyFor(db, master))
  {
    hide NobodyFor, NoDup, Elems, InPlace, Known, Matches, PlanOf, Take, Queues, Rotated, Chosen, Candidates;
    NoneToRotate(Queues(db), Chosen(db, 1, master, slot, now), maxSize - |plan.contexts|);
    if |plan.contexts| > 0 {
      ContextIsCandidate(db, plan.contexts[0], master, slot, now);
      WhenNobody(db, master, slot, now);
    }
    if |plan.contexts| < maxSize {
      PlanList(db, plan, master, slot, now, maxSize - |plan.contexts|);
    }
  }

  lemma NoneToRotate<T>(qs: seq<seq<T>>, e: set<T>, n: int)
    ensures n <= 0 ==> Rotated(qs, e, n) == qs
  {
    hide Sweep, Filter;
  }

  // The first connection of a plan, if any, goes to the tail of the private list.
  method MoveHead(db: Database, state: TaskState, plan: Plan)
    requires TaskValid(state, db) && PlanValid(plan, state, db) && plan.nextContext == 0
    modifies state`contexts
    ensures TaskValid(state, db) && PlanValid(plan, state, db)
    ensures state.contexts == FirstToTail(old(state.contexts), plan.contexts)
    ensures plan.contexts != [] ==> state.contexts != [] && state.contexts[|state.contexts| - 1] == plan.contexts[0]
    ensures |state.contexts| == |old(state.contexts)|
    ensures forall c | c in state.contexts :: c in old(state.contexts)
  {
    hide NoDup, AllSettled, Usable, Elems;
    ghost var cs := state.contexts;
    assert plan.contexts[0..] == plan.contexts;
    if |plan.contexts| > 0 {
      FirstIsUsable(plan.contexts, cs);
      MoveFirst(state, plan.contexts[0]);
      SettledMembers(state.contexts, cs, db, db.registered);
      UsableMembers(plan.contexts, cs, state.contexts);
    }
  }

  lemma FirstIsUsable(planned: seq<RedisContext>, contexts: seq<RedisContext>)
    requires Usable(planned, contexts) && planned != []
    ensures planned[0] in contexts
  {
  }

  // No server can be planned: there is none at all, or all are slaves and a master is wanted.
  ghost predicate NobodyFor(db: Database, master: bool)
    reads db`registered, db.registered`role
  {
    forall s | s in db.registered :: !db.clustered && master && s.role == SLAVE
  }

  lemma WhenNobody(db: Database, master: bool, slot: nat, now: int)
    requires slot < 16384
    ensures Candidates(db, master, slot, now) == {} <==> NobodyFor(db, master)
  {
    if !NobodyFor(db, master) {
      var s :| s in db.registered && !(!db.clustered && master && s.role == SLAVE);
      if !db.clustered {
        assert s in Candidates(db, master, slot, now);
      }
    }
  }

  lemma ServersKnown(planned: seq<RedisContext>, cs: seq<RedisContext>, db: Database, registered: set<RedisServer>,
                     wanted: Wanted)
    requires Usable(planned, cs) && AllSettled(cs, db, registered)
    requires forall c | c in planned :: Matches(db, c, wanted)
    ensures forall c | c in planned :: c in cs && c.server in registered
  {
  }

  // A plan leads to servers of its database, and to the given one if there is one.
  ghost predicate LeadsTo(plan: Plan, db: Database, server: Option<RedisServer>)
    reads plan`contexts, plan`servers
  {
    && (forall c | c in plan.contexts :: c.server.db == db && (server.Some? ==> c.server == server.value))
    && (forall s | s in plan.servers :: s.db == db && (server.Some? ==> s == server.value))
  }

  lemma MatchesLead(contexts: seq<RedisContext>, db: Database, wanted: Wanted)
    requires forall c | c in contexts :: Matches(db, c, wanted)
    ensures forall c | c in contexts :: c.server.db == db && (wanted.ForServer? ==> c.server == wanted.server)
  {
  }

  // ----- What a plan leads to -----

  // What a call plans.
  datatype Planned = Planned(contexts: seq<RedisContext>, servers: seq<RedisServer>)

  // Connections come first, up to the size of the plan; then the server given, or as many of
  // the others, in order, as there is room for.
  ghost predicate PlannedFrom(p: Planned, available: seq<RedisContext>, order: seq<RedisServer>,
                              server: Option<RedisServer>, maxSize: nat)
  {
    && p.contexts == Limited(available, maxSize)
    && p.servers ==
        if server.Some? then [server.value]
        else if |p.contexts| < maxSize then Take(order, maxSize - |p.contexts|)
        else []
  }

  // Who may be asked if no server is given. In a cluster, whoever serves the slot in the role
  // wanted, if one of them is healthy, and anybody otherwise; elsewhere, no slave if a master
  // is wanted.
  ghost function Suited(db: Database, master: bool, slot: nat, now: int): set<RedisServer>
    requires slot < 16384
    reads db`registered, db.registered`role, db.registered`sicknessExp, db.registered`slots
  {
    var serving := set s | s in db.registered && s.slots[slot] && (master ==> s.role == MASTER);
    if !db.clustered then set s | s in db.registered && (master ==> s.role != SLAVE)
    else if exists s :: s in serving && s.sicknessExp <= now then serving
    else db.registered
  }

  lemma ContextsSuit(db: Database, contexts: seq<RedisContext>, master: bool, slot: nat, now: int, version: nat,
                     hungUp: set<RedisContext>)
    requires slot < 16384 && AllSettled(contexts, db, db.registered)
    ensures forall c | c in Available(db, contexts, ForSlot(master, slot), now, version, hungUp) ::
      c.server in Suited(db, master, slot, now)
  {
    hide Available;
    forall c | c in Available(db, contexts, ForSlot(master, slot), now, version, hungUp)
      ensures c.server in Suited(db, master, slot, now)
    {
      AvailableMeans(db, contexts, ForSlot(master, slot), now, version, hungUp, c);
    }
  }

  lemma ServersSuit(db: Database, master: bool, slot: nat, now: int)
    requires Registered(db) && slot < 16384
    ensures forall s | s in PlanOf(db, master, slot, now) :: s in Suited(db, master, slot, now)
  {
    hide NoDup, PlanOf, InPlace, Known, Candidates, Suited;
    PlanMembers(db, master, slot, now);
    CandidatesSuit(db, master, slot, now);
    forall s | s in PlanOf(db, master, slot, now) ensures s in Suited(db, master, slot, now) {
      assert s in Elems(PlanOf(db, master, slot, now));
    }
  }

  function Wished(server: Option<RedisServer>, master: bool, slot: nat): Wanted {
    if server.Some? then ForServer(server.value) else ForSlot(master, slot)
  }

  lemma CandidatesSuit(db: Database, master: bool, slot: nat, now: int)
    requires slot < 16384
    ensures Candidates(db, master, slot, now) <= Suited(db, master, slot, now)
  {
    var healthy := set s | s in db.registered && s.sicknessExp <= now && s.slots[slot] && (master ==> s.role == MASTER);
    if db.clustered {
      if s :| s in db.registered && s.slots[slot] && (master ==> s.role == MASTER) && s.sicknessExp <= now {
        assert s in healthy;
      }
    }
  }

  // Whoever a plan leads to suits the slot.
  ghost predicate AllSuit(p: Planned, suited: set<RedisServer>) {
    forall k: nat | k < |p.contexts| || p.servers != [] :: ServerOf(p.contexts, p.servers, 0, 0, k) in suited
  }

  lemma PlanSuits(p: Planned, available: seq<RedisContext>, order: seq<RedisServer>, maxSize: nat,
                  suited: set<RedisServer>)
    requires PlannedFrom(p, available, order, None, maxSize)
    requires (forall c | c in available :: c.server in suited) && forall s | s in order :: s in suited
    ensures AllSuit(p, suited)
  {
    hide ServerOf;
    forall k: nat | k < |p.contexts| || p.servers != [] ensures ServerOf(p.contexts, p.servers, 0, 0, k) in suited {
      ServerOfIsOne(p.contexts, p.servers, k);
    }
  }

  lemma ServerOfIsOne(contexts: seq<RedisContext>, servers: seq<RedisServer>, k: nat)
    requires k < |contexts| || servers != []
    ensures if k < |contexts| then ServerOf(contexts, servers, 0, 0, k) == contexts[k].server
            else ServerOf(contexts, servers, 0, 0, k) in servers
  {
  }

  lemma WhoSuits(db: Database, state: TaskState, master: bool, slot: nat, now: int, version: nat,
                 hungUp: set<RedisContext>)
    requires Registered(db) && TaskValid(state, db) && slot < 16384
    ensures forall c | c in Available(db, state.contexts, ForSlot(master, slot), now, version, hungUp) ::
      c.server in Suited(db, master, slot, now)
    ensures forall s | s in PlanOf(db, master, slot, now) :: s in Suited(db, master, slot, now)
  {
    hide NoDup, AllSettled, Available, PlanOf, Suited, InPlace, Known;
    ContextsSuit(db, state.contexts, master, slot, now, version, hungUp);
    ServersSuit(db, master, slot, now);
  }

  // plan_execution
  method PlanExecution(db: Database, state: TaskState, maxSize: nat, server: Option<RedisServer>, master: bool,
                       slot: nat, now: int, version: nat, hungUp: set<RedisContext>)
    returns (plan: Plan)
    requires Registered(db) && TaskValid(state, db) && slot < 16384
    requires server.Some? ==> server.value in db.registered
    modifies state, db`dropped, db.servers
    ensures fresh(plan) && plan.nextContext == 0 && plan.nextServer == 0 && LeadsTo(plan, db, server)
    ensures Registered(db) && TaskValid(state, db) && PlanValid(plan, state, db)
    ensures state.ncontexts <= old(state.ncontexts) && forall c | c in state.contexts :: c in old(state.contexts)
    ensures var wanted := if server.Some? then ForServer(server.value) else ForSlot(master, slot);
      plan.contexts == Limited(old(Available(db, state.contexts, wanted, now, version, hungUp)), maxSize)
    ensures plan.servers ==
      if server.Some? then [server.value]
      else if |plan.contexts| < maxSize then Take(old(PlanOf(db, master, slot, now)), maxSize - |plan.contexts|)
      else []
    // The queues are turned by what is planned from them, and the private connections are
    // checked and, without a given server, turned as well.
    ensures Queues(db) ==
      if server.Some? then old(Queues(db))
      else Rotated(old(Queues(db)), old(Chosen(db, 1, master, slot, now)), maxSize - |plan.contexts|)
    ensures
      if db.sharedConnections then state.contexts == old(state.contexts)
      else if server.Some? then
        Swept(old(state.contexts), state.contexts,
              old(Kept(db, state.contexts, ForServer(server.value), now, version, hungUp)), plan.contexts, maxSize)
      else
        SweptAndMoved(old(state.contexts), state.contexts,
                      old(Kept(db, state.contexts, ForSlot(master, slot), now, version, hungUp)),
                      plan.contexts, maxSize)
    ensures plan.servers == [] ==> plan.contexts == [] || |plan.contexts| >= maxSize
    ensures maxSize > 0 ==> (plan.contexts == [] && plan.servers == [] <==> server.None? && NobodyFor(db, master))
    ensures db.sharedConnections ==> plan.contexts == []
  {
    hide NobodyFor, NoDup, Limited, Elems, InPlace, Known, Matches, PlanOf, Take, Available, AllSettled, Usable,
      Core.Database.FaultIn, Queues, Rotated, Chosen, Kept, Swept, SweptAndMoved;
    plan := new Plan();
    if server.Some? {
      AllHere(db);
      PlanContexts(db, state, plan, ForServer(server.value), maxSize, now, version, hungUp);
      MatchesLead(plan.contexts, db, ForServer(server.value));
      plan.servers := [server.value];
    } else {
      Populate(db, state, plan, maxSize, master, slot, now, version, hungUp);
    }
  }

  // The plan of a call, and whom it leads to if no server is given.
  method PlanCall(db: Database, state: TaskState, maxSize: nat, server: Option<RedisServer>, master: bool, slot: nat,
                  now: int, version: nat, hungUp: set<RedisContext>)
    returns (plan: Plan, ghost planned: Planned)
    requires Registered(db) && TaskValid(state, db) && slot < 16384
    requires server.Some? ==> server.value in db.registered
    modifies state, db`dropped, db.servers
    ensures fresh(plan) && plan.nextContext == 0 && plan.nextServer == 0 && LeadsTo(plan, db, server)
    ensures Registered(db) && TaskValid(state, db) && PlanValid(plan, state, db)
    ensures state.ncontexts <= old(state.ncontexts) && forall c | c in state.contexts :: c in old(state.contexts)
    ensures planned == Planned(plan.contexts, plan.servers)
    ensures PlannedFrom(planned, old(Available(db, state.contexts, Wished(server, master, slot), now, version, hungUp)),
                        old(PlanOf(db, master, slot, now)), server, maxSize)
    ensures server.Some? ==> plan.servers == [server.value]
    ensures server.None? ==> AllSuit(planned, old(Suited(db, master, slot, now)))
    ensures Queues(db) ==
      if server.Some? then old(Queues(db))
      else Rotated(old(Queues(db)), old(Chosen(db, 1, master, slot, now)), maxSize - |plan.contexts|)
    ensures plan.servers == [] ==> plan.contexts == [] || |plan.contexts| >= maxSize
    ensures maxSize > 0 ==> (plan.contexts == [] && plan.servers == [] <==> server.None? && NobodyFor(db, master))
    ensures db.sharedConnections ==> plan.contexts == []
  {
    hide NobodyFor, NoDup, Limited, Elems, InPlace, Known, Matches, PlanOf, Take, Available, AllSettled, Usable,
      Core.Database.FaultIn, Suited, AllSuit, TaskValid, PlanValid, LeadsTo, Shaped, Queues, Rotated, Chosen,
      Kept, Swept, SweptAndMoved;
    ghost var available := Available(db, state.contexts, Wished(server, master, slot), now, version, hungUp);
    ghost var order, suited := PlanOf(db, master, slot, now), Suited(db, master, slot, now);
    WhoSuits(db, state, master, slot, now, version, hungUp);
    plan := PlanExecution(db, state, maxSize, server, master, slot, now, version, hungUp);
    planned := Planned(plan.contexts, plan.servers);
    if server.None? {
      PlanSuits(planned, available, order, maxSize, suited);
    }
  }

  lemma AllHere(db: Database)
    requires Known(db)
    ensures forall s | s in db.registered :: s.db == db
  {
  }

  method MoveFirst(state: TaskState, c: RedisContext)
    requires state.ncontexts == |state.contexts| && NoDup(state.contexts) && c in state.contexts
    modifies state`contexts
    ensures state.ncontexts == |state.contexts| == old(state.ncontexts) && NoDup(state.contexts)
    ensures state.contexts == Remove(old(state.contexts), c) + [c]
    ensures forall d | d in state.contexts :: d in old(state.contexts)
    ensures forall d | d in old(state.contexts) :: d in state.contexts
  {
    hide NoDup, Elems;
    ghost var cs := state.contexts;
    Members(cs);
    RemoveLeaves(cs, c);
    Snoc(Remove(cs, c), c);
    state.contexts := Remove(state.contexts, c) + [c];
    Members(state.contexts);
    assert Elems(state.contexts) == Elems(cs) - {c} + {c};
  }

  lemma Members<T>(s: seq<T>)
    ensures forall x | x in s :: x in Elems(s)
    ensures forall x | x in Elems(s) :: x in s
  {
  }

  lemma TakeMembers(s: seq<RedisServer>, n: int, e: set<RedisServer>)
    requires Elems(s) == e && n > 0
    ensures forall x | x in Take(s, n) :: x in e
    ensures Take(s, n) == [] <==> e == {}
  {
    if s != [] { assert s[0] in Elems(s); }
  }

  // Whoever a connection of the plan is connected to shows that there are candidates.
  lemma ContextIsCandidate(db: Database, c: RedisContext, master: bool, slot: nat, now: int)
    requires slot < 16384 && c.server in db.registered && Matches(db, c, ForSlot(master, slot))
    ensures Candidates(db, master, slot, now) != {}
  {
    if db.clustered {
      assert c.server in db.registered;
    } else {
      assert c.server in Candidates(db, master, slot, now);
    }
  }
}
