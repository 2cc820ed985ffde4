/** Bringing the databases up to date with the inventory (unsafe_update_dbs of src/sentinel.c). */
module SentinelUpdate {
  import opened Lists
  import opened QueueMerge
  import opened Core
  import opened Registry
  import opened SentinelInventory

  // UINT_MAX, as the end of a sickness.
  const FOREVER: int := 0xFFFF_FFFF

  // ----- One simultaneous update -----

  // The end of the sickness of a server looked at at a given time.
  function Flag(exp: int, down: bool, now: int): int {
    if exp <= now then (if down then FOREVER else exp)
    else (if down then exp else now)
  }

  // After an update everybody in the inventory has the role it says, and a sickness as if it
  // had been looked at once, at some time during the update. Nobody else has changed.
  ghost predicate UpToDate(location: Location, role: Role, exp: int, role0: Role, exp0: int, inventory: map<Key, Info>,
                           start: int, end: int) {
    if location.Host? && Key(location.host, location.port) in inventory then
      var info := inventory[Key(location.host, location.port)];
      role == info.role && exists n :: start <= n <= end && exp == Flag(exp0, info.down, n)
    else
      role == role0 && exp == exp0
  }

  // Looking at a server again changes nothing that matters.
  lemma SecondLook(location: Location, role: Role, exp: int, role0: Role, exp0: int, inventory: map<Key, Info>,
                   start: int, end: int, now: int)
    requires UpToDate(location, role, exp, role0, exp0, inventory, start, end)
    requires location.Host? && Key(location.host, location.port) in inventory
    requires start <= end <= now < FOREVER
    ensures var info := inventory[Key(location.host, location.port)];
      UpToDate(location, info.role, Flag(exp, info.down, now), role0, exp0, inventory, start, now)
  {
    var info := inventory[Key(location.host, location.port)];
    var n :| start <= n <= end && exp == Flag(exp0, info.down, n);
    assert Flag(exp, info.down, now) in {Flag(exp0, info.down, n), Flag(exp0, info.down, now)};
  }

  lemma FirstLook(location: Location, role0: Role, exp0: int, inventory: map<Key, Info>, start: int, now: int)
    requires location.Host? && Key(location.host, location.port) in inventory && start <= now
    ensures var info := inventory[Key(location.host, location.port)];
      UpToDate(location, info.role, Flag(exp0, info.down, now), role0, exp0, inventory, start, now)
  {
  }

  lemma LaterStill(location: Location, role: Role, exp: int, role0: Role, exp0: int, inventory: map<Key, Info>,
                   start: int, end: int, later: int)
    requires UpToDate(location, role, exp, role0, exp0, inventory, start, end) && end <= later
    ensures UpToDate(location, role, exp, role0, exp0, inventory, start, later)
  {
  }

  predicate SickAt(exp: int, time: int) {
    exp > time
  }

  lemma SoonerStill(location: Location, role: Role, exp: int, role0: Role, exp0: int, inventory: map<Key, Info>,
                    sooner: int, start: int, end: int)
    requires UpToDate(location, role, exp, role0, exp0, inventory, start, end) && sooner <= start
    ensures UpToDate(location, role, exp, role0, exp0, inventory, sooner, end)
  {
  }

  // Right after it has been looked at a server is sick if and only if it is down. This
  // lasts, unless a server that is down was already sick for a limited time: that time is
  // not extended.
  lemma SickIffDown(exp: int, down: bool, now: int)
    requires now < 0xFFFF_FFFF
    ensures SickAt(Flag(exp, down, now), now) <==> down
    ensures (forall t | now <= t < 0xFFFF_FFFF :: SickAt(Flag(exp, down, now), t) <==> down) <==>
      !(down && now < exp < 0xFFFF_FFFF)
  {
    if down && now < exp < FOREVER {
      assert !SickAt(Flag(exp, down, now), exp);
    }
  }

  // ----- unsafe_update_dbs_aux -----

  datatype Before = Before(role: Role, exp: int)

  ghost function BeforeOf(db: Database): (m: map<RedisServer, Before>)
    ensures m.Keys == db.registered
    reads db`registered, db.registered`role, db.registered`sicknessExp
  {
    map s | s in db.registered :: Before(s.role, s.sicknessExp)
  }

  method UpdateServer(db: Database, state: State, s: RedisServer, now: int)
    requires Registered(db) && s in db.registered && s.location.Host? && state.Valid()
    modifies db.servers, s`role, s`sicknessExp
    ensures Registered(db)
    ensures var key := Key(s.location.host, s.location.port);
      if key in state.inventory then
        s.role == state.inventory[key].role && s.sicknessExp == Flag(old(s.sicknessExp), state.inventory[key].down, now)
      else
        s.role == old(s.role) && s.sicknessExp == old(s.sicknessExp)
    ensures forall w, r | 0 <= w < 4 && 0 <= r < 3 ::
      db.servers[w, r] ==
        if s.role == old(s.role) then old(db.servers[w, r])
        else Requeued(old(db.servers[w, r]), s, w == s.weight && r == s.role)
  {
    hide NoDup, Elems, InPlace, Known, Requeued, Keyed;
    var key := Key(s.location.host, s.location.port);
    var i := state.Search(key);
    if i == |state.servers| {
      NotThere(state.servers, key);
      return;
    }
    var known := state.servers[i];
    if s.role != known.role {
      Relocate(db, s, known.role);
    }
    if s.sicknessExp <= now {
      if known.down {
        s.sicknessExp := FOREVER;
      }
    } else {
      if !known.down {
        s.sicknessExp := now;
      }
    }
  }

  lemma NotThere(servers: seq<Server>, key: Key)
    requires forall j | 0 <= j < |servers| :: KeyOf(servers[j]) != key
    ensures key !in Keys(servers)
  {
  }

  // ----- The walk over the queues -----

  // Where a server stands while the queue of weight w and role r is walked, with the
  // servers of rest still to come: it is up to date, or it is as it was and still to come.
  ghost predicate Status(s: RedisServer, role: Role, weight: nat, exp: int, before: Before, inventory: map<Key, Info>,
                         start: int, end: int, w: nat, r: int, rest: seq<RedisServer>)
  {
    || UpToDate(s.location, role, exp, before.role, before.exp, inventory, start, end)
    || (role == before.role && exp == before.exp && (weight > w || (weight == w && role > r) || s in rest))
  }

  ghost predicate Statuses(state: map<RedisServer, Before>, before: map<RedisServer, Before>, inventory: map<Key, Info>,
                           start: int, end: int, w: nat, r: int, rest: seq<RedisServer>)
    requires state.Keys == before.Keys
    reads before.Keys`weight
  {
    forall s | s in state ::
      Status(s, state[s].role, s.weight, state[s].exp, before[s], inventory, start, end, w, r, rest)
  }

  // One server has been looked at; the others are as they were.
  ghost predicate SeenOne(was: map<RedisServer, Before>, state: map<RedisServer, Before>, s: RedisServer,
                          inventory: map<Key, Info>, now: int)
    requires was.Keys == state.Keys && s in was
  {
    && (forall t | t in was && t != s :: state[t] == was[t])
    && if s.location.Host? && Key(s.location.host, s.location.port) in inventory then
         var info := inventory[Key(s.location.host, s.location.port)];
         state[s] == Before(info.role, Flag(was[s].exp, info.down, now))
       else state[s] == was[s]
  }

  // The step from one server to the next.
  lemma NextStatuses(was: map<RedisServer, Before>, state: map<RedisServer, Before>, before: map<RedisServer, Before>,
                     inventory: map<Key, Info>, start: int, end: int, now: int, w: nat, r: nat,
                     q: seq<RedisServer>, i: nat)
    requires was.Keys == state.Keys == before.Keys && i < |q| && q[i] in was && start <= end <= now < FOREVER
    requires Statuses(was, before, inventory, start, end, w, r, q[i..])
    requires SeenOne(was, state, q[i], inventory, now)
    ensures Statuses(state, before, inventory, start, now, w, r, q[i + 1..])
  {
    hide UpToDate, Flag;
    forall s | s in state
      ensures Status(s, state[s].role, s.weight, state[s].exp, before[s], inventory, start, now, w, r, q[i + 1..])
    {
      if UpToDate(s.location, was[s].role, was[s].exp, before[s].role, before[s].exp, inventory, start, end) {
        LaterStill(s.location, was[s].role, was[s].exp, before[s].role, before[s].exp, inventory, start, end, now);
      }
      if s == q[i] {
        Looked(s, was[s], state[s], before[s], inventory, start, end, now, w, r, q[i..]);
      } else {
        assert s in q[i..] ==> s in q[i + 1..];
      }
    }
  }

  lemma Looked(s: RedisServer, was: Before, state: Before, before: Before, inventory: map<Key, Info>, start: int,
               end: int, now: int, w: nat, r: nat, rest: seq<RedisServer>)
    requires start <= end <= now < FOREVER
    requires Status(s, was.role, s.weight, was.exp, before, inventory, start, end, w, r, rest)
    requires
      if s.location.Host? && Key(s.location.host, s.location.port) in inventory then
        var info := inventory[Key(s.location.host, s.location.port)];
        state == Before(info.role, Flag(was.exp, info.down, now))
      else state == was
    ensures UpToDate(s.location, state.role, state.exp, before.role, before.exp, inventory, start, now)
  {
    if s.location.Host? && Key(s.location.host, s.location.port) in inventory {
      hide UpToDate, Flag;
      if UpToDate(s.location, was.role, was.exp, before.role, before.exp, inventory, start, end) {
        SecondLook(s.location, was.role, was.exp, before.role, before.exp, inventory, start, end, now);
      } else {
        FirstLook(s.location, before.role, before.exp, inventory, start, now);
      }
    }
  }

  // The role that a server takes: that of the inventory, or its own.
  function Destination(location: Location, role: Role, inventory: map<Key, Info>): Role {
    if location.Host? && Key(location.host, location.port) in inventory
    then inventory[Key(location.host, location.port)].role
    else role
  }

  ghost function Bound(before: map<RedisServer, Before>, inventory: map<Key, Info>, r: int): set<RedisServer> {
    set s | s in before && Destination(s.location, before[s].role, inventory) == r
  }

  // The queues while queue q of weight w and role r is walked.
  ghost predicate Walking(db: Database, rows: seq<seq<seq<RedisServer>>>, before: map<RedisServer, Before>,
                          inventory: map<Key, Info>, w: nat, r: nat, i: nat)
    requires Shaped(db) && Rows(rows) && w < 4 && r < 3 && i <= |rows[w][r]|
    reads db.servers
  {
    forall a, b | 0 <= a < 4 && 0 <= b < 3 ::
      db.servers[a, b] == SoFar(rows[a][b], rows[w][r], i, Bound(before, inventory, b), a == w, b == r)
  }

  // The body of the loop: one server is looked at.
  method LookAt(db: Database, state: State, w: nat, r: Role, s: RedisServer, ghost i: nat,
                ghost rows: seq<seq<seq<RedisServer>>>,
                ghost before: map<RedisServer, Before>, ghost start: int, clock: int)
    returns (now: int)
    requires Registered(db) && state.Valid() && w < 4 && before.Keys == db.registered && start <= clock < FOREVER
    requires Rows(rows) && i < |rows[w][r]| && NoDup(rows[w][r]) && s == rows[w][r][i]
    requires Walking(db, rows, before, state.inventory, w, r, i)
    requires Statuses(BeforeOf(db), before, state.inventory, start, clock, w, r, rows[w][r][i..])
    modifies db.servers, db.registered`role, db.registered`sicknessExp
    ensures Registered(db) && clock <= now < FOREVER
    ensures Walking(db, rows, before, state.inventory, w, r, i + 1)
    ensures Statuses(BeforeOf(db), before, state.inventory, start, now, w, r, rows[w][r][i + 1..])
  {
    hide NoDup, Elems, InPlace, Known, Keyed, Recorded, Statuses, BeforeOf, Walking;
    hide SeenOne, StartsStep, Requeues, Destination;
    ghost var q := rows[w][r];
    StillQueued(db, w, r, rows, before, state.inventory, i);
    BeforeAt(db);
    ghost var here := BeforeOf(db);
    StatusRole(here, before, state.inventory, start, clock, w, r, q, i);
    ghost var queues := RowsOf(db);
    StartOfStep(db, rows, queues, before, state.inventory, w, r, i);
    now :| clock <= now < FOREVER;
    LookOnce(db, state, w, r, s, queues, here, now);
    ghost var there := BeforeOf(db);
    NextStatuses(here, there, before, state.inventory, start, clock, now, w, r, q, i);
    BeforeAt(db);
    SeenRole(here, there, s, before[s].role, state.inventory, now);
    EndOfStep(db, rows, queues, before, state.inventory, w, r, i);
  }

  // Server s of the queue of weight w and role r has taken the role it has now.
  ghost predicate Requeues(db: Database, queues: seq<seq<seq<RedisServer>>>, s: RedisServer, w: nat, r: nat)
    requires Shaped(db) && Rows(queues)
    reads db.servers, s`role
  {
    && (forall a, b | 0 <= a < 4 && 0 <= b < 3 && (a != w || b != r) :: Remove(queues[a][b], s) == queues[a][b])
    && forall a, b | 0 <= a < 4 && 0 <= b < 3 ::
      db.servers[a, b] == if s.role == r then queues[a][b] else Requeued(queues[a][b], s, a == w && b == s.role)
  }

  method LookOnce(db: Database, state: State, w: nat, r: Role, s: RedisServer,
                  ghost queues: seq<seq<seq<RedisServer>>>, ghost here: map<RedisServer, Before>, now: int)
    requires Registered(db) && state.Valid() && s in db.registered && s.weight == w && s.role == r
    requires queues == RowsOf(db) && here == BeforeOf(db)
    modifies db.servers, s`role, s`sicknessExp
    ensures Registered(db)
    ensures SeenOne(here, BeforeOf(db), s, state.inventory, now)
    ensures Requeues(db, queues, s, w, r)
  {
    hide NoDup, Elems, InPlace, Known, Keyed, Recorded, Requeued, BeforeOf, Flag;
    Elsewhere(db, s);
    BeforeAt(db);
    if s.location.Host? {
      UpdateServer(db, state, s, now);
    }
    BeforeAt(db);
  }

  lemma SeenRole(was: map<RedisServer, Before>, state: map<RedisServer, Before>, s: RedisServer, role: Role,
                 inventory: map<Key, Info>, now: int)
    requires was.Keys == state.Keys && s in was && SeenOne(was, state, s, inventory, now)
    requires !(s.location.Host? && Key(s.location.host, s.location.port) in inventory) ==> was[s].role == role
    ensures state[s].role == Destination(s.location, role, inventory)
  {
  }

  // VTAILQ_FOREACH_SAFE over the queue of weight w and role r. A server that changes its
  // role leaves the queue; none joins it, so the next one is always the one remembered.
  method WalkQueue(db: Database, state: State, w: nat, r: Role, ghost before: map<RedisServer, Before>,
                   ghost start: int, clock: int)
    returns (now: int)
    requires Registered(db) && state.Valid() && w < 4 && before.Keys == db.registered && start <= clock < FOREVER
    requires Statuses(BeforeOf(db), before, state.inventory, start, clock, w, r, db.servers[w, r])
    modifies db.servers, db.registered`role, db.registered`sicknessExp
    ensures Registered(db) && clock <= now < FOREVER
    ensures Statuses(BeforeOf(db), before, state.inventory, start, now, w, r, [])
    ensures forall a, b | 0 <= a < 4 && 0 <= b < 3 ::
      db.servers[a, b] ==
        Walked(old(db.servers[a, b]), old(db.servers[w, r]), Bound(before, state.inventory, b), a == w, b == r)
  {
    hide NoDup, Elems, InPlace, Known, Keyed, Recorded, Statuses, BeforeOf, Walking, SoFar, Walked, Bound;
    var q := db.servers[w, r];
    ghost var rows := RowsOf(db);
    QueueNoDup(db, w, r);
    StartOfWalk(db, rows, before, state.inventory, w, r);
    now := clock;
    assert q[0..] == q && q[|q|..] == [];
    for i := 0 to |q|
      invariant Registered(db) && clock <= now < FOREVER
      invariant Walking(db, rows, before, state.inventory, w, r, i)
      invariant Statuses(BeforeOf(db), before, state.inventory, start, now, w, r, q[i..])
    {
      now := LookAt(db, state, w, r, q[i], i, rows, before, start, now);
    }
    EndOfWalk(db, rows, before, state.inventory, w, r);
  }

  lemma StartOfWalk(db: Database, rows: seq<seq<seq<RedisServer>>>, before: map<RedisServer, Before>,
                    inventory: map<Key, Info>, w: nat, r: nat)
    requires Shaped(db) && rows == RowsOf(db) && w < 4 && r < 3
    ensures Walking(db, rows, before, inventory, w, r, 0)
  {
    hide Bound, SoFar;
    forall a, b | 0 <= a < 4 && 0 <= b < 3
      ensures db.servers[a, b] == SoFar(rows[a][b], rows[w][r], 0, Bound(before, inventory, b), a == w, b == r)
    {
      SoFarStart(rows[a][b], rows[w][r], Bound(before, inventory, b), a == w, b == r);
    }
  }

  lemma EndOfWalk(db: Database, rows: seq<seq<seq<RedisServer>>>, before: map<RedisServer, Before>,
                  inventory: map<Key, Info>, w: nat, r: nat)
    requires Shaped(db) && Rows(rows) && w < 4 && r < 3 && Walking(db, rows, before, inventory, w, r, |rows[w][r]|)
    ensures forall a, b | 0 <= a < 4 && 0 <= b < 3 ::
      db.servers[a, b] == Walked(rows[a][b], rows[w][r], Bound(before, inventory, b), a == w, b == r)
  {
    hide Bound, SoFar, Walked;
    forall a, b | 0 <= a < 4 && 0 <= b < 3
      ensures db.servers[a, b] == Walked(rows[a][b], rows[w][r], Bound(before, inventory, b), a == w, b == r)
    {
      SoFarEnd(rows[a][b], rows[w][r], Bound(before, inventory, b), a == w, b == r);
    }
  }

  // What the queues are at the beginning of a step.
  lemma StartOfStep(db: Database, rows: seq<seq<seq<RedisServer>>>, queues: seq<seq<seq<RedisServer>>>,
                    before: map<RedisServer, Before>, inventory: map<Key, Info>, w: nat, r: nat, i: nat)
    requires Shaped(db) && Rows(rows) && w < 4 && r < 3 && i <= |rows[w][r]|
    requires Walking(db, rows, before, inventory, w, r, i)
    requires queues == RowsOf(db)
    ensures StartsStep(rows, queues, before, inventory, w, r, i)
  {
    hide SoFar, Bound;
  }

  ghost predicate StartsStep(rows: seq<seq<seq<RedisServer>>>, queues: seq<seq<seq<RedisServer>>>,
                             before: map<RedisServer, Before>, inventory: map<Key, Info>, w: nat, r: nat, i: nat)
    requires Rows(rows) && Rows(queues) && w < 4 && r < 3 && i <= |rows[w][r]|
  {
    forall a, b | 0 <= a < 4 && 0 <= b < 3 ::
      queues[a][b] == SoFar(rows[a][b], rows[w][r], i, Bound(before, inventory, b), a == w, b == r)
  }

  // What they are at its end, when server i has been given a role.
  lemma EndOfStep(db: Database, rows: seq<seq<seq<RedisServer>>>, queues: seq<seq<seq<RedisServer>>>,
                  before: map<RedisServer, Before>, inventory: map<Key, Info>, w: nat, r: nat, i: nat)
    requires Shaped(db) && Rows(rows) && Rows(queues) && w < 4 && r < 3 && i < |rows[w][r]|
    requires StartsStep(rows, queues, before, inventory, w, r, i)
    requires var s := rows[w][r][i];
      && s !in rows[w][r][..i] && s in before && s.role == Destination(s.location, before[s].role, inventory)
      && Requeues(db, queues, s, w, r)
    ensures Walking(db, rows, before, inventory, w, r, i + 1)
  {
    hide SoFar;
    var s := rows[w][r][i];
    forall a, b | 0 <= a < 4 && 0 <= b < 3
      ensures db.servers[a, b] == SoFar(rows[a][b], rows[w][r], i + 1, Bound(before, inventory, b), a == w, b == r)
    {
      SoFarNext(queues[a][b], db.servers[a, b], rows[a][b], rows[w][r], i, Bound(before, inventory, b),
                a == w, b == r, s.role != r, a == w && b == s.role);
    }
  }

  // Nobody has changed its role who is not in the inventory.
  lemma StatusRole(state: map<RedisServer, Before>, before: map<RedisServer, Before>, inventory: map<Key, Info>,
                   start: int, end: int, w: nat, r: nat, q: seq<RedisServer>, i: nat)
    requires state.Keys == before.Keys && i < |q| && q[i] in state
    requires Statuses(state, before, inventory, start, end, w, r, q[i..])
    ensures var s := q[i];
      !(s.location.Host? && Key(s.location.host, s.location.port) in inventory) ==> state[s].role == before[s].role
  {
  }

  // The next server has not left the queue.
  lemma StillQueued(db: Database, w: nat, r: Role, rows: seq<seq<seq<RedisServer>>>, before: map<RedisServer, Before>,
                    inventory: map<Key, Info>, i: nat)
    requires Registered(db) && w < 4 && Rows(rows) && i < |rows[w][r]| && Walking(db, rows, before, inventory, w, r, i)
    requires NoDup(rows[w][r])
    ensures var s := rows[w][r][i];
      s in db.registered && s.weight == w && s.role == r && s !in rows[w][r][..i]
  {
    hide Known;
    var here, q := db.servers[w, r], rows[w][r];
    var kept := Filter(q[..i], Bound(before, inventory, r));
    assert here == kept + q[i..];
    assert here[|kept|] == q[i] && here[|kept|] in Elems(here);
  }

  lemma BeforeAt(db: Database)
    ensures forall s | s in db.registered :: BeforeOf(db)[s] == Before(s.role, s.sicknessExp)
  {
  }

  lemma QueueNoDup(db: Database, w: nat, r: Role)
    requires Registered(db) && w < 4
    ensures NoDup(db.servers[w, r])
  {
    hide NoDup, Elems, Known;
  }

  // ----- unsafe_update_dbs -----

  lemma StatusesMean(state: map<RedisServer, Before>, before: map<RedisServer, Before>, inventory: map<Key, Info>,
                     start: int, end: int, w: nat, r: int, rest: seq<RedisServer>, w': nat, r': int,
                     rest': seq<RedisServer>)
    requires state.Keys == before.Keys && Statuses(state, before, inventory, start, end, w, r, rest)
    requires forall s | s in state && (s.weight > w || (s.weight == w && state[s].role > r) || s in rest) ::
      s.weight > w' || (s.weight == w' && state[s].role > r') || s in rest'
    ensures Statuses(state, before, inventory, start, end, w', r', rest')
  {
    hide UpToDate;
  }

  // Whoever is still to come after the queue before is in this queue, or still to come after it.
  lemma EnterQueue(db: Database, before: map<RedisServer, Before>, inventory: map<Key, Info>, start: int, end: int,
                   w: nat, r: Role)
    requires Registered(db) && w < 4 && before.Keys == db.registered
    requires Statuses(BeforeOf(db), before, inventory, start, end, w, r - 1, [])
    ensures Statuses(BeforeOf(db), before, inventory, start, end, w, r, db.servers[w, r])
  {
    hide NoDup, Elems, InPlace, Known, Statuses;
    forall s | s in db.registered && s.weight == w && s.role == r ensures s in db.servers[w, r] {
      WhereItIs(db, s);
    }
    StatusesMean(BeforeOf(db), before, inventory, start, end, w, r - 1, [], w, r, db.servers[w, r]);
  }

  // Nobody has been looked at yet.
  lemma AllToCome(db: Database, inventory: map<Key, Info>, now: int)
    ensures Statuses(BeforeOf(db), BeforeOf(db), inventory, now, now, 0, -1, [])
  {
    hide UpToDate;
  }

  lemma NobodyToCome(db: Database, before: map<RedisServer, Before>, inventory: map<Key, Info>, start: int, end: int)
    requires Known(db) && before.Keys == db.registered
    requires Statuses(BeforeOf(db), before, inventory, start, end, 4, -1, [])
    ensures forall s | s in db.registered ::
      UpToDate(s.location, s.role, s.sicknessExp, before[s].role, before[s].exp, inventory, start, end)
  {
    hide UpToDate;
    forall s | s in db.registered
      ensures UpToDate(s.location, s.role, s.sicknessExp, before[s].role, before[s].exp, inventory, start, end)
    {
      assert s in BeforeOf(db);
    }
  }

  // The queues when those of weights below w have been walked, and k of weight w.
  ghost predicate Staged(db: Database, rows: seq<seq<seq<RedisServer>>>, bs: seq<set<RedisServer>>, w: nat, k: nat)
    requires Shaped(db) && Rows(rows) && |bs| == 3 && k <= 3
    reads db.servers
  {
    forall a, b | 0 <= a < 4 && 0 <= b < 3 ::
      db.servers[a, b] == Stage(rows[a], bs, if a < w then 3 else if a == w then k else 0, b)
  }

  lemma StageStart(db: Database, rows: seq<seq<seq<RedisServer>>>, bs: seq<set<RedisServer>>)
    requires Shaped(db) && rows == RowsOf(db) && |bs| == 3
    ensures Staged(db, rows, bs, 0, 0)
  {
  }

  lemma StageWeight(db: Database, rows: seq<seq<seq<RedisServer>>>, bs: seq<set<RedisServer>>, w: nat)
    requires Shaped(db) && Rows(rows) && |bs| == 3 && Staged(db, rows, bs, w, 3)
    ensures Staged(db, rows, bs, w + 1, 0)
  {
    hide Stage;
    forall a, b | 0 <= a < 4 && 0 <= b < 3
      ensures db.servers[a, b] == Stage(rows[a], bs, if a < w + 1 then 3 else 0, b)
    {
    }
  }

  ghost predicate StageOf(queues: seq<seq<seq<RedisServer>>>, rows: seq<seq<seq<RedisServer>>>,
                          bs: seq<set<RedisServer>>, w: nat, k: nat)
    requires Rows(queues) && Rows(rows) && |bs| == 3 && k <= 3
  {
    forall a, b | 0 <= a < 4 && 0 <= b < 3 ::
      queues[a][b] == Stage(rows[a], bs, if a < w then 3 else if a == w then k else 0, b)
  }

  lemma BeforeWalk(db: Database, queues: seq<seq<seq<RedisServer>>>, rows: seq<seq<seq<RedisServer>>>,
                   bs: seq<set<RedisServer>>, w: nat, k: nat)
    requires Shaped(db) && Rows(rows) && |bs| == 3 && k <= 3 && queues == RowsOf(db) && Staged(db, rows, bs, w, k)
    ensures StageOf(queues, rows, bs, w, k)
  {
    hide Stage;
  }

  lemma AfterWalk(db: Database, queues: seq<seq<seq<RedisServer>>>, rows: seq<seq<seq<RedisServer>>>,
                  bs: seq<set<RedisServer>>, w: nat, k: nat)
    requires Shaped(db) && Rows(queues) && Rows(rows) && |bs| == 3 && w < 4 && k < 3 && StageOf(queues, rows, bs, w, k)
    requires forall a, b | 0 <= a < 4 && 0 <= b < 3 ::
      db.servers[a, b] == Walked(queues[a][b], queues[w][k], bs[b], a == w, b == k)
    ensures Staged(db, rows, bs, w, k + 1)
  {
    hide Filter;
    forall a, b | 0 <= a < 4 && 0 <= b < 3
      ensures db.servers[a, b] == Stage(rows[a], bs, if a < w then 3 else if a == w then k + 1 else 0, b)
    {
      StageStep(rows[a], bs, k, b);
    }
  }

  ghost function WithRole(db: Database, r: int): set<RedisServer>
    reads db`registered, db.registered`role
  {
    set s | s in db.registered && s.role == r
  }

  // The servers bound for a role are those that have it in the end.
  lemma BoundIsRole(db: Database, before: map<RedisServer, Before>, inventory: map<Key, Info>, start: int, end: int)
    requires before.Keys == db.registered
    requires forall s | s in db.registered ::
      UpToDate(s.location, s.role, s.sicknessExp, before[s].role, before[s].exp, inventory, start, end)
    ensures forall r :: Bound(before, inventory, r) == WithRole(db, r)
  {
    forall s | s in db.registered ensures s.role == Destination(s.location, before[s].role, inventory) {
      assert UpToDate(s.location, s.role, s.sicknessExp, before[s].role, before[s].exp, inventory, start, end);
    }
  }

  lemma QueuesMerged(db: Database, rows: seq<seq<seq<RedisServer>>>, before: map<RedisServer, Before>,
                     inventory: map<Key, Info>)
    requires Shaped(db) && Rows(rows)
    requires Staged(db, rows,
                    [Bound(before, inventory, 0), Bound(before, inventory, 1), Bound(before, inventory, 2)], 4, 0)
    ensures forall w, r | 0 <= w < 4 && 0 <= r < 3 ::
      db.servers[w, r] == Merged(rows[w], Bound(before, inventory, r), r)
  {
    hide Stage, Merged;
    var bs := [Bound(before, inventory, 0), Bound(before, inventory, 1), Bound(before, inventory, 2)];
    forall w, r | 0 <= w < 4 && 0 <= r < 3 ensures db.servers[w, r] == Merged(rows[w], bs[r], r) {
      AllWalked(rows[w], bs, r);
    }
  }

  // One database. Walking its queues while moving servers between them amounts to one
  // update of all its servers at once: every queue keeps those that stay, in order, and
  // then has those that come from the other queues of its weight, in order.
  method UpdateDb(db: Database, state: State, clock: int) returns (now: int)
    requires Registered(db) && state.Valid() && clock < FOREVER
    modifies db.servers, db.registered`role, db.registered`sicknessExp
    ensures Registered(db) && clock <= now < FOREVER
    ensures forall s | s in db.registered ::
      UpToDate(s.location, s.role, s.sicknessExp, old(s.role), old(s.sicknessExp), state.inventory, clock, now)
    ensures forall w, r | 0 <= w < 4 && 0 <= r < 3 :: db.servers[w, r] == Merged(old(Row(db, w)), WithRole(db, r), r)
  {
    hide NoDup, Elems, InPlace, Known, Keyed, Statuses, BeforeOf, UpToDate, Recorded, Staged, Stage, Merged, Walked,
      Bound, WithRole;
    ghost var before, rows := BeforeOf(db), RowsOf(db);
    ghost var bs := [Bound(before, state.inventory, 0), Bound(before, state.inventory, 1),
                     Bound(before, state.inventory, 2)];
    BeforeAt(db);
    AllToCome(db, state.inventory, clock);
    StageStart(db, rows, bs);
    now := clock;
    for iweight := 0 to 4
      invariant Registered(db) && clock <= now < FOREVER
      invariant Statuses(BeforeOf(db), before, state.inventory, clock, now, iweight, -1, [])
      invariant Staged(db, rows, bs, iweight, 0)
    {
      for irole := 0 to 3
        invariant Registered(db) && clock <= now < FOREVER
        invariant Statuses(BeforeOf(db), before, state.inventory, clock, now, iweight, irole - 1, [])
        invariant Staged(db, rows, bs, iweight, irole)
      {
        ghost var queues := RowsOf(db);
        EnterQueue(db, before, state.inventory, clock, now, iweight, irole);
        BeforeWalk(db, queues, rows, bs, iweight, irole);
        now := WalkQueue(db, state, iweight, irole, before, clock, now);
        AfterWalk(db, queues, rows, bs, iweight, irole);
      }
      BeforeAt(db);
      StatusesMean(BeforeOf(db), before, state.inventory, clock, now, iweight, 2, [], iweight + 1, -1, []);
      StageWeight(db, rows, bs, iweight);
    }
    NobodyToCome(db, before, state.inventory, clock, now);
    BoundIsRole(db, before, state.inventory, clock, now);
    QueuesMerged(db, rows, before, state.inventory);
  }

  ghost predicate Separate(dbs: seq<Database>) {
    forall i, j | 0 <= i < j < |dbs| :: dbs[i] != dbs[j] && dbs[i].servers != dbs[j].servers
  }

  ghost function ServersOf(dbs: seq<Database>): set<RedisServer>
    reads dbs
  {
    set db, s | db in dbs && s in db.registered :: s
  }

  // A database whose turn has come, or not.
  ghost predicate DbStatus(db: Database, before: map<RedisServer, Before>, inventory: map<Key, Info>, start: int,
                           end: int, done: bool)
    reads db`registered, db.registered`role, db.registered`sicknessExp
  {
    forall s | s in db.registered :: s in before &&
      if done && !db.clustered
      then UpToDate(s.location, s.role, s.sicknessExp, before[s].role, before[s].exp, inventory, start, end)
      else s.role == before[s].role && s.sicknessExp == before[s].exp
  }

  lemma DbLater(db: Database, before: map<RedisServer, Before>, inventory: map<Key, Info>, start: int, end: int,
                later: int, done: bool)
    requires DbStatus(db, before, inventory, start, end, done) && end <= later
    ensures DbStatus(db, before, inventory, start, later, done)
  {
  }

  lemma OthersApart(dbs: seq<Database>, i: nat)
    requires i < |dbs| && Separate(dbs) && forall db | db in dbs :: Registered(db)
    ensures forall j | 0 <= j < |dbs| && j != i ::
      dbs[j] != dbs[i] && dbs[j].servers != dbs[i].servers && dbs[j].registered !! dbs[i].registered
  {
    hide InPlace, NoDup, Elems;
    forall j | 0 <= j < |dbs| && j != i
      ensures dbs[j] != dbs[i] && dbs[j].servers != dbs[i].servers && dbs[j].registered !! dbs[i].registered
    {
      assert dbs[j] in dbs && dbs[i] in dbs;
      assert Registered(dbs[j]) && Registered(dbs[i]);
    }
  }

  lemma TurnCome(db: Database, before: map<RedisServer, Before>, inventory: map<Key, Info>, start: int, end: int)
    requires DbStatus(db, before, inventory, start, end, false)
    ensures forall s | s in db.registered :: s in before && s.role == before[s].role && s.sicknessExp == before[s].exp
    ensures db.clustered ==> DbStatus(db, before, inventory, start, end, true)
  {
  }

  lemma TurnDone(db: Database, before: map<RedisServer, Before>, inventory: map<Key, Info>, start: int, clock: int,
                 now: int)
    requires start <= clock && !db.clustered
    requires forall s | s in db.registered ::
      s in before && UpToDate(s.location, s.role, s.sicknessExp, before[s].role, before[s].exp, inventory, clock, now)
    ensures DbStatus(db, before, inventory, start, now, true)
  {
    forall s | s in db.registered
      ensures UpToDate(s.location, s.role, s.sicknessExp, before[s].role, before[s].exp, inventory, start, now)
    {
      SoonerStill(s.location, s.role, s.sicknessExp, before[s].role, before[s].exp, inventory, start, clock, now);
    }
  }

  // The queues of a database whose turn has come, or not.
  ghost predicate QueueStatus(db: Database, rows: seq<seq<seq<RedisServer>>>, done: bool)
    requires Shaped(db)
    reads db.servers, db`registered, db.registered`role
  {
    && Rows(rows)
    && forall w, r | 0 <= w < 4 && 0 <= r < 3 ::
      db.servers[w, r] == if done && !db.clustered then Merged(rows[w], WithRole(db, r), r) else rows[w][r]
  }

  lemma QueuesCome(db: Database, rows: seq<seq<seq<RedisServer>>>)
    requires Shaped(db) && QueueStatus(db, rows, false)
    ensures Rows(rows) && forall w | 0 <= w < 4 :: Row(db, w) == rows[w]
    ensures db.clustered ==> QueueStatus(db, rows, true)
  {
    hide Merged, WithRole;
  }

  lemma QueuesDone(db: Database, rows: seq<seq<seq<RedisServer>>>)
    requires Shaped(db) && Rows(rows)
    requires forall w, r | 0 <= w < 4 && 0 <= r < 3 :: db.servers[w, r] == Merged(rows[w], WithRole(db, r), r)
    ensures !db.clustered ==> QueueStatus(db, rows, true)
  {
    hide Merged, WithRole;
  }

  // The turn of one database: the others do not notice.
  method Turn(dbs: seq<Database>, i: nat, state: State, ghost before: map<RedisServer, Before>,
              ghost queues: seq<seq<seq<seq<RedisServer>>>>, ghost start: int, clock: int)
    returns (now: int)
    requires i < |dbs| == |queues| && state.Valid() && start <= clock < FOREVER && Separate(dbs)
    requires forall db | db in dbs :: Registered(db)
    requires forall j | 0 <= j < |dbs| :: DbStatus(dbs[j], before, state.inventory, start, clock, j < i)
    requires forall j | 0 <= j < |dbs| :: Registered(dbs[j]) && QueueStatus(dbs[j], queues[j], j < i)
    modifies dbs[i].servers, dbs[i].registered`role, dbs[i].registered`sicknessExp
    ensures clock <= now < FOREVER
    ensures forall db | db in dbs :: Registered(db)
    ensures forall j | 0 <= j < |dbs| :: DbStatus(dbs[j], before, state.inventory, start, now, j < i + 1)
    ensures forall j | 0 <= j < |dbs| :: Registered(dbs[j]) && QueueStatus(dbs[j], queues[j], j < i + 1)
  {
    hide InPlace, Known, Keyed, Recorded, UpToDate, DbStatus, Separate, QueueStatus, Merged, WithRole, Row;
    OthersApart(dbs, i);
    var db := dbs[i];
    now := clock;
    TurnCome(db, before, state.inventory, start, clock);
    QueuesCome(db, queues[i]);
    if !db.clustered {
      now := UpdateDb(db, state, clock);
      TurnDone(db, before, state.inventory, start, clock, now);
      QueuesDone(db, queues[i]);
    }
    forall j | 0 <= j < |dbs| && j != i
      ensures DbStatus(dbs[j], before, state.inventory, start, now, j < i + 1)
    {
      DbLater(dbs[j], before, state.inventory, start, clock, now, j < i);
    }
  }

  // Every database in turn. Those of clusters are left alone.
  method UpdateDbs(dbs: seq<Database>, state: State, ghost before: map<RedisServer, Before>,
                   ghost queues: seq<seq<seq<seq<RedisServer>>>>, clock: int)
    returns (now: int)
    requires state.Valid() && clock < FOREVER && Separate(dbs)
    requires |queues| == |dbs|
    requires forall j | 0 <= j < |dbs| :: Registered(dbs[j]) && QueueStatus(dbs[j], queues[j], false)
    requires forall j | 0 <= j < |dbs| :: DbStatus(dbs[j], before, state.inventory, clock, clock, false)
    modifies (set db | db in dbs :: db.servers), ServersOf(dbs)`role, ServersOf(dbs)`sicknessExp
    ensures clock <= now < FOREVER
    ensures forall j | 0 <= j < |dbs| :: Registered(dbs[j]) && QueueStatus(dbs[j], queues[j], true)
    ensures forall j | 0 <= j < |dbs| :: DbStatus(dbs[j], before, state.inventory, clock, now, true)
  {
    hide InPlace, Known, Keyed, Recorded, UpToDate, DbStatus, Separate, QueueStatus;
    now := clock;
    for i := 0 to |dbs|
      invariant clock <= now < FOREVER
      invariant forall j | 0 <= j < |dbs| :: DbStatus(dbs[j], before, state.inventory, clock, now, j < i)
      invariant forall j | 0 <= j < |dbs| :: Registered(dbs[j]) && QueueStatus(dbs[j], queues[j], j < i)
    {
      now := Turn(dbs, i, state, before, queues, clock, now);
    }
  }
}
