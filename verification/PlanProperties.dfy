/** What the list of servers of a plan holds, in which order, and how plans share the load. */
module PlanProperties {
  import opened Lists
  import opened Core
  import opened Registry
  import opened Planner

  // ----- Sweeps over arbitrary queues -----

  ghost predicate Apart<T>(qs: seq<seq<T>>) {
    && (forall k | 0 <= k < |qs| :: NoDup(qs[k]))
    && forall k, l | 0 <= k < l < |qs| :: Elems(qs[k]) !! Elems(qs[l])
  }

  ghost predicate Queued<T>(qs: seq<seq<T>>, x: T) {
    exists k | 0 <= k < |qs| :: x in qs[k]
  }

  lemma {:induction false} SweepMembers<T>(qs: seq<seq<T>>, e: set<T>, x: T)
    ensures x in Sweep(qs, e) <==> x in e && Queued(qs, x)
  {
    hide Filter;
    if qs != [] {
      var k := |qs| - 1;
      SweepMembers(qs[..k], e, x);
      FilterMembers(qs[k], e);
      assert Queued(qs[..k], x) ==> Queued(qs, x) by {
        if Queued(qs[..k], x) {
          var j :| 0 <= j < k && x in qs[..k][j];
          assert x in qs[j];
        }
      }
      if Queued(qs, x) && !Queued(qs[..k], x) {
        var j :| 0 <= j < |qs| && x in qs[j];
        assert j < k ==> x in qs[..k][j];
      }
    }
  }

  // Element x stands before y: in an earlier queue, or earlier in the same one.
  ghost predicate Stands<T>(qs: seq<seq<T>>, x: T, k: int, i: int) {
    0 <= k < |qs| && 0 <= i < |qs[k]| && qs[k][i] == x
  }

  ghost predicate Precedes<T>(qs: seq<seq<T>>, x: T, y: T) {
    exists k, i, l, j :: Stands(qs, x, k, i) && Stands(qs, y, l, j) && (k < l || (k == l && i < j))
  }

  lemma {:induction false} FilterOrder<T>(q: seq<T>, e: set<T>, a: nat, b: nat) returns (i: nat, j: nat)
    requires a < b < |Filter(q, e)|
    ensures i < j < |q| && q[i] == Filter(q, e)[a] && q[j] == Filter(q, e)[b]
  {
    if q[0] !in e {
      i, j := FilterOrder(q[1..], e, a, b);
      i, j := i + 1, j + 1;
    } else if a > 0 {
      i, j := FilterOrder(q[1..], e, a - 1, b - 1);
      i, j := i + 1, j + 1;
    } else {
      i := 0;
      var y := Filter(q[1..], e)[b - 1];
      FilterMembers(q[1..], e);
      assert y in Filter(q[1..], e);
      j :| 0 <= j < |q[1..]| && q[1..][j] == y;
      j := j + 1;
    }
  }

  lemma {:induction false} SweepOrder<T>(qs: seq<seq<T>>, e: set<T>, a: nat, b: nat)
    requires a < b < |Sweep(qs, e)|
    ensures Precedes(qs, Sweep(qs, e)[a], Sweep(qs, e)[b])
  {
    hide Filter;
    var l := |qs| - 1;
    var before, last := Sweep(qs[..l], e), Filter(qs[l], e);
    var x, y := Sweep(qs, e)[a], Sweep(qs, e)[b];
    if b < |before| {
      SweepOrder(qs[..l], e, a, b);
      PrecedesMore(qs, l, x, y);
    } else if a >= |before| {
      var i, j := FilterOrder(qs[l], e, a - |before|, b - |before|);
      assert Stands(qs, x, l, i) && Stands(qs, y, l, j);
    } else {
      assert x in before && y in last;
      SweepMembers(qs[..l], e, x);
      FilterMembers(qs[l], e);
      var k :| 0 <= k < l && x in qs[..l][k];
      var i :| 0 <= i < |qs[k]| && qs[k][i] == x;
      var j :| 0 <= j < |qs[l]| && qs[l][j] == y;
      assert Stands(qs, x, k, i) && Stands(qs, y, l, j);
    }
  }

  lemma PrecedesMore<T>(qs: seq<seq<T>>, n: nat, x: T, y: T)
    requires n <= |qs| && Precedes(qs[..n], x, y)
    ensures Precedes(qs, x, y)
  {
    var k, i, l, j :| Stands(qs[..n], x, k, i) && Stands(qs[..n], y, l, j) && (k < l || (k == l && i < j));
    assert Stands(qs, x, k, i) && Stands(qs, y, l, j);
  }

  lemma PrecedesOther<T>(qs: seq<seq<T>>, x: T, y: T)
    requires Apart(qs) && Precedes(qs, x, y)
    ensures x != y
  {
    var k, i, l, j :| Stands(qs, x, k, i) && Stands(qs, y, l, j) && (k < l || (k == l && i < j));
    if k == l {
      assert NoDup(qs[k]);
    } else {
      assert x in Elems(qs[k]) && y in Elems(qs[l]);
    }
  }

  lemma SweepNoDup<T>(qs: seq<seq<T>>, e: set<T>)
    requires Apart(qs)
    ensures NoDup(Sweep(qs, e))
  {
    hide Sweep, Apart, Precedes;
    var s := Sweep(qs, e);
    forall a, b | 0 <= a < b < |s| ensures s[a] != s[b] {
      SweepOrder(qs, e, a, b);
      PrecedesOther(qs, s[a], s[b]);
    }
  }

  lemma Join<T>(s: seq<T>, t: seq<T>)
    ensures Elems(s + t) == Elems(s) + Elems(t)
    ensures NoDup(s) && NoDup(t) && Elems(s) !! Elems(t) ==> NoDup(s + t)
  {
    if NoDup(s) && NoDup(t) && Elems(s) !! Elems(t) {
      var u := s + t;
      forall i, j | 0 <= i < j < |u| ensures u[i] != u[j] {
        if i < |s| <= j {
          assert u[i] in Elems(s) && u[j] in Elems(t);
        }
      }
    }
  }

  // ----- The plan of a database -----

  lemma QueuesApart(db: Database)
    requires Registered(db)
    ensures Apart(Queues(db))
  {
    hide NoDup, Elems, Known, Queues;
    QueuesAt(db);
    var qs := Queues(db);
    forall k | 0 <= k < 12 ensures NoDup(qs[k]) {
      assert qs[k] == db.servers[k / 3, k % 3];
    }
    forall k, l | 0 <= k < l < 12 ensures Elems(qs[k]) !! Elems(qs[l]) {
      assert qs[k] == db.servers[k / 3, k % 3] && qs[l] == db.servers[l / 3, l % 3];
    }
  }

  // Every registered server is in the queue numbered by its weight and role, and nothing else is.
  lemma WhoIsQueued(db: Database, s: RedisServer)
    requires Registered(db)
    ensures Queued(Queues(db), s) <==> s in db.registered
    ensures forall k, i | Stands(Queues(db), s, k, i) :: s in db.registered && k == 3 * s.weight + s.role
  {
    hide NoDup, Elems, Queues, InPlace, Known;
    var qs := Queues(db);
    if s in db.registered {
      WhereItIs(db, s);
      NumberedQueue(db, 3 * s.weight + s.role, s);
    }
    forall k | 0 <= k < 12 && s in qs[k] ensures s in db.registered && k == 3 * s.weight + s.role {
      NumberedQueue(db, k, s);
    }
  }

  lemma NumberedQueue(db: Database, k: nat, s: RedisServer)
    requires Registered(db) && k < 12
    ensures s in Queues(db)[k] <==> s in db.registered && k == 3 * s.weight + s.role
  {
    hide NoDup, Elems, Queues, InPlace, Known;
    QueuesAt(db);
    InTheQueue(db, k / 3, k % 3, s);
    assert Queues(db)[k] == db.servers[k / 3, k % 3];
  }

  lemma InTheQueue(db: Database, w: nat, r: Role, s: RedisServer)
    requires Registered(db) && w < 4
    ensures s in db.servers[w, r] <==> s in db.registered && s.weight == w && s.role == r
  {
    hide NoDup, Known;
    assert s in db.servers[w, r] <==> s in Elems(db.servers[w, r]);
  }

  // Whom a plan can turn to.
  ghost function Candidates(db: Database, master: bool, slot: nat, now: int): set<RedisServer>
    requires slot < 16384
    reads db`registered, db.registered`role, db.registered`sicknessExp, db.registered`slots
  {
    var healthy := set s | s in db.registered && s.sicknessExp <= now && s.slots[slot] && (master ==> s.role == MASTER);
    if !db.clustered then set s | s in db.registered && (master ==> s.role == MASTER || s.role == TBD)
    else if healthy != {} then healthy
    else db.registered
  }

  lemma RoundMembers(db: Database, master: bool, slot: nat, now: int)
    requires slot < 16384
    ensures var c1, c2, c3, c4 :=
        Chosen(db, 1, master, slot, now), Chosen(db, 2, master, slot, now),
        Chosen(db, 3, master, slot, now), Chosen(db, 4, master, slot, now);
      Candidates(db, master, slot, now) == if !db.clustered then c1 + c2 else if c1 != {} then c1 else c3 + c4
    ensures forall round | 1 <= round <= 4 :: Chosen(db, round, master, slot, now) <= db.registered
  {
    var c1, c2, c3, c4 :=
      Chosen(db, 1, master, slot, now), Chosen(db, 2, master, slot, now),
      Chosen(db, 3, master, slot, now), Chosen(db, 4, master, slot, now);
    if db.clustered {
      assert c1 == set s | s in db.registered && s.sicknessExp <= now && s.slots[slot] && (master ==> s.role == MASTER);
      assert c3 + c4 == db.registered;
    }
  }

  lemma SweepIs(db: Database, e: set<RedisServer>)
    requires Registered(db) && e <= db.registered
    ensures Elems(Sweep(Queues(db), e)) == e && NoDup(Sweep(Queues(db), e))
  {
    hide NoDup, Queues, InPlace, Sweep, Known;
    QueuesApart(db);
    SweepNoDup(Queues(db), e);
    forall s | s in e ensures s in Sweep(Queues(db), e) {
      SweepMembers(Queues(db), e, s);
      WhoIsQueued(db, s);
    }
    forall s | s in Sweep(Queues(db), e) ensures s in e {
      SweepMembers(Queues(db), e, s);
    }
  }

  // A plan holds every candidate, once, and nobody else.
  lemma PlanMembers(db: Database, master: bool, slot: nat, now: int)
    requires Registered(db) && slot < 16384
    ensures NoDup(PlanOf(db, master, slot, now))
    ensures Elems(PlanOf(db, master, slot, now)) == Candidates(db, master, slot, now)
  {
    hide NoDup, Elems, Queues, InPlace, Sweep, Known, Chosen, Candidates;
    RoundMembers(db, master, slot, now);
    RoundsApart(db, master, slot, now);
    var qs := Queues(db);
    var c1, c2 := Chosen(db, 1, master, slot, now), Chosen(db, 2, master, slot, now);
    var c3, c4 := Chosen(db, 3, master, slot, now), Chosen(db, 4, master, slot, now);
    SweepIs(db, c1);
    SweepIs(db, c2);
    SweepIs(db, c3);
    SweepIs(db, c4);
    Join(Sweep(qs, c1), Sweep(qs, c2));
    Join(Sweep(qs, c3), Sweep(qs, c4));
    NoElems(Sweep(qs, c1));
  }

  lemma NoElems<T>(s: seq<T>)
    ensures Elems(s) == {} <==> s == []
  {
    if s != [] {
      assert s[0] in Elems(s);
    }
  }

  // The order within a round: by weight, then by role, then as they stand in their queue.
  ghost predicate Before(db: Database, s: RedisServer, t: RedisServer)
    requires Shaped(db)
    reads db.servers, s`weight, s`role, t`weight, t`role
  {
    || s.weight < t.weight
    || (s.weight == t.weight && s.role < t.role)
    || (s.weight == t.weight < 4 && s.role == t.role && Earlier(db.servers[s.weight, s.role], s, t))
  }

  ghost predicate Earlier<T>(q: seq<T>, s: T, t: T) {
    exists i, j :: 0 <= i < j < |q| && q[i] == s && q[j] == t
  }

  lemma BeforeInQueues(db: Database, s: RedisServer, t: RedisServer)
    requires Registered(db) && Precedes(Queues(db), s, t)
    ensures Before(db, s, t)
  {
    hide Queues, InPlace, Known;
    var qs := Queues(db);
    var k, i, l, j :| Stands(qs, s, k, i) && Stands(qs, t, l, j) && (k < l || (k == l && i < j));
    WhoIsQueued(db, s);
    WhoIsQueued(db, t);
    QueuesAt(db);
    if k == l {
      assert s.weight < 4 by { WhereItIs(db, s); }
      assert db.servers[s.weight, s.role] == qs[k];
    }
  }

  lemma OneSweep(db: Database, c: set<RedisServer>, a: nat, b: nat)
    requires Registered(db) && a < b < |Sweep(Queues(db), c)|
    ensures Sweep(Queues(db), c)[a] in c && Sweep(Queues(db), c)[b] in c
    ensures Before(db, Sweep(Queues(db), c)[a], Sweep(Queues(db), c)[b])
  {
    hide NoDup, Elems, Queues, Sweep, InPlace, Known, Precedes, Before;
    var s := Sweep(Queues(db), c);
    SweepMembers(Queues(db), c, s[a]);
    SweepMembers(Queues(db), c, s[b]);
    SweepOrder(Queues(db), c, a, b);
    BeforeInQueues(db, s[a], s[b]);
  }

  lemma TwoSweeps(db: Database, c: set<RedisServer>, d: set<RedisServer>, a: nat, b: nat)
    requires Registered(db) && a < b < |Sweep(Queues(db), c) + Sweep(Queues(db), d)|
    ensures
      var both := Sweep(Queues(db), c) + Sweep(Queues(db), d);
      || (both[a] in c && both[b] in c && Before(db, both[a], both[b]))
      || (both[a] in c && both[b] in d)
      || (both[a] in d && both[b] in d && Before(db, both[a], both[b]))
  {
    hide NoDup, Elems, Queues, Sweep, InPlace, Known, Precedes, Before;
    var s, t := Sweep(Queues(db), c), Sweep(Queues(db), d);
    if b < |s| {
      OneSweep(db, c, a, b);
    } else if a >= |s| {
      OneSweep(db, d, a - |s|, b - |s|);
    } else {
      SweepMembers(Queues(db), c, s[a]);
      SweepMembers(Queues(db), d, t[b - |s|]);
    }
  }

  // ----- The order in plain terms -----

  // Whom a plan tries first: the healthy, and outside a cluster, if a master is wanted, only
  // the masters among them.
  ghost predicate Preferred(db: Database, master: bool, now: int, s: RedisServer)
    reads s`sicknessExp, s`role
  {
    s.sicknessExp <= now && (master && !db.clustered ==> s.role == MASTER)
  }

  ghost predicate InOrder(db: Database, master: bool, now: int, s: RedisServer, t: RedisServer)
    requires Shaped(db)
    reads db.servers, s, t
  {
    && (Preferred(db, master, now, t) ==> Preferred(db, master, now, s))
    && ((Preferred(db, master, now, s) <==> Preferred(db, master, now, t)) ==> Before(db, s, t))
  }

  lemma RoundsPrefer(db: Database, master: bool, slot: nat, now: int)
    requires slot < 16384
    ensures !db.clustered ==>
      && (forall s | s in Chosen(db, 1, master, slot, now) :: Preferred(db, master, now, s))
      && (forall s | s in Chosen(db, 2, master, slot, now) :: !Preferred(db, master, now, s))
    ensures db.clustered ==>
      && (forall s | s in Chosen(db, 1, master, slot, now) :: Preferred(db, master, now, s))
      && (forall s | s in Chosen(db, 3, master, slot, now) :: Preferred(db, master, now, s))
      && (forall s | s in Chosen(db, 4, master, slot, now) :: !Preferred(db, master, now, s))
  {
  }

  // Whoever is preferred comes first; those that are alike in this stand in the order of the
  // queues. In terms of the rounds, a plan is sorted by round and then in that order.
  lemma PlanOrder(db: Database, master: bool, slot: nat, now: int, a: nat, b: nat)
    requires Registered(db) && slot < 16384 && a < b < |PlanOf(db, master, slot, now)|
    ensures InOrder(db, master, now, PlanOf(db, master, slot, now)[a], PlanOf(db, master, slot, now)[b])
    ensures
      var s, t := PlanOf(db, master, slot, now)[a], PlanOf(db, master, slot, now)[b];
      exists i, j | 1 <= i <= j <= 4 ::
        s in Chosen(db, i, master, slot, now) && t in Chosen(db, j, master, slot, now) && (i == j ==> Before(db, s, t))
  {
    hide NoDup, Elems, Queues, Sweep, InPlace, Known, Chosen, Before, Preferred;
    RoundsPrefer(db, master, slot, now);
    var qs := Queues(db);
    var c1, c2 := Chosen(db, 1, master, slot, now), Chosen(db, 2, master, slot, now);
    var c3, c4 := Chosen(db, 3, master, slot, now), Chosen(db, 4, master, slot, now);
    if !db.clustered {
      TwoSweeps(db, c1, c2, a, b);
    } else if Sweep(qs, c1) != [] {
      OneSweep(db, c1, a, b);
    } else {
      TwoSweeps(db, c3, c4, a, b);
    }
  }

  lemma OneWay(db: Database, master: bool, now: int, s: RedisServer, t: RedisServer)
    requires Registered(db)
    ensures !(InOrder(db, master, now, s, t) && InOrder(db, master, now, t, s))
  {
    hide Preferred, Known;
  }

  ghost predicate Ordered(db: Database, master: bool, now: int, list: seq<RedisServer>)
    requires Shaped(db)
    reads db.servers, list
  {
    forall a, b | 0 <= a < b < |list| :: InOrder(db, master, now, list[a], list[b])
  }

  // The plan is the one list of all candidates, without duplicates, that is in this order.
  lemma OnlyPlan(db: Database, master: bool, slot: nat, now: int, list: seq<RedisServer>)
    requires Registered(db) && slot < 16384
    ensures
      list == PlanOf(db, master, slot, now) <==>
        && NoDup(list) && Elems(list) == Candidates(db, master, slot, now)
        && Ordered(db, master, now, list)
  {
    hide PlanOf, InPlace, Known, Candidates, InOrder, NoDup, Elems;
    var plan := PlanOf(db, master, slot, now);
    PlanMembers(db, master, slot, now);
    forall a, b | 0 <= a < b < |plan| ensures InOrder(db, master, now, plan[a], plan[b]) {
      PlanOrder(db, master, slot, now, a, b);
    }
    if NoDup(list) && Elems(list) == Candidates(db, master, slot, now) && Ordered(db, master, now, list) {
      SameOrder(db, master, now, list, plan, |list|);
      SameOrder(db, master, now, plan, list, |plan|);
    }
  }

  lemma {:induction false} SameOrder(db: Database, master: bool, now: int, p: seq<RedisServer>, q: seq<RedisServer>,
                                     k: nat)
    requires Registered(db) && NoDup(p) && NoDup(q) && Elems(p) == Elems(q)
    requires Ordered(db, master, now, p) && Ordered(db, master, now, q) && k <= |p|
    ensures k <= |q| && p[..k] == q[..k]
  {
    hide InPlace, Known, InOrder, NoDup, Elems;
    if k > 0 {
      var n := k - 1;
      SameOrder(db, master, now, p, q, n);
      var j := Place(q, p[n], p, n);
      var i := Place(p, q[n], q, n);
      OneWay(db, master, now, p[n], q[n]);
      assert p[..k] == p[..n] + [p[n]] && q[..k] == q[..n] + [q[n]];
    }
  }

  // Where an element of p stands in q, if both begin alike.
  lemma Place<T>(q: seq<T>, x: T, p: seq<T>, n: nat) returns (j: nat)
    requires NoDup(p) && Elems(p) == Elems(q) && n < |p| && x == p[n] && n <= |q| && p[..n] == q[..n]
    ensures n <= j < |q| && q[j] == x
  {
    assert x in Elems(p);
    j :| 0 <= j < |q| && q[j] == x;
    assert forall i | 0 <= i < n :: p[i] == p[..n][i] == q[i];
  }

  // ----- What a plan does to the queues -----

  // A server for which round one is meant.
  ghost predicate RoundOne(db: Database, master: bool, slot: nat, now: int, s: RedisServer)
    requires slot < 16384
    reads s
  {
    s.sicknessExp <= now && (db.clustered ==> s.slots[slot]) && (master ==> s.role == MASTER)
  }

  // The servers of round one that a plan takes from a queue.
  ghost predicate TakenFrom(db: Database, q: seq<RedisServer>, list: seq<RedisServer>, master: bool, slot: nat,
                            now: int, i: nat)
    requires slot < 16384 && i < |list|
    reads list
  {
    list[i] in q && RoundOne(db, master, slot, now, list[i])
  }

  // From each queue, the first of them is moved to the tail; a queue without any stays as it is.
  lemma QueuesAfter(db: Database, master: bool, slot: nat, now: int, limit: nat, w: nat, r: Role)
    requires Registered(db) && slot < 16384 && w < 4
    ensures
      var q, list := db.servers[w, r], Take(PlanOf(db, master, slot, now), limit);
      var after := Rotated(Queues(db), Chosen(db, 1, master, slot, now), limit)[3 * w + r];
      && ((forall i | 0 <= i < |list| :: !TakenFrom(db, q, list, master, slot, now, i)) ==> after == q)
      && (forall i | 0 <= i < |list| && TakenFrom(db, q, list, master, slot, now, i)
                     && (forall j | 0 <= j < i :: !TakenFrom(db, q, list, master, slot, now, j)) ::
            after == Remove(q, list[i]) + [list[i]])
  {
    hide NoDup, Elems, InPlace, Known, Queues, Chosen, Sweep, Filter, Take, FullPlan, RoundOne, Remove;
    var qs, e := Queues(db), Chosen(db, 1, master, slot, now);
    var k := 3 * w + r;
    QueuesAt(db);
    QueuesApart(db);
    var plan := PlanOf(db, master, slot, now);
    forall s | s in plan ensures s in e <==> RoundOne(db, master, slot, now, s) {
      RoundOneIs(db, master, slot, now, s);
    }
    RoundOneFirst(db, master, slot, now);
    TakeIsPrefix(plan, limit);
    var list := Take(plan, limit);
    forall i | 0 <= i < |list|
      ensures TakenFrom(db, qs[k], list, master, slot, now, i) <==> list[i] in qs[k] && list[i] in e
    {
    }
    FirstTaken(qs, e, plan, limit, k);
  }

  lemma TakeIsPrefix<T>(s: seq<T>, n: nat)
    ensures Take(s, n) <= s && forall i | 0 <= i < |Take(s, n)| :: Take(s, n)[i] in s
  {
  }

  lemma RoundOneIs(db: Database, master: bool, slot: nat, now: int, s: RedisServer)
    requires Registered(db) && slot < 16384 && s in PlanOf(db, master, slot, now)
    ensures s in Chosen(db, 1, master, slot, now) <==> RoundOne(db, master, slot, now, s)
  {
    hide NoDup, InPlace, PlanOf, Known;
    PlanMembers(db, master, slot, now);
    assert s in Elems(PlanOf(db, master, slot, now));
  }

  // A plan begins with what round one finds, and nobody else in it is for round one.
  lemma RoundOneFirst(db: Database, master: bool, slot: nat, now: int)
    requires Registered(db) && slot < 16384
    ensures var plan, sweep := PlanOf(db, master, slot, now), Sweep(Queues(db), Chosen(db, 1, master, slot, now));
      && sweep <= plan
      && forall i | |sweep| <= i < |plan| :: plan[i] !in Chosen(db, 1, master, slot, now)
  {
    hide NoDup, Queues, InPlace, Sweep, Known, Chosen, Elems;
    var qs := Queues(db);
    var c1, c2 := Chosen(db, 1, master, slot, now), Chosen(db, 2, master, slot, now);
    RoundMembers(db, master, slot, now);
    RoundsApart(db, master, slot, now);
    SweepIs(db, c1);
    SweepIs(db, c2);
    SweepContents(qs, c1);
    SweepContents(qs, c2);
    NoElems(Sweep(qs, c1));
  }

  lemma SweepContents<T>(qs: seq<seq<T>>, e: set<T>)
    ensures forall i | 0 <= i < |Sweep(qs, e)| :: Sweep(qs, e)[i] in e
  {
    forall i | 0 <= i < |Sweep(qs, e)| ensures Sweep(qs, e)[i] in e {
      SweepMembers(qs, e, Sweep(qs, e)[i]);
    }
  }

  lemma FirstTaken<T>(qs: seq<seq<T>>, e: set<T>, plan: seq<T>, limit: nat, k: nat)
    requires Apart(qs) && k < |qs| && Sweep(qs, e) <= plan
    requires forall i | |Sweep(qs, e)| <= i < |plan| :: plan[i] !in e
    ensures
      var list, after := Take(plan, limit), Rotated(qs, e, limit)[k];
      && ((forall i | 0 <= i < |list| :: !(list[i] in qs[k] && list[i] in e)) ==> after == qs[k])
      && (forall i | 0 <= i < |list| && list[i] in qs[k] && list[i] in e
                     && (forall j | 0 <= j < i :: !(list[j] in qs[k] && list[j] in e)) ::
            after == Remove(qs[k], list[i]) + [list[i]])
  {
    hide Filter, Sweep, Rotated1, Remove, Apart;
    var list, before, here := Take(plan, limit), Sweep(qs[..k], e), Filter(qs[k], e);
    var m := |before|;
    SweepSplit(qs, e, k + 1);
    SweepNext(qs, e, k);
    assert Sweep(qs, e)[..m] == before;
    NotHere(qs, e, k);
    forall i | 0 <= i < m && i < |list| ensures list[i] !in qs[k] {
      assert list[i] == Sweep(qs, e)[i] == before[i];
    }
    Rotated1Is(qs[k], e, limit - m);
    if limit > m && here != [] {
      assert Sweep(qs, e)[m] == here[0] && m < |list| && list[m] == here[0];
      FilterMembers(qs[k], e);
      assert here[0] in here;
    } else if here == [] {
      FilterMembers(qs[k], e);
      forall i | 0 <= i < |list| ensures !(list[i] in qs[k] && list[i] in e) {
      }
    }
  }

  lemma Rotated1Is<T>(q: seq<T>, e: set<T>, n: int)
    ensures Rotated1(q, e, n) ==
      if n > 0 && Filter(q, e) != [] then Remove(q, Filter(q, e)[0]) + [Filter(q, e)[0]] else q
  {
  }

  // Nobody from an earlier queue stands in this one.
  lemma NotHere<T>(qs: seq<seq<T>>, e: set<T>, k: nat)
    requires Apart(qs) && k < |qs|
    ensures forall i | 0 <= i < |Sweep(qs[..k], e)| :: Sweep(qs[..k], e)[i] !in qs[k]
  {
    hide Sweep, NoDup;
    forall i | 0 <= i < |Sweep(qs[..k], e)| ensures Sweep(qs[..k], e)[i] !in qs[k] {
      var x := Sweep(qs[..k], e)[i];
      SweepMembers(qs[..k], e, x);
      var l :| 0 <= l < k && x in qs[..k][l];
      assert x in Elems(qs[l]);
      assert x in qs[k] ==> x in Elems(qs[k]);
    }
  }

  // ----- Sharing the load -----

  // What round one finds in the first queue that has something for it.
  function First<T(==)>(qs: seq<seq<T>>, e: set<T>): seq<T> {
    if qs == [] then [] else if Filter(qs[0], e) != [] then Filter(qs[0], e) else First(qs[1..], e)
  }

  function Turned<T>(s: seq<T>, k: nat): (r: seq<T>)
    requires k <= |s|
    ensures |r| == |s|
  {
    s[k..] + s[..k]
  }

  // The queues after plans with these limits.
  function After<T(==)>(qs: seq<seq<T>>, e: set<T>, limits: seq<nat>): (r: seq<seq<T>>)
    ensures |r| == |qs|
  {
    if limits == [] then qs else Rotated(After(qs, e, limits[..|limits| - 1]), e, limits[|limits| - 1])
  }

  lemma {:induction false} FirstOfSweep<T>(qs: seq<seq<T>>, e: set<T>)
    ensures First(qs, e) <= Sweep(qs, e)
    ensures First(qs, e) == [] <==> Sweep(qs, e) == []
  {
    if qs != [] {
      FirstOfSweep(qs[1..], e);
      SweepSplit(qs, e, 1);
      SweepNext(qs, e, 0);
    }
  }

  // Dropping an empty queue in front changes nothing for the others.
  lemma RotatedTail<T>(qs: seq<seq<T>>, e: set<T>, n: int)
    requires qs != [] && Filter(qs[0], e) == []
    ensures Rotated(qs, e, n) == [qs[0]] + Rotated(qs[1..], e, n)
  {
    hide Filter, Rotated1, Sweep;
    var r, t := Rotated(qs, e, n), Rotated(qs[1..], e, n);
    assert Rotated1(qs[0], e, n) == qs[0] by { NothingRotated(qs[0], e, n); }
    NoSweep(qs[..0], e);
    forall k | 0 < k < |qs| ensures r[k] == t[k - 1] {
      SweepTail(qs[..k], e);
      assert qs[..k][1..] == qs[1..][..k - 1];
    }
  }

  lemma NothingRotated<T>(q: seq<T>, e: set<T>, n: int)
    requires Filter(q, e) == []
    ensures Rotated1(q, e, n) == q
  {
  }

  lemma NoSweep<T>(qs: seq<seq<T>>, e: set<T>)
    requires qs == []
    ensures Sweep(qs, e) == []
  {
  }

  lemma SweepTail<T>(qs: seq<seq<T>>, e: set<T>)
    requires qs != [] && Filter(qs[0], e) == []
    ensures Sweep(qs, e) == Sweep(qs[1..], e)
  {
    SweepSplit(qs, e, 1);
    SweepNext(qs, e, 0);
  }

  lemma {:induction false} FirstRotated<T>(qs: seq<seq<T>>, e: set<T>, n: int)
    requires n > 0 && First(qs, e) != []
    ensures First(Rotated(qs, e, n), e) == Turned(First(qs, e), 1)
  {
    hide Filter;
    var r := Rotated(qs, e, n);
    if Filter(qs[0], e) != [] {
      FilterRotate(qs[0], e);
      assert qs[..0] == [];
      assert r[0] == Rotated1(qs[0], e, n);
    } else {
      RotatedTail(qs, e, n);
      FirstRotated(qs[1..], e, n);
      assert r[0] == qs[0] && r[1..] == Rotated(qs[1..], e, n);
    }
  }

  // The choices of the first queue after any number of plans.
  lemma {:induction false} FirstAfter<T>(qs: seq<seq<T>>, e: set<T>, limits: seq<nat>)
    requires First(qs, e) != []
    requires forall i | 0 <= i < |limits| :: limits[i] > 0
    ensures First(After(qs, e, limits), e) == Turned(First(qs, e), |limits| % |First(qs, e)|)
  {
    hide Filter, Rotated, First, Turned;
    var f := First(qs, e);
    if limits != [] {
      var n := |limits| - 1;
      FirstAfter(qs, e, limits[..n]);
      FirstRotated(After(qs, e, limits[..n]), e, limits[n]);
      var j := n % |f|;
      NextTurn(n, |f|);
      TurnedAgain(f, j);
    } else {
      NotTurned(f);
    }
  }

  lemma NotTurned<T>(s: seq<T>)
    requires s != []
    ensures 0 % |s| == 0 && Turned(s, 0) == s
  {
    DivMod(0, |s|, 0, 0);
    calc { Turned(s, 0); s[0..] + s[..0]; s; }
  }

  lemma TurnedAgain<T>(s: seq<T>, j: nat)
    requires j < |s|
    ensures Turned(Turned(s, j), 1) == Turned(s, if j + 1 == |s| then 0 else j + 1)
  {
    assert s[j..] == [s[j]] + s[j + 1..] && s[..j + 1] == s[..j] + [s[j]];
    assert Turned(s, j) == [s[j]] + (s[j + 1..] + s[..j]);
    assert Turned(Turned(s, j), 1) == s[j + 1..] + s[..j] + [s[j]];
    if j + 1 == |s| {
      assert s[j + 1..] == [] && s[..j + 1] == s;
      NotTurned(s);
    }
  }

  lemma NextTurn(n: nat, k: nat)
    requires k > 0
    ensures (n + 1) % k == if n % k + 1 == k then 0 else n % k + 1
  {
    var q := n / k;
    assert n == k * q + n % k;
    if n % k + 1 == k {
      assert n + 1 == k * (q + 1);
      DivMod(n + 1, k, q + 1, 0);
    } else {
      DivMod(n + 1, k, q, n % k + 1);
    }
  }

  lemma DivMod(n: int, k: nat, q: int, r: int)
    requires k > 0 && 0 <= r < k && n == k * q + r
    ensures n % k == r
  {
    var d := n / k - q;
    assert k * d == r - n % k;
    SmallMultiple(k, d);
  }

  lemma SmallMultiple(k: int, d: int)
    ensures -k < k * d < k ==> d == 0
  {
  }

  // The list of plan number i starts with x.
  ghost predicate Heads<T>(qs: seq<seq<T>>, e: set<T>, limits: seq<nat>, more: seq<T>, i: nat, x: T)
    requires i < |limits|
  {
    var list := Take(Sweep(After(qs, e, limits[..i]), e) + more, limits[i]);
    list != [] && list[0] == x
  }

  // Server number j of the k that round one finds in its first queue heads the plans whose
  // number is j modulo k.
  lemma HeadsInTurn<T>(qs: seq<seq<T>>, e: set<T>, limits: seq<nat>, more: seq<T>, i: nat, x: T)
    requires First(qs, e) != [] && i < |limits|
    requires forall i | 0 <= i < |limits| :: limits[i] > 0
    ensures Heads(qs, e, limits, more, i, x) <==> x == First(qs, e)[i % |First(qs, e)|]
  {
    hide Filter, First, Sweep, After;
    FirstAfter(qs, e, limits[..i]);
    FirstOfSweep(After(qs, e, limits[..i]), e);
  }

  // With roles, sickness and slots fixed, over any k consecutive plans each of those k
  // servers heads exactly one.
  lemma Fair<T>(qs: seq<seq<T>>, e: set<T>, limits: seq<nat>, more: seq<T>, m: nat, x: T)
    requires NoDup(First(qs, e)) && x in First(qs, e) && m + |First(qs, e)| <= |limits|
    requires forall i | 0 <= i < |limits| :: limits[i] > 0
    ensures exists i | m <= i < m + |First(qs, e)| :: Heads(qs, e, limits, more, i, x)
    ensures forall i, j | m <= i < m + |First(qs, e)| && m <= j < m + |First(qs, e)|
                          && Heads(qs, e, limits, more, i, x) && Heads(qs, e, limits, more, j, x) :: i == j
  {
    hide First, Heads;
    var f := First(qs, e);
    var k := |f|;
    var r :| 0 <= r < k && f[r] == x;
    var i0 := m + (r - m) % k;
    SameRemainder(m, r, k);
    HeadsInTurn(qs, e, limits, more, i0, x);
    forall i, j | m <= i < m + k && m <= j < m + k && Heads(qs, e, limits, more, i, x)
                  && Heads(qs, e, limits, more, j, x)
      ensures i == j
    {
      HeadsInTurn(qs, e, limits, more, i, x);
      HeadsInTurn(qs, e, limits, more, j, x);
      CloseAndCongruent(i, j, k);
    }
  }

  lemma SameRemainder(m: nat, r: nat, k: nat)
    requires r < k
    ensures (m + (r - m) % k) % k == r
  {
    var q := (r - m) / k;
    assert r - m == k * q + (r - m) % k;
    assert m + (r - m) % k == k * (-q) + r;
    DivMod(m + (r - m) % k, k, -q, r);
  }

  lemma CloseAndCongruent(i: nat, j: nat, k: int)
    requires k > 0 && -k < i - j < k && i % k == j % k
    ensures i == j
  {
    assert i == k * (i / k) + i % k && j == k * (j / k) + j % k;
    assert i - j == k * (i / k - j / k);
    SmallMultiple(k, i / k - j / k);
  }

  // No queue gains or loses anyone by it.
  lemma {:induction false} QueuesPermuted<T>(qs: seq<seq<T>>, e: set<T>, limits: seq<nat>, k: nat)
    requires k < |qs|
    ensures multiset(After(qs, e, limits)[k]) == multiset(qs[k])
  {
    hide Rotated1, Sweep;
    if limits != [] {
      var n := |limits| - 1;
      QueuesPermuted(qs, e, limits[..n], k);
      var now := After(qs, e, limits[..n]);
      Rotated1Permuted(now[k], e, limits[n] - |Sweep(now[..k], e)|);
    }
  }

  lemma Rotated1Permuted<T>(q: seq<T>, e: set<T>, n: int)
    ensures multiset(Rotated1(q, e, n)) == multiset(q)
  {
    hide Remove, Filter;
    var f := Filter(q, e);
    if n > 0 && f != [] {
      FilterMembers(q, e);
      assert f[0] in f;
      MovedIsPermuted(q, f[0]);
    }
  }

  lemma {:induction false} MovedIsPermuted<T>(q: seq<T>, x: T)
    requires x in q
    ensures multiset(Remove(q, x) + [x]) == multiset(q)
  {
    assert q == [q[0]] + q[1..];
    if q[0] != x {
      MovedIsPermuted(q[1..], x);
      assert Remove(q, x) + [x] == [q[0]] + (Remove(q[1..], x) + [x]);
    }
  }

  // The same on a database: any number of plans for the same kind of command, while nothing
  // else happens, are headed by the servers of that queue in turn.
  method ConsecutivePlans(db: Database, master: bool, slot: nat, now: int, limits: seq<nat>)
    returns (lists: seq<seq<RedisServer>>)
    requires Registered(db) && slot < 16384
    requires forall i | 0 <= i < |limits| :: limits[i] > 0
    requires First(Queues(db), Chosen(db, 1, master, slot, now)) != []
    modifies db.servers
    ensures Registered(db) && |lists| == |limits|
    ensures Queues(db) == After(old(Queues(db)), old(Chosen(db, 1, master, slot, now)), limits)
    ensures var first := old(First(Queues(db), Chosen(db, 1, master, slot, now)));
      NoDup(first) && forall i | 0 <= i < |lists| :: lists[i] != [] && lists[i][0] == first[i % |first|]
  {
    hide NoDup, Elems, InPlace, Known, Queues, Chosen, Sweep, First, Filter, Take, Planner.PlanOf, Rotated, After;
    ghost var qs, e := Queues(db), Chosen(db, 1, master, slot, now);
    ghost var first := First(qs, e);
    FirstNoDup(db, e);
    NoPlanYet(qs, e);
    lists := [];
    for i := 0 to |limits|
      invariant Registered(db) && |lists| == i
      invariant Queues(db) == After(qs, e, limits[..i]) && Chosen(db, 1, master, slot, now) == e
      invariant forall j | 0 <= j < i :: lists[j] != [] && lists[j][0] == first[j % |first|]
    {
      FirstAfter(qs, e, limits[..i]);
      HeadOfPlan(db, master, slot, now, limits[i]);
      AfterNext(qs, e, limits, i);
      var list := PlanServers(db, master, slot, now, limits[i]);
      lists := lists + [list];
    }
    assert limits[..|limits|] == limits;
  }

  lemma NoPlanYet<T>(qs: seq<seq<T>>, e: set<T>)
    ensures After(qs, e, []) == qs
  {
  }

  lemma AfterNext<T>(qs: seq<seq<T>>, e: set<T>, limits: seq<nat>, i: nat)
    requires i < |limits|
    ensures limits[..0] == []
    ensures After(qs, e, limits[..i + 1]) == Rotated(After(qs, e, limits[..i]), e, limits[i])
  {
    assert limits[..i + 1][..i] == limits[..i];
  }

  // A plan starts with what round one finds first.
  lemma HeadOfPlan(db: Database, master: bool, slot: nat, now: int, limit: nat)
    requires Shaped(db) && slot < 16384 && limit > 0
    requires First(Queues(db), Chosen(db, 1, master, slot, now)) != []
    ensures var list := Take(PlanOf(db, master, slot, now), limit);
      list != [] && list[0] == First(Queues(db), Chosen(db, 1, master, slot, now))[0]
  {
    hide Queues, Chosen, Sweep, First;
    FirstOfSweep(Queues(db), Chosen(db, 1, master, slot, now));
  }

  lemma FirstNoDup(db: Database, e: set<RedisServer>)
    requires Registered(db)
    ensures NoDup(First(Queues(db), e))
  {
    hide NoDup, Elems, InPlace, Known, Queues, Filter;
    QueuesApart(db);
    OneOfTheQueues(Queues(db), e);
  }

  lemma {:induction false} OneOfTheQueues<T>(qs: seq<seq<T>>, e: set<T>)
    requires forall k | 0 <= k < |qs| :: NoDup(qs[k])
    ensures NoDup(First(qs, e))
  {
    hide Filter, NoDup;
    if qs == [] {
      EmptyList<T>();
    } else {
      FilterNoDup(qs[0], e);
      OneOfTheQueues(qs[1..], e);
    }
  }
}
