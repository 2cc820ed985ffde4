/** The ordered list of servers of an execution plan (populate_execution_plan of src/core.c). */
module Planner {
  import opened Lists
  import opened Core
  import opened Registry

  // ----- What a plan is -----

  // The roles a round looks at.
  predicate Considered(round: nat, master: bool, role: Role) {
    || !master
    || round > 2
    || (round == 1 && role == MASTER)
    || (round == 2 && (role == MASTER || role == TBD))
  }

  predicate Eligible(round: nat, master: bool, role: Role, sick: bool, serves: bool) {
    if round == 1 then serves && !sick
    else if round == 2 then serves && ((master && role == TBD) || sick)
    else if round == 3 then !sick
    else sick
  }

  // The servers that a round adds to a plan. In a clustered database a server serves the
  // slots assigned to it; otherwise it serves everything.
  ghost function Chosen(db: Database, round: nat, master: bool, slot: nat, now: int): set<RedisServer>
    requires slot < 16384
    reads db`registered, db.registered`role, db.registered`sicknessExp, db.registered`slots
  {
    set s | s in db.registered && Considered(round, master, s.role)
      && Eligible(round, master, s.role, s.sicknessExp > now, !db.clustered || s.slots[slot])
  }

  // The twelve queues, by weight and then by role.
  ghost function Queues(db: Database): (qs: seq<seq<RedisServer>>)
    requires Shaped(db)
    reads db.servers
    ensures |qs| == 12
  {
    [db.servers[0, 0], db.servers[0, 1], db.servers[0, 2],
     db.servers[1, 0], db.servers[1, 1], db.servers[1, 2],
     db.servers[2, 0], db.servers[2, 1], db.servers[2, 2],
     db.servers[3, 0], db.servers[3, 1], db.servers[3, 2]]
  }

  // The chosen servers by weight, role and queue order.
  function Sweep<T(==)>(qs: seq<seq<T>>, e: set<T>): seq<T> {
    if qs == [] then [] else Sweep(qs[..|qs| - 1], e) + Filter(qs[|qs| - 1], e)
  }

  function Take<T>(s: seq<T>, n: int): seq<T> {
    if n <= 0 then [] else if n < |s| then s[..n] else s
  }

  // Everything a plan could hold, in order. Rounds three and four are the last resort of a
  // clustered database: any server, whatever slots it serves.
  function FullPlan<T(==)>(qs: seq<seq<T>>, clustered: bool, e1: set<T>, e2: set<T>, e3: set<T>, e4: set<T>): seq<T> {
    if !clustered then Sweep(qs, e1) + Sweep(qs, e2)
    else if Sweep(qs, e1) != [] then Sweep(qs, e1)
    else Sweep(qs, e3) + Sweep(qs, e4)
  }

  // A queue after round one, with n places left in the plan.
  function Rotated1<T(==)>(q: seq<T>, e: set<T>, n: int): seq<T> {
    if n > 0 && Filter(q, e) != [] then Remove(q, Filter(q, e)[0]) + [Filter(q, e)[0]] else q
  }

  function Rotated<T(==)>(qs: seq<seq<T>>, e: set<T>, n: int): (r: seq<seq<T>>)
    ensures |r| == |qs|
  {
    seq(|qs|, k requires 0 <= k < |qs| => Rotated1(qs[k], e, n - |Sweep(qs[..k], e)|))
  }

  // ----- Facts about sweeps -----

  lemma {:induction false} SweepSplit<T>(qs: seq<seq<T>>, e: set<T>, k: nat)
    requires k <= |qs|
    ensures Sweep(qs, e) == Sweep(qs[..k], e) + Sweep(qs[k..], e)
    decreases |qs|
  {
    hide Filter;
    if k == |qs| {
      assert qs[..k] == qs && qs[k..] == [];
    } else {
      var n := |qs| - 1;
      SweepSplit(qs[..n], e, k);
      assert qs[..n][..k] == qs[..k] && qs[..n][k..] == qs[k..n];
      assert qs[k..][..n - k] == qs[k..n] && qs[k..][n - k] == qs[n];
      Associate(Sweep(qs[..k], e), Sweep(qs[k..n], e), Filter(qs[n], e));
    }
  }

  lemma SweepNext<T>(qs: seq<seq<T>>, e: set<T>, k: nat)
    requires k < |qs|
    ensures Sweep(qs[..k + 1], e) == Sweep(qs[..k], e) + Filter(qs[k], e)
  {
    assert qs[..k + 1][..k] == qs[..k];
  }

  lemma TakeMore<T>(s: seq<T>, t: seq<T>, n: int)
    ensures Take(s + t, n) == Take(s, n) + Take(t, n - |s|)
  {
  }

  // Rotating by one choice does not change what a disjoint choice sees.
  lemma {:induction false} SweepRotated<T>(qs: seq<seq<T>>, e: set<T>, n: int, other: set<T>)
    requires e !! other
    ensures Sweep(Rotated(qs, e, n), other) == Sweep(qs, other)
  {
    hide Filter, Rotated, Rotated1;
    if qs != [] {
      var k := |qs| - 1;
      SweepRotated(qs[..k], e, n, other);
      RotatedLast(qs, e, n);
      FilterRotated1(qs[k], e, n - |Sweep(qs[..k], e)|, other);
    }
  }

  lemma RotatedLast<T>(qs: seq<seq<T>>, e: set<T>, n: int)
    requires qs != []
    ensures var k := |qs| - 1;
      && Rotated(qs, e, n)[..k] == Rotated(qs[..k], e, n)
      && Rotated(qs, e, n)[k] == Rotated1(qs[k], e, n - |Sweep(qs[..k], e)|)
  {
    hide Sweep, Rotated1;
    var k := |qs| - 1;
    forall j | 0 <= j < k ensures Rotated(qs, e, n)[j] == Rotated(qs[..k], e, n)[j] {
      assert qs[..k][..j] == qs[..j];
    }
  }

  lemma FilterRotated1<T>(q: seq<T>, e: set<T>, n: int, other: set<T>)
    requires e !! other
    ensures Filter(Rotated1(q, e, n), other) == Filter(q, other)
  {
    if Filter(q, e) != [] {
      var x := Filter(q, e)[0];
      FilterMembers(q, e);
      assert x in Filter(q, e);
      FilterRequeue(q, x, other);
    }
  }

  lemma {:induction false} NothingToRotate<T>(qs: seq<seq<T>>, e: set<T>, n: int)
    requires Sweep(qs, e) == []
    ensures Rotated(qs, e, n) == qs
  {
    forall k | 0 <= k < |qs| ensures Filter(qs[k], e) == [] {
      SweepSplit(qs, e, k + 1);
      SweepNext(qs, e, k);
    }
  }

  // ----- The loops -----

  // The innermost loop: the eligible servers of one queue, up to a limit.
  method ScanQueue(db: Database, q: seq<RedisServer>, round: nat, master: bool, slot: nat, now: int, limit: nat,
                   ghost e: set<RedisServer>)
    returns (picked: seq<RedisServer>)
    requires slot < 16384 && limit > 0
    requires forall s | s in q :: s in e <==>
      Eligible(round, master, s.role, s.sicknessExp > now, !db.clustered || s.slots[slot])
    ensures picked == Take(Filter(q, e), limit)
  {
    hide Eligible;
    picked := [];
    for i := 0 to |q|
      invariant picked == Filter(q[..i], e) && |picked| < limit
    {
      assert q[..i + 1] == q[..i] + [q[i]];
      FilterAppend(q[..i], [q[i]], e);
      if Eligible(round, master, q[i].role, q[i].sicknessExp > now, !db.clustered || q[i].slots[slot]) {
        picked := picked + [q[i]];
        assert picked == Filter(q[..i + 1], e);
        if |picked| == limit {
          assert q == q[..i + 1] + q[i + 1..];
          FilterAppend(q[..i + 1], q[i + 1..], e);
          return;
        }
      }
    }
    assert q[..|q|] == q;
  }

  // Move a server to the tail of its queue.
  method MoveToTail(db: Database, w: nat, r: Role, s: RedisServer)
    requires Registered(db) && w < 4 && s in db.servers[w, r]
    modifies db.servers
    ensures Registered(db)
    ensures forall a, b | 0 <= a < 4 && 0 <= b < 3 ::
      db.servers[a, b] == if a == w && b == r then Remove(old(db.servers[w, r]), s) + [s] else old(db.servers[a, b])
  {
    hide NoDup, Elems, Known;
    assert s in Elems(db.servers[w, r]) by { InQueue(db.servers[w, r], s); }
    RequeuedMembers(db.servers[w, r], s, true);
    ghost var elems := Elems(db.servers[w, r]);
    assert elems - {s} + {s} == elems;
    db.servers[w, r] := Remove(db.servers[w, r], s) + [s];
  }

  lemma InQueue(q: seq<RedisServer>, s: RedisServer)
    ensures s in q <==> s in Elems(q)
  {
  }

  // The state of the queues once those before number k have been scanned.
  ghost predicate Scanned(db: Database, qs: seq<seq<RedisServer>>, rotated: seq<seq<RedisServer>>, k: nat)
    requires Shaped(db)
    reads db.servers
  {
    && |qs| == |rotated| == 12
    && forall a, b | 0 <= a < 4 && 0 <= b < 3 ::
      db.servers[a, b] == if 3 * a + b < k then rotated[3 * a + b] else qs[3 * a + b]
  }

  lemma QueuesAt(db: Database)
    requires Shaped(db)
    ensures forall a, b | 0 <= a < 4 && 0 <= b < 3 :: db.servers[a, b] == Queues(db)[3 * a + b]
  {
  }

  // One round: pick the chosen servers of every queue in turn. Round one also moves the
  // first server picked from each queue to its tail.
  method SweepRound(db: Database, round: nat, master: bool, slot: nat, now: int, limit: nat,
                    ghost qs: seq<seq<RedisServer>>, ghost e: set<RedisServer>)
    returns (picked: seq<RedisServer>)
    requires Registered(db) && slot < 16384
    requires qs == Queues(db) && e == Chosen(db, round, master, slot, now)
    modifies db.servers
    ensures Registered(db) && e == Chosen(db, round, master, slot, now)
    ensures picked == Take(Sweep(qs, e), limit)
    ensures Queues(db) == if round == 1 then Rotated(qs, e, limit) else qs
  {
    hide NoDup, Elems, Filter, Sweep, Rotated, Chosen, Eligible, Considered, Known, InPlace, Remove, Queues, Take;
    ghost var rotated := if round == 1 then Rotated(qs, e, limit) else qs;
    QueuesAt(db);
    ScannedNone(qs, e, limit);
    picked := [];
    var iweight := 0;
    ghost var k := 0;
    while iweight < 4 && |picked| < limit
      invariant 0 <= iweight <= 4 && k <= 12 && (k == 3 * iweight || |picked| >= limit)
      invariant Registered(db) && e == Chosen(db, round, master, slot, now) && Scanned(db, qs, rotated, k)
      invariant picked == Take(Sweep(qs[..k], e), limit)
    {
      var irole := 0;
      while irole < 3 && |picked| < limit
        invariant 0 <= irole <= 3 && k == 3 * iweight + irole
        invariant Registered(db) && e == Chosen(db, round, master, slot, now) && Scanned(db, qs, rotated, k)
        invariant picked == Take(Sweep(qs[..k], e), limit)
      {
        assert db.servers[iweight, irole] == qs[k];
        var more := VisitQueue(db, iweight, irole, round, master, slot, now, limit - |picked|, e);
        OneMoreQueue(qs, e, limit, k);
        picked := picked + more;
        irole := irole + 1;
        k := k + 1;
      }
      iweight := iweight + 1;
    }
    AllQueues(qs, e, limit, k);
    assert Scanned(db, qs, rotated, 12);
    ScannedAll(db, qs, rotated);
  }

  // What a round does with one queue.
  method VisitQueue(db: Database, w: nat, r: Role, round: nat, master: bool, slot: nat, now: int, limit: nat,
                    ghost e: set<RedisServer>)
    returns (more: seq<RedisServer>)
    requires Registered(db) && slot < 16384 && e == Chosen(db, round, master, slot, now)
    requires w < 4 && limit > 0
    modifies db.servers
    ensures Registered(db) && e == Chosen(db, round, master, slot, now)
    ensures more == Take(Filter(old(db.servers[w, r]), e), limit)
    ensures forall a, b | 0 <= a < 4 && 0 <= b < 3 ::
      db.servers[a, b] ==
        if a == w && b == r && round == 1 then Rotated1(old(db.servers[w, r]), e, limit) else old(db.servers[a, b])
  {
    hide NoDup, Elems, Filter, Chosen, Eligible, Considered, Known, InPlace, Remove;
    more := [];
    if Considered(round, master, r) {
      QueueChoice(db, w, r, round, master, slot, now);
      more := ScanQueue(db, db.servers[w, r], round, master, slot, now, limit, e);
      if round == 1 && more != [] {
        FilterMembers(db.servers[w, r], e);
        assert more[0] == Filter(db.servers[w, r], e)[0];
        assert more[0] in Filter(db.servers[w, r], e);
        MoveToTail(db, w, r, more[0]);
      }
    } else {
      NotConsidered(db, w, r, round, master, slot, now);
    }
  }

  lemma QueueChoice(db: Database, w: nat, r: Role, round: nat, master: bool, slot: nat, now: int)
    requires Registered(db) && slot < 16384 && w < 4 && Considered(round, master, r)
    ensures forall s | s in db.servers[w, r] ::
      s in Chosen(db, round, master, slot, now) <==>
        Eligible(round, master, s.role, s.sicknessExp > now, !db.clustered || s.slots[slot])
  {
    hide NoDup, Eligible, Known;
    forall s | s in db.servers[w, r] ensures s in db.registered && s.role == r {
      InQueue(db.servers[w, r], s);
    }
  }

  lemma NotConsidered(db: Database, w: nat, r: Role, round: nat, master: bool, slot: nat, now: int)
    requires Registered(db) && slot < 16384 && w < 4 && !Considered(round, master, r)
    ensures Filter(db.servers[w, r], Chosen(db, round, master, slot, now)) == []
  {
    hide NoDup, Eligible, Known;
    var q, e := db.servers[w, r], Chosen(db, round, master, slot, now);
    forall s | s in q ensures s !in e {
      InQueue(q, s);
    }
    NothingChosen(q, e);
  }

  lemma {:induction false} NothingChosen<T>(q: seq<T>, e: set<T>)
    requires forall s | s in q :: s !in e
    ensures Filter(q, e) == []
  {
    if q != [] {
      NothingChosen(q[1..], e);
    }
  }

  lemma ScannedNone<T>(qs: seq<seq<T>>, e: set<T>, limit: nat)
    ensures Take(Sweep(qs[..0], e), limit) == []
  {
  }

  lemma ScannedAll(db: Database, qs: seq<seq<RedisServer>>, rotated: seq<seq<RedisServer>>)
    requires Shaped(db) && Scanned(db, qs, rotated, 12)
    ensures Queues(db) == rotated
  {
  }

  lemma OneMoreQueue<T>(qs: seq<seq<T>>, e: set<T>, limit: nat, k: nat)
    requires k < |qs| && |Take(Sweep(qs[..k], e), limit)| < limit
    ensures
      var before := Take(Sweep(qs[..k], e), limit);
      && Take(Sweep(qs[..k + 1], e), limit) == before + Take(Filter(qs[k], e), limit - |before|)
      && Rotated(qs, e, limit)[k] == Rotated1(qs[k], e, limit - |before|)
  {
    hide Filter;
    SweepNext(qs, e, k);
    TakeMore(Sweep(qs[..k], e), Filter(qs[k], e), limit);
  }

  // Once the plan is full nothing more is picked or moved.
  lemma AllQueues<T>(qs: seq<seq<T>>, e: set<T>, limit: nat, k: nat)
    requires k <= |qs| && (k == |qs| || |Take(Sweep(qs[..k], e), limit)| >= limit)
    ensures Take(Sweep(qs, e), limit) == Take(Sweep(qs[..k], e), limit)
    ensures forall j | k <= j < |qs| :: Rotated(qs, e, limit)[j] == qs[j]
  {
    hide Filter, Sweep, Take;
    SweepSplit(qs, e, k);
    StillFull(Sweep(qs[..k], e), Sweep(qs[k..], e), limit);
    if k == |qs| {
      assert qs[..k] == qs;
    }
    forall j | k <= j < |qs| ensures Rotated(qs, e, limit)[j] == qs[j] {
      SweepSplit(qs[..j], e, k);
      assert qs[..j][..k] == qs[..k];
      StillFull(Sweep(qs[..k], e), Sweep(qs[..j][k..], e), limit);
    }
  }

  lemma StillFull<T>(s: seq<T>, t: seq<T>, limit: nat)
    ensures |Take(s, limit)| >= limit ==> Take(s + t, limit) == Take(s, limit) && |s + t| >= limit
  {
  }

  // ----- The plan -----

  // populate_execution_plan, once its contexts have been collected: a list of at most
  // limit servers. Round one also rotates the queues.
  method PlanServers(db: Database, master: bool, slot: nat, now: int, limit: nat) returns (list: seq<RedisServer>)
    requires Registered(db) && slot < 16384 && limit > 0
    modifies db.servers
    ensures Registered(db)
    ensures list == Take(old(PlanOf(db, master, slot, now)), limit)
    ensures Queues(db) == Rotated(old(Queues(db)), old(Chosen(db, 1, master, slot, now)), limit)
  {
    hide NoDup, Elems, Filter, Sweep, Rotated, Eligible, Considered, Known, InPlace, Take, Chosen, Queues;
    ghost var qs := Queues(db);
    ghost var e1 := Chosen(db, 1, master, slot, now);
    ghost var e2 := Chosen(db, 2, master, slot, now);
    ghost var e3 := Chosen(db, 3, master, slot, now);
    ghost var e4 := Chosen(db, 4, master, slot, now);
    RoundsApart(db, master, slot, now);
    list := SweepRound(db, 1, master, slot, now, limit, qs, e1);
    if !db.clustered {
      TakeTwo(Sweep(qs, e1), Sweep(qs, e2), limit);
      SweepRotated(qs, e1, limit, e2);
      var more := SweepRound(db, 2, master, slot, now, limit - |list|, Rotated(qs, e1, limit), e2);
      list := list + more;
    } else if list == [] {
      TakeNothing(Sweep(qs, e1), limit);
      NothingToRotate(qs, e1, limit);
      list := SweepRound(db, 3, master, slot, now, limit, qs, e3);
      TakeTwo(Sweep(qs, e3), Sweep(qs, e4), limit);
      var more := SweepRound(db, 4, master, slot, now, limit - |list|, qs, e4);
      list := list + more;
    } else {
      TakeNothing(Sweep(qs, e1), limit);
    }
  }

  ghost function PlanOf(db: Database, master: bool, slot: nat, now: int): seq<RedisServer>
    requires Shaped(db) && slot < 16384
    reads db.servers, db`registered, db.registered`role, db.registered`sicknessExp, db.registered`slots
  {
    FullPlan(Queues(db), db.clustered, Chosen(db, 1, master, slot, now), Chosen(db, 2, master, slot, now),
             Chosen(db, 3, master, slot, now), Chosen(db, 4, master, slot, now))
  }

  lemma TakeTwo<T>(s: seq<T>, t: seq<T>, n: nat)
    ensures |Take(s, n)| <= n
    ensures Take(s + t, n) == Take(s, n) + Take(t, n - |Take(s, n)|)
  {
  }

  lemma TakeNothing<T>(s: seq<T>, n: nat)
    requires n > 0
    ensures Take(s, n) == [] <==> s == []
  {
  }

  // No server is chosen in both of the rounds that fill the same plan.
  lemma RoundsApart(db: Database, master: bool, slot: nat, now: int)
    requires slot < 16384
    ensures Chosen(db, 1, master, slot, now) !! Chosen(db, 2, master, slot, now)
    ensures Chosen(db, 3, master, slot, now) !! Chosen(db, 4, master, slot, now)
  {
  }
}
