/** Who can be made to wait for a connection of the shared pool, and be passed over. */
module PoolOvertaking {
  import opened Lists
  import opened SharedPool

  // ----- Being passed over -----

  // Only these threads wait for, are woken for or hold a connection in a run.
  ghost predicate UsedBy(run: seq<State>, users: set<nat>) {
    forall i | 0 <= i < |run| :: run[i].waiting + run[i].woken + run[i].holding.Keys <= users
  }

  ghost predicate NeverServed(run: seq<State>, z: nat) {
    forall i | 0 <= i < |run| :: z !in run[i].holding
  }

  // Thread z sleeps; thread b gives a connection back, which wakes z; thread a enters the
  // mutex first and takes it; z finds nothing and sleeps again.
  ghost predicate PassedOverOnce(s0: State, s1: State, s2: State, s3: State, z: nat, max: nat) {
    && z in s0.waiting && z in s1.woken && z in s3.waiting
    && (exists b, up :: Release(s0, s1, b, up))
    && (exists a, valid, c :: a != z && Takes(s1, s2, max, a, valid, c))
    && Attempt(s2, s3, max, z, {}, Full, {})
  }

  ghost predicate Takes(s: State, s': State, max: nat, a: nat, valid: set<Ctx>, c: Ctx) {
    Attempt(s, s', max, a, valid, Took(c), {})
  }

  // The last n times three steps of a run pass over z, one after the other.
  ghost predicate PassedOver(run: seq<State>, z: nat, n: nat, max: nat) {
    if n == 0 then run != [] && z in run[|run| - 1].waiting
    else
      var k := |run|;
      && k >= 4 && PassedOverOnce(run[k - 4], run[k - 3], run[k - 2], run[k - 1], z, max)
      && PassedOver(run[..k - 3], z, n - 1, max)
  }

  ghost predicate Passed(run: seq<State>, z: nat, users: set<nat>, n: nat, max: nat) {
    Run(run, max) && UsedBy(run, users) && NeverServed(run, z) && PassedOver(run, z, n, max)
  }

  ghost predicate CanBePassedOver(users: set<nat>, n: nat, max: nat) {
    exists run, z :: Passed(run, z, users, n, max)
  }

  // ----- Nobody waits while there are connections for all -----

  // A busy connection has a holder of its own.
  lemma {:induction false} BusyAtMostHolders(busy: seq<Ctx>, holding: map<nat, Hold>)
    requires NoDup(busy) && forall c | c in busy :: exists t :: t in holding && holding[t].c == c
    ensures |busy| <= |holding.Keys|
  {
    if busy != [] {
      var n := |busy| - 1;
      assert busy[n] in busy;
      var t :| t in holding && holding[t].c == busy[n];
      var rest := holding - {t};
      forall c | c in busy[..n] ensures exists u :: u in rest && rest[u].c == c {
        assert c in busy;
        var u :| u in holding && holding[u].c == c;
        assert u in rest && rest[u].c == c;
      }
      BusyAtMostHolders(busy[..n], rest);
      assert rest.Keys == holding.Keys - {t};
    }
  }

  lemma FullMeansMore(s: State, t: nat, users: set<nat>, max: nat)
    requires Inv(s, max) && |s.pool.busy| == max && t !in s.holding
    requires s.holding.Keys <= users && t in users
    ensures |users| > max
  {
    hide NoDup;
    forall c | c in s.pool.busy ensures exists u :: u in s.holding && s.holding[u].c == c {
      assert c in Elems(s.pool.busy);
    }
    BusyAtMostHolders(s.pool.busy, s.holding);
    CardinalityMonotone(s.holding.Keys + {t}, users);
  }

  // A step puts a thread to sleep only if the pool is full.
  lemma StepSleeps(s: State, s': State, max: nat)
    requires Inv(s, max) && Step(s, s', max) && s.waiting == {} && s'.waiting != {}
    ensures |s.pool.busy| == max && exists t :: t in s'.waiting && t !in s.holding && s'.holding == s.holding
  {
    hide Inv, Section, Elems;
    assert Consistent(s.pool, max) by { ConsistentInside(s, max); }
    if t, valid, o, up :| Attempt(s, s', max, t, valid, o, up) {
      assert o == Full;
      FullSectionMeans(s.pool, s'.pool, max, valid);
      assert t in s'.waiting;
    }
  }

  lemma ConsistentInside(s: State, max: nat)
    requires Inv(s, max)
    ensures Consistent(s.pool, max)
  {
  }

  lemma FullSectionMeans(p: Pool<Ctx>, q: Pool<Ctx>, max: nat, valid: set<Ctx>)
    requires Consistent(p, max) && Section(p, q, max, valid, Full)
    ensures |p.busy| == max
  {
    SectionKeeps(p, q, max, valid, Full);
  }

  lemma {:induction false} NobodyWaits(run: seq<State>, users: set<nat>, max: nat)
    requires Run(run, max) && UsedBy(run, users) && |users| <= max
    ensures run[|run| - 1].waiting == {}
  {
    hide Step, Inv;
    var n := |run| - 1;
    if n > 0 {
      NobodyWaits(run[..n], users, max);
      EveryRunKeeps(run[..n], max);
      assert Step(run[n - 1], run[n], max);
      if run[n].waiting != {} {
        StepSleeps(run[n - 1], run[n], max);
        var t :| t in run[n].waiting && t !in run[n - 1].holding && run[n].holding == run[n - 1].holding;
        assert run[n].waiting + run[n].woken + run[n].holding.Keys <= users;
        FullMeansMore(run[n - 1], t, users, max);
      }
    }
  }

  // ----- With one thread more it happens -----

  // Numbers 0 to k - 1.
  function Numbers(k: nat): (s: seq<Ctx>)
    ensures |s| == k && forall i | 0 <= i < k :: s[i] == i
  {
    seq(k, i => i)
  }

  function Holders(ts: seq<nat>): map<nat, Hold> {
    if ts == [] then map[] else Holders(ts[..|ts| - 1])[ts[|ts| - 1] := Hold(|ts| - 1, 0)]
  }

  function Conns(k: nat): map<Ctx, Conn> {
    if k == 0 then map[] else Conns(k - 1)[k - 1 := Conn(false, 0)]
  }

  lemma {:induction false} HoldersAre(ts: seq<nat>)
    ensures forall t :: t in Holders(ts) <==> t in ts
  {
    if ts != [] {
      HoldersAre(ts[..|ts| - 1]);
      assert ts == ts[..|ts| - 1] + [ts[|ts| - 1]];
    }
  }

  lemma {:induction false} ConnsBelow(k: nat, c: Ctx)
    ensures c in Conns(k) ==> c < k
  {
    if k > 0 {
      ConnsBelow(k - 1, c);
    }
  }

  // Each of these threads holds a connection of its own, and the others wait.
  function Served(ts: seq<nat>, waiting: set<nat>): State {
    State(Pool([], Numbers(|ts|), |ts|), waiting, {}, Holders(ts), Conns(|ts|))
  }

  // One thread after the other connects.
  lemma {:induction false} AllServed(ts: seq<nat>, z: nat, users: set<nat>, max: nat) returns (run: seq<State>)
    requires NoDup(ts) && |ts| <= max && (forall t | t in ts :: t in users) && z !in ts
    ensures Run(run, max) && UsedBy(run, users) && NeverServed(run, z) && run[|run| - 1] == Served(ts, {})
  {
    hide Step;
    HoldersAre(ts);
    if ts == [] {
      run := [Served(ts, {})];
    } else {
      var n := |ts| - 1;
      var before := AllServed(ts[..n], z, users, max);
      OneMoreServed(ts, max);
      run := before + [Served(ts, {})];
      RunGoesOn(before, Served(ts, {}), users, z, max);
    }
  }

  lemma OneMoreServed(ts: seq<nat>, max: nat)
    requires NoDup(ts) && 0 < |ts| <= max
    ensures Step(Served(ts[..|ts| - 1], {}), Served(ts, {}), max)
  {
    hide Step;
    var n := |ts| - 1;
    HoldersAre(ts[..n]);
    ConnsBelow(n, n);
    assert ts[n] !in ts[..n];
    assert Numbers(n) + [n] == Numbers(n + 1);
    ConnectStep(Served(ts[..n], {}), Served(ts, {}), max, ts[n], n);
  }

  lemma RunGoesOn(run: seq<State>, s: State, users: set<nat>, z: nat, max: nat)
    requires Run(run, max) && UsedBy(run, users) && NeverServed(run, z) && Step(run[|run| - 1], s, max)
    requires s.waiting + s.woken + s.holding.Keys <= users && z !in s.holding
    ensures Run(run + [s], max) && UsedBy(run + [s], users) && NeverServed(run + [s], z)
  {
    hide Step, Init;
    var longer := run + [s];
    forall i | 0 <= i < |longer| - 1 ensures Step(longer[i], longer[i + 1], max) {
      if i < |run| - 1 {
        assert longer[i] == run[i] && longer[i + 1] == run[i + 1];
      }
    }
  }

  // All connections are busy, and the last thread sleeps.
  lemma OneSleeps(ts: seq<nat>, z: nat, users: set<nat>, max: nat) returns (run: seq<State>)
    requires NoDup(ts) && |ts| == max && (forall t | t in ts :: t in users) && z in users && z !in ts
    ensures Passed(run, z, users, 0, max) && run[|run| - 1] == Served(ts, {z})
  {
    hide Step;
    var before := AllServed(ts, z, users, max);
    HoldersAre(ts);
    SleepStep(Served(ts, {}), Served(ts, {z}), max, z);
    RunGoesOn(before, Served(ts, {z}), users, z, max);
    run := before + [Served(ts, {z})];
  }

  // The pool has just got connection n back; or the last holder has taken it again. In both
  // cases z is on its way.
  function GivenBack(ts: seq<nat>, z: nat): State
    requires ts != []
  {
    var n := |ts| - 1;
    State(Pool([n], Numbers(n), n + 1), {}, {z}, Holders(ts) - {ts[n]}, Conns(n + 1))
  }

  function TakenAgain(ts: seq<nat>, z: nat): State {
    State(Pool([], Numbers(|ts|), |ts|), {}, {z}, Holders(ts), Conns(|ts|))
  }

  // The last holder gives its connection back and takes it again before z gets there.
  lemma OneRound(ts: seq<nat>, z: nat, max: nat)
    requires NoDup(ts) && |ts| == max > 0 && z !in ts
    ensures
      var s, s1, s2 := Served(ts, {z}), GivenBack(ts, z), TakenAgain(ts, z);
      Step(s, s1, max) && Step(s1, s2, max) && Step(s2, s, max) && PassedOverOnce(s, s1, s2, s, z, max)
  {
    hide Step, Release, Attempt, Holders, Conns;
    var b := ts[max - 1];
    HolderReleases(ts, z, max);
    HolderTakes(ts, z, max);
    SleeperIsLate(ts, z, max);
    assert Takes(GivenBack(ts, z), TakenAgain(ts, z), max, b, {max - 1}, max - 1);
  }

  lemma UsersOfRound(ts: seq<nat>, z: nat, users: set<nat>)
    requires ts != [] && (forall t | t in ts :: t in users) && z in users && z !in ts
    ensures forall s | s in [Served(ts, {z}), GivenBack(ts, z), TakenAgain(ts, z)] ::
      s.waiting + s.woken + s.holding.Keys <= users && z !in s.holding
  {
    hide Holders, Conns;
    HoldersAre(ts);
  }

  lemma HolderReleases(ts: seq<nat>, z: nat, max: nat)
    requires NoDup(ts) && |ts| == max > 0 && z !in ts
    ensures Release(Served(ts, {z}), GivenBack(ts, z), ts[max - 1], {z}) && Step(Served(ts, {z}), GivenBack(ts, z), max)
  {
    var n := max - 1;
    RemoveAt(Numbers(max), n);
    assert Numbers(max)[..n] + Numbers(max)[max..] == Numbers(n);
    assert Returned(Served(ts, {z}).pool, n) == GivenBack(ts, z).pool;
    assert Release(Served(ts, {z}), GivenBack(ts, z), ts[n], {z});
  }

  lemma HolderTakes(ts: seq<nat>, z: nat, max: nat)
    requires NoDup(ts) && |ts| == max > 0 && z !in ts
    ensures Attempt(GivenBack(ts, z), TakenAgain(ts, z), max, ts[max - 1], {max - 1}, Took(max - 1), {})
    ensures Step(GivenBack(ts, z), TakenAgain(ts, z), max)
  {
    hide Step, Section;
    var n := max - 1;
    var s1, s2 := GivenBack(ts, z), TakenAgain(ts, z);
    assert ts[n] in ts;
    assert Numbers(n) + [n] == Numbers(max);
    TakeSection(s1.pool, s2.pool, max, n);
    assert s1.woken - {ts[n]} == {z};
    HoldersAgain(ts);
    ConnsSound(max);
    AttemptIsStep(s1, s2, max, ts[n], {n}, Took(n), {});
  }

  lemma TakeSection(p: Pool<Ctx>, q: Pool<Ctx>, max: nat, c: Ctx)
    requires p.free == [c] && q == Pool([], p.busy + [c], p.ncontexts)
    ensures Section(p, q, max, {c}, Took(c))
  {
    assert [c][1..] == [] && DropStale([c], {c}) == [c];
  }

  lemma HoldersAgain(ts: seq<nat>)
    requires NoDup(ts) && ts != []
    ensures (Holders(ts) - {ts[|ts| - 1]})[ts[|ts| - 1] := Hold(|ts| - 1, 0)] == Holders(ts)
  {
  }

  lemma {:induction false} ConnsSound(k: nat)
    ensures forall c | c in Conns(k) :: !Conns(k)[c].err
  {
    if k > 0 {
      ConnsSound(k - 1);
    }
  }

  lemma SleeperIsLate(ts: seq<nat>, z: nat, max: nat)
    requires |ts| == max && z !in ts
    ensures Attempt(TakenAgain(ts, z), Served(ts, {z}), max, z, {}, Full, {})
    ensures Step(TakenAgain(ts, z), Served(ts, {z}), max)
  {
    hide Step, Section;
    var s2 := TakenAgain(ts, z);
    HoldersAre(ts);
    FullSection(s2.pool, max);
    assert s2.woken - {z} == {};
    AttemptIsStep(s2, Served(ts, {z}), max, z, {}, Full, {});
  }

  lemma {:induction false} ManyRounds(ts: seq<nat>, z: nat, users: set<nat>, n: nat, max: nat) returns (run: seq<State>)
    requires NoDup(ts) && |ts| == max && (forall t | t in ts :: t in users) && z in users && z !in ts
    requires n > 0 ==> max > 0
    ensures Passed(run, z, users, n, max) && run[|run| - 1] == Served(ts, {z})
  {
    hide Step, PassedOverOnce, Run, UsedBy, NeverServed, Served, GivenBack, TakenAgain;
    if n == 0 {
      run := OneSleeps(ts, z, users, max);
    } else {
      var before := ManyRounds(ts, z, users, n - 1, max);
      var s, s1, s2 := Served(ts, {z}), GivenBack(ts, z), TakenAgain(ts, z);
      OneRound(ts, z, max);
      UsersOfRound(ts, z, users);
      RunGoesOn(before, s1, users, z, max);
      RunGoesOn(before + [s1], s2, users, z, max);
      RunGoesOn(before + [s1] + [s2], s, users, z, max);
      run := before + [s1] + [s2] + [s];
      assert run[..|run| - 3] == before;
    }
  }

  // ----- Exactly when -----

  lemma {:induction false} Listed(users: set<nat>, k: nat) returns (ts: seq<nat>)
    requires k <= |users|
    ensures NoDup(ts) && |ts| == k && forall t | t in ts :: t in users
  {
    if k == 0 {
      ts := [];
    } else {
      var few := Listed(users, k - 1);
      if forall t | t in users :: t in few {
        assert users <= Elems(few);
        CardinalityMonotone(users, Elems(few));
        ElemsSize(few);
      }
      var t :| t in users && t !in few;
      ts := few + [t];
    }
  }

  lemma {:induction false} ElemsSize(s: seq<nat>)
    ensures |Elems(s)| <= |s|
  {
    if s != [] {
      ElemsSize(s[1..]);
      assert Elems(s) == {s[0]} + Elems(s[1..]);
    }
  }

  // A thread can sleep, be woken and be passed over, any number of times in a row and without
  // ever getting a connection, if and only if more threads use the pool than connections are
  // allowed (and, to be passed over, some are).
  lemma PassedOverIffCrowded(users: set<nat>, n: nat, max: nat)
    ensures CanBePassedOver(users, n, max) <==> |users| > max && (n > 0 ==> max > 0)
  {
    hide Run, UsedBy, NeverServed, Passed;
    if |users| > max && (n > 0 ==> max > 0) {
      var all := Listed(users, max + 1);
      var ts, z := all[..max], all[max];
      assert z in all && forall t | t in ts :: t in all;
      var run := ManyRounds(ts, z, users, n, max);
      assert Passed(run, z, users, n, max);
    }
    if run, z :| Passed(run, z, users, n, max) {
      PassedMeans(run, z, users, n, max);
    }
  }

  lemma PassedMeans(run: seq<State>, z: nat, users: set<nat>, n: nat, max: nat)
    requires Passed(run, z, users, n, max)
    ensures |users| > max && (n > 0 ==> max > 0)
  {
    hide Step, Init, Section;
    if |users| <= max {
      NobodyWaits(run, users, max);
    }
    if n > 0 && max == 0 {
      var k := |run|;
      assert PassedOverOnce(run[k - 4], run[k - 3], run[k - 2], run[k - 1], z, max);
      var b, up :| Release(run[k - 4], run[k - 3], b, up);
      EveryRunKeeps(run[..k - 3], max);
      NoHolders(run[k - 4]);
    }
  }

  lemma NoHolders(s: State)
    requires Inv(s, 0)
    ensures s.holding == map[]
  {
    hide NoDup;
    assert s.pool.busy == [];
    assert Elems(s.pool.busy) == {};
    assert forall t :: t !in s.holding;
  }
}
