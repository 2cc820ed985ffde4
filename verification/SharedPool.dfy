/** The shared connection pool of one server: what one critical section does to its lists
    (lock_shared_redis_context and unlock_shared_redis_context of src/core.c), and what
    every interleaving of such sections keeps. */
module SharedPool {
  import opened Lists

  // ----- One critical section -----

  datatype Pool<C> = Pool(free: seq<C>, busy: seq<C>, ncontexts: int)

  datatype Outcome<C> = Took(c: C) | Full | Connected(made: C) | Refused

  // The free list without the stale contexts at its head.
  function DropStale<C(==)>(free: seq<C>, valid: set<C>): (r: seq<C>)
    ensures |r| <= |free|
    ensures r == free[|free| - |r|..]
    ensures forall i | 0 <= i < |free| - |r| :: free[i] !in valid
    ensures r != [] ==> r[0] in valid
  {
    if free == [] || free[0] in valid then free else DropStale(free[1..], valid)
  }

  // From entering (or re-entering) the mutex to leaving it or going to sleep.
  ghost predicate Section<C>(p: Pool<C>, q: Pool<C>, max: nat, valid: set<C>, o: Outcome<C>) {
    var rest := DropStale(p.free, valid);
    var n := p.ncontexts - (|p.free| - |rest|);
    match o
    case Took(c) => rest != [] && c == rest[0] && q == Pool(rest[1..], p.busy + [c], n)
    case Full => rest == [] && n >= max && q == Pool([], p.busy, n)
    case Connected(c) => rest == [] && n < max && q == Pool([], p.busy + [c], n + 1)
    case Refused => rest == [] && n < max && q == Pool([], p.busy, n)
  }

  // The critical section of unlock_shared_redis_context.
  function Returned<C(==)>(p: Pool<C>, c: C): Pool<C> {
    Pool(p.free + [c], Remove(p.busy, c), p.ncontexts)
  }

  ghost predicate Consistent<C>(p: Pool<C>, max: nat) {
    && p.ncontexts == |p.free| + |p.busy|
    && p.ncontexts <= max
    && NoDup(p.free) && NoDup(p.busy)
    && Elems(p.free) !! Elems(p.busy)
  }

  lemma SectionKeeps<C>(p: Pool<C>, q: Pool<C>, max: nat, valid: set<C>, o: Outcome<C>)
    requires Consistent(p, max) && Section(p, q, max, valid, o)
    requires o.Connected? ==> o.made !in Elems(p.free) + Elems(p.busy)
    ensures Consistent(q, max) && Elems(q.free) <= Elems(p.free)
    ensures o.Took? ==> o.c in valid && o.c in Elems(p.free) && q.busy == p.busy + [o.c]
    ensures o.Connected? ==> q.busy == p.busy + [o.made]
    ensures o.Refused? ==> q.busy == p.busy
    ensures o.Full? ==> q == p && p.free == [] && |p.busy| == max
  {
    hide NoDup, Elems, DropStale, Consistent;
    var rest := DropStale(p.free, valid);
    var k := |p.free| - |rest|;
    match o
    case Took(c) =>
      assert rest == p.free[k..];
      TookKeeps(p, q, max, k, c);
    case Connected(c) =>
      NoneLeftKeeps(p, Pool([], p.busy, p.ncontexts - k), max);
      MadeKeeps(Pool([], p.busy, p.ncontexts - k), q, max, c);
    case Full =>
      NoneLeftKeeps(p, q, max);
    case Refused =>
      NoneLeftKeeps(p, q, max);
  }

  lemma TookKeeps<C>(p: Pool<C>, q: Pool<C>, max: nat, k: nat, c: C)
    requires Consistent(p, max) && k < |p.free| && c == p.free[k]
    requires q == Pool(p.free[k..][1..], p.busy + [c], p.ncontexts - k)
    ensures Consistent(q, max) && Elems(q.free) <= Elems(p.free) && c in Elems(p.free)
  {
    hide NoDup, Elems;
    Suffix(p.free, k);
    Snoc(p.busy, c);
    assert p.free[k..][1..] == p.free[k + 1..];
  }

  lemma NoneLeftKeeps<C>(p: Pool<C>, q: Pool<C>, max: nat)
    requires Consistent(p, max) && q == Pool([], p.busy, p.ncontexts - |p.free|)
    ensures Consistent(q, max) && Elems(q.free) <= Elems(p.free)
    ensures q.ncontexts >= max ==> q == p && p.free == [] && |p.busy| == max
  {
    hide NoDup, Elems;
    EmptyList<C>();
    if q.ncontexts >= max {
      assert |p.free| == 0;
      assert p.free == [];
    }
  }

  lemma MadeKeeps<C>(p: Pool<C>, q: Pool<C>, max: nat, c: C)
    requires Consistent(p, max) && p.free == [] && p.ncontexts < max && c !in Elems(p.busy)
    requires q == Pool([], p.busy + [c], p.ncontexts + 1)
    ensures Consistent(q, max)
  {
    hide NoDup, Elems;
    EmptyList<C>();
    Snoc(p.busy, c);
  }

  lemma ReturnedKeeps<C>(p: Pool<C>, c: C, max: nat)
    requires Consistent(p, max) && c in Elems(p.busy)
    ensures Consistent(Returned(p, c), max)
    ensures Elems(Returned(p, c).free) == Elems(p.free) + {c} && Elems(Returned(p, c).busy) == Elems(p.busy) - {c}
  {
    hide NoDup, Elems;
    RemoveLeaves(p.busy, c);
    Snoc(p.free, c);
  }

  // ----- Threads -----

  // Contexts are numbered, too.
  type Ctx = nat

  // A thread that holds a context, and how many pipelines it has run on it.
  datatype Hold = Hold(c: Ctx, uses: nat)

  // What the client library remembers of a connection.
  datatype Conn = Conn(err: bool, unread: nat)

  // Threads are numbered. waiting: asleep in the condition variable; woken: to re-enter
  // the mutex; every other thread without a context is outside.
  datatype State = State(
    pool: Pool<Ctx>, waiting: set<nat>, woken: set<nat>, holding: map<nat, Hold>, conn: map<Ctx, Conn>)

  ghost predicate Init(s: State) {
    s == State(Pool([], [], 0), {}, {}, map[], map[])
  }

  // pthread_cond_signal wakes at least one sleeper, if there is one.
  ghost predicate Signal(s: State, s': State, up: set<nat>) {
    && up <= s.waiting
    && (s.waiting != {} ==> up != {})
    && s' == s.(waiting := s.waiting - up, woken := s.woken + up)
  }

  // No context in error passes the check of validity.
  ghost predicate Checked(s: State, valid: set<Ctx>) {
    forall c | c in valid && c in s.conn :: !s.conn[c].err
  }

  ghost predicate Attempt(s: State, s': State, max: nat, t: nat, valid: set<Ctx>, o: Outcome<Ctx>, up: set<nat>) {
    && t !in s.waiting && t !in s.holding
    && Checked(s, valid)
    && Section(s.pool, s'.pool, max, valid, o)
    && var r := s.(pool := s'.pool, woken := s.woken - {t});
    match o
    case Took(c) => s' == r.(holding := s.holding[t := Hold(c, 0)])
    case Full => s' == r.(waiting := s.waiting + {t})
    case Connected(c) =>
      && c !in s.conn
      && s' == r.(holding := s.holding[t := Hold(c, 0)], conn := s.conn[c := Conn(false, 0)])
    case Refused => Signal(r, s', up)
  }

  ghost predicate SpuriousWakeup(s: State, s': State, t: nat) {
    t in s.waiting && s' == s.(waiting := s.waiting - {t}, woken := s.woken + {t})
  }

  // One pipeline on the held connection: the first one right after the context was
  // handed out, another one (EVAL after NOSCRIPT) only if no error has been met.
  ghost predicate MayExchange(s: State, t: nat) {
    && t in s.holding && s.holding[t].c in s.conn
    && (s.holding[t].uses == 0 || !s.conn[s.holding[t].c].err)
  }

  ghost predicate Exchange(s: State, s': State, t: nat, after: Conn) {
    && MayExchange(s, t)
    && (after.err || after.unread == 0)
    && var h := s.holding[t];
    s' == s.(holding := s.holding[t := Hold(h.c, h.uses + 1)], conn := s.conn[h.c := after])
  }

  ghost predicate Release(s: State, s': State, t: nat, up: set<nat>) {
    && t in s.holding
    && Signal(s.(pool := Returned(s.pool, s.holding[t].c), holding := s.holding - {t}), s', up)
  }

  ghost predicate Step(s: State, s': State, max: nat) {
    || (exists t, valid, o, up :: Attempt(s, s', max, t, valid, o, up))
    || (exists t :: SpuriousWakeup(s, s', t))
    || (exists t, after :: Exchange(s, s', t, after))
    || (exists t, up :: Release(s, s', t, up))
  }

  // ----- What every run keeps -----

  // Each busy context is held by exactly one thread, and every held one is busy.
  ghost predicate Held(s: State) {
    && (forall t | t in s.holding :: s.holding[t].c in Elems(s.pool.busy))
    && (forall t, u | t in s.holding && u in s.holding && t != u :: s.holding[t].c != s.holding[u].c)
    && (forall c | c in Elems(s.pool.busy) :: exists t :: t in s.holding && s.holding[t].c == c)
  }

  // Unless it is in error, a connection has no unread replies when it is at rest, nor
  // when a thread is about to use it; a context just handed out is not in error.
  ghost predicate InStep(s: State) {
    && (forall c | c in Elems(s.pool.free) + Elems(s.pool.busy) ::
        c in s.conn && (s.conn[c].err || s.conn[c].unread == 0))
    && (forall t | t in s.holding && s.holding[t].uses == 0 :: s.holding[t].c in s.conn && !s.conn[s.holding[t].c].err)
  }

  ghost predicate Apart(s: State) {
    s.waiting !! s.woken && s.waiting !! s.holding.Keys && s.woken !! s.holding.Keys
  }

  // While somebody sleeps, there are as many threads on their way to the mutex as there
  // are connections that could be handed out or made.
  ghost predicate Awake(s: State, max: nat) {
    s.waiting != {} ==> max - |s.pool.busy| <= |s.woken|
  }

  ghost predicate Inv(s: State, max: nat) {
    && Consistent(s.pool, max)
    && Apart(s)
    && Held(s)
    && InStep(s)
    && Awake(s, max)
  }

  lemma SignalKeeps(s: State, s': State, up: set<nat>, max: nat)
    requires Consistent(s.pool, max) && Apart(s) && Held(s) && InStep(s) && Signal(s, s', up)
    requires s.waiting != {} ==> max - |s.pool.busy| <= |s.woken| + 1
    ensures Inv(s', max)
  {
    hide Consistent, Held, InStep;
    SamePool(s, s');
    if s.waiting != {} {
      var t :| t in up;
      assert s.woken + {t} <= s'.woken;
      CardinalityMonotone(s.woken + {t}, s'.woken);
    }
  }

  lemma SamePool(s: State, s': State)
    requires s'.pool == s.pool && s'.holding == s.holding && s'.conn == s.conn && Held(s) && InStep(s)
    ensures Held(s') && InStep(s')
  {
    hide Elems;
  }

  lemma CardinalityMonotone(a: set<nat>, b: set<nat>)
    requires a <= b
    ensures |a| <= |b|
  {
    assert b == a + (b - a);
  }

  lemma AttemptKeeps(s: State, s': State, max: nat, t: nat, valid: set<Ctx>, o: Outcome<Ctx>, up: set<nat>)
    requires Inv(s, max) && Attempt(s, s', max, t, valid, o, up)
    ensures Inv(s', max)
  {
    hide NoDup, Elems, Held, InStep, Apart, Awake, Section, Signal;
    Known(s);
    SectionKeeps(s.pool, s'.pool, max, valid, o);
    OneFewer(s.woken, t);
    match o
    case Took(c) =>
      HandOutKeeps(s, s', max, t, c);
    case Full =>
      SleepKeeps(s, s', max, t);
    case Connected(c) =>
      HandOutKeeps(s, s', max, t, c);
    case Refused =>
      var r := s.(pool := s'.pool, woken := s.woken - {t});
      RefusedKeeps(s, r, s', max, t, up);
  }

  lemma OneFewer(a: set<nat>, t: nat)
    ensures |a| <= |a - {t}| + 1
  {
    if t in a { assert a == (a - {t}) + {t}; } else { assert a == a - {t}; }
  }

  lemma SleepKeeps(s: State, s': State, max: nat, t: nat)
    requires Inv(s, max) && t !in s.holding && |s.pool.busy| == max
    requires s' == s.(waiting := s.waiting + {t}, woken := s.woken - {t})
    ensures Inv(s', max)
  {
    hide Elems, Consistent;
    SamePool(s, s');
  }

  lemma RefusedKeeps(s: State, r: State, s': State, max: nat, t: nat, up: set<nat>)
    requires Inv(s, max) && Consistent(r.pool, max) && r.pool.busy == s.pool.busy
    requires Elems(r.pool.free) <= Elems(s.pool.free)
    requires r == s.(pool := r.pool, woken := s.woken - {t}) && Signal(r, s', up)
    ensures Inv(s', max)
  {
    hide Elems, Consistent, Held, InStep, Signal;
    RefusedInStep(s, r);
    OneFewer(s.woken, t);
    SignalKeeps(r, s', up, max);
  }

  lemma Known(s: State)
    requires InStep(s)
    ensures forall c | c in Elems(s.pool.free) + Elems(s.pool.busy) ::
      c in s.conn && (s.conn[c].err || s.conn[c].unread == 0)
  {
    hide Elems;
  }

  lemma RefusedInStep(s: State, r: State)
    requires Held(s) && InStep(s) && r.pool.busy == s.pool.busy && Elems(r.pool.free) <= Elems(s.pool.free)
    requires r.holding == s.holding && r.conn == s.conn
    ensures Held(r) && InStep(r)
  {
    hide Elems;
  }

  // Thread t leaves with context c, taken from the free list or new.
  lemma HandOutKeeps(s: State, s': State, max: nat, t: nat, c: Ctx)
    requires Inv(s, max) && t !in s.waiting && t !in s.holding
    requires Consistent(s'.pool, max) && Elems(s'.pool.free) <= Elems(s.pool.free)
    requires c !in Elems(s.pool.busy) && s'.pool.busy == s.pool.busy + [c]
    requires s'.waiting == s.waiting && s'.woken == s.woken - {t} && s'.holding == s.holding[t := Hold(c, 0)]
    requires c in s'.conn && s'.conn[c] == Conn(false, 0)
    requires forall b | b in s.conn && b != c :: b in s'.conn && s'.conn[b] == s.conn[b]
    requires |s.woken| <= |s'.woken| + 1
    ensures Inv(s', max)
  {
    hide NoDup, Elems, Held, InStep, Consistent, Apart, Awake;
    Snoc(s.pool.busy, c);
    HoldOneMore(s, s', t, c);
    InStepOneMore(s, s', t, c);
    ApartOneMore(s, s', t, c);
    AwakeOneMore(s, s', max);
  }

  lemma ApartOneMore(s: State, s': State, t: nat, c: Ctx)
    requires Apart(s) && t !in s.waiting
    requires s'.waiting == s.waiting && s'.woken == s.woken - {t} && s'.holding == s.holding[t := Hold(c, 0)]
    ensures Apart(s')
  {
    assert s'.holding.Keys == s.holding.Keys + {t};
  }

  lemma AwakeOneMore(s: State, s': State, max: nat)
    requires Awake(s, max) && |s'.pool.busy| == |s.pool.busy| + 1
    requires s'.waiting == s.waiting && |s.woken| <= |s'.woken| + 1
    ensures Awake(s', max)
  {
  }

  lemma HoldOneMore(s: State, s': State, t: nat, c: Ctx)
    requires Held(s) && t !in s.holding && c !in Elems(s.pool.busy)
    requires s'.holding == s.holding[t := Hold(c, 0)] && Elems(s'.pool.busy) == Elems(s.pool.busy) + {c}
    ensures Held(s')
  {
    hide Elems;
    forall b | b in Elems(s'.pool.busy) ensures exists u :: u in s'.holding && s'.holding[u].c == b {
      if b in Elems(s.pool.busy) {
        var u :| u in s.holding && s.holding[u].c == b;
        assert u in s'.holding && s'.holding[u].c == b;
      } else {
        assert t in s'.holding && s'.holding[t].c == b;
      }
    }
  }

  lemma InStepOneMore(s: State, s': State, t: nat, c: Ctx)
    requires InStep(s) && Held(s) && c !in Elems(s.pool.busy)
    requires Elems(s'.pool.free) <= Elems(s.pool.free) && Elems(s'.pool.busy) == Elems(s.pool.busy) + {c}
    requires s'.holding == s.holding[t := Hold(c, 0)] && c in s'.conn && s'.conn[c] == Conn(false, 0)
    requires forall b | b in s.conn && b != c :: b in s'.conn && s'.conn[b] == s.conn[b]
    ensures InStep(s')
  {
    hide Elems;
  }

  lemma ReleaseKeeps(s: State, s': State, max: nat, t: nat, up: set<nat>)
    requires Inv(s, max) && Release(s, s', t, up)
    ensures Inv(s', max)
  {
    hide Elems, NoDup;
    var c := s.holding[t].c;
    RemoveLeaves(s.pool.busy, c);
    Snoc(s.pool.free, c);
    var p := Returned(s.pool, c);
    var r := s.(pool := p, holding := s.holding - {t});
    forall b | b in Elems(p.busy) ensures exists u :: u in r.holding && r.holding[u].c == b {
      var u :| u in s.holding && s.holding[u].c == b;
      assert u in r.holding && r.holding[u].c == b;
    }
    SignalKeeps(r, s', up, max);
  }

  lemma ExchangeKeeps(s: State, s': State, max: nat, t: nat, after: Conn)
    requires Inv(s, max) && Exchange(s, s', t, after)
    ensures Inv(s', max)
  {
    hide Elems, Consistent, InStep;
    assert s'.holding.Keys == s.holding.Keys;
    assert forall u | u in s.holding :: s'.holding[u].c == s.holding[u].c;
    forall b | b in Elems(s'.pool.busy) ensures exists u :: u in s'.holding && s'.holding[u].c == b {
      var u :| u in s.holding && s.holding[u].c == b;
      assert u in s'.holding && s'.holding[u].c == b;
    }
    ExchangeInStep(s, s', t, after);
  }

  lemma ExchangeInStep(s: State, s': State, t: nat, after: Conn)
    requires Held(s) && InStep(s) && Exchange(s, s', t, after)
    ensures InStep(s')
  {
    hide Elems;
  }

  lemma StepKeeps(s: State, s': State, max: nat)
    requires Inv(s, max) && Step(s, s', max)
    ensures Inv(s', max)
  {
    if t, valid, o, up :| Attempt(s, s', max, t, valid, o, up) {
      AttemptKeeps(s, s', max, t, valid, o, up);
    } else if t :| SpuriousWakeup(s, s', t) {
      assert |s'.woken| == |s.woken| + 1;
    } else if t, after :| Exchange(s, s', t, after) {
      ExchangeKeeps(s, s', max, t, after);
    } else {
      var t, up :| Release(s, s', t, up);
      ReleaseKeeps(s, s', max, t, up);
    }
  }

  ghost predicate Run(run: seq<State>, max: nat) {
    && run != [] && Init(run[0])
    && forall i | 0 <= i < |run| - 1 :: Step(run[i], run[i + 1], max)
  }

  lemma {:induction false} EveryRunKeeps(run: seq<State>, max: nat)
    requires Run(run, max)
    ensures Inv(run[|run| - 1], max)
  {
    if |run| > 1 {
      var n := |run| - 1;
      EveryRunKeeps(run[..n], max);
      assert Step(run[n - 1], run[n], max);
      StepKeeps(run[n - 1], run[n], max);
    }
  }

  // ----- What that means -----

  // A thread never turns to a connection that is in error or has unread replies. (That it
  // may come to be in error while the thread sets its timeout is part of the exchange.)
  lemma CleanWhenUsed(run: seq<State>, max: nat, t: nat)
    requires Run(run, max) && MayExchange(run[|run| - 1], t)
    ensures
      var s := run[|run| - 1];
      s.conn[s.holding[t].c] == Conn(false, 0)
  {
    hide Elems;
    EveryRunKeeps(run, max);
  }

  // Lists and count agree, and every busy context has exactly one holder.
  lemma Accounting(run: seq<State>, max: nat)
    requires Run(run, max)
    ensures
      var s := run[|run| - 1];
      && s.pool.ncontexts == |s.pool.free| + |s.pool.busy| <= max
      && NoDup(s.pool.free + s.pool.busy)
      && (forall c | c in s.pool.busy :: exists t ::
          t in s.holding && s.holding[t].c == c && forall u | u in s.holding && s.holding[u].c == c :: u == t)
  {
    EveryRunKeeps(run, max);
    var s := run[|run| - 1];
    forall c | c in s.pool.busy ensures exists t ::
        t in s.holding && s.holding[t].c == c && forall u | u in s.holding && s.holding[u].c == c :: u == t {
      assert c in Elems(s.pool.busy);
      var t :| t in s.holding && s.holding[t].c == c;
    }
    forall i, j | 0 <= i < j < |s.pool.free + s.pool.busy|
      ensures (s.pool.free + s.pool.busy)[i] != (s.pool.free + s.pool.busy)[j] {
      if i < |s.pool.free| <= j {
        assert s.pool.free[i] in Elems(s.pool.free) && s.pool.busy[j - |s.pool.free|] in Elems(s.pool.busy);
      }
    }
  }

  // No lost wakeup: somebody sleeps while nobody is awake only if every connection that
  // the pool may have is in use.
  lemma SleepOnlyWhenExhausted(run: seq<State>, max: nat)
    requires Run(run, max)
    ensures
      var s := run[|run| - 1];
      s.waiting != {} && s.woken == {} ==> |s.pool.busy| == max && s.pool.free == []
  {
    hide Held, InStep, NoDup, Elems;
    EveryRunKeeps(run, max);
  }

  // A thread sleeps although nothing is busy and nobody is awake: of the threads that have
  // come so far nobody is left to wake it.
  ghost predicate Stuck(s: State) {
    s.waiting != {} && s.woken == {} && s.holding == map[]
  }

  ghost predicate CanGetStuck(max: nat) {
    exists run :: Run(run, max) && Stuck(run[|run| - 1])
  }

  // That happens exactly if the pool is configured to have no connection at all, which
  // the source allows.
  lemma StuckIffNoConnectionAllowed(max: nat)
    ensures CanGetStuck(max) <==> max == 0
  {
    hide Step, Inv, Init;
    if max == 0 {
      StuckWithoutConnections();
    } else {
      forall run | Run(run, max) ensures !Stuck(run[|run| - 1]) {
        SleepOnlyWhenExhausted(run, max);
        EveryRunKeeps(run, max);
        if Stuck(run[|run| - 1]) {
          BusyIsHeld(run[|run| - 1], max);
        }
      }
    }
  }

  lemma BusyIsHeld(s: State, max: nat)
    requires Inv(s, max) && s.pool.busy != []
    ensures s.holding != map[]
  {
    hide InStep, Consistent;
    assert s.pool.busy[0] in Elems(s.pool.busy);
  }

  lemma StuckWithoutConnections()
    ensures CanGetStuck(0)
  {
    hide Step, Stuck, Init;
    var s0 := Start();
    var s1 := s0.(waiting := {0}, woken := {});
    SleepStep(s0, s1, 0, 0);
    assert Stuck(s1) by { SleeperIsStuck(s1); }
    StartIsInit();
    var run := [s0, s1];
    assert Run(run, 0) && Stuck(run[|run| - 1]);
  }

  function Start(): State {
    State(Pool([], [], 0), {}, {}, map[], map[])
  }

  lemma StartIsInit()
    ensures Init(Start())
  {
  }

  lemma SleeperIsStuck(s: State)
    requires 0 in s.waiting && s.woken == {} && s.holding == map[]
    ensures Stuck(s)
  {
  }

  lemma FullSection(p: Pool<Ctx>, max: nat)
    requires p.free == [] && p.ncontexts >= max
    ensures Section(p, p, max, {}, Full)
  {
  }

  lemma SleepStep(s: State, s': State, max: nat, t: nat)
    requires t !in s.waiting && t !in s.woken && t !in s.holding
    requires s.pool.free == [] && s.pool.ncontexts >= max
    requires s' == s.(waiting := s.waiting + {t})
    ensures Step(s, s', max)
  {
    hide Step, Section;
    FullSection(s.pool, max);
    assert s.woken - {t} == s.woken;
    AttemptIsStep(s, s', max, t, {}, Full, {});
  }

  lemma AttemptIsStep(s: State, s': State, max: nat, t: nat, valid: set<Ctx>, o: Outcome<Ctx>, up: set<nat>)
    requires Attempt(s, s', max, t, valid, o, up)
    ensures Step(s, s', max)
  {
  }

  lemma ConnectStep(s: State, s': State, max: nat, t: nat, c: Ctx)
    requires s.pool.free == [] && s.pool.ncontexts < max
    requires t !in s.waiting && t !in s.woken && t !in s.holding && c !in s.conn
    requires s' == s.(pool := Pool([], s.pool.busy + [c], s.pool.ncontexts + 1),
                      holding := s.holding[t := Hold(c, 0)], conn := s.conn[c := Conn(false, 0)])
    ensures Step(s, s', max)
  {
    hide Step, Section;
    ConnectSection(s.pool, s'.pool, max, c);
    assert s.woken - {t} == s.woken;
    AttemptIsStep(s, s', max, t, {}, Connected(c), {});
  }

  lemma ConnectSection(p: Pool<Ctx>, q: Pool<Ctx>, max: nat, c: Ctx)
    requires p.free == [] && p.ncontexts < max && q == Pool([], p.busy + [c], p.ncontexts + 1)
    ensures Section(p, q, max, {}, Connected(c))
  {
  }

  ghost predicate CanAttempt(s: State, max: nat, t: nat, valid: set<Ctx>) {
    exists s', o, up :: AttemptBy(t, s, s', max, valid, o, up)
  }

  ghost predicate AttemptBy(t: nat, s: State, s': State, max: nat, valid: set<Ctx>, o: Outcome<Ctx>, up: set<nat>) {
    Attempt(s, s', max, t, valid, o, up)
  }

  // A woken thread and a newcomer can always run their critical section, whichever
  // contexts turn out to be valid.
  lemma SectionAlwaysPossible(s: State, max: nat, t: nat, valid: set<Ctx>)
    requires t !in s.waiting && t !in s.holding && Checked(s, valid)
    ensures CanAttempt(s, max, t, valid)
  {
    hide Checked, DropStale;
    var rest := DropStale(s.pool.free, valid);
    var n := s.pool.ncontexts - (|s.pool.free| - |rest|);
    var r := s.(woken := s.woken - {t});
    if rest != [] {
      var s' := r.(pool := Pool(rest[1..], s.pool.busy + [rest[0]], n), holding := s.holding[t := Hold(rest[0], 0)]);
      assert AttemptBy(t, s, s', max, valid, Took(rest[0]), {});
    } else if n >= max {
      var s' := r.(pool := Pool([], s.pool.busy, n), waiting := s.waiting + {t});
      assert AttemptBy(t, s, s', max, valid, Full, {});
    } else {
      var s' := r.(pool := Pool([], s.pool.busy, n), waiting := s.waiting - s.waiting, woken := r.woken + s.waiting);
      assert AttemptBy(t, s, s', max, valid, Refused, s.waiting);
    }
  }

  // ----- The signal after a failed connection is needed -----

  // Attempt, had the source not signalled.
  ghost predicate QuietRefusal(s: State, s': State, max: nat, t: nat, valid: set<Ctx>) {
    && t !in s.waiting && t !in s.holding
    && Checked(s, valid)
    && Section(s.pool, s'.pool, max, valid, Refused)
    && s' == s.(pool := s'.pool, woken := s.woken - {t})
  }

  // One connection, two sleepers: the first one woken drops the stale connection, cannot
  // open another one and leaves; the second one sleeps on although nothing is busy and
  // nobody is awake.
  lemma WithoutThatSignalAWakeupIsLost()
    returns (run: seq<State>, last: State)
    ensures Run(run, 1) && QuietRefusal(run[|run| - 1], last, 1, 1, {}) && Stuck(last)
  {
    hide Step, Init, Stuck, QuietRefusal;
    var one := map[0 := Conn(false, 0)];
    var s0 := Start();
    var s1 := State(Pool([], [0], 1), {}, {}, map[0 := Hold(0, 0)], one);
    var s2 := s1.(waiting := {1});
    var s3 := s1.(waiting := {1, 2});
    var s4 := State(Pool([0], [], 1), {2}, {1}, map[], one);
    last := State(Pool([], [], 0), {2}, {}, map[], one);
    StartIsInit();
    FirstConnects(s0, s1);
    SleepStep(s1, s2, 1, 1);
    SleepStep(s2, s3, 1, 2);
    FirstReleases(s3, s4);
    SecondGivesUp(s4, last);
    run := [s0, s1, s2, s3, s4];
  }

  lemma FirstConnects(s0: State, s1: State)
    requires s0 == Start() && s1 == State(Pool([], [0], 1), {}, {}, map[0 := Hold(0, 0)], map[0 := Conn(false, 0)])
    ensures Step(s0, s1, 1)
  {
    hide Step;
    assert [] + [0] == [0];
    ConnectStep(s0, s1, 1, 0, 0);
  }

  lemma FirstReleases(s3: State, s4: State)
    requires s3 == State(Pool([], [0], 1), {1, 2}, {}, map[0 := Hold(0, 0)], map[0 := Conn(false, 0)])
    requires s4 == State(Pool([0], [], 1), {2}, {1}, map[], map[0 := Conn(false, 0)])
    ensures Step(s3, s4, 1)
  {
    assert Remove(s3.pool.busy, 0) == [] && s3.holding - {0} == map[];
    assert Release(s3, s4, 0, {1});
  }

  lemma SecondGivesUp(s4: State, last: State)
    requires s4 == State(Pool([0], [], 1), {2}, {1}, map[], map[0 := Conn(false, 0)])
    requires last == State(Pool([], [], 0), {2}, {}, map[], map[0 := Conn(false, 0)])
    ensures QuietRefusal(s4, last, 1, 1, {}) && Stuck(last)
  {
    assert 2 in last.waiting;
    assert [0][1..] == [];
    assert DropStale([0], {}) == [];
  }
}
