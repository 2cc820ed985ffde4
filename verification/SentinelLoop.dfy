/** What the Sentinel thread does in one turn of its loop (sentinel_loop of src/sentinel.c). */
module SentinelLoop {
  import opened Lists
  import opened Core
  import opened Registry
  import opened SentinelInventory
  import opened SentinelUpdate

  // ----- The flags shared with other threads -----

  datatype Flags = Flags(active: bool, discovery: bool)

  // What other threads ask for while the thread does not hold the mutex.
  datatype Requests = Requests(stop: bool, discovery: bool)

  function Ask(flags: Flags, requests: Requests): Flags {
    Flags(flags.active && !requests.stop, flags.discovery || requests.discovery)
  }

  datatype Turn = Turn(flags: Flags, stopped: bool, discovered: bool, asked: bool)

  // One turn. due: it is time for a periodic discovery; during: requests made while a
  // discovery is under way; meanwhile: requests made while notifications are handled.
  // asked: the databases are updated because a request is pending.
  function TurnOf(flags: Flags, due: bool, during: Requests, meanwhile: Requests): Turn {
    if !flags.active then Turn(flags, true, false, false)
    else
      var discovered := flags.discovery || due;
      var after := if discovered then Ask(flags, during) else flags;
      if !after.active then Turn(after, true, discovered, false)
      else
        var end := Ask(after, meanwhile);
        Turn(end.(discovery := false), false, discovered, end.discovery)
  }

  // A request made between two turns is honoured by a discovery in the next one. One that
  // is made in the course of a turn is forgotten at its end: the databases are updated with
  // what is known, but no discovery follows.
  lemma RequestHonoured(flags: Flags, due: bool, during: Requests, meanwhile: Requests, between: Requests,
                        during2: Requests, meanwhile2: Requests)
    requires !TurnOf(flags, due, during, meanwhile).stopped
    ensures var turn := TurnOf(flags, due, during, meanwhile);
      var next := TurnOf(Ask(turn.flags, between), false, during2, meanwhile2);
      && (next.discovered <==> turn.flags.active && !between.stop && between.discovery)
      && ((turn.discovered && during.discovery) || meanwhile.discovery ==> turn.asked)
  {
  }

  // ----- The inventory in one turn -----

  // A report, and when it is stored.
  datatype Timed = Timed(sentinel: nat, report: Report, time: int)

  function ReportsOf(timed: seq<Timed>): seq<Report> {
    seq(|timed|, i requires 0 <= i < |timed| => timed[i].report)
  }

  lemma {:induction false} ApplyMore(inventory: map<Key, Info>, a: seq<Report>, b: seq<Report>)
    ensures ApplyAll(inventory, a + b) == ApplyAll(ApplyAll(inventory, a), b)
  {
    if b == [] {
      assert a + b == a;
    } else {
      ApplyMore(inventory, a, b[..|b| - 1]);
      assert (a + b)[..|a + b| - 1] == a + b[..|b| - 1];
    }
  }

  method StoreAll(state: State, timed: seq<Timed>, ghost clock: int)
    requires state.Valid() && forall i | 0 <= i < |timed| :: timed[i].time >= clock
    modifies state`servers, state`lastChange, state`inventory, Elems(state.servers)
    ensures state.Valid() && forall s | s in Elems(state.servers) :: s in old(Elems(state.servers)) || fresh(s)
    ensures state.inventory == ApplyAll(old(state.inventory), ReportsOf(timed))
    ensures state.lastChange == old(state.lastChange) || state.lastChange >= clock
    ensures state.inventory != old(state.inventory) ==> state.lastChange >= clock
  {
    hide Keyed, Keys, Recorded, Apply, Elems;
    var rs := ReportsOf(timed);
    for i := 0 to |timed|
      invariant state.Valid() && forall s | s in Elems(state.servers) :: s in old(Elems(state.servers)) || fresh(s)
      invariant state.inventory == ApplyAll(old(state.inventory), rs[..i])
      invariant state.lastChange == old(state.lastChange) || state.lastChange >= clock
      invariant state.inventory != old(state.inventory) ==> state.lastChange >= clock
    {
      assert rs[..i + 1][..i] == rs[..i];
      state.Store(timed[i].sentinel, timed[i].report, timed[i].time);
    }
    assert rs[..|rs|] == rs;
  }

  // ----- One turn -----

  class Config {
    var active: bool
    var discovery: bool
    const dbs: seq<Database>

    constructor (dbs: seq<Database>)
      ensures active && discovery && this.dbs == dbs
    {
      active, discovery := true, true;
      this.dbs := dbs;
    }

    ghost function FlagsNow(): Flags
      reads this
    {
      Flags(active, discovery)
    }
  }

  method MakeRequests(config: Config, requests: Requests)
    modifies config
    ensures config.FlagsNow() == Ask(old(config.FlagsNow()), requests)
  {
    if requests.stop { config.active := false; }
    if requests.discovery { config.discovery := true; }
  }

  // The first part of a turn, up to the second test whether to stop.
  method Discover(config: Config, state: State, clock: int, found: seq<Timed>, during: Requests)
    returns (discovered: bool)
    requires state.Valid() && config.active
    requires forall i | 0 <= i < |found| :: found[i].time >= clock
    modifies config, state, Elems(state.servers)
    ensures state.Valid() && forall s | s in Elems(state.servers) :: s in old(Elems(state.servers)) || fresh(s)
    ensures discovered <==> old(config.discovery) || (state.period > 0 && old(state.nextDiscovery) <= clock)
    ensures config.FlagsNow() == if discovered then Ask(old(config.FlagsNow()), during) else old(config.FlagsNow())
    ensures state.nextDiscovery == if discovered then clock + state.period else old(state.nextDiscovery)
    ensures state.inventory == ApplyAll(old(state.inventory), if discovered then ReportsOf(found) else [])
    ensures state.lastChange == old(state.lastChange) || state.lastChange >= clock
    ensures state.inventory != old(state.inventory) ==> state.lastChange >= clock
  {
    hide Keyed, Keys, Recorded, Apply, ApplyAll, ReportsOf, Elems;
    ApplyNothing(state.inventory);
    discovered := false;
    if config.discovery || (state.period > 0 && state.nextDiscovery <= clock) {
      discovered := true;
      MakeRequests(config, during);
      StoreAll(state, found, clock);
      state.nextDiscovery := clock + state.period;
    }
  }

  // The last part of a turn: update the databases if there is a reason to.
  method Push(config: Config, state: State, ghost before: map<RedisServer, Before>,
              ghost queues: seq<seq<seq<seq<RedisServer>>>>, clock: int)
    returns (pushed: bool, now: int)
    requires state.Valid() && Separate(config.dbs) && |queues| == |config.dbs|
    requires forall j | 0 <= j < |config.dbs| ::
      Registered(config.dbs[j]) && QueueStatus(config.dbs[j], queues[j], false)
    requires forall j | 0 <= j < |config.dbs| :: DbStatus(config.dbs[j], before, state.inventory, clock, clock, false)
    requires clock < FOREVER
    modifies config`discovery
    modifies (set db | db in config.dbs :: db.servers), ServersOf(config.dbs)`role, ServersOf(config.dbs)`sicknessExp
    ensures forall j | 0 <= j < |config.dbs| ::
      Registered(config.dbs[j]) && QueueStatus(config.dbs[j], queues[j], pushed)
    ensures pushed <==> old(config.discovery) || state.lastChange >= clock
    ensures !config.discovery && clock <= now < FOREVER
    ensures forall j | 0 <= j < |config.dbs| :: DbStatus(config.dbs[j], before, state.inventory, clock, now, pushed)
  {
    hide InPlace, Known, QueueStatus, Keyed, Keys, Recorded, DbStatus, Separate;
    pushed, now := false, clock;
    if config.discovery || state.lastChange >= clock {
      now := UpdateDbs(config.dbs, state, before, queues, clock);
      config.discovery := false;
      pushed := true;
    }
  }

  // The rest of a turn, after the second test whether to stop.
  method Finish(config: Config, state: State, clock: int, notified: seq<Timed>, meanwhile: Requests,
                ghost before: map<RedisServer, Before>, ghost queues: seq<seq<seq<seq<RedisServer>>>>)
    returns (pushed: bool, now: int)
    requires state.Valid() && Separate(config.dbs) && |queues| == |config.dbs|
    requires forall j | 0 <= j < |config.dbs| ::
      Registered(config.dbs[j]) && QueueStatus(config.dbs[j], queues[j], false)
    requires forall j | 0 <= j < |config.dbs| :: DbStatus(config.dbs[j], before, state.inventory, clock, clock, false)
    requires forall i | 0 <= i < |notified| :: notified[i].time >= clock
    requires clock < FOREVER
    modifies config, state`servers, state`lastChange, state`inventory, Elems(state.servers)
    modifies (set db | db in config.dbs :: db.servers), ServersOf(config.dbs)`role, ServersOf(config.dbs)`sicknessExp
    ensures state.Valid()
    ensures forall j | 0 <= j < |config.dbs| ::
      Registered(config.dbs[j]) && QueueStatus(config.dbs[j], queues[j], pushed)
    ensures config.FlagsNow() == Ask(old(config.FlagsNow()), meanwhile).(discovery := false)
    ensures Ask(old(config.FlagsNow()), meanwhile).discovery ==> pushed
    ensures state.inventory == ApplyAll(old(state.inventory), ReportsOf(notified))
    ensures state.inventory != old(state.inventory) || old(state.lastChange) >= clock ==> pushed
    ensures clock <= now < FOREVER
    ensures forall j | 0 <= j < |config.dbs| :: DbStatus(config.dbs[j], before, state.inventory, clock, now, pushed)
  {
    hide InPlace, Known, QueueStatus, Keyed, Keys, Recorded, Apply, ApplyAll, DbStatus, Separate, ServersOf,
      ReportsOf, Elems;
    ghost var earlier := state.inventory;
    MakeRequests(config, meanwhile);
    StoreAll(state, notified, clock);
    NotYet(config.dbs, before, earlier, state.inventory, clock);
    pushed, now := Push(config, state, before, queues, clock);
  }

  // The body of the loop. found: what a discovery would report; notified: what notifications
  // report; clock: the time at the beginning, later than which everything is stored.
  method TakeTurn(config: Config, state: State, clock: int, found: seq<Timed>, notified: seq<Timed>,
                  during: Requests, meanwhile: Requests, ghost before: map<RedisServer, Before>,
                  ghost queues: seq<seq<seq<seq<RedisServer>>>>)
    returns (stopped: bool, discovered: bool, pushed: bool, now: int)
    requires state.Valid() && Separate(config.dbs) && |queues| == |config.dbs|
    requires forall j | 0 <= j < |config.dbs| ::
      Registered(config.dbs[j]) && QueueStatus(config.dbs[j], queues[j], false)
    requires forall j | 0 <= j < |config.dbs| :: DbStatus(config.dbs[j], before, state.inventory, clock, clock, false)
    requires forall i | 0 <= i < |found| :: found[i].time >= clock
    requires forall i | 0 <= i < |notified| :: notified[i].time >= clock
    requires clock < FOREVER
    modifies config, state, Elems(state.servers)
    modifies (set db | db in config.dbs :: db.servers), ServersOf(config.dbs)`role, ServersOf(config.dbs)`sicknessExp
    ensures state.Valid()
    ensures forall j | 0 <= j < |config.dbs| ::
      Registered(config.dbs[j]) && QueueStatus(config.dbs[j], queues[j], pushed)
    ensures var due := state.period > 0 && old(state.nextDiscovery) <= clock;
      var turn := TurnOf(old(config.FlagsNow()), due, during, meanwhile);
      && config.FlagsNow() == turn.flags && stopped == turn.stopped && discovered == turn.discovered
      && (turn.asked ==> pushed)
    ensures state.nextDiscovery == if discovered then clock + state.period else old(state.nextDiscovery)
    ensures state.inventory ==
      ApplyAll(old(state.inventory), (if discovered then ReportsOf(found) else [])
               + (if stopped then [] else ReportsOf(notified)))
    // Whatever changes is pushed in the same turn, unless the thread is stopping.
    ensures state.inventory != old(state.inventory) && !stopped ==> pushed
    ensures pushed ==> !stopped
    ensures clock <= now < FOREVER
    ensures forall j | 0 <= j < |config.dbs| :: DbStatus(config.dbs[j], before, state.inventory, clock, now, pushed)
  {
    hide InPlace, Known, QueueStatus, Keyed, Keys, Recorded, Apply, ApplyAll, DbStatus, Separate, ServersOf,
      ReportsOf, Elems;
    ghost var first := state.inventory;
    NothingElse([]);
    if !config.active {
      ApplyNothing(first);
      return true, false, false, clock;
    }
    discovered := Discover(config, state, clock, found, during);
    ghost var early, second := if discovered then ReportsOf(found) else [], state.inventory;
    NothingElse(early);
    NotYet(config.dbs, before, first, second, clock);
    if !config.active {
      return true, discovered, false, clock;
    }
    stopped := false;
    pushed, now := Finish(config, state, clock, notified, meanwhile, before, queues);
    ApplyMore(first, early, ReportsOf(notified));
  }

  lemma NothingElse(reports: seq<Report>)
    ensures reports + [] == reports
  {
  }

  lemma ApplyNothing(inventory: map<Key, Info>)
    ensures ApplyAll(inventory, []) == inventory
  {
  }

  // A database whose turn has not come does not depend on the inventory.
  lemma NotYet(dbs: seq<Database>, before: map<RedisServer, Before>, one: map<Key, Info>, other: map<Key, Info>,
               clock: int)
    requires forall j | 0 <= j < |dbs| :: DbStatus(dbs[j], before, one, clock, clock, false)
    ensures forall j | 0 <= j < |dbs| :: DbStatus(dbs[j], before, other, clock, clock, false)
  {
    hide UpToDate;
  }
}
