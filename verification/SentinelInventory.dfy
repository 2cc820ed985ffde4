/** The servers that Sentinels report (store_sentinel_reply of src/sentinel.c). */
module SentinelInventory {
  import opened Core
  import opened Lists

  // Down: 1, up: 0, not said: -1.
  type DownFlag = d: int | -1 <= d <= 1

  datatype Report = Report(host: string, port: nat, role: Role, down: DownFlag)

  datatype Key = Key(host: string, port: nat)

  datatype Info = Info(role: Role, down: bool)

  class Server {
    const host: string
    const port: nat
    var role: Role
    var down: bool
    // Number of the sentinel responsible for the last change.
    var sentinel: nat

    constructor (sentinel: nat, report: Report)
      ensures host == report.host && port == report.port && role == report.role
      ensures down <==> report.down > 0
      ensures this.sentinel == sentinel
    {
      host, port, role := report.host, report.port, report.role;
      down := report.down > 0;
      this.sentinel := sentinel;
    }
  }

  function KeyOf(server: Server): Key {
    Key(server.host, server.port)
  }

  ghost predicate Keyed(servers: seq<Server>) {
    forall i, j | 0 <= i < j < |servers| :: KeyOf(servers[i]) != KeyOf(servers[j])
  }

  ghost function Keys(servers: seq<Server>): set<Key> {
    set s | s in servers :: KeyOf(s)
  }

  // One report: the role is what was said last, the down flag what was last said about it.
  function Apply(inventory: map<Key, Info>, report: Report): map<Key, Info> {
    var key := Key(report.host, report.port);
    var known := key in inventory && inventory[key].down;
    inventory[key := Info(report.role, if report.down >= 0 then report.down > 0 else known)]
  }

  function ApplyAll(inventory: map<Key, Info>, reports: seq<Report>): map<Key, Info> {
    if reports == [] then inventory else Apply(ApplyAll(inventory, reports[..|reports| - 1]), reports[|reports| - 1])
  }

  // ----- The last writer wins -----

  predicate About(report: Report, key: Key) {
    report.host == key.host && report.port == key.port
  }

  ghost predicate LastAbout(reports: seq<Report>, key: Key, i: int) {
    0 <= i < |reports| && About(reports[i], key) && forall j | i < j < |reports| :: !About(reports[j], key)
  }

  predicate Says(report: Report, key: Key) {
    About(report, key) && report.down >= 0
  }

  ghost predicate LastToSay(reports: seq<Report>, key: Key, i: int) {
    0 <= i < |reports| && Says(reports[i], key) && forall j | i < j < |reports| :: !Says(reports[j], key)
  }

  // A server is known if somebody reported it, with the role reported last.
  lemma {:induction false} LastRoleWins(reports: seq<Report>, key: Key)
    ensures key in ApplyAll(map[], reports) <==> exists i :: LastAbout(reports, key, i)
    ensures forall i | LastAbout(reports, key, i) ::
      key in ApplyAll(map[], reports) && ApplyAll(map[], reports)[key].role == reports[i].role
  {
    if reports != [] {
      var n := |reports| - 1;
      LastRoleWins(reports[..n], key);
      if About(reports[n], key) {
        assert LastAbout(reports, key, n);
      } else {
        assert forall i :: LastAbout(reports[..n], key, i) <==> LastAbout(reports, key, i);
      }
    }
  }

  // It is down if that is what was last said about it. Whoever says nothing changes nothing.
  lemma {:induction false} LastFlagWins(reports: seq<Report>, key: Key)
    requires key in ApplyAll(map[], reports)
    ensures ApplyAll(map[], reports)[key].down <==> exists i :: LastToSay(reports, key, i) && reports[i].down == 1
  {
    var n := |reports| - 1;
    var few := reports[..n];
    assert forall i, j :: LastToSay(reports, key, i) && LastToSay(reports, key, j) ==> i == j;
    if Says(reports[n], key) {
      assert LastToSay(reports, key, n);
    } else {
      assert forall i :: LastToSay(few, key, i) <==> LastToSay(reports, key, i);
      if key in ApplyAll(map[], few) {
        LastFlagWins(few, key);
      } else {
        NothingSaidYet(few, key);
      }
    }
  }

  lemma {:induction false} NothingSaidYet(reports: seq<Report>, key: Key)
    requires key !in ApplyAll(map[], reports)
    ensures forall i | 0 <= i < |reports| :: !Says(reports[i], key)
  {
    if reports != [] {
      NothingSaidYet(reports[..|reports| - 1], key);
    }
  }

  // ----- store_sentinel_reply -----

  class State {
    var servers: seq<Server>
    ghost var inventory: map<Key, Info>
    var lastChange: int
    const period: nat
    var nextDiscovery: int

    constructor (period: nat)
      ensures Valid() && inventory == map[] && servers == [] && lastChange == 0 && nextDiscovery == 0
      ensures this.period == period
    {
      servers := [];
      inventory := map[];
      lastChange := 0;
      this.period := period;
      nextDiscovery := 0;
    }

    // Servers are told apart by host and port, and are what the inventory says.
    ghost predicate Valid()
      reads this, servers
    {
      Keyed(servers) && Keys(servers) == inventory.Keys && Recorded(servers, inventory)
    }

    method Search(key: Key) returns (i: nat)
      ensures i <= |servers|
      ensures forall j | 0 <= j < i :: KeyOf(servers[j]) != key
      ensures i < |servers| ==> KeyOf(servers[i]) == key
    {
      i := 0;
      while i < |servers|
        invariant i <= |servers|
        invariant forall j | 0 <= j < i :: KeyOf(servers[j]) != key
      {
        if KeyOf(servers[i]) == key { return; }
        i := i + 1;
      }
    }

    // The time of the last change moves if and only if the inventory does.
    method Store(sentinel: nat, report: Report, now: int)
      requires Valid()
      modifies this`servers, this`lastChange, this`inventory, Elems(servers)
      ensures Valid() && forall s | s in Elems(servers) :: s in old(Elems(servers)) || fresh(s)
      ensures inventory == Apply(old(inventory), report)
      // Whoever changes something is responsible for it.
      ensures inventory != old(inventory) ==>
        exists s | s in servers :: KeyOf(s) == Key(report.host, report.port) && s.sentinel == sentinel
      ensures lastChange == if inventory == old(inventory) then old(lastChange) else now
    {
      hide Keyed, Keys;
      var key := Key(report.host, report.port);
      var i := Search(key);
      if i == |servers| {
        var server := new Server(sentinel, report);
        NewKey(servers, server);
        assert key !in inventory;
        servers := servers + [server];
        lastChange := now;
      } else {
        var server := servers[i];
        OldKey(servers, i);
        if server.role != report.role || (report.down >= 0 && server.down != (report.down == 1)) {
          server.sentinel := sentinel;
          server.role := report.role;
          if report.down >= 0 {
            server.down := report.down == 1;
          }
          lastChange := now;
        }
      }
      inventory := Apply(inventory, report);
    }
  }

  ghost predicate Recorded(servers: seq<Server>, inventory: map<Key, Info>)
    reads servers
  {
    forall s | s in servers :: KeyOf(s) in inventory && inventory[KeyOf(s)] == Info(s.role, s.down)
  }

  lemma NewKey(servers: seq<Server>, server: Server)
    requires Keyed(servers) && forall j | 0 <= j < |servers| :: KeyOf(servers[j]) != KeyOf(server)
    ensures Keyed(servers + [server]) && KeyOf(server) !in Keys(servers)
    ensures Keys(servers + [server]) == Keys(servers) + {KeyOf(server)}
  {
    assert forall s | s in servers + [server] :: s in servers || s == server;
    assert server in servers + [server] && forall s | s in servers :: s in servers + [server];
  }

  lemma OldKey(servers: seq<Server>, i: nat)
    requires Keyed(servers) && i < |servers|
    ensures KeyOf(servers[i]) in Keys(servers)
    ensures forall s | s in servers && KeyOf(s) == KeyOf(servers[i]) :: s == servers[i]
  {
    assert servers[i] in servers;
  }
}
