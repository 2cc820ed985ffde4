/** Reading the reply to CLUSTER SHARDS (src/cluster.c). */
module ClusterReply {
  import opened Core
  import opened Numbers
  import opened Registry

  // Replies of the client library.
  datatype Value = Int(n: int) | Str(s: string) | Nil | Array(elements: seq<Value>) | Map(elements: seq<Value>) | Other

  // How the module was built and the database configured.
  datatype Setup = Setup(resp3: bool, tlsBuilt: bool, tls: bool)

  predicate IsTable(v: Value, setup: Setup) {
    v.Array? || (setup.resp3 && v.Map?)
  }

  // ----- Tables: flattened key-value pairs -----

  // Number of complete pairs.
  function Pairs(v: Value): nat
    requires v.Array? || v.Map?
  {
    |v.elements| / 2
  }

  // The values that a property can take; others are ignored.
  predicate Fits(name: string, v: Value) {
    if name == "endpoint" then v.Str? || v.Nil?
    else if name == "port" || name == "tls-port" then v.Int? && 0 < v.n <= 65535
    else if name == "role" then v == Str("master") || v == Str("replica")
    else if name == "health" then v.Str?
    else if name == "slots" then v.Array?
    else if name == "nodes" then v.Array? && |v.elements| >= 1
    else false
  }

  // The value of a property is the last that fits, among the first k pairs.
  function Property(elements: seq<Value>, name: string, k: nat): (r: Option<Value>)
    requires 2 * k <= |elements|
    ensures r.Some? ==> Fits(name, r.value)
  {
    if k == 0 then None
    else if elements[2 * k - 2] == Str(name) && Fits(name, elements[2 * k - 1]) then Some(elements[2 * k - 1])
    else Property(elements, name, k - 1)
  }

  lemma PropertyStep(elements: seq<Value>, name: string, k: nat)
    requires 2 * k + 2 <= |elements|
    ensures Property(elements, name, k + 1) ==
      if elements[2 * k] == Str(name) && Fits(name, elements[2 * k + 1]) then Some(elements[2 * k + 1])
      else Property(elements, name, k)
  {
    assert 2 * (k + 1) - 2 == 2 * k;
  }

  // Pair number j is the last of the first k that gives the property an acceptable value.
  ghost predicate LastPair(elements: seq<Value>, name: string, k: nat, j: nat)
    requires 2 * k <= |elements|
  {
    && j < k && elements[2 * j] == Str(name) && Fits(name, elements[2 * j + 1])
    && forall i | j < i < k :: !(elements[2 * i] == Str(name) && Fits(name, elements[2 * i + 1]))
  }

  lemma {:induction false} PropertyMeans(elements: seq<Value>, name: string, k: nat)
    requires 2 * k <= |elements|
    ensures Property(elements, name, k).Some? <==> exists j: nat :: LastPair(elements, name, k, j)
    ensures forall j: nat | LastPair(elements, name, k, j) :: Property(elements, name, k) == Some(elements[2 * j + 1])
  {
    hide Fits;
    if k > 0 {
      var few := k - 1;
      PropertyMeans(elements, name, few);
      PropertyStep(elements, name, few);
      if elements[2 * k - 2] == Str(name) && Fits(name, elements[2 * k - 1]) {
        assert LastPair(elements, name, k, few);
      } else {
        assert forall j: nat :: LastPair(elements, name, k, j) <==> LastPair(elements, name, few, j);
        if j: nat :| LastPair(elements, name, few, j) {
          assert LastPair(elements, name, k, j);
        }
        if j: nat :| LastPair(elements, name, k, j) {
          assert LastPair(elements, name, few, j);
        }
      }
    }
  }

  lemma NoProperty(elements: seq<Value>, name: string)
    ensures Property(elements, name, 0) == None
  {
  }

  lemma FitsNode(v: Value)
    ensures Fits("endpoint", v) <==> v.Str? || v.Nil?
    ensures Fits("port", v) <==> v.Int? && 0 < v.n <= 65535
    ensures Fits("tls-port", v) <==> v.Int? && 0 < v.n <= 65535
    ensures Fits("role", v) <==> v == Str("master") || v == Str("replica")
    ensures Fits("health", v) <==> v.Str?
  {
  }

  lemma FitsShard(v: Value)
    ensures Fits("slots", v) <==> v.Array?
    ensures Fits("nodes", v) <==> v.Array? && |v.elements| >= 1
  {
  }

  // ----- Slot ranges -----

  datatype Range = Range(start: int, end: int)

  predicate InRange(i: int, r: Range) {
    r.start <= i <= r.end
  }

  predicate ValidRange(r: Range) {
    0 <= r.start <= r.end < 16384
  }

  // parse_slot_range. The C code copies 64-bit values to ints only after these checks.
  function ParseSlotRange(slots: seq<Value>, i: nat): (r: Option<Range>)
    requires i + 1 < |slots|
    ensures r.Some? ==> ValidRange(r.value)
  {
    if !slots[i].Int? || !slots[i + 1].Int? then None
    else
      var start, end := slots[i].n, slots[i + 1].n;
      if start < 0 || start >= 16384 || end < 0 || end >= 16384 || start > end then None
      else Some(Range(start, end))
  }

  // The valid ranges among the first k pairs.
  function Ranges(slots: seq<Value>, k: nat): (r: seq<Range>)
    requires 2 * k <= |slots|
    ensures forall i | 0 <= i < |r| :: ValidRange(r[i])
  {
    if k == 0 then []
    else
      var last := ParseSlotRange(slots, 2 * k - 2);
      Ranges(slots, k - 1) + if last.Some? then [last.value] else []
  }

  // Pair number j is a valid range that covers slot i.
  predicate PairCovers(slots: seq<Value>, j: nat, i: int)
    requires 2 * j + 1 < |slots|
  {
    && slots[2 * j].Int? && slots[2 * j + 1].Int?
    && 0 <= slots[2 * j].n <= i <= slots[2 * j + 1].n < 16384
  }

  lemma {:induction false} RangesMean(slots: seq<Value>, k: nat, i: int)
    requires 2 * k <= |slots|
    ensures (exists r | r in Ranges(slots, k) :: InRange(i, r)) <==> exists j | 0 <= j < k :: PairCovers(slots, j, i)
  {
    if k > 0 {
      RangesMean(slots, k - 1, i);
      LastRange(slots, k, i);
      var few, last := Ranges(slots, k - 1), ParseSlotRange(slots, 2 * k - 2);
      hide Ranges, ParseSlotRange, PairCovers;
      if r :| r in Ranges(slots, k) && InRange(i, r) {
        assert r in few || last == Some(r);
      }
      if j :| 0 <= j < k && PairCovers(slots, j, i) {
        if j == k - 1 {
          assert last.value in Ranges(slots, k);
        } else {
          assert 0 <= j < k - 1 && PairCovers(slots, j, i);
          var r :| r in few && InRange(i, r);
          assert r in Ranges(slots, k);
        }
      }
    }
  }

  lemma LastRange(slots: seq<Value>, k: nat, i: int)
    requires 0 < 2 * k <= |slots|
    ensures var last := ParseSlotRange(slots, 2 * k - 2);
      && Ranges(slots, k) == Ranges(slots, k - 1) + (if last.Some? then [last.value] else [])
      && (PairCovers(slots, k - 1, i) <==> last.Some? && InRange(i, last.value))
  {
    assert 2 * (k - 1) == 2 * k - 2;
  }

  method ParseRanges(slots: seq<Value>) returns (ranges: seq<Range>)
    requires |slots| % 2 == 0
    ensures ranges == Ranges(slots, |slots| / 2)
  {
    ranges := [];
    var j := 0;
    while j + 1 < |slots|
      invariant 0 <= j <= |slots| && j % 2 == 0
      invariant ranges == Ranges(slots, j / 2)
    {
      var range := ParseSlotRange(slots, j);
      if range.Some? {
        ranges := ranges + [range.value];
      }
      j := j + 2;
    }
  }

  // ----- Nodes -----

  datatype Node = Node(endpoint: string, port: nat, role: Role, healthy: bool)

  function EndpointOf(v: Option<Value>): Option<string> {
    if v.None? then None else if v.value.Str? then Some(v.value.s) else Some("")
  }

  function PortOf(v: Option<Value>): nat {
    if v.Some? && v.value.Int? && v.value.n > 0 then v.value.n else 0
  }

  function RoleOf(v: Option<Value>): Role {
    if v.None? then TBD else if v.value == Str("master") then MASTER else SLAVE
  }

  function HealthOf(v: Option<Value>): bool {
    v.None? || v.value == Str("online")
  }

  function PreferredPort(port: nat, tlsPort: nat, setup: Setup): nat {
    if !setup.tlsBuilt then port
    else if setup.tls then (if tlsPort == 0 then port else tlsPort)
    else if port == 0 then tlsPort else port
  }

  // What a node must say to be registered, each property looked up on its own.
  function NodeOf(reply: Value, host: string, setup: Setup): Option<Node> {
    if !IsTable(reply, setup) then None
    else
      var es, k := reply.elements, Pairs(reply);
      var endpoint := EndpointOf(Property(es, "endpoint", k));
      var port := PreferredPort(PortOf(Property(es, "port", k)), PortOf(Property(es, "tls-port", k)), setup);
      var role := RoleOf(Property(es, "role", k));
      if endpoint == Some("?") || port == 0 || role == TBD then None
      else Some(Node(if endpoint == None || endpoint == Some("") then host else endpoint.value,
                     port, role, HealthOf(Property(es, "health", k))))
  }

  // parse_node: one pass over the pairs.
  method ParseNode(reply: Value, host: string, setup: Setup) returns (node: Option<Node>)
    ensures node == NodeOf(reply, host, setup)
  {
    hide Fits, Property;
    if !IsTable(reply, setup) {
      return None;
    }
    var es := reply.elements;
    var endpoint: Option<string> := None;
    var port, tlsPort: nat := 0, 0;
    var role: Role := TBD;
    var healthy := true;
    NoProperty(es, "endpoint");
    NoProperty(es, "port");
    NoProperty(es, "tls-port");
    NoProperty(es, "role");
    NoProperty(es, "health");
    var i := 0;
    while i + 1 < |es|
      invariant 0 <= i <= |es| && i % 2 == 0
      invariant endpoint == EndpointOf(Property(es, "endpoint", i / 2))
      invariant port == PortOf(Property(es, "port", i / 2)) && tlsPort == PortOf(Property(es, "tls-port", i / 2))
      invariant role == RoleOf(Property(es, "role", i / 2))
      invariant healthy == HealthOf(Property(es, "health", i / 2))
    {
      var name, value := es[i], es[i + 1];
      FitsNode(value);
      PropertyStep(es, "endpoint", i / 2);
      PropertyStep(es, "port", i / 2);
      PropertyStep(es, "tls-port", i / 2);
      PropertyStep(es, "role", i / 2);
      PropertyStep(es, "health", i / 2);
      i := i + 2;
      if name == Str("endpoint") {
        if value.Str? {
          endpoint := Some(value.s);
        } else if value.Nil? {
          endpoint := Some("");
        }
      } else if name == Str("port") {
        if value.Int? && value.n > 0 && value.n <= 65535 {
          port := value.n;
        }
      } else if name == Str("tls-port") {
        if value.Int? && value.n > 0 && value.n <= 65535 {
          tlsPort := value.n;
        }
      } else if name == Str("role") && value.Str? {
        if value.s == "master" {
          role := MASTER;
        } else if value.s == "replica" {
          role := SLAVE;
        }
      } else if name == Str("health") && value.Str? {
        healthy := value.s == "online";
      }
    }
    if endpoint == Some("?") {
      return None;
    }
    if endpoint == None || endpoint == Some("") {
      endpoint := Some(host);
    }
    var effective := PreferredPort(port, tlsPort, setup);
    if effective == 0 || role == TBD {
      return None;
    }
    return Some(Node(endpoint.value, effective, role, healthy));
  }

  // ----- What a node says -----

  // A property is said if some pair gives it an acceptable value; the last one counts.
  ghost predicate Said(reply: Value, name: string)
    requires reply.Array? || reply.Map?
  {
    exists j: nat :: LastPair(reply.elements, name, Pairs(reply), j)
  }

  // The role of a node is what it says last, and it must say one.
  lemma NodeRole(reply: Value, host: string, setup: Setup, j: nat)
    requires NodeOf(reply, host, setup).Some?
    ensures Said(reply, "role")
    ensures LastPair(reply.elements, "role", Pairs(reply), j) ==>
      && reply.elements[2 * j + 1] in {Str("master"), Str("replica")}
      && NodeOf(reply, host, setup).value.role == if reply.elements[2 * j + 1] == Str("master") then MASTER else SLAVE
  {
    PropertyMeans(reply.elements, "role", Pairs(reply));
    FitsNode(Nil);
  }

  // It is healthy unless it says last that it is anything but online.
  lemma NodeHealth(reply: Value, host: string, setup: Setup, j: nat)
    requires NodeOf(reply, host, setup).Some?
    ensures !Said(reply, "health") ==> NodeOf(reply, host, setup).value.healthy
    ensures LastPair(reply.elements, "health", Pairs(reply), j) ==>
      (NodeOf(reply, host, setup).value.healthy <==> reply.elements[2 * j + 1] == Str("online"))
  {
    PropertyMeans(reply.elements, "health", Pairs(reply));
  }

  // It is at the endpoint that it says last; without one, or with an empty or null one, at the
  // host that was asked.
  lemma NodeEndpoint(reply: Value, host: string, setup: Setup, j: nat)
    requires NodeOf(reply, host, setup).Some?
    ensures !Said(reply, "endpoint") ==> NodeOf(reply, host, setup).value.endpoint == host
    ensures LastPair(reply.elements, "endpoint", Pairs(reply), j) ==>
      && reply.elements[2 * j + 1] != Str("?")
      && NodeOf(reply, host, setup).value.endpoint ==
          if reply.elements[2 * j + 1] in {Str(""), Nil} then host else reply.elements[2 * j + 1].s
  {
    PropertyMeans(reply.elements, "endpoint", Pairs(reply));
    FitsNode(Nil);
  }

  // Its port is the TLS one if connections are to use TLS and the other one if not. Where TLS
  // is built in, either stands in for the other if only that is said.
  lemma NodePort(reply: Value, host: string, setup: Setup, j: nat)
    requires NodeOf(reply, host, setup).Some?
    ensures LastPair(reply.elements, "port", Pairs(reply), j) ==>
      !setup.tlsBuilt || !setup.tls || !Said(reply, "tls-port") ==>
        Int(NodeOf(reply, host, setup).value.port) == reply.elements[2 * j + 1]
    ensures LastPair(reply.elements, "tls-port", Pairs(reply), j) ==>
      setup.tlsBuilt && (setup.tls || !Said(reply, "port")) ==>
        Int(NodeOf(reply, host, setup).value.port) == reply.elements[2 * j + 1]
    ensures Said(reply, "port") || (setup.tlsBuilt && Said(reply, "tls-port"))
    ensures 0 < NodeOf(reply, host, setup).value.port <= 65535
  {
    PropertyMeans(reply.elements, "port", Pairs(reply));
    PropertyMeans(reply.elements, "tls-port", Pairs(reply));
  }

  // There is a node if and only if the reply is a table that says a role and a port that can be
  // used, and does not say last that its endpoint is unknown.
  lemma NodeIff(reply: Value, host: string, setup: Setup)
    ensures NodeOf(reply, host, setup).Some? <==>
      && (reply.Array? || (setup.resp3 && reply.Map?))
      && Said(reply, "role") && (Said(reply, "port") || (setup.tlsBuilt && Said(reply, "tls-port")))
      && forall j: nat | LastPair(reply.elements, "endpoint", Pairs(reply), j) ::
          reply.elements[2 * j + 1] != Str("?")
  {
    if IsTable(reply, setup) {
      PropertyMeans(reply.elements, "role", Pairs(reply));
      PropertyMeans(reply.elements, "endpoint", Pairs(reply));
      PropertyMeans(reply.elements, "port", Pairs(reply));
      PropertyMeans(reply.elements, "tls-port", Pairs(reply));
    }
  }

  // ----- Where a node is -----

  function LocationOf(node: Node): string {
    node.endpoint + ":" + Decimal(node.port)
  }

  lemma {:induction false} LastColonBefore(a: string, b: string)
    requires forall i | 0 <= i < |b| :: b[i] != ':'
    ensures LastColon(a + ":" + b) == |a|
  {
    var s := a + ":" + b;
    assert s[|a|] == ':';
    assert forall j | |a| < j < |s| :: s[j] == b[j - |a| - 1];
    var i := LastColon(s);
    assert i >= |a|;
  }

  // A node is registered at the endpoint and port it was announced with.
  lemma LocationRoundTrip(node: Node)
    requires node.port <= 65535
    ensures ParseLocation(LocationOf(node)) == Host(LocationOf(node), node.endpoint, node.port)
  {
    var raw := LocationOf(node);
    LastColonBefore(node.endpoint, Decimal(node.port));
    assert raw[..|node.endpoint|] == node.endpoint;
    assert raw[|node.endpoint| + 1..] == Decimal(node.port);
    StrToLDecimal(node.port);
  }

  // ----- Shards -----

  // The nodes of a shard, unless it is discarded for its slots.
  function NodeReplies(shard: Value, setup: Setup): seq<Value> {
    if !IsTable(shard, setup) then []
    else
      var slots := Property(shard.elements, "slots", Pairs(shard));
      var nodes := Property(shard.elements, "nodes", Pairs(shard));
      if slots.None? || nodes.None? || |slots.value.elements| % 2 != 0 then [] else nodes.value.elements
  }

  // What is registered for a shard: every node that can be, each for every valid range.
  function ShardNodes(shard: Value, host: string, setup: Setup): seq<Node> {
    NodesOf(NodeReplies(shard, setup), host, setup)
  }

  // A node whose location is too long is discarded.
  function Accepted(reply: Value, host: string, setup: Setup): Option<Node> {
    var node := NodeOf(reply, host, setup);
    if node.Some? && |LocationOf(node.value)| < 256 then node else None
  }

  function NodesOf(nodes: seq<Value>, host: string, setup: Setup): seq<Node> {
    if nodes == [] then []
    else
      var last := Accepted(nodes[|nodes| - 1], host, setup);
      NodesOf(nodes[..|nodes| - 1], host, setup) + if last.Some? then [last.value] else []
  }

  lemma NoNodes(host: string, setup: Setup)
    ensures NodesOf([], host, setup) == []
  {
  }

  // A node that is acceptable and stands at a location.
  predicate NodeHere(reply: Value, host: string, setup: Setup, location: string) {
    Accepted(reply, host, setup).Some? && LocationOf(Accepted(reply, host, setup).value) == location
  }

  lemma {:induction false} NodesMean(nodes: seq<Value>, host: string, setup: Setup, location: string)
    ensures (exists n | n in NodesOf(nodes, host, setup) :: LocationOf(n) == location)
      <==> exists v | v in nodes :: NodeHere(v, host, setup, location)
  {
    hide Accepted, LocationOf;
    if nodes != [] {
      var k := |nodes| - 1;
      var last := Accepted(nodes[k], host, setup);
      NodesMean(nodes[..k], host, setup, location);
      assert nodes == nodes[..k] + [nodes[k]];
      if v :| v in nodes && NodeHere(v, host, setup, location) {
        if v == nodes[k] {
          assert last.value in NodesOf(nodes, host, setup);
        } else {
          assert v in nodes[..k];
          var n :| n in NodesOf(nodes[..k], host, setup) && LocationOf(n) == location;
          assert n in NodesOf(nodes, host, setup);
        }
      }
      if n :| n in NodesOf(nodes, host, setup) && LocationOf(n) == location {
        if n !in NodesOf(nodes[..k], host, setup) {
          assert NodeHere(nodes[k], host, setup, location);
        }
      }
    }
  }

  function ShardRanges(shard: Value, setup: Setup): (r: seq<Range>)
    ensures forall i | 0 <= i < |r| :: ValidRange(r[i])
  {
    if !IsTable(shard, setup) then []
    else
      var slots := Property(shard.elements, "slots", Pairs(shard));
      if slots.None? || |slots.value.elements| % 2 != 0 then []
      else Ranges(slots.value.elements, |slots.value.elements| / 2)
  }

  function ElementsOf(v: Option<Value>): Option<seq<Value>> {
    if v.Some? && v.value.Array? then Some(v.value.elements) else None
  }

  // The search for the slots and the nodes of a shard: one pass over its pairs.
  method ParseShard(shard: Value, setup: Setup) returns (slots: Option<seq<Value>>, nodes: Option<seq<Value>>)
    requires IsTable(shard, setup)
    ensures var k := Pairs(shard);
      && slots == ElementsOf(Property(shard.elements, "slots", k))
      && nodes == ElementsOf(Property(shard.elements, "nodes", k))
  {
    hide Fits, Property;
    var es := shard.elements;
    slots, nodes := None, None;
    NoProperty(es, "slots");
    NoProperty(es, "nodes");
    var j := 0;
    while j + 1 < |es|
      invariant 0 <= j <= |es| && j % 2 == 0
      invariant slots == ElementsOf(Property(es, "slots", j / 2))
      invariant nodes == ElementsOf(Property(es, "nodes", j / 2))
    {
      var key, value := es[j], es[j + 1];
      FitsShard(value);
      PropertyStep(es, "slots", j / 2);
      PropertyStep(es, "nodes", j / 2);
      j := j + 2;
      if !key.Str? {
        continue;
      }
      if key.s == "slots" && value.Array? {
        slots := Some(value.elements);
      } else if key.s == "nodes" && value.Array? && |value.elements| >= 1 {
        nodes := Some(value.elements);
      }
    }
  }
}
