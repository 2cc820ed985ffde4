# Verification of libvmod-redis

A Dafny model of the core of libvmod-redis, the Varnish module that lets VCL programs talk to
Redis. What the model covers:

- **Shared connection pool** (`SharedPool`, `PoolOvertaking`, `PoolLists`, `PoolUse`). The mutex and
  condition variable protocol as a state machine over numbered threads, who can be made to wait in
  it, and the C loops over the free and busy lists, each tied to one critical section of it.
- **Registry of servers** (`Core`, `Lists`, `Numbers`, `Registry`, `RegistryRuns`). The 4 x 3 queues
  by weight and role, and what every operation on them keeps.
- **Planner** (`Planner`, `PlanProperties`). The four rounds that build the list of servers of an
  execution plan, against a declarative list, with its contents, its order and its fairness.
- **Private connections and executor** (`Connection`, `TaskContexts`, `Planning`, `Executor`,
  `TaskRuns`). Collecting, handing out and replacing connections; the pipeline of one command; the
  loop of attempts with EVALSHA and its fallback.
- **Cluster** (`HashSlot`, `ClusterCommands`, `ClusterReply`, `Discovery`, `Cluster`). Hash
  slots, the key of a command, the reply to CLUSTER SHARDS and its effect on the registry, and the
  MOVED / ASK loop.
- **Sentinel** (`SentinelInventory`, `SentinelUpdate`, `QueueMerge`, `SentinelLoop`,
  `SentinelLocations`). The inventory, its push to the databases while their queues are walked,
  one turn of the thread, and the parser of the list of Sentinels.
- **SHA-1** (`Fips180`, `Sha1`) against FIPS PUB 180-1, and **CRC-16/XMODEM** (`Crc16`) against
  polynomial division.

C objects that are updated in place are classes; tail queues are fields of sequence type; fixed
buffers and the matrix of queues are arrays. Network outcomes, the clock and whatever other threads
do are inputs or arbitrary choices. `dafny verify dfyconfig.toml` checks everything.

Preconditions shared with the source: `max_retries + 1` does not wrap, times below `UINT_MAX`
when Sentinel updates are pushed, pieces of data hashed below 2^32 - 63 bytes, enough workspace.

What the code does otherwise than one might expect, each with the exact condition:

- A thread can be asleep in the shared pool while nothing is busy and nobody is awake if and only if
  the limit of connections is 0, which the configuration accepts
  (`SharedPool.StuckIffNoConnectionAllowed`).
- The shared pool is not fair. A thread can sleep, be woken by a release and find that a newcomer has
  taken the connection, n times in a row and without ever getting one, if and only if more threads
  use the pool than the limit of connections, and the limit is not 0 if n is not
  (`PoolOvertaking.PassedOverIffCrowded`).
- A command is queued on a connection in error if and only if its timeout could not be set, which is
  only logged; the connection then stays in error and there is no result
  (`Connection.Execute`, with `Connection.QueuedInError` for a case of it).
- With private connections, a limit of 0 and no connection in the VCL task, opening one looks at the
  head of an empty list and ends the process on an assertion. This happens in that case only
  (`TaskContexts.OpenPrivate`): it is the outcome `aborted` of `Executor.Execute`.
- A server that Sentinel says is down, but that was already sick for a limited time, is not kept
  sick: it is used again when that time is over (`SentinelUpdate.SickIffDown`).
- A request for a Sentinel discovery that is made in the course of a turn of the thread is cleared
  without a discovery (`SentinelLoop.RequestHonoured`).
- Some numbers too large to be ports are accepted as other ports in the list of Sentinels
  (`SentinelLocations.WrongPortAccepted`).
- The assertion `servers.next < servers.n` holds because a call with retries already used always
  names a server: this is the precondition `server.Some? || retries0 == 0` of `Executor.Execute`,
  met by `Cluster.Redirect` and by src/vmod_redis.c:785-817.
- A name with bars in it is taken for a listed command if and only if its parts are consecutive words
  of a list, as in info|multi (`ClusterCommands.KeyIndexMeans`, `ClusterCommands.TwoInOne`).
- A MOVED or ASK error without a location, or with one that has no port, ends the process on an
  assertion: this is an outcome `aborted` of `Cluster.Execute` with a reply, which occurs for such
  replies only (`Cluster.MalformedExample` is one).

## Model

| member | source | states |
|---|---|---|
| `SharedPool.EveryRunKeeps` | src/core.c:1463-1547 | In every state of every run of any number of threads the pool is consistent, every busy connection is held by exactly one thread, idle connections are in step, and while somebody sleeps there are at least as many threads on their way to the mutex as there are connections that could be handed out or opened: no wakeup is lost |
| `SharedPool.StepKeeps` | src/core.c:1463-1547 | The same, for one step from any state that satisfies the invariant: attempt, sleep, connect, failed connect, spurious wakeup, exchange, release |
| `SharedPool.SectionKeeps` | src/core.c:1463-1513 | One critical section keeps the free and busy lists disjoint and without duplicates, their sizes adding up to the counter and the counter within the maximum; it ends asleep only when every allowed connection is busy |
| `SharedPool.Accounting` | src/core.c:1463-1513 | In every reachable state: counter = free + busy <= maximum, nothing is in both lists, each busy connection has exactly one holder |
| `SharedPool.SleepOnlyWhenExhausted` | src/core.c:1493-1499 | In every reachable state a sleeper that nobody is about to relieve means that all allowed connections are busy |
| `SharedPool.StuckIffNoConnectionAllowed` | src/core.c:1493-1499 | A state in which somebody sleeps while nothing is busy and nobody is awake can be reached if and only if the maximum number of connections is 0 |
| `SharedPool.WithoutThatSignalAWakeupIsLost` | src/core.c:1503-1513 | The signal after a failed connection is needed: without it there is a run of three threads at limit 1 that ends with one asleep while nothing is busy and nobody is awake, which no run of the actual protocol does |
| `PoolOvertaking.PassedOverIffCrowded` | src/core.c:1493-1499 | Given a set of threads that use the pool, some run has one of them asleep and then, n times in a row, woken by a release, too late because another thread takes the connection first, and asleep again, without ever being served, if and only if there are more threads than the maximum number of connections, and the maximum is not 0 if n is not |
| `PoolOvertaking.NobodyWaits` | src/core.c:1493-1499 | In a run of at most as many threads as connections are allowed nobody ever sleeps |
| `SharedPool.CleanWhenUsed` | src/core.c:1543-1547 | In every run, whenever a thread turns to its connection for an exchange the connection has no unread replies and is not in error; it may come to be in error within the exchange, when the timeout is set |
| `SharedPool.SectionAlwaysPossible` | src/core.c:1463-1513 | Whatever the lists and the outcome of the checks, the critical section has an outcome: no thread is blocked inside it |
| `PoolLists.LockSection` | src/core.c:1463-1513 | The C loops over the two lists, from the label retry on, are one critical section of the state machine; a connection handed out is not in error; whatever leaves the pool is counted; a connection attempt clears the sickness of the server if it succeeds and flags it if it fails, is counted accordingly, and nothing else touches either |
| `PoolLists.TakeFree` | src/core.c:1464-1488 | The loop drops exactly the unsound connections at the head of the free list and takes the first sound one |
| `PoolUse.LastPass` | src/core.c:1463-1513 | The last pass through the critical section hands over nothing, or a sound connection of the server that was idle or is new and is now busy; a thread goes to sleep only when every connection it could have is busy |
| `PoolUse.ExchangeOnce` | src/core.c:1559-1623 | One command over a connection, as the C code sends it and whether or not the timeout can be set, is an exchange of the state machine |
| `PoolUse.ReleaseOnce` | src/core.c:1534-1547 | Giving a connection back, as the C code does it, is what a release of the state machine does to the lists; the pool stays consistent and its idle connections settled |
| `Registry.Add` | src/core.c:733-848 | A location is registered once, as host and port (read as atoi does) or socket, in the queue of its weight and role; a known server keeps its identity, takes the role given, or for an unknown one another known role or none, and moves to the tail of the queue of its role, no longer sick; a clustered database refuses sockets and nothing else; the sickness that this leaves is stated exactly; everybody else is as before |
| `Registry.Find` | src/core.c:745-763 | The search finds the registered server with a location if and only if there is one |
| `Registry.Relocate` | src/sentinel.c:1180-1189 | Leaving the queue of one role for the tail of that of another keeps the registry |
| `Registry.WhereItIs` | src/core.c:1279-1282 | A registered server is in the queue of its own weight and role and in no other |
| `Registry.ComputeWeight` | src/core.c:783-795 | The weight is that of the first rule that matches, 3 without one, 0 for sockets |
| `RegistryRuns.AnyRun` | src/core.c:733-848 | Any interleaving of additions, plans, cluster discoveries and Sentinel updates keeps the registry: one queue per server, distinct locations, no sockets in clusters, a correct count; nobody is dropped and no weight changes |
| `RegistryRuns.RunFromNew` | src/core.c:216-295 | The same from a new database on |
| `Core.Database.IsValid` | src/core.c:1051-1110 | A pooled connection passes if and only if it works, was made for this VCL, is not too old, its server has not been flagged since it was opened and the peer is there; otherwise the first fault is counted |
| `Planner.PlanServers` | src/core.c:1242-1374 | The loops over rounds, weights and roles produce exactly the first elements of the declarative plan, and leave the queues rotated by round one and otherwise as they were |
| `Planner.SweepRound` | src/core.c:1264-1322 | One round picks exactly the chosen servers in the order of the queues, up to the limit, and rotates the queues that it picked from if it is the first |
| `Planner.SweepRotated` | src/core.c:1309-1318 | Rotating during one round cannot change what a later round of the same plan sees |
| `PlanProperties.PlanMembers` | src/core.c:1242-1374 | A plan has no duplicates and holds exactly the candidates: every server of the right roles; in a cluster the healthy ones that serve the slot or, only if there is none, every server |
| `PlanProperties.PlanOrder` | src/core.c:1242-1374 | Of two servers of a plan the earlier is healthy (outside a cluster and with a master wanted: a healthy master) if the later is; if they are alike in this it has a lower weight, or the same weight and a preferred role, or stands earlier in the same queue. In terms of the rounds, it was chosen in an earlier round, or in the same one and stands earlier |
| `PlanProperties.OnlyPlan` | src/core.c:1242-1374 | The plan is the one and only list that holds every candidate once and is in that order |
| `PlanProperties.QueuesAfter` | src/core.c:1309-1318 | What a plan does to each queue: the first server that it takes from it in round one goes to the tail, and a queue from which it takes none stays as it is |
| `PlanProperties.Fair` | src/core.c:1309-1318 | With roles, sickness and slots fixed, over any k consecutive plans each of the k servers that round one finds in its first queue heads exactly one plan |
| `PlanProperties.ConsecutivePlans` | src/core.c:1242-1374 | On a database to which nothing else happens, the i-th of any number of plans for the same kind of command is headed by server i modulo k of that queue, and the k servers are distinct |
| `PlanProperties.FirstAfter` | src/core.c:1309-1318 | After n plans of any sizes that queue shows its k eligible servers rotated by n modulo k |
| `PlanProperties.QueuesPermuted` | src/core.c:1309-1318 | Rotation only permutes a queue |
| `TaskContexts.Collect` | src/core.c:1202-1228 | The list of a plan is the first wanted and sound connections in order; only wanted and unsound ones are closed, each counted once, and the counter stays the length of the list |
| `TaskContexts.LockPrivate` | src/core.c:1399-1445 | Planned connections are handed out first and are never closed while they are in the plan; then the servers are tried in turn, the oldest connection being closed if there is no room |
| `TaskContexts.OpenPrivate` | src/core.c:1421-1440 | A new connection goes to the tail; the head is closed exactly if the counter has reached the maximum; the process ends on an assertion if and only if the maximum is 0 and there is no connection |
| `Executor.LockShared` | src/core.c:1448-1515 | What the executor may expect of a pool: an idle connection, with nothing else touched, or a new one of this version, or none; an attempt to connect flags or clears the server and is counted |
| `Planning.Populate` | src/core.c:1186-1374 | What is planned from connections and servers together, and that a plan with something in it has enough for all the attempts that are left |
| `Planning.PlanExecution` | src/core.c:1130-1184 | The plan for a given server, or for a slot; it is empty if and only if no server was given and nobody can be planned; what becomes of the private list and of the queues is stated exactly |
| `Planning.AvailableMeans` | src/core.c:1140-1228 | The private connections that a plan can use are exactly the sound ones to the server given, or to servers in the role wanted that, in a cluster, serve the slot |
| `Planning.PlanCall` | src/core.c:600-604 | The plan of a call without a given server leads only to registered servers that suit it: in a cluster those that serve the slot in the role wanted, if one of them is healthy; elsewhere no slaves if a master is wanted |
| `Connection.Execute` | src/core.c:1559-1623 | A result is the reply to the caller's own command, served in the mode it was meant for, whatever it is wrapped in; nothing is queued while there are unread replies; the whole pipeline is queued in error if the timeout cannot be set and nothing is otherwise, and in error there is no result; the reply, if it arrives, is handed over as it is; afterwards the connection is broken if and only if some reply did not arrive, and otherwise fully read and back in its initial mode |
| `Connection.QueuedInError` | src/core.c:1571-1589 | GET over a new connection whose timeout cannot be set is queued in error and comes to nothing |
| `Connection.Wrapped` | src/core.c:1579-1589 | The server executes the caller's command read-only exactly on slaves of clusters and under ASKING exactly if asked to, and the wrapping leaves no mode behind |
| `Executor.Attempt` | src/core.c:616-672 | EVAL is tried as EVALSHA with the SHA-1 of the script, and sent itself if and only if that was answered by NOSCRIPT, which is counted; the result is the last reply, if it arrived; an attempt that starts from EVAL returns NOSCRIPT for EVALSHA only if the connection broke; what went over the connection is exactly one or two wrapped commands, and the reply answers the command that the arguments then hold |
| `Executor.IsEvalMeans` | src/core.c:620 | EVAL is recognized in any case, with at least one argument |
| `Executor.TryOnce` | src/core.c:610-690 | One attempt keeps the private connections counted, distinct, in step and within the maximum, and the rest of the plan usable; it ends the process exactly if a private connection must be opened at limit 0 with none to close |
| `Executor.Retry` | src/core.c:609-719 | The loop ends after exactly one attempt more than the retries it used, unless the process ends before, each attempt counted as total or failed, and never runs out of servers; a reply comes from the server whose turn the successful attempt was: those of the planned connections in order, then those of the plan in a circle |
| `TaskContexts.NoneTwice` | src/core.c:1399-1445 | In that order no server of a plan is tried again before all of them have been tried |
| `Executor.Execute` | src/core.c:588-731 | The call never reaches the failing assertion on servers and never hands out a closed connection; the reply comes from a registered server of the database, from the given one if there is one, and was served under ASKING exactly if asked to and read-only exactly by slaves of clusters; the call is planned for its slot and role, each attempt is for whoever the plan names for it, and without a given server whoever answers suits the slot (`Planning.PlanCall`); total + failed grow by exactly the attempts, retries stay within the maximum, and it gives up only with all of them used; there is no attempt if nobody can be planned; it ends the process only with private connections, limit 0 and none left, and then always if there was none to begin with |
| `TaskRuns.AnyRun` | src/vmod_redis.c:805-818 | Any number of commands on any number of databases, clustered ones with their redirections and discoveries, keep the private connections counted, distinct and settled, and never more than the largest maximum among the databases |
| `HashSlot.GetClusterSlot` | src/cluster.c:658-692 | The slot is the CRC of the hashed part of the key modulo 16384 |
| `HashSlot.TagDecides` | src/cluster.c:658-692 | Keys with the same non-empty tag are hashed by the tag alone, whatever surrounds it |
| `HashSlot.TagOrWhole` | src/cluster.c:658-692 | Every key is hashed whole or is of that form |
| `Cluster.Execute` | src/cluster.c:39-170 | At most max_retries + max_hops + 1 attempts (UINT_MAX for no limit of hops), and none left undone: without a result the retries or the hops are used up; no error that starts with MOVED or ASK handed to the caller, every attempt counted, the registry and the connections kept; the first call is planned for the slot of the key, CRC-16 of its hashed part modulo 16384, and whoever answers it suits that slot; the reply comes from a registered server, the one that the last redirection named, under ASKING exactly if that was ASK, and read-only exactly from slaves; a command without a key is not sent |
| `ClusterCommands.KeyIndexMeans` | src/cluster.c:634-656 | For every name, searching the two lists of commands as text, with long names cut off, comes to this: the parts of the name between its bars are a run of the listed words, in any case, or the key is the first argument |
| `ClusterCommands.WithoutBars` | src/cluster.c:634-656 | For a name without bars: exactly the commands in the lists are refused, or have their key in third place |
| `ClusterCommands.TwoInOne` | src/cluster.c:634-656 | A name made of info and multi with a bar between them is refused, although no list has it |
| `Cluster.RedirectionMeans` | src/cluster.c:77-100 | A redirection is an error that starts with MOVED or ASK, never with both |
| `Cluster.Redirect` | src/cluster.c:60-152 | The loop terminates, and its redirections form a trail: each is the answer of the server that the one before named, all of them registered, served under ASKING exactly if that was ASK, and so is the reply in the end |
| `Cluster.ExecuteOnce` | src/cluster.c:60-142 | One turn of the loop: the reply is the caller's, or a redirection that was followed, or a malformed one, on which the process ends; either way it comes from the server given, under ASKING exactly if told so |
| `Cluster.Follow` | src/cluster.c:80-131 | The server named by a redirection is registered, in the role that it names itself if it can be asked; after an error that starts with MOVED, and only then, the topology is learnt again, from that server if it says anything of use, and everybody has the slots of one reply or those of before; ASKING is set exactly after ASK; a redirection cannot be followed if and only if it names no location with a port |
| `Cluster.TargetRoundTrip` | src/cluster.c:80-85 | The location that a server writes in a redirection is the one that is read from it |
| `Cluster.MalformedExample` | src/cluster.c:77-97 | The error "ASK me later" is taken for a redirection that cannot be followed |
| `ClusterReply.ParseNode` | src/cluster.c:215-306 | One pass over the pairs of a node gives what looking up each property on its own gives: the last acceptable value counts |
| `ClusterReply.NodeIff` | src/cluster.c:215-306 | A node is accepted if and only if it is a table that says a role and a port that can be used, and does not say last that its endpoint is unknown |
| `ClusterReply.NodeRole` | src/cluster.c:259-266 | Its role is the last one it says, master or replica |
| `ClusterReply.NodeHealth` | src/cluster.c:267-270 | It is healthy unless the last thing it says about that is not "online" |
| `ClusterReply.NodeEndpoint` | src/cluster.c:273-281 | It stands at the endpoint it says last, or at the host that was asked if it says none, an empty or a null one |
| `ClusterReply.NodePort` | src/cluster.c:283-299 | Its port is the TLS one if TLS is to be used and the other one if not; where TLS is built in either stands in for the other if that is not said |
| `ClusterReply.ParseShard` | src/cluster.c:451-469 | One pass finds the last acceptable slots and nodes of a shard |
| `ClusterReply.ParseRanges` | src/cluster.c:490-496 | Exactly the valid ranges are kept, in order |
| `ClusterReply.PropertyMeans` | src/cluster.c:454-469 | The value of a property is that of the last pair that gives it an acceptable one |
| `ClusterReply.RangesMean` | src/cluster.c:490-496 | A slot is in one of the ranges kept if and only if some pair of the reply is a valid range around it |
| `ClusterReply.NodesMean` | src/cluster.c:499-513 | A node is registered at a location if and only if some entry of the reply is acceptable and stands there |
| `ClusterReply.LocationRoundTrip` | src/cluster.c:339-340 | The location printed for a node is parsed as its endpoint and port |
| `Discovery.DiscoverFrom` | src/cluster.c:373-602 | After any reply: no range was registered, nobody's slots changed and the discovery failed; or everybody has exactly the slots that the reply gives them. Announced servers are registered with the role and health announced last, others are as before, nobody leaves |
| `Discovery.LastAnnouncementCounts` | src/cluster.c:499-513 | What a discovery goes by for a location is the last acceptable announcement of it, in the order of the reply |
| `Discovery.DiscoverSlots` | src/cluster.c:604-632 | However many servers have to be asked: either nobody's slots change, or everybody has exactly the slots of the one reply of the one server that was asked last, which is the first one if its reply is of any use; failures are counted |
| `Discovery.WhoServes` | src/cluster.c:498-535 | A server gets a slot if and only if the reply has a shard with an acceptable node at its location and a valid pair of slots around that slot |
| `Discovery.RegistrationsMean` | src/cluster.c:498-535 | The registrations made one by one are exactly those that some shard asks for |
| `Discovery.SlotsMean` | src/cluster.c:526-534 | Registering ranges one after the other sets the union of them |
| `Discovery.AssignSlots` | src/cluster.c:515-534 | Whether or not this is the registration that first clears all slots, afterwards everybody has the slots of all registrations so far |
| `Discovery.AddNode` | src/cluster.c:327-371 | A node is registered unless its location is too long, and is sick exactly if it was announced as not online and sickness is in use |
| `Discovery.ResetSlots` | src/cluster.c:308-325 | The walk over all queues clears the slots of every registered server |
| `SentinelInventory.State.Store` | src/sentinel.c:720-770 | The inventory stays keyed by host and port and becomes the old one with the report applied; the time of the last change moves if and only if the inventory does |
| `SentinelInventory.LastRoleWins` | src/sentinel.c:737-761 | A server is in the inventory if and only if it was reported, with the role reported last |
| `SentinelInventory.LastFlagWins` | src/sentinel.c:737-761 | It is down if and only if the last report that says anything about that says so |
| `SentinelUpdate.UpdateServer` | src/sentinel.c:1163-1228 | One server takes the role of the inventory, moving to the tail of the new queue, and the sickness that follows from the clock |
| `SentinelUpdate.WalkQueue` | src/sentinel.c:1245-1250 | Walking a queue that loses servers while it is walked leaves nobody in it out: the queue keeps those that stay, in order, those that leave are appended to the other queues in order, and everybody met is up to date |
| `SentinelUpdate.UpdateDb` | src/sentinel.c:1240-1253 | Walking all queues while servers move between them, some being met twice, amounts to one simultaneous update: everybody in the inventory has its role and the sickness of one look at one time, all others are untouched, and every queue consists of those that stayed, in order, and then of those that came from the other queues of its weight, in the order in which they were met |
| `QueueMerge.AllWalked` | src/sentinel.c:1242-1252 | Walking three queues one after the other, each element moving to the tail of the queue it belongs to, moves nobody twice and leaves each queue with its own elements followed by the arrivals |
| `SentinelUpdate.UpdateDbs` | src/sentinel.c:1230-1256 | Every database that is not a cluster is updated so, roles, sickness and the order of every queue; clusters are left alone |
| `SentinelUpdate.SecondLook` | src/sentinel.c:1197-1215 | Meeting a server a second time gives what one look gives |
| `SentinelUpdate.SickIffDown` | src/sentinel.c:1197-1215 | Right after the look a server is sick if and only if it is down; this lasts if and only if it is not the case that it is down and was already sick for a limited time |
| `SentinelLoop.TakeTurn` | src/sentinel.c:320-469 | One turn: all that was reported is in the inventory, and whatever changed is pushed to the databases in the same turn unless the thread is stopping: roles, sickness and the order of every queue are then those of one update, and otherwise nothing has changed |
| `SentinelLoop.RequestHonoured` | src/sentinel.c:325-465 | A request for a discovery leads to one in the next turn if and only if it is made between turns; made in the course of a turn it only causes an update and is forgotten |
| `SentinelLocations.SetLocations` | src/sentinel.c:647-718 | On every input the parser ends with all items, or with none and one of five errors, as the grammar of items says |
| `SentinelLocations.ParseItem` | src/sentinel.c:656-691 | The backward scans and the forward one agree with the grammar: host, colon, digits, spaces |
| `SentinelLocations.ErrorsMean` | src/sentinel.c:656-691 | Which of the errors is reported for what: nothing there, no colon, no digits, not a port, no host |
| `SentinelLocations.RoundTrip` | src/sentinel.c:647-718 | Printing any list of printable items, also the empty one, with any mixture of commas and spaces between them and parsing it gives back the list |
| `SentinelLocations.WrongPortAccepted` | src/sentinel.c:678-683 | A number that is not a port is read as one if and only if it needs more than 32 but not more than 63 bits and its low 32 bits are a port |
| `Sha1.Transform` | src/sha1.c:56-179 | The circular schedule in place and the 80 unrolled rounds with rotated names compute the 80-word method of section 7 of FIPS PUB 180-1, for every state and block and both byte orders |
| `Sha1.Blk` | src/sha1.c:43-44 | A word of the schedule computed in place in 16 words is the word of the 80-word schedule |
| `Sha1.Blk0OfMachineWord` | src/sha1.c:34-39 | Whatever the byte order of the machine the first 16 words are big-endian |
| `Sha1.ChoiceIsChoice` | src/sha1.c:47-48 | The rewritten choice function is that of the standard |
| `Sha1.MajorityIsMajority` | src/sha1.c:50 | The rewritten majority function is that of the standard |
| `Sha1.Sha1Ctx.constructor` | src/sha1.c:184-195 | A new context stands for the empty message |
| `Sha1.Sha1Ctx.Update` | src/sha1.c:200-228 | State, buffer and the two-word count always stand for the message so far, whatever its pieces were |
| `Sha1.CountAdds` | src/sha1.c:210-213 | The two-word count with its carry is the number of bits modulo 2^64 |
| `Sha1.Sha1Ctx.Final` | src/sha1.c:233-282 | The digest is that of the message, and the context is wiped |
| `Sha1.Streamed` | src/sha1.c:200-282 | For every message and every way to cut it into pieces the digest is the FIPS PUB 180-1 digest of the whole |
| `Sha1.Sha1` | src/sha1.c:284-298 | The same, byte by byte |
| `Sha1.ScriptName` | src/core.c:1625-1648 | The name of a script is its digest in 40 hexadecimal digits |
| `Sha1.HexByteMeans` | src/core.c:1640-1643 | Two hexadecimal digits name the value of a byte, the higher one first |
| `Sha1.HexMeans` | src/core.c:1640-1643 | Each byte of the digest is named in its place |
| `Sha1.HexInjective` | src/core.c:1640-1643 | Different digests have different names |
| `Crc16.Crc16` | src/crc16.c:84-90 | The table-driven loop computes the remainder of bit-serial division by x^16 + x^12 + x^5 + 1 with initial value 0, for every byte string |
| `Crc16.TableIsDivision` | src/crc16.c:49-82 | Each of the 256 entries of the table is the remainder for its byte |
| `Crc16.CrcLinear` | src/crc16.c:84-90 | The CRC of the exclusive or of two strings of equal length is the exclusive or of their CRCs |
| `Crc16.BurstDetected` | src/crc16.c:84-90 | Strings of equal length that differ only within two consecutive bytes have different CRCs |
| `Crc16.CrcSuffixInjective` | src/crc16.c:84-90 | Different CRCs stay different under any common continuation |
| `Crc16.CheckWord` | src/crc16.c:84-90 | A message followed by two bytes is divisible by the polynomial if and only if the bytes are its CRC |

## Left out

- Cluster.Execute: the log line about too many redirections, which also appears when the last hop succeeds, is not modelled.
- Executor.LockShared: with shared connections the executor sees only what it is handed, which PoolUse.LastPass shows the pool to hand over; waiting and the lists are the subject of SharedPool and PoolLists, and a thread that sleeps for ever (limit 0) is not distinguished from one that gets nothing.
- Executor.Execute: building the plan is one step, although the roles of servers are read before the database is locked; the workspace never runs out.
- Executor.Attempt: over several attempts NOSCRIPT can still surface, since the arguments stay rewritten to EVALSHA after an attempt that failed (src/core.c:621-665).
- Discovery.DiscoverSlots: the walk over the other servers asks arbitrary servers a finite number of times; that the walk in src/cluster.c:604-632 itself terminates is not claimed, since nodes of shards without slots are added, and lists reordered, even by a failed attempt.
- Discovery.DiscoverFrom: one reading of the clock per reply; the number of parse errors, which is only logged, is not modelled.
- Registry.Add: what a server answers when asked for its role is an input; weight rules are arbitrary predicates on the location; ports that do not fit in an int are read as the GNU C library reads them.
- Core.Database.IsValid: whether the peer has hung up is an input.
- PlanProperties.Fair: stated for the first queue in which round one finds anybody, since others are reached only by plans that are longer than it.
- SentinelLoop.TakeTurn: notifications and discovery replies are lists of reports; the event loop, the callbacks and the parsing of Sentinel messages are not modelled.
- SentinelUpdate.UpdateDbs: databases are distinct objects with distinct queues.
- SharedPool.EveryRunKeeps: connections and threads are numbers, and sleeping lets any number of spurious wakeups happen; the time at which a connection is checked is not modelled.
- Sha1.Sha1: the zero byte stored after the digest is not modelled, nor is the wiping of local variables.
- Slots of a server are a sequence of flags that is replaced, not an array written in place.
- C strings are sequences of characters without a terminating zero.
- Connection setup (TLS, AUTH, HELLO, keep-alive), poll and the client library: only success or failure, and the next reply in order or an error that stays. Push messages of RESP3 are not modelled.
- The entry points, proxied methods, reply accessors and statistics of src/vmod_redis.c: thin wrappers; among them the reset of pools on a cold event, which assumes idle pools.
- serialize_redis_reply: VSB_quote is not part of this model.
- Freeing of objects: a connection that leaves a list is simply no longer in it.
