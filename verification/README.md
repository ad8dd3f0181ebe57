# A verified model of cotun

cotun is a TCP/UDP tunnel over SSH. This project models the five places of it
that hold hard state, concurrency, parsing or arithmetic, and proves what each
is for:

- **the port allocator and the sessions that use it**: two maps over shared
  mutable records, changed by requests, by a sweep timer, and by sessions that
  write their record later through a pointer without the lock
  (`PortModel`, `PortAllocators`, `PortRuns`, `PortLifetime`, `PortEffects`,
  `Interleaving`, `Sessions`, `Timers`);
- **the reconnect gate**: a wait group whose `Done` may be called too often,
  around the active SSH connection (`WaitGroups`, `ReconnectGate`);
- **UDP multiplexing** on the exit and the entry side (`UdpExit`, `UdpEntry`);
- **the remote grammar**: scanner, back-to-front decoder, printer, and the exit
  side's own reading (`RemoteGrammar`, `RemoteScan`, `RemotePorts`,
  `RemoteRoundTrip`, `RemoteForms`, `TunnelEnds`);
- **byte streams and key arithmetic** (`WsStream`, `DetermRand`, `FieldElement`).

Code that changes objects in place is modelled by classes whose methods are
proved equal to a function of the old state; what the source promises is then
proved about those functions, over all runs. Code that several goroutines run
at once is modelled as a state machine whose steps are the atomic instructions
or the sections under one lock, in any order and any number. Times are integers
in nanoseconds; the clock, the network, `url.Parse`, lower-casing beyond ASCII,
the user's access test, `CanListen` and SHA-512 are parameters.

`dafny verify dfyconfig.toml` checks the whole project.

## What the code does not do

Each of these is proved, with the exact condition under which the promise holds.

- *A client keeps its port for ten minutes after it disconnects* (comment at
  server/port_allocator.go:170-172). The end of a session writes only the status
  (server/server_handler.go:182), so the ten minutes count from the allocation:
  `PortLifetime.HoldAfterSessionEnd`, and for whole runs
  `PortLifetime.HoldOnRunsAfterSessionEnd`; a client connected for longer than ten
  minutes can lose its port at once (`PortLifetime.LostAtOnce`). `OnDisconnected`
  would keep the promise (`PortLifetime.HoldAfterOnDisconnected`), but nothing
  calls it.
- *A key names one client* (server/port_allocator.go:52). It does exactly when no
  field of it has a dash: `PortRuns.KeyIsUnique`. Anybody else shares the record,
  and the port, with another identity: `PortRuns.SharedKey`, `PortRuns.CollidingPair`.
- *A refused session leaves nothing behind* (server/server_handler.go:122-150). It
  leaves its record Connected, beyond the reach of every sweep, exactly when
  OnConnected succeeded on its first reverse remote:
  `Sessions.RefusedSessionKeepsPort`, for instance `Sessions.RefusedBySecondRemote`;
  `Sessions.ConnectsWhen` says when that is. Otherwise it changes nothing
  (`Sessions.LeavesNothing`).
- *A port is safe from the sweep while its session is up.* It is exactly as long as
  its key is not allocated again or freed and no session on its record ends:
  `Sessions.ServesStep`, `Sessions.LiveSessionOutlasts`. A connected client that asks
  for its port again loses it to a sweep ten minutes later
  (`Sessions.LiveSessionLosesPort`).
- *A port belongs to one key.* A bulk free followed by a recycled port gives one
  port to two keys: `PortRuns.BulkFreeBreaksOneToOne`; recycling is the only step
  that ever does (`PortRuns.OneToOneStep`), and the HTTP handlers cannot reach it
  (`PortRuns.HandlerRunsAreOneToOne`).
- *Printing a remote and decoding it gives the remote back.* Not for `/UDP` in
  upper case, for the single word `stdio`, for a host that ends in `/tcp` or
  `/udp`, or for a local host `stdio` or `R`: `RemoteRoundTrip.RoundTrip` says
  exactly when, for every record.
- *The wait group's inner counter is never negative.* It is when a `Done` or
  `DoneAll` lands between the two instructions of an `Add`:
  `WaitGroups.DoneInsideAdd`, and for the gate `ReconnectGate.NegativeCounter`, as
  it happens in `ReconnectGate.CancelInsideAdd`.
- *An open gate means there is a connection.* Not after a late cancellation:
  `ReconnectGate.OpenWithoutConnection`, `ReconnectGate.LateCancelOpensGate`. A
  caller of `getSSH` is then let through at once and given nil
  (`ReconnectGate.LetThroughToNothing`).
- *Somebody awaits the replies to every UDP datagram that is written.* Only if the
  datagram's connection is still the source's in the map and the source was never
  refused a reader: `UdpExit.ReplyIsAwaited`, an equivalence over all runs. It fails
  in two ways. A source that arrives when the map already holds 100 others is
  refused and hears nothing before the channel closes (`UdpExit.RefusalMutes`,
  `UdpExit.MuteUntilClosed`, and for any 101 sources `UdpExit.HundredAndFirst`). And
  even a single source's datagram goes unanswered when its reader finishes between
  dial and write (`UdpExit.ReaderLeavesFirst`).
- The comment at share/settings/remote.go:12-33 gives `127.0.0.1` as the default
  local host; the code and its tests use `0.0.0.0`, and so does the model.

## Model

| member | source | states |
|---|---|---|
| `PortRuns.Next` | server/port_allocator.go:47-278 | every locked method and every unlocked session write keeps the weak index invariant: `names` files a record under its own key, `ports` under its own port, each record in `ports` is the very one `names` has under its key, and no AllocTime is nil |
| `PortRuns.Run` | server/port_allocator.go:47-278 | so the invariant holds after every run, bulk frees and recycled ports included |
| `PortModel.RemoveKeepsInv` | server/port_allocator.go:206-216 | the collect-then-delete loops keep it for any set of indexed records |
| `PortRuns.OneToOneStep` | server/port_allocator.go:80-96 | from mutually inverse indexes a step leads to mutually inverse indexes if and only if it does not recycle a Freed port |
| `PortRuns.HealthyNeverRecycles` | server/port_allocator.go:80-96 | while no indexed record is Freed the recycle loop never fires |
| `PortRuns.HealthyStep` | server/server_handler.go:388-400 | with the DELETE handler's guard (no bulk free), no step leaves a Freed record indexed or the indexes not inverse |
| `PortRuns.HealthyRun` | server/server_handler.go:388-400 | the same over whole runs, with unlocked session ends interleaved anywhere |
| `PortRuns.HandlerRunsAreOneToOne` | server/port_allocator.go:47-278 | on every handler run from an empty allocator no two keys hold one port and both maps hold exactly the same records |
| `PortRuns.BulkFreeBreaksOneToOne` | server/port_allocator.go:193-204 | with a bulk free, for all identities with distinct keys, a five-step run on a pool of one port ends with two keys on that port |
| `PortRuns.AllocateIsFirstFit` | server/port_allocator.go:60-99 | a new key gets the least port of the pool nobody holds, under both indexes; it fails, changing nothing, exactly when as many keys as the pool has ports are on in-range ports |
| `PortRuns.Capacity` | server/port_allocator.go:60-99 | the keys on in-range ports never outnumber the pool, and equal it exactly when every port is taken |
| `PortRuns.StickyStep` | server/port_allocator.go:47-278 | a step takes a key out exactly when it is an exact free of that key or a sweep that finds it expired; otherwise the key keeps its record and port |
| `PortRuns.PortIsSticky` | server/port_allocator.go:53-59 | over any run that does not delete the key, it keeps its port, and asking again returns that port |
| `PortEffects.AllocationWaits` | server/port_allocator.go:53-95 | whoever is answered, new key or known, gets a record that is Allocated since the request with its client port and not started, indexed under the key; a known key keeps its port and both maps, a new one gets a new record; every other record is untouched, and a failure changes nothing |
| `PortEffects.PortForNewKey` | server/port_allocator.go:61-99 | on any run, a new key gets the least port nobody holds, else the least whose record is Freed, else an error |
| `PortEffects.RequestIsFreed` | server/port_allocator.go:260-278 | a port that was asked for and never touched again is gone fifteen minutes after the request |
| `PortEffects.RequestIsKept` | server/port_allocator.go:267 | and no sweep takes it within ten minutes |
| `PortEffects.RequestIsHonoured` | server/port_allocator.go:102-153 | the client that asked can connect on the port it was given, whether it sends identity headers or not, and gets that record |
| `PortEffects.ConnectEffect` | server/port_allocator.go:102-168 | a client with all three names is looked up by key, another by port; it is given its record, Connected since now on the two ports it asked for, nothing else changing but a new record being indexed, or it is refused for the one reason that is true and nothing changes |
| `PortEffects.DisconnectedWaits` | server/port_allocator.go:173-181 | OnDisconnected would make the record wait as if its port had just been asked for |
| `PortEffects.FreeEffect` | server/port_allocator.go:188-217 | without a user or an application, all indexed records of the client are marked and stay in both maps; with both, the key's one record is marked and leaves both; nothing else changes |
| `PortEffects.BulkFreeReports` | server/port_allocator.go:194-203 | a bulk free reports exactly the indexed records of the client that were not Freed before |
| `PortEffects.SweptIsFreed` | server/port_allocator.go:266-276 | what a sweep takes is Freed and otherwise as it was |
| `PortRuns.KeyIsUnique` | server/port_allocator.go:52 | a key is the key of one identity alone if and only if none of its three fields has a dash |
| `PortRuns.OneDashFreeIdentity` | server/port_allocator.go:52 | every key is the key of exactly one identity whose user and application have no dash, so identities of that kind never collide, whatever their clients are called |
| `PortRuns.SharedKey` | server/port_allocator.go:52-58 | for every identity with a dash in some field there is another with the same key, and its allocation is answered with the first one's port |
| `PortRuns.CollidingPair` | server/port_allocator.go:52 | for instance client a-b of user c, and client a of user b-c |
| `PortLifetime.ExactFreeDetaches` | server/port_allocator.go:206-216 | after an exact free the key's record is in neither map, whatever happened before |
| `PortLifetime.DetachedForever` | server/port_allocator.go:64-95 | a record out of both maps never re-enters either, on any run |
| `PortLifetime.LateEndIsInvisible` | server/server_handler.go:182 | a session that ends after its port was freed changes nothing reachable from the allocator, now or on any continuation of the run |
| `PortLifetime.SweepRemovesExpired` | server/port_allocator.go:260-278 | a sweep removes exactly the Allocated entries more than ten minutes old from both maps and changes no other entry; Connected ones stay |
| `PortLifetime.RetentionExact` | server/port_allocator.go:260-278 | on a run that leaves it alone, an Allocated entry is gone from both maps if some sweep came more than ten minutes after its AllocTime, and otherwise is there unchanged |
| `PortLifetime.GoneWithinFifteenMinutes` | server/server.go:204-221 | under an ideal five-minute ticker, an untouched entry is gone no later than fifteen minutes after its AllocTime |
| `PortLifetime.KeptForTenMinutes` | server/port_allocator.go:267 | no sweep within the first ten minutes takes it |
| `PortLifetime.HoldAfterSessionEnd` | server/server_handler.go:182 | the key survives every sweep of the ten minutes after the session's end if and only if it was allocated no earlier than that end |
| `PortLifetime.FateAfterSessionEnd` | server/server_handler.go:182 | on any run after the session's end that leaves the record alone, it is gone if a sweep came more than ten minutes after its allocation, and otherwise there |
| `PortLifetime.HoldOnRunsAfterSessionEnd` | server/server_handler.go:182 | all such runs of the ten minutes after the end keep the key if and only if it was allocated no earlier than that end |
| `PortLifetime.LostAtOnce` | server/server_handler.go:182 | a run from an empty allocator on which a connected client's key is gone with the first sweep after its session's end |
| `PortLifetime.HoldAfterOnDisconnected` | server/port_allocator.go:170-181 | through OnDisconnected it would survive them always |
| `PortAllocators.PortAllocator.constructor` | server/port_allocator.go:31-38 | an empty allocator over the given range |
| `PortAllocators.PortAllocator.AllocatePort` | server/port_allocator.go:47-100 | on the real maps and shared objects: result and new state of the specification; only records created in this call are added |
| `PortAllocators.PortAllocator.OnConnected` | server/port_allocator.go:160-168 | the same; the pointer returned is the indexed record itself |
| `PortAllocators.PortAllocator.ApplyNew` | server/port_allocator.go:102-136 | the same for clients that identify themselves, with all three conflict errors |
| `PortAllocators.PortAllocator.ApplyOld` | server/port_allocator.go:138-153 | the same for clients that send two ports, with its three errors; no record is created |
| `PortAllocators.PortAllocator.OnDisconnected` | server/port_allocator.go:173-181 | through any pointer ever handed out, the one record changes, indexed or not |
| `PortAllocators.PortAllocator.FreePort` | server/port_allocator.go:188-217 | bulk or exact: the specification's new state, and a list of exactly the records freed, each once |
| `PortAllocators.PortAllocator.FreeClient` | server/port_allocator.go:194-203 | the bulk loop, over the map in any order, marks exactly the client's records not yet Freed and deletes nothing |
| `PortAllocators.PortAllocator.FreeHangingPorts` | server/port_allocator.go:260-278 | the specification's sweep, for any order of the map, and a list of exactly the records swept |
| `PortAllocators.PortAllocator.LookupPort` | server/port_allocator.go:225-237 | the key's own record, unless there is none or it is Freed |
| `PortAllocators.PortAllocator.QueryPorts` | server/port_allocator.go:239-258 | exactly the indexed records that match all non-empty fields, each once; at most one when all three are given, which the GET handler relies on |
| `Interleaving.Others.Perform` | server/port_allocator.go:47-278 | on the real objects, any request, sweep or unlocked session write, through any pointer ever made, is the step of the value runs, and the allocator stays valid |
| `Interleaving.Others.PerformAll` | server/port_allocator.go:47-278 | so any interleaving on the real objects is a value run, and every property of runs is one of the program's objects |
| `Timers.RunFreeHangingTimer` | server/server.go:204-221 | the ticker loop, with other goroutines at work between the ticks, is the run that sweeps at each tick |
| `Timers.TimerIsIdealTicker` | server/server.go:205 | that run has a sweep every five minutes when the ticks come on time |
| `Timers.TimerFreesHangingPort` | server/server.go:204-221 | so on the timer's own run an untouched entry is gone within fifteen minutes |
| `Sessions.HandleRequestHeader` | server/server_handler.go:289-297 | a fresh Freed record without ports, unknown to the allocator |
| `Sessions.HandleRemoteOn` | server/server_handler.go:302-326 | on the real objects: the session goes on with its own record or the one the allocator handed out, or is refused |
| `Sessions.ValidateRemotes` | server/server_handler.go:122-150 | the validation loop, with other goroutines at work between any two remotes, ends with the verdict, the record and the allocator state of the specification |
| `Sessions.ApplyTests` | server/server_handler.go:130-149 | the tests of one remote, in the order that decides the message |
| `Sessions.AcceptedPassedAll` | server/server_handler.go:122-152 | unless a port is refused, a config is accepted if and only if every remote passes the access, reverse and listen tests, whatever other goroutines do in between |
| `Sessions.FirstFailureDecides` | server/server_handler.go:130-149 | a refusal is for the first remote that fails, with the reason that is true of it |
| `Sessions.ForwardOnly` | server/server_handler.go:306-308 | forward remotes never touch the allocator |
| `Sessions.ConnectsOnFirstReverse` | server/server_handler.go:302-326 | OnConnected runs on the first reverse remote and, unless the record is freed meanwhile, never again; its record is then Connected and indexed under its key, and under its port where the indexes are inverse |
| `Sessions.KeepsItsRecord` | server/server_handler.go:303-305 | a record handed out is kept to the end of validation while nobody frees it |
| `Sessions.FreedMeanwhile` | server/server_handler.go:303-319 | when its record was freed meanwhile, a session's next reverse remote on the same ports claims them again, and a named client has them back if nobody took its key or port; on other ports it goes on with the freed record and the allocator is untouched |
| `Sessions.ConnectedSurvives` | server/port_allocator.go:266-271 | a Connected record nobody aims at stays as it is through every sweep |
| `Sessions.ServesStep` | server/port_allocator.go:47-278 | a record stays Connected on its port, filed under its key, over a step if and only if the step does not allocate its key again, free it, or end a session on it |
| `Sessions.ServesRun` | server/port_allocator.go:47-278 | and so over every run without such steps, with any sweeps and connects |
| `Sessions.OutlastsWhen` | server/port_allocator.go:266-271 | a record outlasts the sweep of every time if and only if it is not Allocated, whether or not a session is up |
| `Sessions.LiveSessionOutlasts` | server/port_allocator.go:53-58 | of the requests the handlers let through, exactly those steps cost a live session that hold |
| `Sessions.LiveSessionLosesPort` | server/port_allocator.go:53-58 | a handler run on which a connected client asks again and a later sweep takes key and port from its live session |
| `Sessions.HoldsIffTaken` | server/server_handler.go:122-150 | whatever else happens, a session ends its validation with a record of the allocator if and only if OnConnected succeeded on its first reverse remote, which it reached |
| `Sessions.RefusedSessionKeepsPort` | server/server_handler.go:122-150 | for any config and whatever the verdict: if so, and nothing takes the record away meanwhile, it is Connected on that remote's port and stays so through every run that does not allocate its key again, free it or end a session on it; OnConnected ran exactly once then, and a port refusal means it never succeeded |
| `Sessions.RefusedBySecondRemote` | server/server_handler.go:132-138 | for instance access denied on a second remote: the verdict is a refusal and the first one's port stays taken |
| `Sessions.LeavesNothing` | server/server_handler.go:122-150 | a session that ends validation without a record of the allocator has changed nothing in it: its state is what the other goroutines made of it |
| `Sessions.ConnectsWhen` | server/port_allocator.go:102-168 | OnConnected succeeds if and only if, for a client that identifies itself, its key's record has both ports or the key is new and the port free, and for another, the port's record is Allocated with that client port |
| `Sessions.EndOf` | server/server_handler.go:182 | the session's last write is one write of one record, through its pointer |
| `WaitGroups.BalancedStep` | share/tunnel/wg.go:13-28 | each atomic instruction keeps the books: inner is n less the Adds under way plus the Dones that won the swap, with n wrapped to 32 bits |
| `WaitGroups.BalancedRun` | share/tunnel/wg.go:13-28 | so do all interleavings of any number of goroutines |
| `WaitGroups.ExactStep` | share/tunnel/wg.go:13-22 | n stays non-negative and unwrapped over a step if and only if the step is not an Add too large or too negative; Dones never spoil it |
| `WaitGroups.CountersNeverNegative` | share/tunnel/wg.go:13-28 | in every interleaving n is never negative, and inner is not either while no Add is half done |
| `WaitGroups.DoneInsideAdd` | share/tunnel/wg.go:13-22 | a Done inside an Add drives inner to -1 |
| `WaitGroups.PanicOnlyInsideAdd` | share/tunnel/wg.go:13-22 | inner goes below zero only while some Add is half done |
| `WaitGroups.DoneIsWaitFree` | share/tunnel/wg.go:18-22 | whatever others do, a Done is over after at most three instructions: a lost race is not tried again |
| `WaitGroups.WinsLowerByOne` | share/tunnel/wg.go:18-22 | n is lowered only by winning the swap, by one, and each winner then lowers inner by one |
| `WaitGroups.DoneAllLeavesNothing` | share/tunnel/wg.go:24-28 | a DoneAll ends at its test if and only if n is not positive then |
| `WaitGroups.SoloDoneAllDrains` | share/tunnel/wg.go:24-28 | undisturbed, the instructions of a DoneAll take both counters down by exactly n |
| `WaitGroups.WaitGroup.Add` | share/tunnel/wg.go:13-16 | both counters rise, n in 32 bits |
| `WaitGroups.WaitGroup.Done` | share/tunnel/wg.go:18-22 | a Done too many changes nothing, another lowers both counters alike |
| `WaitGroups.WaitGroup.DoneAll` | share/tunnel/wg.go:24-28 | an open count goes to zero, in both counters alike |
| `ReconnectGate.InvStep` | share/tunnel/tunnel.go:72-105 | the gate's invariant, over BindSSH's steps and every canceller's instructions |
| `ReconnectGate.NeverDoubleBind` | share/tunnel/tunnel.go:82-88 | over any number of reconnects, with each connection's DoneAll at any later moment, n stays 0 or 1 and the double-bind panic is unreachable |
| `ReconnectGate.OpenMeansConnected` | share/tunnel/tunnel.go:86-103 | until the first cancellation an open gate means there is an active connection |
| `ReconnectGate.OpenWithoutConnection` | share/tunnel/tunnel.go:74-80 | afterwards it is open without one exactly when a canceller has taken the count since it was last raised and none is half done |
| `ReconnectGate.NegativeCounter` | share/tunnel/tunnel.go:100 | inner is negative exactly when a canceller took the count inside BindSSH's Add |
| `ReconnectGate.CancelInsideAdd` | share/tunnel/tunnel.go:74-100 | a run from New on which it is -1 |
| `ReconnectGate.OneConnection` | share/tunnel/tunnel.go:72-105 | from any shut gate, whatever the cancellers of earlier connections are in the middle of, a connection that comes and goes uncancelled leaves the gate as it found it |
| `ReconnectGate.ManyConnections` | share/tunnel/tunnel.go:72-105 | and so does any number of them |
| `ReconnectGate.LateCancelOpensGate` | client/client_connect.go:76-77 | the deferred cancel after BindSSH's return leaves the gate open with no connection |
| `ReconnectGate.Tunnel.constructor` | share/tunnel/tunnel.go:51-69 | no connection, both counters 1 |
| `ReconnectGate.Tunnel.Bind` | share/tunnel/tunnel.go:82-88 | binds unless a connection is bound, and gives up at most one count, in both counters alike |
| `ReconnectGate.Tunnel.BindSSH` | share/tunnel/tunnel.go:72-105 | leaves no connection and a shut gate, even when it found the count taken; a second binding is the panic and changes nothing |
| `ReconnectGate.ReleasedWaiter` | share/tunnel/tunnel.go:108-141 | on every run with any number of callers of getSSH: one released before any cancellation is given the connection there was at that moment, unless BindSSH cleared it before the caller read it, and only then another or none |
| `ReconnectGate.GivenIsActive` | share/tunnel/tunnel.go:113-130 | from whatever stage, a caller that is given something is given exactly the active connection of that moment |
| `ReconnectGate.ConnectedIsGiven` | share/tunnel/tunnel.go:113-119 | a caller that arrives while a connection is bound is given it at its first look, without waiting |
| `ReconnectGate.NothingOnlyIfCleared` | share/tunnel/tunnel.go:120-130 | on every run with nothing cancelled, a caller is given nil only if BindSSH cleared the connection between its release and its second look |
| `ReconnectGate.AnswerIsFinal` | share/tunnel/tunnel.go:121-131 | what a caller was given, and that it gave up, stays so on every run |
| `ReconnectGate.ReleasedToNothing` | share/tunnel/tunnel.go:126-130 | with cancellations, a waiting caller is let through while there is no connection exactly when a canceller has taken the count and none is half done |
| `ReconnectGate.LetThroughToNothing` | share/tunnel/tunnel.go:108-131 | a run from New on which a caller is let through at once and given nil |
| `Timers.ConnectionLoop` | client/client_connect.go:20-65 | gives up at the first turn that comes maxRetry turns after the last connection that lasted, and never with a negative limit; when nothing lasts, after exactly maxRetry + 1 attempts |
| `Timers.StreakCounts` | client/client_connect.go:24-31 | the attempt counter is the distance to the last turn whose connection lasted, or to the first turn |
| `UdpExit.UdpConns.Dial` | share/tunnel/tunnel_out_ssh_udp.go:112-128 | the source's connection if there is one, else a new one that enters the map, else an error and no change |
| `UdpExit.UdpConns.CloseAll` | share/tunnel/tunnel_out_ssh_udp.go:143-150 | every connection of the map is closed, and the map is empty |
| `UdpExit.UdpHandler.HandleWrite` | share/tunnel/tunnel_out_ssh_udp.go:49-78 | dial, count, spawn and write, undisturbed, are the machine's steps for one packet; it is written once on its source's connection, and it fails exactly if the dial or the write does |
| `UdpExit.UdpHandler.HandleRead` | share/tunnel/tunnel_out_ssh_udp.go:80-104 | a reader's loop and its deferred remove are its reply and finish steps; every datagram it reads is encoded back, and then it and its source's connection are gone |
| `UdpExit.UdpHandler.HandleUDP` | share/tunnel/tunnel_out_ssh_udp.go:15-39 | the packet loop and the deferred closeAll are the machine's run over the packets |
| `UdpExit.InvStep` | share/tunnel/tunnel_out_ssh_udp.go:49-104 | every step of the packet loop and of any reader keeps the invariant behind the next two rows |
| `UdpExit.RoomForReader` | share/tunnel/tunnel_out_ssh_udp.go:65-72 | a map of at most 100 entries, the new source included, has at most 99 readers, even if readers finished since the dial |
| `UdpExit.AtMostHundredReaders` | share/tunnel/tunnel_out_ssh_udp.go:49-72 | in every interleaving at most 100 readers live; until closeAll their sources are distinct and in the map |
| `UdpExit.RepliesGoHome` | share/tunnel/tunnel_out_ssh_udp.go:49-104 | on every run a datagram is written only on the connection dialled for its source, and each reply carries the source its connection was dialled for |
| `UdpExit.LogsAreExact` | share/tunnel/tunnel_out_ssh_udp.go:73-98 | on every run, what is sent back is exactly what live readers read, in order, and what is written is exactly one datagram for every packet that reached the write |
| `UdpExit.RepliesCounted` | share/tunnel/tunnel_out_ssh_udp.go:84-103 | on every run, a source is sent as many replies as its readers read datagrams |
| `UdpExit.ErrorsClose` | share/tunnel/tunnel_out_ssh_udp.go:20-38 | a decode, dial or write that fails ends the loop and closes every connection; a write that succeeds does not |
| `UdpExit.WithoutReader` | share/tunnel/tunnel_out_ssh_udp.go:49-104 | on every run, before closeAll: the sources in the map without a reader are exactly those refused so far and the one the loop is deciding on |
| `UdpExit.ReplyIsAwaited` | share/tunnel/tunnel_out_ssh_udp.go:49-104 | on every run, when a datagram is about to be written: a reader awaits its replies if and only if its connection is still the source's in the map and the source was never refused |
| `UdpExit.ReaderLeavesFirst` | share/tunnel/tunnel_out_ssh_udp.go:73-83 | a run with one source, nobody refused, on which the reader finishes between dial and write and a datagram goes out that nobody awaits an answer to |
| `UdpExit.RefusalMutes` | share/tunnel/tunnel_out_ssh_udp.go:66-72 | at the count, a new source is left in the map without a reader, for good, if and only if the map holds more than 100 entries, itself included |
| `UdpExit.MuteUntilClosed` | share/tunnel/tunnel_out_ssh_udp.go:66-72 | such a source gets no reply before closeAll, on any run |
| `UdpExit.FloodRun` | share/tunnel/tunnel_out_ssh_udp.go:49-78 | packets from any n <= 100 sources leave n connections and n readers |
| `UdpExit.HundredAndFirst` | share/tunnel/tunnel_out_ssh_udp.go:65-72 | so after any 100 sources the next one is refused a reader, and no continuation brings it a reply before closeAll |
| `UdpEntry.InvStep` | share/tunnel/tunnel_in_proxy_udp.go:153-192 | between lock sections, nothing is cached and no unset task is pending, or exactly one is, for the cached channel's own connection |
| `UdpEntry.ClearedByOwnConnection` | share/tunnel/tunnel_in_proxy_udp.go:153-192 | on every run each channel was cleared once, in order, by the task of its own connection after that connection ended; an old task never clears a newer channel |
| `UdpEntry.GetAnswers` | share/tunnel/tunnel_in_proxy_udp.go:153-184 | a caller gets a channel exactly when one is cached or could be opened, the cached one first, and what it gets is what is cached then; after an error nothing is |
| `UdpEntry.EndedAre` | share/tunnel/tunnel_in_proxy_udp.go:186-187 | the connections that have ended are those whose end was seen on the run |
| `UdpEntry.NoEarlyUnset` | share/tunnel/tunnel_in_proxy_udp.go:186-191 | a task does nothing before the cached channel's connection has ended |
| `UdpEntry.StaleChannelIsReplaced` | share/tunnel/tunnel_in_proxy_udp.go:186-192 | once the cached channel's connection has ended, its task can run and the next call opens a new channel |
| `UdpEntry.UdpListener.GetUDPChan` | share/tunnel/tunnel_in_proxy_udp.go:153-184 | the cached channel if there is one, else a new one with its task, else one of two errors; the channel answered is the cached one afterwards |
| `UdpEntry.UdpListener.UnsetUDPChan` | share/tunnel/tunnel_in_proxy_udp.go:186-192 | what a task clears is the newest channel, and that of the connection it waited for |
| `RemoteGrammar.TokensAreTokens` | share/settings/remote.go:49 | every match of the scanner is a bracketed run or a run without delimiters |
| `RemoteGrammar.SplitJoin` | share/settings/remote.go:49 | the scanner splits a colon-joined list of tokens into exactly those tokens |
| `RemoteScan.ScannerIsRegex` | share/settings/remote.go:49 | for every string, the tokens are the successive leftmost, longest matches of the expression's group, with one optional colon consumed behind each |
| `RemoteScan.MatchesAreUnique` | share/settings/remote.go:49 | which no other list is |
| `RemoteScan.ProtoIff` | share/settings/remote.go:154 | a protocol is tcp or udp in any mix of cases |
| `RemoteScan.SuffixSplits` | share/settings/remote.go:157-163 | a protocol behind a last slash is split off as written, and what is in front comes out in lower case |
| `RemoteScan.NoSuffixStays` | share/settings/remote.go:157-163 | any other text is left alone |
| `RemoteScan.LowerAscii` | share/settings/remote.go:160 | lower case is the usual one on ASCII |
| `RemotePorts.AtoiReads` | share/settings/remote.go:136 | digits with or without a sign read as their value, clamped to 64 bits with an error |
| `RemotePorts.AtoiJunk` | share/settings/remote.go:136 | with anything behind the digits the answer is an error and 0, or the clamped value when the digits alone overflow |
| `RemotePorts.PortIff` | share/settings/remote.go:135-144 | a text is a port if and only if it is digits, perhaps behind a plus sign, of value 1 to 65535 |
| `RemotePorts.DecimalPort` | share/settings/remote.go:135-144 | the decimal text of n is a port exactly for n from 1 to 65535 |
| `RemotePorts.DecodedPorts` | share/settings/remote.go:43-133 | every accepted remote's ports are numbers from 1 to 65535, and open only with socks or stdio |
| `RemoteGrammar.DecodeRemote` | share/settings/remote.go:43-133 | the loop from back to front over one record is the specification's decoder, errors included |
| `RemoteGrammar.FillPart` | share/settings/remote.go:69-94 | one turn of it |
| `RemoteGrammar.ApplyDefaults` | share/settings/remote.go:96-132 | the defaults and the three checks |
| `RemoteGrammar.Reversed` | share/settings/remote.go:257-266 | the loop keeps the remotes of one direction in order |
| `RemoteGrammar.DirectionsPartition` | share/settings/remote.go:257-266 | every remote goes to exactly one of the two directions |
| `RemoteRoundTrip.DecodedShape` | share/settings/remote.go:43-133 | what every accepted text decodes to: valid ports and hosts, one protocol, socks only over TCP, stdio never reversed |
| `RemoteRoundTrip.BodyTokens` | share/settings/remote.go:181-216 | the printed form of a decoded record is scanned into its own fields |
| `RemoteRoundTrip.RoundTrip` | share/settings/remote.go:181-216 | for every record whatever, decoding its printed form gives it back if and only if it is canonical |
| `RemoteRoundTrip.AcceptedRoundTrip` | share/settings/remote.go:43-216 | for every accepted text, its record survives printing if and only if it is unambiguous |
| `RemoteRoundTrip.UpperCaseProtoIsLost` | share/settings/remote.go:156-163 | for every port, `port/UDP` is accepted and does not survive |
| `RemoteRoundTrip.StdioAloneIsLost` | share/settings/remote.go:64-68 | `stdio` alone is accepted and does not survive |
| `RemoteRoundTrip.PortAlone` | share/settings/remote.go:12-15 | a lone port stands for itself on both sides |
| `RemoteRoundTrip.HostAndPort` | share/settings/remote.go:16-18 | a host and a port stand for that port on both sides |
| `RemoteRoundTrip.PortHostPort` | share/settings/remote.go:19-21 | a port, a host and a port stand for two different ports |
| `RemoteForms.ReversePrefix` | share/settings/remote.go:41-48 | `R:` in front of any text gives the same remote reversed or the same error, except that stdio is refused |
| `RemoteForms.WrongNumberOfParts` | share/settings/remote.go:49-52 | invalid remote is the answer if and only if there are no parts or more than four |
| `RemoteForms.MissingPortsWhen` | share/settings/remote.go:84-86 | missing ports is the answer if and only if the last of one to four parts is neither a port, nor socks, nor stdio alone |
| `RemoteForms.BadHost` | share/settings/remote.go:87-89 | a host that url.Parse refuses is refused |
| `RemoteForms.PortHostPortOver` | share/settings/remote.go:69-125 | with `/udp` behind the remote port both sides are UDP, behind the local port alone it is a cross-protocol error |
| `RemoteForms.SocksAlone` | share/settings/remote.go:97-104 | socks alone is the proxy on 127.0.0.1:1080 |
| `RemoteForms.SocksOnPort` | share/settings/remote.go:97-128 | with a port in front it is there, and over TCP only |
| `RemoteForms.PrintsDefaults` | share/settings/remote.go:181-216 | a record with open fields is printed as if its defaults had been filled in |
| `RemoteForms.DirectionsInOrder` | share/settings/remote.go:257-266 | picking one direction keeps the order |
| `TunnelEnds.EndsAgree` | share/tunnel/tunnel_out_ssh.go:39-68 | for every accepted remote and the proxy that serves it, the exit side reads socks exactly for socks, otherwise UDP exactly from a UDP listener, with the remote's own address (lower-cased over UDP) |
| `TunnelEnds.EndsByProtocol` | share/tunnel/tunnel_out_ssh.go:39-68 | by the decoded record alone: a remote with protocol udp that is not on stdio reaches UDP, every other one that is not socks reaches TCP, at its own host and port |
| `TunnelEnds.TextReaches` | share/tunnel/tunnel_in_proxy.go:45-83 | `3000:google.com:80` reaches the host's TCP port, and with `/udp` its UDP port |
| `TunnelEnds.ListenerByProtocol` | share/tunnel/tunnel_in_proxy.go:45-70 | stdio first, else the listener of the remote's protocol |
| `TunnelEnds.NothingWithoutOutbound` | share/tunnel/tunnel_out_ssh.go:34-38 | without outbound connections every channel is turned away, and only then |
| `TunnelEnds.NoListener` | share/tunnel/tunnel_in_proxy.go:45-70 | an accepted remote has no listener if and only if it is not stdio and its protocol is not written in lower case |
| `TunnelEnds.AccessNamesTheTarget` | share/settings/remote.go:218-225 | the address the access test sees is the one listened on for a reverse remote and the one the exit side dials for a forward one (lower-cased over UDP) |
| `WsStream.WsConn.Read` | share/cnet/conn_ws.go:25-53 | fills a prefix of the destination with the specification's bytes, leaves the rest of it alone, keeps the remainder; an error changes nothing |
| `WsStream.ReadConserves` | share/cnet/conn_ws.go:25-53 | one read neither loses nor adds bytes, fetches a message only when nothing is left over, and leaves bytes over only when it filled the destination |
| `WsStream.StreamIsFaithful` | share/cnet/conn_ws.go:25-53 | for all messages and all destination sizes, bytes delivered, bytes left over and messages to come always spell the whole stream |
| `WsStream.DeliversEverything` | share/cnet/conn_ws.go:25-53 | enough reads of positive size deliver the whole stream |
| `WsStream.EndToEnd` | share/cnet/conn_ws.go:25-61 | what was written in any chunks is read in any sizes, byte for byte |
| `DetermRand.Reader.constructor` | share/ccrypto/determ_rand.go:14-25 | the seed is hashed 2048 times |
| `DetermRand.Reader.Read` | share/ccrypto/determ_rand.go:31-40 | the whole buffer is the truncated block chain, and the state moves by as many blocks as cover it |
| `DetermRand.ChainIs` | share/ccrypto/determ_rand.go:42-45 | each state is the first half of the digest of the one before |
| `DetermRand.ByteAt` | share/ccrypto/determ_rand.go:31-45 | byte i of what is read is byte i mod 32 of the second half of the digest of the state after i div 32 hashes |
| `DetermRand.AlignedReadsJoin` | share/ccrypto/determ_rand.go:31-40 | a first read that ends on a block, and a second, give what one read gives |
| `DetermRand.UnalignedReadsDiffer` | share/ccrypto/determ_rand.go:31-40 | for every other pair of lengths there is a hash and a state for which they do not |
| `DetermRand.SplitReads` | share/ccrypto/determ_rand.go:31-40 | reading in two steps is reading at once, for every hash and state, if and only if 32 divides the first length or the second is 0 |
| `FieldElement.RandFieldElement` | share/ccrypto/generate_key_go119.go:27-42 | an error exactly when the reader fails before the draw is complete; else the scalar is between 1 and N - 1 and determined by the reader's next bytes, of which exactly the drawn length is used |
| `FieldElement.SetBytes` | share/ccrypto/generate_key_go119.go:37 | the bytes are read big-endian |
| `FieldElement.ValueAppends` | share/ccrypto/generate_key_go119.go:37 | what stands in front counts for a power of 256 more for every byte behind it |
| `FieldElement.BitLenIs` | share/ccrypto/generate_key_go119.go:31 | BitLen is the number of binary digits |
| `FieldElement.DrawLengthBounds` | share/ccrypto/generate_key_go119.go:29-31 | the draw has 57 to 64 bits more than the order |
| `FieldElement.ScalarIs` | share/ccrypto/generate_key_go119.go:38-40 | the scalar is one more than what the drawn number leaves when divided by N - 1 |
| `FieldElement.BytesOfValue` | share/ccrypto/generate_key_go119.go:37 | byte strings of one length and the numbers below that power of 256 determine each other |
| `FieldElement.PreimageCount` | share/ccrypto/generate_key_go119.go:37-40 | how many byte strings of a given length give scalar k, exactly |
| `FieldElement.NearlyUniform` | share/ccrypto/generate_key_go119.go:31-40 | over all strings of the drawn length any two scalars' counts differ by at most one, and each is at least 2^57 (Appendix B.4.1 of FIPS 186-4) |

## Left out

- TimerIsIdealTicker: for a ticker whose every tick is swept on time; delays of the scheduler and of the lock are not modelled.
- ConnectsOnFirstReverse: with a concurrent free the session may call OnConnected again; the model runs that branch but no count is promised for it.
- ConnectionLoop: the backoff's durations, the printing and the cancellation of the wait; only its attempt counter.
- The record's ClientVersion, written once by a session and read nowhere in the allocator, and all logging.
- A session's unlocked reads and writes of its record that overlap a locked method are taken to come before or after it; torn reads and the Go memory model are not modelled.
- The record's identity and mapping port are constants of the class, since nothing assigns them after construction.
- Overflow of Go's int in port loops and the saturation of time differences.
- The misuse checks of sync.WaitGroup other than a negative counter; a waiter is released when the counter is zero.
- Interleaved protocols are state machines over values; the classes beside them show the same operations undisturbed.
- The loops runInbound, runOutbound and the packet encoding of the UDP paths: they only move datagrams.
- The readers' deadlines and errors are one event, the end of the reader.
- Remotes.Encode, which prints each remote, and String, a display form that nothing decodes.
- Text that is not valid UTF-8; a text is a sequence of characters, and lower-casing is one per character.
- `strconv.Atoi` is modelled for 64-bit platforms.
- `url.Parse` is a parameter; only that it accepts the two default hosts is assumed.
- `CanListen` is a parameter per remote and moment.
- SSH, WebSocket, TLS and SOCKS libraries, sockets, pipes, keep-alive, connection counters.
- JSON, JWT, HTTP routing, `toString` and `getUserId`, PEM and base64, the users file and its patterns, flags, meters, the HTTP server wrapper: plumbing, or easy members.
