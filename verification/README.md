# A verified model of the MariaDB client stack

The repository is a MariaDB client in three layers (wire protocol, RPC connection, connection
pool) and a proxy that loses the acknowledgement of a chosen COMMIT on purpose. This project
models the parts in which concurrency, streaming and partial failure meet, and proves what
they promise.

- **The elastic pool** (`PoolSlot`, `PoolWorld`, `PoolTheorems`, `PoolFates`, `PoolSessions`). `PoolSlot` is the mutable
  state behind the mutex; each of its methods is one critical section and is proved equal to a
  function. `PoolWorld` lets any number of acquirers, opens in flight, leases, the keepalive
  fiber, the recycler, the reaper and `close` take those sections in any order, with a
  condition variable as a set of parked and signalled threads. The theorems speak about every
  run: conservation of connections, no lost wake-up, close wins, exact recycling, idle ages,
  and for every connection when it is opened, kept and closed.
  `PoolSessions` puts the wire session of every connection into the run; such a run refines
  the pool's, and every lease is shown to be usable.
- **The managed slot** (`ManagedSlot`, `ManagedWorld`). The same for the one-connection
  variant.
- **The wire session** (`Sockets`, `Transport`, `PacketHeaders`, `PacketCodec`, `Statements`,
  `Commands`, then `SessionTheorems`, `SessionRuns`, `PacketGrammar`, `ServerResponses`,
  `StaleAnswers`, `PoolReuse`, `CommandOutcomes`). A stream is the bytes the
  peer sends, the bytes it has accepted, and an arbitrary schedule of short reads, short
  writes and failures. On it stand exact packet transport, the statement reader with its
  modes, and the commands. The decoders accept exactly a stated grammar, reading undoes
  writing for every response, and each command has its exact outcome.
- **The COMMIT outcome** (`CommitOutcomes`, `FaultedCommits`). What `commit` reports, against
  what the peer accepted and answered.
- **The fault-injection proxy** (`Framing`, `Failpoints`, `ProxyPumps`, `ProxyRuns`,
  `ProxyRefinement`). The byte-at-a-time framer against the whole-stream parser, the
  n-th-COMMIT registry over whole runs, the client-to-server pump, both pumps interleaved with
  each other and the server, and the refinement between the pump and its thread there.
- **CALL text** (`CallText`). Building the statement, and the scanner that reads it back.

Code that changes state is modelled by classes and methods with loops, each proved against a
function of the old state; the theorems are about those functions. `dafny verify
dfyconfig.toml` checks everything.

## Where the code and its promises part

Each of these is stated as an exact condition, with an input that shows the failing side.

- A signalled waiter whose budget has run out leaves with a timeout and does not pass the
  signal on, so another waiter can sleep although capacity is free
  (`PoolTheorems.WakeupKeptExactlyUnlessSignalLost`, `PoolTheorems.LostWakeupHappens`). The
  managed slot behaves alike (`ManagedWorlds.WakeupKeptExactlyUnlessSignalLost`,
  `ManagedWorlds.LostWakeupHappens`).
- A COMMIT padded with blanks beyond 4096 payload bytes is not seen by the framer
  (`Framing.NothingMissedUnlessOversized`, `Framing.PaddedCommitIsMissed`).
- "The n-th COMMIT since arming" is met if and only if, at the time of arming, every older
  pending entry still waits for more than n COMMITs: a COMMIT that fires an older entry is not
  counted by the entries behind it (`Failpoints.DocumentedNthHoldsExactlyWhenUncontended`,
  `Failpoints.SecondFailpointIsLate`).
- An OK packet that promises more results ends the statement early and leaves the rest unread;
  an ERR packet in place of a row is taken for a row and kills the session. A response reads
  back whole exactly when it has neither (`ServerResponses.ReadsWholeExactlyWhenPlain`).
- After such an early end the next command is answered by the rest of the old response if and
  only if the packets read of it are a multiple of 256; otherwise the sequence ids give it away
  and the session dies (`StaleAnswers.StaleAnswerPassesExactly`). A COMMIT can be confirmed
  that way by a packet sent before it (`StaleAnswers.OldPacketConfirmsCommit`).
- With the holding fault action the connection is closed instead of held exactly when the
  answering pump looks between the two flags going up
  (`ProxyRuns.HoldIsCutShortExactlyBetweenTheFlags`, `ProxyRuns.HoldCutShort`); for a
  synchronous client it never does (`ProxyRuns.HoldHolds`).

## Model

| member | source | states |
|---|---|---|
| PoolSlots.PoolSlot.AcquireDecide | packages/mariadb-rpc/src/pool.drift:291-350 | one pass of the decision; for each of the six outcomes exactly when it occurs (only users time out, wait and reserve), and the whole new slot |
| PoolSlots.PoolSlot.AfterWait | packages/mariadb-rpc/src/pool.drift:350-401 | leaving a wait takes the waiter off the count; a failed wait reports closed, timeout or failure as the wait did, a wake-up decides again |
| PoolSlots.PoolSlot.MarkPoolClosed | packages/mariadb-rpc/src/pool.drift:431-437 | sets `closed` and nothing else |
| PoolSlots.PoolSlot.RollbackReservation | packages/mariadb-rpc/src/pool.drift:443-452 | gives a reservation back and signals one waiter |
| PoolSlots.PoolSlot.OpenRacedClose | packages/mariadb-rpc/src/pool.drift:457-468 | a finished open gives its reservation back exactly when the pool has been closed meanwhile |
| PoolSlots.PoolSlot.ReleaseDecide | packages/mariadb-rpc/src/pool.drift:536-581 | a return is kept if and only if it is healthy and the pool open: it becomes the last idle entry under a fresh token, with a keepalive's old time or the present one; otherwise the connection is handed out for closing and both counters fall |
| PoolSlots.PoolSlot.SnapshotIdleEntries | packages/mariadb-rpc/src/pool.drift:678-705 | the tokens of the idle entries in order, nothing changed |
| PoolSlots.PoolSlot.RecycleReadyIdles | packages/mariadb-rpc/src/pool.drift:776-806 | takes out exactly the idle entries whose token was reported, keeps the rest in order, lowers `total_count` and signals once per entry taken |
| PoolSlots.PoolSlot.MintToken | packages/mariadb-rpc/src/pool.drift:823-826 | a token greater than all before it |
| PoolSlots.PoolSlot.ReapAgedLocked | packages/mariadb-rpc/src/pool.drift:864-895 | takes the aged run off the front and lowers `total_count` by its length |
| PoolSlots.PoolSlot.DrainConnsLocked | packages/mariadb-rpc/src/pool.drift:965-988 | empties `available`, lowers `total_count` by as much, hands every connection out once |
| PoolSlots.Open | packages/mariadb-rpc/src/pool.drift:203-265 | each configuration error, a failed seed (all seeds closed), or a pool seeded with `min_idle` connections, tokens 1, 2, ... |
| PoolSlots.ReapTakesTheLongestRun | packages/mariadb-rpc/src/pool.drift:864-895 | the run reaped is reapable and no longer run from the front is: aged entries only, never below `min_idle` |
| PoolSlots.KeptTakenSplit | packages/mariadb-rpc/src/pool.drift:776-806 | recycling partitions the idle entries: none is lost or doubled |
| PoolSlots.KeptTakenMembers | packages/mariadb-rpc/src/pool.drift:776-806 | an idle entry is taken if and only if its token was reported |
| PoolSlots.KeptKeepsOrder | packages/mariadb-rpc/src/pool.drift:776-806 | what is kept keeps its order of tokens |
| PoolWorlds.LeasedIsNotElsewhere | packages/mariadb-rpc/src/pool.drift:291-401 | a leased connection is neither idle, nor leased twice, nor being closed, nor closed |
| PoolWorlds.ActKeepsInv | packages/mariadb-rpc/src/pool.drift:291-401 | an acquire pass, from a user or the keepalive fiber, keeps all pool invariants |
| PoolWorlds.OpenStepsKeepInv | packages/mariadb-rpc/src/pool.drift:443-522 | so do the outcomes of an open, whatever happened while it was in flight |
| PoolWorlds.ReleaseKeepsInv | packages/mariadb-rpc/src/pool.drift:536-581 | so does a return, healthy or not, before or after close |
| PoolWorlds.RecycleKeepsInv | packages/mariadb-rpc/src/pool.drift:776-806 | so does recycling with any set of tokens |
| PoolWorlds.ReapKeepsInv | packages/mariadb-rpc/src/pool.drift:864-895 | so does reaping |
| PoolWorlds.DrainKeepsInv | packages/mariadb-rpc/src/pool.drift:965-988 | so does the drain |
| PoolWorlds.RunKeepsInv | packages/mariadb-rpc/src/pool.drift:157-265 | conservation in every run: `total_count == available + active_count <= max_conns`, `active_count` is leases plus opens in flight, each connection is in exactly one place and closed at most once, tokens are distinct and bounded, idle entries are ready |
| PoolTheorems.WakeupKeptExactlyUnlessSignalLost | packages/mariadb-rpc/src/pool.drift:291-401 | every step keeps "a sleeper means that free capacity is covered by signalled threads", except precisely a lost signal without slack |
| PoolTheorems.NoLostWakeupInRuns | packages/mariadb-rpc/src/pool.drift:554-581 | so it holds throughout every run in which no signal is lost; in particular reaping needs no signal |
| PoolTheorems.ForeverWaitsNeverExpire | packages/mariadb-rpc/src/pool.drift:308-310 | waits without a budget never lose a signal that way |
| PoolTheorems.SleepersMeanExhausted | packages/mariadb-rpc/src/pool.drift:291-401 | with nobody signalled, a sleeper means that nothing is idle and all capacity is in use |
| PoolTheorems.WokenWaiterTakesCapacity | packages/mariadb-rpc/src/pool.drift:350-401 | a signalled waiter that looks in time gets a connection or a reservation when capacity is free |
| PoolTheorems.LostWakeupHappens | packages/mariadb-rpc/src/pool.drift:308-310 | a concrete run in which an expired waiter swallows the signal and another one sleeps beside an idle connection |
| PoolTheorems.CloseWinsStep | packages/mariadb-rpc/src/pool.drift:157-188 | after close no step leases out, makes idle, or raises `active_count`; each owner step lowers the work that remains |
| PoolTheorems.CloseWinsInRuns | packages/mariadb-rpc/src/pool.drift:157-188 | over any stretch after close only winding down happens, with at most as many owner steps as there was work |
| PoolTheorems.WindDownNeverSticks | packages/mariadb-rpc/src/pool.drift:457-468 | while work remains after the drain, some owner step is possible |
| PoolTheorems.ClosedDownCompletely | packages/mariadb-rpc/src/pool.drift:965-988 | with no work left both counters are 0 and every connection ever opened has been closed exactly once |
| PoolTheorems.StepTokens | packages/mariadb-rpc/src/pool.drift:823-826 | no step brings an old token back among the idle entries |
| PoolTheorems.OldTokenMeansIdleSince | packages/mariadb-rpc/src/pool.drift:247-249 | an idle entry whose token existed at some moment has been idle ever since that moment |
| PoolTheorems.RecyclingIsExact | packages/mariadb-rpc/src/pool.drift:678-806 | given tokens from a snapshot of any earlier time, recycling takes exactly the reported entries that stayed idle since, never one leased or leased and returned meanwhile, and keeps the rest in order |
| PoolTheorems.AcquireTakesTheNewestIdle | packages/mariadb-rpc/src/pool.drift:311-322 | an acquirer gets the entry made idle last, and the others are untouched |
| PoolTheorems.HandedOutIsReady | packages/mariadb-rpc/src/pool.drift:499-519 | every connection a step hands out is one the pool counts as ready; what ready means is proved in `PoolSessions` |
| PoolTheorems.IdleAgeIgnoresKeepalive | packages/mariadb-rpc/src/pool.drift:313-322 | an idle entry's timestamp is that of its last user release, or of its seeding, however many keepalive leases came between |
| PoolFates.ClosedForAReason | packages/mariadb-rpc/src/pool.drift:157-895 | a step hands a connection out for closing if and only if it was returned dead or to a closed pool, opened too late, reported by the watcher, aged in a reapable run, or drained |
| PoolFates.ReturnIsKeptExactlyWhenReady | packages/mariadb-rpc/src/pool.drift:536-581 | a return, by a user or the keepalive fiber, is requeued behind all other idle entries exactly when ready and the pool open, and is otherwise on its way to being closed |
| PoolFates.IdleByReturnOnly | packages/mariadb-rpc/src/pool.drift:536-581 | nothing but such a return makes a connection idle |
| PoolFates.KeepaliveTakesOrLeaves | packages/mariadb-rpc/src/pool.drift:311-341 | a keepalive tick leases the newest idle connection of an open pool or changes nothing; it never opens one and never waits |
| PoolFates.ReservesExactlyWhenNeeded | packages/mariadb-rpc/src/pool.drift:324-341 | a connection is being opened exactly for a user in time, in an open pool with nothing idle and room below the maximum |
| PoolSessions.PooledRunIsAPoolRun | packages/mariadb-rpc/src/pool.drift:536-581 | a run in which every connection has its wire session, and health is what the session's flags say at the release, is a run of the pool, so the pool theorems hold of it |
| PoolSessions.AliveIsReady | packages/mariadb-wire-proto/src/lib.drift:651-653 | on a session that keeps the session invariant, `is_alive` says exactly that it is ready for a command |
| PoolSessions.SetUpGivesSeed | packages/mariadb-rpc/src/lib.drift:469-531 | a set-up that succeeds gives a sound session that is ready and has no statement open |
| PoolSessions.IdleIsUsable | packages/mariadb-rpc/src/pool.drift:536-581 | in every run, after any calls by any holders on any packets, the session of each idle connection and of each one about to be handed out is ready for a command |
| PoolSessions.EveryLeaseIsUsable | packages/mariadb-rpc/src/pool.drift:499-519 | every lease a run hands out has a session that is ready for a command |
| PoolSessions.ReturnKeepsLiveSessions | packages/mariadb-rpc/src/pool.drift:536-581 | in every run a returned connection stays in the pool, idle and with a ready session, if and only if its session is alive and the pool open |
| ManagedSlots.ManagedSlot.AcquirePass | packages/mariadb-rpc/src/managed.drift:227-301 | one pass: closed, then the budget, then the stored connection, else wait |
| ManagedSlots.ManagedSlot.SlotTake | packages/mariadb-rpc/src/managed.drift:674-680 | takes whatever is stored |
| ManagedSlots.ManagedSlot.TakeIdleIfToken | packages/mariadb-rpc/src/managed.drift:529-539 | takes the stored connection if and only if the slot's token is the given one |
| ManagedSlots.ManagedSlot.SlotPutDecide | packages/mariadb-rpc/src/managed.drift:695-710 | stores under a fresh token and signals, or hands the connection out for closing when closed |
| ManagedWorlds.StoreKeepsInv | packages/mariadb-rpc/src/managed.drift:685-710 | storing a connection nobody else holds keeps all invariants |
| ManagedWorlds.RunKeepsInv | packages/mariadb-rpc/src/managed.drift:227-334 | in every run at most one connection is in circulation, and each one ever made has exactly one owner or was closed once |
| ManagedWorlds.PutFindsTheSlotEmpty | packages/mariadb-rpc/src/managed.drift:685-710 | a put never overwrites a stored connection |
| ManagedWorlds.SameTokenSameIncarnation | packages/mariadb-rpc/src/managed.drift:529-539 | the same token at two moments means the connection stayed stored throughout |
| ManagedWorlds.TakeReturnsOnlyTheSnapshot | packages/mariadb-rpc/src/managed.drift:493-555 | a token-checked take yields something if and only if the snapshotted incarnation has stayed stored ever since, and then yields that connection |
| ManagedWorlds.WakeupKeptExactlyUnlessSignalLost | packages/mariadb-rpc/src/managed.drift:227-301 | every step keeps "no sleeper beside a stored connection without a signalled thread", except precisely a lost signal |
| ManagedWorlds.NoLostWakeupInRuns | packages/mariadb-rpc/src/managed.drift:227-301 | so it holds throughout every run in which no signal is lost |
| ManagedWorlds.LostWakeupHappens | packages/mariadb-rpc/src/managed.drift:227-301 | a concrete run in which an expired waiter swallows the signal and another one sleeps beside the stored connection |
| ManagedWorlds.CloseWinsStep | packages/mariadb-rpc/src/managed.drift:303-334 | after close nothing is leased or stored again, and each owner step lowers the work that remains |
| ManagedWorlds.CloseWinsInRuns | packages/mariadb-rpc/src/managed.drift:303-334 | over any stretch of a run after close only winding down happens, with at most as many owner steps as there was work |
| ManagedWorlds.WindDownNeverSticks | packages/mariadb-rpc/src/managed.drift:303-334 | in every run, once the waiters have been sent home, some step lowers the work while any remains |
| ManagedWorlds.ClosedDownCompletely | packages/mariadb-rpc/src/managed.drift:303-334 | with no work left every connection ever made has been closed exactly once |
| PacketHeaders.HeaderDeclares | packages/mariadb-wire-proto/src/packet/header.drift:24-46 | decoding a header gives the length and id encoded |
| PacketHeaders.HeaderBytes | packages/mariadb-wire-proto/src/packet/header.drift:24-46 | encoding what a header says gives its bytes back |
| PacketCodec.TakeEncodedInt | packages/mariadb-wire-proto/src/packet/lenenc.drift:51-122 | every unsigned 64-bit integer reads back from its length-encoded form, whatever follows |
| PacketCodec.TakeEncodedBytes | packages/mariadb-wire-proto/src/packet/lenenc.drift:140-161 | so does every byte string |
| PacketCodec.DecodeEncodedOk | packages/mariadb-wire-proto/src/decode/ok_packet.drift:33-58 | an OK packet reads back, with or without text behind it |
| PacketCodec.DecodeEncodedErr | packages/mariadb-wire-proto/src/decode/err_packet.drift:34-62 | an ERR packet with SQL state reads back |
| PacketCodec.DecodeTextRow | packages/mariadb-wire-proto/src/decode/resultset.drift:87-117 | the offset-walking row decoder computes the recursive decoder: exactly `column_count` cells and nothing behind them, or the first error |
| PacketCodec.DecodeEncodedRow | packages/mariadb-wire-proto/src/decode/resultset.drift:87-117 | every row, NULLs included, reads back |
| PacketCodec.RowIsNoTerminator | packages/mariadb-wire-proto/src/lib.drift:273-275 | no row is mistaken for the end of the rows |
| PacketCodec.DecodeEncodedColumnCount | packages/mariadb-wire-proto/src/lib.drift:346-367 | a column count reads back with its metadata flag when that was negotiated |
| PacketCodec.DecodeEncodedColumnDef | packages/mariadb-wire-proto/src/lib.drift:373-418 | a column definition reads back |
| PacketGrammar.IntIsExact | packages/mariadb-wire-proto/src/packet/lenenc.drift:51-122 | an integer is accepted in exactly its four forms, short or not |
| PacketGrammar.BytesAreExact | packages/mariadb-wire-proto/src/packet/lenenc.drift:140-161 | a byte string is accepted exactly as a length without the sign bit and that many bytes |
| PacketGrammar.RowIsExact | packages/mariadb-wire-proto/src/decode/resultset.drift:87-117 | a row is accepted exactly when it is the given number of cells and nothing behind them |
| PacketGrammar.OkIsExact | packages/mariadb-wire-proto/src/decode/ok_packet.drift:33-58 | an OK packet is accepted exactly when header, two integers, status and warnings are there |
| PacketGrammar.ErrIsExact | packages/mariadb-wire-proto/src/decode/err_packet.drift:34-62 | an ERR packet is accepted exactly with a code, a marked SQL state of five bytes or none, and text |
| PacketGrammar.CountIsExact | packages/mariadb-wire-proto/src/lib.drift:346-367 | a column count is accepted exactly as one integer, or two with nothing behind them |
| PacketGrammar.ColumnDefIsExact | packages/mariadb-wire-proto/src/lib.drift:373-418 | a column definition is accepted exactly as six texts, the length byte and the fixed fields |
| PacketGrammar.FirstMovesExactly | packages/mariadb-wire-proto/src/lib.drift:430-477 | the first packet of a result puts the statement where the grammar says: pending OK, pending ERR, or before rows with the definitions that are to come; a request for a local file is refused |
| PacketGrammar.PacketKillsExactlyUnlessItFits | packages/mariadb-wire-proto/src/lib.drift:719-810 | a packet read by a statement kills its session if and only if the grammar does not allow it where the statement stands |
| PacketGrammar.RowIsReportedExactly | packages/mariadb-wire-proto/src/lib.drift:780-809 | where rows are due, a packet is reported as a row, and as which, exactly when it is no marker and is one |
| PacketGrammar.MarkerEndsRows | packages/mariadb-wire-proto/src/lib.drift:780-809 | the marker behind the rows mirrors its status, 0 when too short for one, and bit 3 decides whether another result is read |
| Sockets.TcpStream.Read | packages/mariadb-wire-proto/src/transport.drift:64-76 | the stream as the library's callers meet it: a read moves any number of bytes up to the room, fails, or reports the end |
| Sockets.TcpStream.Write | packages/mariadb-wire-proto/src/transport.drift:91-97 | a write is taken up to any prefix, or fails with nothing taken |
| Transport.DoReadExact | packages/mariadb-wire-proto/src/transport.drift:59-79 | for any pattern of short reads: the next `n` bytes, or the failure that came first |
| Transport.DoWriteAll | packages/mariadb-wire-proto/src/transport.drift:81-100 | for any pattern of short writes: the whole packet accepted, or a strict prefix and an error |
| Transport.SessionReadPacket | packages/mariadb-wire-proto/src/transport.drift:125-138 | one packet under the expected sequence id, which then advances modulo 256 |
| Transport.SessionWritePacket | packages/mariadb-wire-proto/src/transport.drift:140-160 | one packet under the next sequence id, which advances even when the write fails |
| Transport.PullSucceeds | packages/mariadb-wire-proto/src/transport.drift:59-79 | an exact read never fails while the stream keeps giving |
| Transport.PullFailsAtItsLastCall | packages/mariadb-wire-proto/src/transport.drift:59-79 | an exact read goes on while it gets something, and reports the end of the stream exactly when its last call met it |
| Transport.WriteAllFailsAtItsLastCall | packages/mariadb-wire-proto/src/transport.drift:81-99 | a complete write goes on while something is taken and stops at the first call that fails or takes nothing |
| Transport.WriteAllSucceeds | packages/mariadb-wire-proto/src/transport.drift:81-100 | a complete write never fails while the peer keeps taking |
| Transport.ReadPacketTakesOne | packages/mariadb-wire-proto/src/transport.drift:125-138 | a successful read took exactly one packet off the stream |
| Transport.ReadPacketIsExact | packages/mariadb-wire-proto/src/transport.drift:125-138 | with a packet in front only the transport can fail a read, and nothing behind the packet is touched |
| Transport.WrittenPacketsAreThere | packages/mariadb-wire-proto/src/transport.drift:140-160 | what a session has written is its packets, one behind the other, ids counting up modulo 256 |
| Transport.ReadPacketsAt | packages/mariadb-wire-proto/src/transport.drift:125-138 | such packets are read back in order up to their end |
| Transport.PacketsSurviveTheWire | packages/mariadb-wire-proto/src/transport.drift:59-160 | however writes and reads are cut up, and whatever was written before, the packets read from where the writer stood are the packets written, and no byte behind them is consumed |
| Transport.WritesSucceed | packages/mariadb-wire-proto/src/transport.drift:140-160 | packets of legal size go out whole while the peer keeps taking |
| Statements.DoInitFromFirst | packages/mariadb-wire-proto/src/lib.drift:430-477 | the first packet sets the mode and the column state, or fails and changes nothing |
| Statements.DoNextEvent | packages/mariadb-wire-proto/src/lib.drift:719-810 | the event loop computes `Advance`, turn by turn, and ends because every turn that goes on has read a packet |
| Statements.TurnMakesProgress | packages/mariadb-wire-proto/src/lib.drift:719-810 | each turn has read on, ended the statement, or killed the session |
| Statements.AdvanceMakesProgress | packages/mariadb-wire-proto/src/lib.drift:719-810 | so has each event |
| Statements.DoSkipResult | packages/mariadb-wire-proto/src/lib.drift:812-832 | the loop computes `SkipResult` and ends |
| Statements.DoSkipRemaining | packages/mariadb-wire-proto/src/lib.drift:834-851 | the loop computes `SkipRemaining` and ends |
| Statements.DoDestroy | packages/mariadb-wire-proto/src/lib.drift:507-520 | dropping a statement drains it or kills the session |
| Commands.DoQuery | packages/mariadb-wire-proto/src/lib.drift:686-717 | success yields a fresh statement that makes the session busy; a refusal changes nothing; every other failure kills the session |
| Commands.DoQueryExpectOk | packages/mariadb-wire-proto/src/lib.drift:482-502 | one event decides and the statement is then dropped, so that a response with rows is still drained before the next command |
| Commands.DoTxCommand | packages/mariadb-wire-proto/src/lib.drift:853-878 | `commit`, `rollback`, `set_autocommit`: a session that is not ready is refused and left as it is; otherwise the outcome and the session of `TxCommand`, on which the commit theorems rest |
| Commands.DoPing | packages/mariadb-wire-proto/src/lib.drift:880-900 | any answer but an OK header kills the session; an OK that cannot be decoded still counts, without touching the mirrors |
| Commands.DoResetConnection | packages/mariadb-wire-proto/src/lib.drift:902-941 | OK applies its status, ERR refuses and changes nothing, an empty or other answer kills the session |
| Commands.DoResetForPoolReuse | packages/mariadb-wire-proto/src/lib.drift:948-995 | the two tiers in order: the reset command unless known to be unsupported, the manual sequence only after a refusal with 1047, which is remembered |
| Commands.DoClose | packages/mariadb-wire-proto/src/lib.drift:631-645 | QUIT on a best effort, then closed for good, even when closing the socket reports an error |
| Commands.DoExecExpectOk | packages/mariadb-rpc/src/lib.drift:400-420 | reads events, rows and all, to the terminal one, and ends |
| Commands.DoSetUp | packages/mariadb-rpc/src/lib.drift:469-531 | SET NAMES, then SET autocommit, with the budget looked at before each and after each failure, and a close as soon as anything fails |
| SessionTheorems.InitErrors | packages/mariadb-wire-proto/src/lib.drift:430-477 | no packet makes the reader fail with a readiness, write, statement or command error, and success enters one of three modes |
| SessionTheorems.AdvanceGood | packages/mariadb-wire-proto/src/lib.drift:719-810 | an event keeps the session's flags consistent; it succeeds exactly when the session survives |
| SessionTheorems.NextEventErrorsKill | packages/mariadb-wire-proto/src/lib.drift:719-810 | every error but "statement consumed" leaves the session dead, that one means the statement had ended, and "invalid mode" never occurs |
| SessionTheorems.SkipRemainingSound | packages/mariadb-wire-proto/src/lib.drift:834-851 | skipping the rest succeeds exactly when it ends the statement, and a failure kills the session |
| SessionTheorems.DropLeavesReadyOrDead | packages/mariadb-wire-proto/src/lib.drift:507-520 | a statement dropped at any point leaves its session ready or dead |
| SessionTheorems.SkippingEqualsReading | packages/mariadb-wire-proto/src/lib.drift:834-851 | however many events are read first, skipping the rest ends in the same session state at the same stream position |
| SessionTheorems.ReadingGetsThere | packages/mariadb-wire-proto/src/lib.drift:719-851 | reading to the end ends there too, within a bound on the unread bytes |
| SessionTheorems.SkipRowsDropsRows | packages/mariadb-wire-proto/src/lib.drift:812-832 | skipping a resultset is reading its rows and the one event behind them |
| SessionTheorems.SkipResultIsIdempotent | packages/mariadb-wire-proto/src/lib.drift:812-832 | skipping a result twice is skipping it once |
| SessionRuns.PerformSound | packages/mariadb-wire-proto/src/lib.drift:631-995 | every call keeps the session invariant |
| SessionRuns.SessionSafety | packages/mariadb-wire-proto/src/lib.drift:293-338 | from connect on, in any run of calls on any packets: reusable exactly while not closed, busy exactly while an unended statement is held, mirrors equal to the last status seen |
| SessionRuns.EventErrorsInRuns | packages/mariadb-wire-proto/src/lib.drift:719-810 | in any run an event call fails only on an ended statement or by the session's death |
| SessionRuns.ClosedStaysClosed | packages/mariadb-wire-proto/src/lib.drift:293-297 | no call revives a dead session, reads from it or writes to it |
| SessionRuns.QuerySound | packages/mariadb-wire-proto/src/lib.drift:686-717 | a query that succeeds leaves a live busy session with a statement in a known mode; one that fails has killed a ready session, or changed nothing on another |
| SessionRuns.TxCommandSound | packages/mariadb-wire-proto/src/lib.drift:482-502 | a transaction command leaves its session ready or dead, ready when it succeeds |
| SessionRuns.ResetForPoolReuseOutcome | packages/mariadb-wire-proto/src/lib.drift:948-995 | success leaves a ready session; a failure leaves a live one exactly when it was busy, or tried the reset command and got an ERR that does not decode to code 1047 |
| SessionRuns.ResetConnectionRefusals | packages/mariadb-wire-proto/src/lib.drift:902-941 | the reset command fails on a session that lives exactly when the answer starts with 255, and counts as unsupported exactly when that answer decodes to code 1047 |
| SessionRuns.SetUpLeavesReadyOrClosed | packages/mariadb-rpc/src/lib.drift:469-531 | a connection comes out of set-up ready for its first command, or closed |
| CommandOutcomes.QueryRefusals | packages/mariadb-wire-proto/src/lib.drift:686-717 | a query is refused exactly on a dead or busy session, which is left as it is, and says which |
| CommandOutcomes.TxCommandRefusals | packages/mariadb-wire-proto/src/lib.drift:853-878 | so is a transaction command |
| CommandOutcomes.PingAndResetRefusals | packages/mariadb-wire-proto/src/lib.drift:880-941 | so are ping and the reset command |
| CommandOutcomes.PingIsExact | packages/mariadb-wire-proto/src/lib.drift:880-900 | a ping succeeds if and only if the answer has an OK header; the mirrors are then that packet's, or as before if it does not decode; a failure leaves the session dead |
| CommandOutcomes.ResetConnectionIsExact | packages/mariadb-wire-proto/src/lib.drift:902-941 | so does the reset command; it fails on a live session exactly when an ERR header came, with the mirrors as before |
| CommandOutcomes.TxCommandIsExact | packages/mariadb-wire-proto/src/lib.drift:482-502 | a transaction command succeeds if and only if it is answered by an OK packet, which it yields and mirrors |
| CommandOutcomes.TxJudgesResponse | packages/mariadb-wire-proto/src/lib.drift:482-502 | for every response of the grammar: an OK is yielded, an ERR, a row and a resultset each fail in their own way, and the response is read on to where reading to the end stops, ready or dead |
| CommandOutcomes.AwaitEndJudges | packages/mariadb-rpc/src/lib.drift:400-420 | waiting for the end reads everything and succeeds exactly when the last event ends the statement well |
| CommandOutcomes.ExecJudgesResponse | packages/mariadb-rpc/src/lib.drift:400-420 | for every response of the grammar: success exactly when it ends in an OK or a resultset, a server error exactly when it ends in an ERR |
| CommandOutcomes.SetUpIsExact | packages/mariadb-rpc/src/lib.drift:469-531 | set-up succeeds if and only if there is time before each command, SET NAMES ends well and SET autocommit is answered by an OK, whose status is mirrored; otherwise the session is closed, and the deadline is blamed exactly when the budget was spent there |
| CommandOutcomes.SetUpReportsItsCause | packages/mariadb-rpc/src/lib.drift:469-531 | a failed set-up reports the deadline, or the failure of the command it stopped at |
| CommandOutcomes.SetUpSends | packages/mariadb-rpc/src/lib.drift:469-531 | a successful set-up has put SET NAMES and SET autocommit with the configured value on the wire, and nothing else |
| CommandOutcomes.ManualResetIsExact | packages/mariadb-wire-proto/src/lib.drift:975-994 | the manual reset succeeds if and only if every step the flags call for is answered by an OK, and the ping by an OK header |
| CommandOutcomes.ResetForPoolReuseIsExact | packages/mariadb-wire-proto/src/lib.drift:948-995 | a reset before reuse succeeds if and only if the session was ready and the reset command is answered by an OK header, or is refused as unknown, now or earlier, and the manual reset succeeds |
| CommandOutcomes.RefusalIsRemembered | packages/mariadb-wire-proto/src/lib.drift:961-972 | the reset command is given up for good exactly when it is refused as unknown |
| CommandOutcomes.CloseSaysGoodbye | packages/mariadb-wire-proto/src/lib.drift:631-645 | closing puts as much of QUIT on the wire as the peer takes, all of it when the peer keeps taking, closes everything, and reports what the socket reports |
| PoolReuse.ManualResetSends | packages/mariadb-wire-proto/src/lib.drift:975-994 | a successful manual reset has sent ROLLBACK exactly when in a transaction, SET autocommit=1 exactly when it was then off, and a ping, in that order |
| PoolReuse.SuccessfulResetSent | packages/mariadb-wire-proto/src/lib.drift:943-995 | everything a successful reset has put on the wire, in either tier |
| PoolReuse.UnreadableRefusalSurfaces | packages/mariadb-wire-proto/src/lib.drift:923-936 | the bytes of code 1047 in an ERR that does not decode bring on no fallback: the error surfaces on a ready session that goes on trusting the reset command |
| ServerResponses.TakePacket | packages/mariadb-wire-proto/src/transport.drift:125-138 | the reader in front of a server's packets takes the next one and faces the rest |
| ServerResponses.PacketsCanBeServed | packages/mariadb-wire-proto/src/transport.drift:140-160 | any packets of legal size can be written to a stream and faced by a ready session whose own writes are taken, so the reading theorems speak about every such response |
| ServerResponses.DefsAreRead | packages/mariadb-wire-proto/src/lib.drift:754-779 | all column definitions and the marker behind them are read, in order |
| ServerResponses.RowsAreRead | packages/mariadb-wire-proto/src/lib.drift:780-809 | all rows are reported, in order |
| ServerResponses.ReadingResponse | packages/mariadb-wire-proto/src/lib.drift:430-477 | for every response the protocol allows: the exact events, the exact stopping place, and the status mirrored at the end |
| ServerResponses.QueryReadsResponse | packages/mariadb-wire-proto/src/lib.drift:686-810 | the same from the query on |
| ServerResponses.ReadsWholeExactlyWhenPlain | packages/mariadb-wire-proto/src/lib.drift:719-810 | the whole response and nothing else is consumed by a session that survives if and only if no OK promises more results and no ERR replaces a row |
| ServerResponses.SameEventsWithoutDefinitions | packages/mariadb-wire-proto/src/lib.drift:346-367 | the events are the same whether column definitions are sent or suppressed |
| ServerResponses.DropReadsToTheEnd | packages/mariadb-wire-proto/src/lib.drift:507-520 | a statement dropped after any number of events leaves its session where reading to the end would have: ready behind what can be read, or dead |
| StaleAnswers.StaleAnswerPassesExactlyAtIdOne | packages/mariadb-wire-proto/src/transport.drift:125-138 | a packet left over on the stream is taken for the answer to the next command if and only if its sequence id is 1; otherwise the command kills the session |
| StaleAnswers.EarlyEnd | packages/mariadb-wire-proto/src/lib.drift:719-810 | after an early end the session is ready, faces the rest of the response, and expects the id that the packets read lead to |
| StaleAnswers.StaleAnswerPassesExactly | packages/mariadb-wire-proto/src/lib.drift:719-810 | for every response of the grammar that ends early: the next command, once written, is answered by its rest if and only if the packets read are a multiple of 256 |
| StaleAnswers.OldPacketConfirmsCommit | packages/mariadb-rpc/src/lib.drift:583-588 | it happens: 256 packets read of a valid response, and a COMMIT reported as successful on its last packet, with nothing sent by the server since |
| CommitOutcomes.DoCommit | packages/mariadb-rpc/src/lib.drift:583-588 | the reported outcome is the classified wire outcome |
| CommitOutcomes.WriteOutcome | packages/mariadb-wire-proto/src/transport.drift:81-99 | a write failure is reported exactly when the packet was not accepted whole |
| CommitOutcomes.AnswerDecides | packages/mariadb-wire-proto/src/lib.drift:864-870 | once answered, the first packet alone decides between success, rejection and ambiguity |
| CommitOutcomes.CommitOutcomeIsExact | packages/mariadb-rpc/src/lib.drift:785-794 | on any stream: NotSent if and only if a strict prefix of the COMMIT packet was accepted, ServerRejected if and only if the answer decodes as ERR, success if and only if it decodes as OK, everything else AmbiguousWrite |
| CommitOutcomes.CommitGoesOut | packages/mariadb-wire-proto/src/transport.drift:81-99 | a COMMIT is accepted whole by a peer that keeps taking |
| CommitOutcomes.SilenceIsAmbiguous | packages/mariadb-rpc/src/lib.drift:785-794 | a COMMIT that went out and gets no answer is AmbiguousWrite on a dead session |
| Framing.TestCommitPayload | failpoint-proxy/src/framing.drift:72-90 | the trimming loops accept exactly ws* COMMIT ws* [; ws*] in any letter case behind the query byte |
| Framing.TrimmingDecides | failpoint-proxy/src/framing.drift:72-90 | trimming both ends decides the grammar |
| Framing.CommitWordIsSpelled | failpoint-proxy/src/framing.drift:60-90 | the word recognised is COMMIT with any of its letters small |
| Framing.BlanksAreSpelled | failpoint-proxy/src/framing.drift:60-90 | the blanks skipped are space, tab, newline and carriage return |
| Framing.Packetize | tools/wire_fixture_extract.py:77-107 | the whole-stream parser succeeds exactly when the stream is whole packets, and otherwise says where and why it stops |
| Framing.PacketsAreTheStream | tools/wire_fixture_extract.py:77-107 | the packets found, written out again, are the stream up to the incomplete tail |
| Framing.PacketFramer.FeedAndLocateCommits | failpoint-proxy/src/framing.drift:112-151 | under any chunking the reports so far are the COMMIT ends the whole-stream parser finds in the bytes so far; the buffer stays below 4 + 4096 bytes |
| Framing.PacketFramer.Push | failpoint-proxy/src/framing.drift:125-148 | one byte completes a packet, starts a skip, or is buffered |
| Framing.PacketFramer.Discard | failpoint-proxy/src/framing.drift:117-124 | oversized payloads are skipped byte-exactly |
| Framing.ParseContinues | failpoint-proxy/src/framing.drift:112-151 | parsing a longer stream continues from the tail of the shorter one |
| Framing.CommitEndsAreCommits | failpoint-proxy/src/framing.drift:112-151 | the ends reported are exactly the ends of COMMIT packets |
| Framing.CommitEndsIncrease | failpoint-proxy/src/framing.drift:112-151 | they come in strictly increasing order |
| Framing.NothingMissedUnlessOversized | failpoint-proxy/src/framing.drift:112-151 | every COMMIT is reported if and only if none is padded beyond the observation limit |
| Framing.PaddedCommitIsMissed | failpoint-proxy/src/framing.drift:112-151 | such a COMMIT exists |
| Failpoints.Registry.ObserveCommit | failpoint-proxy/src/control.drift:135-177 | pending entries up to the first due one are counted, that one fires, the others are left alone |
| Failpoints.Registry.Arm | failpoint-proxy/src/control.drift:217-277 | an acceptable request appends an armed entry under the next id; any other changes nothing |
| Failpoints.Registry.Clear | failpoint-proxy/src/control.drift:375-385 | empties the list and keeps the id counter |
| Failpoints.Registry.AssertAllFired | failpoint-proxy/src/control.drift:332-371 | ok if and only if the list is not empty and all entries have fired |
| Failpoints.UnfiredInOrder | failpoint-proxy/src/control.drift:332-371 | the labels listed are those of the entries not fired, in order |
| Failpoints.AlwaysSound | failpoint-proxy/src/control.drift:135-177 | over any run an armed entry has seen fewer COMMITs than it waits for, a fired one fired once, on its n-th |
| Failpoints.IdsCountArms | failpoint-proxy/src/control.drift:217-277 | ids count the accepted arms, across clears |
| Failpoints.EntryStands | failpoint-proxy/src/control.drift:217-277 | an entry stays where it was armed until the next clear |
| Failpoints.FiresExactlyOnTheNth | failpoint-proxy/src/control.drift:135-177 | it fires on precisely the n-th COMMIT since its arm among those not taken by an earlier entry |
| Failpoints.FireCarriesTheRequest | failpoint-proxy/src/control.drift:135-177 | in every run a fire reports the id, label, n, action and holding time of the request that armed it, and records the client |
| Failpoints.DocumentedNthHoldsExactlyWhenUncontended | failpoint-proxy/src/control.drift:128-135 | the n-th of all COMMITs since arming fires the entry if and only if at the time of arming every older pending entry had more than n COMMITs to wait for |
| Failpoints.SecondFailpointIsLate | failpoint-proxy/src/control.drift:128-135 | two failpoints for COMMITs 1 and 2: the second fires on the third |
| ProxyPumps.DecideFire | failpoint-proxy/src/main.drift:288-322 | COMMITs of a read are observed one by one up to the first that fires |
| ProxyPumps.FireIsTheLastObserved | failpoint-proxy/src/main.drift:297-302 | the firing COMMIT is the last observed, none before it fires, none behind it is counted |
| ProxyPumps.ForwardAll | failpoint-proxy/src/main.drift:194-208 | the first `n` bytes go out whole, or a prefix and a write error; a write that would block is tried again |
| ProxyPumps.PushOutSucceeds | failpoint-proxy/src/main.drift:194-208 | however often the peer would block first, everything goes out once it keeps taking |
| ProxyPumps.PushOutStops | failpoint-proxy/src/main.drift:194-208 | behind any number of calls that would block, one that takes nothing or fails ends it with nothing more written |
| ProxyPumps.ClientPump.Forward | failpoint-proxy/src/main.drift:329-332 | only what the decision leaves is forwarded, and only with the flags up |
| ProxyPumps.ClientPump.OnRead | failpoint-proxy/src/main.drift:285-341 | one read: framed, decided, flags raised, forwarded through the firing COMMIT's last byte and no further, how the pump ends, and the state of both sockets: closed by the immediate action, left open by the holding one |
| ProxyRefinement.DecisionIsAStep | failpoint-proxy/src/main.drift:285-332 | a fire the pump decides completes a COMMIT of the client's stream, is a possible step of its thread, and what is forwarded is what that step leaves |
| ProxyRefinement.PumpRead | failpoint-proxy/src/main.drift:276-349 | one read of the pump object is a run of its thread in the transition system, in step in bytes taken and forwarded, flags, and each of the four ways a read can end, so that what is proved of every run holds of it |
| ProxyRuns.StepKeepsInv | failpoint-proxy/src/main.drift:229-349 | every step of either pump or the server keeps the invariant |
| ProxyRuns.FiringIsPrecise | failpoint-proxy/src/main.drift:276-349 | in every interleaving a firing hands the server exactly the client's bytes up to that COMMIT's end (unless the write failed), and no byte of an answer to it reaches the client, for either action |
| ProxyRuns.TransparentUntilFired | failpoint-proxy/src/main.drift:210-254 | until then bytes pass unchanged and in order both ways |
| ProxyRuns.FiringIsFinal | failpoint-proxy/src/main.drift:333-341 | a connection fires at most once and reads nothing more from the client |
| ProxyRuns.HoldHolds | failpoint-proxy/src/main.drift:221-241 | with the server quiet until it has the COMMIT, the answering pump never looks between the flags, and the holding action holds |
| ProxyRuns.HoldIsCutShortExactlyBetweenTheFlags | failpoint-proxy/src/main.drift:236-241 | in every run in which a holding failpoint has fired, the answering pump ends the connection if and only if it looks at `hold` with only `swallow` up |
| ProxyRuns.HoldCutShort | failpoint-proxy/src/main.drift:325-328 | a run that closes the connection there, with the COMMIT not yet forwarded |
| FaultedCommits.OwnCommitIsACommit | packages/mariadb-wire-proto/src/lib.drift:864-870 | the client's own COMMIT is one the framer recognises, of the 11 bytes the registry reports |
| FaultedCommits.OwnCommitIsSeen | failpoint-proxy/src/framing.drift:112-151 | behind whole packets it is located at exactly its end |
| FaultedCommits.FaultedCommitIsAmbiguous | failpoint-proxy/src/main.drift:376-391 | a synchronous client whose COMMIT fires a failpoint gets AmbiguousWrite and a dead session in every interleaving, while the server has the COMMIT whole |
| FaultedCommits.FaultCanHappen | failpoint-proxy/src/main.drift:276-341 | the premises can be met for either action and for any ready session that has written whole packets and read every answer, when its COMMIT is taken whole: a run in which the failpoint fires on it |
| CallText.CheckProcName | packages/mariadb-rpc/src/lib.drift:239-253 | accepts exactly the non-empty names of letters, digits and underscores |
| CallText.QuoteString | packages/mariadb-rpc/src/lib.drift:263-278 | the loop computes the quoted form |
| CallText.BuildHexLiteral | packages/mariadb-rpc/src/lib.drift:289-301 | the loop computes the hexadecimal form |
| CallText.BuildCallSql | packages/mariadb-rpc/src/lib.drift:316-334 | the loop computes the statement's text, or reports the invalid name; read back, the text gives the server the procedure and the value of every argument |
| CallText.ScanDoubled | packages/mariadb-rpc/src/lib.drift:263-278 | scanning a quoted string recovers its content and stops at its closing quote |
| CallText.CallReadsBack | packages/mariadb-rpc/src/lib.drift:316-334 | scanning the text recovers the name, the number of arguments and every literal |
| CallText.CallMeansItsArguments | packages/mariadb-rpc/src/lib.drift:303-334 | the server gets the call that was meant: null, 1 or 0 for a boolean, integers of either sign, the bytes of strings and byte arrays |
| CallText.MeaningSurvives | packages/mariadb-rpc/src/lib.drift:303-312 | each literal has the value of its argument, read by rules that do not mention the encoder |
| CallText.IntegerReadsBack | packages/mariadb-rpc/src/lib.drift:303-312 | so has every integer, signed or not |
| CallText.ContentSurvives | packages/mariadb-rpc/src/lib.drift:303-312 | String and Bytes arguments come back as their original bytes |
| CallText.DecimalReadsBack | packages/mariadb-rpc/src/lib.drift:303-312 | the digits of an integer literal denote that integer |
| CallText.SameTextSameCall | packages/mariadb-rpc/src/lib.drift:316-334 | two calls with the same text have the same name, the same literals, one by one, and the same values |

## Left out

- Sockets, name resolution, epoll, virtual threads, signals and process shutdown: a stream is a byte sequence with an arbitrary schedule, a condition variable a set of threads.
- Sockets.TcpStream.Write: a write that reports failure is taken to have delivered nothing, because an API result is all the client has to go by; so NotSent speaks about writes the peer's side acknowledged.
- Sockets.TcpStream.Read: a timeout and a reset are the same failure.
- Wall-clock bounds: time is a ghost clock in the pool and absent elsewhere. Whether a connect budget is spent is an arbitrary answer at each place where set-up looks; clamped timeouts, reconnect backoff and the claim that `acquire` ends in time are not modelled, since each read is granted a fresh timeout.
- The handshake, authentication, capability negotiation and character sets: a session starts as `connect` leaves it after the server's OK.
- UTF-8 validation, and float formatting: any predicate on byte strings, and any text without a comma, a quote in front or a closing parenthesis.
- PacketCodec.DecodeTextRow: the program adds an offset and a declared cell length in 64-bit integers before it compares the sum with the packet's length; the model adds them without bound, so a declared length near 2^63, which the program's sum could overflow on, is a truncated cell here.
- Transport.SessionReadPacket: the two length checks that three header bytes can never violate are not repeated, and lengths do not overflow, because integers here are unbounded.
- Error offsets and server messages inside errors: errors are their machine tags.
- ServerResponses.ReadingResponse: payloads fit one packet, because the library does not split or join larger ones; an ERR among column definitions is not among the responses.
- PoolReuse.SuccessfulResetSent: says what was sent, not that the server is clean, because ERR packets carry no status and the mirrors are only as good as the last one seen.
- CallText.CallMeansItsArguments: an empty byte array becomes the literal `0x`, read here as no bytes; whether a server takes it for a literal is not part of this model. Floats keep whatever value their text has.
- CallText.CallReadsBack: servers on which a backslash also escapes are not covered, because the text is defined for the standard's literal rules.
- Pool fairness, the order of timestamps in the idle deque, reaping of every aged entry, `min_idle` as a live floor: the pool does not promise them.
- PoolSlots.PoolSlot.AfterWait: the waiting loop is cut at its wait, because what happens during the wait belongs to the other threads; one pass is one step of `PoolWorlds`.
- The keepalive fiber's timing, the polling of file descriptors and event sinks: readiness is any set of tokens from an earlier snapshot.
- ManagedSlots.ManagedSlot.SlotPutDecide: a lease is stored again whatever its health, as the code does.
- ProxyPumps.DecideFire: COMMITs of other connections between two observations of one read; in `ProxyRuns` the decision is arbitrary.
- ProxyPumps.ForwardAll: a peer that would block for ever; a schedule is finite, and its end is a write error.
- Control-line JSON, `status`, `list` and `health`, logging, argument parsing, the accept loop: plumbing around the registry and the pumps.
- Row getters, configuration builders, capability masks, the batch resultset decoder for fixtures: single-branch facts or code off the production path.
