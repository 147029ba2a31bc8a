# Verified models of Enduro/X coordination code

Enduro/X is a middleware for clustered transaction processing.  This project models, in
Dafny, the parts of it that keep state across processes and nodes, and proves what they
promise over whole runs:

- **The singleton-group lock provider** (`exsinglesv/`).  One provider process per node runs
  a table-driven state machine every check interval.  The group belongs to whoever holds an
  advisory lock on file 1.  The owner keeps a heartbeat record (time, sequence, CRC-32, in two
  copies) in file 2 and publishes the lock to its node's shared memory, where it expires.
- **The bridge's temporary queues** (`bridge/tempq.c`).  Any thread may add messages whose
  destination was full; one runner thread retries them, giving up the lock while it handles
  each one.
- **The bridge's clock correction** (`bridge/clock.c`), a small protocol that estimates the
  offset between two nodes' monotonic clocks.
- **The client process monitor** (`cpmsrv/`), which starts, watches and kills client
  processes and honours the singleton-group locks.

`dafny verify dfyconfig.toml` checks everything.

## How the modules fit together

| modules | what they hold |
|---|---|
| `Crc32`, `Crc32Table` | the checksum as polynomial division, and the byte table and loop that compute it |
| `PingRecord`, `PingMixture`, `PingFile` | the 24-byte record, when a torn one fools its checksum, and the heartbeat file, byte by byte |
| `LockSm`, `LockRuns`, `LockEnds`, `LockProvider`, `StateTable` | the locking state machine as functions, its single runs, what each run comes to without the table, the process that runs it, and its compiled table |
| `HeartbeatCells` | the connection between the bytes of file 2 and the copies the state machine speaks of |
| `Cluster`, `ClusterInv`, `ClusterClock`, `ClusterTime`, `ClusterSafety`, `ClusterBound`, `ClusterLapse`, `ClusterTakeover`, `ClusterLeaving`, `LockConfig` | all nodes at once, every interleaving and crash: fencing, timed mutual exclusion and its exact conditions, lapsed locks, takeovers, and what a process that leaves gives up |
| `TempQueue`, `TempQueueInv`, `TempQueueRuns`, `TempQueueRunner`, `TempQueueConfig` | the temporary queues as steps, what every run keeps, and the routines with their loops and saved pointers |
| `Stopwatch`, `ClockSync` | time stamps, and the clock correction between two nodes over a lossy network |
| `ClientSpec`, `ClientRuns`, `ClientHistory`, `ClientMonitor` | the client monitor as functions, what its operations mean, its histories, and the object with its loops |
| `Common` | the option type, minimum and maximum, and C division |

Every operation that changes state is a method of a class (`PingFile.HeartbeatFile`,
`LockProvider.Provider`, `TempQueueRunner.Bridge`, `ClockSync.BridgeClock`,
`ClientMonitor.Monitor`) or works in place on an array (`StateTable.BuildIndex`), proved
against functions.  The theorems about runs are about those functions.

What comes from outside is a parameter: clock readings, results of sends, writes, forks and
remote queries, exits of children, what other threads do while a lock is free.

## Results worth knowing

Some properties one would expect are false of the code as it is.  For each there is a
concrete run or input, and the exact condition under which the property holds.

- A ping that is cut short reads as the old or the new record *if and only if* no cut of the
  two records' difference takes the checksum register from zero back to zero
  (`PingFile.CrashSafeIff`).  For records that keep the high words of time and sequence that
  means: the change of the time is not the echo, a fixed linear function, of the first one,
  two or three bytes of the sequence's change (`PingFile.CrashSafeIffNoEcho`).  A node that
  comes back after 206 days with the next sequence can meet this
  (`PingFile.CrashCanLeaveMixture`); a ping within the same stretch of 2^24 seconds whose
  sequence changes in its last two bytes cannot (`PingFile.PingIsCrashSafe`).
- Two nodes never hold unexpired locks at once *if and only if* `locked_wait * chkinterval`
  exceeds the life of a lock (`ClusterBound.ExclusionIff`), as long as no process locks at once
  on its first boot while another lock is alive.  With a shorter wait there is a run that
  overlaps (`ClusterBound.ShortWaitOverlaps`).  With the default wait this means
  `chkinterval <= sgrefresh`; start-up only warns, and at a third of that value.
- A first boot that meets a free file 1 locks at once, so two first boots in a row, with a
  crash between them, do overlap (`ClusterSafety.FirstBootsCanOverlap`).  With a sufficient
  wait, all states of a run are exclusive *if and only if* no first boot in it sets a lock
  while another one is alive (`ClusterTime.ExclusiveIffBootsSafe`).
- A refresh checks the lock and stores its new stamp in two steps, so a lock that lapses in
  between comes back (`ClusterLapse.LateStoreRevives`).  A lapsed lock counts again *if and only
  if* the next action stores a stamp whose check has already passed, and that stamp is not
  itself expired (`ClusterLapse.LapsedIsRevivedIff`).
- An empty temporary queue can exist *if and only if* messages are dropped when the bridge is
  full (`TempQueueRuns.NoEmptyQueuesIff`, which also gives the run).
- An offset taken from a clock response can be up to a millisecond too low, because both
  stamps are cut to milliseconds (`ClockSync.BoundsAreReached`).  It is not too low *if and only
  if* the message was under way for at least the difference of the two sub-millisecond parts
  (`ClockSync.NotBelowIff`); a receiver can be sure of it *if and only if* the sender's
  sub-millisecond part is not below its own (`ClockSync.StampsTellIff`).  An offset from an
  unasked message has no upper bound at all (`ClockSync.AsyncIsUnbounded`).
- The bounds on an offset hold over every run with restarts of the bridges, as long as no two
  requests of one node share both the number and the calendar second
  (`ClockSync.CorrectionBound`).  A bridge that is restarted within a second starts its numbers
  again, takes the answer to its predecessor's request for its own, and misses the bound
  (`ClockSync.QuickRestartMisleads`).
- Restarting a client can leave it running and asked to stop (`ClientHistory.RestartCanBeLost`).
  It is asked to run again *if and only if* it was not started, or a reported exit is put down
  to it, or it is not a child of the monitor and has gone (`ClientRuns.RestartIff`).
- Compiling a row of a state table can change it (`StateTable.ScanAndIndexDiffer`); it keeps its
  meaning *if and only if* no event's first and last transition differ
  (`StateTable.IndexRefinesScanIff`).

Where comments and code disagree, the models follow the code: compiling a state table does
not reject a row without an end mark (libnstd/exsm.c:242), and a stop command reports success
even if the client survives (cpmsrv/cltexec.c:540-546).

## Assumptions

- The lock on file 1 is lost only when its holder dies or gives it up, and nobody else takes it meanwhile.
- All nodes of a cluster read one clock of whole seconds that never goes back; the two clocks
  of a bridge run at the same rate.
- Successive runs of one provider are at least the check interval apart, from the end of one to
  the start of the next (libatmisrv/svqdispatch.c:1395-1530).
- In the cluster a copy torn by a crash does not pass its checksum; `HeartbeatCells` and
  `PingFile.CrashSafeIff` say exactly when that is so.
- Every takeover raises the sequence by at least one (include/atmi_int.h:540-545).
- No two requests of one node for the other's clock carry both the same number and the same
  calendar second (`ClockSync.Fresh`); needed for the bounds on the offset only.
- The thread pool refuses a runner job only when one is already waiting (libnstd/thpool.c:243-307).
- Other threads stop adding messages at some point, at an unknown time: the loops over the
  temporary queues end only because of that (`TempQueueRunner.QuietFrom`).  What holds while they
  run does not depend on it.

## Model

| member | source | states |
|---|---|---|
| `Crc32Table.ComputeBuf` | libnstd/crc32.c:46-97 | the table-driven loop computes the reflected CRC-32 register function over all bytes, starting from and finally inverting all ones |
| `Crc32Table.CheckValue` | libnstd/crc32.c:90-97 | the checksum of the nine digits 1 to 9 is 0xCBF43926, the check value of the standard CRC-32 |
| `Crc32Table.TableIsDivision` | libnstd/crc32.c:49-87 | each of the 256 listed table entries is its index pushed through eight single-bit steps of the polynomial division |
| `Crc32.ByteStepIsEightSteps` | libnstd/crc32.c:94-95 | one table step is eight single-bit steps of the polynomial division, for every register and byte |
| `Crc32.RegisterInjective` | libnstd/crc32.c:92-97 | feeding the same bytes to different registers never makes them equal |
| `Crc32.BurstDetected` | libnstd/crc32.c:92-97 | two messages that differ only within four neighbouring bytes always have different checksums |
| `Crc32.RegisterDifference` | libnstd/crc32.c:92-97 | the registers of two equally long messages differ by the register of their byte-wise difference started from zero |
| `PingRecord.DecodeIff` | exsinglesv/filelock.c:580-599 | a 24-byte block is accepted as an entry if and only if it is exactly that entry's block: big-endian time and sequence, then the checksum of those 16 bytes |
| `PingRecord.TornBlockDecode` | exsinglesv/filelock.c:733-755 | a block cut after any number of bytes is rejected, or read as the old or the new entry, if and only if it is not a mixture with the old checksum |
| `PingMixture.FalseMixtureIff` | exsinglesv/filelock.c:580-599 | for all entries and cuts: the mixture passes the old checksum as a third entry if and only if the difference's first bytes are not all zero but lead the register from zero to zero, and something differs after them |
| `PingMixture.NoFalseMixtureIff` | exsinglesv/filelock.c:580-599 | for entries that keep the high words of time and sequence: no cut fools the reader if and only if the time's change is not the echo of the first one, two or three bytes of the sequence's change, where these are neither zero nor all of it |
| `PingMixture.CarryIff` | exsinglesv/filelock.c:580-599 | for a sequence that changes in its last two bytes only: a cut fools the reader if and only if both bytes differ and the time's change is the echo, built from eight constants, of the first one's |
| `PingMixture.CarryIsSafe` | exsinglesv/filelock.c:580-599 | such a ping is safe at every cut when the times agree above their low 24 bits, with or without a carry |
| `PingMixture.SameSecondIsSafe` | exsinglesv/filelock.c:580-599 | two pings of the same second whose sequences share their high word have no false mixture |
| `PingMixture.PingWithoutCarryIsSafe` | exsinglesv/filelock.c:580-599 | without a carry out of the sequence's low byte there is no false mixture, whatever happens in the time's low word |
| `PingMixture.ChecksumCanBeFooled` | exsinglesv/filelock.c:580-599 | a concrete pair of entries, 206 days and one sequence apart, whose mixture after 15 bytes passes the checksum |
| `PingFile.SlotsAreDisjoint` | exsinglesv/filelock.c:482-495 | all 64 slots lie inside the file and no two share a byte |
| `PingFile.CopiesAreApart` | exsinglesv/filelock.c:494-495 | the first copies of all 32 nodes come first, in order and without gaps, then the second copies, each 768 bytes after its first |
| `PingFile.PingFrame` | exsinglesv/filelock.c:487-637 | however a ping ends, no other node's record reads differently |
| `PingFile.PingReadBack` | exsinglesv/filelock.c:772-808 | a complete ping is read back exactly, from either copy, for all 64-bit times and sequences |
| `PingFile.CrashSafeIff` | exsinglesv/filelock.c:487-637 | with both copies equal before, stopping a ping after any number of bytes leaves exactly the old or the new entry readable, if and only if no cut of their difference takes the register back to zero with something on both sides |
| `PingFile.CrashSafeIffNoEcho` | exsinglesv/filelock.c:487-637 | the same, in closed form, for entries that keep their high words |
| `PingFile.PingIsCrashSafe` | exsinglesv/filelock.c:487-637 | every ping whose time agrees with the last one's above the low 24 bits, and whose sequence does above the low 16, is crash-safe |
| `PingFile.CrashCanLeaveMixture` | exsinglesv/filelock.c:487-637 | a concrete ping, cut after 15 bytes, that leaves a third entry readable |
| `PingFile.InitialReads` | exsinglesv/filelock.c:528-571 | every record of a new file reads as time zero, sequence zero |
| `PingFile.HeartbeatFile.Initialise` | exsinglesv/filelock.c:528-571 | the loop gives every slot of both copies a valid zero record |
| `PingFile.HeartbeatFile.PingDo` | exsinglesv/filelock.c:475-647 | the two-copy loop, stopped after any number of bytes, leaves exactly the file of that ping, on a present or a new file, and succeeds only when both copies are complete |
| `PingFile.HeartbeatFile.PingReadInt` | exsinglesv/filelock.c:660-764 | one copy, its checksum and the missing file |
| `PingFile.HeartbeatFile.PingRead` | exsinglesv/filelock.c:772-808 | the three attempts give the first copy that passes its checksum, and an error only if neither does |
| `PingFile.HeartbeatFile.SgMaxSeq` | exsinglesv/filelock.c:816-864 | the loop over the group's nodes, with its stop at a missing file and its failure at an unreadable record |
| `PingFile.HighestIsMaximum` | exsinglesv/filelock.c:816-864 | the search fails if and only if some record cannot be read; otherwise its result bounds every sequence, as unsigned 64-bit numbers, and is zero or one of them |
| `HeartbeatCells.WriteIsOutcome` | exsinglesv/filelock.c:599-608 | a write cut anywhere acts on a copy as one of the state machine's write outcomes, if and only if it does not make up a third sequence |
| `HeartbeatCells.OnlyMixturesFool` | exsinglesv/filelock.c:733-755 | over a valid record, only a false mixture makes up a third sequence |
| `HeartbeatCells.ReadableIsRead` | exsinglesv/filelock.c:772-808 | what the state machine reads from a node's copies is what the file's reader returns |
| `HeartbeatCells.PingRefinesCells` | exsinglesv/filelock.c:487-637 | a ping cut after any number of bytes acts on all nodes' copies as the state machine's two writes, the second only after the first, if and only if neither write fools the reader |
| `LockSm.MaxSeqOfIsMaximum` | exsinglesv/filelock.c:816-864 | the highest sequence of a group's copies bounds them all and is attained; it is missing if and only if some node has no readable copy |
| `LockSm.RowLowersRank` | exsinglesv/locksm.c:113-167 | every transition leads to a state of lower rank, so every run ends |
| `LockRuns.OnlyMissingRow` | exsinglesv/locksm.c:113-167 | of all events all actions can return, the only one without a row is a wait in the locked check, and exactly when the process holds file 1 without having locked |
| `LockRuns.StuckIff` | exsinglesv/locksm.c:113-167 | a run meets the missing row if and only if shared memory says locked while the process holds file 1 and has not locked the group |
| `LockRuns.RunWhileOtherHolds` | exsinglesv/locksm.c:246-280 | a whole run made while another node holds file 1 writes no heartbeat and sets or refreshes no lock; if the process believed it held file 1, the run ends in abort, except exactly where it finds a lock in shared memory that it has not set, when no row is left |
| `LockRuns.LockedIff` | exsinglesv/filelock.c:237-467 | the group counts as locked if and only if the lock is set, has not expired, and every other node, by its answer or else its heartbeat record, is below it; a lock is taken down only if it has expired or some node is not below it |
| `LockRuns.MaintenanceBlocksTakeover` | exsinglesv/locksm.c:325-350 | in maintenance mode a run of a process without file 1 does not take it and sets nothing |
| `LockRuns.AbortGivesUp` | exsinglesv/lp.c:67-97 | a run, from whatever state, hands the caller a failure only as an abort, and then has given up file 1 and forgotten the lock |
| `LockEnds.ObjectionIff` | exsinglesv/filelock.c:276-446 | with an unexpired lock, the first node in the list whose answer, or else record, is not below us decides: one that is heard to be locked or not below takes the lock flag down, one that is not heard leaves it; either way the check fails |
| `LockEnds.UnlockedIff` | exsinglesv/filelock.c:252-269 | the group counts as unlocked if and only if it is found and its lock is not set or its stamp is off by more than the life of a lock either way; then the flag is down; without the group the check fails and touches nothing |
| `LockEnds.RunIsOutcome` | exsinglesv/locksm.c:113-506 | a run through the table equals, for all states, inputs and failures, a structured program with no table in it: what it reads and writes, which of the two aborts each failure ends in, and the return code |
| `LockEnds.AbortLeavesFlag` | exsinglesv/locksm.c:113-167 | a run whose check fails aborts with the lock flag as the check left it; one that aborts after its check leaves the flag down |
| `LockEnds.OwnerRunIff` | exsinglesv/locksm.c:246-298 | an owner that finds the group locked ends its run well if and only if it may ping, both copies are written and the lock is still its own and unexpired; then the lock carries the stamp of the check and the next sequence, as both copies do; otherwise the flag is down and file 1 given up |
| `StateTable.BuildIndex` | libnstd/exsm.c:340-409 | in place: a row whose events are all in range becomes one that holds, at each event's place, the last transition listed for it; any other row stays as it is |
| `StateTable.IndexRefinesScanIff` | libnstd/exsm.c:106-187 | looking an event up in the compiled row equals scanning the list, for all events, if and only if every event's first and last transition agree |
| `StateTable.ScanAndIndexDiffer` | libnstd/exsm.c:106-187 | for any two different next states, a row on which the scan gives the one and the compiled row the other |
| `StateTable.LockTableIsRow` | exsinglesv/locksm.c:113-167 | the compiled rows of the locking machine's table are its transition function, for every state and event; what those transitions amount to is `LockEnds.RunIsOutcome` |
| `LockProvider.Provider.SgMaxSeq` | exsinglesv/filelock.c:816-864 | the loop equals the group's highest sequence, or -1 when a record cannot be read |
| `LockProvider.Provider.SgIsLocked` | exsinglesv/filelock.c:237-467 | the loop over the other nodes gives the status and the shared memory that `LockRuns.LockedIff`, `LockEnds.ObjectionIff` and `LockEnds.UnlockedIff` describe: an expired lock and one that a node is heard to be above are taken down, the first objection ends the check |
| `LockProvider.Provider.GetSinglegrp` | exsinglesv/locksm.c:174-212 | the stamp is taken and the group's state classified as the state machine's first action |
| `LockProvider.Provider.ChkLLock` | exsinglesv/locksm.c:217-239 | where the check leads through the table: after unlocked shared memory a process that has locked gives up, one that waits pings, any other goes on to take file 1; after locked shared memory one that has locked pings, one that has nothing gives up, and one that waits has no row |
| `LockProvider.Provider.PingDo` | exsinglesv/filelock.c:487-637 | the second copy is written only after the first |
| `LockProvider.Provider.PingLock` | exsinglesv/locksm.c:246-280 | no ping without the file 1 check; the sequence goes up by one |
| `LockProvider.Provider.ShmRefresh` | exsinglesv/locksm.c:285-298 | the lock is refreshed only if it is set, ours and not expired; an expired one is taken down |
| `LockProvider.Provider.Uninit` | exsinglesv/lp.c:67-97 | what an abort and an orderly exit release, as `ClusterLeaving.AbortReleases` and `ClusterLeaving.ExitReleases` describe it, and that the file 1 flag stays set |
| `LockProvider.Provider.Acquire` | exsinglesv/locksm.c:362-409 | taking file 1, the next sequence and the first ping, with every way to fail |
| `LockProvider.Provider.DecideNow` | exsinglesv/locksm.c:411-461 | lock at once on first boot, else count the run, compare with the highest sequence, and lock after enough runs |
| `LockProvider.Provider.DoLock` | exsinglesv/locksm.c:356-506 | the whole locking action, including the boot script and the already locked shared memory |
| `LockProvider.Provider.Perform` | exsinglesv/locksm.c:113-167 | each state's action |
| `LockProvider.Provider.SmRun` | libnstd/exsm.c:93-231 | the loop over the table ends, with the final state and the return code, -1 on a missing row, of the run that `LockEnds.RunIsOutcome` gives without the table |
| `ClusterInv.StepKeepsProc` | exsinglesv/locksm.c:113-167 | every step of every action keeps what a process knows about itself, by state, and returns an event that has a row |
| `ClusterInv.TakeoverSequence` | exsinglesv/locksm.c:383-398 | the sequence chosen at a takeover is above everything published and recorded before |
| `ClusterInv.PublishingStep` | exsinglesv/locksm.c:285-298 | only the owner publishes, and only a sequence above all published ones that both its copies already carry |
| `ClusterInv.ActionKeepsInv` | exsinglesv/locksm.c:356-506 | every step, crash (also inside a write or between the stores of a publish), start, exit and reboot keeps: each readable copy is at least all its node has published, and the owner is above every other node |
| `ClusterInv.FencingOrder` | exsinglesv/locksm.c:246-298 | over every run of the cluster, the sequences stored to shared memory, on whatever node, strictly increase |
| `ClusterClock.ActionKeepsClock` | exsinglesv/locksm.c:411-461 | every step keeps: stamps lie in the past, other nodes' locks date from before file 1 was taken, a waiting owner has counted exactly its runs since then, each a full interval long, and one that is about to lock has waited for exactly the configured number |
| `ClusterTime.ActionKeepsTime` | exsinglesv/locksm.c:411-500 | every step in which no first boot's lock meets another one keeps: once an owner has decided to lock, all other locks have expired, or its own does not count; and no two locks are alive |
| `ClusterTime.MutualExclusion` | exsinglesv/locksm.c:411-461 | if the waiting runs outlast the life of a lock, and no first boot sets a lock while another one is alive, no two nodes ever have unexpired locks |
| `ClusterTime.ExclusiveIffBootsSafe` | exsinglesv/locksm.c:412-415 | if the waiting runs outlast the life of a lock, every state of a run is exclusive if and only if no first boot in it sets a lock whose stamp still counts while another node's lock is alive |
| `ClusterSafety.NoReachableRunIsStuck` | exsinglesv/locksm.c:113-167 | in every reachable state of the cluster, whatever an action returns has a row |
| `ClusterSafety.NonOwnerIsHarmless` | exsinglesv/filelock.c:93-126 | in every reachable state, a process that does not own file 1 while another does writes no heartbeat and sets or refreshes no lock |
| `ClusterSafety.OwnerDominates` | exsinglesv/locksm.c:383-404 | in every reachable state the owner's readable sequence is strictly above every other node's |
| `ClusterSafety.OwnerNeverFencesItself` | exsinglesv/filelock.c:348-446 | checking against the heartbeat file alone, an owner whose lock has not expired always finds it intact |
| `ClusterSafety.WaitingOwnerIsUncontested` | exsinglesv/locksm.c:417-441 | a waiting owner always finds its own sequence to be the highest, so it waits or locks and never fails the comparison |
| `ClusterSafety.FirstBootLocks` | exsinglesv/exsinglesv.c:323-343 | a first boot that meets a free file 1 locks the group within the same second |
| `ClusterSafety.FirstBootsCanOverlap` | exsinglesv/locksm.c:412-415 | a run of two first boots and one crash that ends with two unexpired locks |
| `ClusterBound.TakeoverLocks` | exsinglesv/locksm.c:411-461 | from every state with file 1 free there is a run in which a restarted process takes it at once and locks exactly max(0, locked_wait) intervals later |
| `ClusterBound.ShortWaitOverlaps` | exsinglesv/locksm.c:411-461 | with a shorter wait, a run with one crash that ends with two unexpired locks |
| `ClusterBound.ExclusionIff` | exsinglesv/locksm.c:411-461 | in a group of two nodes or more, every state of every safe run is exclusive if and only if locked_wait intervals outlast the life of a lock |
| `ClusterLapse.LapsedIsRevivedIff` | libnstd/singlegrp.c:163-234 | in every reachable state, a lapsed lock counts again after an action if and only if that action stores the stamp of a refresh whose check has passed, and the stamp has not expired |
| `ClusterLapse.LapsedStaysLapsed` | libnstd/singlegrp.c:163-234 | a lock that lapses outside the stores of a refresh stays lapsed through every run, as long as its flag is not taken down |
| `ClusterLapse.LateStoreRevives` | libnstd/singlegrp.c:222-230 | for every configuration whose interval is at most the life of a lock, a run in which a lapsed lock counts again |
| `ClusterTakeover.WaitCounterIsRuns` | exsinglesv/locksm.c:417-461 | in every reachable state a waiting owner's counter is the number of its runs since it took file 1, and a takeover that is about to lock has let exactly max(0, locked_wait) runs pass |
| `ClusterTakeover.TakeoverLocksOnTime` | exsinglesv/locksm.c:407-461 | with nothing failing on its own node, and other nodes stepping, crashing and starting as they like, a waiting owner keeps file 1 and stays unlocked for max(0, locked_wait) runs and has locked when one more has ended |
| `ClusterLeaving.ExitReleases` | exsinglesv/exsinglesv.c:394 | from every reachable state an orderly exit of a process that has taken file 1 leaves it free and the node's lock flag down; of any other process, leaves shared memory as it is; nothing else changes |
| `ClusterLeaving.AbortReleases` | exsinglesv/locksm.c:303-320 | from every reachable state the two aborts free file 1 and forget the lock; the one takes the node's lock flag down, the other leaves it |
| `ClusterLeaving.FailedIsUnlocked` | exsinglesv/locksm.c:113-167 | a run whose check did not fail and that fails later has taken its node's lock flag down, whatever the others do meanwhile |
| `ClusterLeaving.FlagRaisedIff` | libnstd/singlegrp.c:222-230 | a node's lock flag goes up if and only if its process makes the stores of a takeover |
| `ClusterLeaving.TakenDownStays` | libnstd/singlegrp.c:222-230 | over every run, a lock flag that was taken down, even between a refresh's check and its stores, stays down until the node's process takes over again |
| `LockConfig.InitTiming` | exsinglesv/exsinglesv.c:244-299 | which settings are kept, the default interval (a third of the life of a lock, cut) and the default wait (twice the intervals in it), exactly when they are refused, and exactly when a warning is given |
| `LockConfig.DefaultWaitIsExclusiveIff` | exsinglesv/exsinglesv.c:263-271 | with the default wait, all safe runs are exclusive if and only if the interval is not above the life of a lock |
| `LockConfig.AllDefaultsAreExclusive` | exsinglesv/exsinglesv.c:244-271 | with both settings left out, every accepted configuration is exclusive |
| `TempQueue.BackoffStep` | bridge/tempq.c:412-423 | doubling with its clamps takes the k-th wait of the closed form to the next |
| `TempQueueInv.AddKeepsInv` | bridge/tempq.c:601-642 | adding, refused or not, keeps counters, order, conservation, attempts and limits |
| `TempQueueInv.VisitKeepsInv` | bridge/tempq.c:305-447 | handling a queue's head, with every outcome, keeps them too |
| `TempQueueRuns.Accounting` | bridge/tempq.c:65-76 | under every interleaving the total is the sum over all queues, each counter is its queue's length, and no destination has two queues |
| `TempQueueRuns.OrderAndConservation` | bridge/tempq.c:305-447 | the messages accepted for a destination have left in that order or still wait in that order, each exactly once |
| `TempQueueRuns.PrefixLeaves` | bridge/tempq.c:305-447 | between any two moments, what has left a queue followed by what waits is what waited before followed by what was accepted |
| `TempQueueRuns.PastStays` | bridge/tempq.c:348-406 | nothing accepted is forgotten, and a message that has left, sent or not, is never handed to a send again |
| `TempQueueRuns.FateIff` | bridge/tempq.c:348-406 | of every message that has left: sent if and only if its last send handed it over; expired if and only if that send, a late one, found the destination full and the call, of a kind that can expire, at least as old as its time-out; otherwise discarded, and then only because its queue was broken or its tries or its time to live were used up; a send after one that did not find the destination full never happens |
| `TempQueueRuns.SendsAreSpaced` | bridge/tempq.c:314-337 | between a message's failed send and the next lie at least min(qminsleep * 2^k, qmaxsleep), counted from when it was put off, unless it was reached right after another message of its queue had left |
| `TempQueueRuns.IdleVisitIff` | bridge/tempq.c:314-337 | a visit does nothing if and only if its clock is before the end of that wait and no message of the queue has just left |
| `TempQueueRuns.TakenIff` | bridge/tempq.c:605-631 | after every run a message is taken if and only if neither the bridge is full and set to drop nor its destination's queue is; taken, it waits behind all others for its destination, and otherwise it leaves nothing but an entry for it |
| `TempQueueRuns.AllTaken` | bridge/tempq.c:611-624 | with neither limit set to drop every message is taken |
| `TempQueueRuns.RetryBound` | bridge/tempq.c:338-349 | no message is handed to a send more than max(1, qretries) times, its first direct send included |
| `TempQueueRuns.BackoffClosedForm` | bridge/tempq.c:409-424 | after k failed late attempts the wait is min(qminsleep * 2^k, qmaxsleep); and what it is when qminsleep exceeds qmaxsleep |
| `TempQueueRuns.DropBounds` | bridge/tempq.c:611-624 | with both limits on drop the total never exceeds its limit; with the service limit on drop no queue exceeds its own |
| `TempQueueRuns.NoEmptyQueuesIff` | bridge/tempq.c:605-624 | every queue of every reachable state has a message if and only if a full bridge does not drop |
| `TempQueueRuns.VisitsAreBounded` | bridge/tempq.c:338-406 | due visits plus remaining work never exceed the initial work plus max(1, qretries) for each accepted message |
| `TempQueueRuns.Drains` | bridge/tempq.c:338-406 | with no message accepted any more, that many due visits leave every queue empty |
| `TempQueueRunner.NextStaysGood` | bridge/tempq.c:305-447 | the saved pointer to the next message is the queue's live head when the lock is held again |
| `TempQueueRunner.RemoveLeaves` | bridge/tempq.c:65-76 | removing a head frees the queue if and only if it was the last message, and no other queue |
| `TempQueueRunner.Bridge.AddToQ` | bridge/tempq.c:567-675 | the new state and the refusals, with the invariant kept; who is refused, and what is left then, is `TempQueueRuns.TakenIff` |
| `TempQueueRunner.Bridge.GetQstrHash` | bridge/tempq.c:532-561 | the destination's queue, made if there is none |
| `TempQueueRunner.Bridge.RemoveMsg` | bridge/tempq.c:65-76 | list, both counters and the freeing of an empty queue |
| `TempQueueRunner.Bridge.HandleHead` | bridge/tempq.c:309-434 | one visit of a queue's head: what becomes of the message is `TempQueueRuns.FateIff`, when it is left alone `TempQueueRuns.IdleVisitIff`, its new wait `TempQueueRuns.BackoffClosedForm`; and how the sleep shortens |
| `TempQueueRunner.Bridge.VisitHead` | bridge/tempq.c:306-447 | with anything added while the lock is free, every other queue stays alive and the saved next message is the head afterwards |
| `TempQueueRunner.Bridge.ProcessQueue` | bridge/tempq.c:301-449 | the inner loop ends, follows only live pointers, goes on past the wait of a message exactly when the one before it has just left, and stops at the first one that has to wait |
| `TempQueueRunner.Bridge.Pass` | bridge/tempq.c:296-449 | the outer loop ends and follows only live pointers; with nobody else acting, the sleep is the least time that any surviving head still has to wait, by the clock when it was looked at |
| `TempQueueRunner.Bridge.RunQ` | bridge/tempq.c:270-525 | after the check a total above the limit means stopped and below it running, stopped exactly while the runner holds the global lock; waiting messages always have a job coming; the sleep is that least time, or qminsleep when the pass left nothing waiting |
| `TempQueueRunner.Bridge.Deliver` | bridge/queue.c:97-126 | a call is queued only if its service's queue is full; an unknown service, a broken queue and a refused message are failures |
| `TempQueueRunner.BridgeHistory` | bridge/tempq.c:270-525 | a bridge at any moment at which its lock is free has exact counters, conserves order, and respects the retry bound |
| `TempQueueConfig.Settle` | bridge/bridgesvc.c:459-554 | exactly which settings are refused, what each default comes to, and that all others meet what the queues need |
| `Stopwatch.ExactShift` | libnstd/nstopwatch.c:248-297 | adding or taking milliseconds of either sign moves a stamp by exactly that many nanoseconds |
| `Stopwatch.MillisRoundsDown` | libnstd/nstopwatch.c:203-210 | the millisecond form of a stamp is the whole stamp rounded down, also for a full second of nanoseconds |
| `Stopwatch.AgeIsClose` | libnstd/nstopwatch.c:217-229 | the reported age is less than a millisecond away from the true difference, below it when the nanoseconds have grown and above it when they have fallen |
| `ClockSync.BridgeClock.SendClock` | bridge/clock.c:243-290 | a request gets the next number and is remembered; a response echoes the request |
| `ClockSync.BridgeClock.CalcClockDiff` | bridge/clock.c:148-234 | a request is answered; a response is taken only if it answers the last request in time; an unasked message always |
| `ClockSync.BridgeClock.ClockAdj` | bridge/clock.c:296-318 | a call's stamp is moved by the correction, back on the way out and forward on the way in |
| `ClockSync.StepKeepsInv` | bridge/clock.c:148-290 | whatever the network delivers and whoever is restarted, a message that repeats the number and second of a node's last request was stamped after that request was made |
| `ClockSync.IgnoredIff` | bridge/clock.c:173-234 | a request, and a response with another node's name, another number or another second than the last request, or after the allowed time, changes nothing; every other message sets the difference |
| `ClockSync.AnswerTakenIff` | bridge/clock.c:148-290 | from every state: a request, its delivery, and the delivery of its answer, with anything in between but a new request or a restart of the asking node, lead to a correction from that answer if and only if it is back in time, and the correction is the difference of the two clocks at the two ends of the answer's way |
| `ClockSync.RoundtripIsClose` | bridge/clock.c:185 | the round trip kept with a correction is the time since the request, to the millisecond |
| `ClockSync.CorrectionBound` | bridge/clock.c:180-207 | over every run, with restarts and a network that loses, delays and repeats, a correction from a response is less than a millisecond below the true offset and less than the allowed round trip plus a millisecond above it |
| `ClockSync.NotBelowIff` | bridge/clock.c:180-207 | an accepted message leaves a correction that is not below the true offset if and only if it was under way for at least the difference of the two stamps' sub-millisecond parts |
| `ClockSync.StampsTellIff` | bridge/clock.c:180-207 | for two given stamps the correction is not below the offset in every case they can stem from, if and only if the sender's sub-millisecond part is not below the receiver's |
| `ClockSync.AgeAcross` | bridge/queue.c:294-302 | a call's age on the far node is its true age plus exactly the correction's error, with the bounds that follow |
| `ClockSync.OutAndIn` | bridge/clock.c:296-318 | corrected out and in again by the same clock, a stamp is unchanged |
| `ClockSync.BoundsAreReached` | bridge/clock.c:180-207 | for every allowed round trip there are exchanges that reach both ends of the bound |
| `ClockSync.AsyncIsUnbounded` | bridge/clock.c:173-176 | for every bound there is a run in which an unasked message gives a larger error |
| `ClockSync.QuickRestartMisleads` | bridge/clock.c:187-192 | for every allowed round trip below 899 milliseconds, a run with a restart within one second after which a correction from a response misses the bound |
| `ClientRuns.FirstWithPidIff` | cpmsrv/cltconfig.c:140-155 | a client is the one found for a pid if and only if it has that pid and nobody before it in the order does |
| `ClientRuns.ExitsMarkFirst` | cpmsrv/cltexec.c:87-116 | over any list of reported exits, a client stops if and only if it is the first one recorded with the pid of one of them; nothing else of it changes but the exit status |
| `ClientRuns.LastExitStatus` | cpmsrv/cltexec.c:87-116 | the last exit put down to a client gives it its status |
| `ClientRuns.KillIff` | cpmsrv/cltexec.c:431-547 | a started client is still recorded as started after a kill if and only if no exit of any stage is put down to it and it is not seen to have gone; then it got all three signals |
| `ClientRuns.StopIff` | cpmsrv/cpmsrv.c:504-571 | a stopped client is asked to stop, and is recorded as started if and only if it survives the kill |
| `ClientRuns.RestartIff` | cpmsrv/cpmsrv.c:582-612 | a restarted client is asked to run again if and only if, before the call, it was not started, or an exit reported meanwhile is put down to it, or it is not our child and has gone; a survivor is left asked to stop |
| `ClientRuns.TurnIff` | cpmsrv/cpmsrv.c:344-448 | at its turn a client gets an attempt if and only if it is asked to run, not started and not barred, is forked if and only if the attempt succeeds, is interrupted for its memory if and only if it is started and above a limit, and is killed for its group's lock if and only if it is barred and started when tested |
| `ClientRuns.StartOrCheckLeaves` | cpmsrv/cpmsrv.c:352-446 | what the first part of a turn leaves: a client above a memory limit is started if and only if it survives the kill; one to be started waits when barred, keeps its state but for the attempt when the fork fails, and is otherwise our running child |
| `ClientRuns.StartedAfterTurnIff` | cpmsrv/cpmsrv.c:352-448 | after a turn a client, the one whose turn it was or another, is recorded as started if and only if it was so after that part, no exit reported since is put down to it and, at its own turn and when not our child, its process is there |
| `ClientRuns.GoneStatus` | cpmsrv/cltexec.c:309-336 | a client that is not our child and has gone is recorded as stopped, with status 0 if it was asked to stop and -1 if not; nobody else changes |
| `ClientRuns.PassIff` | cpmsrv/cpmsrv.c:340-462 | the same for every client of a whole pass, whatever happens at the other clients' turns |
| `ClientRuns.PassIsSafe` | cpmsrv/cpmsrv.c:340-462 | whoever a pass starts is asked to run and not barred; whoever it kills for a lock is barred, so nobody is both |
| `ClientRuns.MarkedAfterAttempts` | cpmsrv/cpmsrv.c:452-462 | a group is marked as booted only after every client in it that was asked to run and not started when the pass began has got its attempt |
| `ClientRuns.PassMarks` | cpmsrv/cpmsrv.c:452-462 | a pass marks exactly the groups that are held and were not marked |
| `ClientHistory.ReloadIff` | cpmsrv/cltconfig.c:947-1033 | who is there after a reload and with which settings: exactly the configured clients and those that are doing something, or everybody if the configuration was incomplete; nobody's runtime state changes |
| `ClientHistory.StartAllIff` | cpmsrv/cltconfig.c:162-179 | exactly the clients configured to start are asked to run |
| `ClientHistory.AttachIff` | cpmsrv/cpmshm.c:71-95 | exactly the clients found in shared memory become started, with the pid found and as not our children; nobody's request changes |
| `ClientHistory.DoKeepsRequest` | cpmsrv/cpmsrv.c:504-682 | every operation moves a client's request as it moves the latest effective request |
| `ClientHistory.RequestIsLatest` | cpmsrv/cpmsrv.c:504-682 | after every history of commands, passes, exits and reloads, a client is asked to run if and only if its latest effective request, defined over the operations, was to run |
| `ClientHistory.ForkedOnlyIfWanted` | cpmsrv/cpmsrv.c:348-372 | in every history a client is forked only in a pass, only if its latest effective request before it was to run, and only if its group is held or not a singleton |
| `ClientHistory.BusyClientsStay` | cpmsrv/cltconfig.c:1009-1024 | in every history no reload drops or alters a client that is doing anything |
| `ClientHistory.RestartCanBeLost` | cpmsrv/cpmsrv.c:582-612 | a history that starts a client, restarts it, and ends with it running and asked to stop |
| `ClientMonitor.Monitor.GetClientByPid` | cpmsrv/cltconfig.c:140-155 | the first client in the order with the pid, or that there is none |
| `ClientMonitor.Monitor.HandleChild` | cpmsrv/cltexec.c:87-116 | exactly that client becomes not running, with the reported status |
| `ClientMonitor.Monitor.PidTest` | cpmsrv/cltexec.c:289-336 | a started client of a lost group is killed; one that is not our child and has gone is noticed |
| `ClientMonitor.Monitor.KillClient` | cpmsrv/cltexec.c:431-547 | the three stages with their signals, as `ClientRuns.KillIff` describes them |
| `ClientMonitor.Monitor.ExecClient` | cpmsrv/cltexec.c:554-762 | the parent side of a start: an attempt is recorded, and the client is started if and only if the fork succeeded |
| `ClientMonitor.Monitor.StartOrCheckClient` | cpmsrv/cpmsrv.c:352-446 | each case of a turn: started, put to wait for its group's lock, killed for its memory, or left alone |
| `ClientMonitor.Monitor.TimerPass` | cpmsrv/cpmsrv.c:340-462 | the loop over all clients and the marking of groups is the pass of `ClientRuns.PassIff`, and becomes part of the history |
| `ClientMonitor.Monitor.ReportExit` | cpmsrv/cltexec.c:87-116 | an exit reported between operations is put down as `ClientRuns.ExitsMarkFirst` says, and becomes part of the history |
| `ClientMonitor.Monitor.StopClient` | cpmsrv/cpmsrv.c:504-571 | the stop of `ClientRuns.StopIff`; a missing client is reported |
| `ClientMonitor.Monitor.BootClient` | cpmsrv/cpmsrv.c:622-682 | the client is asked to run, unless it is still recorded as started, when nothing changes; a missing client is reported |
| `ClientMonitor.Monitor.RestartClient` | cpmsrv/cpmsrv.c:582-612 | the restart of `ClientRuns.RestartIff`, and whether the client was asked to run |
| `ClientMonitor.Monitor.StartAllClients` | cpmsrv/cltconfig.c:162-179 | the loop is the start of `ClientHistory.StartAllIff` |
| `ClientMonitor.Monitor.SyncFromShm` | cpmsrv/cpmshm.c:71-95 | the clients found running in shared memory are recorded as started, with their pid, and as not our children |
| `ClientMonitor.Monitor.RefreshClient` | cpmsrv/cltconfig.c:703-747 | a new entry is added idle; a known one gets new settings and keeps its runtime state |
| `ClientMonitor.Monitor.SweepClients` | cpmsrv/cltconfig.c:1008-1024 | the walk that removes entries as it goes keeps exactly the clients that are configured or doing something, in their order |
| `ClientMonitor.Monitor.LoadConfig` | cpmsrv/cltconfig.c:947-1033 | the reload of `ClientHistory.ReloadIff` |
| `ClientMonitor.ForksWereWanted` | cpmsrv/cpmsrv.c:348-372 | every fork in a monitor's log was made by a pass of its history before which the client was wanted |

## Left out

- Sockets, message queues, thread pool internals, typed buffers and the transport of lock queries: their results are parameters.
- The services that answer lock queries (exsinglesv/local.c, exsinglesv/remote.c): any answer is allowed.
- The node and server number checks beside the pid check when a lock is refreshed (libnstd/singlegrp.c:199-219): a pid names one process in the model.
- A crash while file 2 is first created, and failures of its creation other than in the two record writes.
- 64-bit overflow of the sequence in the cluster; the record and the highest-sequence search are modelled with 64-bit words.
- Clock steps and drift, and the sub-millisecond rounding of the provider's timer.
- The boot scripts' contents, the lock-loss test hook, logging, and the check that the two lock files are named and distinct.
- The reordering of rows when a state table is compiled, and its check that every next state exists (libnstd/exsm.c:264-373): the table's rows are taken by state number.
- ClusterSafety.OwnerNeverFencesItself: for the check without remote queries only, because a remote answer may say anything.
- Allocation failures when a message is queued, error replies to the network, and the temporary queue's time-stamp arithmetic below a millisecond.
- Wrap-around of the clock request number.
- Delivery of an exit report between the two assignments that record a new child's pid and state (cpmsrv/cltexec.c:738-739).
- Whether two processes of one client can be alive at once: a stopped child is reported like one that exited.
- Parsing of the client configuration, wildcard commands, environment handling, and everything in the child after the fork.
- Killing all clients at shutdown.
