# Maestro verification

A Dafny model of the parts of this messaging performance tool whose behaviour is hardest to see by
reading: the Maestro note codec, the worker manager with its two threads and its snapshot queue, the
lifecycle of the test daemons in a cluster, the pacing and sampling loops of the workers, the windowed
settlement of the Proton receiver, and the registry of messaging callbacks.

`dafny verify dfyconfig.toml` checks the whole project.

| file | what it models |
|---|---|
| `MsgPack.dfy` | the int, float and str format families of the MessagePack specification, packed and unpacked |
| `Notes.dfy` | notes, their wire format and the encoders |
| `Decoding.dfy` | what the decoder makes of every byte string; round trip; torn notes |
| `Decoder.dfy` | the decoder as it runs, with its offset and status |
| `NoteMemory.dfy` | the decoder's stores, byte by byte, into the C structures |
| `Sheet.dfy` | dispatch to instruments, and the player's replies |
| `Cluster.dfy` | daemons, their two threads, and the notes they exchange |
| `WorkerManager.dfy` | clone, watchdog, stop and abort, one critical section at a time |
| `Interleaving.dfy` | the worker manager under every interleaving of its two threads |
| `SnapshotQueue.dfy` | the shared queue of snapshots and its draining |
| `Workers.dfy` | the four send and receive loops |
| `Proton.dfy` | windowed settlement |
| `Handlers.dfy` | the add-or-replace registry of callbacks |

State that the program changes in place is a class, and a loop is a loop: each such method is proved
against a function on values, and the theorems are about those functions. What happens under
concurrency is a state machine, `Apply(state, step)`, where a step that cannot be taken changes
nothing; the theorems are about the state after an arbitrary sequence of steps.

## What is assumed

- Allocation and `fork` succeed, and no two children of one run share a process id.
- The list library appends at the end and unlinks one node.
- Timestamps are whole microseconds; differences in milliseconds and seconds round down.
- The clock is monotone, and `usleep` returns early only on a handled signal, which ends the loop.
- Setting a topic and sending is one atomic step, and so is incrementing the error counter.
- MessagePack stops a failed read behind the header bytes it has consumed, as msgpack-c does.
- The memory layout is little-endian with 64-bit pointers.
- A queue holds a fixed number of snapshots.
- Handlers are total: `Sheet` lets an instrument answer every decoded note. For the handlers that the
  daemons register this holds only of notes with the payload they read, see `Cluster.PayloadFound`.
- Once all listed children have been collected, nothing more is written to the queue before a stop ends.
  That a collected child writes no more is a fact; that no child outside the list does, an orphan or one
  dropped after a failed call, which would share the queue (`src/worker/worker_utils.c:61-74`), is assumed.

The outside world (arrivals, send results, child states, clock readings, what the workers write between
two reads) comes in as parameters, and the theorems hold for all of them.

## What turned out not to hold

These are stated exactly, with the condition under which the expected property does hold.

- A proper prefix of a ping or stats response can be accepted by the decoder, because the verdict on the
  body replaces the one on the header (`src/orchestration/maestro/maestro_deserialize.c:400-411`):
  `Decoding.TornNote` says when for all notes, `Decoding.TornPing` and `Decoding.TornStats` by where the
  cut falls, `Decoding.TornPingAccepted` and `Decoding.TornStatsAccepted` give prefixes, and
  `Decoding.TornPingExample` one in bytes. None is ever answered, since the failed header leaves its error
  in the status: `Sheet.TornNeverAnswered`.
- A note loses what its encoding leaves out, in particular all but the low byte of the kind of
  statistics: `Decoding.RoundTripExactly`, with an input in `Decoding.StatKindLost`.
- A command in an empty request overwrites the payload pointer if any of its bytes after the fourth is
  not zero: `NoteMemory.DecodeInto`, with an input in `NoteMemory.SpillExample`.
- `doc/maestro/protocol/README.md:260-262` says that a protocol error is issued for malformed notes. The
  sheet writes that reply, but the player drops it (`src/orchestration/maestro/maestro_player.c:82-85`).
  The model follows the code: `Sheet.HandleNote`.
- A child registered after a stop pass and before the list is destroyed becomes an orphan:
  `Interleaving.OrphanedExactlyWhen`, `Interleaving.OrphanExample`.
- A failed queue read is taken for data and repeats the last record: `SnapshotQueue.ReadErrorRepeats`.
- A handler that lacks a function it asks for leaves the list locked, exactly when the pass has a child
  whose state is unchanged: `WorkerManager.MisconfiguredExactly`, `WorkerManager.Manager.Watchdog`; for
  the whole loop it is the first pass that decides: `WorkerManager.FlawShowsAtOnce`.
- Messages that cannot be decoded or carry no creation time escape the settlement window:
  `Proton.UntimedEscapesWindow`.
- A start answered with OK need not begin an execution. `Cluster.StartActedUpon` says exactly when it
  does, over every run; `Cluster.LateStartLost` says that a start accepted during an execution never does,
  with the moment before the flag is cleared as the witness, `Cluster.LateStartForgotten`, which the run
  of `Cluster.LateStartExample` reaches.
- A note that is decoded without error can reach a handler without the payload that the handler reads,
  exactly when its type is unknown or it is a failure sent as a request: `Cluster.PayloadFound`, with an
  input in `Cluster.PayloadMissing`. What the program then does is undefined and not modelled.

## Model

| member | source | states |
|---|---|---|
| `MsgPack.UnpackPack` | src/orchestration/maestro/maestro_serialize.c:19-24 | whatever follows it, a packed integer, string or double is read back whole, using exactly its bytes |
| `MsgPack.UnpackTorn` | src/orchestration/maestro/maestro_deserialize.c:500-507 | no proper prefix of a packed object is read as an object, and where the offset is left |
| `MsgPack.PackFormats` | src/orchestration/maestro/maestro_serialize.c:19-24 | every form of integers, strings and doubles byte by byte, as the specification gives them |
| `MsgPack.PackSmallest` | src/orchestration/maestro/maestro_serialize.c:19-24 | no encoding of the same object is shorter |
| `Notes.Packer.Put` | src/orchestration/maestro/maestro_serialize.c:19-24 | the buffer stays the packing of the objects put so far |
| `Notes.Packer.PutHeading` | src/orchestration/maestro/maestro_serialize.c:37-45 | appends type and command |
| `Notes.Packer.PutHeader` | src/orchestration/maestro/maestro_serialize.c:27-35 | appends id and name |
| `Notes.SerialiseEmpty` | src/orchestration/maestro/maestro_serialize.c:37-59 | produces the wire format of requests without payload and of header-only responses |
| `Notes.SerialiseSetRequest` | src/orchestration/maestro/maestro_serialize.c:62-90 | produces the wire format of set requests; fails exactly when the payload is missing |
| `Notes.SerialisePingRequest` | src/orchestration/maestro/maestro_serialize.c:92-117 | the same for ping requests |
| `Notes.SerialisePingResponse` | src/orchestration/maestro/maestro_serialize.c:121-140 | produces the wire format of ping responses |
| `Notes.SerialiseStatsResponse` | src/orchestration/maestro/maestro_serialize.c:142-174 | produces the wire format of stats responses, with the kind of statistics cut to one byte |
| `Notes.SerialiseNotification` | src/orchestration/maestro/maestro_serialize.c:176-197 | produces the wire format of notifications |
| `Notes.SerialiseNote` | src/orchestration/maestro/maestro_serialize.c:199-276 | succeeds exactly when the payload of the type and command is there, and then yields the serialisation |
| `Notes.WireForms` | src/orchestration/maestro/maestro_serialize.c:19-276 | the six shapes field by field, with the numbers of the protocol |
| `Notes.CommandNumbers` | src/orchestration/maestro/maestro_note.h:45-68 | the numbers of the commands |
| `Decoding.RoundTrip` | src/orchestration/maestro/maestro_deserialize.c:489-562 | for every well-formed note and every continuation, decoding gives the note back, without error, and consumes exactly its bytes |
| `Decoding.RoundTripExactly` | src/orchestration/maestro/maestro_serialize.c:142-276 | for every note that can be encoded, decoding gives its canonical form, which is the note itself if and only if it is well formed |
| `Decoding.StatKindLost` | src/orchestration/maestro/maestro_serialize.c:142-174 | a stats response of kind 256 decodes to one of kind 0 |
| `Decoding.UniquelyDecodable` | src/orchestration/maestro/maestro_serialize.c:254-276 | two streams that begin with well-formed notes and are equal begin with the same note and continue equally: injective and prefix-free |
| `Decoding.TornNote` | src/orchestration/maestro/maestro_deserialize.c:390-418 | a proper prefix of any note leaves an error in the status, and is accepted if and only if it is a ping or stats response cut in its header whose remaining bytes hold a body |
| `Decoding.TornRejected` | src/orchestration/maestro/maestro_deserialize.c:449-562 | every proper prefix of a request, a notification or a header-only response is rejected |
| `Decoding.TornPing` | src/orchestration/maestro/maestro_deserialize.c:144-252 | a torn ping response, with id and name of any length that begin in ASCII, is accepted if and only if the cut is inside the text of one of them, or inside the length of one whose first length byte reads as an object |
| `Decoding.TornStats` | src/orchestration/maestro/maestro_deserialize.c:256-411 | a torn stats response with ASCII id and name of any length is accepted if and only if the cut leaves eight bytes or more of the text it falls into |
| `Decoding.TornStatsAccepted` | src/orchestration/maestro/maestro_deserialize.c:400-411 | every such response with an id of nine bytes or more has an accepted prefix |
| `Decoding.TornPingAccepted` | src/orchestration/maestro/maestro_deserialize.c:400-411 | every such ping response with an id of two bytes or more has an accepted prefix |
| `Decoding.TornPingExample` | src/orchestration/maestro/maestro_deserialize.c:400-411 | a concrete accepted prefix of four bytes |
| `Decoding.CommandStored` | src/orchestration/maestro/maestro_deserialize.c:515-531 | after both eight-byte stores the command field holds the command |
| `Decoding.HeadingDecides` | src/orchestration/maestro/maestro_deserialize.c:499-551 | a type that is no natural number and a missing or foreign command are rejected; an unknown type is accepted without payload |
| `Decoding.OddCommands` | src/orchestration/maestro/maestro_deserialize.c:23-47 | what booleans and short texts leave in the command field |
| `Decoder.NoteDecoder.Next` | src/orchestration/maestro/maestro_deserialize.c:20-55 | one unpack and assignment is reading one object, on every input |
| `Decoder.NoteDecoder.DecodeTwo` | src/orchestration/maestro/maestro_deserialize.c:58-142 | set and ping requests read two objects, stopping at the first failure |
| `Decoder.NoteDecoder.DecodeHeader` | src/orchestration/maestro/maestro_deserialize.c:144-230 | the header reads two objects |
| `Decoder.NoteDecoder.DecodePingResponse` | src/orchestration/maestro/maestro_deserialize.c:232-252 | the body of a ping response reads one object |
| `Decoder.NoteDecoder.DecodeStatsResponse` | src/orchestration/maestro/maestro_deserialize.c:256-388 | the body of a stats response reads eight objects |
| `Decoder.NoteDecoder.DecodeResponse` | src/orchestration/maestro/maestro_deserialize.c:390-418 | the verdict on the body replaces that on the header; the status keeps both |
| `Decoder.NoteDecoder.DecodeRequest` | src/orchestration/maestro/maestro_deserialize.c:420-446 | refines the payload part of `Decode` for requests |
| `Decoder.NoteDecoder.DecodeNotification` | src/orchestration/maestro/maestro_deserialize.c:449-485 | refines it for notifications |
| `Decoder.NoteDecoder.DecodeNote` | src/orchestration/maestro/maestro_deserialize.c:489-562 | on every input, verdict, status, offset and stored fields are those of `Decode` |
| `NoteMemory.Store` | src/orchestration/maestro/maestro_deserialize.c:28-34 | a store of any width overwrites exactly its bytes |
| `NoteMemory.HeadingStored` | src/orchestration/maestro/maestro_deserialize.c:515-531 | after the overlapping stores of type and command both are right, and the pointer behind them is null if and only if the command does not spill |
| `NoteMemory.Memory.StoreFields` | src/orchestration/maestro/maestro_deserialize.c:256-388 | storing the fields in order, eight bytes each, leaves every field holding its own object |
| `NoteMemory.Memory.FieldsHoldPayload` | src/orchestration/maestro/maestro_note.h:93-156 | those fields, read with the width of their types, are the payload of the typed decoding |
| `NoteMemory.DecodeInto` | src/orchestration/maestro/maestro_deserialize.c:489-562 | from a zeroed note, memory represents the typed note if and only if there is a payload or the command does not spill into the pointer |
| `NoteMemory.SpillExample` | src/orchestration/maestro/maestro_deserialize.c:527-531 | an accepted input whose command spills into the pointer |
| `NoteMemory.SerialisedFits` | src/orchestration/maestro/maestro_deserialize.c:515-531 | for every serialised note, whatever follows, that condition holds |
| `Sheet.DoPlay` | src/orchestration/maestro/maestro_sheet.c:56-84 | plays the earliest instrument that matches, if and only if one does |
| `Sheet.Play` | src/orchestration/maestro/maestro_sheet.c:86-128 | for every input, a reply is written if and only if decoding fails or an instrument matches, and it decodes to a response in the player's name |
| `Sheet.HandleNote` | src/orchestration/maestro/maestro_player.c:75-97 | publishes on one topic only, if and only if the note was decoded without error and an instrument matches; what it publishes decodes to the answer of the earliest match in the player's name |
| `Sheet.TornNeverAnswered` | src/orchestration/maestro/maestro_player.c:82-85 | no proper prefix of any note is answered, not even one the decoder accepts |
| `Handlers.RegistrationsSummarised` | src/common/vmslh.c:29-64 | after any registrations the list has each callback once, in order of first registration, with its last payload |
| `Handlers.OverridesInPlace` | src/api/qpid-proton/proton-handlers.c:78-107 | later registrations never move or remove earlier callbacks |
| `Handlers.HandlerList.ByAddr` | src/common/vmslh.c:29-50 | finds the wrapper of a callback, or appends a new one |
| `Handlers.HandlerList.Add` | src/common/vmslh.c:54-64 | replaces the payload in place or appends |
| `Handlers.HandlerList.Run` | src/common/vmslh.c:66-80 | calls every entry once, in order |
| `Handlers.RegisterAndRun` | src/common/vmslh.c:29-80 | registering any sequence and running the linked list calls exactly its summary |
| `Proton.CurCountsUnsettled` | src/api/qpid-proton/proton-wrapper.c:293-386 | over any run, `cur` counts the unsettled messages if and only if every message fetched since the last settlement was obtained and timed; then at most nine are unsettled, none when the buffer is empty |
| `Proton.SettlementsFitWindow` | src/api/qpid-proton/proton-wrapper.c:352-378 | when all messages are obtained and timed, every settlement covers one to ten |
| `Proton.SettlementsFull` | src/api/qpid-proton/proton-wrapper.c:352-378 | nor is one made early: it covers exactly ten, or empties the local buffer |
| `Proton.UntimedEscapesWindow` | src/api/qpid-proton/proton-wrapper.c:332-343 | for any k there is a run whose settlement covers k + 1 messages |
| `Proton.Receiver.ReceiveOne` | src/api/qpid-proton/proton-wrapper.c:293-386 | one receive refines a step of the window, with its result in every case; with all messages counted, it settles if and only if its message is the tenth unsettled or the last in the buffer |
| `Proton.Receiver.FinalizeReceive` | src/api/qpid-proton/proton-handlers.c:340-349 | settles cumulatively everything fetched |
| `Workers.RateSender` | src/worker/rate_sender.c:50-97 | for any rate and trace: after k sends the ETA is k intervals from the start, send k + 1 begins at most 999 microseconds early, the sleep never wraps, samples tile time and account for every send; the run ends exactly where a turn is interrupted, a send fails or the test no longer lasts, and a smooth count-bounded run sends exactly its target |
| `Workers.NeverSlower` | src/worker/rate_sender.c:55-58 | the schedule is never slower than the requested rate |
| `Workers.HardlyFaster` | src/worker/rate_sender.c:55-58 | nor faster, but for less than a microsecond per send |
| `Workers.IntervalExact` | src/worker/rate_sender.c:55-58 | the interval is the whole part of a million microseconds divided by the rate |
| `Workers.SleepReachesEta` | src/worker/rate_sender.c:89-92 | the 32-bit sleep argument equals the truncated distance and ends at most 999 microseconds before the ETA |
| `Workers.NaiveSender` | src/worker/naive_sender.c:50-107 | send times follow the trace with a wait after every burst, samples tile time, none is missed unless its report fails; the run ends exactly where a turn is interrupted, a send or a report fails or the test no longer lasts, and a smooth count-bounded run sends exactly its target |
| `Workers.Pause` | src/worker/naive_sender.c:99-106 | waits to the next second exactly at the end of a burst |
| `Workers.WaitExact` | src/worker/naive_sender.c:99-106 | a wait ends at the very beginning of the next second, and follows every burst and nothing else |
| `Workers.ThrottleHolds` | src/worker/naive_sender.c:61-107 | in every wall-clock second of any run at most `throttle` sends complete |
| `Workers.CountInIs` | src/worker/naive_sender.c:74-75 | the sends counted in a second are those whose time falls into it |
| `Workers.LastsMeans` | src/worker/worker_utils.c:31-47 | a test lasts until its count is reached or the second of its end has passed |
| `Workers.TakeSample` | src/worker/naive_sender.c:77-97 | takes a sample if and only if one is due; samples go on tiling time and accounting for the count, and every message is sampled or recent |
| `Workers.CountMessage` | src/worker/rate_receiver.c:92-104 | the same for a message received, which is counted |
| `Workers.NaiveReceiver` | src/worker/naive_receiver.c:58-111 | counts exactly the messages taken; samples tile time, each of at least ten seconds, and miss none unless a report fails; the run ends exactly where a poll is interrupted, receiving or a report fails or the test no longer lasts, and polls without message or timestamp do not end it |
| `Workers.RateReceiver` | src/worker/rate_receiver.c:62-109 | the same with one-second samples and no reports, and the ETA is one interval per message |
| `Workers.EtaExact` | src/worker/rate_receiver.c:67-70 | the receiver's ETA keeps to the requested rate, to less than a microsecond per message |
| `Workers.UndisturbedReceiver` | src/worker/naive_receiver.c:63-111 | a receiver of a number of messages that nothing disturbs takes every poll or meets its target |
| `SnapshotQueue.HandedInOrder` | src/worker/worker_manager.c:91-122 | under any interleaving of writes and drains, what the report writer got is the prefix of the accepted snapshots that was read, in order and without repeats, if and only if no read failed |
| `SnapshotQueue.ReadErrorRepeats` | src/worker/ipc/worker_queue_stat.h:37-39 | a failed read hands out the previous record again |
| `SnapshotQueue.TakeMeans` | src/worker/ipc/worker_vqueue.c:71-105 | a read moves the oldest snapshot into the buffer of its entry and no other, and changes nothing without data or on error |
| `SnapshotQueue.SharedQueue.WriteOne` | src/worker/ipc/worker_vqueue.c:54-69 | accepts a snapshot at the end of the queue if and only if there is room |
| `SnapshotQueue.SharedQueue.ReadInto` | src/worker/ipc/worker_vqueue.c:71-105 | takes the oldest snapshot into the buffer of the entry, or reports no data or an error and leaves both |
| `SnapshotQueue.SharedQueue.Drain` | src/worker/worker_manager.c:91-122 | ends with an empty queue while the workers write on, having handed over everything accepted if no read failed |
| `WorkerManager.WatchPartitions` | src/worker/worker_manager.c:124-202 | a pass neither loses nor duplicates an entry |
| `WorkerManager.BadSeen` | src/worker/worker_manager.c:167-187 | a pass counts an error if and only if it saw a child killed or stopped by a signal other than SIGINT |
| `WorkerManager.SignalsSent` | src/worker/worker_manager.c:234-296 | the signal goes to exactly the children it can be delivered to, SIGKILL to exactly those of them whose ten polls all showed no change |
| `WorkerManager.Manager.Init` | src/worker/worker_list.c:57-64 | makes an empty list unless there is one |
| `WorkerManager.Manager.Append` | src/worker/worker_list.c:74-93 | appends at the end if and only if there is a list |
| `WorkerManager.Manager.Clean` | src/worker/worker_list.c:25-72 | destroys every entry in order, and the list |
| `WorkerManager.Manager.Remove` | src/worker/worker_list.c:106-118 | unlinks and destroys one entry, keeping the others in order |
| `WorkerManager.Manager.Clone` | src/worker/worker_manager.c:20-89 | resets the counter and registers every child; on failure all children forked are listed but for the last, which is killed |
| `WorkerManager.Manager.Watchdog` | src/worker/worker_manager.c:124-202 | one pass refines `Watch`; the lock is held afterwards if and only if the handler lacks a function it asks for and some listed child is unchanged |
| `WorkerManager.MisconfiguredExactly` | src/worker/worker_manager.c:141-156 | a pass ends in a misconfiguration if and only if the handler lacks a function it asks for and some listed child is unchanged |
| `WorkerManager.FlawShowsAtOnce` | src/worker/worker_manager.c:204-227 | over any number of passes, a flawed handler shows in the first one or never |
| `WorkerManager.WatchAll` | src/worker/worker_manager.c:211-222 | over any number of passes the children kept and removed are those of the list |
| `WorkerManager.Manager.WatchdogLoop` | src/worker/worker_manager.c:204-227 | for every handler, repeats passes until the list is empty or a pass fails, fails if and only if one did or errors were counted, and leaves the lock held if and only if the handler is flawed and the first pass meets an unchanged child |
| `WorkerManager.Manager.PollStopping` | src/worker/worker_manager.c:246-290 | at most ten polls, all but the last without change; SIGKILL if and only if all ten showed none |
| `WorkerManager.Manager.DoStop` | src/worker/worker_manager.c:229-309 | at most ten polls per child, the signals of `StopSignals`, no list left, every entry destroyed; the queue is empty if the list was not, every signal was delivered and every child collected |
| `WorkerManager.Manager.Stop` | src/worker/worker_manager.c:312-315 | stops with SIGINT and counts no error, with the poll bound and the empty queue of `DoStop` |
| `WorkerManager.Manager.Abort` | src/worker/worker_manager.c:318-321 | stops with SIGTERM and counts one error, with the poll bound and the empty queue of `DoStop` |
| `Interleaving.DestroyedOnce` | src/worker/worker_list.c:25-118 | in every reachable state a registered entry is in the list or destroyed, exactly one of them and once |
| `Interleaving.WalksLiveEntries` | src/worker/worker_manager.c:124-309 | no traversal by either thread meets a destroyed entry |
| `Interleaving.CleanDestroysAll` | src/worker/worker_list.c:66-72 | whoever cleans, every entry registered is destroyed exactly once afterwards |
| `Interleaving.FateExact` | src/worker/worker_manager.c:51-309 | in any run a child is recorded as forked, registered, late, dead, signalled, stopped or lost if and only if a step brought that about: a fork, an append, a poll with that result, a delivered or failed signal, or a death |
| `Interleaving.LeavesExactly` | src/worker/worker_manager.c:138-196 | in any run a child leaves the list if and only if a pass finds it changed or the list is destroyed |
| `Interleaving.MainLeads` | src/applications/mpt-daemons/receiver/receiverd_worker.c:266-317 | the order of the main thread: what it does next, and when a clone fails |
| `Interleaving.ThreadsGoOn` | src/worker/worker_manager.c:204-309 | no step of the main thread is ever disabled in its turn, for any handler that is well formed and any polls |
| `Interleaving.PlayerGoesOn` | src/worker/worker_manager.c:229-321 | nor one of the player thread |
| `Interleaving.StopsBeforeRest` | src/applications/mpt-daemons/receiver/receiverd_worker.c:298-317 | in any run the main thread, once it has cloned, does not come to rest without a stop pass |
| `Interleaving.LoopEndsWhen` | src/worker/worker_manager.c:211-222 | the loop ends if and only if there is no list, it was empty when counted, or an evaluation refuses |
| `Interleaving.AbortsCountedFirst` | src/worker/worker_manager.c:318-321 | in any run, an abort that is asked for is counted before its stop pass |
| `Interleaving.CountsAreAborts` | src/worker/worker_manager.c:312-321 | and every abort counted was asked for, and not counted before |
| `Interleaving.NoOrphans` | src/worker/worker_manager.c:51-86 | unless a child was registered between a stop pass and its clean, every forked child is listed, dead, signalled, reported stopped or dropped because of a failed call |
| `Interleaving.OrphanedExactlyWhen` | src/worker/worker_manager.c:306-307 | a child becomes an orphan exactly when the player thread destroys a list holding it although it was registered after that thread's pass |
| `Interleaving.LateChildOrphaned` | src/worker/worker_manager.c:78-86 | in every such state the next child registered becomes an orphan |
| `Interleaving.OrphanExample` | src/worker/worker_manager.c:306-307 | such a state is reachable |
| `Interleaving.CountsMean` | src/worker/worker_manager.c:124-227 | the counters are non-zero exactly when the events they count occurred since the last reset |
| `Interleaving.VerdictExact` | src/worker/worker_manager.c:204-227 | under every interleaving the loop fails if and only if, since the clone, an evaluation refused, a pass saw an abnormal end or an abort was counted |
| `Interleaving.CounterExact` | src/worker/worker_manager.c:51-52 | the 32-bit counter never wraps: between resets it counts at most the 65535 children a clone can fork and two aborts |
| `Cluster.Process.HandleStart` | src/applications/mpt-daemons/receiver/receiverd_worker.c:34-49 | run alone, sets the flags and replies as the stages of the start handler do |
| `Cluster.Process.HandleStop` | src/applications/mpt-daemons/receiver/receiverd_worker.c:51-93 | the same for stop and for a peer's failure |
| `Cluster.Process.HandleHalt` | src/applications/mpt-daemons/receiver/receiverd_worker.c:95-106 | the same for halt, which stops the workers too |
| `Cluster.HandledMeans` | src/applications/mpt-daemons/common/daemon_common.c:129-161 | for every command: flags, reply and what counts after its handler, run alone |
| `Cluster.Process.Execute` | src/applications/mpt-daemons/receiver/receiverd_worker.c:239-319 | one execution, with the notification it sends |
| `Cluster.Process.Iterate` | src/applications/mpt-daemons/receiver/receiverd_worker.c:340-370 | one iteration of the main loop is the stages of the main thread up to its next test |
| `Cluster.LaunchTurn` | src/applications/mpt-daemons/sender/senderd_worker.c:202-276 | what an execution amounts to: a notification exactly when log directory, list and clones are fine, and the list is left behind exactly when cloning failed or there was one before |
| `Cluster.ExecutionsBounded` | src/applications/mpt-daemons/sender/senderd_worker.c:278-336 | in any cluster run, notifications sent are at most executions begun, and these at most the starts answered with OK, not counting those that came during an execution |
| `Cluster.HaltEndsExecutions` | src/applications/mpt-daemons/receiver/receiverd_worker.c:340-370 | after a halt at most one further execution begins, and none unless the main thread had already passed its loop test |
| `Cluster.HaltThenOneMore` | src/applications/mpt-daemons/receiver/receiverd_worker.c:95-106 | that bound is met by a run from the start of a cluster |
| `Cluster.TurnActs` | src/applications/mpt-daemons/receiver/receiverd_worker.c:340-370 | a main thread left alone with the start flag up begins one more execution if and only if it has not passed its look at the flag, its loop goes on and the URL can be assigned |
| `Cluster.StartActedUpon` | src/applications/mpt-daemons/receiver/receiverd_worker.c:34-106 | in any run, at its next look at the flag the main thread begins an execution for a start answered with OK if and only if it was idle when that was accepted, no stop, failure or halt reached the daemon since, and the URL can be assigned |
| `Cluster.LateStartLost` | src/applications/mpt-daemons/receiver/receiverd_worker.c:343-366 | after a start accepted during an execution, executions begun never exceed the starts accepted later while the main thread was idle, in any run |
| `Cluster.LateStartForgotten` | src/applications/mpt-daemons/receiver/receiverd_worker.c:358-364 | the witness: a start answered with OK just before the flag is cleared leaves no trace |
| `Cluster.LateStartExample` | src/applications/mpt-daemons/receiver/receiverd_worker.c:358-364 | a run from the start of a cluster that ends idle after two starts answered with OK and one execution |
| `Cluster.PayloadFound` | src/applications/mpt-daemons/common/daemon_common.c:19-162 | a cleanly decoded note that reaches a handler reading its payload has the right payload if and only if its type is that of its command, and none if and only if its type is unknown or it is a failure sent as a request |
| `Cluster.PayloadMissing` | src/applications/mpt-daemons/common/daemon_common.c:25-27 | two bytes that reach the set handler without payload |
| `Cluster.RunLogged` | src/orchestration/maestro/maestro_notify.c:18-117 | the counters of a daemon are those of the notes it published |
| `Cluster.TopicsApart` | src/orchestration/maestro/maestro_topics.h:25-39 | no daemon subscribes to the topic of the replies |
| `Cluster.RepliesNotDelivered` | src/orchestration/maestro/maestro_player.c:87-90 | in any cluster run no reply is delivered to a daemon, so replies never trigger replies |
| `Cluster.WithdrawalsReceived` | src/applications/mpt-daemons/receiver/receiverd_worker.c:51-75 | in any state a stop, failure or halt that is delivered takes the start back |
| `Cluster.WorkersStopped` | src/applications/mpt-daemons/receiver/receiverd_worker.c:58-106 | and its next stage leaves no worker running, for a halt as well |
| `Cluster.HaltRecorded` | src/applications/mpt-daemons/receiver/receiverd_worker.c:101-102 | after which a halt is recorded |
| `Cluster.OneNoteAtATime` | src/orchestration/maestro/maestro_player.c:110-131 | a note is taken only by a player that is not handling another, from a topic it subscribed to |
| `Cluster.NoticesReachAll` | src/orchestration/maestro/maestro_topics.h:25-39 | in any run every notice can be delivered to every listening daemon |
| `Cluster.TopicsHeard` | src/orchestration/maestro/maestro_topics.h:25-39 | the topics of the two roles, by name |
| `Cluster.CascadesDieOut` | src/applications/mpt-daemons/receiver/receiverd_worker.c:72-93 | from any state on, however often failure notices are delivered, the cluster sends at most one notification per daemon beyond the starts it accepts |

## Left out

- Decoder.NoteDecoder.DecodeNote: arrays, maps, binary and extension objects, nil and 32-bit floats are one kind of foreign object of one byte, rejected wherever they occur, because the program rejects or never writes them; how far the offset moves over them is not modelled.
- Decoding.TornPing: an id or name that begins outside ASCII, because what its bytes read as is then as open as any input; the statement for all notes is `Decoding.TornNote`.
- Decoding.TornStats: an id or name that is not ASCII, for the same reason.
- Cluster.LateStartForgotten: one phase of the main thread only; all others are in `Cluster.LateStartLost`.
- NoteMemory.DecodeInto: covers notes accepted without error whose fields have the expected types, because a string or boolean stored into a field of another type has no typed note to compare with; a command sent as a string of twelve bytes or more, which writes past the end of the note; allocation gives fresh addresses.
- NoteMemory.Memory.StoreFields: one loop over the uniform eight-byte slots stands for the straight-line stores of each shape.
- Notes.SerialiseNote: payload shapes that the C union would reinterpret, and missing response or notification payloads, which the code dereferences unchecked.
- Sheet.Play: handlers that do not fill in the payload their reply command needs, because the encoder then reads an unset pointer.
- SnapshotQueue.SharedQueue.Drain: the writes that fall into one drain are finite in number; with workers that never pause a drain need not end.
- WorkerManager.Manager.WatchdogLoop: runs here without interference and for as many passes as are given; its interleaving with the player thread is in `Interleaving`.
- Cluster.Process.Iterate: runs here without interference; the stages that it consists of are interleaved in `Cluster.Run`.
- Cluster.ExecutionsBounded: the list of workers is one flag here, which an interleaved stop clears in one step; its entries are in `Interleaving`.
- Forked children returning through the daemon's main loop, log directories, symbolic links and the broker inspector daemon.
- The unlocked traversal behind the stats request, which reads the list without the mutex.
- Waiting times of polls and kills, and the capacity of the queue in bytes.
- The meaning of rates and latencies in floating point; only counts, times and bit patterns are modelled.
- The other Proton, Paho and STOMP calls, report writers, data dumps, command-line programs, option parsing and the set command's options: formatting and plumbing.
