# embedded-mongo, verified

A model in Dafny of the concurrent and protocol-bearing parts of embedded-mongo, the library that
runs a MongoDB engine inside the calling process, and proofs of what those parts promise.

Six parts are modelled.

* **The async worker pool** (`Worker*.dfy`, `Rendezvous.dfy`): an elastic pool of threads over one
  FIFO queue, with starts that may fail, idle retirement, and a close in which exactly one of the
  retiring workers shuts the engine down.
* **The session pool** (`Session*.dfy`, `CommandSlot.dfy`): checkout under a ceiling that is
  reserved before the lock is let go, a reaper that destroys sessions with the lock released, and
  the interrupt that lets a caller stop its own command and nobody else's. `TwoLayers.dfy` runs the
  worker pool over it. `WorkerDecisions.dfy` and `SessionDecisions.dfy` say what every thread gets on
  asking either.
* **The free-disk floors** (`Floor*.dfy`): two server parameters moved by two commands as one
  decision, put back when the second is refused, and established at every open.
* **The wire** (`Bytes.dfy`, `Documents.dfy`, `Wire*.dfy`, `Framing.dfy`, `Serving.dfy`): the parser
  of OP_MSG and OP_QUERY, and the socket that cuts a stream into messages and frames the replies.
  Formats are those of the MongoDB Wire Protocol, sections "Standard Message Header", "OP_MSG",
  "OP_QUERY" and "OP_REPLY".
* **The handle registry** (`Handles.dfy`, `Registry*.dfy`): ids that name open clients to Java, and
  the locks that keep a command and a close apart.
* **The one-time repair pass** (`Repair*.dfy`, `Marker.dfy`): what a recorded marker may mean, over
  any opens, answers and crashes.

## How it is put together

Where the source updates an object under a lock or runs a loop, the model is a class or a method
with the same branches, tied by `ensures` to a function of the old state or of the inputs
(`WorkerState.WorkerQueue`, `SessionState.Bookkeeping`, `CommandSlot.SlotCell`, `Floors.Engine`,
`Wire.Parse`, `Framing.Intake`, `Handles.Counter`, `Registry.Shared`, `Repair.Engine`,
`Marker.Directory`).

Where threads meet, the model is a machine. A step is one section run with a lock held, one atomic
operation, or one call made outside any lock; `Enabled` says when a step can be taken and `Apply`
what it does; a run is any list of steps, and a step that is not enabled is passed over, so "for
every list of steps" is "for every interleaving". Condition variables wake sleepers when notified
and also for no reason at all. Time is a number that never goes down. Whatever the engine, the
operating system or another party decides (a thread that cannot be started, a session refused, a
command refused, the answer to `validate`, power failing) is a parameter of the step. Threads that
carry nothing but their place are kept as how many are at each place.

In each machine `Inv` is what every step keeps, `Kept` says so, `Holds` says it of every reachable
state, and the theorems named below follow from it.

## Where the code and its documentation differ

* `src/nonblocking/shutdown.rs:52-54` calls the branch unreachable in which the last handle does not
  own the engine. A `start_worker` call holds a handle of its own until it returns: one whose thread
  started, and one whose thread could not be started and whose count has gone back with no stop to
  answer. So the branch is reachable, either way (`WorkerRuns.CloseRefusedEitherWay`), in some run of
  every pool of more than one worker and of no other (`WorkerRuns.CloseRefusedIff`).
  `WorkerTheorems.EngineAnswersIff` says exactly when it is taken, and
  `WorkerRuns.RefusalPossibleIff` from which states of a close it still can be.
* The session pool's floor is not kept by every run of a pool that can grow: a refused
  `open_session` that overlaps a reap takes the count under it. `SessionRuns.FloorHoldsIff` proves
  that the floor holds in every run exactly of fixed pools, and `SessionTheorems.FloorUnlessRefused`
  bounds the loss by the number of refusals.
* `src/repair/marker.rs:33-36` says a truncated marker reads as missing. It does so exactly when the
  cut falls inside the first line (`Marker.CutShort`); what keeps a short marker from being read is
  the rename, and that is proved of every run (`RepairMachine.MarkerMeans`).

## Model

| member | source | states |
|---|---|---|
| `Options.ConstructorsCoverValid` | src/options.rs:67-159 | the policies the two constructors can build are exactly those with 1 <= min <= max <= 256, a timeout exactly when min < max, and then at least a millisecond |
| `WorkerState.WorkerQueue.Reserve` | src/nonblocking/state.rs:84-92 | a worker is counted, as alive and as pending, before its thread exists |
| `WorkerState.WorkerQueue.Arrived` | src/nonblocking/state.rs:94-97 | arrival takes a worker out of pending and leaves it alive |
| `WorkerState.WorkerQueue.SpawnFailed` | src/nonblocking/state.rs:105-124 | a start that failed stops being counted and, while closing, takes the stop at the back with it |
| `WorkerState.WorkerQueue.Publish` | src/nonblocking/state.rs:129-133 | the pool keeps the handle only while it is open |
| `WorkerState.WorkerQueue.QueueJob` | src/nonblocking/state.rs:137-149 | a job is refused unless the pool is open, else queued last, with a worker counted exactly if one is wanted and there is a handle to give it |
| `WorkerState.WorkerQueue.BeginClose` | src/nonblocking/state.rs:192-209 | refused unless open with workers; else one stop per counted worker behind the jobs, and the pool's handle gone |
| `WorkerState.WorkerQueue.Abandon` | src/nonblocking/state.rs:212-218 | the handle goes and the queued work stays; a closing pool stays closing |
| `WorkerState.WorkerQueue.Turn` | src/nonblocking/queue.rs:77-122 | one pass of the wait loop: the front job, or leaving, or waiting with or without a deadline |
| `Rendezvous.SharedShutdown.Deposit` | src/nonblocking/shutdown.rs:40 | a handle goes into the vault, as in the machine's deposit step |
| `Rendezvous.SharedShutdown.CountOut` | src/nonblocking/shutdown.rs:41-43 | the countdown goes down, and who took it from one is told so, as in the machine's count-out step |
| `Rendezvous.SharedShutdown.Drain` | src/nonblocking/shutdown.rs:45-49 | the vault is emptied, as in the machine's drain step, and every handle but one dropped |
| `Rendezvous.SharedShutdown.Retire` | src/nonblocking/shutdown.rs:39-60 | only the retire that ends the countdown replies, once, and it closes the engine exactly when the vault with its own handle held every reference |
| `WorkerTheorems.Kept` | src/nonblocking/workers.rs:33-153 | every step of every thread keeps the pool's invariant |
| `WorkerTheorems.CloseInProgress` | src/nonblocking/state.rs:192-209 | in every run while closing: jobs then stops, one stop per counted worker that has not taken one, the countdown equals workers not counted out, and a failed start finds a stop at the back |
| `WorkerTheorems.ClosedOnceAndLast` | src/nonblocking/shutdown.rs:39-60 | in every run the engine close is tried and answered at most once, after every accepted job was taken and finished and every worker counted out |
| `WorkerTheorems.VaultComplete` | src/nonblocking/shutdown.rs:36-49 | at the end of the countdown the vault holds one handle per counted worker, the pool's is gone, and only unreturned `start_worker` calls, their threads started or not, hold others |
| `WorkerTheorems.EngineAnswersIff` | src/nonblocking/shutdown.rs:50-56 | the last handle owns the engine if and only if no `start_worker` call, its thread started or not, is still to return |
| `WorkerTheorems.EngineLetGo` | src/nonblocking/workers.rs:97-153 | once answered, or abandoned and empty, nothing but unreturned `start_worker` calls, their threads started or not, holds the engine |
| `WorkerTheorems.JobsInOrder` | src/nonblocking/queue.rs:68-140 | jobs accepted are jobs taken then jobs queued, in order; an abandoned pool runs what it holds before its last worker leaves; a pool not open refuses every job |
| `WorkerTheorems.GrowthFollowsDemand` | src/nonblocking/state.rs:226-236 | alive never exceeds max, and with no failed start an open pool is at max or has no more jobs queued than workers idle, pending or newly arrived |
| `WorkerTheorems.FloorKept` | src/nonblocking/queue.rs:77-122 | whatever starts fail, an open published pool has a counted worker with a thread, and at most min workers sleep without a deadline |
| `WorkerTheorems.RetiringKeepsFloor` | src/nonblocking/state.rs:161-184 | no step takes arrived workers down unless at least min remain |
| `WorkerProgress.NeverStuck` | src/nonblocking/queue.rs:77-140 | in every reachable state with a job queued, a close unanswered or a worker of an abandoned pool left, a thread that needs no waking can move |
| `WorkerProgress.WindsDown` | src/nonblocking/workers.rs:115-153 | once closing or abandoned, the threads take no more steps than a measure of the work left, wakes for no reason included, and the phase stays |
| `WorkerProgress.ShutdownCompletes` | src/nonblocking/shutdown.rs:39-60 | however the threads of a closing or abandoned pool are scheduled they take no more steps than a measure of the work, and when none can move every accepted job has run, every worker has left, nothing holds the engine, and a close was answered once |
| `WorkerProgress.DropAbandons` | src/nonblocking/state.rs:212-218 | the last handle dropped in any run: an open pool becomes abandoned and any other stays as it was; it holds no handle, keeps its queue, and accepts no job in any later run |
| `WorkerProgress.DropCompletes` | src/nonblocking/engine.rs:143-147 | from the drop itself, when no thread can move every accepted job has finished and no reference to the engine is left |
| `WorkerProgress.CloseBegins` | src/nonblocking/state.rs:192-209 | a close asked of an open pool in any run always begins, with one stop and one count per worker counted; of any other it changes nothing |
| `WorkerProgress.CloseCompletes` | src/nonblocking/engine.rs:123-127 | from the close itself, when no thread can move every accepted job has finished, nothing holds the engine and the caller was answered once |
| `WorkerDecisions.LookAgainExact` | src/nonblocking/queue.rs:77-122 | in every run a worker that looks takes the front of the queue, or leaves, or sleeps with or without a deadline, by the threads, the queue, the clock and its own note alone |
| `WorkerDecisions.FirstLookExact` | src/nonblocking/queue.rs:77-122 | the same of a worker just come to the queue, which never leaves an open pool by that look |
| `WorkerDecisions.LeavesIff` | src/nonblocking/queue.rs:94-119 | with nothing queued in an open pool a look takes a worker away if and only if more than min have arrived and it was noted as one to spare at least a timeout ago |
| `WorkerDecisions.SpareIsLetGo` | src/nonblocking/queue.rs:94-119 | a worker asleep with a deadline, of a pool with workers to spare and nothing queued, is let go once its timeout has passed and it looks |
| `WorkerDecisions.WakesKeepNotes` | src/nonblocking/queue.rs:80-119 | a sleeper woken for any reason keeps the note of since when it could be spared |
| `WorkerDecisions.NotifyWakesOne` | src/nonblocking/queue.rs:68-72 | a dispatch's notify wakes one sleeper, with its note, if there is one |
| `WorkerDecisions.NotifyAllWakesAll` | src/nonblocking/queue.rs:126-140 | closing and abandoning leave nobody asleep, and lose no note |
| `WorkerDecisions.DispatchExact` | src/nonblocking/state.rs:137-149 | in every run a job is accepted if and only if the pool is open, and a worker counted for it if and only if jobs then outnumber workers idle or pending, below max |
| `WorkerDecisions.FloorFilled` | src/nonblocking/workers.rs:70-75 | in every run an open pool handed out has min workers counted, less one for each start that failed |
| `WorkerRuns.RefusalPossible` | src/nonblocking/workers.rs:97-113 | whenever a close is under way while any `start_worker` call is unreturned, some schedule answers the caller with an error |
| `WorkerRuns.RefusalPossibleIff` | src/nonblocking/workers.rs:97-113 | from any state of an unanswered close some schedule answers with an error if and only if a `start_worker` call is unreturned, or still to be made for a counted worker, or the error is on its way |
| `WorkerRuns.CloseRefusedEitherWay` | src/nonblocking/workers.rs:97-113 | in every pool of more than one worker a close can be so answered while the one unreturned call is one whose thread started, and while it is one whose thread could not be started |
| `WorkerRuns.CloseRefusedIff` | src/nonblocking/shutdown.rs:50-56 | some run answers a close with an error the engine never gave if and only if the pool may have more than one worker |
| `WorkerRuns.GrowthNeedsStarts` | src/nonblocking/state.rs:137-159 | with starts that fail, some run leaves demand unmet below the ceiling if and only if the ceiling is more than one, so demand-exact growth needs its hypothesis |
| `SessionState.Bookkeeping.Take` | src/pool/reaper.rs:76-80 | the most recently returned session, if any |
| `SessionState.TakesNewest` | src/pool/reaper.rs:76-80 | on a list in order of return nothing taken was returned before anything left, and taking undoes giving back |
| `SessionState.Bookkeeping.GiveBack` | src/pool/reaper.rs:62-66 | a session goes to the back with the time of its return |
| `SessionState.Bookkeeping.Closed` | src/pool/reaper.rs:118-128 | only the count of open sessions goes down |
| `SessionState.Bookkeeping.Reap` | src/pool/reaper.rs:82-115 | the loop leaves, takes and answers what eviction of the least recently used would, on a list in order of return |
| `SessionState.ReapIsEviction` | src/pool/reaper.rs:82-115 | the loop takes the first min(spare, overdue) entries, keeps the rest in order, and waits for the oldest kept one that could go, or a whole timeout |
| `SessionState.EvictionIsExact` | src/pool/reaper.rs:82-115 | what is evicted is overdue, what is kept is not or could not be spared, and the wait is in (0, timeout] |
| `CommandSlot.SlotCell.Start` | src/pool/slot.rs:53-62 | only a waiting slot runs, and is armed with the session it runs on |
| `CommandSlot.SlotCell.Cancel` | src/pool/slot.rs:43-49 | the session is killed exactly if running, and the slot is spent |
| `CommandSlot.SlotCell.Finish` | src/pool/slot.rs:66-71 | an armed slot is disarmed and any other left alone |
| `CommandSlot.KillsOnce` | src/pool/slot.rs:43-71 | over any starts, cancels and finishes a slot kills at most once, and never once finished or cancelled |
| `SessionProof.Moves` | src/pool/sessions.rs:59-130 | each step opens one session, destroys one, moves one between places, or touches none |
| `SessionProof.Kept` | src/pool/sessions.rs:59-180 | every step of every caller, canceller and the reaper keeps the pool's invariant; what each step decides is in `SessionDecisions` |
| `SessionTheorems.SessionsConserved` | src/pool/sessions.rs:87-130 | in every run open = idle + out + reserved + being destroyed, at most max, and at least the sessions that exist |
| `SessionTheorems.NeverShared` | src/pool/sessions.rs:124-180 | in every run each session is in at most one place |
| `SessionTheorems.CommandsApart` | src/pool/sessions.rs:59-83 | no two running commands are on one session |
| `SessionTheorems.NoWakeupLost` | src/pool/sessions.rs:87-122 | while a caller sleeps, free sessions plus unused places are at most the callers woken plus the notifies owed |
| `SessionTheorems.NeverForgotten` | src/pool/reaper.rs:167-194 | while a caller sleeps, some thread already inside the pool can move |
| `SessionDecisions.CheckoutExact` | src/pool/sessions.rs:87-106 | in every run a caller takes the most recently returned session if and only if one is free, reserves a place if and only if none is and open < max, and sleeps if and only if none is and open = max |
| `SessionDecisions.GiveBackExact` | src/pool/reaper.rs:62-66 | a session given back is free from that moment, behind every other, and a notify is owed for it |
| `SessionDecisions.StartExact` | src/pool/sessions.rs:70-77 | in every run a command runs if and only if its slot never ran one and was not cancelled first; otherwise its session goes back |
| `SessionDecisions.CancelExact` | src/nonblocking/engine.rs:150-156 | in every run a cancel fires exactly one kill, on the session its command holds, if and only if the command is running and was not killed before |
| `SessionDecisions.EndExact` | src/pool/slot.rs:64-91 | a command over leaves its slot finished, or cancelled if it was killed, with its session still held |
| `SessionDecisions.ReapExact` | src/pool/reaper.rs:82-115 | in every run a look stops the reaper of a closing pool, and otherwise takes the first k free sessions with k at most open - min, all free for the timeout, and the next one not or not to be spared |
| `SessionDecisions.ReportExact` | src/pool/reaper.rs:181-186 | a batch destroyed is counted out, every sleeper woken, and the reaper looks again under the same lock |
| `SessionDecisions.StopsForGood` | src/pool/reaper.rs:68-72 | once told to stop the reaper never begins another batch |
| `SessionDecisions.CallersKept` | src/pool/sessions.rs:87-130 | no step of any thread loses or makes a caller: one comes by asking and goes by its notify |
| `SessionDecisions.WakesOne` | src/pool/sessions.rs:100-118 | a notify or a wake for no reason brings exactly one sleeper back to look, and a notify with nobody asleep is spent on nobody |
| `SessionDecisions.RefusalExact` | src/pool/sessions.rs:111-122 | a refused open counts once, gives its one place back and owes one notify |
| `SessionDecisions.ReaperGoesOn` | src/pool/reaper.rs:167-194 | a reaper not stopped can always go on, and after its rest looks |
| `SessionTheorems.InterruptsStayHome` | src/pool/slot.rs:43-91 | an armed slot's session is held by that slot's own command and is nowhere else, and every kill ever fired was fired then |
| `SessionTheorems.SlotsOnce` | src/pool/slot.rs:43-71 | a slot runs at most one command, fires at most once, and only if its command ran |
| `SessionTheorems.OverMeansOver` | src/pool/slot.rs:64-91 | from a finished or cancelled slot, no run ever runs or fires it again |
| `SessionTheorems.CancelledNeverRuns` | src/pool/sessions.rs:66-77 | a slot cancelled before it started never runs |
| `SessionTheorems.FloorUnlessRefused` | src/pool/reaper.rs:82-128 | open less what is being destroyed is at least min less the opens refused, so at least min with none refused |
| `SessionTheorems.EachReapLeavesTheFloor` | src/pool/reaper.rs:89-115 | each reap leaves open less its batch at least min |
| `SessionTheorems.FixedStaysFixed` | src/pool/sessions.rs:3-6 | a fixed pool is always at its one size, with nothing refused and no reaper |
| `SessionRuns.FloorHoldsIff` | src/pool/sessions.rs:108-122 | open >= min in every run if and only if the pool is fixed |
| `SessionTheorems.ReapsOldest` | src/pool/reaper.rs:62-116 | in every reachable state the idle list is in order of return and a reap is eviction of the least recently used |
| `SessionTheorems.SleepsOnlyForTheReaper` | src/pool/sessions.rs:87-106 | with at most max callers a checkout sleeps only while the reaper destroys a session, so never in a fixed pool |
| `TwoLayers.Kept` | src/nonblocking/workers.rs:37-42 | every step of the two pools run together keeps both invariants, and no more callers in the session pool than threads inside a job or the open |
| `TwoLayers.WorkersFitSessions` | src/nonblocking/workers.rs:37-42 | in every run of the two pools together the callers of the session pool are at most its ceiling, so one sleeps there only while the reaper destroys a session, and never in a fixed pool |
| `Floors.FloorsFit` | src/limits/floor.rs:33-59 | every floor but zero is accepted and reaches both knobs exactly, within 64 bits |
| `Floors.ToldTruly` | src/limits/knobs.rs:111-153 | a reading succeeds exactly when both counts come back as 64-bit integers, and is then the pair in force; a failed one names the first knob at fault and whether it was missing or held something else |
| `Floors.Engine.Send` | src/limits/knobs.rs:128-133 | commands in order up to the first refusal, with what that leaves the knobs at |
| `Floors.Engine.ReportedFloors` | src/limits/knobs.rs:111-121 | one command, nothing moved, and the pair or why it cannot be read |
| `Floors.Engine.ApplyOrPutBack` | src/limits/process.rs:167-187 | two commands, and a third that puts the first knob back only when the second is refused |
| `Floors.Engine.MoveFreeDiskFloor` | src/limits/process.rs:141-152 | both knobs as asked on success, both as before on an ordinary error, one of each only under the error that says so |
| `Floors.MovesWholly` | src/limits/process.rs:154-187 | the same of every pattern of refusals, with which refusals give which outcome |
| `Floors.EngineFloorDefaults.Of` | src/limits/at_open.rs:132-147 | the engine is asked once, and what it says is what is remembered |
| `Floors.EngineFloorDefaults.Establish` | src/limits/at_open.rs:72-93 | recorded before anything is applied, then the named floor or the recorded pair sent, and nothing put back |
| `Floors.EstablishesWholly` | src/limits/at_open.rs:72-93 | an open succeeds if and only if the pair is recorded or readable and neither command is refused, with what it records, sends and leaves in every other case |
| `FloorTheorems.Serialised` | src/limits/process.rs:118-132 | every interleaving of movers, readers and opens, overlapping as they may, is some order of whole operations, each leaving, sending and answering what it would alone |
| `FloorTheorems.FloorsMoveWhole` | src/limits/process.rs:134-187 | each operation starts where the last ended; a reading is the pair at that boundary; moves and opens end as they are to, and succeed exactly when the engine's answers allow |
| `FloorTheorems.DefaultsSurvive` | src/limits/at_open.rs:95-147 | at every moment of every history either nothing is recorded and the floors are the first ones, or the first ones are what is recorded |
| `FloorTheorems.NeverStuck` | src/limits/process.rs:118-132 | in every run, while any operation is waiting or under way, some thread can go on whatever the engine answers |
| `FloorTheorems.NearerToLeaving` | src/limits/process.rs:125-187 | every step of an operation brings it nearer to letting the lock go |
| `FloorTheorems.AsksAndLeaves` | src/client.rs:104-110 | an operation asked for is queued, and a client is handed out by an open exactly when the open succeeds |
| `Bytes.Le32RoundTrip` | embedded-mongodb-wire/src/lib.rs:196-214 | an integer written in four bytes is read back, signed or not, wherever it lies |
| `Documents.Inserted` | embedded-mongodb-wire/src/lib.rs:76-78 | insertion sets one key, keeps the rest and their order, and adds a new key last |
| `Documents.Removed` | embedded-mongodb-wire/src/lib.rs:79-83 | removal leaves the fields under every other key, in order, and nothing under that one |
| `Wire.ReadDocument` | embedded-mongodb-wire/src/lib.rs:181-194 | the document at a position within bounds and where it ends, or the error for why not |
| `Wire.ReadSequence` | embedded-mongodb-wire/src/lib.rs:145-179 | the sequence at a position: length, identifier to the first zero, documents to the end |
| `Wire.ParseMsg` | embedded-mongodb-wire/src/lib.rs:49-101 | the loops compute the reading that `AcceptsMessages`, `RefusesSections` and `RefusesCommands` pin, with the first error met |
| `Wire.ParseQuery` | embedded-mongodb-wire/src/lib.rs:104-143 | the command sent to a database's `$cmd`, with the first error met |
| `Wire.Parse` | embedded-mongodb-wire/src/lib.rs:31-47 | every byte string gets an answer, with no access out of range |
| `WireTheorems.DocumentsExact` | embedded-mongodb-wire/src/lib.rs:170-178 | documents are read from a range if and only if they lie in it end to end |
| `WireTheorems.SectionExact` | embedded-mongodb-wire/src/lib.rs:58-73 | a section is read at a position if and only if the bytes to its end are one |
| `WireTheorems.AcceptsMessages` | embedded-mongodb-wire/src/lib.rs:31-101 | a message is accepted as OP_MSG if and only if its header and flags are right, bytes 20 to the end are sections end to end with exactly one body, the overlay has non-empty text under `$db`, and the fields without `$db` are not empty and encode; the request is then that id, flag, database, first key and encoding |
| `WireTheorems.AcceptsQueries` | embedded-mongodb-wire/src/lib.rs:104-143 | a message is accepted as OP_QUERY if and only if it is a terminated `<database>.$cmd`, eight bytes and exactly one document naming a command |
| `WireRefusals.RefusesHeaders` | embedded-mongodb-wire/src/lib.rs:31-47 | too short, wrong length and wrong op code, each if and only if, in that order |
| `WireRefusals.RefusesSections` | embedded-mongodb-wire/src/lib.rs:49-73 | unknown flags first; then a section error if and only if sections lie end to end up to the first one that is wrong, and that is what is wrong with it |
| `WireRefusals.RefusesCommands` | embedded-mongodb-wire/src/lib.rs:75-91 | no body, no `$db`, `$db` not text or empty, no command and not encodable, each if and only if |
| `WireRefusals.RefusesDocuments` | embedded-mongodb-wire/src/lib.rs:181-204 | truncated, too short a length, overrunning and undecodable, each if and only if |
| `WireRefusals.RefusesSequences` | embedded-mongodb-wire/src/lib.rs:145-161 | bad length, overrunning and an unterminated identifier, each if and only if |
| `WireRefusals.RefusesIdentifiers` | embedded-mongodb-wire/src/lib.rs:162-178 | an identifier not UTF-8 or empty, each if and only if, before any document is looked at |
| `WireRefusals.RefusesNames` | embedded-mongodb-wire/src/lib.rs:105-120 | unterminated, not UTF-8, not some database's `$cmd` and an empty database, each if and only if |
| `WireRefusals.RefusesQueries` | embedded-mongodb-wire/src/lib.rs:121-133 | past its name a query is refused for its document, for more than one, for naming no command, or for not encoding, each if and only if |
| `WireRoundTrip.MsgRoundTrip` | embedded-mongodb-wire/src/lib.rs:49-101 | any header, flag and section list with one body anywhere, framed, parses to what the sections mean |
| `WireRoundTrip.OverlayMeans` | embedded-mongodb-wire/src/lib.rs:75-78 | the command has the body's keys first and in order, and under each key the last sequence of that name or else the body's value |
| `WireRoundTrip.MsgMeans` | embedded-mongodb-wire/src/lib.rs:75-101 | a framed request gives back its id, flag and database, and as its command exactly the overlay's fields in order without `$db`, named by the first key |
| `WireRoundTrip.QueryRoundTrip` | embedded-mongodb-wire/src/lib.rs:104-143 | a framed OP_QUERY gives back its id, database and command |
| `Framing.Intake.OnData` | embedded-mongodb-node/index.js:127-142 | a chunk gives the messages completed by it, what is left, and whether the socket is destroyed |
| `Framing.SplitTiles` | embedded-mongodb-node/index.js:127-142 | the messages and the rest are the stream, and the rest is no whole message |
| `Framing.SplitMeasures` | embedded-mongodb-node/index.js:130-137 | every message is as long as it says and holds a header |
| `Framing.ChunksDoNotMatter` | embedded-mongodb-node/index.js:127-142 | every way of cutting a stream into chunks gives the same messages, rest and verdict |
| `Framing.MsgFrame` | embedded-mongodb-node/index.js:149-156 | every byte of an OP_MSG reply from the op code on |
| `Framing.ReplyFrame` | embedded-mongodb-node/index.js:159-168 | every byte of an OP_REPLY from the op code on |
| `Framing.Answer` | embedded-mongodb-node/index.js:117-125 | the whole frame, or none; `FramedIff` says which kind and when |
| `Framing.FramedIff` | embedded-mongodb-node/index.js:117-125 | there is a frame if and only if its length and number fit 32 bits, and it is an OP_REPLY if and only if the request was legacy and an OP_MSG otherwise |
| `Framing.FrameReads` | embedded-mongodb-node/index.js:117-168 | a frame's length, number, responseTo, op code, every word before the body, and the body read back |
| `Serving.RepliesAnswerAPrefix` | embedded-mongodb-node/index.js:112-146 | in every run frames written answer, one each and in order, exactly the requests wanting a reply in a prefix of the stream's messages |
| `Serving.OutputSplits` | embedded-mongodb-node/index.js:117-125 | splitting the output gives the frames back, each of the kind its request was, with its length, number, the request it answers, the words of that kind and the body |
| `Serving.WrittenIff` | embedded-mongodb-node/index.js:117-140 | in every run a wanted reply on a live socket is written if and only if its length and number fit 32 bits, no other answer writes anything, and only a refusal or a frame that does not fit destroys the socket |
| `Serving.DestroyedIsSilent` | embedded-mongodb-node/index.js:119 | a destroyed socket is never written to again |
| `Serving.NeverStuck` | embedded-mongodb-node/index.js:138-140 | while a message waits the engine has one or can be given the first, which leaves the queue |
| `Serving.AlwaysListens` | embedded-mongodb-node/index.js:127-128 | a chunk can arrive and the socket be destroyed at any time |
| `Handles.IdsRoundTrip` | embedded-mongodb-android/src/handle.rs:30-52 | an id from a tag in range is positive, survives the signed 64-bit trip and keeps its parts |
| `Handles.RefusesNoId` | embedded-mongodb-android/src/handle.rs:28-32 | zero and every negative number are refused as ids, and nothing else |
| `Handles.TagsThatWork` | embedded-mongodb-android/src/handle.rs:39-51 | for any 64-bit tag, all its ids from sequence one are accepted back if and only if its low 32 bits are at most the mask, and lie above every id of a bare counter if and only if they are also not zero |
| `Handles.ProcessTag` | embedded-mongodb-android/src/handle.rs:97-110 | the tag drawn is the hash's low 31 bits, never zero, and never reaches the sign bit |
| `Handles.Counter.TakeNext` | embedded-mongodb-android/src/handle.rs:80-92 | the next id and the counter after it, or none once spent |
| `Handles.IdsInFull` | embedded-mongodb-android/src/handle.rs:78-92 | the ids of a process are its tag over 1 to 2^32 - 1 in order, and then none for ever |
| `Handles.IdsNeverReturn` | embedded-mongodb-android/src/handle.rs:66-92 | ids are positive, strictly increasing and never issued again |
| `Registry.Shared.Insert` | embedded-mongodb-android/src/registry.rs:67-77 | an entry goes in under a new id, or nothing changes when there is none |
| `Registry.Shared.Lookup` | embedded-mongodb-android/src/registry.rs:174-179 | the entry under an id, if any |
| `Registry.Shared.Remove` | embedded-mongodb-android/src/registry.rs:90-95 | the entry under an id, which is no longer in the map |
| `RegistryTheorems.Kept` | embedded-mongodb-android/src/registry.rs:67-103 | every section of every open, command and close keeps the registry's invariant |
| `RegistryTheorems.StoriesHold` | embedded-mongodb-android/src/registry.rs:79-103 | in every interleaving no command is inside a client when its close begins or after, and each client is closed at most once |
| `RegistryTheorems.StoryReads` | embedded-mongodb-android/src/registry.rs:79-103 | read off the trace: nothing of a client follows the start of its close but the one end of it, and nothing was inside |
| `RegistryTheorems.ClosesFindTheirClient` | embedded-mongodb-android/src/registry.rs:93-99 | a close that removed the entry always finds the client in it |
| `RegistryTheorems.RunsOrIsRefused` | embedded-mongodb-android/src/registry.rs:79-86 | in every interleaving a command that found its client runs if the client is live, and is told the handle is closed once a close has begun |
| `RegistryTheorems.LookupExact` | embedded-mongodb-android/src/registry.rs:172-179 | in every interleaving an id is found if and only if it was issued to a client no close has taken out, and a lookup finds that client or is told the handle is closed |
| `RegistryTheorems.CloseExact` | embedded-mongodb-android/src/registry.rs:88-95 | a close of an id in the map takes it out, the id is in no later map, and a close of any other id is told the handle is closed |
| `RegistryTheorems.TakeOutExact` | embedded-mongodb-android/src/registry.rs:96-102 | the close that took an entry out can begin exactly when no command is inside, and then shuts that client down |
| `RegistryTheorems.OpenOrClosedOnce` | embedded-mongodb-android/src/registry.rs:88-103 | at rest every client is open and found under its own id, or was closed exactly once |
| `RegistryTheorems.IdsNameOne` | embedded-mongodb-android/src/registry.rs:63-77 | an id in the map is the one issued to the client it names |
| `RegistryTheorems.NeverStuck` | embedded-mongodb-android/src/registry.rs:22-28 | while any call is waiting or inside, some call can go on |
| `Repair.HealthMeans` | src/repair/report.rs:56-84 | inconclusive exactly when a warning says the scan threw; sound exactly when valid is true and nothing is listed against it |
| `Repair.ContainsMeans` | src/repair/report.rs:64-69 | containing the warning's words is being something, then them, then something |
| `Repair.Engine.VisitOne` | src/repair/mod.rs:172-203 | a visit succeeds exactly when the check was sound, or damage was found, repaired and rechecked to the end |
| `Repair.Engine.Sweep` | src/repair/mod.rs:161-170 | every collection is visited, and the pass is complete exactly when each came to a verdict |
| `Marker.CutShort` | src/repair/marker.rs:33-42 | a marker cut short reads as recorded if and only if its first line is whole |
| `Marker.RecordedMeans` | src/repair/marker.rs:37-42 | a file is a record if and only if it is readable and is the record's line, alone or ended by either line ending |
| `Marker.Directory.State` | src/repair/marker.rs:37-42 | recorded exactly when the first line is the record |
| `Marker.Directory.WritePartial` | src/repair/marker.rs:68-76 | success means the whole text is under the partial name |
| `Marker.Directory.Record` | src/repair/marker.rs:55-66 | whichever step fails, the marker is the whole text or what it was |
| `RepairMachine.Kept` | src/repair/mod.rs:81-203 | every step of an open, and a crash at any of them, keeps the invariant |
| `RepairMachine.MarkerMeans` | src/repair/mod.rs:81-203 | over any opens and crashes a recorded marker is whole, and the very open that wrote it found the directory fresh or gave every listed collection a verdict from a listing that was not databases without collections |
| `RepairMachine.BeginsExactly` | src/repair/mod.rs:81-108 | an open is done if skipped or recorded, records if the directory held nothing, and lists collections otherwise, each if and only if |
| `RepairMachine.ListsExactly` | src/repair/mod.rs:128-153 | a listing that fails or names databases without collections ends the open unrecorded, and any other is gone through from its first collection |
| `RepairMachine.AnswersExactly` | src/repair/mod.rs:172-203 | which answers to `validate` end a visit, with what it learned, and which lead to a repair and a recheck |
| `RepairMachine.SweepsExactly` | src/repair/mod.rs:161-170 | in every run a sweep visits what was listed, in order, and goes on to record if and only if every visit came to a verdict |
| `RepairMachine.RecordsOnceDecided` | src/repair/mod.rs:108-112 | an open that is to record leaves a recorded marker of its own, once nothing fails |
| `RepairMachine.RecordedIsLeftAlone` | src/repair/mod.rs:90-93 | a recorded directory is left as it is by every later open, with no collection listed or visited, until its power fails |
| `RepairMachine.WritesExactly` | src/repair/marker.rs:55-76 | where each step of writing goes on success and on failure, and that the rename alone touches the marker |
| `RepairMachine.DiesAnywhere` | src/repair/marker.rs:44-54 | a crash at any step leaves the disk; a power failure leaves the marker's name with what it held or held before the last rename, less unsynced bytes |
| `RepairMachine.NeverStuck` | src/repair/mod.rs:81-119 | an open under way can always go on |
| `RepairMachine.NearerToTheEnd` | src/repair/mod.rs:81-119 | every step of an open brings its end nearer |

## Left out

- The engine itself, its FFI layer and `session.run_command`: a session is a number that can be opened, run on, killed and closed, and what the engine answers is a parameter.
- A kill between `slot.start` and the native bind may hit nothing, so the claim about interrupts is that they hit no other command, not that they stop their own.
- Which thread is which, for threads that carry nothing: those are counted by place, so fairness between them is not expressed.
- Liveness under a real scheduler: what is proved instead is that a thread can always move and that a shut pool's own steps run out.
- `serve`, `start`, `start_worker`, `checkout`, `run` and the reaper's thread loop are steps of the machines rather than methods, because their loops are cut at every lock and other threads come in between.
- `started`, the counter that only numbers threads for their names, is unbounded here and 32-bit in the source.
- Panics, mutex poisoning, tracing and error texts: a job that panics is a job that ends, a lock can always be had, and errors are told apart by kind.
- `Repaired::parse` and the announcements: what a repair did is reported, and decides nothing.
- How collections are listed (`src/repair/commands.rs`): a listing is a number of databases and the collections in them, or an error.
- How `EMBEDDED_MONGODB_SKIP_INDEX_REPAIR` is read: whether to skip is a parameter of each open.
- BSON and UTF-8: `Documents.Codec` holds the four conversions and `Lawful` all that is relied on.
- Raw `setParameter` commands sent past the floor lock.
- Data that Node could deliver after a socket is destroyed is allowed by the model, which only widens what is proved.
- Cursors, `OpenOptions` and storage options, Kotlin and Python clients, URI parsing and the build: easy members only.
- SessionMachine.Init: the floor's sessions all became free at the same moment, where the source takes one reading of the clock for each.
