/** Every thread and task that touches the async worker pool, as a machine whose steps are the
    sections run under one lock, the atomic operations, and the calls between them. A run is any
    list of steps, so a property of every run is a property of every interleaving.

    No step depends on which thread takes it, only on where that thread is, so the threads are
    kept as how many of them are at each place, with what each one there carries. */
module WorkerMachine {
  import opened Options
  import opened Lists
  import opened WorkerState
  import opened Rendezvous

  /** Where the thread is that opens the engine and goes on to be its first worker. `asked` is how
      many of the floor's further workers it has asked for; it is `Inside` `start_worker` until
      that call returns. Until the open reports, no other call to `start_worker` can exist. */
  datatype Opener =
    | Opening
    | Opened
    | Floor(asked: nat)
    | Inside(asked: nat)
    | Reporting
    | Served

  datatype Threads = Threads(
    opener: Opener,
    unowned: nat,          // the opening thread holding the engine before it is counted
    first: nat,            // the opening thread counted as the first worker
    owing: nat,            // callers that queued a job and have yet to notify
    owingSpawn: nat,       // the same, with a counted worker to start afterwards
    owingAll: nat,         // callers that closed or abandoned and have yet to notify everyone
    ordered: nat,          // `start_worker` calls about to start their thread
    failed: nat,           // ... that could not
    returning: nat,        // ... done but for returning, whether they could or not, and holding a handle till then
    starting: nat,         // worker threads that have not arrived
    newly: nat,            // arrived and never yet counted as waiting
    ready: nat,            // back from a job
    untimed: nat,          // asleep with no deadline
    timed: seq<nat>,       // asleep, by when each became one the pool could spare; the order means nothing
    woken: seq<Option<nat>>,
    serving: nat,          // inside a job
    depositing: nat,       // retiring with its handle in hand
    counting: nat,         // handle deposited, not counted out
    draining: nat,         // ended the countdown
    unwrapping: nat,       // drained the vault down to one handle
    replyingClosed: nat,   // with the engine's own answer to being closed
    replyingRefused: nat)  // with an error, because it was not the engine's only owner
  {
    /** Workers counted whose thread has not reached the queue. */
    function Pending(): nat { first + owingSpawn + ordered + failed + starting }

    /** Of those, the ones with no thread of their own yet. */
    function Unstarted(): nat { owingSpawn + ordered + failed }

    function Asleep(): nat { untimed + |timed| }

    function Idle(): nat { Asleep() + |woken| }

    function Arrived(): nat { newly + ready + Idle() + serving }

    /** Workers counted and not yet stopped, retired or given back. */
    function Counted(): nat { Pending() + Arrived() }

    function Replying(): nat { replyingClosed + replyingRefused }

    /** The thread that ended the countdown, until it has replied. */
    function Closers(): nat { draining + unwrapping + Replying() }

    /** References to the engine, place by place: every worker's from when it is counted until it
        deposits it, every `start_worker` call's until it returns, the opening thread's before it
        is counted, and the last one out of the vault. A call starting a thread briefly holds a
        second, for the thread; it is left out, since the worker is counted for as long. */
    function Handles(): nat {
      unowned + first + owingSpawn + ordered + failed + returning + starting + newly + ready + untimed + |timed|
      + |woken| + serving + depositing + unwrapping
    }
  }

  const ONLY_OPENER := Threads(Opening, 0, 0, 0, 0, 0, 0, 0, 0, 0, 0, 0, 0, [], [], 0, 0, 0, 0, 0, 0, 0)

  /** `attempts` counts tries to own the engine and close it; `replies` is what the closing caller
      was sent, `true` being the engine's own answer to being closed. `accepted`, `taken` and
      `finished` are the history of the jobs, `failedStarts` of threads that could not be
      started. */
  datatype Log = Log(
    attempts: nat,
    replies: seq<bool>,
    accepted: seq<nat>,
    taken: seq<nat>,
    finished: nat,
    failedStarts: nat)

  /** `usable` is whether the open has reported success, so that callers can hold the handle. */
  datatype Machine = Machine(
    pool: State,
    threads: Threads,
    shutdown: Option<Shutdown>,
    log: Log,
    now: nat,
    usable: bool)
  {
    /** The engine's reference count: the pool's handle, every thread's and call's, the vault's. */
    function References(): int {
      threads.Handles() + (if pool.client then 1 else 0) + (if shutdown.Some? then shutdown.value.vault else 0)
    }
  }

  const INIT := Machine(EMPTY, ONLY_OPENER, None, Log(0, [], [], [], 0, 0), 0, false)

  /** Each step is taken by some thread at the place its name says. */
  datatype Step =
    | FinishOpen(ok: bool)
    | CountFirst
    | AskFloor
    | ResumeFloor
    | Publish
    | Report
    | Dispatch(job: nat)
    | NotifyOne(spawn: bool, sleeper: Option<nat>)
    | StartThread(ok: bool)
    | GiveBack
    | ReturnFrame
    | Arrive
    | FirstLook(newly: bool)
    | Wake(sleeper: Option<nat>)
    | LookAgain(i: nat)
    | FinishJob
    | BeginClose
    | Abandon
    | NotifyAll
    | Deposit
    | CountOut
    | Drain
    | Unwrap
    | Reply(closed: bool)
    | Pass(time: nat)

  function Noted(times: seq<nat>): (noted: seq<Option<nat>>)
    ensures |noted| == |times|
    ensures forall j | 0 <= j < |times| :: noted[j] == Some(times[j])
  {
    seq(|times|, j requires 0 <= j < |times| => Some(times[j]))
  }

  /** Which sleeper: one of those with a deadline, or one of those without. */
  predicate Sleeps(ts: Threads, sleeper: Option<nat>) {
    if sleeper.Some? then sleeper.value < |ts.timed| else ts.untimed > 0
  }

  predicate Enabled(limits: Concurrency, m: Machine, step: Step) {
    var ts := m.threads;
    match step
    case FinishOpen(_) => ts.opener.Opening?
    case CountFirst => ts.opener.Opened? && ts.unowned > 0
    case AskFloor => ts.opener.Floor? && ts.opener.asked + 1 < limits.min
    case ResumeFloor => ts.opener.Inside? && ts.ordered == ts.failed == ts.returning == 0
    case Publish => ts.opener.Floor? && ts.opener.asked + 1 >= limits.min
    case Report => ts.opener.Reporting? && ts.first > 0
    case Dispatch(_) => m.usable
    case NotifyOne(spawn, sleeper) =>
      && (if spawn then ts.owingSpawn > 0 else ts.owing > 0)
      && (ts.Asleep() > 0 ==> Sleeps(ts, sleeper))
    case StartThread(_) => ts.ordered > 0
    case GiveBack => ts.failed > 0
    case ReturnFrame => ts.returning > 0
    case Arrive => ts.starting > 0
    case FirstLook(newly) => if newly then ts.newly > 0 else ts.ready > 0
    case Wake(sleeper) => Sleeps(ts, sleeper)
    case LookAgain(i) => i < |ts.woken|
    case FinishJob => ts.serving > 0
    case BeginClose => m.usable
    case Abandon => true
    case NotifyAll => ts.owingAll > 0
    case Deposit => ts.depositing > 0 && m.shutdown.Some?
    case CountOut => ts.counting > 0 && m.shutdown.Some?
    case Drain => ts.draining > 0 && m.shutdown.Some?
    case Unwrap => ts.unwrapping > 0
    case Reply(closed) => if closed then ts.replyingClosed > 0 else ts.replyingRefused > 0
    case Pass(_) => true
  }

  function Apply(limits: Concurrency, m: Machine, step: Step): Machine
    requires Enabled(limits, m, step)
  {
    match step
    case FinishOpen(ok) => FinishOpening(m, ok)
    case CountFirst => CountFirstWorker(m)
    case AskFloor => AskFloorWorker(m)
    case ResumeFloor => ReturnToFloor(m)
    case Publish => PublishHandle(m)
    case Report => ReportOpened(m)
    case Dispatch(job) => QueueJob(limits, m, job)
    case NotifyOne(spawn, sleeper) => NotifyOneWorker(m, spawn, sleeper)
    case StartThread(ok) => StartWorker(m, ok)
    case GiveBack => GiveBackCount(m)
    case ReturnFrame => ReturnToCaller(m)
    case Arrive => ArriveAtQueue(m)
    case FirstLook(newly) => Look(limits, BeginWaiting(m, newly), None)
    case Wake(sleeper) => m.(threads := Rouse(m.threads, sleeper))
    case LookAgain(i) => Look(limits, TakeLock(m, i), m.threads.woken[i])
    case FinishJob => FinishOne(m)
    case BeginClose => CloseIfOpen(m)
    case Abandon => AbandonPool(m)
    case NotifyAll => NotifyAllWorkers(m)
    case Deposit => DepositHandle(m)
    case CountOut => CountDown(m)
    case Drain => DrainVault(m)
    case Unwrap => OwnAndClose(m)
    case Reply(closed) => SendReply(m, closed)
    case Pass(time) => m.(now := m.now + time)
  }

  function FinishOpening(m: Machine, ok: bool): Machine {
    var ts := m.threads;
    m.(threads := if ok then ts.(opener := Opened, unowned := ts.unowned + 1) else ts.(opener := Served))
  }

  function CountFirstWorker(m: Machine): Machine
    requires m.threads.unowned > 0
  {
    var ts := m.threads;
    m.(threads := ts.(opener := Floor(0), unowned := ts.unowned - 1, first := ts.first + 1), pool := m.pool.Reserve())
  }

  function AskFloorWorker(m: Machine): Machine
    requires m.threads.opener.Floor?
  {
    var ts := m.threads;
    m.(threads := ts.(opener := Inside(ts.opener.asked), ordered := ts.ordered + 1), pool := m.pool.Reserve())
  }

  function ReturnToFloor(m: Machine): Machine
    requires m.threads.opener.Inside?
  {
    m.(threads := m.threads.(opener := Floor(m.threads.opener.asked + 1)))
  }

  function PublishHandle(m: Machine): Machine {
    m.(threads := m.threads.(opener := Reporting), pool := m.pool.Publish())
  }

  /** From here the opening thread is a worker like any other. */
  function ReportOpened(m: Machine): Machine
    requires m.threads.first > 0
  {
    var ts := m.threads;
    m.(threads := ts.(opener := Served, first := ts.first - 1, starting := ts.starting + 1), usable := true)
  }

  function StartWorker(m: Machine, ok: bool): Machine
    requires m.threads.ordered > 0
  {
    var ts := m.threads.(ordered := m.threads.ordered - 1);
    if ok then m.(threads := ts.(returning := ts.returning + 1, starting := ts.starting + 1))
    else m.(threads := ts.(failed := ts.failed + 1), log := m.log.(failedStarts := m.log.failedStarts + 1))
  }

  /** A failed start gives its count back; if a `Stop` came with it, the call retires in its
      worker's place, and otherwise it has only to return, which is when it drops its handle. */
  function GiveBackCount(m: Machine): Machine
    requires m.threads.failed > 0
  {
    var ts := m.threads.(failed := m.threads.failed - 1);
    var (pool, handedBack) := m.pool.SpawnFailed();
    m.(pool := pool,
       threads := if handedBack then ts.(depositing := ts.depositing + 1) else ts.(returning := ts.returning + 1))
  }

  function ReturnToCaller(m: Machine): Machine
    requires m.threads.returning > 0
  {
    m.(threads := m.threads.(returning := m.threads.returning - 1))
  }

  function ArriveAtQueue(m: Machine): Machine
    requires m.threads.starting > 0
  {
    m.(threads := m.threads.(starting := m.threads.starting - 1, newly := m.threads.newly + 1),
       pool := m.pool.Arrived())
  }

  function QueueJob(limits: Concurrency, m: Machine, job: nat): Machine {
    var ts := m.threads;
    if m.pool.Accepts() then
      var (pool, spawn) := m.pool.QueueJob(Run(job), limits.max);
      m.(pool := pool,
         log := m.log.(accepted := m.log.accepted + [job]),
         threads := if spawn then ts.(owingSpawn := ts.owingSpawn + 1) else ts.(owing := ts.owing + 1))
    else m
  }

  function NotifyOneWorker(m: Machine, spawn: bool, sleeper: Option<nat>): Machine
    requires if spawn then m.threads.owingSpawn > 0 else m.threads.owing > 0
    requires m.threads.Asleep() > 0 ==> Sleeps(m.threads, sleeper)
  {
    if m.threads.Asleep() > 0 then Notified(m.(threads := Rouse(m.threads, sleeper)), spawn) else Notified(m, spawn)
  }

  /** The caller's notify made: it goes on to start its worker, or is done. */
  function Notified(m: Machine, spawn: bool): Machine
    requires if spawn then m.threads.owingSpawn > 0 else m.threads.owing > 0
  {
    var ts := m.threads;
    m.(threads := if spawn then ts.(owingSpawn := ts.owingSpawn - 1, ordered := ts.ordered + 1)
                  else ts.(owing := ts.owing - 1))
  }

  function Rouse(ts: Threads, sleeper: Option<nat>): Threads
    requires Sleeps(ts, sleeper)
  {
    if sleeper.Some? then
      ts.(timed := Without(ts.timed, sleeper.value), woken := ts.woken + [Some(ts.timed[sleeper.value])])
    else ts.(untimed := ts.untimed - 1, woken := ts.woken + [None])
  }

  function NotifyAllWorkers(m: Machine): Machine
    requires m.threads.owingAll > 0
  {
    var ts := m.threads;
    m.(threads := ts.(owingAll := ts.owingAll - 1, untimed := 0, timed := [],
                      woken := ts.woken + seq(ts.untimed, _ => None) + Noted(ts.timed)))
  }

  function BeginWaiting(m: Machine, newly: bool): Machine
    requires if newly then m.threads.newly > 0 else m.threads.ready > 0
  {
    var ts := m.threads;
    m.(threads := if newly then ts.(newly := ts.newly - 1) else ts.(ready := ts.ready - 1), pool := m.pool.Waiting())
  }

  function TakeLock(m: Machine, i: nat): Machine
    requires i < |m.threads.woken|
  {
    m.(threads := m.threads.(woken := Without(m.threads.woken, i)))
  }

  function FinishOne(m: Machine): Machine
    requires m.threads.serving > 0
  {
    var ts := m.threads;
    m.(threads := ts.(serving := ts.serving - 1, ready := ts.ready + 1),
       log := m.log.(finished := m.log.finished + 1))
  }

  /** A worker's pass through the wait loop, already counted as waiting. */
  function Look(limits: Concurrency, m: Machine, since: Option<nat>): Machine {
    var ts := m.threads;
    var (pool, outcome) := m.pool.Turn(limits, since, m.now);
    match outcome
    case Took(Run(job)) =>
      m.(pool := pool, threads := ts.(serving := ts.serving + 1), log := m.log.(taken := m.log.taken + [job]))
    case Took(Stop) => m.(pool := pool, threads := ts.(depositing := ts.depositing + 1))
    case Left => m.(pool := pool)
    case Parked(from) => m.(pool := pool, threads := FallAsleep(ts, from))
  }

  function FallAsleep(ts: Threads, since: Option<nat>): Threads {
    match since
    case None => ts.(untimed := ts.untimed + 1)
    case Some(from) => ts.(timed := ts.timed + [from])
  }

  function CloseIfOpen(m: Machine): Machine {
    if m.pool.Closable() then
      m.(pool := m.pool.BeginClose(), shutdown := Some(Shutdown.New(m.pool.alive)),
         threads := m.threads.(owingAll := m.threads.owingAll + 1))
    else m
  }

  function AbandonPool(m: Machine): Machine {
    m.(threads := m.threads.(owingAll := m.threads.owingAll + 1), pool := m.pool.Abandon())
  }

  function DepositHandle(m: Machine): Machine
    requires m.threads.depositing > 0 && m.shutdown.Some?
  {
    var ts := m.threads;
    m.(threads := ts.(depositing := ts.depositing - 1, counting := ts.counting + 1),
       shutdown := Some(m.shutdown.value.Deposited()))
  }

  /** The countdown: whoever takes it from one to zero goes on to close the engine. */
  function CountDown(m: Machine): Machine
    requires m.threads.counting > 0 && m.shutdown.Some?
  {
    var ts := m.threads.(counting := m.threads.counting - 1);
    var (close, last) := m.shutdown.value.CountedOut();
    m.(threads := if last then ts.(draining := ts.draining + 1) else ts, shutdown := Some(close))
  }

  function DrainVault(m: Machine): Machine
    requires m.threads.draining > 0 && m.shutdown.Some?
  {
    var ts := m.threads;
    m.(threads := ts.(draining := ts.draining - 1, unwrapping := ts.unwrapping + 1),
       shutdown := Some(m.shutdown.value.Drained()))
  }

  /** `Arc::into_inner` on the last handle out of the vault: it yields the engine, which is then
      closed, only when no other reference is left. */
  function OwnAndClose(m: Machine): Machine
    requires m.threads.unwrapping > 0
  {
    var ts := m.threads.(unwrapping := m.threads.unwrapping - 1);
    m.(threads := if m.References() == 1 then ts.(replyingClosed := ts.replyingClosed + 1)
                  else ts.(replyingRefused := ts.replyingRefused + 1),
       log := m.log.(attempts := m.log.attempts + 1))
  }

  function SendReply(m: Machine, closed: bool): Machine
    requires if closed then m.threads.replyingClosed > 0 else m.threads.replyingRefused > 0
  {
    var ts := m.threads;
    m.(threads := if closed then ts.(replyingClosed := ts.replyingClosed - 1)
                  else ts.(replyingRefused := ts.replyingRefused - 1),
       log := m.log.(replies := m.log.replies + [closed]))
  }

  /** A step that is not enabled is passed over, so every list of steps is a run. */
  function Execute(limits: Concurrency, m: Machine, steps: seq<Step>): Machine
    decreases |steps|
  {
    if steps == [] then m
    else Execute(limits, if Enabled(limits, m, steps[0]) then Apply(limits, m, steps[0]) else m, steps[1..])
  }
}
