/** What every step of the worker pool keeps. */
module WorkerProof {
  import opened Options
  import opened Lists
  import opened Rendezvous
  import opened WorkerState
  import opened WorkerMachine

  /** The ids of the jobs in a queue, front first. */
  function Runs(queue: seq<Job>): seq<nat> {
    if queue == [] then []
    else (if queue[0].Run? then [queue[0].id] else []) + Runs(queue[1..])
  }

  /** Jobs to run, and behind them exactly `stops` stops. */
  predicate StopsBehind(queue: seq<Job>, stops: nat) {
    && stops <= |queue|
    && (forall i | 0 <= i < |queue| - stops :: queue[i].Run?)
    && (forall i | |queue| - stops <= i < |queue| :: queue[i].Stop?)
  }

  /** The pool's own counts are the threads'. `alive` is left behind once a close begins. */
  predicate Counts(limits: Concurrency, m: Machine) {
    && m.pool.pending == m.threads.Pending()
    && m.pool.idle == m.threads.Idle()
    && m.threads.Counted() <= m.pool.alive <= limits.max
    && (m.pool.phase != Closing ==> m.pool.alive == m.threads.Counted())
  }

  /** The opening thread's own counts, and how many workers may be counted beside it. */
  predicate WithinFloor(ts: Threads, min: nat) {
    match ts.opener
    case Opening => ts.unowned == 0 && ts.first == 0 && ts.Counted() == 0
    case Opened => ts.unowned == 1 && ts.first == 0 && ts.Counted() == 0
    case Floor(asked) => ts.unowned == 0 && ts.first == 1 && ts.Counted() <= asked + 1 <= min
    case Inside(asked) => ts.unowned == 0 && ts.first == 1 && ts.Counted() <= asked + 2 <= min
    case Reporting => ts.unowned == 0 && ts.first == 1
    case Served => ts.unowned == 0 && ts.first == 0
  }

  predicate WhileOpening(limits: Concurrency, m: Machine) {
    var opener := m.threads.opener;
    && WithinFloor(m.threads, limits.min)
    && (opener != Served ==> m.pool.phase != Closing && !m.usable)
    && (opener != Served && opener != Reporting ==> !m.pool.client)
    && (opener == Reporting || m.usable ==> m.pool.phase == Open ==> m.pool.client)
    && (!m.usable ==> m.pool.queue == [] && m.pool.phase != Closing)
    && (m.pool.phase != Open ==> !m.pool.client)
  }

  /** While a close is under way: one stop per counted worker that has not taken one, at the
      back of the queue; a countdown of those not yet counted out; a vault of every handle let
      go so far; and exactly one thread, from the countdown's end, to close and reply. */
  predicate Countdown(m: Machine) {
    var ts := m.threads;
    match m.shutdown
    case None =>
      && m.pool.phase != Closing
      && StopsBehind(m.pool.queue, 0)
      && ts.depositing == ts.counting == ts.Closers() == 0
      && m.log.attempts == |m.log.replies| == 0
    case Some(close) =>
      && m.pool.phase == Closing
      && StopsBehind(m.pool.queue, ts.Counted())
      && close.workers > 0
      && close.remaining == ts.Counted() + ts.depositing + ts.counting
      && close.vault == (if close.remaining > 0 || ts.draining > 0
                         then close.workers - ts.Counted() - ts.depositing else 0)
      && ts.Closers() + |m.log.replies| == (if close.remaining == 0 then 1 else 0)
      && m.log.attempts == ts.Replying() + |m.log.replies|
  }

  predicate History(m: Machine) {
    && m.log.accepted == m.log.taken + Runs(m.pool.queue)
    && |m.log.taken| == m.log.finished + m.threads.serving
  }

  /** Who is asleep, and until when. */
  predicate Timers(limits: Concurrency, m: Machine) {
    && m.threads.untimed <= limits.min
    && (limits.idleTimeout.None? ==> m.threads.timed == [])
    && (forall i | 0 <= i < |m.threads.timed| :: m.threads.timed[i] <= m.now)
    && (forall i | 0 <= i < |m.threads.woken| && m.threads.woken[i].Some? :: m.threads.woken[i].value <= m.now)
  }

  /** With every thread that was asked for started: as many workers as the queue calls for. */
  predicate Demand(limits: Concurrency, m: Machine) {
    m.log.failedStarts == 0 && m.pool.phase == Open && m.pool.client ==>
      || m.pool.alive == limits.max
      || |m.pool.queue| <= m.pool.idle + m.pool.pending + m.threads.newly
  }

  predicate FailuresLogged(m: Machine) {
    m.threads.failed > 0 ==> m.log.failedStarts > 0
  }

  /** No notify is lost: a sleeper next to work to do has a wake on its way. */
  predicate Wakeups(m: Machine) {
    var ts := m.threads;
    ts.Asleep() > 0 ==>
      || ts.owingAll > 0
      || (m.pool.phase != Abandoned && |m.pool.queue| <= |ts.woken| + ts.owing + ts.owingSpawn)
  }

  /** There is always a running thread to take what is queued. */
  predicate Backed(m: Machine) {
    (if m.pool.phase == Open then m.pool.client else m.pool.queue != [] && m.pool.queue[0].Run?) ==>
      m.threads.Counted() > m.threads.Unstarted()
  }

  predicate Structure(limits: Concurrency, m: Machine) {
    && Counts(limits, m)
    && WhileOpening(limits, m)
    && Countdown(m)
    && History(m)
  }

  predicate Promises(limits: Concurrency, m: Machine) {
    && Timers(limits, m)
    && Demand(limits, m)
    && FailuresLogged(m)
    && Wakeups(m)
    && Backed(m)
  }

  predicate Inv(limits: Concurrency, m: Machine) {
    limits.Valid() && Structure(limits, m) && Promises(limits, m)
  }

  // ---- the queue's jobs

  lemma {:induction false} RunsAppended(queue: seq<Job>, more: seq<Job>)
    ensures Runs(queue + more) == Runs(queue) + Runs(more)
  {
    if queue == [] {
      assert queue + more == more;
    } else {
      var head := if queue[0].Run? then [queue[0].id] else [];
      calc {
        Runs(queue + more);
        { assert (queue + more)[1..] == queue[1..] + more; }
        head + Runs(queue[1..] + more);
        { RunsAppended(queue[1..], more); }
        head + (Runs(queue[1..]) + Runs(more));
        (head + Runs(queue[1..])) + Runs(more);
      }
    }
  }

  lemma {:induction false} NoRunsInStops(queue: seq<Job>)
    requires forall i | 0 <= i < |queue| :: queue[i].Stop?
    ensures Runs(queue) == []
  {
    if queue != [] {
      NoRunsInStops(queue[1..]);
    }
  }

  // ---- one lemma a step

  lemma {:induction false} KeepsFinishOpening(limits: Concurrency, m: Machine, ok: bool)
    requires Inv(limits, m) && m.threads.opener.Opening?
    ensures Inv(limits, FinishOpening(m, ok))
  {
  }

  lemma {:induction false} KeepsCountFirst(limits: Concurrency, m: Machine)
    requires Inv(limits, m) && m.threads.opener.Opened? && m.threads.unowned > 0
    ensures Inv(limits, CountFirstWorker(m))
  {
  }

  lemma {:induction false} KeepsAskFloor(limits: Concurrency, m: Machine)
    requires Inv(limits, m) && m.threads.opener.Floor? && m.threads.opener.asked + 1 < limits.min
    ensures Inv(limits, AskFloorWorker(m))
  {
  }

  lemma {:induction false} KeepsReturnFloor(limits: Concurrency, m: Machine)
    requires Inv(limits, m) && m.threads.opener.Inside?
    requires m.threads.ordered == m.threads.failed == m.threads.returning == 0
    ensures Inv(limits, ReturnToFloor(m))
  {
  }

  lemma {:induction false} KeepsPublish(limits: Concurrency, m: Machine)
    requires Inv(limits, m) && m.threads.opener.Floor?
    ensures Inv(limits, PublishHandle(m))
  {
  }

  lemma {:induction false} KeepsReport(limits: Concurrency, m: Machine)
    requires Inv(limits, m) && m.threads.opener.Reporting? && m.threads.first > 0
    ensures Inv(limits, ReportOpened(m))
  {
  }

  lemma {:induction false} QueuesOnly(limits: Concurrency, m: Machine, job: nat)
    requires Inv(limits, m) && m.usable && m.pool.Accepts() && !m.pool.QueueJob(Run(job), limits.max).1
    ensures Inv(limits, QueueJob(limits, m, job))
  {
    RunsAppended(m.pool.queue, [Run(job)]);
  }

  lemma {:induction false} QueuesAndGrows(limits: Concurrency, m: Machine, job: nat)
    requires Inv(limits, m) && m.usable && m.pool.Accepts() && m.pool.QueueJob(Run(job), limits.max).1
    ensures Inv(limits, QueueJob(limits, m, job))
  {
    RunsAppended(m.pool.queue, [Run(job)]);
  }

  lemma {:induction false} KeepsDispatch(limits: Concurrency, m: Machine, job: nat)
    requires Inv(limits, m) && m.usable
    ensures Inv(limits, QueueJob(limits, m, job))
  {
    hide Inv;
    if !m.pool.Accepts() {
    } else if m.pool.QueueJob(Run(job), limits.max).1 {
      QueuesAndGrows(limits, m, job);
    } else {
      QueuesOnly(limits, m, job);
    }
  }

  lemma {:induction false} KeepsStart(limits: Concurrency, m: Machine, ok: bool)
    requires Inv(limits, m) && m.threads.ordered > 0
    ensures Inv(limits, StartWorker(m, ok))
  {
    StartCounts(m, ok);
    hide Threads.Pending, Threads.Unstarted, Threads.Idle, Threads.Arrived, Threads.Counted, Threads.Closers;
  }

  lemma {:induction false} StartCounts(m: Machine, ok: bool)
    requires m.threads.ordered > 0
    ensures var ts, ts' := m.threads, StartWorker(m, ok).threads;
            && ts'.Pending() == ts.Pending() && ts'.Unstarted() == ts.Unstarted() - (if ok then 1 else 0)
            && ts'.Idle() == ts.Idle() && ts'.Arrived() == ts.Arrived()
            && ts'.Counted() == ts.Counted() && ts'.Closers() == ts.Closers()
  {
  }

  /** The queue of a close without the stop at its back. */
  lemma {:induction false} LosesStop(queue: seq<Job>, stops: nat)
    requires StopsBehind(queue, stops) && stops > 0
    ensures var rest := queue[..|queue| - 1];
            && queue[|queue| - 1].Stop? && StopsBehind(rest, stops - 1) && Runs(rest) == Runs(queue)
            && (rest != [] ==> rest[0] == queue[0])
  {
    var rest := queue[..|queue| - 1];
    assert forall i | 0 <= i < |rest| :: rest[i] == queue[i];
    assert queue == rest + [Stop];
    RunsAppended(rest, [Stop]);
  }

  lemma {:induction false} GivesBackStop(limits: Concurrency, m: Machine)
    requires Inv(limits, m) && m.threads.failed > 0 && m.shutdown.Some?
    ensures Inv(limits, GiveBackCount(m))
  {
    BackCounts(m);
    LosesStop(m.pool.queue, m.threads.Counted());
    hide Threads.Pending, Threads.Unstarted, Threads.Idle, Threads.Arrived, Threads.Counted, Threads.Closers;
    hide StopsBehind, Runs;
  }

  lemma {:induction false} BackCounts(m: Machine)
    requires m.threads.failed > 0
    ensures var ts, ts' := m.threads, GiveBackCount(m).threads;
            && ts'.Pending() == ts.Pending() - 1 && ts'.Unstarted() == ts.Unstarted() - 1
            && ts'.Idle() == ts.Idle() && ts'.Arrived() == ts.Arrived()
            && ts'.Counted() == ts.Counted() - 1 && ts'.Closers() == ts.Closers()
    ensures m.threads.Counted() >= m.threads.Pending() >= m.threads.Unstarted() >= m.threads.failed
  {
    hide State.SpawnFailed;
  }

  lemma {:induction false} GivesBackNothing(limits: Concurrency, m: Machine)
    requires Inv(limits, m) && m.threads.failed > 0 && m.shutdown.None?
    ensures Inv(limits, GiveBackCount(m))
  {
  }

  lemma {:induction false} KeepsGiveBack(limits: Concurrency, m: Machine)
    requires Inv(limits, m) && m.threads.failed > 0
    ensures Inv(limits, GiveBackCount(m))
  {
    hide Inv;
    if m.shutdown.Some? {
      GivesBackStop(limits, m);
    } else {
      GivesBackNothing(limits, m);
    }
  }

  lemma {:induction false} KeepsReturn(limits: Concurrency, m: Machine)
    requires Inv(limits, m) && m.threads.returning > 0
    ensures Inv(limits, ReturnToCaller(m))
  {
  }

  lemma {:induction false} KeepsArrive(limits: Concurrency, m: Machine)
    requires Inv(limits, m) && m.threads.starting > 0
    ensures Inv(limits, ArriveAtQueue(m))
  {
  }

  /** The worker in hand at the head of the wait loop. */
  lemma {:induction false} TakesJobStructure(limits: Concurrency, m: Machine, i: nat)
    requires Inv(limits, m) && i < |m.threads.woken| && m.pool.queue != [] && m.pool.queue[0].Run?
    ensures Structure(limits, Look(limits, TakeLock(m, i), m.threads.woken[i]))
  {
  }

  lemma {:induction false} TakesJobPromises(limits: Concurrency, m: Machine, i: nat)
    requires Inv(limits, m) && i < |m.threads.woken| && m.pool.queue != [] && m.pool.queue[0].Run?
    ensures Promises(limits, Look(limits, TakeLock(m, i), m.threads.woken[i]))
  {
  }

  lemma {:induction false} TakesJob(limits: Concurrency, m: Machine, i: nat)
    requires Inv(limits, m) && i < |m.threads.woken| && m.pool.queue != [] && m.pool.queue[0].Run?
    ensures Inv(limits, Look(limits, TakeLock(m, i), m.threads.woken[i]))
  {
    TakesJobStructure(limits, m, i);
    TakesJobPromises(limits, m, i);
  }

  lemma {:induction false} TakesStopStructure(limits: Concurrency, m: Machine, i: nat)
    requires Inv(limits, m) && i < |m.threads.woken| && m.pool.queue != [] && m.pool.queue[0].Stop?
    ensures Structure(limits, Look(limits, TakeLock(m, i), m.threads.woken[i]))
  {
  }

  lemma {:induction false} TakesStopPromises(limits: Concurrency, m: Machine, i: nat)
    requires Inv(limits, m) && i < |m.threads.woken| && m.pool.queue != [] && m.pool.queue[0].Stop?
    ensures Promises(limits, Look(limits, TakeLock(m, i), m.threads.woken[i]))
  {
  }

  lemma {:induction false} TakesStop(limits: Concurrency, m: Machine, i: nat)
    requires Inv(limits, m) && i < |m.threads.woken| && m.pool.queue != [] && m.pool.queue[0].Stop?
    ensures Inv(limits, Look(limits, TakeLock(m, i), m.threads.woken[i]))
  {
    TakesStopStructure(limits, m, i);
    TakesStopPromises(limits, m, i);
  }

  lemma {:induction false} Leaves(limits: Concurrency, m: Machine, i: nat)
    requires Inv(limits, m) && i < |m.threads.woken| && m.pool.queue == []
    requires m.pool.phase == Abandoned || m.pool.Sparable(limits.min)
    ensures Inv(limits, TakeLock(m, i).(pool := m.pool.Retired()))
  {
  }

  lemma {:induction false} SleepCounts(ts: Threads, i: nat, since: Option<nat>)
    requires i < |ts.woken|
    ensures var ts' := FallAsleep(ts.(woken := Without(ts.woken, i)), since);
            && ts'.Pending() == ts.Pending()
            && ts'.Unstarted() == ts.Unstarted()
            && ts'.Idle() == ts.Idle()
            && ts'.Arrived() == ts.Arrived()
            && ts'.Closers() == ts.Closers()
  {
  }

  /** Nobody goes to sleep while a close is under way, because a stop is waiting for everyone. */
  lemma {:induction false} GoesToSleep(limits: Concurrency, m: Machine, i: nat, since: Option<nat>)
    requires Inv(limits, m) && i < |m.threads.woken| && m.pool.queue == [] && m.pool.phase != Abandoned
    requires since.None? ==> limits.idleTimeout.None? || !m.pool.Sparable(limits.min)
    requires since.Some? ==> limits.idleTimeout.Some? && since.value <= m.now
    ensures Inv(limits, m.(threads := FallAsleep(TakeLock(m, i).threads, since)))
  {
    hide Threads.Pending, Threads.Closers, Threads.Unstarted;
    SleepCounts(m.threads, i, since);
    assert m.pool.phase == Open;
  }

  lemma {:induction false} KeepsLookAgain(limits: Concurrency, m: Machine, i: nat)
    requires Inv(limits, m) && i < |m.threads.woken|
    ensures Inv(limits, Look(limits, TakeLock(m, i), m.threads.woken[i]))
  {
    if m.pool.queue == [] {
      var outcome := m.pool.Turn(limits, m.threads.woken[i], m.now).1;
      if outcome.Left? {
        Leaves(limits, m, i);
      } else {
        GoesToSleep(limits, m, i, outcome.since);
      }
    } else if m.pool.queue[0].Run? {
      TakesJob(limits, m, i);
    } else {
      TakesStop(limits, m, i);
    }
  }

  /** Counted as waiting, as if just woken with nothing noted. */
  function Counted(m: Machine, newly: bool): Machine
    requires if newly then m.threads.newly > 0 else m.threads.ready > 0
  {
    var m' := BeginWaiting(m, newly);
    m'.(threads := m'.threads.(woken := m'.threads.woken + [None]))
  }

  lemma {:induction false} KeepsCountedStructure(limits: Concurrency, m: Machine, newly: bool)
    requires Inv(limits, m) && if newly then m.threads.newly > 0 else m.threads.ready > 0
    ensures Structure(limits, Counted(m, newly))
  {
  }

  lemma {:induction false} KeepsCountedPromises(limits: Concurrency, m: Machine, newly: bool)
    requires Inv(limits, m) && if newly then m.threads.newly > 0 else m.threads.ready > 0
    ensures Promises(limits, Counted(m, newly))
  {
  }

  lemma {:induction false} KeepsCounted(limits: Concurrency, m: Machine, newly: bool)
    requires Inv(limits, m) && if newly then m.threads.newly > 0 else m.threads.ready > 0
    ensures Inv(limits, Counted(m, newly))
  {
    KeepsCountedStructure(limits, m, newly);
    KeepsCountedPromises(limits, m, newly);
  }

  lemma {:induction false} KeepsFirstLook(limits: Concurrency, m: Machine, newly: bool)
    requires Inv(limits, m) && if newly then m.threads.newly > 0 else m.threads.ready > 0
    ensures Inv(limits, Look(limits, BeginWaiting(m, newly), None))
  {
    KeepsCounted(limits, m, newly);
    KeepsLookAgain(limits, Counted(m, newly), |m.threads.woken|);
    assert Without(m.threads.woken + [None], |m.threads.woken|) == m.threads.woken;
    assert TakeLock(Counted(m, newly), |m.threads.woken|) == BeginWaiting(m, newly);
  }

  /** After a wake there is a woken worker to spare over what is queued. */
  lemma {:induction false} KeepsWake(limits: Concurrency, m: Machine, sleeper: Option<nat>)
    requires Inv(limits, m) && Sleeps(m.threads, sleeper)
    ensures Inv(limits, m.(threads := Rouse(m.threads, sleeper)))
    ensures AwakeToSpare(m.(threads := Rouse(m.threads, sleeper)))
  {
    RouseCounts(m.threads, sleeper);
    RouseTimers(limits, m, sleeper);
    hide Threads.Pending, Threads.Unstarted, Threads.Idle, Threads.Arrived, Threads.Counted, Threads.Closers;
    hide Timers, StopsBehind, Runs, Without;
  }

  lemma {:induction false} RouseTimers(limits: Concurrency, m: Machine, sleeper: Option<nat>)
    requires Timers(limits, m) && Sleeps(m.threads, sleeper)
    ensures Timers(limits, m.(threads := Rouse(m.threads, sleeper)))
  {
  }

  lemma {:induction false} RouseCounts(ts: Threads, sleeper: Option<nat>)
    requires Sleeps(ts, sleeper)
    ensures var ts' := Rouse(ts, sleeper);
            && ts'.Pending() == ts.Pending() && ts'.Unstarted() == ts.Unstarted()
            && ts'.Idle() == ts.Idle() && ts'.Arrived() == ts.Arrived()
            && ts'.Counted() == ts.Counted() && ts'.Closers() == ts.Closers()
  {
  }

  predicate AwakeToSpare(m: Machine) {
    var ts := m.threads;
    ts.Asleep() > 0 && ts.owingAll == 0 ==> |m.pool.queue| < |ts.woken| + ts.owing + ts.owingSpawn
  }

  lemma {:induction false} KeepsNotified(limits: Concurrency, m: Machine, spawn: bool)
    requires Inv(limits, m) && if spawn then m.threads.owingSpawn > 0 else m.threads.owing > 0
    requires AwakeToSpare(m)
    ensures Inv(limits, Notified(m, spawn))
  {
  }

  lemma {:induction false} KeepsNotifyOne(limits: Concurrency, m: Machine, spawn: bool, sleeper: Option<nat>)
    requires Inv(limits, m) && Enabled(limits, m, NotifyOne(spawn, sleeper))
    ensures Inv(limits, NotifyOneWorker(m, spawn, sleeper))
  {
    hide Inv;
    if m.threads.Asleep() > 0 {
      KeepsWake(limits, m, sleeper);
      KeepsNotified(limits, m.(threads := Rouse(m.threads, sleeper)), spawn);
    } else {
      KeepsNotified(limits, m, spawn);
    }
  }

  lemma {:induction false} KeepsFinishJob(limits: Concurrency, m: Machine)
    requires Inv(limits, m) && m.threads.serving > 0
    ensures Inv(limits, FinishOne(m))
  {
  }

  lemma {:induction false} KeepsBeginClose(limits: Concurrency, m: Machine)
    requires Inv(limits, m) && m.usable
    ensures Inv(limits, CloseIfOpen(m))
  {
    if m.pool.Closable() {
      RunsAppended(m.pool.queue, Stops(m.pool.alive));
      NoRunsInStops(Stops(m.pool.alive));
    }
  }

  lemma {:induction false} KeepsAbandon(limits: Concurrency, m: Machine)
    requires Inv(limits, m)
    ensures Inv(limits, AbandonPool(m))
  {
  }

  lemma {:induction false} KeepsNotifyAll(limits: Concurrency, m: Machine)
    requires Inv(limits, m) && m.threads.owingAll > 0
    ensures Inv(limits, NotifyAllWorkers(m))
  {
  }

  lemma {:induction false} KeepsDeposit(limits: Concurrency, m: Machine)
    requires Inv(limits, m) && m.threads.depositing > 0 && m.shutdown.Some?
    ensures Inv(limits, DepositHandle(m))
  {
  }

  lemma {:induction false} KeepsCountOut(limits: Concurrency, m: Machine)
    requires Inv(limits, m) && m.threads.counting > 0 && m.shutdown.Some?
    ensures Inv(limits, CountDown(m))
  {
  }

  lemma {:induction false} KeepsDrain(limits: Concurrency, m: Machine)
    requires Inv(limits, m) && m.threads.draining > 0 && m.shutdown.Some?
    ensures Inv(limits, DrainVault(m))
  {
  }

  lemma {:induction false} KeepsUnwrap(limits: Concurrency, m: Machine)
    requires Inv(limits, m) && m.threads.unwrapping > 0
    ensures Inv(limits, OwnAndClose(m))
  {
  }

  lemma {:induction false} KeepsReply(limits: Concurrency, m: Machine, closed: bool)
    requires Inv(limits, m) && if closed then m.threads.replyingClosed > 0 else m.threads.replyingRefused > 0
    ensures Inv(limits, SendReply(m, closed))
  {
  }

  lemma {:induction false} KeepsPass(limits: Concurrency, m: Machine, time: nat)
    requires Inv(limits, m)
    ensures Inv(limits, m.(now := m.now + time))
  {
  }
}
