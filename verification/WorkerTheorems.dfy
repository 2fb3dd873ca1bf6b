/** What the async worker pool promises, over every run. */
module WorkerTheorems {
  import opened Options
  import opened Lists
  import opened Rendezvous
  import opened WorkerState
  import opened WorkerMachine
  import opened WorkerProof

  lemma {:induction false} Kept(limits: Concurrency, m: Machine, step: Step)
    requires Inv(limits, m) && Enabled(limits, m, step)
    ensures Inv(limits, Apply(limits, m, step))
  {
    hide Inv, Look, BeginWaiting, TakeLock, QueueJob, NotifyOneWorker, Rouse, StartWorker, GiveBackCount, CloseIfOpen,
         AbandonPool, NotifyAllWorkers, DepositHandle, CountDown, DrainVault, OwnAndClose, SendReply, FinishOne,
         ArriveAtQueue, ReturnToCaller, ReportOpened, PublishHandle, ReturnToFloor, AskFloorWorker, CountFirstWorker,
         FinishOpening;
    match step
    case FinishOpen(ok) => KeepsFinishOpening(limits, m, ok);
    case CountFirst => KeepsCountFirst(limits, m);
    case AskFloor => KeepsAskFloor(limits, m);
    case ResumeFloor => KeepsReturnFloor(limits, m);
    case Publish => KeepsPublish(limits, m);
    case Report => KeepsReport(limits, m);
    case Dispatch(job) => KeepsDispatch(limits, m, job);
    case NotifyOne(spawn, sleeper) => KeepsNotifyOne(limits, m, spawn, sleeper);
    case StartThread(ok) => KeepsStart(limits, m, ok);
    case GiveBack => KeepsGiveBack(limits, m);
    case ReturnFrame => KeepsReturn(limits, m);
    case Arrive => KeepsArrive(limits, m);
    case FirstLook(newly) => KeepsFirstLook(limits, m, newly);
    case Wake(sleeper) => KeepsWake(limits, m, sleeper);
    case LookAgain(i) => KeepsLookAgain(limits, m, i);
    case FinishJob => KeepsFinishJob(limits, m);
    case BeginClose => KeepsBeginClose(limits, m);
    case Abandon => KeepsAbandon(limits, m);
    case NotifyAll => KeepsNotifyAll(limits, m);
    case Deposit => KeepsDeposit(limits, m);
    case CountOut => KeepsCountOut(limits, m);
    case Drain => KeepsDrain(limits, m);
    case Unwrap => KeepsUnwrap(limits, m);
    case Reply(closed) => KeepsReply(limits, m, closed);
    case Pass(time) => KeepsPass(limits, m, time);
  }

  lemma {:induction false} Always(limits: Concurrency, m: Machine, steps: seq<Step>)
    requires Inv(limits, m)
    ensures Inv(limits, Execute(limits, m, steps))
    decreases |steps|
  {
    if steps != [] {
      if Enabled(limits, m, steps[0]) {
        Kept(limits, m, steps[0]);
        Always(limits, Apply(limits, m, steps[0]), steps[1..]);
      } else {
        Always(limits, m, steps[1..]);
      }
    }
  }

  /** The state a run of the pool ends in. */
  function After(limits: Concurrency, steps: seq<Step>): Machine {
    Execute(limits, INIT, steps)
  }

  /** Nothing has happened: no worker, no job, no close. */
  predicate Blank(m: Machine) {
    && m.pool == EMPTY && !m.usable && m.shutdown.None? && m.log == Log(0, [], [], [], 0, 0)
    && m.threads.opener == Opening && m.threads.unowned == m.threads.first == 0
    && m.threads.timed == [] && m.threads.woken == []
    && m.threads.failed == m.threads.depositing == m.threads.counting == 0
  }

  lemma {:induction false} BlankAtFirst()
    ensures Blank(INIT)
  {
  }

  lemma {:induction false} NobodyPending()
    ensures INIT.threads.Pending() == 0
  {
  }

  lemma {:induction false} NobodyArrived()
    ensures INIT.threads.Arrived() == 0
  {
  }

  lemma {:induction false} NobodyCounted()
    ensures INIT.threads.Counted() == 0
  {
    hide Threads.Pending, Threads.Arrived;
    NobodyPending();
    NobodyArrived();
  }

  lemma {:induction false} NobodyCloses()
    ensures INIT.threads.Closers() == 0
  {
  }

  lemma {:induction false} Starts(limits: Concurrency, m: Machine)
    requires limits.Valid() && Blank(m) && m.threads.Counted() == 0 && m.threads.Closers() == 0
    ensures Inv(limits, m)
  {
  }

  lemma {:induction false} Holds(limits: Concurrency, steps: seq<Step>)
    requires limits.Valid()
    ensures Inv(limits, After(limits, steps))
  {
    hide Inv, Blank, Threads.Counted, Threads.Closers;
    BlankAtFirst();
    NobodyCounted();
    NobodyCloses();
    Starts(limits, INIT);
    Always(limits, INIT, steps);
  }

  // ---- the close rendezvous

  /** Until the close is answered: jobs first and stops behind them, one for each counted worker
      that has not taken one; the countdown is those workers and the retires under way; and a
      start that failed finds a stop at the back to answer. */
  lemma {:induction false} CloseInProgress(limits: Concurrency, steps: seq<Step>)
    requires limits.Valid()
    ensures var m := After(limits, steps);
            m.pool.phase == Closing ==>
              && m.shutdown.Some?
              && StopsBehind(m.pool.queue, m.threads.Counted())
              && m.shutdown.value.remaining == m.threads.Counted() + m.threads.depositing + m.threads.counting
              && (m.threads.failed > 0 ==> m.pool.SpawnFailed().1)
  {
    Holds(limits, steps);
  }

  /** The engine is closed at most once and the caller answered at most once, and only after
      every worker counted has deposited its handle and been counted out, every job accepted has
      been taken, in order, and every job taken has finished. */
  lemma {:induction false} ClosedOnceAndLast(limits: Concurrency, steps: seq<Step>)
    requires limits.Valid()
    ensures var m := After(limits, steps);
            && |m.log.replies| <= m.log.attempts <= 1
            && (m.threads.Closers() + |m.log.replies| > 0 ==>
                  && m.shutdown.Some? && m.shutdown.value.remaining == 0
                  && m.threads.Closers() + |m.log.replies| == 1
                  && m.threads.Counted() == m.threads.depositing == m.threads.counting == 0
                  && m.threads.serving == 0
                  && m.pool.queue == []
                  && m.log.taken == m.log.accepted
                  && m.log.finished == |m.log.accepted|)
  {
    Holds(limits, steps);
    var m := After(limits, steps);
    if m.threads.Closers() + |m.log.replies| > 0 {
      assert m.threads.Counted() == 0;
      assert m.pool.queue == [];
    }
  }

  // ---- who holds the engine

  /** When the countdown ends the vault holds a handle for every worker that was counted, the
      pool's own is gone, and the only other references are those of `start_worker` calls that
      have not returned. */
  lemma {:induction false} VaultComplete(limits: Concurrency, steps: seq<Step>)
    requires limits.Valid()
    ensures var m := After(limits, steps);
            m.threads.draining > 0 ==>
              && m.shutdown.Some? && m.shutdown.value.vault == m.shutdown.value.workers
              && !m.pool.client
              && m.References() == m.shutdown.value.vault + m.threads.returning
  {
    Holds(limits, steps);
    hide Threads.Handles, Inv, Execute;
    HandlesSplit(After(limits, steps).threads);
    CountdownOver(limits, After(limits, steps));
  }

  lemma {:induction false} HandlesSplit(ts: Threads)
    ensures ts.Handles() == ts.unowned + ts.Counted() + ts.returning + ts.depositing + ts.unwrapping
  {
  }

  lemma {:induction false} CountdownOver(limits: Concurrency, m: Machine)
    requires Inv(limits, m)
    ensures m.threads.Closers() + |m.log.replies| > 0 ==>
              && m.shutdown.Some? && m.threads.Closers() + |m.log.replies| == 1
              && m.threads.Counted() == m.threads.depositing == m.threads.unowned == 0 && !m.pool.client
              && m.shutdown.value.vault == if m.threads.draining > 0 then m.shutdown.value.workers else 0
    ensures m.threads.draining + m.threads.unwrapping + m.threads.Replying() == m.threads.Closers()
  {
  }

  /** The engine is closed, and the caller sent what the close said, exactly when no
      `start_worker` call is still to return as the last handle is unwrapped; otherwise the caller
      is sent an error for an engine that is about to close behind that call. */
  lemma {:induction false} EngineAnswersIff(limits: Concurrency, steps: seq<Step>)
    requires limits.Valid()
    ensures var m := After(limits, steps);
            Enabled(limits, m, Unwrap) ==>
              var m' := Apply(limits, m, Unwrap);
              && (m'.threads.replyingClosed == 1 <==> m.threads.returning == 0)
              && (m'.threads.replyingRefused == 1 <==> m.threads.returning > 0)
  {
    Holds(limits, steps);
    hide Threads.Handles, Inv, Execute;
    HandlesSplit(After(limits, steps).threads);
    CountdownOver(limits, After(limits, steps));
  }

  /** Once the caller is answered nothing but an unreturned `start_worker` call holds the engine. */
  lemma {:induction false} EngineLetGo(limits: Concurrency, steps: seq<Step>)
    requires limits.Valid()
    ensures var m := After(limits, steps);
            && (m.log.replies != [] ==> m.References() == m.threads.returning)
            && (m.pool.phase == Abandoned && m.threads.opener == Served && m.threads.Counted() == 0 ==>
                  m.References() == m.threads.returning)
  {
    Holds(limits, steps);
    hide Threads.Handles, Inv, Execute;
    HandlesSplit(After(limits, steps).threads);
    CountdownOver(limits, After(limits, steps));
    AbandonedHandles(limits, After(limits, steps));
  }

  lemma {:induction false} AbandonedHandles(limits: Concurrency, m: Machine)
    requires Inv(limits, m)
    ensures m.pool.phase == Abandoned ==>
              m.shutdown.None? && !m.pool.client && m.threads.depositing == m.threads.unwrapping == 0
    ensures m.threads.opener == Served ==> m.threads.unowned == 0
  {
  }

  // ---- the jobs

  /** Every job accepted is taken exactly once and in the order it was accepted: those taken, then
      those queued, are those accepted. A pool abandoned, even while it opens, runs what it holds
      before its last worker leaves. A pool closing or abandoned refuses every further job. */
  lemma {:induction false} JobsInOrder(limits: Concurrency, steps: seq<Step>, job: nat)
    requires limits.Valid()
    ensures var m := After(limits, steps);
            && m.log.accepted == m.log.taken + Runs(m.pool.queue)
            && m.log.finished + m.threads.serving == |m.log.taken|
            && (m.pool.phase == Abandoned && m.threads.Counted() == m.threads.Unstarted() ==>
                  m.log.taken == m.log.accepted && m.threads.serving == 0)
            && (m.usable && m.pool.phase != Open ==> Apply(limits, m, Dispatch(job)) == m)
  {
    Holds(limits, steps);
    var m := After(limits, steps);
    if m.pool.phase == Abandoned && m.threads.Counted() == m.threads.Unstarted() {
      assert m.pool.queue == [];
    }
  }

  // ---- how many workers

  lemma {:induction false} GrowthFollowsDemand(limits: Concurrency, steps: seq<Step>)
    requires limits.Valid()
    ensures var m := After(limits, steps);
            && m.threads.Counted() <= m.pool.alive <= limits.max
            && (m.log.failedStarts == 0 && m.pool.phase == Open && m.pool.client ==>
                  || m.pool.alive == limits.max
                  || |m.pool.queue| <= m.pool.idle + m.pool.pending + m.threads.newly)
  {
    Holds(limits, steps);
  }

  /** Whatever starts fail: an open pool with its handle published has a counted worker with a
      thread of its own, and of the workers asleep at most the floor have no deadline. */
  lemma {:induction false} FloorKept(limits: Concurrency, steps: seq<Step>)
    requires limits.Valid()
    ensures var m := After(limits, steps);
            && (m.pool.phase == Open && m.pool.client ==> m.threads.Counted() > m.threads.Unstarted())
            && m.threads.untimed <= limits.min
            && m.threads.Asleep() - limits.min <= |m.threads.timed|
  {
    Holds(limits, steps);
  }

  /** Retiring for idleness never takes the workers that have arrived below the floor. */
  lemma {:induction false} RetiringKeepsFloor(limits: Concurrency, steps: seq<Step>, step: Step)
    requires limits.Valid()
    ensures var m := After(limits, steps);
            Enabled(limits, m, step) && m.pool.phase == Open ==>
              var m' := Apply(limits, m, step);
              m'.threads.Arrived() >= m.threads.Arrived() || m'.threads.Arrived() >= limits.min
  {
    Holds(limits, steps);
    var m := After(limits, steps);
    if Enabled(limits, m, step) && m.pool.phase == Open {
      RetiringAt(limits, m, step);
    }
  }

  lemma {:induction false} RetiringAt(limits: Concurrency, m: Machine, step: Step)
    requires Inv(limits, m) && Enabled(limits, m, step) && m.pool.phase == Open
    ensures var m' := Apply(limits, m, step);
            m'.threads.Arrived() >= m.threads.Arrived() || m'.threads.Arrived() >= limits.min
  {
    hide Look, Threads.Arrived;
    match step
    case FirstLook(newly) => LooksFirst(limits, m, newly);
    case LookAgain(i) => LooksAgain(limits, m, i);
    case _ => NobodyLeaves(limits, m, step);
  }

  lemma {:induction false} NobodyLeaves(limits: Concurrency, m: Machine, step: Step)
    requires Enabled(limits, m, step) && !step.FirstLook? && !step.LookAgain?
    ensures Apply(limits, m, step).threads.Arrived() >= m.threads.Arrived()
  {
  }

  lemma {:induction false} LooksAgain(limits: Concurrency, m: Machine, i: nat)
    requires Counts(limits, m) && StopsBehind(m.pool.queue, 0) && i < |m.threads.woken| && m.pool.phase == Open
    ensures var m' := Look(limits, TakeLock(m, i), m.threads.woken[i]);
            m'.threads.Arrived() >= m.threads.Arrived() || m'.threads.Arrived() >= limits.min
  {
  }

  lemma {:induction false} LooksFirst(limits: Concurrency, m: Machine, newly: bool)
    requires Counts(limits, m) && StopsBehind(m.pool.queue, 0) && m.pool.phase == Open
    requires if newly then m.threads.newly > 0 else m.threads.ready > 0
    ensures var m' := Look(limits, BeginWaiting(m, newly), None);
            m'.threads.Arrived() >= m.threads.Arrived() || m'.threads.Arrived() >= limits.min
  {
    hide Look;
    var m' := Counted(m, newly);
    LooksAgain(limits, m', |m.threads.woken|);
    assert Without(m.threads.woken + [None], |m.threads.woken|) == m.threads.woken;
    assert TakeLock(m', |m.threads.woken|) == BeginWaiting(m, newly);
  }
}
