/** Closing and abandoning end: while anything is left to do some thread can move, and no
    schedule of the threads goes on for ever. */
module WorkerProgress {
  import opened Options
  import opened Lists
  import opened Rendezvous
  import opened WorkerState
  import opened WorkerMachine
  import opened WorkerProof
  import opened WorkerTheorems

  /** Steps a thread or call takes of itself, as against callers coming in, time passing, and
      sleepers waking for no reason. */
  predicate OfItself(step: Step) {
    !(step.Dispatch? || step.BeginClose? || step.Abandon? || step.Pass? || step.Wake?)
  }

  /** Somebody is awake. */
  predicate Astir(ts: Threads) {
    || ts.opener != Served
    || ts.owing + ts.owingSpawn + ts.owingAll + ts.ordered + ts.failed + ts.returning > 0
    || ts.starting + ts.newly + ts.ready + |ts.woken| + ts.serving > 0
    || ts.depositing + ts.counting + ts.Closers() > 0
  }

  lemma {:induction false} AstirCanMove(limits: Concurrency, m: Machine)
    requires Inv(limits, m) && Astir(m.threads)
    ensures exists step :: OfItself(step) && Enabled(limits, m, step)
  {
    var ts := m.threads;
    var step :=
      if ts.ordered > 0 then StartThread(true)
      else if ts.failed > 0 then GiveBack
      else if ts.returning > 0 then ReturnFrame
      else if ts.opener.Opening? then FinishOpen(true)
      else if ts.opener.Opened? then CountFirst
      else if ts.opener.Floor? then (if ts.opener.asked + 1 < limits.min then AskFloor else Publish)
      else if ts.opener.Inside? then ResumeFloor
      else if ts.opener.Reporting? then Report
      else if ts.owingAll > 0 then NotifyAll
      else if ts.owing > 0 then NotifyOne(false, if ts.untimed > 0 then None else Some(0))
      else if ts.owingSpawn > 0 then NotifyOne(true, if ts.untimed > 0 then None else Some(0))
      else if ts.starting > 0 then Arrive
      else if ts.newly > 0 then FirstLook(true)
      else if ts.ready > 0 then FirstLook(false)
      else if |ts.woken| > 0 then LookAgain(0)
      else if ts.serving > 0 then FinishJob
      else if ts.depositing > 0 then Deposit
      else if ts.counting > 0 then CountOut
      else if ts.draining > 0 then Drain
      else if ts.unwrapping > 0 then Unwrap
      else Reply(ts.replyingClosed > 0);
    assert OfItself(step) && Enabled(limits, m, step);
  }

  /** Work left to do: a job queued, a close unanswered, or workers still to leave an abandoned
      pool. */
  predicate Unfinished(m: Machine) {
    || m.pool.queue != []
    || (m.pool.phase == Closing && m.log.replies == [])
    || (m.pool.phase == Abandoned && m.threads.Counted() > 0)
  }

  lemma {:induction false} UnfinishedIsAstir(limits: Concurrency, m: Machine)
    requires Inv(limits, m) && Unfinished(m)
    ensures Astir(m.threads)
  {
  }

  /** No deadlock and no lost wakeup: in every reachable state with work left to do, a thread that
      needs no waking has a step to take. */
  lemma {:induction false} NeverStuck(limits: Concurrency, steps: seq<Step>)
    requires limits.Valid()
    ensures var m := After(limits, steps);
            Unfinished(m) ==> exists step :: OfItself(step) && Enabled(limits, m, step)
  {
    Holds(limits, steps);
    hide Inv, Execute;
    var m := After(limits, steps);
    if Unfinished(m) {
      UnfinishedIsAstir(limits, m);
      AstirCanMove(limits, m);
    }
  }

  /** What the opening thread still has to do. */
  function OpenerWork(opener: Opener, min: nat): int {
    match opener
    case Opening => 12 * min + 14
    case Opened => 12 * min + 13
    case Floor(asked) => 12 * (min - asked) + 12
    case Inside(asked) => 12 * (min - asked) + 1
    case Reporting => 9
    case Served => 0
  }

  /** What every thread and call still has to do. */
  function ThreadWork(ts: Threads): nat {
    10 * ts.owingSpawn + ts.owing + ts.owingAll + 9 * ts.ordered + 6 * ts.failed + ts.returning
    + 7 * ts.starting + 6 * ts.newly + 6 * ts.ready + 7 * ts.untimed + 7 * |ts.timed| + 6 * |ts.woken| + 7 * ts.serving
    + 5 * ts.depositing + 4 * ts.counting + 3 * ts.draining + 2 * ts.unwrapping + ts.replyingClosed + ts.replyingRefused
  }

  /** Everything left to do once no more is taken on. Each job queued still has to be run. */
  function Work(limits: Concurrency, m: Machine): int {
    OpenerWork(m.threads.opener, limits.min) + ThreadWork(m.threads) + 2 * |Runs(m.pool.queue)|
  }

  /** A step taken of itself, or a sleeper woken. */
  predicate Thread(step: Step) { OfItself(step) || step.Wake? }

  lemma {:induction false} LookWorks(limits: Concurrency, m: Machine, i: nat)
    requires Inv(limits, m) && i < |m.threads.woken| && m.pool.phase != Open
    ensures Work(limits, Look(limits, TakeLock(m, i), m.threads.woken[i])) < Work(limits, m)
  {
  }

  lemma {:induction false} FirstLookWorks(limits: Concurrency, m: Machine, newly: bool)
    requires Inv(limits, m) && (if newly then m.threads.newly > 0 else m.threads.ready > 0) && m.pool.phase != Open
    ensures Work(limits, Look(limits, BeginWaiting(m, newly), None)) < Work(limits, m)
  {
    hide Look, Inv;
    var m' := Counted(m, newly);
    KeepsCounted(limits, m, newly);
    LookWorks(limits, m', |m.threads.woken|);
    assert Without(m.threads.woken + [None], |m.threads.woken|) == m.threads.woken;
    assert TakeLock(m', |m.threads.woken|) == BeginWaiting(m, newly);
  }

  lemma {:induction false} GiveBackWorks(limits: Concurrency, m: Machine)
    requires Inv(limits, m) && m.threads.failed > 0
    ensures Work(limits, GiveBackCount(m)) < Work(limits, m)
  {
    var queue := m.pool.queue;
    if m.shutdown.Some? {
      assert queue == queue[..|queue| - 1] + [Stop];
      RunsAppended(queue[..|queue| - 1], [Stop]);
    }
  }

  lemma {:induction false} OpeningWorks(limits: Concurrency, m: Machine, step: Step)
    requires Inv(limits, m) && Enabled(limits, m, step)
    requires || step.FinishOpen? || step.CountFirst? || step.AskFloor? || step.ResumeFloor? || step.Publish?
             || step.Report?
    ensures Work(limits, Apply(limits, m, step)) < Work(limits, m)
  {
    hide Counts, Countdown, History, Promises, Runs, Threads.Counted, ThreadWork;
    match step {
      case AskFloor => AskWorks(m);
      case Report => ReportWorks(m);
      case FinishOpen(ok) => OwnsWork(m, ok);
      case CountFirst => OwnedWork(m);
      case ResumeFloor => SameWork(m.threads, ReturnToFloor(m).threads);
      case Publish => SameWork(m.threads, PublishHandle(m).threads);
    }
  }

  lemma {:induction false} AskWorks(m: Machine)
    requires m.threads.opener.Floor?
    ensures ThreadWork(AskFloorWorker(m).threads) == ThreadWork(m.threads) + 9
  {
  }

  lemma {:induction false} ReportWorks(m: Machine)
    requires m.threads.first > 0
    ensures ThreadWork(ReportOpened(m).threads) == ThreadWork(m.threads) + 7
  {
  }

  lemma {:induction false} OwnsWork(m: Machine, ok: bool)
    ensures ThreadWork(FinishOpening(m, ok).threads) == ThreadWork(m.threads)
  {
  }

  lemma {:induction false} OwnedWork(m: Machine)
    requires m.threads.unowned > 0
    ensures ThreadWork(CountFirstWorker(m).threads) == ThreadWork(m.threads)
  {
  }

  lemma {:induction false} SameWork(ts: Threads, ts': Threads)
    requires ts' == ts.(opener := ts'.opener)
    ensures ThreadWork(ts') == ThreadWork(ts)
  {
  }

  lemma {:induction false} DepositWorks(m: Machine)
    requires m.threads.depositing > 0 && m.shutdown.Some?
    ensures ThreadWork(DepositHandle(m).threads) < ThreadWork(m.threads)
  {
  }

  lemma {:induction false} CountOutWorks(m: Machine)
    requires m.threads.counting > 0 && m.shutdown.Some?
    ensures ThreadWork(CountDown(m).threads) < ThreadWork(m.threads)
  {
  }

  lemma {:induction false} DrainWorks(m: Machine)
    requires m.threads.draining > 0 && m.shutdown.Some?
    ensures ThreadWork(DrainVault(m).threads) < ThreadWork(m.threads)
  {
  }

  lemma {:induction false} CountingWorks(limits: Concurrency, m: Machine, step: Step)
    requires Enabled(limits, m, step)
    requires step.Deposit? || step.CountOut? || step.Drain?
    ensures Work(limits, Apply(limits, m, step)) < Work(limits, m)
  {
    hide ThreadWork, Runs, OpenerWork;
    match step {
      case Deposit => DepositWorks(m);
      case CountOut => CountOutWorks(m);
      case Drain => DrainWorks(m);
    }
  }

  lemma {:induction false} ClosingWorks(limits: Concurrency, m: Machine, step: Step)
    requires Enabled(limits, m, step)
    requires step.Unwrap? || step.Reply?
    ensures Work(limits, Apply(limits, m, step)) < Work(limits, m)
  {
    hide ThreadWork, Runs, OpenerWork, Machine.References;
    match step {
      case Unwrap => UnwrapWorks(m);
      case Reply(closed) => ReplyWorks(m, closed);
    }
  }

  lemma {:induction false} UnwrapWorks(m: Machine)
    requires m.threads.unwrapping > 0
    ensures ThreadWork(OwnAndClose(m).threads) < ThreadWork(m.threads)
  {
    hide Machine.References;
  }

  lemma {:induction false} ReplyWorks(m: Machine, closed: bool)
    requires if closed then m.threads.replyingClosed > 0 else m.threads.replyingRefused > 0
    ensures ThreadWork(SendReply(m, closed).threads) < ThreadWork(m.threads)
  {
  }

  lemma {:induction false} RouseWorks(ts: Threads, sleeper: Option<nat>)
    requires Sleeps(ts, sleeper)
    ensures ThreadWork(Rouse(ts, sleeper)) == ThreadWork(ts) - 1
  {
  }

  lemma {:induction false} NotifiedWorks(m: Machine, spawn: bool)
    requires if spawn then m.threads.owingSpawn > 0 else m.threads.owing > 0
    ensures ThreadWork(Notified(m, spawn).threads) == ThreadWork(m.threads) - 1
  {
  }

  lemma {:induction false} NotifyAllWorks(m: Machine)
    requires m.threads.owingAll > 0
    ensures ThreadWork(NotifyAllWorkers(m).threads) == ThreadWork(m.threads) - 1 - m.threads.Asleep()
  {
  }

  lemma {:induction false} NotifyingWorks(limits: Concurrency, m: Machine, step: Step)
    requires Enabled(limits, m, step)
    requires step.NotifyOne? || step.Wake? || step.NotifyAll?
    ensures Work(limits, Apply(limits, m, step)) < Work(limits, m)
  {
    hide ThreadWork, Runs;
    match step
    case Wake(sleeper) => RouseWorks(m.threads, sleeper);
    case NotifyAll => NotifyAllWorks(m);
    case NotifyOne(spawn, sleeper) =>
      if m.threads.Asleep() > 0 {
        RouseWorks(m.threads, sleeper);
        NotifiedWorks(m.(threads := Rouse(m.threads, sleeper)), spawn);
      } else {
        NotifiedWorks(m, spawn);
      }
  }

  lemma {:induction false} StartingWorks(limits: Concurrency, m: Machine, step: Step)
    requires Enabled(limits, m, step)
    requires step.StartThread? || step.ReturnFrame? || step.Arrive? || step.FinishJob?
    ensures Work(limits, Apply(limits, m, step)) < Work(limits, m)
  {
    hide ThreadWork, Runs, OpenerWork;
    match step {
      case StartThread(ok) => StartWorks(m, ok);
      case ReturnFrame => ReturnWorks(m);
      case Arrive => ArriveWorks(m);
      case FinishJob => FinishWorks(m);
    }
  }

  lemma {:induction false} StartWorks(m: Machine, ok: bool)
    requires m.threads.ordered > 0
    ensures ThreadWork(StartWorker(m, ok).threads) < ThreadWork(m.threads)
  {
  }

  lemma {:induction false} ReturnWorks(m: Machine)
    requires m.threads.returning > 0
    ensures ThreadWork(ReturnToCaller(m).threads) < ThreadWork(m.threads)
  {
  }

  lemma {:induction false} ArriveWorks(m: Machine)
    requires m.threads.starting > 0
    ensures ThreadWork(ArriveAtQueue(m).threads) < ThreadWork(m.threads)
  {
  }

  lemma {:induction false} FinishWorks(m: Machine)
    requires m.threads.serving > 0
    ensures ThreadWork(FinishOne(m).threads) < ThreadWork(m.threads)
  {
  }

  lemma {:induction false} OtherWorks(limits: Concurrency, m: Machine, step: Step)
    requires Inv(limits, m) && Enabled(limits, m, step) && Thread(step)
    requires !step.FirstLook? && !step.LookAgain? && !step.GiveBack?
    ensures Work(limits, Apply(limits, m, step)) < Work(limits, m)
  {
    hide Inv, Work, Apply, Enabled;
    if step.FinishOpen? || step.CountFirst? || step.AskFloor? || step.ResumeFloor? || step.Publish? || step.Report? {
      OpeningWorks(limits, m, step);
    } else if step.Deposit? || step.CountOut? || step.Drain? {
      CountingWorks(limits, m, step);
    } else if step.Unwrap? || step.Reply? {
      ClosingWorks(limits, m, step);
    } else if step.NotifyOne? || step.Wake? || step.NotifyAll? {
      NotifyingWorks(limits, m, step);
    } else {
      StartingWorks(limits, m, step);
    }
  }

  lemma {:induction false} StepWorks(limits: Concurrency, m: Machine, step: Step)
    requires Inv(limits, m) && Enabled(limits, m, step) && Thread(step) && m.pool.phase != Open
    ensures Work(limits, Apply(limits, m, step)) < Work(limits, m)
  {
    hide Inv, Work, Look;
    match step
    case FirstLook(newly) => FirstLookWorks(limits, m, newly);
    case LookAgain(i) => LookWorks(limits, m, i);
    case GiveBack => GiveBackWorks(limits, m);
    case _ => OtherWorks(limits, m, step);
  }

  /** A pool that has stopped taking jobs never takes them again. */
  lemma {:induction false} StaysShut(limits: Concurrency, m: Machine, step: Step)
    requires Enabled(limits, m, step) && m.pool.phase != Open
    ensures Apply(limits, m, step).pool.phase == m.pool.phase
  {
  }

  /** Every step is one a thread takes, and is enabled when it is taken. */
  predicate Taken(limits: Concurrency, m: Machine, steps: seq<Step>)
    decreases |steps|
  {
    steps != [] ==>
      && Thread(steps[0]) && Enabled(limits, m, steps[0])
      && Taken(limits, Apply(limits, m, steps[0]), steps[1..])
  }

  lemma {:induction false} WorkLeft(limits: Concurrency, m: Machine)
    requires Inv(limits, m)
    ensures Work(limits, m) >= 0
  {
  }

  lemma {:induction false} WindsDown(limits: Concurrency, m: Machine, steps: seq<Step>)
    requires Inv(limits, m) && m.pool.phase != Open && Taken(limits, m, steps)
    ensures |steps| <= Work(limits, m) && Execute(limits, m, steps).pool.phase == m.pool.phase
    decreases |steps|
  {
    hide Inv, Work, Apply, Enabled;
    if steps == [] {
      WorkLeft(limits, m);
    } else {
      StepWorks(limits, m, steps[0]);
      StaysShut(limits, m, steps[0]);
      Kept(limits, m, steps[0]);
      WindsDown(limits, Apply(limits, m, steps[0]), steps[1..]);
    }
  }

  /** Nobody is awake: then no work is left, and nothing holds the engine. */
  lemma {:induction false} AtRest(limits: Concurrency, m: Machine)
    requires Inv(limits, m) && m.pool.phase != Open && !Astir(m.threads)
    ensures m.pool.queue == [] && m.log.taken == m.log.accepted && m.log.finished == |m.log.accepted|
    ensures m.threads.Counted() == 0 && m.References() == 0
    ensures m.pool.phase == Closing ==> |m.log.replies| == 1
  {
    CountdownOver(limits, m);
    AbandonedHandles(limits, m);
    HandlesSplit(m.threads);
    if Unfinished(m) {
      UnfinishedIsAstir(limits, m);
    }
    QueueRun(limits, m);
    hide Inv, Threads.Handles, Runs;
    NoRuns();
  }

  lemma {:induction false} NoRuns()
    ensures Runs([]) == []
  {
  }

  lemma {:induction false} QueueRun(limits: Concurrency, m: Machine)
    requires Inv(limits, m)
    ensures m.log.accepted == m.log.taken + Runs(m.pool.queue) && m.log.finished + m.threads.serving == |m.log.taken|
    ensures m.pool.phase == Closing <==> m.shutdown.Some?
    ensures m.shutdown.Some? ==> m.shutdown.value.vault == 0 || m.shutdown.value.remaining > 0 || m.threads.draining > 0
    ensures m.shutdown.Some? ==>
              m.shutdown.value.remaining == m.threads.Counted() + m.threads.depositing + m.threads.counting
  {
  }

  /** However the threads are scheduled from a state where the pool is closing or abandoned, they
      take no more steps than there is work, and when none can take another every job accepted has
      run, every worker has left, nothing holds the engine, and a close has been answered. */
  lemma {:induction false} ShutdownCompletes(limits: Concurrency, before: seq<Step>, steps: seq<Step>)
    requires limits.Valid() && After(limits, before).pool.phase != Open
    requires Taken(limits, After(limits, before), steps)
    ensures |steps| <= Work(limits, After(limits, before))
    ensures var m := Execute(limits, After(limits, before), steps);
            (forall step | OfItself(step) :: !Enabled(limits, m, step)) ==> Finished(m)
  {
    hide Inv, Work, Apply, Enabled, Execute;
    Holds(limits, before);
    Completes(limits, After(limits, before), steps);
  }

  predicate Finished(m: Machine) {
    && m.pool.queue == [] && m.log.taken == m.log.accepted && m.log.finished == |m.log.accepted|
    && m.threads.Counted() == 0 && m.References() == 0
    && (m.pool.phase == Closing ==> |m.log.replies| == 1)
  }

  lemma {:induction false} Completes(limits: Concurrency, m: Machine, steps: seq<Step>)
    requires Inv(limits, m) && m.pool.phase != Open && Taken(limits, m, steps)
    ensures |steps| <= Work(limits, m)
    ensures var m' := Execute(limits, m, steps);
            && m'.pool.phase == m.pool.phase
            && ((forall step | OfItself(step) :: !Enabled(limits, m', step)) ==> Finished(m'))
  {
    hide Inv, Work, Apply, Enabled, Execute;
    WindsDown(limits, m, steps);
    Always(limits, m, steps);
    var m' := Execute(limits, m, steps);
    if forall step | OfItself(step) :: !Enabled(limits, m', step) {
      if Astir(m'.threads) {
        AstirCanMove(limits, m');
      }
      AtRest(limits, m');
    }
  }

  // ---- letting go of a pool, and closing it

  /** A pool that has stopped taking jobs takes none, whatever is done to it. */
  lemma {:induction false} NoMoreJobs(limits: Concurrency, m: Machine, steps: seq<Step>)
    requires m.pool.phase != Open
    ensures var m' := Execute(limits, m, steps);
            m'.pool.phase == m.pool.phase && m'.log.accepted == m.log.accepted
    decreases |steps|
  {
    hide Apply, Enabled;
    if steps != [] {
      if Enabled(limits, m, steps[0]) {
        StaysShut(limits, m, steps[0]);
        NoneAccepted(limits, m, steps[0]);
        NoMoreJobs(limits, Apply(limits, m, steps[0]), steps[1..]);
      } else {
        NoMoreJobs(limits, m, steps[1..]);
      }
    }
  }

  lemma {:induction false} NoneAccepted(limits: Concurrency, m: Machine, step: Step)
    requires Enabled(limits, m, step) && m.pool.phase != Open
    ensures Apply(limits, m, step).log.accepted == m.log.accepted
  {
    hide Machine.References, State.SpawnFailed, State.Turn, Threads.Asleep;
  }

  /** The last handle dropped, in any run: an open pool is abandoned, and any other is left as it
      was; either way it keeps no handle, it keeps what is queued, and it takes no job again. */
  lemma {:induction false} DropAbandons(limits: Concurrency, before: seq<Step>, later: seq<Step>)
    requires limits.Valid()
    ensures var m := After(limits, before);
            Enabled(limits, m, Abandon) &&
            var m' := Apply(limits, m, Abandon);
            && m'.pool.phase == (if m.pool.phase == Open then Abandoned else m.pool.phase)
            && !m'.pool.client && m'.pool.queue == m.pool.queue && m'.log == m.log
            && var last := Execute(limits, m', later);
               last.pool.phase == m'.pool.phase && !last.pool.client && last.log.accepted == m.log.accepted
  {
    Holds(limits, before);
    var m := After(limits, before);
    var m' := Apply(limits, m, Abandon);
    DropsHandle(limits, m);
    Kept(limits, m, Abandon);
    hide Inv, Apply, Enabled, Execute;
    NoMoreJobs(limits, m', later);
    Always(limits, m', later);
    ShutHoldsNothing(limits, Execute(limits, m', later));
  }

  lemma {:induction false} DropsHandle(limits: Concurrency, m: Machine)
    requires Inv(limits, m)
    ensures Enabled(limits, m, Abandon)
    ensures var m' := Apply(limits, m, Abandon);
            && m'.pool.phase == (if m.pool.phase == Open then Abandoned else m.pool.phase)
            && !m'.pool.client && m'.pool.queue == m.pool.queue && m'.log == m.log
  {
  }

  lemma {:induction false} ShutHoldsNothing(limits: Concurrency, m: Machine)
    requires Inv(limits, m) && m.pool.phase != Open
    ensures !m.pool.client
  {
  }

  /** From the drop itself, opening or not: however the threads are scheduled they take no more
      steps than there is work, and when none can take another every job accepted has run and
      nothing at all holds the engine. */
  lemma {:induction false} DropCompletes(limits: Concurrency, before: seq<Step>, steps: seq<Step>)
    requires limits.Valid() && After(limits, before).pool.phase == Open
    requires Taken(limits, AbandonPool(After(limits, before)), steps)
    ensures var start := Apply(limits, After(limits, before), Abandon);
            var m := Execute(limits, start, steps);
            && |steps| <= Work(limits, start) && m.pool.phase == Abandoned
            && m.log.accepted == After(limits, before).log.accepted
            && ((forall step | OfItself(step) :: !Enabled(limits, m, step)) ==>
                  m.log.finished == |m.log.accepted| && m.References() == 0)
  {
    DropAbandons(limits, before, steps);
    Holds(limits, before);
    Kept(limits, After(limits, before), Abandon);
    hide Inv, Work, Execute;
    Completes(limits, Apply(limits, After(limits, before), Abandon), steps);
  }

  /** A close asked for, in any run: of an open pool it begins, with one stop for each counted worker
      behind what is queued and a countdown of as many; of any other it changes nothing. */
  lemma {:induction false} CloseBegins(limits: Concurrency, before: seq<Step>)
    requires limits.Valid()
    ensures var m := After(limits, before);
            Enabled(limits, m, BeginClose) ==>
              var m' := Apply(limits, m, BeginClose);
              if m.pool.phase == Open then
                && m'.pool.phase == Closing && !m'.pool.client && m.threads.Counted() > 0
                && m'.pool.queue == m.pool.queue + Stops(m.threads.Counted())
                && m'.shutdown == Some(Shutdown(m.threads.Counted(), m.threads.Counted(), 0))
              else m' == m
  {
    hide Inv, Execute, Apply, Enabled, Threads.Counted;
    Holds(limits, before);
    var m := After(limits, before);
    if Enabled(limits, m, BeginClose) {
      BeginsAt(limits, m);
    }
  }

  lemma {:induction false} BeginsAt(limits: Concurrency, m: Machine)
    requires Inv(limits, m) && Enabled(limits, m, BeginClose)
    ensures var m' := Apply(limits, m, BeginClose);
            if m.pool.phase == Open then
              && m'.pool.phase == Closing && !m'.pool.client && m.threads.Counted() > 0
              && m'.pool.queue == m.pool.queue + Stops(m.threads.Counted())
              && m'.shutdown == Some(Shutdown(m.threads.Counted(), m.threads.Counted(), 0))
            else m' == m
  {
    hide Countdown, History, Timers, Demand, Wakeups, Threads.Pending, Threads.Arrived;
  }

  /** From the close itself: when no thread can take another step every job accepted has run, nothing
      holds the engine, and the caller has been answered once. */
  lemma {:induction false} CloseCompletes(limits: Concurrency, before: seq<Step>, steps: seq<Step>)
    requires limits.Valid() && After(limits, before).pool.phase == Open && After(limits, before).usable
    requires Taken(limits, CloseIfOpen(After(limits, before)), steps)
    ensures var start := Apply(limits, After(limits, before), BeginClose);
            var m := Execute(limits, start, steps);
            && |steps| <= Work(limits, start)
            && ((forall step | OfItself(step) :: !Enabled(limits, m, step)) ==>
                  m.log.finished == |m.log.accepted| && m.References() == 0 && |m.log.replies| == 1)
  {
    CloseBegins(limits, before);
    Holds(limits, before);
    Kept(limits, After(limits, before), BeginClose);
    hide Inv, Work, Execute;
    Completes(limits, Apply(limits, After(limits, before), BeginClose), steps);
  }
}
