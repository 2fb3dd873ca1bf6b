/** What each worker and caller gets on asking the pool, in every run, said from the threads and the
    clock rather than from the pool's own counts. */
module WorkerDecisions {
  import opened Options
  import opened Lists
  import opened Rendezvous
  import opened WorkerState
  import opened WorkerMachine
  import opened WorkerProof
  import opened WorkerTheorems
  import opened WorkerProgress

  // ---- a worker at the head of the wait loop

  /** More workers have arrived than the floor asks for, and the policy lets any go. */
  predicate ToSpare(limits: Concurrency, m: Machine) {
    limits.idleTimeout.Some? && m.threads.Arrived() > limits.min
  }

  /** Noted as one to spare for as long as the timeout. */
  predicate WaitedOut(limits: Concurrency, m: Machine, note: Option<nat>) {
    limits.idleTimeout.Some? && note.Some? && m.now - note.value >= limits.idleTimeout.value
  }

  /** Asleep again: with a deadline, counted from its earlier note or else from now, exactly if it is
      one to spare, and otherwise without one. */
  predicate SleepsOn(limits: Concurrency, m: Machine, m': Machine, note: Option<nat>) {
    && m'.threads.Arrived() == m.threads.Arrived() && m'.pool.alive == m.pool.alive
    && m'.threads.timed ==
       (if ToSpare(limits, m) then m.threads.timed + [if note.Some? then note.value else m.now] else m.threads.timed)
    && m'.threads.untimed == m.threads.untimed + if ToSpare(limits, m) then 0 else 1
  }

  /** Gone, with its handle. */
  predicate Gone(m: Machine, m': Machine) {
    && m'.threads.Arrived() == m.threads.Arrived() - 1 && m'.pool.alive == m.pool.alive - 1
    && m'.References() == m.References() - 1
    && m'.threads.timed == m.threads.timed && m'.threads.untimed == m.threads.untimed
  }

  /** What a look comes to: the front of the queue; with nothing queued, leaving if the pool is
      abandoned, or open with this worker one to spare that has waited its timeout out; and sleep
      otherwise. */
  predicate LooksRightly(limits: Concurrency, m: Machine, m': Machine, note: Option<nat>) {
    if m.pool.queue != [] then
      && m'.pool.queue == m.pool.queue[1..]
      && (m.pool.queue[0].Run? ==>
            m'.threads.serving == m.threads.serving + 1 && m'.log.taken == m.log.taken + [m.pool.queue[0].id])
      && (m.pool.queue[0].Stop? ==>
            m'.threads.depositing == m.threads.depositing + 1 && m'.log.taken == m.log.taken)
    else
      && m'.pool.queue == []
      && match m.pool.phase
         case Abandoned => Gone(m, m')
         case Open =>
           if ToSpare(limits, m) && WaitedOut(limits, m, note) then Gone(m, m') else SleepsOn(limits, m, m', note)
         case Closing => m'.threads.untimed == m.threads.untimed + 1 && m'.threads.Arrived() == m.threads.Arrived()
  }

  lemma {:induction false} AgainRightly(limits: Concurrency, m: Machine, i: nat)
    requires Inv(limits, m) && i < |m.threads.woken|
    ensures LooksRightly(limits, m, Look(limits, TakeLock(m, i), m.threads.woken[i]), m.threads.woken[i])
    ensures Look(limits, TakeLock(m, i), m.threads.woken[i]).threads.woken == Without(m.threads.woken, i)
  {
    hide Countdown, History, Promises, WhileOpening;
  }

  lemma {:induction false} FirstRightly(limits: Concurrency, m: Machine, newly: bool)
    requires Inv(limits, m) && if newly then m.threads.newly > 0 else m.threads.ready > 0
    ensures LooksRightly(limits, m, Look(limits, BeginWaiting(m, newly), None), None)
    ensures Look(limits, BeginWaiting(m, newly), None).threads.woken == m.threads.woken
  {
    hide Countdown, History, Promises, WhileOpening;
  }

  /** In every run, a worker that looks again gets what it should by the threads, the queue, the
      clock and its own note. */
  lemma {:induction false} LookAgainExact(limits: Concurrency, steps: seq<Step>, i: nat)
    requires limits.Valid()
    ensures var m := After(limits, steps);
            Enabled(limits, m, LookAgain(i)) ==>
              var m' := Apply(limits, m, LookAgain(i));
              m'.threads.woken == Without(m.threads.woken, i) && LooksRightly(limits, m, m', m.threads.woken[i])
  {
    hide Inv, Execute, LooksRightly, Apply, Enabled;
    Holds(limits, steps);
    var m := After(limits, steps);
    if Enabled(limits, m, LookAgain(i)) {
      AgainAt(limits, m, i);
    }
  }

  lemma {:induction false} AgainAt(limits: Concurrency, m: Machine, i: nat)
    requires Inv(limits, m) && Enabled(limits, m, LookAgain(i))
    ensures i < |m.threads.woken|
    ensures var m' := Apply(limits, m, LookAgain(i));
            m'.threads.woken == Without(m.threads.woken, i) && LooksRightly(limits, m, m', m.threads.woken[i])
  {
    hide Inv, LooksRightly, Look, TakeLock;
    AgainRightly(limits, m, i);
  }

  /** And so does one that has just come to the queue. With nothing noted before, it never leaves an
      open pool by that look. */
  lemma {:induction false} FirstLookExact(limits: Concurrency, steps: seq<Step>, newly: bool)
    requires limits.Valid()
    ensures var m := After(limits, steps);
            Enabled(limits, m, FirstLook(newly)) ==>
              var m' := Apply(limits, m, FirstLook(newly));
              && m'.threads.woken == m.threads.woken && LooksRightly(limits, m, m', None)
              && (m.pool.phase == Open && m.pool.queue == [] ==> m'.threads.Arrived() == m.threads.Arrived())
  {
    hide Inv, Execute, LooksRightly, Apply, Enabled, Threads.Arrived;
    Holds(limits, steps);
    var m := After(limits, steps);
    if Enabled(limits, m, FirstLook(newly)) {
      FirstAt(limits, m, newly);
    }
  }

  lemma {:induction false} FirstAt(limits: Concurrency, m: Machine, newly: bool)
    requires Inv(limits, m) && Enabled(limits, m, FirstLook(newly))
    ensures var m' := Apply(limits, m, FirstLook(newly));
            && m'.threads.woken == m.threads.woken && LooksRightly(limits, m, m', None)
            && (m.pool.phase == Open && m.pool.queue == [] ==> m'.threads.Arrived() == m.threads.Arrived())
  {
    hide Inv, Look, BeginWaiting, Threads.Arrived, Machine.References;
    FirstRightly(limits, m, newly);
  }

  /** In an open pool with nothing queued, a look takes a worker away if and only if more than the
      floor have arrived and this one was noted as one to spare a whole timeout ago. */
  lemma {:induction false} LeavesIff(limits: Concurrency, steps: seq<Step>, i: nat)
    requires limits.Valid()
    ensures var m := After(limits, steps);
            Enabled(limits, m, LookAgain(i)) && m.pool.phase == Open && m.pool.queue == [] ==>
              var left := Apply(limits, m, LookAgain(i)).threads.Arrived() < m.threads.Arrived();
              left <==>
                && m.threads.Arrived() > limits.min && limits.idleTimeout.Some? && m.threads.woken[i].Some?
                && m.now - m.threads.woken[i].value >= limits.idleTimeout.value
  {
    LookAgainExact(limits, steps, i);
    hide Execute, Look, TakeLock;
  }

  /** A sleeper woken, for whatever reason, keeps its note. */
  lemma {:induction false} WakesKeepNotes(limits: Concurrency, m: Machine, sleeper: Option<nat>)
    requires Enabled(limits, m, Wake(sleeper))
    ensures var ts, ts' := m.threads, Apply(limits, m, Wake(sleeper)).threads;
            match sleeper
            case Some(k) =>
              && ts'.timed == Without(ts.timed, k) && ts'.woken == ts.woken + [Some(ts.timed[k])]
              && ts'.untimed == ts.untimed
            case None =>
              ts'.timed == ts.timed && ts'.woken == ts.woken + [None] && ts'.untimed == ts.untimed - 1
  {
  }

  lemma {:induction false} NotifyWakesOne(limits: Concurrency, m: Machine, spawn: bool, sleeper: Option<nat>)
    requires Enabled(limits, m, NotifyOne(spawn, sleeper))
    ensures var m' := Apply(limits, m, NotifyOne(spawn, sleeper));
            if m.threads.Asleep() > 0 then
              m'.threads.woken
              == m.threads.woken + [if sleeper.Some? then Some(m.threads.timed[sleeper.value]) else None]
            else m'.threads.woken == m.threads.woken
  {
  }

  lemma {:induction false} NotifyAllWakesAll(limits: Concurrency, m: Machine)
    requires Enabled(limits, m, NotifyAll)
    ensures var m' := Apply(limits, m, NotifyAll);
            && m'.threads.Asleep() == 0 && |m'.threads.woken| == |m.threads.woken| + m.threads.Asleep()
            && (forall k | 0 <= k < |m.threads.timed| :: Some(m.threads.timed[k]) in m'.threads.woken)
            && m.threads.woken <= m'.threads.woken
  {
    var woken := Apply(limits, m, NotifyAll).threads.woken;
    forall k | 0 <= k < |m.threads.timed|
      ensures Some(m.threads.timed[k]) in woken
    {
      assert Noted(m.threads.timed)[k] == Some(m.threads.timed[k]);
      assert Some(m.threads.timed[k]) in Noted(m.threads.timed);
    }
  }

  /** So a worker asleep with a deadline, in an open pool with nothing queued that has workers to spare,
      is let go once its timeout has passed and it looks again. */
  lemma {:induction false} SpareIsLetGo(limits: Concurrency, m: Machine, k: nat)
    requires Inv(limits, m) && m.pool.phase == Open && m.pool.queue == [] && ToSpare(limits, m)
    requires k < |m.threads.timed|
    ensures var passed := Apply(limits, m, Pass(limits.idleTimeout.value));
            Enabled(limits, m, Pass(limits.idleTimeout.value)) && Enabled(limits, passed, Wake(Some(k))) &&
            var woken := Apply(limits, passed, Wake(Some(k)));
            Enabled(limits, woken, LookAgain(|m.threads.woken|)) &&
            Gone(woken, Apply(limits, woken, LookAgain(|m.threads.woken|)))
  {
    hide Inv, Apply, Enabled, Gone, Rouse, Without, Threads.Arrived;
    var passed := m.(now := m.now + limits.idleTimeout.value);
    PassesTime(limits, m, limits.idleTimeout.value);
    NotedBefore(limits, m, k);
    WakesTimed(limits, passed, k);
    RouseNotes(passed.threads, k);
    LetGoAt(limits, passed.(threads := Rouse(passed.threads, Some(k))), |m.threads.woken|);
  }

  /** Time passes at any moment, and nothing else with it. */
  lemma {:induction false} PassesTime(limits: Concurrency, m: Machine, time: nat)
    requires Inv(limits, m)
    ensures Enabled(limits, m, Pass(time)) && Apply(limits, m, Pass(time)) == m.(now := m.now + time)
    ensures Inv(limits, Apply(limits, m, Pass(time)))
  {
    hide Inv;
    KeepsPass(limits, m, time);
  }

  lemma {:induction false} WakesTimed(limits: Concurrency, m: Machine, k: nat)
    requires Inv(limits, m) && k < |m.threads.timed|
    ensures Enabled(limits, m, Wake(Some(k)))
    ensures Apply(limits, m, Wake(Some(k))) == m.(threads := Rouse(m.threads, Some(k)))
    ensures Inv(limits, Apply(limits, m, Wake(Some(k)))) && Rouse(m.threads, Some(k)).Arrived() == m.threads.Arrived()
  {
    hide Inv, Rouse;
    KeepsWake(limits, m, Some(k));
    RouseCounts(m.threads, Some(k));
  }

  lemma {:induction false} RouseNotes(ts: Threads, k: nat)
    requires k < |ts.timed|
    ensures Rouse(ts, Some(k)).woken == ts.woken + [Some(ts.timed[k])]
  {
    hide Without;
  }

  lemma {:induction false} LetGoAt(limits: Concurrency, m: Machine, i: nat)
    requires Inv(limits, m) && m.pool.phase == Open && m.pool.queue == [] && ToSpare(limits, m)
    requires i < |m.threads.woken| && WaitedOut(limits, m, m.threads.woken[i])
    ensures Enabled(limits, m, LookAgain(i)) && Gone(m, Apply(limits, m, LookAgain(i)))
  {
    hide Inv, Look, TakeLock, Gone;
    AgainAt(limits, m, i);
  }

  lemma {:induction false} NotedBefore(limits: Concurrency, m: Machine, k: nat)
    requires Inv(limits, m) && k < |m.threads.timed|
    ensures m.threads.timed[k] <= m.now
  {
  }

  // ---- a caller with a job

  /** In every run a job is accepted if and only if the pool is open, and goes last; and a worker is
      counted for it if and only if the jobs then outnumber the workers asleep, awake at the queue or
      on their way to it, with room under the ceiling. */
  lemma {:induction false} DispatchExact(limits: Concurrency, steps: seq<Step>, job: nat)
    requires limits.Valid()
    ensures var m := After(limits, steps);
            Enabled(limits, m, Dispatch(job)) ==>
              var m' := Apply(limits, m, Dispatch(job));
              var grows := m.threads.Counted() < limits.max
                           && |m.pool.queue| + 1 > m.threads.Idle() + m.threads.Pending();
              if m.pool.phase != Open then m' == m
              else
                && m'.log.accepted == m.log.accepted + [job] && m'.pool.queue == m.pool.queue + [Run(job)]
                && m'.threads.Counted() == m.threads.Counted() + (if grows then 1 else 0)
                && m'.pool.alive == m'.threads.Counted()
                && m'.threads.owingSpawn == m.threads.owingSpawn + (if grows then 1 else 0)
                && m'.threads.owing == m.threads.owing + (if grows then 0 else 1)
  {
    Holds(limits, steps);
    var m := After(limits, steps);
    hide Execute;
    if Enabled(limits, m, Dispatch(job)) {
      DispatchAt(limits, m, job);
    }
  }

  lemma {:induction false} DispatchAt(limits: Concurrency, m: Machine, job: nat)
    requires Counts(limits, m) && WhileOpening(limits, m) && m.usable
    ensures var m' := QueueJob(limits, m, job);
            var grows := m.threads.Counted() < limits.max
                         && |m.pool.queue| + 1 > m.threads.Idle() + m.threads.Pending();
            if m.pool.phase != Open then m' == m
            else
              && m'.log.accepted == m.log.accepted + [job] && m'.pool.queue == m.pool.queue + [Run(job)]
              && m'.threads.Counted() == m.threads.Counted() + (if grows then 1 else 0)
              && m'.pool.alive == m'.threads.Counted()
              && m'.threads.owingSpawn == m.threads.owingSpawn + (if grows then 1 else 0)
              && m'.threads.owing == m.threads.owing + (if grows then 0 else 1)
  {
  }

  // ---- the floor

  /** Workers counted whose start has not failed, and starts that have. */
  function Tried(m: Machine): int { m.threads.Counted() - m.threads.failed + m.log.failedStarts }

  /** Every worker the floor asks for is counted or was tried in vain. */
  predicate Filled(limits: Concurrency, m: Machine) {
    m.pool.phase == Open ==>
      match m.threads.opener
      case Opening => true
      case Opened => true
      case Floor(asked) => Tried(m) >= asked + 1
      case Inside(asked) => Tried(m) >= asked + 2
      case Reporting => Tried(m) >= limits.min
      case Served => m.usable ==> Tried(m) >= limits.min
  }

  predicate OfOpening(step: Step) {
    || step.FinishOpen? || step.CountFirst? || step.AskFloor? || step.ResumeFloor? || step.Publish? || step.Report?
  }

  predicate OfCallers(step: Step) {
    step.Dispatch? || step.NotifyOne? || step.NotifyAll? || step.Wake? || step.BeginClose? || step.Abandon?
  }

  predicate OfStarting(step: Step) {
    step.StartThread? || step.GiveBack? || step.ReturnFrame? || step.Arrive? || step.FinishJob?
  }

  predicate OfClosing(step: Step) {
    step.Deposit? || step.CountOut? || step.Drain? || step.Unwrap? || step.Reply? || step.Pass?
  }

  lemma {:induction false} OpeningTries(limits: Concurrency, m: Machine, step: Step)
    requires Enabled(limits, m, step) && OfOpening(step)
    ensures Tried(Apply(limits, m, step)) >= Tried(m) + if step.CountFirst? || step.AskFloor? then 1 else 0
  {
  }

  lemma {:induction false} CallersTry(limits: Concurrency, m: Machine, step: Step)
    requires Enabled(limits, m, step) && OfCallers(step)
    ensures Tried(Apply(limits, m, step)) >= Tried(m)
  {
    hide Stops, Rouse, Notified, NotifyAllWorkers, QueueJob, Tried;
    match step {
      case Wake(sleeper) => RouseTries(m, sleeper);
      case NotifyOne(spawn, sleeper) =>
        if m.threads.Asleep() > 0 {
          RouseTries(m, sleeper);
          NotifiedTries(m.(threads := Rouse(m.threads, sleeper)), spawn);
        } else {
          NotifiedTries(m, spawn);
        }
      case NotifyAll => NotifyAllTries(m);
      case Dispatch(job) => DispatchTries(limits, m, job);
      case BeginClose => SameTries(m, CloseIfOpen(m));
      case Abandon => SameTries(m, AbandonPool(m));
    }
  }

  lemma {:induction false} NotifyAllTries(m: Machine)
    requires m.threads.owingAll > 0
    ensures Tried(NotifyAllWorkers(m)) == Tried(m)
  {
  }

  lemma {:induction false} DispatchTries(limits: Concurrency, m: Machine, job: nat)
    ensures Tried(QueueJob(limits, m, job)) >= Tried(m)
  {
    hide State.QueueJob;
  }

  lemma {:induction false} SameTries(m: Machine, m': Machine)
    requires m'.threads == m.threads.(owingAll := m'.threads.owingAll) && m'.log == m.log
    ensures Tried(m') == Tried(m)
  {
  }

  lemma {:induction false} RouseTries(m: Machine, sleeper: Option<nat>)
    requires Sleeps(m.threads, sleeper)
    ensures Tried(m.(threads := Rouse(m.threads, sleeper))) == Tried(m)
    ensures Rouse(m.threads, sleeper).owing == m.threads.owing
    ensures Rouse(m.threads, sleeper).owingSpawn == m.threads.owingSpawn
  {
  }

  lemma {:induction false} NotifiedTries(m: Machine, spawn: bool)
    requires if spawn then m.threads.owingSpawn > 0 else m.threads.owing > 0
    ensures Tried(Notified(m, spawn)) == Tried(m)
  {
  }

  lemma {:induction false} StartingTries(limits: Concurrency, m: Machine, step: Step)
    requires Enabled(limits, m, step) && OfStarting(step)
    ensures Tried(Apply(limits, m, step)) >= Tried(m)
  {
    hide State.SpawnFailed;
  }

  lemma {:induction false} ClosingTries(limits: Concurrency, m: Machine, step: Step)
    requires Enabled(limits, m, step) && OfClosing(step)
    ensures Tried(Apply(limits, m, step)) >= Tried(m)
  {
    hide Machine.References, Tried;
    ClosingAside(m, Apply(limits, m, step));
  }

  /** Workers counted out and the one that closes are counted no more. */
  lemma {:induction false} ClosingAside(m: Machine, m': Machine)
    requires m'.log.failedStarts == m.log.failedStarts
    requires var ts := m'.threads;
             ts == m.threads.(depositing := ts.depositing, counting := ts.counting, draining := ts.draining,
                              unwrapping := ts.unwrapping, replyingClosed := ts.replyingClosed,
                              replyingRefused := ts.replyingRefused)
    ensures Tried(m') == Tried(m)
  {
  }

  lemma {:induction false} TriedStays(limits: Concurrency, m: Machine, step: Step)
    requires Enabled(limits, m, step) && !step.FirstLook? && !step.LookAgain?
    ensures Tried(Apply(limits, m, step)) >= Tried(m) + if step.CountFirst? || step.AskFloor? then 1 else 0
  {
    hide Tried, Apply, Enabled;
    if OfOpening(step) {
      OpeningTries(limits, m, step);
    } else if OfCallers(step) {
      CallersTry(limits, m, step);
    } else if OfStarting(step) {
      StartingTries(limits, m, step);
    } else {
      ClosingTries(limits, m, step);
    }
  }

  /** A worker that a look takes from an open pool leaves the floor behind. */
  lemma {:induction false} LookFills(limits: Concurrency, m: Machine, m': Machine, note: Option<nat>)
    requires Inv(limits, m) && m.pool.phase == Open && LooksRightly(limits, m, m', note)
    requires m'.threads.Pending() == m.threads.Pending() && m'.threads.failed == m.threads.failed
    requires m'.log.failedStarts == m.log.failedStarts
    requires m.pool.queue != [] ==> m'.threads.Counted() == m.threads.Counted()
    ensures Tried(m') >= Tried(m) || (Tried(m') >= limits.min && m.threads.Arrived() > limits.min)
  {
    hide Countdown, History, Promises, WhileOpening, Machine.References;
  }

  lemma {:induction false} LookCounts(limits: Concurrency, m: Machine, since: Option<nat>)
    ensures var m' := Look(limits, m, since);
            && m'.threads.Pending() == m.threads.Pending() && m'.threads.failed == m.threads.failed
            && m'.threads.opener == m.threads.opener && m'.log.failedStarts == m.log.failedStarts
            && m'.pool.phase == m.pool.phase && m'.usable == m.usable
            && (m.pool.queue != [] && m.pool.queue[0].Run? ==> m'.threads.Arrived() == m.threads.Arrived() + 1)
  {
  }

  lemma {:induction false} LookKeepsFilled(limits: Concurrency, m: Machine, step: Step)
    requires Inv(limits, m) && Filled(limits, m) && Enabled(limits, m, step) && (step.FirstLook? || step.LookAgain?)
    ensures Filled(limits, Apply(limits, m, step))
  {
    hide Look, LooksRightly, Inv, BeginWaiting, TakeLock, Threads.Arrived, Threads.Pending, Filled;
    if m.pool.phase != Open {
      StaysShut(limits, m, step);
      ShutIsFilled(limits, Apply(limits, m, step));
    } else {
      match step {
        case FirstLook(newly) =>
          FirstRightly(limits, m, newly);
          LocksCount(m, newly, 0);
          LookedFills(limits, m, BeginWaiting(m, newly), None);
        case LookAgain(i) =>
          AgainRightly(limits, m, i);
          LocksCount(m, true, i);
          LookedFills(limits, m, TakeLock(m, i), m.threads.woken[i]);
      }
    }
  }

  lemma {:induction false} ShutIsFilled(limits: Concurrency, m: Machine)
    requires m.pool.phase != Open
    ensures Filled(limits, m)
  {
  }

  /** `locked` is the pool with the worker in hand. */
  lemma {:induction false} LookedFills(limits: Concurrency, m: Machine, locked: Machine, note: Option<nat>)
    requires Inv(limits, m) && Filled(limits, m) && m.pool.phase == Open
    requires LooksRightly(limits, m, Look(limits, locked, note), note)
    requires && locked.threads.Arrived() == m.threads.Arrived() - 1 && locked.threads.Pending() == m.threads.Pending()
             && locked.threads.failed == m.threads.failed && locked.threads.opener == m.threads.opener
             && locked.log == m.log && locked.usable == m.usable && locked.pool.queue == m.pool.queue
             && locked.pool.phase == m.pool.phase
    ensures Filled(limits, Look(limits, locked, note))
  {
    OnlyJobs(limits, m);
    ArrivedWithin(limits, m);
    LookCounts(limits, locked, note);
    hide Look, LooksRightly, Inv, Threads.Arrived, Threads.Pending;
    LookFills(limits, m, Look(limits, locked, note), note);
  }

  lemma {:induction false} LocksCount(m: Machine, newly: bool, i: nat)
    ensures (if newly then m.threads.newly > 0 else m.threads.ready > 0) ==>
              var m' := BeginWaiting(m, newly);
              && m'.threads.Arrived() == m.threads.Arrived() - 1 && m'.threads.Pending() == m.threads.Pending()
              && m'.threads.failed == m.threads.failed && m'.threads.opener == m.threads.opener
              && m'.log == m.log && m'.usable == m.usable && m'.pool.queue == m.pool.queue
              && m'.pool.phase == m.pool.phase
    ensures i < |m.threads.woken| ==>
              var m' := TakeLock(m, i);
              && m'.threads.Arrived() == m.threads.Arrived() - 1 && m'.threads.Pending() == m.threads.Pending()
              && m'.threads.failed == m.threads.failed && m'.threads.opener == m.threads.opener
              && m'.log == m.log && m'.usable == m.usable && m'.pool == m.pool
  {
  }

  lemma {:induction false} OnlyJobs(limits: Concurrency, m: Machine)
    requires Inv(limits, m) && m.pool.phase == Open
    ensures m.pool.queue != [] ==> m.pool.queue[0].Run?
  {
  }

  /** While the floor is being started, no more have arrived than it. */
  lemma {:induction false} ArrivedWithin(limits: Concurrency, m: Machine)
    requires Inv(limits, m)
    ensures m.threads.opener.Floor? || m.threads.opener.Inside? ==> m.threads.Arrived() <= limits.min
  {
  }

  lemma {:induction false} KeepsFilled(limits: Concurrency, m: Machine, step: Step)
    requires Inv(limits, m) && Filled(limits, m) && Enabled(limits, m, step)
    ensures Filled(limits, Apply(limits, m, step))
  {
    if step.FirstLook? || step.LookAgain? {
      LookKeepsFilled(limits, m, step);
    } else if m.pool.phase != Open {
      StaysShut(limits, m, step);
    } else {
      TriedStays(limits, m, step);
      FilledElsewhere(limits, m, step);
    }
  }

  lemma {:induction false} FilledElsewhere(limits: Concurrency, m: Machine, step: Step)
    requires Inv(limits, m) && Filled(limits, m) && Enabled(limits, m, step) && !step.FirstLook? && !step.LookAgain?
    requires m.pool.phase == Open
    requires Tried(Apply(limits, m, step)) >= Tried(m) + if step.CountFirst? || step.AskFloor? then 1 else 0
    ensures Filled(limits, Apply(limits, m, step))
  {
    if OfOpening(step) {
      FilledOpening(limits, m, step);
    } else {
      OpenerStays(limits, m, step);
      hide Tried, Inv, Apply;
    }
  }

  lemma {:induction false} OpenerStays(limits: Concurrency, m: Machine, step: Step)
    requires Enabled(limits, m, step) && !OfOpening(step) && !step.FirstLook? && !step.LookAgain?
    ensures var m' := Apply(limits, m, step);
            m'.threads.opener == m.threads.opener && m'.usable == m.usable
  {
    hide State.SpawnFailed, State.QueueJob, State.BeginClose, Machine.References, Threads.Asleep;
  }

  lemma {:induction false} FilledOpening(limits: Concurrency, m: Machine, step: Step)
    requires Inv(limits, m) && Filled(limits, m) && Enabled(limits, m, step) && OfOpening(step) && m.pool.phase == Open
    requires Tried(Apply(limits, m, step)) >= Tried(m) + if step.CountFirst? || step.AskFloor? then 1 else 0
    ensures Filled(limits, Apply(limits, m, step))
  {
    NotNegative(limits, m);
    hide Tried, Countdown, History, Promises, Counts, Threads.Counted;
  }

  lemma {:induction false} NotNegative(limits: Concurrency, m: Machine)
    requires Inv(limits, m)
    ensures Tried(m) >= 0
  {
  }

  lemma {:induction false} FilledAlways(limits: Concurrency, m: Machine, steps: seq<Step>)
    requires Inv(limits, m) && Filled(limits, m)
    ensures Filled(limits, Execute(limits, m, steps))
    decreases |steps|
  {
    hide Inv, Filled, Apply, Enabled;
    if steps != [] {
      if Enabled(limits, m, steps[0]) {
        Kept(limits, m, steps[0]);
        KeepsFilled(limits, m, steps[0]);
        FilledAlways(limits, Apply(limits, m, steps[0]), steps[1..]);
      } else {
        FilledAlways(limits, m, steps[1..]);
      }
    }
  }

  lemma {:induction false} FilledAtFirst(limits: Concurrency)
    ensures Filled(limits, INIT)
  {
  }

  lemma {:induction false} InvAtFirst(limits: Concurrency)
    requires limits.Valid()
    ensures Inv(limits, INIT)
  {
    Stands(limits, INIT);
    hide Inv, Execute;
    Holds(limits, []);
  }

  lemma {:induction false} Stands(limits: Concurrency, m: Machine)
    ensures Execute(limits, m, []) == m
  {
  }

  lemma {:induction false} HandedOut(limits: Concurrency, m: Machine)
    requires Inv(limits, m) && Filled(limits, m)
    ensures m.usable && m.pool.phase == Open ==> m.threads.Counted() + m.log.failedStarts >= limits.min
  {
    hide Countdown, History, Promises, Counts, Threads.Counted;
  }

  /** In every run an open pool that has been handed out has its floor of workers, less one for each
      start that failed. */
  lemma {:induction false} FloorFilled(limits: Concurrency, steps: seq<Step>)
    requires limits.Valid()
    ensures var m := After(limits, steps);
            m.usable && m.pool.phase == Open ==> m.threads.Counted() + m.log.failedStarts >= limits.min
  {
    hide Inv, Execute, Filled, Threads.Counted;
    FilledAtFirst(limits);
    InvAtFirst(limits);
    FilledAlways(limits, INIT, steps);
    Always(limits, INIT, steps);
    HandedOut(limits, After(limits, steps));
  }
}
