/** Runs of the worker pool that show where its documentation promises more than it keeps. */
module WorkerRuns {
  import opened Options
  import opened Rendezvous
  import opened WorkerState
  import opened WorkerMachine
  import opened WorkerProof
  import opened WorkerTheorems
  import opened WorkerProgress

  // ---- a close that is answered with an error

  /** While only a `start_worker` call keeps the engine from being owned alone. */
  predicate Refusable(limits: Concurrency, m: Machine) {
    && Inv(limits, m) && m.pool.phase == Closing && m.threads.returning > 0
    && m.log.replies == [] && m.threads.replyingClosed == 0
  }

  /** Some thread other than that call can move. */
  lemma {:induction false} OthersMove(limits: Concurrency, m: Machine)
    requires Refusable(limits, m)
    ensures exists step :: OfItself(step) && !step.ReturnFrame? && Enabled(limits, m, step)
  {
    hide Inv, Enabled;
    var m' := m.(threads := m.threads.(returning := 0));
    WithoutFrames(limits, m);
    UnfinishedIsAstir(limits, m');
    AstirCanMove(limits, m');
    var step :| OfItself(step) && Enabled(limits, m', step);
    SameWithFrames(limits, m, step);
  }

  lemma {:induction false} WithoutFrames(limits: Concurrency, m: Machine)
    requires Inv(limits, m)
    ensures Inv(limits, m.(threads := m.threads.(returning := 0)))
  {
  }

  lemma {:induction false} SameWithFrames(limits: Concurrency, m: Machine, step: Step)
    requires Inv(limits, m) && m.pool.phase == Closing
    requires Enabled(limits, m.(threads := m.threads.(returning := 0)), step)
    ensures Enabled(limits, m, step) && !step.ReturnFrame?
  {
  }

  lemma {:induction false} StaysRefusable(limits: Concurrency, m: Machine, step: Step)
    requires Refusable(limits, m) && OfItself(step) && !step.ReturnFrame? && Enabled(limits, m, step) && !step.Reply?
    ensures Refusable(limits, Apply(limits, m, step))
  {
    Kept(limits, m, step);
    hide Inv;
    StaysShut(limits, m, step);
    HandlesSplit(m.threads);
    CountdownOver(limits, m);
    FramesStay(limits, m, step);
  }

  lemma {:induction false} LookKeepsFrames(limits: Concurrency, m: Machine, since: Option<nat>)
    ensures var m' := Look(limits, m, since);
            && m'.threads.returning == m.threads.returning
            && m'.log.replies == m.log.replies
            && m'.threads.replyingClosed == m.threads.replyingClosed
  {
  }

  lemma {:induction false} FramesStay(limits: Concurrency, m: Machine, step: Step)
    requires Enabled(limits, m, step) && OfItself(step) && !step.ReturnFrame? && !step.Reply?
    ensures var m' := Apply(limits, m, step);
            && m'.threads.returning >= m.threads.returning
            && m'.log.replies == m.log.replies
            && (!step.Unwrap? ==> m'.threads.replyingClosed == m.threads.replyingClosed)
  {
    hide Machine.References, State.SpawnFailed, Look, Threads.Asleep;
    match step
    case FirstLook(newly) => LookKeepsFrames(limits, BeginWaiting(m, newly), None);
    case LookAgain(i) => LookKeepsFrames(limits, TakeLock(m, i), m.threads.woken[i]);
    case _ =>
  }

  lemma {:induction false} Takes(limits: Concurrency, m: Machine, step: Step, rest: seq<Step>)
    requires Enabled(limits, m, step)
    ensures Execute(limits, m, [step] + rest) == Execute(limits, Apply(limits, m, step), rest)
  {
    hide Apply, Enabled;
    assert ([step] + rest)[1..] == rest;
  }

  lemma {:induction false} RepliesNow(limits: Concurrency, m: Machine)
    requires Refusable(limits, m) && m.threads.replyingRefused > 0
    ensures Execute(limits, m, [Reply(false)]).log.replies == [false]
  {
    hide Inv, Execute;
    assert [Reply(false)] == [Reply(false)] + [];
    Takes(limits, m, Reply(false), []);
    Ends(limits, Apply(limits, m, Reply(false)));
  }

  lemma {:induction false} Ends(limits: Concurrency, m: Machine)
    ensures Execute(limits, m, []) == m
  {
  }

  lemma {:induction false} NotReplying(limits: Concurrency, m: Machine, step: Step)
    requires m.threads.Replying() == 0 && Enabled(limits, m, step)
    ensures !step.Reply?
  {
  }

  /** Whenever a close is under way while a `start_worker` call is still to return, some schedule
      has the caller answered with an error, whatever the engine would have said. */
  lemma {:induction false} RefusalPossible(limits: Concurrency, m: Machine)
    requires Refusable(limits, m)
    ensures exists steps :: Execute(limits, m, steps).log.replies == [false]
    decreases Work(limits, m)
  {
    hide Inv, Work, Apply, Enabled, Execute;
    if m.threads.replyingRefused > 0 {
      RepliesNow(limits, m);
    } else {
      OthersMove(limits, m);
      var step :| OfItself(step) && !step.ReturnFrame? && Enabled(limits, m, step);
      NotReplying(limits, m, step);
      StaysRefusable(limits, m, step);
      StepWorks(limits, m, step);
      WorkLeft(limits, Apply(limits, m, step));
      RefusalPossible(limits, Apply(limits, m, step));
      var rest :| Execute(limits, Apply(limits, m, step), rest).log.replies == [false];
      Takes(limits, m, step, rest);
    }
  }

  // ---- when that can happen

  /** Calls that hold a handle of their own, or will, once their worker is counted out. */
  function Frames(ts: Threads): nat { ts.owingSpawn + ts.ordered + ts.returning }

  /** Refused, or sure to be. */
  predicate Refused(m: Machine) { m.threads.replyingRefused > 0 || false in m.log.replies }

  predicate Answered(m: Machine) { m.threads.replyingClosed > 0 || m.log.replies != [] }

  /** No call is left to get in the way, and none is to come. */
  predicate Clear(limits: Concurrency, m: Machine) {
    && Frames(m.threads) == 0 && !m.threads.opener.Inside?
    && (m.pool.phase == Closing || (limits.max == 1 && m.threads.failed == 0))
  }

  predicate Safe(limits: Concurrency, m: Machine) {
    Inv(limits, m) && !Refused(m) && (Answered(m) || Clear(limits, m))
  }

  lemma {:induction false} SafeUnwraps(limits: Concurrency, m: Machine)
    requires Safe(limits, m) && Enabled(limits, m, Unwrap)
    ensures !Refused(OwnAndClose(m)) && Answered(OwnAndClose(m))
  {
    hide Inv, Threads.Handles;
    HandlesSplit(m.threads);
    CountdownOver(limits, m);
  }

  lemma {:induction false} SafeGivesBack(limits: Concurrency, m: Machine)
    requires Inv(limits, m) && Clear(limits, m) && Enabled(limits, m, GiveBack)
    ensures Clear(limits, GiveBackCount(m))
  {
  }

  lemma {:induction false} SafeDispatches(limits: Concurrency, m: Machine, job: nat)
    requires Inv(limits, m) && Clear(limits, m)
    ensures Clear(limits, QueueJob(limits, m, job))
  {
  }

  lemma {:induction false} LookStays(limits: Concurrency, m: Machine, since: Option<nat>)
    ensures var ts, ts' := m.threads, Look(limits, m, since).threads;
            && Frames(ts') == Frames(ts) && ts'.opener == ts.opener && ts'.failed == ts.failed
            && ts'.replyingRefused == ts.replyingRefused && ts'.replyingClosed == ts.replyingClosed
    ensures Look(limits, m, since).log.replies == m.log.replies && Look(limits, m, since).pool.phase == m.pool.phase
  {
  }

  /** The steps that neither start a call, nor end one, nor answer the close. */
  predicate Elsewhere(step: Step) {
    !(step.Unwrap? || step.Reply? || step.GiveBack? || step.Dispatch? || step.FirstLook? || step.LookAgain?)
  }

  lemma {:induction false} ClearStays(limits: Concurrency, m: Machine, step: Step)
    requires Inv(limits, m) && Clear(limits, m) && Enabled(limits, m, step) && Elsewhere(step)
    ensures Clear(limits, Apply(limits, m, step))
  {
    hide Promises, History, Countdown;
    if step.BeginClose? || step.Abandon? || step.NotifyAll? || step.NotifyOne? || step.Wake? {
      CallersClear(limits, m, step);
    } else {
      OthersClear(limits, m, step);
    }
  }

  lemma {:induction false} CallersClear(limits: Concurrency, m: Machine, step: Step)
    requires Clear(limits, m) && Enabled(limits, m, step)
    requires step.BeginClose? || step.Abandon? || step.NotifyAll? || step.NotifyOne? || step.Wake?
    ensures Clear(limits, Apply(limits, m, step))
  {
    hide Stops;
  }

  lemma {:induction false} OthersClear(limits: Concurrency, m: Machine, step: Step)
    requires Inv(limits, m) && Clear(limits, m) && Enabled(limits, m, step) && Elsewhere(step)
    requires !(step.BeginClose? || step.Abandon? || step.NotifyAll? || step.NotifyOne? || step.Wake?)
    ensures Clear(limits, Apply(limits, m, step))
  {
    hide Promises, History, Countdown, Threads.Counted, Threads.Arrived;
  }

  lemma {:induction false} AnswersStay(limits: Concurrency, m: Machine, step: Step)
    requires Enabled(limits, m, step) && !step.Unwrap? && !step.Reply?
    ensures var m' := Apply(limits, m, step);
            Refused(m') == Refused(m) && Answered(m') == Answered(m)
  {
    hide Look, Threads.Asleep, State.SpawnFailed;
    match step {
      case FirstLook(newly) => LookStays(limits, BeginWaiting(m, newly), None);
      case LookAgain(i) => LookStays(limits, TakeLock(m, i), m.threads.woken[i]);
      case _ =>
    }
  }

  lemma {:induction false} SafeReplies(m: Machine, closed: bool)
    requires !Refused(m) && (if closed then m.threads.replyingClosed > 0 else m.threads.replyingRefused > 0)
    ensures !Refused(SendReply(m, closed)) && Answered(SendReply(m, closed))
  {
  }

  lemma {:induction false} ClearLooks(limits: Concurrency, m: Machine, step: Step)
    requires Clear(limits, m) && Enabled(limits, m, step) && (step.FirstLook? || step.LookAgain?)
    ensures Clear(limits, Apply(limits, m, step))
  {
    hide Look;
    match step {
      case FirstLook(newly) => LookStays(limits, BeginWaiting(m, newly), None);
      case LookAgain(i) => LookStays(limits, TakeLock(m, i), m.threads.woken[i]);
    }
  }

  lemma {:induction false} ClearStep(limits: Concurrency, m: Machine, step: Step)
    requires Inv(limits, m) && Clear(limits, m) && Enabled(limits, m, step) && !step.Unwrap? && !step.Reply?
    ensures Clear(limits, Apply(limits, m, step))
  {
    if Elsewhere(step) {
      hide Inv, Clear, Apply;
      ClearStays(limits, m, step);
    } else {
      hide Inv, Clear, GiveBackCount, QueueJob, Look;
      match step {
        case GiveBack => SafeGivesBack(limits, m);
        case Dispatch(job) => SafeDispatches(limits, m, job);
        case _ => ClearLooks(limits, m, step);
      }
    }
  }

  lemma {:induction false} AnswersSafely(limits: Concurrency, m: Machine, step: Step)
    requires Safe(limits, m) && Enabled(limits, m, step) && (step.Unwrap? || step.Reply?)
    ensures var m' := Apply(limits, m, step);
            !Refused(m') && Answered(m')
  {
    hide Inv, Clear, Refused, Answered, OwnAndClose, SendReply;
    match step {
      case Unwrap => SafeUnwraps(limits, m);
      case Reply(closed) => SafeReplies(m, closed);
    }
  }

  lemma {:induction false} SafeStep(limits: Concurrency, m: Machine, step: Step)
    requires Safe(limits, m) && Enabled(limits, m, step)
    ensures Safe(limits, Apply(limits, m, step))
  {
    hide Inv, Clear, Refused, Answered, Apply, Enabled;
    Kept(limits, m, step);
    if step.Unwrap? || step.Reply? {
      AnswersSafely(limits, m, step);
    } else {
      AnswersStay(limits, m, step);
      if Clear(limits, m) {
        ClearStep(limits, m, step);
      }
    }
  }

  lemma {:induction false} SafeStays(limits: Concurrency, m: Machine, steps: seq<Step>)
    requires Safe(limits, m)
    ensures Safe(limits, Execute(limits, m, steps))
    decreases |steps|
  {
    hide Safe, Apply, Enabled;
    if steps != [] {
      if Enabled(limits, m, steps[0]) {
        SafeStep(limits, m, steps[0]);
        SafeStays(limits, Apply(limits, m, steps[0]), steps[1..]);
      } else {
        SafeStays(limits, m, steps[1..]);
      }
    }
  }

  ghost predicate CanRefuse(limits: Concurrency, m: Machine) {
    exists steps :: Execute(limits, m, steps).log.replies == [false]
  }

  lemma {:induction false} RefusesAfter(limits: Concurrency, m: Machine, step: Step)
    requires Enabled(limits, m, step) && CanRefuse(limits, Apply(limits, m, step))
    ensures CanRefuse(limits, m)
  {
    hide Apply, Enabled, Execute;
    var rest :| Execute(limits, Apply(limits, m, step), rest).log.replies == [false];
    Takes(limits, m, step, rest);
  }

  lemma {:induction false} OrderedRefuses(limits: Concurrency, m: Machine)
    requires Inv(limits, m) && m.pool.phase == Closing && m.threads.ordered > 0
    ensures CanRefuse(limits, m)
  {
    CountdownOver(limits, m);
    Kept(limits, m, StartThread(true));
    hide Inv, Execute;
    RefusalPossible(limits, Apply(limits, m, StartThread(true)));
    RefusesAfter(limits, m, StartThread(true));
  }

  lemma {:induction false} OwingRefuses(limits: Concurrency, m: Machine)
    requires Inv(limits, m) && m.pool.phase == Closing && m.threads.owingSpawn > 0
    ensures CanRefuse(limits, m)
  {
    var notify := NotifyOne(true, if m.threads.timed != [] then Some(0) else None);
    Kept(limits, m, notify);
    hide Inv, CanRefuse;
    OrderedRefuses(limits, Apply(limits, m, notify));
    RefusesAfter(limits, m, notify);
  }

  /** From any state of a close that is not answered yet, some schedule has the caller sent an
      error if and only if a `start_worker` call is still to return, or to be made for a worker
      already counted, or the error is already on its way. */
  lemma {:induction false} RefusalPossibleIff(limits: Concurrency, m: Machine)
    requires Inv(limits, m) && m.pool.phase == Closing && !Answered(m)
    ensures CanRefuse(limits, m) <==> Frames(m.threads) > 0 || m.threads.replyingRefused > 0
  {
    if m.threads.owingSpawn > 0 {
      OwingRefuses(limits, m);
    } else if m.threads.ordered > 0 {
      OrderedRefuses(limits, m);
    } else if m.threads.returning > 0 {
      RefusalPossible(limits, m);
    } else if m.threads.replyingRefused > 0 {
      RefusedReplies(limits, m);
    } else {
      hide CanRefuse;
      ClosingIsServed(limits, m);
      forall steps
        ensures Execute(limits, m, steps).log.replies != [false]
      {
        SafeStays(limits, m, steps);
      }
      NeverRefuses(limits, m);
    }
  }

  lemma {:induction false} NeverRefuses(limits: Concurrency, m: Machine)
    requires forall steps :: Execute(limits, m, steps).log.replies != [false]
    ensures !CanRefuse(limits, m)
  {
  }

  lemma {:induction false} ClosingIsServed(limits: Concurrency, m: Machine)
    requires Inv(limits, m) && m.pool.phase == Closing
    ensures m.threads.opener == Served
  {
  }

  lemma {:induction false} RefusedReplies(limits: Concurrency, m: Machine)
    requires m.threads.replyingRefused > 0 && m.log.replies == []
    ensures CanRefuse(limits, m)
  {
    hide Execute;
    var m' := Apply(limits, m, Reply(false));
    Ends(limits, m');
    assert m'.log.replies == [] + [false] == [false];
    assert CanRefuse(limits, m');
    hide CanRefuse;
    RefusesAfter(limits, m, Reply(false));
  }

  // ---- runs, a step at a time

  ghost predicate Reached(limits: Concurrency, m: Machine) { exists steps :: After(limits, steps) == m }

  lemma {:induction false} Chained(limits: Concurrency, m: Machine, first: seq<Step>, rest: seq<Step>)
    ensures Execute(limits, m, first + rest) == Execute(limits, Execute(limits, m, first), rest)
    decreases |first|
  {
    hide Apply, Enabled;
    if first == [] {
      assert first + rest == rest;
    } else {
      assert (first + rest)[1..] == first[1..] + rest;
      Chained(limits, if Enabled(limits, m, first[0]) then Apply(limits, m, first[0]) else m, first[1..], rest);
    }
  }

  lemma {:induction false} Onward(limits: Concurrency, m: Machine, step: Step, m': Machine)
    requires Reached(limits, m) && Enabled(limits, m, step) && Apply(limits, m, step) == m'
    ensures Reached(limits, m')
  {
    hide Apply, Enabled, Execute;
    var steps :| After(limits, steps) == m;
    Chained(limits, INIT, steps, [step]);
    Takes(limits, m, step, []);
    Ends(limits, m');
    assert [step] + [] == [step];
    assert After(limits, steps + [step]) == m';
  }

  /** Every state below is of a pool none of whose further workers could be started when it was
      opened: `failed` threads could not. */
  function Shaped(pool: State, threads: Threads, log: Log): Machine {
    Machine(pool, threads, None, log, 0, threads.opener == Served)
  }

  function Failures(failed: nat, accepted: seq<nat>): Log { Log(0, [], accepted, [], 0, failed) }

  function Opening(opener: Opener): Threads { ONLY_OPENER.(opener := opener, first := 1) }

  /** The opening thread has asked for `asked` workers, and got none. */
  function AtFloor(asked: nat): Machine {
    Shaped(State([], 1, 1, 0, asked + 1, Open, false), Opening(Floor(asked)), Failures(asked, []))
  }

  function AtStart(asked: nat, ordered: nat, failed: nat, returning: nat): Machine {
    Shaped(State([], 2 - returning, 2 - returning, 0, asked + 2, Open, false),
           Opening(Inside(asked)).(ordered := ordered, failed := failed, returning := returning),
           Failures(if ordered > 0 then asked else asked + 1, []))
  }

  lemma {:induction false} FloorReached(limits: Concurrency, asked: nat)
    requires limits.Valid() && asked + 1 <= limits.min
    ensures Reached(limits, AtFloor(asked))
    decreases asked
  {
    hide Reached;
    if asked == 0 {
      FirstReached(limits);
    } else {
      FloorReached(limits, asked - 1);
      OneMoreAsked(limits, asked - 1);
    }
  }

  lemma {:induction false} FirstReached(limits: Concurrency)
    ensures Reached(limits, AtFloor(0))
  {
    Ends(limits, INIT);
    assert After(limits, []) == INIT;
    hide Reached, Execute;
    var m := INIT.(threads := ONLY_OPENER.(opener := Opened, unowned := 1));
    Onward(limits, INIT, FinishOpen(true), m);
    Onward(limits, m, CountFirst, AtFloor(0));
  }

  lemma {:induction false} OneMoreAsked(limits: Concurrency, asked: nat)
    requires asked + 1 < limits.min && Reached(limits, AtFloor(asked))
    ensures Reached(limits, AtFloor(asked + 1))
  {
    hide Reached;
    AsksOne(limits, asked);
    GetsNone(limits, asked);
  }

  lemma {:induction false} AsksOne(limits: Concurrency, asked: nat)
    requires asked + 1 < limits.min && Reached(limits, AtFloor(asked))
    ensures Reached(limits, AtStart(asked, 0, 1, 0))
  {
    hide Reached;
    Onward(limits, AtFloor(asked), AskFloor, AtStart(asked, 1, 0, 0));
    Onward(limits, AtStart(asked, 1, 0, 0), StartThread(false), AtStart(asked, 0, 1, 0));
  }

  lemma {:induction false} GetsNone(limits: Concurrency, asked: nat)
    requires asked + 1 < limits.min && Reached(limits, AtStart(asked, 0, 1, 0))
    ensures Reached(limits, AtFloor(asked + 1))
  {
    hide Reached;
    var m := AtStart(asked, 0, 0, 1);
    var m' := m.(threads := m.threads.(returning := 0));
    Onward(limits, AtStart(asked, 0, 1, 0), GiveBack, m);
    Onward(limits, m, ReturnFrame, m');
    Onward(limits, m', ResumeFloor, AtFloor(asked + 1));
  }

  function Idlers(newly: nat): Threads { ONLY_OPENER.(opener := Served, newly := newly) }

  /** Open, with its one worker at the queue. */
  function AtQueue(min: nat): Machine
    requires min > 0
  {
    Shaped(State([], 1, 0, 0, min, Open, true), Idlers(1), Failures(min - 1, []))
  }

  lemma {:induction false} QueueReached(limits: Concurrency)
    requires limits.Valid()
    ensures Reached(limits, AtQueue(limits.min))
  {
    hide Reached;
    var min := limits.min;
    FloorReached(limits, min - 1);
    var published :=
      Shaped(State([], 1, 1, 0, min, Open, true), Opening(Reporting), Failures(min - 1, []));
    var reported :=
      Shaped(State([], 1, 1, 0, min, Open, true), ONLY_OPENER.(opener := Served, starting := 1), Failures(min - 1, []));
    Onward(limits, AtFloor(min - 1), Publish, published);
    Onward(limits, published, Report, reported);
    Onward(limits, reported, Arrive, AtQueue(min));
  }

  /** Jobs queued with the one worker not at them yet, and a `start_worker` call somewhere. */
  function Grown(jobs: seq<nat>, alive: nat, pending: nat, started: nat, calls: Threads, failed: nat): Machine {
    Shaped(State(Queued(jobs), alive, pending, 0, started, Open, true), calls, Failures(failed, jobs))
  }

  function Queued(jobs: seq<nat>): (queue: seq<Job>)
    ensures |queue| == |jobs|
  {
    seq(|jobs|, i requires 0 <= i < |jobs| => Run(jobs[i]))
  }

  lemma {:induction false} QueuesOne(jobs: seq<nat>, job: nat)
    ensures Queued(jobs + [job]) == Queued(jobs) + [Run(job)]
  {
  }

  /** Another job is dispatched with nobody free: a worker is counted, and a call made to start it. */
  lemma {:induction false} GrowthReached(
      limits: Concurrency, jobs: seq<nat>, job: nat, started: nat, ts: Threads, failed: nat)
    requires limits.max > 1 && ts == Idlers(1).(returning := ts.returning)
    requires Reached(limits, Grown(jobs, 1, 0, started, ts, failed))
    ensures Reached(limits, Grown(jobs + [job], 2, 1, started + 1, ts.(ordered := 1), failed))
  {
    hide Reached;
    QueuesOne(jobs, job);
    var m := Grown(jobs, 1, 0, started, ts, failed);
    var m' := Grown(jobs + [job], 2, 1, started + 1, ts.(owingSpawn := 1), failed);
    hide Queued;
    Onward(limits, m, Dispatch(job), m');
    Onward(limits, m', NotifyOne(true, None), Grown(jobs + [job], 2, 1, started + 1, ts.(ordered := 1), failed));
  }

  lemma {:induction false} StartReached(
      limits: Concurrency, jobs: seq<nat>, started: nat, ts: Threads, failed: nat, ok: bool)
    requires ts == Idlers(1).(returning := ts.returning)
    requires Reached(limits, Grown(jobs, 2, 1, started, ts.(ordered := 1), failed))
    ensures ok ==>
              Reached(limits, Grown(jobs, 2, 1, started, ts.(starting := 1, returning := ts.returning + 1), failed))
    ensures !ok ==> Reached(limits, Grown(jobs, 1, 0, started, ts.(returning := ts.returning + 1), failed + 1))
  {
    hide Reached, Queued;
    var m := Grown(jobs, 2, 1, started, ts.(ordered := 1), failed);
    if ok {
      Onward(limits, m, StartThread(true),
             Grown(jobs, 2, 1, started, ts.(starting := 1, returning := ts.returning + 1), failed));
    } else {
      var m' := Grown(jobs, 2, 1, started, ts.(failed := 1), failed + 1);
      Onward(limits, m, StartThread(false), m');
      Onward(limits, m', GiveBack, Grown(jobs, 1, 0, started, ts.(returning := ts.returning + 1), failed + 1));
    }
  }

  /** A job dispatched to a pool that can grow, and its worker started or not. */
  lemma {:induction false} CallUnreturned(limits: Concurrency, ok: bool)
    requires limits.Valid() && limits.max > 1
    ensures ok ==>
              Reached(limits,
                      Grown([7], 2, 1, limits.min + 1, Idlers(1).(starting := 1, returning := 1), limits.min - 1))
    ensures !ok ==> Reached(limits, Grown([7], 1, 0, limits.min + 1, Idlers(1).(returning := 1), limits.min))
  {
    hide Reached;
    QueueReached(limits);
    assert Queued([]) == [];
    assert AtQueue(limits.min) == Grown([], 1, 0, limits.min, Idlers(1), limits.min - 1);
    assert [] + [7] == [7];
    hide Queued, AtQueue;
    GrowthReached(limits, [], 7, limits.min, Idlers(1), limits.min - 1);
    StartReached(limits, [7], limits.min + 1, Idlers(1), limits.min - 1, ok);
  }

  /** The caller closes while that call has yet to return: the branch documented as unreachable is
      reached, whether the thread could be started or not. */
  lemma {:induction false} CloseRefusedEitherWay(limits: Concurrency, ok: bool)
    requires limits.Valid() && limits.max > 1
    ensures exists m ::
              && Reached(limits, m) && CanRefuse(limits, m) && m.pool.phase == Closing && m.threads.returning == 1
              && m.threads.starting == (if ok then 1 else 0)
              && m.log.failedStarts == limits.min - (if ok then 1 else 0)
  {
    hide Reached, CanRefuse, Grown, CloseIfOpen;
    CallUnreturned(limits, ok);
    var m := if ok then Grown([7], 2, 1, limits.min + 1, Idlers(1).(starting := 1, returning := 1), limits.min - 1)
             else Grown([7], 1, 0, limits.min + 1, Idlers(1).(returning := 1), limits.min);
    ClosesUnreturned(limits, m, ok);
    Onward(limits, m, BeginClose, CloseIfOpen(m));
    ReachedHolds(limits, CloseIfOpen(m));
    hide Inv;
    RefusalPossibleIff(limits, CloseIfOpen(m));
  }

  lemma {:induction false} ClosesUnreturned(limits: Concurrency, m: Machine, ok: bool)
    requires limits.min > 0
    requires m == if ok then Grown([7], 2, 1, limits.min + 1, Idlers(1).(starting := 1, returning := 1), limits.min - 1)
                  else Grown([7], 1, 0, limits.min + 1, Idlers(1).(returning := 1), limits.min)
    ensures Enabled(limits, m, BeginClose)
    ensures var m' := CloseIfOpen(m);
            && m'.pool.phase == Closing && !Answered(m') && m'.threads.returning == 1
            && m'.threads.starting == (if ok then 1 else 0)
            && m'.log.failedStarts == limits.min - (if ok then 1 else 0)
  {
    hide Queued;
  }

  lemma {:induction false} ReachedHolds(limits: Concurrency, m: Machine)
    requires limits.Valid() && Reached(limits, m)
    ensures Inv(limits, m)
  {
    hide Inv, Execute;
    var steps :| After(limits, steps) == m;
    Holds(limits, steps);
  }

  lemma {:induction false} ReachedRefuses(limits: Concurrency, m: Machine)
    requires Reached(limits, m) && CanRefuse(limits, m)
    ensures exists steps :: After(limits, steps).log.replies == [false]
  {
    hide Execute;
    var steps :| After(limits, steps) == m;
    var rest :| Execute(limits, m, rest).log.replies == [false];
    Chained(limits, INIT, steps, rest);
    assert After(limits, steps + rest).log.replies == [false];
  }

  lemma {:induction false} NobodyCalls()
    ensures Frames(INIT.threads) == 0 && INIT.threads.failed == 0 && !INIT.threads.opener.Inside?
  {
  }

  lemma {:induction false} NobodyAnswered()
    ensures !Refused(INIT)
  {
  }

  lemma {:induction false} SafeAtFirst(limits: Concurrency)
    requires limits.Valid() && limits.max == 1
    ensures Safe(limits, INIT)
  {
    Ends(limits, INIT);
    NobodyCalls();
    NobodyAnswered();
    hide Inv, Refused, Frames, Execute;
    Holds(limits, []);
  }

  /** A close can be answered with an error the engine never gave, exactly in pools of more than one
      worker. */
  lemma {:induction false} CloseRefusedIff(limits: Concurrency)
    requires limits.Valid()
    ensures (exists steps :: After(limits, steps).log.replies == [false]) <==> limits.max > 1
  {
    hide Execute, Inv;
    if limits.max > 1 {
      CloseRefusedEitherWay(limits, true);
      var m :| Reached(limits, m) && CanRefuse(limits, m);
      ReachedRefuses(limits, m);
    } else {
      forall steps
        ensures After(limits, steps).log.replies != [false]
      {
        SafeAtFirst(limits);
        SafeStays(limits, INIT, steps);
      }
    }
  }

  // ---- demand left unmet by failed starts

  predicate Unmet(limits: Concurrency, m: Machine) {
    && m.pool.phase == Open && m.pool.client && m.pool.alive < limits.max
    && |m.pool.queue| > m.pool.idle + m.pool.pending + m.threads.newly
  }

  /** `GrowthFollowsDemand` cannot do without its hypothesis: a start that fails is not retried until
      another job is queued. It can exactly where there is nothing to grow. */
  lemma {:induction false} GrowthNeedsStarts(limits: Concurrency)
    requires limits.Valid()
    ensures (exists steps :: Unmet(limits, After(limits, steps))) <==> limits.max > 1
  {
    hide Execute;
    if limits.max > 1 {
      UnmetReached(limits);
    } else {
      forall steps
        ensures !Unmet(limits, After(limits, steps))
      {
        Holds(limits, steps);
      }
    }
  }

  lemma {:induction false} UnmetReached(limits: Concurrency)
    requires limits.Valid() && limits.max > 1
    ensures exists steps :: Unmet(limits, After(limits, steps))
  {
    var min := limits.min;
    assert [7] + [8] == [7, 8];
    CallUnreturned(limits, false);
    hide Reached, Execute;
    GrowthReached(limits, [7], 8, min + 1, Idlers(1).(returning := 1), min);
    StartReached(limits, [7, 8], min + 2, Idlers(1).(returning := 1), min, false);
    var m := Grown([7, 8], 1, 0, min + 2, Idlers(1).(returning := 2), min + 1);
    assert Unmet(limits, m);
    ReachedBy(limits, m);
  }

  lemma {:induction false} ReachedBy(limits: Concurrency, m: Machine)
    requires Reached(limits, m) && Unmet(limits, m)
    ensures exists steps :: Unmet(limits, After(limits, steps))
  {
    hide Execute, Unmet;
    var steps :| After(limits, steps) == m;
  }
}
