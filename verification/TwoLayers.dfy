/** The worker pool over the session pool: a caller of the session pool is a worker inside a job, or
    the thread that opens the engine. */
module TwoLayers {
  import opened Options
  import opened SessionProof
  import Sessions = SessionMachine
  import SessionTheorems
  import Workers = WorkerMachine
  import WorkerProof
  import WorkerTheorems

  datatype Machine = Machine(workers: Workers.Machine, sessions: Sessions.Machine)

  datatype Step = Worker(work: Workers.Step) | Session(call: Sessions.Step)

  /** Threads that run commands: each runs one at a time, to its end. */
  function Runners(ts: Workers.Threads): nat { ts.serving + if ts.opener.Opening? then 1 else 0 }

  /** Callers anywhere in the session pool, the ones with a notify still to make among them. */
  function Calls(cs: Sessions.Callers): nat { SessionTheorems.Inside(cs) + cs.owing }

  /** A runner with no command under way. */
  predicate Between(m: Machine) { Calls(m.sessions.callers) < Runners(m.workers.threads) }

  /** A command is begun, a job ended and the opening finished only by a thread that has no command
      under way. Every other step of either pool is as it was. */
  predicate Enabled(limits: Concurrency, m: Machine, step: Step) {
    match step
    case Worker(s) => Workers.Enabled(limits, m.workers, s) && (s.FinishJob? || s.FinishOpen? ==> Between(m))
    case Session(s) => Sessions.Enabled(m.sessions, s) && (s.Ask? ==> Between(m))
  }

  function Apply(limits: Concurrency, m: Machine, step: Step): Machine
    requires Enabled(limits, m, step)
  {
    match step
    case Worker(s) => m.(workers := Workers.Apply(limits, m.workers, s))
    case Session(s) => m.(sessions := Sessions.Apply(limits, m.sessions, s))
  }

  function Execute(limits: Concurrency, m: Machine, steps: seq<Step>): Machine
    decreases |steps|
  {
    if steps == [] then m
    else Execute(limits, if Enabled(limits, m, steps[0]) then Apply(limits, m, steps[0]) else m, steps[1..])
  }

  function Init(limits: Concurrency, now: nat, reaps: bool): Machine {
    Machine(Workers.INIT, Sessions.Init(limits, now, reaps))
  }

  ghost predicate Inv(limits: Concurrency, m: Machine) {
    && WorkerProof.Inv(limits, m.workers) && SessionProof.Inv(limits, m.sessions)
    && Calls(m.sessions.callers) <= Runners(m.workers.threads)
  }

  // ---- the workers' side

  lemma {:induction false} LookRuns(limits: Concurrency, w: Workers.Machine, since: Option<nat>)
    ensures Runners(Workers.Look(limits, w, since).threads) >= Runners(w.threads)
  {
  }

  lemma {:induction false} LocksRun(w: Workers.Machine, newly: bool, i: nat)
    ensures (if newly then w.threads.newly > 0 else w.threads.ready > 0) ==>
              Runners(Workers.BeginWaiting(w, newly).threads) == Runners(w.threads)
    ensures i < |w.threads.woken| ==> Runners(Workers.TakeLock(w, i).threads) == Runners(w.threads)
  {
  }

  /** No worker stops running commands but by ending its job, and the opener by ending the open. */
  lemma {:induction false} RunnersStay(limits: Concurrency, w: Workers.Machine, s: Workers.Step)
    requires Workers.Enabled(limits, w, s)
    ensures Runners(Workers.Apply(limits, w, s).threads)
            >= Runners(w.threads) - if s.FinishJob? || s.FinishOpen? then 1 else 0
  {
    hide Workers.Look, Workers.BeginWaiting, Workers.TakeLock;
    match s {
      case FirstLook(newly) =>
        LocksRun(w, newly, 0);
        LookRuns(limits, Workers.BeginWaiting(w, newly), None);
      case LookAgain(i) =>
        LocksRun(w, true, i);
        LookRuns(limits, Workers.TakeLock(w, i), w.threads.woken[i]);
      case _ =>
    }
  }

  /** There are never more of them than the ceiling: while the engine is being opened there are no
      workers yet, and afterwards they are counted. */
  lemma {:induction false} RunnersFit(limits: Concurrency, w: Workers.Machine)
    requires WorkerProof.Inv(limits, w)
    ensures Runners(w.threads) <= limits.max
  {
  }

  // ---- the sessions' side

  lemma {:induction false} CallsStay(limits: Concurrency, m: Sessions.Machine, s: Sessions.Step)
    requires SessionProof.Inv(limits, m) && Sessions.Enabled(m, s)
    ensures Calls(Sessions.Apply(limits, m, s).callers) <= Calls(m.callers) + if s.Ask? then 1 else 0
  {
    hide Ordered, Apart, ArmedRight, FiredRight, NoneLost, FloorSpared;
    hide Sessions.Reap, Sessions.SlotAt;
    match s {
      case LookToReap => ReapCalls(limits, m);
      case ReportDestroyed => ReapCalls(limits, Sessions.Counted(m));
      case _ =>
    }
  }

  lemma {:induction false} ReapCalls(limits: Concurrency, m: Sessions.Machine)
    ensures Sessions.Reap(limits, m).callers == m.callers
  {
  }

  // ---- both

  lemma {:induction false} Kept(limits: Concurrency, m: Machine, step: Step)
    requires Inv(limits, m) && Enabled(limits, m, step)
    ensures Inv(limits, Apply(limits, m, step))
  {
    hide WorkerProof.Inv, SessionProof.Inv, Calls, Runners;
    hide Workers.Apply, Sessions.Apply, Workers.Enabled, Sessions.Enabled;
    match step
    case Worker(s) =>
      WorkerTheorems.Kept(limits, m.workers, s);
      RunnersStay(limits, m.workers, s);
    case Session(s) =>
      SessionProof.Kept(limits, m.sessions, s);
      CallsStay(limits, m.sessions, s);
  }

  lemma {:induction false} Always(limits: Concurrency, m: Machine, steps: seq<Step>)
    requires Inv(limits, m)
    ensures Inv(limits, Execute(limits, m, steps))
    decreases |steps|
  {
    hide Inv, Apply, Enabled;
    if steps != [] {
      if Enabled(limits, m, steps[0]) {
        Kept(limits, m, steps[0]);
        Always(limits, Apply(limits, m, steps[0]), steps[1..]);
      } else {
        Always(limits, m, steps[1..]);
      }
    }
  }

  lemma {:induction false} NobodyCalls(limits: Concurrency, now: nat, reaps: bool)
    ensures Calls(Sessions.Init(limits, now, reaps).callers) == 0
  {
  }

  lemma {:induction false} Starts(limits: Concurrency, now: nat, reaps: bool)
    requires limits.Valid()
    ensures Inv(limits, Init(limits, now, reaps))
  {
    hide WorkerProof.Inv, SessionProof.Inv, Calls, Sessions.Init, Runners, Workers.Execute;
    WorkerTheorems.Holds(limits, []);
    Unmoved(limits, Workers.INIT);
    SessionProof.Starts(limits, now, reaps);
    NobodyCalls(limits, now, reaps);
  }

  lemma {:induction false} Unmoved(limits: Concurrency, w: Workers.Machine)
    ensures Workers.Execute(limits, w, []) == w
  {
  }

  /** In every run of the two together: the callers of the session pool are at most its ceiling, so a
      worker is put to sleep there only while the reaper is destroying a session, and never in a
      fixed pool. */
  lemma {:induction false} WorkersFitSessions(limits: Concurrency, now: nat, reaps: bool, steps: seq<Step>, woken: bool)
    requires limits.Valid()
    ensures var m := Execute(limits, Init(limits, now, reaps), steps).sessions;
            && SessionTheorems.Inside(m.callers) <= limits.max
            && (Sessions.Enabled(m, Sessions.Check(woken))
                && Sessions.Checkout(limits, m, woken).callers.asleep > m.callers.asleep
                ==> Sessions.Dying(m.reaper) > 0 && limits.min < limits.max)
  {
    hide WorkerProof.Inv, Init, Execute, Workers.Apply, Sessions.Apply;
    Starts(limits, now, reaps);
    Always(limits, Init(limits, now, reaps), steps);
    var m := Execute(limits, Init(limits, now, reaps), steps);
    RunnersFit(limits, m.workers);
    hide Ordered, Apart, ArmedRight, FiredRight, NoneLost, FloorSpared, Runners;
  }
}
