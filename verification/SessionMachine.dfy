/** Every thread that touches the session pool: any number of callers, each for one command, the
    callers that stop waiting and cancel, and the reaper. A caller that holds no session carries
    nothing, so those are kept as how many there are at each place. */
module SessionMachine {
  import opened Options
  import opened Lists
  import opened SessionState
  import opened CommandSlot

  /** A command running on a session, with the slot armed to interrupt it. */
  datatype Armed = Armed(slot: nat, session: nat)

  datatype Reaper =
    | Absent
    | Looking
    | Resting
    | Destroying(left: seq<nat>, batch: nat)
    | Stopped

  /** Where callers are. */
  datatype Callers = Callers(
    asking: nat,           // at the lock in `checkout`
    asleep: nat,
    woken: nat,
    growing: nat,          // opening a session under a reservation
    growFailed: nat,       // about to give the reservation back
    holding: seq<nat>,     // checked out, slot not started
    armed: seq<Armed>,     // running the command
    leaving: seq<nat>,     // command over or refused, session to be given back
    owing: nat)            // a notify still to be made

  /** `kills` is every interrupt fired, and `hit` whether its session was still running the slot's
      own command; `ran` the slots whose command ran; `early` those cancelled before it did;
      `failedOpens` counts sessions the engine refused. */
  datatype Log = Log(kills: seq<Kill>, ran: seq<nat>, early: seq<nat>, failedOpens: nat)

  datatype Kill = Kill(slot: nat, session: nat, hit: bool)

  datatype Machine = Machine(
    pool: State,
    callers: Callers,
    reaper: Reaper,
    slots: map<nat, Slot>,
    next: nat,
    now: nat,
    log: Log)

  /** Every slot waits until something is done with it. */
  function SlotAt(m: Machine, k: nat): Slot { if k in m.slots then m.slots[k] else Waiting }

  /** Sessions of commands running. */
  function ArmedSessions(armed: seq<Armed>): (sessions: seq<nat>)
    ensures |sessions| == |armed|
    ensures forall i | 0 <= i < |armed| :: sessions[i] == armed[i].session
  {
    seq(|armed|, i requires 0 <= i < |armed| => armed[i].session)
  }

  function Dying(reaper: Reaper): nat { if reaper.Destroying? then reaper.batch else 0 }

  function Left(reaper: Reaper): seq<nat> { if reaper.Destroying? then reaper.left else [] }

  /** Every session there is, wherever it is. */
  function Everywhere(m: Machine): multiset<nat> {
    multiset(Sessions(m.pool.idle)) + multiset(m.callers.holding) + multiset(ArmedSessions(m.callers.armed))
    + multiset(m.callers.leaving) + multiset(Left(m.reaper))
  }

  /** A pool just opened: its floor of sessions, free since then. `reaps` is whether a reaper was
      called for and could be started. */
  function Init(limits: Concurrency, now: nat, reaps: bool): Machine {
    Machine(State(seq(limits.min, i requires 0 <= i => Idle(i, now)), limits.min, false),
            Callers(0, 0, 0, 0, 0, [], [], [], 0),
            if reaps && limits.idleTimeout.Some? then Looking else Absent,
            map[], limits.min, now, Log([], [], [], 0))
  }

  datatype Step =
    | Ask
    | Check(woken: bool)
    | Wake
    | OpenSession
    | RefuseSession
    | Unreserve
    | StartCommand(i: nat, slot: nat)
    | EndCommand(i: nat)
    | GiveBack(i: nat)
    | Notify
    | Cancel(slot: nat)
    | LookToReap
    | EndRest
    | Destroy
    | ReportDestroyed
    | StopReaping
    | Pass(time: nat)

  predicate Enabled(m: Machine, step: Step) {
    var cs := m.callers;
    match step
    case Ask => true
    case Check(woken) => if woken then cs.woken > 0 else cs.asking > 0
    case Wake => cs.asleep > 0
    case OpenSession => cs.growing > 0
    case RefuseSession => cs.growing > 0
    case Unreserve => cs.growFailed > 0
    case StartCommand(i, _) => i < |cs.holding|
    case EndCommand(i) => i < |cs.armed|
    case GiveBack(i) => i < |cs.leaving|
    case Notify => cs.owing > 0
    case Cancel(_) => true
    case LookToReap => m.reaper.Looking?
    case EndRest => m.reaper.Resting?
    case Destroy => m.reaper.Destroying? && m.reaper.left != []
    case ReportDestroyed => m.reaper.Destroying? && m.reaper.left == []
    case StopReaping => true
    case Pass(_) => true
  }

  function Apply(limits: Concurrency, m: Machine, step: Step): Machine
    requires Enabled(m, step)
  {
    var cs := m.callers;
    match step
    case Ask => m.(callers := cs.(asking := cs.asking + 1))
    case Check(woken) => Checkout(limits, m, woken)
    case Wake => m.(callers := cs.(asleep := cs.asleep - 1, woken := cs.woken + 1))
    case OpenSession => Opened(m)
    case RefuseSession =>
      m.(callers := cs.(growing := cs.growing - 1, growFailed := cs.growFailed + 1),
         log := m.log.(failedOpens := m.log.failedOpens + 1))
    case Unreserve =>
      m.(callers := cs.(growFailed := cs.growFailed - 1, owing := cs.owing + 1),
         pool := m.pool.(open := m.pool.open - 1))
    case StartCommand(i, k) => Started(m, i, k)
    case EndCommand(i) => Ended(m, i)
    case GiveBack(i) => GivenBack(m, i)
    case Notify => Notified(m)
    case Cancel(k) => CancelSlot(m, k)
    case LookToReap => Reap(limits, m)
    case EndRest => m.(reaper := Looking)
    case Destroy => m.(reaper := m.reaper.(left := m.reaper.left[1..]))
    case ReportDestroyed => Reap(limits, Counted(m))   // without letting go of the lock between
    case StopReaping => m.(pool := m.pool.(closing := true))
    case Pass(time) => m.(now := m.now + time)
  }

  /** One pass of `checkout` with the lock held: a free session, or room to open one, or sleep. */
  function Checkout(limits: Concurrency, m: Machine, woken: bool): Machine
    requires if woken then m.callers.woken > 0 else m.callers.asking > 0
  {
    var cs := if woken then m.callers.(woken := m.callers.woken - 1) else m.callers.(asking := m.callers.asking - 1);
    var (pool, taken) := m.pool.Taken();
    if taken.Some? then m.(pool := pool, callers := cs.(holding := cs.holding + [taken.value]))
    else if m.pool.open < limits.max then
      m.(pool := m.pool.(open := m.pool.open + 1), callers := cs.(growing := cs.growing + 1))
    else m.(callers := cs.(asleep := cs.asleep + 1))
  }

  function Opened(m: Machine): Machine
    requires m.callers.growing > 0
  {
    var cs := m.callers;
    m.(callers := cs.(growing := cs.growing - 1, holding := cs.holding + [m.next]), next := m.next + 1)
  }

  /** The slot is armed for the session in hand, or refuses because it was cancelled or used. */
  function Started(m: Machine, i: nat, k: nat): Machine
    requires i < |m.callers.holding|
  {
    var cs := m.callers;
    var s := cs.holding[i];
    var (slot, run) := SlotAt(m, k).Started(s);
    if run then
      m.(callers := cs.(holding := Without(cs.holding, i), armed := cs.armed + [Armed(k, s)]),
         slots := m.slots[k := slot], log := m.log.(ran := m.log.ran + [k]))
    else
      m.(callers := cs.(holding := Without(cs.holding, i), leaving := cs.leaving + [s]))
  }

  /** The command is over, by returning or unwinding, and the slot is disarmed with the session
      still held. */
  function Ended(m: Machine, i: nat): Machine
    requires i < |m.callers.armed|
  {
    var cs := m.callers;
    var armed := cs.armed[i];
    m.(callers := cs.(armed := Without(cs.armed, i), leaving := cs.leaving + [armed.session]),
       slots := m.slots[armed.slot := SlotAt(m, armed.slot).Disarmed()])
  }

  function GivenBack(m: Machine, i: nat): Machine
    requires i < |m.callers.leaving|
  {
    var cs := m.callers;
    m.(callers := cs.(leaving := Without(cs.leaving, i), owing := cs.owing + 1),
       pool := m.pool.GivenBack(cs.leaving[i], m.now))
  }

  function Notified(m: Machine): Machine
    requires m.callers.owing > 0
  {
    var cs := m.callers.(owing := m.callers.owing - 1);
    m.(callers := if cs.asleep > 0 then cs.(asleep := cs.asleep - 1, woken := cs.woken + 1) else cs)
  }

  /** A caller stops waiting: its slot fires if it is running, and is spent. */
  function CancelSlot(m: Machine, k: nat): Machine {
    var (slot, killed) := SlotAt(m, k).Stopped();
    var m' := m.(slots := m.slots[k := slot]);
    match killed
    case Some(s) => m'.(log := m.log.(kills := m.log.kills + [Kill(k, s, Armed(k, s) in m.callers.armed)]))
    case None => if SlotAt(m, k).Waiting? then m'.(log := m.log.(early := m.log.early + [k])) else m'
  }

  /** The reaper with the lock held: stop, or take what is overdue to destroy it unlocked, or
      rest. */
  function Reap(limits: Concurrency, m: Machine): Machine {
    if m.pool.closing || limits.idleTimeout.None? then m.(reaper := Stopped)
    else
      var (pool, reaped) := m.pool.Reap(limits.min, limits.idleTimeout.value, m.now);
      m.(pool := pool,
         reaper := if reaped.expired != [] then Destroying(reaped.expired, |reaped.expired|) else Resting)
  }

  /** The reaper back at the lock: it counts what it destroyed and wakes everyone. */
  function Counted(m: Machine): Machine
    requires m.reaper.Destroying?
  {
    var cs := m.callers;
    m.(pool := m.pool.(open := m.pool.open - m.reaper.batch), reaper := Looking,
       callers := cs.(asleep := 0, woken := cs.woken + cs.asleep))
  }

  /** A step that is not enabled is passed over, so every list of steps is a run. */
  function Execute(limits: Concurrency, m: Machine, steps: seq<Step>): Machine
    decreases |steps|
  {
    if steps == [] then m
    else Execute(limits, if Enabled(m, steps[0]) then Apply(limits, m, steps[0]) else m, steps[1..])
  }
}
