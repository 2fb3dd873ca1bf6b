/** Threads moving, reading and establishing the floors of one process, a command at a time. Only
    the lock keeps them apart: a thread past the lock sends its commands without asking again. */
module FloorMachine {
  import opened Options
  import opened Floors

  datatype Op = Move(floor: Floor) | Read | Open(requested: Option<Floor>)

  datatype Outcome = Succeeded | Answered(pair: Pair) | Failed(error: Error)

  /** Where a thread is. */
  datatype At =
    | Queued(op: Op)                                            // at the lock
    | Recalling(requested: Option<Floor>)                       // an open, about to look at what is recorded
    | Asking(op: Op)                                            // about to read the knobs
    | MoveFirst(floor: Floor, before: Pair)
    | MoveSecond(floor: Floor, before: Pair)
    | PutBack(floor: Floor, before: Pair, cause: Error)
    | OpenFirst(target: Pair)
    | OpenSecond(target: Pair)
    | Leaving(outcome: Outcome)                                 // about to let the lock go

  /** What the lock's holder has done since it took it. */
  datatype Current = Current(op: Op, before: World, answers: Answers, sent: seq<Command>)

  datatype Transaction =
    Transaction(op: Op, before: World, answers: Answers, sent: seq<Command>, outcome: Outcome, after: World)

  /** `clients` is how many are handed out; `wire` is every command the engine was sent; `done` the
      operations completed, and `now` the one that has the lock, kept to speak about. */
  datatype Machine = Machine(
    world: World,
    clients: nat,
    threads: map<nat, At>,
    lock: Option<nat>,
    wire: seq<Command>,
    now: Current,
    done: seq<Transaction>)

  const NOTHING := Answers(Refuse, Refuse, Refuse, Refuse)

  function Init(initial: Pair): Machine {
    var world := World(initial, None);
    Machine(world, 0, map[], None, [], Current(Read, world, NOTHING, []), [])
  }

  /** An open may come at any time, beside other opens and beside movers and readers of any client,
      though the engine allows one runtime at a time: nothing here leans on that rule, only on the
      lock. Moving or reading takes a client handed out. */
  datatype Step =
    | Ask(t: nat, op: Op)
    | Take(t: nat)
    | Recall(t: nat)
    | Send(t: nat, answer: Answer)
    | Leave(t: nat)
    | Close

  /** The command a thread sends next. */
  function Sends(at: At): Option<Command> {
    match at
    case Asking(_) => Some(Get)
    case MoveFirst(floor, _) => Some(floor.Knobs().Commands()[0])
    case MoveSecond(floor, _) => Some(floor.Knobs().Commands()[1])
    case PutBack(_, before, _) => Some(before.Commands()[0])
    case OpenFirst(target) => Some(target.Commands()[0])
    case OpenSecond(target) => Some(target.Commands()[1])
    case _ => None
  }

  predicate Enabled(m: Machine, step: Step) {
    match step
    case Ask(t, op) => t !in m.threads && (op.Open? || m.clients > 0)
    case Take(t) => t in m.threads && m.threads[t].Queued? && m.lock.None?
    case Recall(t) => t in m.threads && m.threads[t].Recalling?
    case Send(t, _) => t in m.threads && Sends(m.threads[t]).Some?
    case Leave(t) => t in m.threads && m.threads[t].Leaving?
    case Close => m.clients > 0
  }

  function Apply(m: Machine, step: Step): Machine
    requires Enabled(m, step)
  {
    match step
    case Ask(t, op) => m.(threads := m.threads[t := Queued(op)])
    case Take(t) => TakeLock(m, t)
    case Recall(t) => RecallOwn(m, t)
    case Send(t, answer) => SendOne(m, t, answer)
    case Leave(t) => LeaveLock(m, t)
    case Close => m.(clients := m.clients - 1)
  }

  function TakeLock(m: Machine, t: nat): Machine
    requires Enabled(m, Take(t))
  {
    var op := m.threads[t].op;
    var at := if op.Open? then Recalling(op.requested) else Asking(op);
    m.(lock := Some(t), threads := m.threads[t := at], now := Current(op, m.world, NOTHING, []))
  }

  function Target(requested: Option<Floor>, own: Pair): Pair {
    if requested.Some? then requested.value.Knobs() else own
  }

  function RecallOwn(m: Machine, t: nat): Machine
    requires Enabled(m, Recall(t))
  {
    var requested := m.threads[t].requested;
    m.(threads := m.threads[t :=
         match m.world.recorded
         case Some(own) => OpenFirst(Target(requested, own))
         case None => Asking(Open(requested))])
  }

  /** One command and its answer. */
  function SendOne(m: Machine, t: nat, answer: Answer): Machine
    requires Enabled(m, Send(t, answer))
  {
    var at := m.threads[t];
    var command := Sends(at).value;
    var knobs := if answer.Refuse? then m.world.knobs else Obeyed(m.world.knobs, command);
    var recorded :=
      if at.Asking? && at.op.Open? && Told(m.world.knobs, answer).Ok? then Some(Told(m.world.knobs, answer).value)
      else m.world.recorded;
    m.(world := World(knobs, recorded),
       wire := m.wire + [command],
       threads := m.threads[t := Onward(at, m.world.knobs, answer)],
       now := m.now.(answers := Noted(m.now.answers, at, answer), sent := m.now.sent + [command]))
  }

  function Noted(answers: Answers, at: At, answer: Answer): Answers {
    match at
    case Asking(_) => answers.(read := answer)
    case MoveFirst(_, _) => answers.(first := answer)
    case OpenFirst(_) => answers.(first := answer)
    case MoveSecond(_, _) => answers.(second := answer)
    case OpenSecond(_) => answers.(second := answer)
    case _ => answers.(back := answer)
  }

  /** Where the answer takes the thread that asked. */
  function Onward(at: At, knobs: Pair, answer: Answer): At
    requires Sends(at).Some?
  {
    var refused := Refused(Sends(at).value);
    match at
    case Asking(op) =>
      (match Told(knobs, answer)
       case Err(error) => Leaving(Failed(error))
       case Ok(pair) =>
         match op
         case Move(floor) => MoveFirst(floor, pair)
         case Read => Leaving(Answered(pair))
         case Open(requested) => OpenFirst(Target(requested, pair)))
    case MoveFirst(floor, before) =>
      if answer.Refuse? then Leaving(Failed(refused)) else MoveSecond(floor, before)
    case MoveSecond(floor, before) =>
      if answer.Refuse? then PutBack(floor, before, refused) else Leaving(Succeeded)
    case PutBack(floor, _, cause) =>
      Leaving(Failed(if answer.Refuse? then NotRestored(floor, cause, refused) else cause))
    case OpenFirst(target) =>
      if answer.Refuse? then Leaving(Failed(refused)) else OpenSecond(target)
    case OpenSecond(_) =>
      Leaving(if answer.Refuse? then Failed(refused) else Succeeded)
  }

  /** Only an open that succeeds hands a client out; a failed one drops it. */
  function LeaveLock(m: Machine, t: nat): Machine
    requires Enabled(m, Leave(t))
  {
    var outcome := m.threads[t].outcome;
    m.(lock := None,
       threads := map x | x in m.threads && x != t :: m.threads[x],
       clients := if m.now.op.Open? && !outcome.Failed? then m.clients + 1 else m.clients,
       done := m.done + [Transaction(m.now.op, m.now.before, m.now.answers, m.now.sent, outcome, m.world)])
  }

  /** A step that is not enabled is passed over, so every list of steps is a run. */
  function Execute(m: Machine, steps: seq<Step>): Machine
    decreases |steps|
  {
    if steps == [] then m
    else Execute(if Enabled(m, steps[0]) then Apply(m, steps[0]) else m, steps[1..])
  }

  /** The operation as if nothing else ran: what it leaves, sends and answers. */
  function Atomic(op: Op, world: World, answers: Answers): (World, seq<Command>, Outcome) {
    match op
    case Read =>
      (world, [Get],
       (match Told(world.knobs, answers.read) case Ok(pair) => Answered(pair) case Err(error) => Failed(error)))
    case Move(floor) =>
      var done := Moved(world.knobs, floor, answers);
      (world.(knobs := done.knobs), done.sent, Closing(done.result))
    case Open(requested) =>
      var (after, sent, result) := Established(world, requested, answers);
      (after, sent, Closing(result))
  }

  function Closing(result: Result<()>): Outcome {
    match result case Ok(_) => Succeeded case Err(error) => Failed(error)
  }
}
