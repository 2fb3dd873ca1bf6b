/** What holds of the floors over every interleaving and every history of the process. */
module FloorTheorems {
  import opened Options
  import opened Floors
  import opened FloorMachine

  // ---- the operation that has the lock

  /** How far the lock's holder has got is how far the operation would have got alone. */
  predicate OnCourse(at: At, now: Current, world: World) {
    match at
    case Queued(_) => false
    case Recalling(requested) => now == Current(Open(requested), world, NOTHING, [])
    case Asking(op) =>
      now == Current(op, world, NOTHING, []) && (op.Open? ==> world.recorded.None?)
    case MoveFirst(floor, before) =>
      && now.op == Move(floor) && now.before == world && before == world.knobs
      && now.sent == [Get] && now.answers == NOTHING.(read := Obey(Whole, Whole))
    case MoveSecond(floor, before) =>
      HalfMoved(floor, before, now, world) && now.sent == [Get] + floor.Knobs().Commands()[..1]
    case PutBack(floor, before, cause) =>
      && HalfMoved(floor, before, now, world) && now.sent == [Get] + floor.Knobs().Commands()
      && now.answers.second == Refuse && cause == Refused(floor.Knobs().Commands()[1])
    case OpenFirst(target) =>
      && Recorded(target, now, world) && now.sent == Asked(now) && now.answers.first == Refuse
      && world.knobs == now.before.knobs
    case OpenSecond(target) =>
      && Recorded(target, now, world) && now.sent == Asked(now) + target.Commands()[..1] && !now.answers.first.Refuse?
      && world.knobs == now.before.knobs.(indexBuild := target.indexBuild)
    case Leaving(outcome) => (world, now.sent, outcome) == Atomic(now.op, now.before, now.answers)
  }

  predicate HalfMoved(floor: Floor, before: Pair, now: Current, world: World) {
    && now.op == Move(floor) && before == now.before.knobs
    && now.answers.read == Obey(Whole, Whole) && !now.answers.first.Refuse? && now.answers.back == Refuse
    && world == now.before.(knobs := before.(indexBuild := floor.Knobs().indexBuild))
  }

  function Asked(now: Current): seq<Command> { if now.before.recorded.Some? then [] else [Get] }

  /** An open that has what it is to apply. */
  predicate Recorded(target: Pair, now: Current, world: World) {
    && now.op.Open? && world.recorded.Some?
    && (if now.before.recorded.Some? then world.recorded == now.before.recorded
        else Told(now.before.knobs, now.answers.read) == Ok(world.recorded.value))
    && target == Target(now.op.requested, world.recorded.value)
  }

  lemma {:induction false} AskOnCourse(m: Machine, t: nat, answer: Answer)
    requires Enabled(m, Send(t, answer)) && OnCourse(m.threads[t], m.now, m.world) && m.threads[t].Asking?
    ensures var m' := SendOne(m, t, answer);
            OnCourse(m'.threads[t], m'.now, m'.world)
  {
    ToldTruly(m.world.knobs, answer);
    assert m.now.sent + [Get] == [Get];
  }

  lemma {:induction false} MoveOnCourse(m: Machine, t: nat, answer: Answer)
    requires Enabled(m, Send(t, answer)) && OnCourse(m.threads[t], m.now, m.world)
    requires m.threads[t].MoveFirst? || m.threads[t].MoveSecond? || m.threads[t].PutBack?
    ensures var m' := SendOne(m, t, answer);
            OnCourse(m'.threads[t], m'.now, m'.world)
  {
    hide Told, Established;
    var m' := SendOne(m, t, answer);
    ToldTruly(m.now.before.knobs, m.now.answers.read);
    var at := m.threads[t];
    var commands := at.floor.Knobs().Commands();
    if at.MoveFirst? {
      assert m'.now.sent == [Get] + commands[..1];
    } else if at.MoveSecond? {
      assert m'.now.sent == [Get] + commands;
    } else {
      assert m'.now.sent == [Get] + (commands + [at.before.Commands()[0]]);
    }
  }

  lemma {:induction false} OpenOnCourse(m: Machine, t: nat, answer: Answer)
    requires Enabled(m, Send(t, answer)) && OnCourse(m.threads[t], m.now, m.world)
    requires m.threads[t].OpenFirst? || m.threads[t].OpenSecond?
    ensures var m' := SendOne(m, t, answer);
            OnCourse(m'.threads[t], m'.now, m'.world)
  {
    hide Told, Moved;
    var m' := SendOne(m, t, answer);
    var at := m.threads[t];
    var commands := at.target.Commands();
    if at.OpenFirst? {
      assert m'.now.sent == Asked(m.now) + commands[..1];
    } else {
      assert m'.now.sent == Asked(m.now) + commands;
    }
  }

  lemma {:induction false} SendOnCourse(m: Machine, t: nat, answer: Answer)
    requires Enabled(m, Send(t, answer)) && OnCourse(m.threads[t], m.now, m.world)
    ensures var m' := SendOne(m, t, answer);
            OnCourse(m'.threads[t], m'.now, m'.world)
  {
    hide OnCourse, SendOne;
    match m.threads[t]
    case Asking(_) => AskOnCourse(m, t, answer);
    case OpenFirst(_) => OpenOnCourse(m, t, answer);
    case OpenSecond(_) => OpenOnCourse(m, t, answer);
    case _ => MoveOnCourse(m, t, answer);
  }

  // ---- what every step keeps

  /** Only the lock's holder is past the lock. */
  predicate Locked(m: Machine) {
    && (forall t | t in m.threads && !m.threads[t].Queued? :: m.lock == Some(t))
    && (m.lock.Some? ==> m.lock.value in m.threads && OnCourse(m.threads[m.lock.value], m.now, m.world))
  }

  /** An open at work, before or past the lock. */
  predicate OpenAt(at: At, now: Current) {
    if at.Queued? then at.op.Open? else now.op.Open?
  }

  /** Nothing but an open is at work, and no client handed out, until the record is made. */
  predicate Lives(m: Machine) {
    m.world.recorded.None? ==> m.clients == 0 && forall t | t in m.threads :: OpenAt(m.threads[t], m.now)
  }

  /** Nothing is recorded and nothing has moved, or what is recorded is what was there first. */
  predicate Sound(initial: Pair, world: World) {
    match world.recorded
    case None => world.knobs == initial
    case Some(own) => own == initial
  }

  /** The knobs and the record as the last completed operation left them. */
  function Boundary(m: Machine): World { if m.lock.Some? then m.now.before else m.world }

  /** The operations one after another, each done alone, from the process's start to `to`. */
  predicate Serial(initial: Pair, done: seq<Transaction>, to: World)
    decreases |done|
  {
    && Sound(initial, to)
    && if done == [] then to == World(initial, None)
       else
         var last := done[|done| - 1];
         && (to, last.sent, last.outcome) == Atomic(last.op, last.before, last.answers)
         && last.after == to
         && Serial(initial, done[..|done| - 1], last.before)
  }

  function Flatten(done: seq<Transaction>): seq<Command>
    decreases |done|
  {
    if done == [] then [] else Flatten(done[..|done| - 1]) + done[|done| - 1].sent
  }

  predicate InOrder(m: Machine) {
    m.wire == Flatten(m.done) + if m.lock.Some? then m.now.sent else []
  }

  predicate Inv(initial: Pair, m: Machine) {
    Locked(m) && Lives(m) && Sound(initial, m.world) && Serial(initial, m.done, Boundary(m)) && InOrder(m)
  }

  lemma {:induction false} KeepsAsk(initial: Pair, m: Machine, t: nat, op: Op)
    requires Inv(initial, m) && Enabled(m, Ask(t, op))
    ensures Inv(initial, Apply(m, Ask(t, op)))
  {
    hide OnCourse, Serial, Flatten, Sound;
  }

  lemma {:induction false} KeepsTake(initial: Pair, m: Machine, t: nat)
    requires Inv(initial, m) && Enabled(m, Take(t))
    ensures Inv(initial, TakeLock(m, t))
  {
    hide Serial, Flatten, Sound, Atomic;
    assert forall x | x in m.threads :: m.threads[x].Queued?;
    var m' := TakeLock(m, t);
    if m.threads[t].op.Open? {
      assert m'.threads[t] == Recalling(m.threads[t].op.requested);
    }
  }

  lemma {:induction false} KeepsRecall(initial: Pair, m: Machine, t: nat)
    requires Inv(initial, m) && Enabled(m, Recall(t))
    ensures Inv(initial, RecallOwn(m, t))
  {
    hide Serial, Flatten, Sound, Atomic;
  }

  lemma {:induction false} KeepsSend(initial: Pair, m: Machine, t: nat, answer: Answer)
    requires Inv(initial, m) && Enabled(m, Send(t, answer))
    ensures Inv(initial, SendOne(m, t, answer))
  {
    SendOnCourse(m, t, answer);
    SendSound(initial, m, t, answer);
    hide Serial, Flatten, Sound, OnCourse, Onward;
    var m' := SendOne(m, t, answer);
    NeverBack(m.threads[t], m.world.knobs, answer);
    assert m'.now.op == m.now.op && m'.now.before == m.now.before;
    assert m'.wire == Flatten(m.done) + m'.now.sent;
  }

  lemma {:induction false} NeverBack(at: At, knobs: Pair, answer: Answer)
    requires Sends(at).Some?
    ensures !Onward(at, knobs, answer).Queued?
  {
  }

  lemma {:induction false} SendSound(initial: Pair, m: Machine, t: nat, answer: Answer)
    requires Inv(initial, m) && Enabled(m, Send(t, answer))
    ensures var world := SendOne(m, t, answer).world;
            Sound(initial, world) && (m.world.recorded.Some? ==> world.recorded.Some?)
  {
    hide Serial, Flatten, Atomic;
    ToldTruly(m.world.knobs, answer);
  }

  lemma {:induction false} KeepsLeave(initial: Pair, m: Machine, t: nat)
    requires Inv(initial, m) && Enabled(m, Leave(t))
    ensures Inv(initial, LeaveLock(m, t))
  {
    var m' := LeaveLock(m, t);
    assert m'.done[..|m.done|] == m.done;
    LeaveLives(initial, m, t);
    hide Atomic, Sound;
  }

  lemma {:induction false} LeaveLives(initial: Pair, m: Machine, t: nat)
    requires Inv(initial, m) && Enabled(m, Leave(t))
    ensures Lives(LeaveLock(m, t))
  {
    hide Serial, Flatten, Sound;
    var m' := LeaveLock(m, t);
    assert forall u | u in m'.threads :: u in m.threads && m'.threads[u] == m.threads[u] && m.threads[u].Queued?;
  }

  lemma {:induction false} Kept(initial: Pair, m: Machine, step: Step)
    requires Inv(initial, m) && Enabled(m, step)
    ensures Inv(initial, Apply(m, step))
  {
    match step
    case Ask(t, op) => KeepsAsk(initial, m, t, op);
    case Take(t) => KeepsTake(initial, m, t);
    case Recall(t) => KeepsRecall(initial, m, t);
    case Send(t, answer) => KeepsSend(initial, m, t, answer);
    case Leave(t) => KeepsLeave(initial, m, t);
    case Close =>
  }

  lemma {:induction false} Always(initial: Pair, m: Machine, steps: seq<Step>)
    requires Inv(initial, m)
    ensures Inv(initial, Execute(m, steps))
    decreases |steps|
  {
    hide Inv, Apply, Enabled;
    if steps != [] {
      if Enabled(m, steps[0]) {
        Kept(initial, m, steps[0]);
        Always(initial, Apply(m, steps[0]), steps[1..]);
      } else {
        Always(initial, m, steps[1..]);
      }
    }
  }

  /** The state a run of the process ends in, with the floors it started with. */
  function After(initial: Pair, steps: seq<Step>): Machine { Execute(Init(initial), steps) }

  lemma {:induction false} Holds(initial: Pair, steps: seq<Step>)
    ensures Inv(initial, After(initial, steps))
  {
    assert Inv(initial, Init(initial));
    hide Inv, Init;
    Always(initial, Init(initial), steps);
  }

  // ---- floors move as wholes

  /** Every interleaving is some order of the operations: the commands reached the engine one
      operation at a time, and each left, sent and answered what it would have done alone. */
  lemma {:induction false} Serialised(initial: Pair, steps: seq<Step>)
    ensures var m := After(initial, steps);
            && Serial(initial, m.done, Boundary(m))
            && m.wire == Flatten(m.done) + if m.lock.Some? then m.now.sent else []
  {
    Holds(initial, steps);
  }

  /** What each operation is to have done, without saying how. */
  predicate Right(initial: Pair, t: Transaction) {
    match t.op
    case Read =>
      && t.after == t.before && (t.outcome.Answered? ==> t.outcome.pair == t.before.knobs)
      && (t.outcome.Answered? <==> t.answers.read == Obey(Whole, Whole)) && (t.outcome.Answered? || t.outcome.Failed?)
    case Move(floor) =>
      && t.after.recorded == t.before.recorded
      && (t.outcome == Succeeded <==> t.answers.read == Obey(Whole, Whole) && BothSent(t.answers))
      && (t.outcome == Succeeded ==> t.after.knobs == floor.Knobs())
      && (t.outcome != Succeeded ==> t.outcome.Failed?)
      && (t.outcome.Failed? && !t.outcome.error.NotRestored? ==> t.after.knobs == t.before.knobs)
      && (t.outcome.Failed? && t.outcome.error.NotRestored? ==>
            t.after.knobs == Pair(floor.Knobs().indexBuild, t.before.knobs.querySpilling))
    case Open(requested) =>
      && (t.outcome == Succeeded <==>
            (t.before.recorded.Some? || t.answers.read == Obey(Whole, Whole)) && BothSent(t.answers))
      && (t.outcome == Succeeded ==>
            && t.after.recorded == Some(initial)
            && t.after.knobs == if requested.Some? then requested.value.Knobs() else initial)
      && (t.outcome != Succeeded ==>
            && t.outcome.Failed?
            && (|| t.after.knobs == t.before.knobs
                || t.after ==
                   World(Target(requested, initial).(querySpilling := t.before.knobs.querySpilling), Some(initial))))
  }

  /** Neither of the two commands is refused. */
  predicate BothSent(answers: Answers) { !answers.first.Refuse? && !answers.second.Refuse? }

  lemma {:induction false} AtomicIsRight(initial: Pair, t: Transaction)
    requires Sound(initial, t.before) && (t.after, t.sent, t.outcome) == Atomic(t.op, t.before, t.answers)
    ensures Right(initial, t)
  {
    ToldTruly(t.before.knobs, t.answers.read);
    match t.op
    case Read =>
    case Move(floor) => MovesWholly(t.before.knobs, floor, t.answers);
    case Open(requested) => EstablishesWholly(t.before, requested, t.answers);
  }

  lemma {:induction false} SerialIsRight(initial: Pair, done: seq<Transaction>, to: World, i: nat)
    requires Serial(initial, done, to) && i < |done|
    ensures Right(initial, done[i])
    ensures done[i].before == if i == 0 then World(initial, None) else done[i - 1].after
    decreases |done|
  {
    hide Right, Atomic, Sound;
    var last := done[|done| - 1];
    assert Serial(initial, done[..|done| - 1], last.before);
    if i == |done| - 1 {
      assert Sound(initial, last.before);
      AtomicIsRight(initial, last);
    } else {
      SerialIsRight(initial, done[..|done| - 1], last.before, i);
    }
  }

  /** In every interleaving, whatever the engine refuses: each operation starts where the last one
      ended; a reading is what was in force there; a move ends with both knobs as asked, or both
      as they were, or says that it could not; and an open that succeeds ends on the floor it
      named or on the pair the process started with, to the byte. */
  lemma {:induction false} FloorsMoveWhole(initial: Pair, steps: seq<Step>, i: nat)
    ensures var done := After(initial, steps).done;
            i < |done| ==>
              && Right(initial, done[i])
              && done[i].before == if i == 0 then World(initial, None) else done[i - 1].after
  {
    hide Right;
    Holds(initial, steps);
    var m := After(initial, steps);
    hide After, Locked, Lives, InOrder, Serial, Sound;
    if i < |m.done| {
      SerialIsRight(initial, m.done, Boundary(m), i);
    }
  }

  /** At every moment of every history, half-way through any operation too: either nothing is
      recorded and the floors are the first ones, or the first ones are what is recorded. */
  lemma {:induction false} DefaultsSurvive(initial: Pair, steps: seq<Step>)
    ensures var world := After(initial, steps).world;
            world.recorded == Some(initial) || (world.recorded.None? && world.knobs == initial)
  {
    Holds(initial, steps);
  }

  // ---- nothing is kept waiting

  /** An operation asked for is queued: an open at any time, and any other once a client is handed
      out. A client is handed out by an open exactly when the open succeeds, and taken back by a
      close. */
  lemma {:induction false} AsksAndLeaves(m: Machine, t: nat, op: Op)
    ensures Enabled(m, Ask(t, op)) <==> t !in m.threads && (op.Open? || m.clients > 0)
    ensures Enabled(m, Ask(t, op)) ==> Apply(m, Ask(t, op)) == m.(threads := m.threads[t := Queued(op)])
    ensures Enabled(m, Leave(t)) ==>
              var m' := Apply(m, Leave(t));
              && t !in m'.threads && m'.lock.None? && m'.world == m.world
              && (forall u | u in m.threads && u != t :: u in m'.threads && m'.threads[u] == m.threads[u])
              && m'.clients == m.clients + if m.now.op.Open? && !m.threads[t].outcome.Failed? then 1 else 0
    ensures Enabled(m, Close) <==> m.clients > 0
    ensures Enabled(m, Close) ==> Apply(m, Close) == m.(clients := m.clients - 1)
  {
  }

  /** In every run, while any thread is at work some thread can go on, whatever the engine answers. */
  lemma {:induction false} NeverStuck(initial: Pair, steps: seq<Step>, t: nat, answer: Answer)
    ensures var m := After(initial, steps);
            t in m.threads ==>
              exists u ::
                Enabled(m, Take(u)) || Enabled(m, Recall(u)) || Enabled(m, Send(u, answer)) || Enabled(m, Leave(u))
  {
    Holds(initial, steps);
    var m := After(initial, steps);
    hide After, Lives, Sound, Serial, InOrder;
    if t in m.threads {
      if m.lock.Some? {
        var u := m.lock.value;
        assert !m.threads[u].Queued?;
        assert Enabled(m, Recall(u)) || Enabled(m, Send(u, answer)) || Enabled(m, Leave(u));
      } else {
        assert m.threads[t].Queued?;
        assert Enabled(m, Take(t));
      }
    }
  }

  /** How many more commands a thread past the lock can send before it leaves. */
  function Remaining(at: At): nat {
    match at
    case Queued(_) => 7
    case Recalling(_) => 6
    case Asking(_) => 5
    case MoveFirst(_, _) => 4
    case MoveSecond(_, _) => 3
    case PutBack(_, _, _) => 2
    case OpenFirst(_) => 4
    case OpenSecond(_) => 3
    case Leaving(_) => 1
  }

  /** And every step of a thread brings it nearer to leaving. */
  lemma {:induction false} NearerToLeaving(m: Machine, t: nat, step: Step)
    requires step.Take? || step.Recall? || step.Send? || step.Leave?
    requires Enabled(m, step) && t == step.t
    ensures var m' := Apply(m, step);
            t in m'.threads ==> Remaining(m'.threads[t]) < Remaining(m.threads[t])
    ensures step.Leave? <==> t !in Apply(m, step).threads
  {
  }
}
