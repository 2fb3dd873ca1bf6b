/** The two free-disk floors of the process: one decision, two knobs, two units, two commands. */
module Floors {
  import opened Options

  const BYTES_PER_MEBIBYTE: nat := 1024 * 1024
  const I64_MAX: nat := 0x7FFF_FFFF_FFFF_FFFF

  datatype Knob = IndexBuild | QuerySpilling

  /** Both knobs, each in the unit it takes: mebibytes, and bytes. */
  datatype Pair = Pair(indexBuild: int, querySpilling: int) {

    /** In knob order. */
    function Commands(): seq<Command> {
      [Set(IndexBuild, indexBuild), Set(QuerySpilling, querySpilling)]
    }
  }

  datatype Command = Get | Set(knob: Knob, value: int)

  /** The floor a caller names. */
  datatype Floor = Floor(mebibytes: nat) {

    static function FromMebibytes(mebibytes: nat): Option<Floor> {
      if InRange(mebibytes, 1, U32_MAX) then Some(Floor(mebibytes)) else None
    }

    function Knobs(): Pair { Pair(mebibytes, mebibytes * BYTES_PER_MEBIBYTE) }
  }

  /** Every floor a caller can name reaches both knobs exactly, with nothing lost to 64 bits, and
      zero is not a floor. */
  lemma {:induction false} FloorsFit(mebibytes: nat)
    requires mebibytes <= U32_MAX
    ensures Floor.FromMebibytes(mebibytes).None? <==> mebibytes == 0
    ensures mebibytes > 0 ==>
              var floor := Floor.FromMebibytes(mebibytes).value;
              && 0 < floor.Knobs().indexBuild <= floor.Knobs().querySpilling <= I64_MAX
              && floor.Knobs().querySpilling / BYTES_PER_MEBIBYTE == floor.Knobs().indexBuild == mebibytes
  {
  }

  // ---- what the engine answers

  /** How a knob shows in a reply. */
  datatype Shown = Whole | Missing | Mistyped

  /** A refused command is one the engine did not apply. How the knobs show matters only to a
      read; a count that shows at all is the one in force. */
  datatype Answer = Refuse | Obey(indexBuild: Shown, querySpilling: Shown)

  datatype Field = Int64(value: int) | Other | Nothing

  datatype Reply = Reply(indexBuild: Field, querySpilling: Field)

  datatype Error =
    | Refused(command: Command)
    | Unreadable(knob: Knob, absent: bool)
    | NotRestored(requested: Floor, cause: Error, rollback: Error)

  datatype Result<+T> = Ok(value: T) | Err(error: Error)

  function Show(value: int, shown: Shown): Field {
    match shown
    case Whole => Int64(value)
    case Missing => Nothing
    case Mistyped => Other
  }

  function Obeyed(knobs: Pair, command: Command): Pair {
    match command
    case Get => knobs
    case Set(IndexBuild, value) => knobs.(indexBuild := value)
    case Set(QuerySpilling, value) => knobs.(querySpilling := value)
  }

  function FloorIn(field: Field, knob: Knob): Result<int> {
    match field
    case Int64(value) => Ok(value)
    case Other => Err(Unreadable(knob, false))
    case Nothing => Err(Unreadable(knob, true))
  }

  function Reported(reply: Reply): Result<Pair> {
    match FloorIn(reply.indexBuild, IndexBuild)
    case Err(error) => Err(error)
    case Ok(indexBuild) =>
      match FloorIn(reply.querySpilling, QuerySpilling)
      case Err(error) => Err(error)
      case Ok(querySpilling) => Ok(Pair(indexBuild, querySpilling))
  }

  /** What a read makes of one answer. */
  function Told(knobs: Pair, answer: Answer): Result<Pair> {
    if answer.Refuse? then Err(Refused(Get))
    else Reported(Reply(Show(knobs.indexBuild, answer.indexBuild), Show(knobs.querySpilling, answer.querySpilling)))
  }

  /** A read that succeeds is right, and one succeeds exactly when both counts show. One that fails
      names the first knob that cannot be read, and whether it was missing or held something else. */
  lemma {:induction false} ToldTruly(knobs: Pair, answer: Answer)
    ensures Told(knobs, answer).Ok? <==> answer == Obey(Whole, Whole)
    ensures Told(knobs, answer).Ok? ==> Told(knobs, answer).value == knobs
    ensures answer.Refuse? <==> Told(knobs, answer) == Err(Refused(Get))
    ensures answer.Obey? && answer.indexBuild != Whole <==>
            Told(knobs, answer) == Err(Unreadable(IndexBuild, answer.Obey? && answer.indexBuild == Missing))
    ensures answer.Obey? && answer.indexBuild == Whole && answer.querySpilling != Whole <==>
            Told(knobs, answer) == Err(Unreadable(QuerySpilling, answer.Obey? && answer.querySpilling == Missing))
  {
  }

  // ---- each operation as if nothing else ran

  /** What an operation leaves the knobs at, what it sent, and what it answered. */
  datatype Done<+T> = Done(knobs: Pair, sent: seq<Command>, result: Result<T>)

  /** The answers one operation gets, in the order it asks. */
  datatype Answers = Answers(read: Answer, first: Answer, second: Answer, back: Answer)

  function Sent(knobs: Pair, target: Pair, first: Answer, second: Answer): Done<()> {
    var commands := target.Commands();
    if first.Refuse? then Done(knobs, commands[..1], Err(Refused(commands[0])))
    else if second.Refuse? then
      Done(knobs.(indexBuild := target.indexBuild), commands, Err(Refused(commands[1])))
    else Done(target, commands, Ok(()))
  }

  /** A move, with `before` to be put back. */
  function Applied(knobs: Pair, floor: Floor, before: Pair, first: Answer, second: Answer, back: Answer): Done<()> {
    var moved := Sent(knobs, floor.Knobs(), first, second);
    if moved.result.Ok? || first.Refuse? then moved
    else
      var restore := before.Commands()[0];
      var sent := moved.sent + [restore];
      if back.Refuse? then Done(moved.knobs, sent, Err(NotRestored(floor, moved.result.error, Refused(restore))))
      else Done(Obeyed(moved.knobs, restore), sent, moved.result)
  }

  function Moved(knobs: Pair, floor: Floor, answers: Answers): Done<()> {
    match Told(knobs, answers.read)
    case Err(error) => Done(knobs, [Get], Err(error))
    case Ok(before) =>
      var done := Applied(knobs, floor, before, answers.first, answers.second, answers.back);
      done.(sent := [Get] + done.sent)
  }

  /** The knobs and what has been recorded as the engine's own. */
  datatype World = World(knobs: Pair, recorded: Option<Pair>)

  /** What an open leaves, sends and answers. */
  function Established(world: World, requested: Option<Floor>, answers: Answers): (World, seq<Command>, Result<()>) {
    var own := if world.recorded.Some? then Ok(world.recorded.value) else Told(world.knobs, answers.read);
    var read := if world.recorded.Some? then [] else [Get];
    match own
    case Err(error) => (world, read, Err(error))
    case Ok(pair) =>
      var target := if requested.Some? then requested.value.Knobs() else pair;
      var done := Sent(world.knobs, target, answers.first, answers.second);
      (World(done.knobs, Some(pair)), read + done.sent, done.result)
  }

  /** A move ends with both knobs as asked, or both as they were; and only when it says so with
      one of each, because two commands were refused. */
  lemma {:induction false} MovesWholly(knobs: Pair, floor: Floor, answers: Answers)
    ensures var done := Moved(knobs, floor, answers);
            && (done.result.Ok? ==> done.knobs == floor.Knobs())
            && (done.result.Err? && !done.result.error.NotRestored? ==> done.knobs == knobs)
            && (done.result.Err? && done.result.error.NotRestored? ==>
                  && done.knobs == Pair(floor.Knobs().indexBuild, knobs.querySpilling)
                  && done.result.error == NotRestored(floor, Refused(Set(QuerySpilling, floor.Knobs().querySpilling)),
                                                      Refused(Set(IndexBuild, knobs.indexBuild))))
            && (done.result.Ok? <==>
                  answers.read == Obey(Whole, Whole) && !answers.first.Refuse? && !answers.second.Refuse?)
  {
    ToldTruly(knobs, answers.read);
  }

  /** An open succeeds if and only if there is a record or one can be read, and neither command is
      refused; it then ends on the floor it names, or on the recorded pair. A read that fails changes
      nothing; after it the record is made, whatever becomes of the commands, and they move the knobs
      in order up to the first refused. */
  lemma {:induction false} EstablishesWholly(world: World, requested: Option<Floor>, answers: Answers)
    ensures var (after, sent, result) := Established(world, requested, answers);
            var readable := world.recorded.Some? || answers.read == Obey(Whole, Whole);
            var own := if world.recorded.Some? then world.recorded.value else world.knobs;
            var target := if requested.Some? then requested.value.Knobs() else own;
            && (result.Ok? <==> readable && !answers.first.Refuse? && !answers.second.Refuse?)
            && (!readable ==> after == world && sent == [Get])
            && (readable ==>
                  && after.recorded == Some(own)
                  && after.knobs ==
                     (if answers.first.Refuse? then world.knobs
                      else if answers.second.Refuse? then world.knobs.(indexBuild := target.indexBuild)
                      else target)
                  && sent == (if world.recorded.Some? then [] else [Get]) + [Set(IndexBuild, target.indexBuild)]
                             + (if answers.first.Refuse? then [] else [Set(QuerySpilling, target.querySpilling)]))
  {
    ToldTruly(world.knobs, answers.read);
    hide Told;
  }

  // ---- the same operations on an engine changed command by command

  /** `answers` is how the engine will answer, in order; after those it refuses. */
  class Engine {
    var knobs: Pair
    var answers: seq<Answer>
    var sent: seq<Command>

    function Next(i: nat): Answer
      reads this
    {
      if i < |answers| then answers[i] else Refuse
    }

    function After(i: nat): seq<Answer>
      reads this
    {
      if i <= |answers| then answers[i..] else []
    }

    method RunOnAdmin(command: Command) returns (r: Result<Reply>)
      modifies this
      ensures answers == old(After(1)) && sent == old(sent) + [command]
      ensures r.Err? <==> old(Next(0)).Refuse?
      ensures r.Err? ==> r.error == Refused(command)
      ensures knobs == if r.Ok? then Obeyed(old(knobs), command) else old(knobs)
      ensures command.Get? ==>
                (match r case Ok(reply) => Reported(reply) case Err(error) => Err(error)) == Told(knobs, old(Next(0)))
    {
      var answer := Next(0);
      answers := After(1);
      sent := sent + [command];
      if answer.Refuse? {
        return Err(Refused(command));
      }
      knobs := Obeyed(knobs, command);
      return Ok(Reply(Show(knobs.indexBuild, answer.indexBuild), Show(knobs.querySpilling, answer.querySpilling)));
    }

    method ReportedFloors() returns (r: Result<Pair>)
      modifies this
      ensures answers == old(After(1)) && sent == old(sent) + [Get] && knobs == old(knobs)
      ensures r == Told(knobs, old(Next(0)))
    {
      var reply := RunOnAdmin(Get);
      match reply {
        case Err(error) => return Err(error);
        case Ok(reply) => return Reported(reply);
      }
    }

    /** Sends in order, stopping at the first refusal. */
    method Send(target: Pair) returns (r: Result<()>)
      modifies this
      ensures Done(knobs, sent, r) ==
              var done := Sent(old(knobs), target, old(Next(0)), old(Next(1)));
              done.(sent := old(sent) + done.sent)
      ensures answers == old(After(if Next(0).Refuse? then 1 else 2))
    {
      var commands := target.Commands();
      for i := 0 to |commands|
        invariant answers == old(After(i)) && sent == old(sent) + commands[..i]
        invariant i > 0 ==> !old(Next(0)).Refuse?
        invariant i > 1 ==> !old(Next(1)).Refuse?
        invariant knobs == if i == 0 then old(knobs)
                           else if i == 1 then old(knobs).(indexBuild := target.indexBuild)
                           else target
      {
        assert Next(0) == old(Next(i));
        var reply := RunOnAdmin(commands[i]);
        if reply.Err? {
          return Err(reply.error);
        }
      }
      return Ok(());
    }

    /** Puts the first knob back if the second is refused. */
    method ApplyOrPutBack(floor: Floor, before: Pair) returns (r: Result<()>)
      modifies this
      ensures var done := Applied(old(knobs), floor, before, old(Next(0)), old(Next(1)), old(Next(2)));
              Done(knobs, sent, r) == done.(sent := old(sent) + done.sent)
    {
      var move := floor.Knobs().Commands();
      var back := before.Commands();
      var first := RunOnAdmin(move[0]);
      if first.Err? {
        return Err(first.error);
      }
      assert Next(0) == old(Next(1));
      var second := RunOnAdmin(move[1]);
      if second.Ok? {
        return Ok(());
      }
      assert Next(0) == old(Next(2));
      var restored := RunOnAdmin(back[0]);
      if restored.Ok? {
        return Err(second.error);
      }
      return Err(NotRestored(floor, second.error, restored.error));
    }

    method MoveFreeDiskFloor(floor: Floor) returns (r: Result<()>)
      modifies this
      ensures var done := Moved(old(knobs), floor, Answers(old(Next(0)), old(Next(1)), old(Next(2)), old(Next(3))));
              knobs == done.knobs && r == done.result && sent == old(sent) + done.sent
      ensures r.Ok? ==> knobs == floor.Knobs()
      ensures r.Err? && !r.error.NotRestored? ==> knobs == old(knobs)
      ensures r.Err? && r.error.NotRestored? ==> knobs == Pair(floor.Knobs().indexBuild, old(knobs).querySpilling)
    {
      var before := ReportedFloors();
      ToldTruly(knobs, old(Next(0)));
      if before.Err? {
        return Err(before.error);
      }
      assert Next(0) == old(Next(1)) && Next(1) == old(Next(2)) && Next(2) == old(Next(3));
      r := ApplyOrPutBack(floor, before.value);
      MovesWholly(old(knobs), floor, Answers(old(Next(0)), old(Next(1)), old(Next(2)), old(Next(3))));
    }
  }

  /** What the floors were before anything moved them, asked for the first time only. */
  class EngineFloorDefaults {
    var recorded: Option<Pair>

    method Of(engine: Engine) returns (r: Result<Pair>)
      modifies this, engine
      ensures engine.knobs == old(engine.knobs)
      ensures old(recorded).Some? ==> r == Ok(old(recorded).value) && engine.sent == old(engine.sent)
      ensures old(recorded).None? ==>
                r == Told(engine.knobs, old(engine.Next(0))) && engine.sent == old(engine.sent) + [Get]
      ensures engine.answers == if old(recorded).Some? then old(engine.answers) else old(engine.After(1))
      ensures recorded == if r.Ok? then Some(r.value) else old(recorded)
    {
      if recorded.Some? {
        return Ok(recorded.value);
      }
      r := engine.ReportedFloors();
      if r.Ok? {
        recorded := Some(r.value);
      }
    }

    /** Nothing is put back: a failed open drops the only engine there is. */
    method Establish(engine: Engine, requested: Option<Floor>) returns (r: Result<()>)
      modifies this, engine
      ensures var skip := if old(recorded).Some? then 0 else 1;
              var all := Answers(old(engine.Next(0)), old(engine.Next(skip)), old(engine.Next(skip + 1)), Refuse);
              var (world, sent, result) := Established(World(old(engine.knobs), old(recorded)), requested, all);
              World(engine.knobs, recorded) == world && r == result && engine.sent == old(engine.sent) + sent
    {
      ghost var skip := if recorded.Some? then 0 else 1;
      var own := Of(engine);
      if own.Err? {
        return Err(own.error);
      }
      assert engine.Next(0) == old(engine.Next(skip)) && engine.Next(1) == old(engine.Next(skip + 1));
      match requested {
        case Some(floor) => r := engine.Send(floor.Knobs());
        case None => r := engine.Send(own.value);
      }
    }
  }
}
