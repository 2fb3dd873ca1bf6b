/** One dispatched command, and whether it may still be interrupted. */
module CommandSlot {
  import opened Options

  /** `Running` carries the session its interrupt would kill. */
  datatype Slot = Waiting | Running(session: nat) | Finished | Cancelled {

    /** The slot, and whether the command is to run. */
    function Started(session: nat): (Slot, bool) {
      if Waiting? then (Running(session), true) else (this, false)
    }

    /** The slot, and the session killed on the way. */
    function Stopped(): (Slot, Option<nat>) {
      (Cancelled, if Running? then Some(session) else None)
    }

    function Disarmed(): Slot {
      if Running? then Finished else this
    }
  }

  /** The slot as an object stepped under its own mutex; `killed` is what its interrupts have
      killed, in order. */
  class SlotCell {
    var state: Slot
    var killed: seq<nat>

    constructor ()
      ensures state == Waiting && killed == []
    {
      state, killed := Waiting, [];
    }

    method Cancel()
      modifies this
      ensures state == old(state).Stopped().0
      ensures killed == old(killed) + match old(state).Stopped().1 case Some(session) => [session] case None => []
    {
      match state {
        case Running(session) => killed := killed + [session];
        case _ =>
      }
      state := Cancelled;
    }

    method Start(session: nat) returns (run: bool)
      modifies this
      ensures (state, run) == old(state).Started(session) && killed == old(killed)
    {
      if state == Waiting {
        state := Running(session);
        return true;
      }
      return false;
    }

    method Finish()
      modifies this
      ensures state == old(state).Disarmed() && killed == old(killed)
    {
      if state.Running? {
        state := Finished;
      }
    }
  }

  datatype Event = Start(session: nat) | Cancel | Finish

  /** What a slot has killed after any events, from `slot`. */
  function Kills(slot: Slot, events: seq<Event>): seq<nat>
    decreases |events|
  {
    if events == [] then []
    else
      match events[0]
      case Start(session) => Kills(slot.Started(session).0, events[1..])
      case Finish => Kills(slot.Disarmed(), events[1..])
      case Cancel =>
        (match slot.Stopped().1 case Some(session) => [session] case None => []) + Kills(Cancelled, events[1..])
  }

  /** Over any events a slot kills at most once, nothing at all unless it is running or yet to
      start, and then only the session of its first start. */
  lemma {:induction false} KillsOnce(slot: Slot, events: seq<Event>)
    ensures |Kills(slot, events)| <= 1
    ensures slot.Finished? || slot.Cancelled? ==> Kills(slot, events) == []
    ensures slot.Running? ==> Kills(slot, events) == [] || Kills(slot, events) == [slot.session]
    decreases |events|
  {
    if events != [] {
      match events[0]
      case Start(session) => KillsOnce(slot.Started(session).0, events[1..]);
      case Finish => KillsOnce(slot.Disarmed(), events[1..]);
      case Cancel => KillsOnce(Cancelled, events[1..]);
    }
  }
}
