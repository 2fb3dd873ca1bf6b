/** What the async worker pool decides with its mutex held, and the counts it decides from. */
module WorkerState {
  import opened Options

  datatype Job = Run(id: nat) | Stop

  datatype Phase = Open | Closing | Abandoned

  /** What one pass through the wait loop of `next_job` ends in. */
  datatype Outcome =
    | Took(job: Job)
    | Left
    | Parked(since: Option<nat>)

  function Stops(n: nat): (stops: seq<Job>)
    ensures |stops| == n
    ensures forall i | 0 <= i < n :: stops[i] == Stop
  {
    seq(n, _ => Stop)
  }

  /** The pool's fields as one value. Counts are integers so that a decrement below zero would be
      visible; `WorkerProof.Inv` shows that none happens. `client` is whether the pool holds a
      handle on the engine. */
  datatype State = State(
    queue: seq<Job>,
    alive: int,
    pending: int,
    idle: int,
    started: nat,
    phase: Phase,
    client: bool)
  {
    function Serving(): int { alive - pending }

    predicate Sparable(min: nat) { phase == Open && Serving() > min }

    predicate WantsWorker(max: nat) { alive < max && |queue| > idle + pending }

    function Reserve(): State {
      this.(alive := alive + 1, pending := pending + 1, started := started + 1)
    }

    function Arrived(): State { this.(pending := pending - 1) }

    /** The second answer is whether a `Stop` came back with the count. */
    function SpawnFailed(): (State, bool) {
      var s := this.(alive := alive - 1, pending := pending - 1);
      if phase == Closing && queue != [] && queue[|queue| - 1].Stop? then
        (s.(queue := queue[..|queue| - 1]), true)
      else
        (s, false)
    }

    function Publish(): State {
      if phase == Open then this.(client := true) else this
    }

    predicate Accepts() { phase == Open }

    /** The second answer is whether the caller has to start a worker. */
    function QueueJob(job: Job, max: nat): (State, bool)
      requires Accepts()
    {
      var s := this.(queue := queue + [job]);
      if s.WantsWorker(max) && client then (s.Reserve(), true) else (s, false)
    }

    function Waiting(): State { this.(idle := idle + 1) }

    function Resumed(): State { this.(idle := idle - 1) }

    function Retired(): State { this.(idle := idle - 1, alive := alive - 1) }

    predicate Closable() { phase == Open && alive > 0 }

    function BeginClose(): State
      requires Closable()
    {
      this.(phase := Closing, client := false, queue := queue + Stops(alive))
    }

    function Abandon(): State {
      if phase == Open then this.(phase := Abandoned, client := false) else this
    }

    /** One pass through the wait loop of `next_job`, from the lock being held to it being let
        go. `since` is the worker's own note of when it became one the pool could spare. */
    function Turn(limits: Concurrency, since: Option<nat>, now: nat): (State, Outcome) {
      if queue != [] then
        (this.(queue := queue[1..]).Resumed(), Took(queue[0]))
      else if phase == Abandoned then
        (Retired(), Left)
      else if limits.idleTimeout.Some? && Sparable(limits.min) then
        var from := if since.Some? then since.value else now;
        if limits.idleTimeout.value <= now - from then (Retired(), Left)
        else (this, Parked(Some(from)))
      else
        (this, Parked(None))
    }
  }

  const EMPTY := State([], 0, 0, 0, 0, Open, false)

  /** The same state as an object updated in place under the pool's mutex. */
  class WorkerQueue {
    var queue: seq<Job>
    var alive: int
    var pending: int
    var idle: int
    var started: nat
    var phase: Phase
    var client: bool

    function Value(): State
      reads this
    {
      State(queue, alive, pending, idle, started, phase, client)
    }

    constructor ()
      ensures Value() == EMPTY
    {
      queue, alive, pending, idle, started := [], 0, 0, 0, 0;
      phase, client := Open, false;
    }

    method Reserve() returns (index: nat)
      modifies this
      ensures Value() == old(Value()).Reserve()
      ensures index == old(started) < started
    {
      alive := alive + 1;
      pending := pending + 1;
      index := started;
      started := started + 1;
    }

    method Arrived()
      requires pending > 0
      modifies this
      ensures Value() == old(Value()).Arrived()
    {
      pending := pending - 1;
    }

    method SpawnFailed() returns (handedBack: bool)
      requires alive > 0 && pending > 0
      modifies this
      ensures (Value(), handedBack) == old(Value()).SpawnFailed()
    {
      alive := alive - 1;
      pending := pending - 1;
      handedBack := false;
      if phase == Closing && queue != [] {
        var last := queue[|queue| - 1];
        queue := queue[..|queue| - 1];
        if last == Stop {
          handedBack := true;
        } else {
          queue := queue + [last];
          assert queue == old(queue);
        }
      }
    }

    method Publish()
      modifies this
      ensures Value() == old(Value()).Publish()
    {
      if phase == Open {
        client := true;
      }
    }

    method QueueJob(job: Job, max: nat) returns (accepted: bool, spawn: Option<nat>)
      modifies this
      ensures accepted == old(Value()).Accepts()
      ensures !accepted ==> spawn == None && Value() == old(Value())
      ensures accepted ==> (Value(), spawn.Some?) == old(Value()).QueueJob(job, max)
      ensures spawn.Some? ==> spawn.value == old(started)
    {
      if phase != Open {
        return false, None;
      }
      accepted, spawn := true, None;
      queue := queue + [job];
      if alive < max && |queue| > idle + pending && client {
        var index := Reserve();
        spawn := Some(index);
      }
    }

    method BeginClose() returns (began: bool)
      requires alive >= 0
      modifies this
      ensures began == old(Value()).Closable()
      ensures Value() == if began then old(Value()).BeginClose() else old(Value())
    {
      if phase != Open || alive == 0 {
        return false;
      }
      phase := Closing;
      client := false;
      for i := 0 to alive
        invariant alive == old(alive) && pending == old(pending) && idle == old(idle) && started == old(started)
        invariant phase == Closing && !client
        invariant queue == old(queue) + Stops(i)
      {
        assert Stops(i + 1) == Stops(i) + [Stop];
        queue := queue + [Stop];
      }
      began := true;
    }

    method Abandon()
      modifies this
      ensures Value() == old(Value()).Abandon()
    {
      if phase == Open {
        phase := Abandoned;
        client := false;
      }
    }

    /** `next_job` from the lock being taken to the condition variable letting it go or to the
        answer. `first` is the pass that counts the caller as waiting; `held` is the caller's
        handle on the engine, given up under the same lock that stops counting it. */
    method Turn(limits: Concurrency, first: bool, since: Option<nat>, now: nat, held: bool)
      returns (outcome: Outcome, stillHeld: bool)
      requires first || idle > 0
      modifies this
      ensures (Value(), outcome) == (if first then old(Value()).Waiting() else old(Value())).Turn(limits, since, now)
      ensures stillHeld == (held && outcome != Left)
    {
      stillHeld := held;
      if first {
        idle := idle + 1;
      }
      if queue != [] {
        var job := queue[0];
        queue := queue[1..];
        idle := idle - 1;
        return Took(job), stillHeld;
      }
      if phase == Abandoned {
        idle, alive, stillHeld := idle - 1, alive - 1, false;
        return Left, stillHeld;
      }
      if limits.idleTimeout == None || !(phase == Open && alive - pending > limits.min) {
        return Parked(None), stillHeld;
      }
      var from := if since.Some? then since.value else now;
      var remaining := if now - from >= limits.idleTimeout.value then 0 else limits.idleTimeout.value - (now - from);
      if remaining == 0 {
        idle, alive, stillHeld := idle - 1, alive - 1, false;
        return Left, stillHeld;
      }
      return Parked(Some(from)), stillHeld;
    }
  }
}
