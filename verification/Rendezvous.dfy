/** The close rendezvous: the countdown that picks one retiring worker to close the engine, and the
    vault the others' handles wait in. */
module Rendezvous {

  /** `workers` is the count it was built with, `vault` how many handles it holds. */
  datatype Shutdown = Shutdown(workers: nat, remaining: int, vault: int) {

    static function New(workers: nat): Shutdown { Shutdown(workers, workers, 0) }

    function Deposited(): Shutdown { this.(vault := vault + 1) }

    /** The second answer is whether this was the last. */
    function CountedOut(): (Shutdown, bool) { (this.(remaining := remaining - 1), remaining == 1) }

    function Drained(): Shutdown { this.(vault := 0) }
  }

  /** The engine's handles, of which `references` are held anywhere. */
  class EngineHandles {
    var references: nat
    var closes: nat

    method Drop(handles: nat)
      requires handles <= references
      modifies this
      ensures references == old(references) - handles && closes == old(closes)
    {
      references := references - handles;
    }

    /** Gives up one handle, and the engine with it if it was the only one. */
    method IntoInner() returns (owned: bool)
      requires references > 0
      modifies this
      ensures owned == (old(references) == 1) && references == old(references) - 1 && closes == old(closes)
    {
      owned := references == 1;
      references := references - 1;
    }

    method Close()
      modifies this
      ensures closes == old(closes) + 1 && references == old(references)
    {
      closes := closes + 1;
    }
  }

  /** The rendezvous as the object the workers share. `Deposit`, `CountOut` and `Drain` are each one
      step of `WorkerMachine`, between which other threads come in; `Retire` is all of them, by a
      thread that nothing interrupts. */
  class SharedShutdown {
    const engine: EngineHandles
    const workers: nat
    var remaining: int
    var vault: nat
    var replies: seq<bool>

    constructor (workers: nat, engine: EngineHandles)
      ensures Value() == Shutdown.New(workers) && replies == [] && this.engine == engine
    {
      this.engine, this.workers, remaining, vault, replies := engine, workers, workers, 0, [];
    }

    function Value(): Shutdown
      reads this
    {
      Shutdown(workers, remaining, vault)
    }

    method Deposit()
      modifies this
      ensures Value() == old(Value()).Deposited() && replies == old(replies)
    {
      vault := vault + 1;
    }

    method CountOut() returns (last: bool)
      modifies this
      ensures (Value(), last) == old(Value()).CountedOut() && replies == old(replies)
    {
      last := remaining == 1;
      remaining := remaining - 1;
    }

    /** Answers the handles taken out, all but one of which have been dropped. */
    method Drain() returns (drained: nat)
      requires vault <= engine.references
      modifies this, engine
      ensures Value() == old(Value()).Drained() && replies == old(replies) && drained == old(vault)
      ensures engine.references == old(engine.references) - if drained > 0 then drained - 1 else 0
      ensures engine.closes == old(engine.closes)
    {
      drained, vault := vault, 0;
      if drained > 0 {
        engine.Drop(drained - 1);
      }
    }

    /** One worker's retirement with its own handle. Only the one that ends the countdown closes, and
        it closes exactly when the vault, with its own handle, held every reference there was. */
    method Retire()
      requires vault < engine.references
      modifies this, engine
      ensures var (after, last) := old(Value()).Deposited().CountedOut();
              if last then
                var alone := old(engine.references) == after.vault;
                && Value() == after.Drained() && replies == old(replies) + [alone]
                && engine.references == old(engine.references) - after.vault
                && engine.closes == old(engine.closes) + if alone then 1 else 0
              else
                && Value() == after && replies == old(replies)
                && engine.references == old(engine.references) && engine.closes == old(engine.closes)
    {
      Deposit();
      var last := CountOut();
      if !last {
        return;
      }
      var drained := Drain();
      var owned := engine.IntoInner();
      if owned {
        engine.Close();
      }
      replies := replies + [owned];
    }
  }
}
