/** Open clients under their ids, with any number of threads running commands on them and closing
    them. The registry's mutex covers a lookup or a removal and nothing more; each client has a
    reader/writer lock of its own. */
module Registry {
  import opened Options
  import opened Handles

  /** A client and the lock on it. Clients are told apart by the order they came in. `closer`, kept
      to speak about, is the thread whose close it was that took the entry out of the map. */
  datatype Entry = Entry(client: Option<nat>, readers: set<nat>, writer: Option<nat>, closer: Option<nat>)

  /** What the mutex guards. */
  datatype Clients = Clients(counter: Count, entries: map<I64, nat>)

  /** The same as an object, one method a lock-held section. */
  class Shared {
    var counter: Count
    var entries: map<I64, nat>

    function Value(): Clients
      reads this
    {
      Clients(counter, entries)
    }

    /** Issues an id for `entry`, unless there is none left. */
    method Insert(entry: nat, hash: U64) returns (id: Option<I64>)
      modifies this
      ensures (Value(), id) == Issue(old(Value()), entry, hash)
    {
      var taken := counter.Taken(hash);
      counter, id := taken.0, taken.1;
      if id.Some? {
        entries := entries[id.value := entry];
      }
    }

    method Lookup(id: I64) returns (entry: Option<nat>)
      ensures entry == if id in entries then Some(entries[id]) else None
    {
      if id in entries {
        return Some(entries[id]);
      }
      return None;
    }

    method Remove(id: I64) returns (entry: Option<nat>)
      modifies this
      ensures entry == if id in old(entries) then Some(old(entries)[id]) else None
      ensures Value() == Clients(old(counter), old(entries) - {id})
    {
      if id !in entries {
        assert entries == entries - {id};
        return None;
      }
      entry := Some(entries[id]);
      entries := entries - {id};
    }
  }

  function Issue(clients: Clients, entry: nat, hash: U64): (Clients, Option<I64>) {
    var (counter, id) := clients.counter.Taken(hash);
    (Clients(counter, if id.Some? then clients.entries[id.value := entry] else clients.entries), id)
  }

  /** Where a thread is. */
  datatype At =
    | Found(id: I64, entry: nat)      // a command that has looked its client up
    | Running(entry: nat)             // ... and is inside it
    | Removed(id: I64, entry: nat)    // a close that has taken the entry out of the map
    | Closing(entry: nat)             // ... and is shutting the client down

  datatype Event =
    | Began(client: nat)
    | Ended(client: nat)
    | CloseBegan(client: nat)
    | CloseEnded(client: nat)

  /** `heap` is every entry there has been; `issued` the ids, in order; `refused` those that a call
      was told are closed. */
  datatype Machine = Machine(
    clients: Clients,
    heap: map<nat, Entry>,
    threads: map<nat, At>,
    next: nat,
    hashes: seq<U64>,
    trace: seq<Event>,
    refused: seq<I64>)

  const INIT := Machine(Clients(Unstarted, map[]), map[], map[], 0, [], [], [])

  /** `Open` is a client opened by thread `t` and handed to the registry; the others are the
      sections of `run_command` and `close`. */
  datatype Step =
    | Open(t: nat, hash: U64)
    | Lookup(t: nat, id: I64)
    | Enter(t: nat)
    | Finish(t: nat)
    | Remove(t: nat, id: I64)
    | TakeOut(t: nat)
    | EndClose(t: nat)

  predicate Enabled(m: Machine, step: Step) {
    match step
    case Open(t, _) => t !in m.threads
    case Lookup(t, _) => t !in m.threads
    case Remove(t, _) => t !in m.threads
    case Enter(t) =>
      t in m.threads && m.threads[t].Found? && m.threads[t].entry in m.heap && m.heap[m.threads[t].entry].writer.None?
    case Finish(t) => t in m.threads && m.threads[t].Running? && m.threads[t].entry in m.heap
    case TakeOut(t) =>
      && t in m.threads && m.threads[t].Removed? && m.threads[t].entry in m.heap
      && m.heap[m.threads[t].entry].writer.None? && m.heap[m.threads[t].entry].readers == {}
    case EndClose(t) => t in m.threads && m.threads[t].Closing? && m.threads[t].entry in m.heap
  }

  function Apply(m: Machine, step: Step): Machine
    requires Enabled(m, step)
  {
    match step
    case Open(t, hash) => Hand(m, t, hash)
    case Lookup(t, id) =>
      if id in m.clients.entries then m.(threads := m.threads[t := Found(id, m.clients.entries[id])])
      else m.(refused := m.refused + [id])
    case Remove(t, id) =>
      if id in m.clients.entries then RemoveEntry(m, t, id) else m.(refused := m.refused + [id])
    case Enter(t) => EnterClient(m, t)
    case Finish(t) => LeaveClient(m, t)
    case TakeOut(t) => TakeClient(m, t)
    case EndClose(t) => CloseDone(m, t)
  }

  /** With no id left, the client is shut down again with the mutex released, by the thread that
      opened it and that nobody else can reach it from. */
  function Hand(m: Machine, t: nat, hash: U64): Machine {
    var (clients, id) := Issue(m.clients, m.next, hash);
    var m' := m.(clients := clients, next := m.next + 1, hashes := m.hashes + [hash]);
    if id.Some? then m'.(heap := m.heap[m.next := Entry(Some(m.next), {}, None, None)])
    else
      m'.(heap := m.heap[m.next := Entry(None, {}, Some(t), Some(t))],
          threads := m.threads[t := Closing(m.next)],
          trace := m.trace + [CloseBegan(m.next)])
  }

  /** One close alone can take an entry out, whatever the other threads are doing. */
  function RemoveEntry(m: Machine, t: nat, id: I64): Machine
    requires id in m.clients.entries
  {
    var e := m.clients.entries[id];
    m.(clients := m.clients.(entries := m.clients.entries - {id}),
       heap := if e in m.heap then m.heap[e := m.heap[e].(closer := Some(t))] else m.heap,
       threads := m.threads[t := Removed(id, e)])
  }

  /** A command takes the lock shared, and finds the client there or gone. */
  function EnterClient(m: Machine, t: nat): Machine
    requires Enabled(m, Enter(t))
  {
    var Found(id, e) := m.threads[t];
    var entry := m.heap[e];
    match entry.client
    case Some(client) =>
      m.(heap := m.heap[e := entry.(readers := entry.readers + {t})],
         threads := m.threads[t := Running(e)],
         trace := m.trace + [Began(client)])
    case None => m.(threads := m.threads - {t}, refused := m.refused + [id])
  }

  function LeaveClient(m: Machine, t: nat): Machine
    requires Enabled(m, Finish(t))
  {
    var e := m.threads[t].entry;
    m.(heap := m.heap[e := m.heap[e].(readers := m.heap[e].readers - {t})],
       threads := m.threads - {t},
       trace := m.trace + [Ended(e)])
  }

  /** A close takes the lock alone, and the client out. */
  function TakeClient(m: Machine, t: nat): Machine
    requires Enabled(m, TakeOut(t))
  {
    var Removed(id, e) := m.threads[t];
    match m.heap[e].client
    case Some(client) =>
      m.(heap := m.heap[e := m.heap[e].(client := None, writer := Some(t))],
         threads := m.threads[t := Closing(e)],
         trace := m.trace + [CloseBegan(client)])
    case None => m.(threads := m.threads - {t}, refused := m.refused + [id])
  }

  function CloseDone(m: Machine, t: nat): Machine
    requires Enabled(m, EndClose(t))
  {
    var e := m.threads[t].entry;
    m.(heap := m.heap[e := m.heap[e].(writer := None)],
       threads := m.threads - {t},
       trace := m.trace + [CloseEnded(e)])
  }

  function Execute(m: Machine, steps: seq<Step>): Machine
    decreases |steps|
  {
    if steps == [] then m else Execute(if Enabled(m, steps[0]) then Apply(m, steps[0]) else m, steps[1..])
  }
}
