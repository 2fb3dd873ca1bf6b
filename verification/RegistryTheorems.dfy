/** What the handle registry promises, over every interleaving. */
module RegistryTheorems {
  import opened Options
  import opened Handles
  import opened Registry

  // ---- the story of one client

  datatype Phase = Live | Shutting | Gone

  /** What a client has been through: how many commands are in it, how far its close has got, and
      whether something happened that must not. */
  datatype Tale = Tale(inside: int, phase: Phase, broken: bool)

  const UNTOLD := Tale(0, Live, false)

  /** A command may come in while the client is live and must go out before its close begins, and a
      close ends once. */
  function Next(tale: Tale, event: Event): Tale {
    match event
    case Began(_) => if tale.phase.Live? then tale.(inside := tale.inside + 1) else tale.(broken := true)
    case Ended(_) =>
      if tale.phase.Live? && tale.inside > 0 then tale.(inside := tale.inside - 1) else tale.(broken := true)
    case CloseBegan(_) =>
      if tale.phase.Live? && tale.inside == 0 then tale.(phase := Shutting) else tale.(broken := true)
    case CloseEnded(_) => if tale.phase.Shutting? then tale.(phase := Gone) else tale.(broken := true)
  }

  function TaleOf(trace: seq<Event>, c: nat): Tale
    decreases |trace|
  {
    if trace == [] then UNTOLD
    else
      var last := trace[|trace| - 1];
      var before := TaleOf(trace[..|trace| - 1], c);
      if last.client == c then Next(before, last) else before
  }

  lemma {:induction false} Told(trace: seq<Event>, event: Event, c: nat)
    ensures TaleOf(trace + [event], c) ==
            if event.client == c then Next(TaleOf(trace, c), event) else TaleOf(trace, c)
  {
    assert (trace + [event])[..|trace|] == trace;
  }

  // ---- what every step keeps

  /** An entry's lock, its client and who closes it, as its story has them. */
  predicate EntryKept(entry: Entry, e: nat, threads: map<nat, At>, tale: Tale) {
    && tale == Tale(|entry.readers|,
                    if entry.client.Some? then Live else if entry.writer.Some? then Shutting else Gone, false)
    && (entry.client.Some? ==> entry.client.value == e && entry.writer.None?)
    && (entry.client.None? ==> entry.closer.Some? && entry.readers == {})
    && (entry.writer.Some? ==> entry.writer == entry.closer)
    && (forall t | t in entry.readers :: t in threads && threads[t] == Running(e))
    && (entry.closer.Some? && (entry.client.Some? || entry.writer.Some?) ==>
          && entry.closer.value in threads
          && var at := threads[entry.closer.value];
             if entry.client.Some? then at.Removed? && at.entry == e else at == Closing(e))
  }

  predicate ThreadKept(at: At, t: nat, heap: map<nat, Entry>) {
    && at.entry in heap
    && var entry := heap[at.entry];
       match at
       case Found(_, _) => true
       case Running(_) => t in entry.readers
       case Removed(_, _) => entry.client.Some? && entry.closer == Some(t)
       case Closing(_) => entry.client.None? && entry.writer == Some(t)
  }

  /** The ids issued, in order, one for each client. */
  function Ids(m: Machine): seq<Option<I64>> { Run(Unstarted, m.hashes).1 }

  /** An id in the map is the one issued to the client it names; and a client is in the map under
      its id until a close takes it out. */
  predicate Mapped(m: Machine) {
    && m.clients.counter == Run(Unstarted, m.hashes).0 && |m.hashes| == |Ids(m)| == m.next
    && (forall id | id in m.clients.entries ::
          var e := m.clients.entries[id];
          e < m.next && e in m.heap && m.heap[e].closer.None? && Ids(m)[e] == Some(id))
    && (forall e | e in m.heap && m.heap[e].closer.None? :: e < m.next && Reachable(m.clients, Ids(m)[e], e))
  }

  predicate Reachable(clients: Clients, id: Option<I64>, e: nat) {
    id.Some? && id.value in clients.entries && clients.entries[id.value] == e
  }

  ghost predicate HeapKept(m: Machine) {
    && (forall e: nat :: e in m.heap <==> e < m.next)
    && (forall e | e in m.heap :: EntryKept(m.heap[e], e, m.threads, TaleOf(m.trace, e)))
    && (forall e: nat | e !in m.heap :: TaleOf(m.trace, e) == UNTOLD)
  }

  predicate ThreadsKept(m: Machine) {
    forall t | t in m.threads :: ThreadKept(m.threads[t], t, m.heap)
  }

  ghost predicate Inv(m: Machine) { HeapKept(m) && ThreadsKept(m) && Mapped(m) }

  // ---- a step touches one thread, one entry and that entry's story

  /** `m'` is `m` but for thread `t`, entry `e` and an event of `e`'s. */
  ghost predicate Touches(m: Machine, m': Machine, t: nat, e: nat) {
    && (forall u | u != t ::
          (u in m'.threads <==> u in m.threads) && (u in m.threads ==> m'.threads[u] == m.threads[u]))
    && (t in m.threads ==> m.threads[t].entry == e)
    && (forall f: nat | f != e :: (f in m'.heap <==> f in m.heap) && (f in m.heap ==> m'.heap[f] == m.heap[f]))
    && e in m'.heap && m'.next == (if e in m.heap then m.next else m.next + 1) && (e !in m.heap ==> e == m.next)
    && (m'.trace == m.trace || exists event :: m'.trace == m.trace + [event] && event.client == e)
  }

  /** What is left to show of entry `e` and its threads. */
  ghost predicate LocallyKept(m': Machine, e: nat) {
    && e in m'.heap
    && EntryKept(m'.heap[e], e, m'.threads, TaleOf(m'.trace, e))
    && forall u | u in m'.threads && m'.threads[u].entry == e :: ThreadKept(m'.threads[u], u, m'.heap)
  }

  lemma {:induction false} EntryElsewhere(entry: Entry, e: nat, m: Machine, m': Machine, t: nat, tale: Tale)
    requires EntryKept(entry, e, m.threads, tale) && (t in m.threads ==> m.threads[t].entry != e)
    requires forall u | u != t ::
               (u in m'.threads <==> u in m.threads) && (u in m.threads ==> m'.threads[u] == m.threads[u])
    ensures EntryKept(entry, e, m'.threads, tale)
  {
  }

  lemma {:induction false} TalesElsewhere(m: Machine, m': Machine, t: nat, e: nat, f: nat)
    requires Touches(m, m', t, e) && f != e
    ensures TaleOf(m'.trace, f) == TaleOf(m.trace, f)
  {
    hide TaleOf;
    if m'.trace != m.trace {
      var event :| m'.trace == m.trace + [event] && event.client == e;
      Told(m.trace, event, f);
    }
  }

  lemma {:induction false} HeapElsewhere(m: Machine, m': Machine, t: nat, e: nat)
    requires HeapKept(m) && Touches(m, m', t, e) && LocallyKept(m', e)
    ensures HeapKept(m')
  {
    hide TaleOf, EntryKept;
    forall f: nat | f != e
      ensures TaleOf(m'.trace, f) == TaleOf(m.trace, f)
      ensures f in m'.heap ==> EntryKept(m'.heap[f], f, m'.threads, TaleOf(m'.trace, f))
    {
      TalesElsewhere(m, m', t, e, f);
      if f in m.heap {
        EntryElsewhere(m.heap[f], f, m, m', t, TaleOf(m.trace, f));
      }
    }
  }

  lemma {:induction false} ThreadsElsewhere(m: Machine, m': Machine, t: nat, e: nat)
    requires ThreadsKept(m) && Touches(m, m', t, e) && LocallyKept(m', e)
    requires t in m'.threads ==> m'.threads[t].entry == e
    ensures ThreadsKept(m')
  {
    hide TaleOf, EntryKept;
    forall u | u in m'.threads
      ensures ThreadKept(m'.threads[u], u, m'.heap)
    {
      if m'.threads[u].entry != e {
        assert ThreadKept(m.threads[u], u, m.heap);
      }
    }
  }

  lemma {:induction false} Concludes(m: Machine, m': Machine, t: nat, e: nat)
    requires Inv(m) && Touches(m, m', t, e) && LocallyKept(m', e) && Mapped(m')
    requires t in m'.threads ==> m'.threads[t].entry == e
    ensures Inv(m')
  {
    HeapElsewhere(m, m', t, e);
    ThreadsElsewhere(m, m', t, e);
  }

  lemma {:induction false} SameMap(m: Machine, m': Machine, e: nat)
    requires Mapped(m) && m'.clients == m.clients && m'.hashes == m.hashes && m'.next == m.next
    requires e in m.heap && e in m'.heap && m'.heap[e].closer == m.heap[e].closer && m'.heap == m.heap[e := m'.heap[e]]
    ensures Mapped(m')
  {
  }

  // ---- each step

  lemma {:induction false} KeepsFound(m: Machine, t: nat, id: I64)
    requires Inv(m) && t !in m.threads && id in m.clients.entries
    ensures Inv(Apply(m, Lookup(t, id)))
  {
    hide Run, TaleOf;
    var m' := Apply(m, Lookup(t, id));
    var e := m.clients.entries[id];
    assert Touches(m, m', t, e);
    EntryElsewhere(m.heap[e], e, m, m', t, TaleOf(m.trace, e));
    Concludes(m, m', t, e);
  }

  lemma {:induction false} KeepsRemove(m: Machine, t: nat, id: I64)
    requires Inv(m) && t !in m.threads && id in m.clients.entries
    ensures Inv(RemoveEntry(m, t, id))
  {
    hide Run, TaleOf;
    var m' := RemoveEntry(m, t, id);
    var e := m.clients.entries[id];
    assert Touches(m, m', t, e);
    RemoveLocally(m, t, id);
    RemoveMapped(m, t, id);
    hide RemoveEntry, LocallyKept, HeapKept, ThreadsKept, Mapped, Touches;
    Concludes(m, m', t, e);
  }

  lemma {:induction false} RemoveLocally(m: Machine, t: nat, id: I64)
    requires Inv(m) && t !in m.threads && id in m.clients.entries
    ensures LocallyKept(RemoveEntry(m, t, id), m.clients.entries[id])
  {
    hide Run, TaleOf;
  }

  lemma {:induction false} RemoveMapped(m: Machine, t: nat, id: I64)
    requires Inv(m) && id in m.clients.entries
    ensures Mapped(RemoveEntry(m, t, id))
  {
    hide Run, HeapKept, ThreadsKept;
    var m' := RemoveEntry(m, t, id);
    forall other | other in m'.clients.entries
      ensures m'.clients.entries[other] != m.clients.entries[id]
    {
      assert Ids(m)[m.clients.entries[other]] == Some(other);
    }
  }

  lemma {:induction false} KeepsEnter(m: Machine, t: nat)
    requires Inv(m) && Enabled(m, Enter(t))
    ensures Inv(EnterClient(m, t))
  {
    EnterTouches(m, t);
    EnterLocally(m, t);
    hide LocallyKept, HeapKept, ThreadsKept, Touches, Mapped, EnterClient;
    EnterMapped(m, t);
    Concludes(m, EnterClient(m, t), t, m.threads[t].entry);
  }

  lemma {:induction false} EnterMapped(m: Machine, t: nat)
    requires Mapped(m) && Enabled(m, Enter(t))
    ensures var m' := EnterClient(m, t);
            Mapped(m') && (t in m'.threads ==> m'.threads[t].entry == m.threads[t].entry)
  {
    hide Mapped;
    SameMap(m, EnterClient(m, t), m.threads[t].entry);
  }

  lemma {:induction false} EnterTouches(m: Machine, t: nat)
    requires Inv(m) && Enabled(m, Enter(t))
    ensures Touches(m, EnterClient(m, t), t, m.threads[t].entry)
  {
    hide TaleOf, ThreadsKept, Mapped;
    var e := m.threads[t].entry;
    assert EntryKept(m.heap[e], e, m.threads, TaleOf(m.trace, e));
    assert Began(e).client == e;
  }

  lemma {:induction false} EnterLocally(m: Machine, t: nat)
    requires Inv(m) && Enabled(m, Enter(t))
    ensures LocallyKept(EnterClient(m, t), m.threads[t].entry)
  {
    hide Run, TaleOf, Mapped, HeapKept;
    EnterEntry(m, t);
    hide EntryKept;
  }

  lemma {:induction false} EnterEntry(m: Machine, t: nat)
    requires Inv(m) && Enabled(m, Enter(t))
    ensures var m', e := EnterClient(m, t), m.threads[t].entry;
            e in m'.heap && EntryKept(m'.heap[e], e, m'.threads, TaleOf(m'.trace, e))
  {
    hide Run, TaleOf, Mapped, ThreadsKept;
    var e := m.threads[t].entry;
    if m.heap[e].client.Some? {
      EntryEntered(m.heap[e], e, t, m.threads, m.trace);
    } else {
      EntryRefused(m.heap[e], e, t, m.threads, TaleOf(m.trace, e));
    }
  }

  /** A command comes in. */
  lemma {:induction false} EntryEntered(entry: Entry, e: nat, t: nat, threads: map<nat, At>, trace: seq<Event>)
    requires EntryKept(entry, e, threads, TaleOf(trace, e)) && entry.client.Some?
    requires t in threads && threads[t].Found?
    ensures EntryKept(entry.(readers := entry.readers + {t}), e, threads[t := Running(e)],
                      TaleOf(trace + [Began(e)], e))
  {
    hide TaleOf;
    Told(trace, Began(e), e);
    assert t !in entry.readers;
  }

  lemma {:induction false} EntryRefused(entry: Entry, e: nat, t: nat, threads: map<nat, At>, tale: Tale)
    requires EntryKept(entry, e, threads, tale) && entry.client.None? && t in threads && threads[t].Found?
    ensures EntryKept(entry, e, threads - {t}, tale)
  {
  }

  lemma {:induction false} KeepsFinish(m: Machine, t: nat)
    requires Inv(m) && Enabled(m, Finish(t))
    ensures Inv(LeaveClient(m, t))
  {
    FinishTouches(m, t);
    FinishLocally(m, t);
    hide LocallyKept, HeapKept, ThreadsKept, Touches, Mapped, LeaveClient;
    FinishMapped(m, t);
    Concludes(m, LeaveClient(m, t), t, m.threads[t].entry);
  }

  lemma {:induction false} FinishMapped(m: Machine, t: nat)
    requires Mapped(m) && Enabled(m, Finish(t))
    ensures Mapped(LeaveClient(m, t)) && t !in LeaveClient(m, t).threads
  {
    hide Mapped;
    SameMap(m, LeaveClient(m, t), m.threads[t].entry);
  }

  lemma {:induction false} FinishTouches(m: Machine, t: nat)
    requires Inv(m) && Enabled(m, Finish(t))
    ensures Touches(m, LeaveClient(m, t), t, m.threads[t].entry)
  {
    hide TaleOf, ThreadsKept, Mapped;
    var e := m.threads[t].entry;
    assert EntryKept(m.heap[e], e, m.threads, TaleOf(m.trace, e));
    assert Ended(e).client == e;
  }

  lemma {:induction false} FinishLocally(m: Machine, t: nat)
    requires Inv(m) && Enabled(m, Finish(t))
    ensures LocallyKept(LeaveClient(m, t), m.threads[t].entry)
  {
    hide Run, TaleOf, Mapped, HeapKept;
    FinishEntry(m, t);
    hide EntryKept;
  }

  lemma {:induction false} FinishEntry(m: Machine, t: nat)
    requires Inv(m) && Enabled(m, Finish(t))
    ensures var m', e := LeaveClient(m, t), m.threads[t].entry;
            e in m'.heap && EntryKept(m'.heap[e], e, m'.threads, TaleOf(m'.trace, e))
  {
    hide Run, TaleOf, Mapped;
    var e := m.threads[t].entry;
    assert ThreadKept(m.threads[t], t, m.heap);
    EntryLeft(m.heap[e], e, t, m.threads, m.trace);
  }

  /** A command goes out. */
  lemma {:induction false} EntryLeft(entry: Entry, e: nat, t: nat, threads: map<nat, At>, trace: seq<Event>)
    requires EntryKept(entry, e, threads, TaleOf(trace, e)) && t in entry.readers
    ensures EntryKept(entry.(readers := entry.readers - {t}), e, threads - {t}, TaleOf(trace + [Ended(e)], e))
  {
    hide TaleOf;
    Told(trace, Ended(e), e);
    assert threads[t] == Running(e);
  }

  lemma {:induction false} KeepsTakeOut(m: Machine, t: nat)
    requires Inv(m) && Enabled(m, TakeOut(t))
    ensures Inv(TakeClient(m, t))
  {
    TakeOutTouches(m, t);
    TakeOutLocally(m, t);
    hide LocallyKept, HeapKept, ThreadsKept, Touches, Mapped, TakeClient;
    TakeOutMapped(m, t);
    Concludes(m, TakeClient(m, t), t, m.threads[t].entry);
  }

  lemma {:induction false} TakeOutMapped(m: Machine, t: nat)
    requires Mapped(m) && Enabled(m, TakeOut(t))
    ensures var m' := TakeClient(m, t);
            Mapped(m') && (t in m'.threads ==> m'.threads[t].entry == m.threads[t].entry)
  {
    hide Mapped;
    SameMap(m, TakeClient(m, t), m.threads[t].entry);
  }

  lemma {:induction false} TakeOutTouches(m: Machine, t: nat)
    requires Inv(m) && Enabled(m, TakeOut(t))
    ensures Touches(m, TakeClient(m, t), t, m.threads[t].entry)
  {
    hide TaleOf, ThreadsKept, Mapped;
    var e := m.threads[t].entry;
    assert EntryKept(m.heap[e], e, m.threads, TaleOf(m.trace, e));
    assert CloseBegan(e).client == e;
  }

  lemma {:induction false} TakeOutLocally(m: Machine, t: nat)
    requires Inv(m) && Enabled(m, TakeOut(t))
    ensures LocallyKept(TakeClient(m, t), m.threads[t].entry)
  {
    hide Run, TaleOf, Mapped;
    var e := m.threads[t].entry;
    Told(m.trace, CloseBegan(e), e);
  }

  lemma {:induction false} KeepsEndClose(m: Machine, t: nat)
    requires Inv(m) && Enabled(m, EndClose(t))
    ensures Inv(CloseDone(m, t))
  {
    EndCloseTouches(m, t);
    EndCloseLocally(m, t);
    hide LocallyKept, HeapKept, ThreadsKept, Touches, Mapped, CloseDone;
    EndCloseMapped(m, t);
    Concludes(m, CloseDone(m, t), t, m.threads[t].entry);
  }

  lemma {:induction false} EndCloseMapped(m: Machine, t: nat)
    requires Mapped(m) && Enabled(m, EndClose(t))
    ensures Mapped(CloseDone(m, t)) && t !in CloseDone(m, t).threads
  {
    hide Mapped;
    SameMap(m, CloseDone(m, t), m.threads[t].entry);
  }

  lemma {:induction false} EndCloseTouches(m: Machine, t: nat)
    requires Inv(m) && Enabled(m, EndClose(t))
    ensures Touches(m, CloseDone(m, t), t, m.threads[t].entry)
  {
    hide TaleOf, ThreadsKept, Mapped;
    var e := m.threads[t].entry;
    assert EntryKept(m.heap[e], e, m.threads, TaleOf(m.trace, e));
    assert CloseEnded(e).client == e;
  }

  lemma {:induction false} EndCloseLocally(m: Machine, t: nat)
    requires Inv(m) && Enabled(m, EndClose(t))
    ensures LocallyKept(CloseDone(m, t), m.threads[t].entry)
  {
    hide Run, TaleOf, Mapped;
    var e := m.threads[t].entry;
    Told(m.trace, CloseEnded(e), e);
  }

  lemma {:induction false} KeepsOpen(m: Machine, t: nat, hash: U64)
    requires Inv(m) && t !in m.threads
    ensures Inv(Hand(m, t, hash))
  {
    OpenMapped(m, t, hash);
    OpenTouches(m, t, hash);
    OpenLocally(m, t, hash);
    hide LocallyKept, HeapKept, ThreadsKept, Mapped, Touches, Run, Count.Taken;
    Concludes(m, Hand(m, t, hash), t, m.next);
  }

  lemma {:induction false} OpenTouches(m: Machine, t: nat, hash: U64)
    requires Inv(m) && t !in m.threads
    ensures Touches(m, Hand(m, t, hash), t, m.next)
  {
    hide TaleOf, ThreadsKept, Mapped, Count.Taken, EntryKept;
    assert CloseBegan(m.next).client == m.next;
  }

  lemma {:induction false} OpenLocally(m: Machine, t: nat, hash: U64)
    requires Inv(m) && t !in m.threads
    ensures LocallyKept(Hand(m, t, hash), m.next)
  {
    hide TaleOf, Count.Taken, Mapped;
    Told(m.trace, CloseBegan(m.next), m.next);
    assert m.next !in m.heap;
    assert forall u | u in m.threads :: m.threads[u].entry != m.next;
  }

  lemma {:induction false} OpenMapped(m: Machine, t: nat, hash: U64)
    requires Inv(m)
    ensures Mapped(Hand(m, t, hash))
  {
    hide Count.Taken, ThreadsKept, TaleOf, EntryKept, Run, Reachable;
    var m' := Hand(m, t, hash);
    var id := m.clients.counter.Taken(hash).1;
    OneMoreId(m, t, hash);
    NewId(m, t, hash);
    forall e | e in m'.heap && m'.heap[e].closer.None?
      ensures e < m'.next && Reachable(m'.clients, Ids(m')[e], e)
    {
      if e < m.next {
        assert Reachable(m.clients, Ids(m)[e], e);
        StaysReachable(m.clients, m'.clients, Ids(m)[e], e);
      } else {
        assert e == m.next && Reachable(m'.clients, id, e) by { NowReachable(m.clients, m'.clients, id, e); }
      }
    }
  }

  lemma {:induction false} StaysReachable(clients: Clients, clients': Clients, id: Option<I64>, e: nat)
    requires Reachable(clients, id, e)
    requires forall i | i in clients.entries :: i in clients'.entries && clients'.entries[i] == clients.entries[i]
    ensures Reachable(clients', id, e)
  {
  }

  lemma {:induction false} NowReachable(clients: Clients, clients': Clients, id: Option<I64>, e: nat)
    requires id.Some? && clients'.entries == clients.entries[id.value := e]
    ensures Reachable(clients', id, e)
  {
  }

  lemma {:induction false} OneMoreId(m: Machine, t: nat, hash: U64)
    requires Mapped(m)
    ensures var m' := Hand(m, t, hash);
            && Ids(m') == Ids(m) + [m.clients.counter.Taken(hash).1]
            && m'.clients.counter == Run(Unstarted, m'.hashes).0
  {
    hide Count.Taken;
    assert Hand(m, t, hash).hashes[..|m.hashes|] == m.hashes;
  }

  lemma {:induction false} NewId(m: Machine, t: nat, hash: U64)
    requires Mapped(m)
    ensures forall id | id in m.clients.entries :: Some(id) != m.clients.counter.Taken(hash).1
  {
    OneMoreId(m, t, hash);
    hide Count.Taken, Run;
    forall id | id in m.clients.entries
      ensures Some(id) != m.clients.counter.Taken(hash).1
    {
      IdsNeverReturn(Hand(m, t, hash).hashes, m.clients.entries[id], m.next);
    }
  }

  lemma {:induction false} KeepsRefusal(m: Machine, id: I64)
    requires Inv(m)
    ensures Inv(m.(refused := m.refused + [id]))
  {
  }

  lemma {:induction false} Kept(m: Machine, step: Step)
    requires Inv(m) && Enabled(m, step)
    ensures Inv(Apply(m, step))
  {
    hide Inv, Hand, RemoveEntry, EnterClient, LeaveClient, TakeClient, CloseDone;
    match step
    case Open(t, hash) => KeepsOpen(m, t, hash);
    case Lookup(t, id) =>
      if id in m.clients.entries {
        KeepsFound(m, t, id);
      } else {
        KeepsRefusal(m, id);
      }
    case Remove(t, id) =>
      if id in m.clients.entries {
        KeepsRemove(m, t, id);
      } else {
        KeepsRefusal(m, id);
      }
    case Enter(t) => KeepsEnter(m, t);
    case Finish(t) => KeepsFinish(m, t);
    case TakeOut(t) => KeepsTakeOut(m, t);
    case EndClose(t) => KeepsEndClose(m, t);
  }

  lemma {:induction false} Always(m: Machine, steps: seq<Step>)
    requires Inv(m)
    ensures Inv(Execute(m, steps))
    decreases |steps|
  {
    hide Inv, Apply, Enabled;
    if steps != [] {
      if Enabled(m, steps[0]) {
        Kept(m, steps[0]);
        Always(Apply(m, steps[0]), steps[1..]);
      } else {
        Always(m, steps[1..]);
      }
    }
  }

  function After(steps: seq<Step>): Machine { Execute(INIT, steps) }

  lemma {:induction false} Holds(steps: seq<Step>)
    ensures Inv(After(steps))
  {
    hide Execute;
    assert Inv(INIT);
    Always(INIT, steps);
  }

  // ---- what it comes to

  /** In every interleaving each client has the one story it may have: commands come and go, all
      are out before its close begins, none comes in then or later, and it is closed once. */
  lemma {:induction false} StoriesHold(steps: seq<Step>, c: nat)
    ensures !TaleOf(After(steps).trace, c).broken
  {
    Holds(steps);
    var m := After(steps);
    hide After, TaleOf, ThreadsKept, Mapped;
    if c in m.heap {
      assert EntryKept(m.heap[c], c, m.threads, TaleOf(m.trace, c));
    }
  }

  /** How an unbroken story reads, event by event: nothing is inside when the close begins, and
      after that nothing follows but the one end of it. */
  lemma {:induction false} StoryReads(trace: seq<Event>, c: nat, i: nat, j: nat)
    requires !TaleOf(trace, c).broken && i < j < |trace| && trace[i] == CloseBegan(c) && trace[j].client == c
    ensures TaleOf(trace[..i], c) == Tale(0, Live, false)
    ensures trace[j].CloseEnded?
    ensures forall k | i < k < |trace| && trace[k].client == c :: k == j
  {
    ClosePhase(trace, c, i, |trace|);
    ClosePhase(trace, c, i, j);
    ClosePhase(trace, c, i, j + 1);
    Prefixes(trace, c, j + 1);
    assert trace[..j + 1][..j] == trace[..j];
    forall k | i < k < |trace| && trace[k].client == c
      ensures k == j
    {
      EndsOnce(trace, c, i, if k < j then k else j, if k < j then j else k);
    }
  }

  lemma {:induction false} EndsOnce(trace: seq<Event>, c: nat, i: nat, j: nat, k: nat)
    requires !TaleOf(trace, c).broken && i < j <= k < |trace|
    requires trace[i] == CloseBegan(c) && trace[j].client == c && trace[k].client == c
    ensures j == k
  {
    Prefixes(trace, c, j + 1);
    Prefixes(trace, c, k + 1);
    assert trace[..j + 1][..j] == trace[..j] && trace[..k + 1][..k] == trace[..k];
    ClosePhase(trace, c, i, j);
    if j < k {
      GoneStays(trace, c, j + 1, k);
    }
  }

  lemma {:induction false} GoneStays(trace: seq<Event>, c: nat, j: nat, k: nat)
    requires !TaleOf(trace, c).broken && j <= k <= |trace| && TaleOf(trace[..j], c).phase.Gone?
    ensures TaleOf(trace[..k], c).phase.Gone?
    decreases k - j
  {
    if j < k {
      GoneStays(trace, c, j, k - 1);
      Prefixes(trace, c, k);
      assert trace[..k][..k - 1] == trace[..k - 1];
    }
  }

  lemma {:induction false} Prefixes(trace: seq<Event>, c: nat, n: nat)
    requires !TaleOf(trace, c).broken && n <= |trace|
    ensures !TaleOf(trace[..n], c).broken
    decreases |trace|
  {
    if n < |trace| {
      Prefixes(trace[..|trace| - 1], c, n);
      assert trace[..|trace| - 1][..n] == trace[..n];
    } else {
      assert trace[..n] == trace;
    }
  }

  lemma {:induction false} ClosePhase(trace: seq<Event>, c: nat, i: nat, n: nat)
    requires !TaleOf(trace, c).broken && i < n <= |trace| && trace[i] == CloseBegan(c)
    ensures !TaleOf(trace[..n], c).phase.Live? && TaleOf(trace[..i], c) == Tale(0, Live, false)
    decreases n
  {
    Prefixes(trace, c, n);
    Prefixes(trace, c, i);
    assert trace[..n][..n - 1] == trace[..n - 1];
    if n > i + 1 {
      ClosePhase(trace, c, i, n - 1);
    }
  }

  /** Whatever races: a close that took an entry out of the map finds the client in it, so it is
      never answered that the handle was closed by another. */
  lemma {:induction false} ClosesFindTheirClient(steps: seq<Step>, t: nat)
    ensures var m := After(steps);
            t in m.threads && m.threads[t].Removed? ==>
              && m.threads[t].entry in m.heap && m.heap[m.threads[t].entry].client == Some(m.threads[t].entry)
  {
    Holds(steps);
    var m := After(steps);
    hide After, TaleOf, Mapped;
    if t in m.threads && m.threads[t].Removed? {
      var e := m.threads[t].entry;
      assert EntryKept(m.heap[e], e, m.threads, TaleOf(m.trace, e));
    }
  }

  /** A command that has found its client either gets in while the client is live, or, when a close
      has begun, is told that its handle is closed. */
  lemma {:induction false} RunsOrIsRefused(steps: seq<Step>, t: nat)
    ensures var m := After(steps);
            Enabled(m, Enter(t)) ==>
              var m', e := Apply(m, Enter(t)), m.threads[t].entry;
              if TaleOf(m.trace, e).phase.Live? then
                && t in m'.threads && m'.threads[t] == Running(e)
                && m'.trace == m.trace + [Began(e)] && m'.refused == m.refused
              else
                t !in m'.threads && m'.trace == m.trace && m'.refused == m.refused + [m.threads[t].id]
  {
    Holds(steps);
    var m := After(steps);
    hide After, TaleOf, Mapped;
    if Enabled(m, Enter(t)) {
      var e := m.threads[t].entry;
      assert EntryKept(m.heap[e], e, m.threads, TaleOf(m.trace, e));
    }
  }

  /** When nobody is at work, every client there has been is either open and found under the one id
      it was issued, or has been closed exactly once. */
  lemma {:induction false} OpenOrClosedOnce(steps: seq<Step>, c: nat)
    ensures var m := After(steps);
            m.threads == map[] && c < m.next ==>
              |Ids(m)| == m.next &&
              if Ids(m)[c].Some? && Ids(m)[c].value in m.clients.entries then
                m.clients.entries[Ids(m)[c].value] == c && TaleOf(m.trace, c) == Tale(0, Live, false)
              else TaleOf(m.trace, c) == Tale(0, Gone, false)
  {
    Holds(steps);
    var m := After(steps);
    hide After, TaleOf, Run;
    if m.threads == map[] && c < m.next {
      var entry := m.heap[c];
      assert EntryKept(entry, c, m.threads, TaleOf(m.trace, c));
      assert entry.readers == {} && entry.writer.None?;
      if Ids(m)[c].Some? && Ids(m)[c].value in m.clients.entries {
        SameId(m, c, m.clients.entries[Ids(m)[c].value]);
      }
    }
  }

  lemma {:induction false} SameId(m: Machine, c: nat, d: nat)
    requires c < |m.hashes| && d < |m.hashes| && |Ids(m)| == |m.hashes| && Ids(m)[c].Some? && Ids(m)[c] == Ids(m)[d]
    ensures c == d
  {
    if c < d {
      IdsNeverReturn(m.hashes, c, d);
    } else if d < c {
      IdsNeverReturn(m.hashes, d, c);
    }
  }

  /** An id never comes to name another client: what it finds is what it was issued for. */
  lemma {:induction false} IdsNameOne(steps: seq<Step>, id: I64)
    ensures var m := After(steps);
            |Ids(m)| == m.next
            && (id in m.clients.entries ==>
                  m.clients.entries[id] < m.next && Ids(m)[m.clients.entries[id]] == Some(id) && New(id) == Some(id))
  {
    Holds(steps);
    var m := After(steps);
    hide After;
    if id in m.clients.entries {
      IdsInFull(m.hashes);
    }
  }

  /** The waits cannot deadlock: while any thread is at work, some thread can go on. */
  lemma {:induction false} NeverStuck(steps: seq<Step>, t: nat)
    ensures var m := After(steps);
            t in m.threads ==>
              exists u ::
                Enabled(m, Enter(u)) || Enabled(m, Finish(u)) || Enabled(m, TakeOut(u)) || Enabled(m, EndClose(u))
  {
    Holds(steps);
    var m := After(steps);
    hide After, TaleOf, Mapped;
    if t in m.threads {
      assert ThreadKept(m.threads[t], t, m.heap);
      var e := m.threads[t].entry;
      assert EntryKept(m.heap[e], e, m.threads, TaleOf(m.trace, e));
      if m.heap[e].writer.Some? {
        var u := m.heap[e].writer.value;
        assert Enabled(m, EndClose(u));
      } else if m.heap[e].readers != {} {
        var u :| u in m.heap[e].readers;
        assert Enabled(m, Finish(u));
      } else {
        assert Enabled(m, Enter(t)) || Enabled(m, TakeOut(t));
      }
    }
  }

  // ---- what each call is told

  /** In every interleaving an id is found if and only if it was issued to a client that no close has
      taken out; a lookup then finds that client, and is otherwise told that the handle is closed. */
  lemma {:induction false} LookupExact(steps: seq<Step>, t: nat, id: I64)
    ensures var m := After(steps);
            && |Ids(m)| == m.next
            && (id in m.clients.entries <==>
                  exists c: nat | c < m.next :: Ids(m)[c] == Some(id) && c in m.heap && m.heap[c].closer.None?)
            && (Enabled(m, Lookup(t, id)) ==>
                  var m' := Apply(m, Lookup(t, id));
                  if id in m.clients.entries then
                    && m' == m.(threads := m.threads[t := Found(id, m.clients.entries[id])])
                    && m.clients.entries[id] < m.next && Ids(m)[m.clients.entries[id]] == Some(id)
                  else m' == m.(refused := m.refused + [id]))
  {
    Holds(steps);
    var m := After(steps);
    hide After, Run, HeapKept, ThreadsKept;
    if id in m.clients.entries {
      var c := m.clients.entries[id];
      assert Ids(m)[c] == Some(id) && m.heap[c].closer.None?;
    }
  }

  /** A close of an id in the map takes it out and goes on to shut that client down; the id is in no
      later map; and a close of any other id is told that the handle is closed. */
  lemma {:induction false} CloseExact(steps: seq<Step>, t: nat, id: I64, later: seq<Step>)
    ensures var m := After(steps);
            Enabled(m, Remove(t, id)) ==>
              var m' := Apply(m, Remove(t, id));
              if id in m.clients.entries then
                && t in m'.threads && m'.threads[t] == Removed(id, m.clients.entries[id])
                && m'.clients == m.clients.(entries := m.clients.entries - {id})
                && m'.trace == m.trace && m'.refused == m.refused
                && id !in Execute(m', later).clients.entries
              else m' == m.(refused := m.refused + [id])
  {
    Holds(steps);
    var m := After(steps);
    hide After, Run, HeapKept, ThreadsKept, Execute;
    if Enabled(m, Remove(t, id)) && id in m.clients.entries {
      var c := m.clients.entries[id];
      Kept(m, Remove(t, id));
      var m' := RemoveEntry(m, t, id);
      InOrder(m');
      TakenOutForGood(m', c, later);
      Always(m', later);
      NeverBack(m', Execute(m', later), c, id);
    }
  }

  lemma {:induction false} InOrder(m: Machine)
    requires Inv(m)
    ensures forall e: nat :: e in m.heap <==> e < m.next
  {
  }

  /** The close that took an entry out begins to shut its client down as soon as nothing is inside. */
  lemma {:induction false} TakeOutExact(steps: seq<Step>, t: nat)
    ensures var m := After(steps);
            && (t in m.threads && m.threads[t].Removed? ==>
                  (Enabled(m, TakeOut(t)) <==>
                     m.threads[t].entry in m.heap && m.heap[m.threads[t].entry].readers == {}))
            && (Enabled(m, TakeOut(t)) ==>
                  var m', e := Apply(m, TakeOut(t)), m.threads[t].entry;
                  && t in m'.threads && m'.threads[t] == Closing(e) && m'.trace == m.trace + [CloseBegan(e)]
                  && m'.refused == m.refused)
  {
    Holds(steps);
    ClosesFindTheirClient(steps, t);
    var m := After(steps);
    hide After, Run, Mapped, TaleOf;
    if t in m.threads && m.threads[t].Removed? {
      var e := m.threads[t].entry;
      assert EntryKept(m.heap[e], e, m.threads, TaleOf(m.trace, e));
    }
  }

  /** An entry taken out stays out, and the ids issued stay issued. */
  lemma {:induction false} TakenOutForGood(m: Machine, c: nat, later: seq<Step>)
    requires c in m.heap && m.heap[c].closer.Some? && (forall e: nat :: e in m.heap <==> e < m.next)
    ensures var m' := Execute(m, later);
            c in m'.heap && m'.heap[c].closer.Some? && m.hashes <= m'.hashes
    decreases |later|
  {
    if later != [] {
      if Enabled(m, later[0]) {
        TakenOutStep(m, c, later[0]);
        hide Apply, Enabled;
        TakenOutForGood(Apply(m, later[0]), c, later[1..]);
      } else {
        TakenOutForGood(m, c, later[1..]);
      }
    }
  }

  lemma {:induction false} TakenOutStep(m: Machine, c: nat, step: Step)
    requires c in m.heap && m.heap[c].closer.Some? && (forall e: nat :: e in m.heap <==> e < m.next) && Enabled(m, step)
    ensures var m' := Apply(m, step);
            && c in m'.heap && m'.heap[c].closer.Some? && m.hashes <= m'.hashes
            && (forall e: nat :: e in m'.heap <==> e < m'.next)
  {
    hide Count.Taken;
  }

  lemma {:induction false} NeverBack(m: Machine, m': Machine, c: nat, id: I64)
    requires Mapped(m) && Mapped(m') && m.hashes <= m'.hashes && c < m.next && Ids(m)[c] == Some(id)
    requires c in m'.heap && m'.heap[c].closer.Some?
    ensures id !in m'.clients.entries
  {
    IdsInFull(m.hashes);
    IdsInFull(m'.hashes);
    assert m'.hashes[0] == m.hashes[0];
    assert Ids(m')[c] == Ids(m)[c];
    hide Run, Reachable;
    if id in m'.clients.entries {
      SameId(m', c, m'.clients.entries[id]);
    }
  }
}
