/** What the session pool promises, over every run. */
module SessionTheorems {
  import opened Options
  import opened Lists
  import opened SessionState
  import opened CommandSlot
  import opened SessionMachine
  import opened SessionProof

  /** The state a run of the pool ends in. */
  function After(limits: Concurrency, now: nat, reaps: bool, steps: seq<Step>): Machine {
    Execute(limits, Init(limits, now, reaps), steps)
  }

  lemma {:induction false} Holds(limits: Concurrency, now: nat, reaps: bool, steps: seq<Step>)
    requires limits.Valid()
    ensures Inv(limits, After(limits, now, reaps, steps))
  {
    hide Inv, Init;
    Starts(limits, now, reaps);
    Always(limits, Init(limits, now, reaps), steps);
  }

  // ---- sessions

  /** The count is the sessions free, out, reserved and being destroyed; it keeps under the ceiling
      and over the sessions that exist. */
  lemma {:induction false} SessionsConserved(limits: Concurrency, now: nat, reaps: bool, steps: seq<Step>)
    requires limits.Valid()
    ensures var m := After(limits, now, reaps, steps);
            var cs := m.callers;
            && m.pool.open == |m.pool.idle| + |cs.holding| + |cs.armed| + |cs.leaving| + cs.growing + cs.growFailed
                              + Dying(m.reaper)
            && |Everywhere(m)| <= m.pool.open <= limits.max
  {
    Holds(limits, now, reaps, steps);
  }

  /** No two places hold one session: not two commands, not a command and the pool, not a caller
      and the reaper. */
  lemma {:induction false} NeverShared(limits: Concurrency, now: nat, reaps: bool, steps: seq<Step>, s: nat)
    requires limits.Valid()
    ensures var m := After(limits, now, reaps, steps);
            multiset(Sessions(m.pool.idle))[s] + multiset(m.callers.holding)[s]
            + multiset(ArmedSessions(m.callers.armed))[s] + multiset(m.callers.leaving)[s] + multiset(Left(m.reaper))[s]
            <= 1
  {
    Holds(limits, now, reaps, steps);
    hide Execute, Init, Conserved, NoneLost, FloorSpared, Ordered, ArmedRight, FiredRight, Sessions, ArmedSessions,
         Left;
    var m := After(limits, now, reaps, steps);
    assert Everywhere(m)[s] <= 1;
  }

  lemma {:induction false} CommandsApart(limits: Concurrency, now: nat, reaps: bool, steps: seq<Step>, i: nat, j: nat)
    requires limits.Valid()
    ensures var armed := After(limits, now, reaps, steps).callers.armed;
            i < j < |armed| ==> armed[i].session != armed[j].session
  {
    hide After;
    var armed := After(limits, now, reaps, steps).callers.armed;
    if i < j < |armed| && armed[i].session == armed[j].session {
      NeverShared(limits, now, reaps, steps, armed[i].session);
      Twice(ArmedSessions(armed), i, j);
    }
  }

  lemma {:induction false} Twice(s: seq<nat>, i: nat, j: nat)
    requires i < j < |s| && s[i] == s[j]
    ensures multiset(s)[s[i]] >= 2
  {
    assert s == s[..j] + [s[j]] + s[j + 1..];
    assert s[i] == s[..j][i];
  }

  // ---- waiting for one

  /** While any caller sleeps, free sessions and unused places together are no more than the
      callers awake to look for them and the notifies still to be made. */
  lemma {:induction false} NoWakeupLost(limits: Concurrency, now: nat, reaps: bool, steps: seq<Step>)
    requires limits.Valid()
    ensures var m := After(limits, now, reaps, steps);
            m.callers.asleep > 0 ==>
              |m.pool.idle| + limits.max - m.pool.open <= m.callers.woken + m.callers.owing
  {
    Holds(limits, now, reaps, steps);
  }

  /** Taken by a thread already inside the pool. */
  predicate UnderWay(step: Step) {
    match step
    case Check(woken) => woken
    case OpenSession => true
    case RefuseSession => true
    case Unreserve => true
    case StartCommand(_, _) => true
    case EndCommand(_) => true
    case GiveBack(_) => true
    case Notify => true
    case Destroy => true
    case ReportDestroyed => true
    case _ => false
  }

  /** A caller never sleeps alone: while one does, a thread that is already inside can move
      without another caller arriving or a wake that nobody sent. */
  lemma {:induction false} NeverForgotten(limits: Concurrency, now: nat, reaps: bool, steps: seq<Step>)
    requires limits.Valid()
    ensures var m := After(limits, now, reaps, steps);
            m.callers.asleep > 0 ==> exists step :: UnderWay(step) && Enabled(m, step)
  {
    Holds(limits, now, reaps, steps);
    var m := After(limits, now, reaps, steps);
    hide Inv, After;
    if m.callers.asleep > 0 {
      SomeoneInside(limits, m);
    }
  }

  lemma {:induction false} SomeoneInside(limits: Concurrency, m: Machine)
    requires Inv(limits, m) && m.callers.asleep > 0
    ensures exists step :: UnderWay(step) && Enabled(m, step)
  {
    hide ArmedRight, FiredRight, Apart, Ordered;
    var cs := m.callers;
    var step :=
      if cs.woken > 0 then Check(true)
      else if cs.owing > 0 then Notify
      else if cs.growing > 0 then OpenSession
      else if cs.growFailed > 0 then Unreserve
      else if cs.holding != [] then StartCommand(0, 0)
      else if cs.armed != [] then EndCommand(0)
      else if cs.leaving != [] then GiveBack(0)
      else if Left(m.reaper) != [] then Destroy
      else ReportDestroyed;
    assert UnderWay(step) && Enabled(m, step);
  }

  // ---- interrupts

  /** A slot armed on a session is the slot of the command running on it, and the session is
      nowhere else; so is the session of every interrupt, when it was fired. */
  lemma {:induction false} InterruptsStayHome(limits: Concurrency, now: nat, reaps: bool, steps: seq<Step>, k: nat)
    requires limits.Valid()
    ensures var m := After(limits, now, reaps, steps);
            SlotAt(m, k).Running? ==>
              var s := SlotAt(m, k).session;
              && Armed(k, s) in m.callers.armed
              && s !in Sessions(m.pool.idle) && s !in m.callers.holding && s !in m.callers.leaving
              && s !in Left(m.reaper)
    ensures var log := After(limits, now, reaps, steps).log;
            forall i | 0 <= i < |log.kills| :: log.kills[i].hit
  {
    Holds(limits, now, reaps, steps);
    var m := After(limits, now, reaps, steps);
    hide After, Conserved, NoneLost, FloorSpared, Ordered, Apart, Everywhere, Sessions, Left;
    if SlotAt(m, k).Running? {
      var s := SlotAt(m, k).session;
      NeverShared(limits, now, reaps, steps, s);
      var i :| 0 <= i < |m.callers.armed| && m.callers.armed[i] == Armed(k, s);
      assert ArmedSessions(m.callers.armed)[i] == s;
      assert s in multiset(ArmedSessions(m.callers.armed));
    }
  }

  /** A slot runs at most one command and fires at most once; it never fires unless its command
      ran; and once its command is over, or it was cancelled, it does neither again. */
  lemma {:induction false} SlotsOnce(limits: Concurrency, now: nat, reaps: bool, steps: seq<Step>, i: nat, j: nat)
    requires limits.Valid()
    ensures var log := After(limits, now, reaps, steps).log;
            && (i < j < |log.ran| ==> log.ran[i] != log.ran[j])
            && (i < j < |log.kills| ==> log.kills[i].slot != log.kills[j].slot)
            && (i < |log.kills| ==> log.kills[i].slot in log.ran)
  {
    Holds(limits, now, reaps, steps);
  }

  lemma {:induction false} OverMeansOver(limits: Concurrency, m: Machine, steps: seq<Step>, k: nat)
    requires SlotAt(m, k).Finished? || SlotAt(m, k).Cancelled?
    ensures var m' := Execute(limits, m, steps);
            && (SlotAt(m', k).Finished? || SlotAt(m', k).Cancelled?)
            && (SlotAt(m, k).Cancelled? ==> SlotAt(m', k).Cancelled?)
            && Mentions(m'.log, k) == Mentions(m.log, k)
    decreases |steps|
  {
    hide Apply, Enabled, SlotAt, Mentions;
    if steps != [] {
      if Enabled(m, steps[0]) {
        OverStays(limits, m, steps[0], k);
        OverMeansOver(limits, Apply(limits, m, steps[0]), steps[1..], k);
      } else {
        OverMeansOver(limits, m, steps[1..], k);
      }
    }
  }

  /** How often a slot's command ran, and how often it fired. */
  function Mentions(log: Log, k: nat): (nat, nat) {
    (Times(log.ran, k), Fires(log.kills, k))
  }

  function Times(slots: seq<nat>, k: nat): nat {
    if slots == [] then 0
    else Times(slots[..|slots| - 1], k) + if slots[|slots| - 1] == k then 1 else 0
  }

  function Fires(kills: seq<Kill>, k: nat): nat {
    if kills == [] then 0
    else Fires(kills[..|kills| - 1], k) + if kills[|kills| - 1].slot == k then 1 else 0
  }

  lemma {:induction false} OverStays(limits: Concurrency, m: Machine, step: Step, k: nat)
    requires (SlotAt(m, k).Finished? || SlotAt(m, k).Cancelled?) && Enabled(m, step)
    ensures var m' := Apply(limits, m, step);
            && (SlotAt(m', k).Finished? || SlotAt(m', k).Cancelled?)
            && (SlotAt(m, k).Cancelled? ==> SlotAt(m', k).Cancelled?)
            && Mentions(m'.log, k) == Mentions(m.log, k)
  {
    hide ReapAll, Without, Sessions, ArmedSessions, Times, Fires;
    match step {
      case StartCommand(_, slot) => Appended(m.log.ran, slot, k);
      case Cancel(slot) => FireAppended(m, slot, k);
      case _ =>
    }
  }

  lemma {:induction false} Appended(slots: seq<nat>, slot: nat, k: nat)
    ensures Times(slots + [slot], k) == Times(slots, k) + if slot == k then 1 else 0
  {
    assert (slots + [slot])[..|slots|] == slots;
  }

  lemma {:induction false} FireAppended(m: Machine, slot: nat, k: nat)
    requires SlotAt(m, k).Finished? || SlotAt(m, k).Cancelled?
    ensures Fires(CancelSlot(m, slot).log.kills, k) == Fires(m.log.kills, k)
  {
    var kills := CancelSlot(m, slot).log.kills;
    if |kills| > |m.log.kills| {
      assert kills[..|m.log.kills|] == m.log.kills;
    }
  }

  /** A command cancelled before a session picked it up is never run, then or later. */
  lemma {:induction false} CancelledNeverRuns(limits: Concurrency, now: nat, reaps: bool, steps: seq<Step>, k: nat)
    requires limits.Valid()
    ensures var log := After(limits, now, reaps, steps).log;
            k in log.early ==> k !in log.ran
  {
    Holds(limits, now, reaps, steps);
  }

  // ---- how many sessions

  /** What is being destroyed always leaves the floor standing, less a place for each session the
      engine refused to open. */
  lemma {:induction false} FloorUnlessRefused(limits: Concurrency, now: nat, reaps: bool, steps: seq<Step>)
    requires limits.Valid()
    ensures var m := After(limits, now, reaps, steps);
            && m.pool.open - Dying(m.reaper) + m.log.failedOpens >= limits.min
            && (m.log.failedOpens == 0 ==> m.pool.open >= limits.min)
  {
    Holds(limits, now, reaps, steps);
  }

  /** Each pass of the reaper by itself leaves the floor standing, whatever was refused before. */
  lemma {:induction false} EachReapLeavesTheFloor(limits: Concurrency, m: Machine)
    requires m.reaper.Looking?
    ensures var m' := Reap(limits, m);
            m'.reaper.Destroying? ==> m'.pool.open - m'.reaper.batch >= limits.min
  {
    hide ReapAll;
    ReapSizes(limits, m);
  }

  /** A fixed pool never grows, so no refusal can reach it. */
  lemma {:induction false} FixedStaysFixed(limits: Concurrency, now: nat, reaps: bool, steps: seq<Step>)
    requires limits.Valid() && limits.min == limits.max
    ensures var m := After(limits, now, reaps, steps);
            m.pool.open == limits.min && m.log.failedOpens == 0 && m.reaper.Absent?
  {
    var m := Init(limits, now, reaps);
    Starts(limits, now, reaps);
    hide Inv, Init;
    FixedFrom(limits, m, steps);
  }

  lemma {:induction false} FixedFrom(limits: Concurrency, m: Machine, steps: seq<Step>)
    requires Inv(limits, m) && limits.min == limits.max && m.log.failedOpens == m.callers.growing == 0
    ensures var m' := Execute(limits, m, steps);
            m'.pool.open == limits.min && m'.log.failedOpens == 0 && m'.reaper.Absent?
    decreases |steps|
  {
    hide Apply, Enabled;
    hide Ordered, Apart, ArmedRight, FiredRight, NoneLost;
    if steps != [] {
      if Enabled(m, steps[0]) {
        Kept(limits, m, steps[0]);
        FixedStep(limits, m, steps[0]);
        FixedFrom(limits, Apply(limits, m, steps[0]), steps[1..]);
      } else {
        FixedFrom(limits, m, steps[1..]);
      }
    }
  }

  lemma {:induction false} FixedStep(limits: Concurrency, m: Machine, step: Step)
    requires Inv(limits, m) && limits.min == limits.max && m.log.failedOpens == m.callers.growing == 0
    requires Enabled(m, step)
    ensures var m' := Apply(limits, m, step);
            m'.log.failedOpens == m'.callers.growing == 0
  {
    hide Ordered, Apart, ArmedRight, FiredRight, NoneLost, ReapAll, Without;
  }

  /** A pass of the reaper, in any state it is made, evicts the least recently used. */
  lemma {:induction false} ReapsOldest(limits: Concurrency, now: nat, reaps: bool, steps: seq<Step>)
    requires limits.Valid() && limits.idleTimeout.Some?
    ensures var m := After(limits, now, reaps, steps);
            && Sorted(m.pool.idle)
            && ReapAll(m.pool.idle, m.pool.Spare(limits.min), limits.idleTimeout.value, m.now)
               == Evict(m.pool.idle, m.pool.Spare(limits.min), limits.idleTimeout.value, m.now)
  {
    Holds(limits, now, reaps, steps);
    var m := After(limits, now, reaps, steps);
    hide ReapAll, Evict, Sorted, After;
    assert Ordered(m);
    ReapIsEviction(m.pool.idle, m.pool.Spare(limits.min), limits.idleTimeout.value, m.now);
  }

  // ---- the two layers

  /** Callers waiting for a session or holding one. */
  function Inside(cs: Callers): nat {
    cs.asking + cs.asleep + cs.woken + Out(cs)
  }

  /** With no more callers than the ceiling, a caller can be put to sleep only while the reaper is
      destroying a session; so never in a fixed pool. */
  lemma {:induction false} SleepsOnlyForTheReaper(
      limits: Concurrency, now: nat, reaps: bool, steps: seq<Step>, woken: bool)
    requires limits.Valid()
    ensures var m := After(limits, now, reaps, steps);
            && Inside(m.callers) <= limits.max && Enabled(m, Check(woken))
            && Apply(limits, m, Check(woken)).callers.asleep > m.callers.asleep
            ==> Dying(m.reaper) > 0 && limits.min < limits.max
  {
    Holds(limits, now, reaps, steps);
    var m := After(limits, now, reaps, steps);
    hide Ordered, Apart, ArmedRight, FiredRight, NoneLost, FloorSpared, After;
  }
}
