/** What each caller, canceller and the reaper gets on asking the session pool, in every run, with
    every bound written out. */
module SessionDecisions {
  import opened Options
  import opened Lists
  import opened SessionState
  import opened CommandSlot
  import opened SessionMachine
  import opened SessionProof
  import opened SessionTheorems

  // ---- a session to run on

  /** Taking a session, reserving one and going to sleep, as the bookkeeping shows them. */
  predicate Takes(m: Machine, m': Machine) {
    && m.pool.idle != [] && var last := m.pool.idle[|m.pool.idle| - 1];
       && m'.callers.holding == m.callers.holding + [last.session]
       && m'.pool == m.pool.(idle := m.pool.idle[..|m.pool.idle| - 1])
       && m'.callers.growing == m.callers.growing && m'.callers.asleep == m.callers.asleep
       && forall i | 0 <= i < |m.pool.idle| :: m.pool.idle[i].since <= last.since
  }

  predicate Reserves(m: Machine, m': Machine) {
    && m'.pool == m.pool.(open := m.pool.open + 1) && m'.callers.growing == m.callers.growing + 1
    && m'.callers.holding == m.callers.holding && m'.callers.asleep == m.callers.asleep
  }

  predicate FallsAsleep(m: Machine, m': Machine) {
    && m'.pool == m.pool && m'.callers.asleep == m.callers.asleep + 1
    && m'.callers.holding == m.callers.holding && m'.callers.growing == m.callers.growing
  }

  /** In every run: a caller takes the most recently returned session if and only if one is free,
      reserves a place if and only if none is and there is room, and sleeps if and only if none is
      and there is none. */
  lemma {:induction false} CheckoutExact(limits: Concurrency, now: nat, reaps: bool, steps: seq<Step>, woken: bool)
    requires limits.Valid()
    ensures var m := After(limits, now, reaps, steps);
            Enabled(m, Check(woken)) ==>
              var m' := Apply(limits, m, Check(woken));
              && (Takes(m, m') <==> m.pool.idle != [])
              && (Reserves(m, m') <==> m.pool.idle == [] && m.pool.open < limits.max)
              && (FallsAsleep(m, m') <==> m.pool.idle == [] && m.pool.open == limits.max)
              && (if woken then m'.callers.woken == m.callers.woken - 1 && m'.callers.asking == m.callers.asking
                  else m'.callers.asking == m.callers.asking - 1 && m'.callers.woken == m.callers.woken)
  {
    Holds(limits, now, reaps, steps);
    var m := After(limits, now, reaps, steps);
    hide Execute, Init, Everywhere, Apart, ArmedRight, FiredRight, NoneLost, FloorSpared;
    if Enabled(m, Check(woken)) {
      CheckoutAt(limits, m, woken);
    }
  }

  lemma {:induction false} CheckoutAt(limits: Concurrency, m: Machine, woken: bool)
    requires Conserved(limits, m) && Ordered(m) && Enabled(m, Check(woken))
    ensures var m' := Apply(limits, m, Check(woken));
            && (Takes(m, m') <==> m.pool.idle != [])
            && (Reserves(m, m') <==> m.pool.idle == [] && m.pool.open < limits.max)
            && (FallsAsleep(m, m') <==> m.pool.idle == [] && m.pool.open == limits.max)
            && (if woken then m'.callers.woken == m.callers.woken - 1 && m'.callers.asking == m.callers.asking
                else m'.callers.asking == m.callers.asking - 1 && m'.callers.woken == m.callers.woken)
  {
  }

  /** A session given back is free from that moment, behind every other, and a notify is owed for it. */
  lemma {:induction false} GiveBackExact(limits: Concurrency, m: Machine, i: nat)
    requires Enabled(m, GiveBack(i))
    ensures var m' := Apply(limits, m, GiveBack(i));
            && m'.pool == m.pool.(idle := m.pool.idle + [Idle(m.callers.leaving[i], m.now)])
            && m'.callers.leaving == Without(m.callers.leaving, i) && m'.callers.owing == m.callers.owing + 1
            && m'.pool.Taken() == (m.pool, Some(m.callers.leaving[i]))
  {
    assert (m.pool.idle + [Idle(m.callers.leaving[i], m.now)])[..|m.pool.idle|] == m.pool.idle;
  }

  // ---- a slot

  /** In every run a command runs if and only if its slot never ran one and was not cancelled first;
      otherwise its session goes straight back. */
  lemma {:induction false} StartExact(limits: Concurrency, now: nat, reaps: bool, steps: seq<Step>, i: nat, k: nat)
    requires limits.Valid()
    ensures var m := After(limits, now, reaps, steps);
            Enabled(m, StartCommand(i, k)) ==>
              var m', s := Apply(limits, m, StartCommand(i, k)), m.callers.holding[i];
              && m'.callers.holding == Without(m.callers.holding, i)
              && if k !in m.log.ran && k !in m.log.early then
                   && m'.callers.armed == m.callers.armed + [Armed(k, s)] && m'.callers.leaving == m.callers.leaving
                   && SlotAt(m', k) == Running(s) && m'.log == m.log.(ran := m.log.ran + [k])
                 else
                   && m'.callers.armed == m.callers.armed && m'.callers.leaving == m.callers.leaving + [s]
                   && m'.slots == m.slots && m'.log == m.log
  {
    Holds(limits, now, reaps, steps);
    var m := After(limits, now, reaps, steps);
    hide Execute, Init, Everywhere, Apart, ArmedRight, NoneLost, FloorSpared, Conserved, Ordered;
    if Enabled(m, StartCommand(i, k)) {
      assert SlotAt(m, k).Waiting? <==> k !in m.log.ran && k !in m.log.early;
    }
  }

  /** In every run a cancel fires if and only if the slot's command is running and has not been
      stopped before; it fires once, on the session that command holds; and it leaves every session
      where it is. */
  lemma {:induction false} CancelExact(limits: Concurrency, now: nat, reaps: bool, steps: seq<Step>, k: nat)
    requires limits.Valid()
    ensures var m := After(limits, now, reaps, steps);
            var m' := Apply(limits, m, Step.Cancel(k));
            && SlotAt(m', k).Cancelled? && m'.callers == m.callers && m'.pool == m.pool && m'.log.ran == m.log.ran
            && (forall a | a in m.callers.armed && a.slot == k && !Killed(m.log, k) ::
                  m'.log.kills == m.log.kills + [Kill(k, a.session, true)])
            && ((forall a | a in m.callers.armed :: a.slot != k) || Killed(m.log, k) ==> m'.log.kills == m.log.kills)
  {
    Holds(limits, now, reaps, steps);
    var m := After(limits, now, reaps, steps);
    hide Execute, Init;
    CancelAt(limits, m, k);
  }

  lemma {:induction false} CancelAt(limits: Concurrency, m: Machine, k: nat)
    requires Inv(limits, m)
    ensures var m' := CancelSlot(m, k);
            && SlotAt(m', k).Cancelled? && m'.callers == m.callers && m'.pool == m.pool && m'.log.ran == m.log.ran
            && (forall a | a in m.callers.armed && a.slot == k && !Killed(m.log, k) ::
                  m'.log.kills == m.log.kills + [Kill(k, a.session, true)])
            && ((forall a | a in m.callers.armed :: a.slot != k) || Killed(m.log, k) ==> m'.log.kills == m.log.kills)
  {
    hide Everywhere, Apart, NoneLost, FloorSpared, Conserved, Ordered, OneEach;
    if Killed(m.log, k) {
      var i :| 0 <= i < |m.log.kills| && m.log.kills[i].slot == k;
      assert SlotAt(m, k).Cancelled?;
    }
    hide Killed;
  }

  /** A command over, however it ended, leaves its slot disarmed and its session still held. */
  lemma {:induction false} EndExact(limits: Concurrency, now: nat, reaps: bool, steps: seq<Step>, i: nat)
    requires limits.Valid()
    ensures var m := After(limits, now, reaps, steps);
            Enabled(m, EndCommand(i)) ==>
              var m', a := Apply(limits, m, EndCommand(i)), m.callers.armed[i];
              && m'.callers.armed == Without(m.callers.armed, i)
              && m'.callers.leaving == m.callers.leaving + [a.session]
              && SlotAt(m', a.slot) == (if Killed(m.log, a.slot) then Slot.Cancelled else Slot.Finished)
              && m'.pool == m.pool && m'.log == m.log
  {
    Holds(limits, now, reaps, steps);
    var m := After(limits, now, reaps, steps);
    hide Execute, Init, Everywhere, Apart, NoneLost, FloorSpared, Conserved, Ordered, OneEach;
    if Enabled(m, EndCommand(i)) {
      var a := m.callers.armed[i];
      assert a in m.callers.armed;
      if Killed(m.log, a.slot) {
        var j :| 0 <= j < |m.log.kills| && m.log.kills[j].slot == a.slot;
        assert SlotAt(m, a.slot).Cancelled?;
      }
    }
  }

  // ---- the reaper

  /** A pass that takes the first `k` free sessions is the right one: no more than the floor can
      spare, all of them overdue, and the next one either not overdue or not to be spared. */
  predicate ReapsRightly(limits: Concurrency, m: Machine, m': Machine, k: nat) {
    && limits.idleTimeout.Some? && k <= |m.pool.idle|
    && (k == 0 || k <= m.pool.open - limits.min)
    && (forall i | 0 <= i < k :: m.now - m.pool.idle[i].since >= limits.idleTimeout.value)
    && (k == |m.pool.idle| || k == m.pool.open - limits.min || m.pool.open <= limits.min
        || m.now - m.pool.idle[k].since < limits.idleTimeout.value)
    && m'.pool == m.pool.(idle := m.pool.idle[k..])
    && m'.reaper == (if k > 0 then Destroying(Sessions(m.pool.idle[..k]), k) else Resting)
  }

  lemma {:induction false} ReapAt(limits: Concurrency, m: Machine)
    requires limits.Valid() && limits.idleTimeout.Some? && Ordered(m) && m.reaper.Looking? && !m.pool.closing
    ensures exists k: nat :: ReapsRightly(limits, m, Reap(limits, m), k)
  {
    var idle, spare, timeout := m.pool.idle, m.pool.Spare(limits.min), limits.idleTimeout.value;
    var k := |Evict(idle, spare, timeout, m.now).expired|;
    ReapIsEviction(idle, spare, timeout, m.now);
    forall i | 0 <= i < |idle|
      ensures i < k ==> m.now - idle[i].since >= timeout
      ensures i == k ==> k == spare || m.now - idle[i].since < timeout
      ensures k <= spare
    {
      EvictionIsExact(idle, spare, timeout, m.now, i);
      assert idle[i].since <= m.now;
    }
    hide ReapAll, Overdue;
    assert ReapsRightly(limits, m, Reap(limits, m), k);
  }

  /** In every run a look by the reaper stops it if the pool is closing, and otherwise takes the
      least recently used of the sessions free for the timeout, as many as `open` exceeds the floor
      by, to destroy them, and rests if there are none. */
  lemma {:induction false} ReapExact(limits: Concurrency, now: nat, reaps: bool, steps: seq<Step>)
    requires limits.Valid()
    ensures var m := After(limits, now, reaps, steps);
            Enabled(m, LookToReap) ==>
              var m' := Apply(limits, m, LookToReap);
              && m'.callers == m.callers
              && if m.pool.closing then m'.reaper == Stopped && m'.pool == m.pool
                 else exists k: nat :: ReapsRightly(limits, m, m', k)
  {
    Holds(limits, now, reaps, steps);
    var m := After(limits, now, reaps, steps);
    hide Execute, Init, Everywhere, Apart, ArmedRight, FiredRight, NoneLost, FloorSpared, ReapAll, Sorted;
    if Enabled(m, LookToReap) && !m.pool.closing {
      ReapAt(limits, m);
    }
  }

  /** Back with its batch destroyed, it counts the batch out, wakes every sleeper, and looks again
      under the same lock. */
  lemma {:induction false} ReportExact(limits: Concurrency, now: nat, reaps: bool, steps: seq<Step>)
    requires limits.Valid()
    ensures var m := After(limits, now, reaps, steps);
            Enabled(m, ReportDestroyed) ==>
              var m' := Apply(limits, m, ReportDestroyed);
              var counted := m.(pool := m.pool.(open := m.pool.open - m.reaper.batch), reaper := Looking);
              && m'.callers == m.callers.(asleep := 0, woken := m.callers.woken + m.callers.asleep)
              && if m.pool.closing then m'.reaper == Stopped && m'.pool == counted.pool
                 else exists k: nat :: ReapsRightly(limits, counted, m', k)
  {
    Holds(limits, now, reaps, steps);
    var m := After(limits, now, reaps, steps);
    hide Execute, Init, Everywhere, Apart, ArmedRight, FiredRight, NoneLost, FloorSpared, ReapAll, Sorted;
    if Enabled(m, ReportDestroyed) && !m.pool.closing {
      ReapAt(limits, Counted(m));
      var k: nat :| ReapsRightly(limits, Counted(m), Reap(limits, Counted(m)), k);
      assert ReapsRightly(limits, m.(pool := m.pool.(open := m.pool.open - m.reaper.batch), reaper := Looking),
                          Reap(limits, Counted(m)), k);
    }
  }

  /** Told to stop, the reaper never starts another batch, whatever else goes on: the next time it
      looks it stops. */
  lemma {:induction false} StopsForGood(limits: Concurrency, m: Machine, steps: seq<Step>)
    ensures var told := Apply(limits, m, StopReaping);
            var m' := Execute(limits, told, steps);
            && m'.pool.closing
            && (m'.reaper.Destroying? ==> m.reaper.Destroying? && m'.reaper.batch == m.reaper.batch)
  {
    hide Execute;
    StopsFrom(limits, Apply(limits, m, StopReaping), steps);
  }

  lemma {:induction false} StopsFrom(limits: Concurrency, m: Machine, steps: seq<Step>)
    requires m.pool.closing
    ensures var m' := Execute(limits, m, steps);
            && m'.pool.closing
            && (m'.reaper.Destroying? ==> m.reaper.Destroying? && m'.reaper.batch == m.reaper.batch)
    decreases |steps|
  {
    if steps != [] {
      if Enabled(m, steps[0]) {
        StopStep(limits, m, steps[0]);
        hide Apply, Enabled;
        StopsFrom(limits, Apply(limits, m, steps[0]), steps[1..]);
      } else {
        StopsFrom(limits, m, steps[1..]);
      }
    }
  }

  lemma {:induction false} StopStep(limits: Concurrency, m: Machine, step: Step)
    requires m.pool.closing && Enabled(m, step)
    ensures var m' := Apply(limits, m, step);
            && m'.pool.closing
            && (m'.reaper.Destroying? ==> m.reaper.Destroying? && m'.reaper.batch == m.reaper.batch)
  {
    hide ReapAll, Without, SlotAt;
  }

  // ---- nobody is lost

  /** Callers anywhere between asking and their last notify. */
  function Callers(m: Machine): nat { Inside(m.callers) + m.callers.owing }

  /** A caller comes by asking and goes by its notify, and every other step of every thread keeps each
      caller there is. */
  lemma {:induction false} CallersKept(limits: Concurrency, m: Machine, step: Step)
    requires Enabled(m, step)
    ensures Callers(Apply(limits, m, step)) ==
            Callers(m) + (if step.Ask? then 1 else 0) - (if step.Notify? then 1 else 0)
  {
    hide ReapAll, SlotAt, Sessions, ArmedSessions;
  }

  /** A notify, and a wake for no reason, bring exactly one sleeper back to look again; a notify with
      nobody asleep is spent on nobody. */
  lemma {:induction false} WakesOne(limits: Concurrency, m: Machine)
    ensures Enabled(m, Wake) ==>
              Apply(limits, m, Wake).callers ==
              m.callers.(asleep := m.callers.asleep - 1, woken := m.callers.woken + 1)
    ensures Enabled(m, Notify) ==>
              var woke := if m.callers.asleep > 0 then 1 else 0;
              Apply(limits, m, Notify).callers ==
              m.callers.(owing := m.callers.owing - 1,
                         asleep := m.callers.asleep - woke,
                         woken := m.callers.woken + woke)
  {
  }

  /** A session the engine refuses is one refusal and one caller that owes its place back; giving it
      back makes room for one and owes one notify. */
  lemma {:induction false} RefusalExact(limits: Concurrency, m: Machine)
    ensures Enabled(m, RefuseSession) ==>
              var m' := Apply(limits, m, RefuseSession);
              && m'.log.failedOpens == m.log.failedOpens + 1 && m'.pool == m.pool
              && m'.callers == m.callers.(growing := m.callers.growing - 1, growFailed := m.callers.growFailed + 1)
    ensures Enabled(m, Unreserve) ==>
              var m' := Apply(limits, m, Unreserve);
              && m'.pool == m.pool.(open := m.pool.open - 1) && m'.log == m.log
              && m'.callers == m.callers.(growFailed := m.callers.growFailed - 1, owing := m.callers.owing + 1)
  {
  }

  /** A reaper that has not stopped can always go on, and at rest it goes on to look. */
  lemma {:induction false} ReaperGoesOn(limits: Concurrency, m: Machine)
    ensures !m.reaper.Absent? && !m.reaper.Stopped? ==>
              Enabled(m, LookToReap) || Enabled(m, EndRest) || Enabled(m, Destroy) || Enabled(m, ReportDestroyed)
    ensures Enabled(m, EndRest) ==> Enabled(Apply(limits, m, EndRest), LookToReap)
    ensures Enabled(m, Destroy) ==>
              Apply(limits, m, Destroy) == m.(reaper := Destroying(m.reaper.left[1..], m.reaper.batch))
  {
  }
}
