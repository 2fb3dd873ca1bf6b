/** What every step of the session pool keeps. */
module SessionProof {
  import opened Options
  import opened Lists
  import opened SessionState
  import opened CommandSlot
  import opened SessionMachine

  /** Sessions out of the pool's hands, with those reserved. */
  function Out(cs: Callers): nat {
    |cs.holding| + |cs.armed| + |cs.leaving| + cs.growing + cs.growFailed
  }

  /** Every place under the ceiling is accounted for. */
  predicate Conserved(limits: Concurrency, m: Machine) {
    && m.pool.open == |m.pool.idle| + Out(m.callers) + Dying(m.reaper) <= limits.max
    && |Left(m.reaper)| <= Dying(m.reaper)
    && (m.reaper.Destroying? ==> m.reaper.batch > 0)
    && (limits.idleTimeout.None? ==> m.reaper.Absent?)
  }

  /** Nobody sleeps through a session or a place: each has a caller awake or a notify for it. */
  predicate NoneLost(limits: Concurrency, m: Machine) {
    m.callers.asleep > 0 ==> |m.pool.idle| + limits.max - m.pool.open <= m.callers.woken + m.callers.owing
  }

  /** What is being destroyed never reaches into the floor; only a refused open does. */
  predicate FloorSpared(limits: Concurrency, m: Machine) {
    && m.log.failedOpens >= m.callers.growFailed
    && m.pool.open - Dying(m.reaper) + m.log.failedOpens - m.callers.growFailed >= limits.min
  }

  /** Free sessions lie in order of return. */
  predicate Ordered(m: Machine) {
    && Sorted(m.pool.idle)
    && forall i | 0 <= i < |m.pool.idle| :: m.pool.idle[i].since <= m.now
  }

  lemma {:induction false} KeepsConserved(limits: Concurrency, m: Machine, step: Step)
    requires limits.Valid() && Conserved(limits, m) && Enabled(m, step)
    ensures Conserved(limits, Apply(limits, m, step))
  {
    hide Reap, SlotAt, Slot.Started, Slot.Stopped, Slot.Disarmed, Checkout, Started;
    match step {
      case Check(woken) => CheckoutConserves(limits, m, woken);
      case StartCommand(i, k) => StartConserves(limits, m, i, k);
      case LookToReap => ReapConserves(limits, m);
      case ReportDestroyed => ReapConserves(limits, Counted(m));
      case _ =>
    }
  }

  lemma {:induction false} CheckoutConserves(limits: Concurrency, m: Machine, woken: bool)
    requires Conserved(limits, m) && Enabled(m, Check(woken))
    ensures Conserved(limits, Checkout(limits, m, woken))
  {
  }

  lemma {:induction false} StartConserves(limits: Concurrency, m: Machine, i: nat, k: nat)
    requires Conserved(limits, m) && i < |m.callers.holding|
    ensures Conserved(limits, Started(m, i, k))
  {
    hide SlotAt, Slot.Started;
  }

  lemma {:induction false} ReapConserves(limits: Concurrency, m: Machine)
    requires limits.Valid() && Conserved(limits, m) && m.reaper.Looking?
    ensures Conserved(limits, Reap(limits, m))
  {
    hide ReapAll;
    ReapSizes(limits, m);
  }

  lemma {:induction false} ReapSizes(limits: Concurrency, m: Machine)
    ensures limits.idleTimeout.Some? ==>
              var reaped := ReapAll(m.pool.idle, m.pool.Spare(limits.min), limits.idleTimeout.value, m.now);
              && |reaped.expired| + |reaped.kept| == |m.pool.idle|
              && |reaped.expired| <= m.pool.Spare(limits.min)
  {
    if limits.idleTimeout.Some? {
      Splits(m.pool.idle, m.pool.Spare(limits.min), limits.idleTimeout.value, m.now);
    }
  }

  lemma {:induction false} Splits(idle: seq<Idle>, spare: nat, timeout: nat, now: nat)
    ensures var reaped := ReapAll(idle, spare, timeout, now);
            && |reaped.expired| + |reaped.kept| == |idle|
            && |reaped.expired| <= spare
  {
    if idle != [] {
      var overdue := spare > 0 && Waited(idle[0], now) >= timeout;
      Splits(idle[1..], if overdue then spare - 1 else spare, timeout, now);
    }
  }

  lemma {:induction false} KeepsNoneLost(limits: Concurrency, m: Machine, step: Step)
    requires limits.Valid() && Conserved(limits, m) && NoneLost(limits, m) && Enabled(m, step)
    ensures NoneLost(limits, Apply(limits, m, step))
  {
    match step {
      case LookToReap => ReapSizes(limits, m);
      case ReportDestroyed => ReapSizes(limits, Counted(m));
      case _ =>
    }
  }

  lemma {:induction false} KeepsFloor(limits: Concurrency, m: Machine, step: Step)
    requires limits.Valid() && Conserved(limits, m) && FloorSpared(limits, m) && Enabled(m, step)
    ensures FloorSpared(limits, Apply(limits, m, step))
  {
    match step {
      case LookToReap => ReapSizes(limits, m);
      case ReportDestroyed => ReapSizes(limits, Counted(m));
      case _ =>
    }
  }

  lemma {:induction false} KeepsOrder(limits: Concurrency, m: Machine, step: Step)
    requires Ordered(m) && Enabled(m, step)
    ensures Ordered(Apply(limits, m, step))
  {
    hide ReapAll, SlotAt, Slot.Started, Slot.Stopped, Slot.Disarmed, Without;
    match step {
      case LookToReap => ReapOrder(limits, m);
      case ReportDestroyed => ReapOrder(limits, Counted(m));
      case _ =>
    }
  }

  lemma {:induction false} ReapOrder(limits: Concurrency, m: Machine)
    requires Ordered(m)
    ensures Ordered(Reap(limits, m))
  {
    hide ReapAll, Overdue;
    if limits.idleTimeout.Some? {
      ReapIsEviction(m.pool.idle, m.pool.Spare(limits.min), limits.idleTimeout.value, m.now);
    }
  }

  // ---- sessions are never shared

  /** Each session is in one place at most, and none is there before it is opened. */
  ghost predicate Apart(m: Machine) {
    forall s: nat :: Everywhere(m)[s] <= if s < m.next then 1 else 0
  }

  lemma {:induction false} Taken<T>(s: seq<T>, i: nat)
    requires i < |s|
    ensures multiset(s) == multiset(Without(s, i)) + multiset{s[i]}
  {
    assert s == s[..i] + [s[i]] + s[i + 1..];
  }

  lemma {:induction false} SessionsConcat(a: seq<Idle>, b: seq<Idle>)
    ensures Sessions(a + b) == Sessions(a) + Sessions(b)
  {
  }

  lemma {:induction false} SessionsSplit(idle: seq<Idle>, k: nat)
    requires k <= |idle|
    ensures multiset(Sessions(idle)) == multiset(Sessions(idle[..k])) + multiset(Sessions(idle[k..]))
  {
    assert idle == idle[..k] + idle[k..];
    SessionsConcat(idle[..k], idle[k..]);
  }

  lemma {:induction false} CheckoutMoves(limits: Concurrency, m: Machine, woken: bool)
    requires Enabled(m, Check(woken))
    ensures Everywhere(Checkout(limits, m, woken)) == Everywhere(m)
  {
    var m' := Checkout(limits, m, woken);
    var idle := m.pool.idle;
    if idle == [] {
      Unmoved(m, m');
    } else {
      LastMoves(idle, m.callers.holding);
      hide Sessions, ArmedSessions, Left;
      var n := |idle| - 1;
      assert m'.pool.idle == idle[..n] && m'.callers.holding == m.callers.holding + [idle[n].session];
      assert m'.callers.armed == m.callers.armed && m'.callers.leaving == m.callers.leaving && m'.reaper == m.reaper;
    }
  }

  lemma {:induction false} LastMoves(idle: seq<Idle>, holding: seq<nat>)
    requires idle != []
    ensures var n := |idle| - 1;
            multiset(Sessions(idle[..n])) + multiset(holding + [idle[n].session])
            == multiset(Sessions(idle)) + multiset(holding)
  {
    var n := |idle| - 1;
    SessionsSplit(idle, n);
    assert Sessions(idle[n..]) == [idle[n].session];
  }

  lemma {:induction false} StartMoves(m: Machine, i: nat, k: nat)
    requires i < |m.callers.holding|
    ensures Everywhere(Started(m, i, k)) == Everywhere(m)
  {
    hide SlotAt, Slot.Started;
    Taken(m.callers.holding, i);
    var armed := m.callers.armed;
    assert ArmedSessions(armed + [Armed(k, m.callers.holding[i])]) == ArmedSessions(armed) + [m.callers.holding[i]];
  }

  lemma {:induction false} EndMoves(m: Machine, i: nat)
    requires i < |m.callers.armed|
    ensures Everywhere(Ended(m, i)) == Everywhere(m)
  {
    var armed := m.callers.armed;
    Taken(ArmedSessions(armed), i);
    assert ArmedSessions(Without(armed, i)) == Without(ArmedSessions(armed), i);
  }

  lemma {:induction false} GiveBackMoves(m: Machine, i: nat)
    requires i < |m.callers.leaving|
    ensures Everywhere(GivenBack(m, i)) == Everywhere(m)
  {
    Taken(m.callers.leaving, i);
    var entry := Idle(m.callers.leaving[i], m.now);
    SessionsConcat(m.pool.idle, [entry]);
    assert Sessions([entry]) == [entry.session];
  }

  lemma {:induction false} ReapMoves(limits: Concurrency, m: Machine)
    requires Left(m.reaper) == [] && Ordered(m)
    ensures Everywhere(Reap(limits, m)) == Everywhere(m)
  {
    hide ReapAll, Overdue, Sessions, ArmedSessions, Sorted;
    var idle := m.pool.idle;
    if !m.pool.closing && limits.idleTimeout.Some? {
      ReapIsEviction(idle, m.pool.Spare(limits.min), limits.idleTimeout.value, m.now);
      SessionsSplit(idle, Min(m.pool.Spare(limits.min), Overdue(idle, limits.idleTimeout.value, m.now)));
    }
  }

  lemma {:induction false} OpenAdds(m: Machine)
    requires m.callers.growing > 0
    ensures Everywhere(Opened(m)) == Everywhere(m) + multiset{m.next}
  {
    hide Sessions, ArmedSessions, Left;
  }

  lemma {:induction false} DestroyRemoves(m: Machine)
    requires Enabled(m, Destroy)
    ensures Everywhere(m.(reaper := m.reaper.(left := m.reaper.left[1..])))
            == Everywhere(m) - multiset{m.reaper.left[0]}
  {
    hide Sessions, ArmedSessions;
    var left := m.reaper.left;
    assert left == [left[0]] + left[1..];
  }

  /** A step opens one session, or destroys one, or moves one, or touches none. */
  lemma {:induction false} Moves(limits: Concurrency, m: Machine, step: Step)
    requires Ordered(m) && Enabled(m, step)
    ensures Everywhere(Apply(limits, m, step)) ==
            match step
            case OpenSession => Everywhere(m) + multiset{m.next}
            case Destroy => Everywhere(m) - multiset{m.reaper.left[0]}
            case _ => Everywhere(m)
  {
    hide Everywhere, Ordered, Checkout, Reap, Started, Ended, GivenBack, Opened, Counted;
    match step {
      case Check(woken) => CheckoutMoves(limits, m, woken);
      case StartCommand(i, k) => StartMoves(m, i, k);
      case EndCommand(i) => EndMoves(m, i);
      case GiveBack(i) => GiveBackMoves(m, i);
      case LookToReap => ReapMoves(limits, m);
      case ReportDestroyed =>
        CountedMoves(m);
        ReapMoves(limits, Counted(m));
      case OpenSession => OpenAdds(m);
      case Destroy => DestroyRemoves(m);
      case _ => Unmoved(m, Apply(limits, m, step));
    }
  }

  lemma {:induction false} CountedMoves(m: Machine)
    requires Ordered(m) && Enabled(m, ReportDestroyed)
    ensures Everywhere(Counted(m)) == Everywhere(m) && Ordered(Counted(m)) && Left(Counted(m).reaper) == []
  {
    Unmoved(m, Counted(m));
  }

  lemma {:induction false} Unmoved(m: Machine, m': Machine)
    requires m'.pool.idle == m.pool.idle && Left(m'.reaper) == Left(m.reaper)
    requires m'.callers.holding == m.callers.holding && m'.callers.armed == m.callers.armed
    requires m'.callers.leaving == m.callers.leaving
    ensures Everywhere(m') == Everywhere(m)
  {
  }

  lemma {:induction false} KeepsApart(limits: Concurrency, m: Machine, step: Step)
    requires Ordered(m) && Apart(m) && Enabled(m, step)
    ensures Apart(Apply(limits, m, step))
  {
    hide Everywhere, Checkout, Reap, Started, Ended, GivenBack, CancelSlot, Notified;
    Moves(limits, m, step);
    NextOnlyOpens(limits, m, step);
  }

  lemma {:induction false} NextOnlyOpens(limits: Concurrency, m: Machine, step: Step)
    requires Enabled(m, step)
    ensures Apply(limits, m, step).next == m.next + if step.OpenSession? then 1 else 0
  {
    hide ReapAll, Without, SlotAt, Slot.Started, Slot.Stopped, Slot.Disarmed;
  }

  // ---- interrupts

  /** A slot is armed exactly for the command it belongs to. */
  ghost predicate ArmedRight(m: Machine) {
    NoneStray(m) && Legitimate(m) && OneEach(m.callers.armed)
  }

  /** No slot is armed without its command. */
  ghost predicate NoneStray(m: Machine) {
    forall k: nat :: SlotAt(m, k).Running? ==> Armed(k, SlotAt(m, k).session) in m.callers.armed
  }

  /** No command runs without its slot, which is armed unless it has been fired. */
  predicate Legitimate(m: Machine) {
    forall a | a in m.callers.armed ::
      && a.slot in m.log.ran
      && (SlotAt(m, a.slot) == Running(a.session) || (SlotAt(m, a.slot).Cancelled? && Killed(m.log, a.slot)))
  }

  predicate Killed(log: Log, k: nat) { exists i | 0 <= i < |log.kills| :: log.kills[i].slot == k }

  predicate OneEach(armed: seq<Armed>) {
    forall i, j | 0 <= i < j < |armed| :: armed[i].slot != armed[j].slot
  }

  /** What the log says of slots: a slot runs once, not at all if cancelled first, and fires once,
      on the session it is running on. */
  ghost predicate FiredRight(m: Machine) {
    && (forall k: nat :: !SlotAt(m, k).Waiting? ==> k in m.log.ran || k in m.log.early)
    && (forall k: nat :: k in m.log.ran ==> !SlotAt(m, k).Waiting?)
    && (forall k: nat :: k in m.log.early ==> SlotAt(m, k).Cancelled? && k !in m.log.ran)
    && (forall i, j | 0 <= i < j < |m.log.ran| :: m.log.ran[i] != m.log.ran[j])
    && (forall i | 0 <= i < |m.log.kills| ::
          m.log.kills[i].hit && m.log.kills[i].slot in m.log.ran && SlotAt(m, m.log.kills[i].slot).Cancelled?)
    && (forall i, j | 0 <= i < j < |m.log.kills| :: m.log.kills[i].slot != m.log.kills[j].slot)
  }

  lemma {:induction false} StartArms(m: Machine, i: nat, k: nat)
    requires ArmedRight(m) && FiredRight(m) && i < |m.callers.holding|
    ensures ArmedRight(Started(m, i, k)) && FiredRight(Started(m, i, k))
  {
    hide Without;
    var m' := Started(m, i, k);
    assert forall x: nat :: x != k ==> SlotAt(m', x) == SlotAt(m, x);
    if SlotAt(m, k).Waiting? {
      var a := Armed(k, m.callers.holding[i]);
      assert m'.callers.armed == m.callers.armed + [a] && m'.log.ran == m.log.ran + [k];
      assert m'.callers.armed[|m.callers.armed|] == a;
      assert m'.log.ran[|m.log.ran|] == k;
    }
  }

  lemma {:induction false} EndDisarms(m: Machine, i: nat)
    requires ArmedRight(m) && FiredRight(m) && i < |m.callers.armed|
    ensures ArmedRight(Ended(m, i)) && FiredRight(Ended(m, i))
  {
    hide ArmedRight, FiredRight;
    EndArmed(m, i);
    EndFired(m, i);
  }

  lemma {:induction false} EndArmed(m: Machine, i: nat)
    requires ArmedRight(m) && i < |m.callers.armed|
    ensures ArmedRight(Ended(m, i))
  {
    hide NoneStray, Legitimate, OneEach;
    OneFewer(m.callers.armed, i);
    EndStrays(m, i);
    EndLegitimate(m, i);
  }

  lemma {:induction false} OneFewer(armed: seq<Armed>, i: nat)
    requires OneEach(armed) && i < |armed|
    ensures OneEach(Without(armed, i))
    ensures forall a :: a in armed <==> a == armed[i] || a in Without(armed, i)
    ensures forall a | a in Without(armed, i) :: a.slot != armed[i].slot
  {
    var rest := Without(armed, i);
    forall a | a in armed && a != armed[i]
      ensures a in rest
    {
      var j :| 0 <= j < |armed| && armed[j] == a;
      assert rest[if j < i then j else j - 1] == a;
    }
    forall j | 0 <= j < |rest|
      ensures rest[j] in armed && rest[j].slot != armed[i].slot
    {
      assert rest[j] == armed[if j < i then j else j + 1];
    }
  }

  lemma {:induction false} EndStrays(m: Machine, i: nat)
    requires NoneStray(m) && OneEach(m.callers.armed) && i < |m.callers.armed|
    ensures NoneStray(Ended(m, i))
  {
    var m' := Ended(m, i);
    OneFewer(m.callers.armed, i);
    hide OneEach, Without;
    assert forall x: nat :: x != m.callers.armed[i].slot ==> SlotAt(m', x) == SlotAt(m, x);
  }

  lemma {:induction false} EndLegitimate(m: Machine, i: nat)
    requires Legitimate(m) && OneEach(m.callers.armed) && i < |m.callers.armed|
    ensures Legitimate(Ended(m, i))
  {
    var m' := Ended(m, i);
    OneFewer(m.callers.armed, i);
    hide OneEach, Without;
    assert forall x: nat :: x != m.callers.armed[i].slot ==> SlotAt(m', x) == SlotAt(m, x);
  }

  lemma {:induction false} EndFired(m: Machine, i: nat)
    requires FiredRight(m) && i < |m.callers.armed|
    ensures FiredRight(Ended(m, i))
  {
    var m' := Ended(m, i);
    assert m'.log == m.log;
    assert forall x: nat :: SlotAt(m, x).Cancelled? ==> SlotAt(m', x).Cancelled?;
    assert forall x: nat :: !SlotAt(m, x).Waiting? ==> !SlotAt(m', x).Waiting?;
  }

  lemma {:induction false} KillsStay(log: Log, log': Log, k: nat)
    requires Killed(log, k) && log.kills <= log'.kills
    ensures Killed(log', k)
  {
    var i :| 0 <= i < |log.kills| && log.kills[i].slot == k;
    assert log'.kills[i] == log.kills[i];
  }

  lemma {:induction false} CancelArmed(m: Machine, k: nat)
    requires ArmedRight(m)
    ensures ArmedRight(CancelSlot(m, k))
  {
    var m' := CancelSlot(m, k);
    assert forall x: nat :: x != k ==> SlotAt(m', x) == SlotAt(m, x);
    assert m'.callers == m.callers && m'.log.ran == m.log.ran && m.log.kills <= m'.log.kills;
    hide OneEach;
    if SlotAt(m, k).Running? {
      assert m'.log.kills[|m.log.kills|].slot == k;
      assert Killed(m'.log, k);
    }
    forall a | a in m.callers.armed && Killed(m.log, a.slot)
      ensures Killed(m'.log, a.slot)
    {
      KillsStay(m.log, m'.log, a.slot);
    }
    hide Killed;
  }

  lemma {:induction false} CancelLogged(m: Machine, k: nat)
    requires ArmedRight(m) && FiredRight(m)
    ensures FiredRight(CancelSlot(m, k))
  {
    var m' := CancelSlot(m, k);
    hide OneEach, Killed;
    assert forall x: nat :: x != k ==> SlotAt(m', x) == SlotAt(m, x);
    if SlotAt(m, k).Waiting? {
      assert m'.log.early[|m.log.early|] == k;
    }
  }

  lemma {:induction false} CancelFires(m: Machine, k: nat)
    requires ArmedRight(m) && FiredRight(m)
    ensures ArmedRight(CancelSlot(m, k)) && FiredRight(CancelSlot(m, k))
  {
    hide ArmedRight, FiredRight;
    CancelArmed(m, k);
    CancelLogged(m, k);
  }

  lemma {:induction false} KeepsInterrupts(limits: Concurrency, m: Machine, step: Step)
    requires ArmedRight(m) && FiredRight(m) && Enabled(m, step)
    ensures ArmedRight(Apply(limits, m, step)) && FiredRight(Apply(limits, m, step))
  {
    hide ArmedRight, FiredRight, Started, Ended, CancelSlot, ReapAll, Without, Sessions, ArmedSessions;
    var m' := Apply(limits, m, step);
    match step {
      case StartCommand(i, k) => StartArms(m, i, k);
      case EndCommand(i) => EndDisarms(m, i);
      case Cancel(k) => CancelFires(m, k);
      case _ => Untouched(m, m');
    }
  }

  lemma {:induction false} Untouched(m: Machine, m': Machine)
    requires ArmedRight(m) && FiredRight(m)
    requires m'.slots == m.slots && m'.callers.armed == m.callers.armed
    requires m'.log.kills == m.log.kills && m'.log.ran == m.log.ran && m'.log.early == m.log.early
    ensures ArmedRight(m') && FiredRight(m')
  {
    assert forall k: nat :: SlotAt(m', k) == SlotAt(m, k);
  }

  // ---- all of it

  ghost predicate Inv(limits: Concurrency, m: Machine) {
    && limits.Valid()
    && Conserved(limits, m) && NoneLost(limits, m) && FloorSpared(limits, m)
    && Ordered(m) && Apart(m) && ArmedRight(m) && FiredRight(m)
  }

  lemma {:induction false} Kept(limits: Concurrency, m: Machine, step: Step)
    requires Inv(limits, m) && Enabled(m, step)
    ensures Inv(limits, Apply(limits, m, step))
  {
    hide Conserved, NoneLost, FloorSpared, Ordered, Apart, ArmedRight, FiredRight, Apply, Enabled, Concurrency.Valid;
    KeepsConserved(limits, m, step);
    KeepsNoneLost(limits, m, step);
    KeepsFloor(limits, m, step);
    KeepsOrder(limits, m, step);
    KeepsApart(limits, m, step);
    KeepsInterrupts(limits, m, step);
  }

  lemma {:induction false} Always(limits: Concurrency, m: Machine, steps: seq<Step>)
    requires Inv(limits, m)
    ensures Inv(limits, Execute(limits, m, steps))
    decreases |steps|
  {
    hide Inv, Apply, Enabled;
    if steps != [] {
      if Enabled(m, steps[0]) {
        Kept(limits, m, steps[0]);
        Always(limits, Apply(limits, m, steps[0]), steps[1..]);
      } else {
        Always(limits, m, steps[1..]);
      }
    }
  }

  lemma {:induction false} Starts(limits: Concurrency, now: nat, reaps: bool)
    requires limits.Valid()
    ensures Inv(limits, Init(limits, now, reaps))
  {
    var m := Init(limits, now, reaps);
    var sessions := Sessions(m.pool.idle);
    Numbered(sessions);
    forall s: nat
      ensures Everywhere(m)[s] <= if s < m.next then 1 else 0
    {
      assert Left(m.reaper) == [] && Everywhere(m) == multiset(sessions);
    }
  }

  /** A sequence counting up from zero names each number below its length once. */
  lemma {:induction false} Numbered(sessions: seq<nat>)
    requires forall i | 0 <= i < |sessions| :: sessions[i] == i
    ensures forall s: nat :: multiset(sessions)[s] <= if s < |sessions| then 1 else 0
  {
    if sessions != [] {
      var n := |sessions| - 1;
      Numbered(sessions[..n]);
      assert sessions == sessions[..n] + [sessions[n]];
    }
  }
}
