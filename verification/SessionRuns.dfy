/** A run of the session pool that ends under its floor, for every pool that can grow. */
module SessionRuns {
  import opened Options
  import opened SessionState
  import opened CommandSlot
  import opened SessionMachine
  import opened SessionProof
  import opened SessionTheorems

  lemma {:induction false} Takes(limits: Concurrency, m: Machine, step: Step, rest: seq<Step>)
    requires Enabled(m, step)
    ensures Execute(limits, m, [step] + rest) == Execute(limits, Apply(limits, m, step), rest)
  {
    hide Apply, Enabled;
    assert ([step] + rest)[1..] == rest;
  }

  /** Some run from `m` ends under the floor. */
  ghost predicate CanDip(limits: Concurrency, m: Machine) {
    exists steps :: Execute(limits, m, steps).pool.open < limits.min
  }

  lemma {:induction false} DipsAfter(limits: Concurrency, m: Machine, step: Step)
    requires Enabled(m, step) && CanDip(limits, Apply(limits, m, step))
    ensures CanDip(limits, m)
  {
    hide Apply, Enabled, Execute;
    var rest :| Execute(limits, Apply(limits, m, step), rest).pool.open < limits.min;
    Takes(limits, m, step, rest);
  }

  /** Some of the floor is taken and the rest is free; nothing else has happened. */
  predicate Busy(limits: Concurrency, m: Machine) {
    && limits.Valid() && limits.min < limits.max
    && m.pool.open == limits.min == |m.pool.idle| + |m.callers.holding| && !m.pool.closing
    && m.callers.asking == m.callers.growing == m.callers.growFailed == 0 && m.callers.leaving == []
    && m.slots == map[] && m.callers.armed == [] && m.reaper.Looking?
  }

  /** Callers take every free session, and the next one begins to open another. */
  lemma {:induction false} BusyDips(limits: Concurrency, m: Machine)
    requires Busy(limits, m)
    ensures CanDip(limits, m)
    decreases |m.pool.idle|
  {
    hide CanDip;
    var asked := Apply(limits, m, Ask);
    var out := Apply(limits, asked, Check(false));
    if m.pool.idle == [] {
      GrowingDips(limits, out);
    } else {
      BusyDips(limits, out);
    }
    DipsAfter(limits, asked, Check(false));
    DipsAfter(limits, m, Ask);
  }

  /** Its session comes back and goes stale while another is being opened ... */
  lemma {:induction false} GrowingDips(limits: Concurrency, m: Machine)
    requires limits.Valid() && limits.min < limits.max && m.pool.idle == [] && !m.pool.closing
    requires m.pool.open == limits.min + 1 && m.callers.growing == 1 && m.callers.growFailed == 0
    requires m.callers.armed == []
    requires m.callers.holding != [] && m.callers.leaving == [] && m.slots == map[] && m.reaper.Looking?
    ensures CanDip(limits, m)
  {
    hide CanDip, ReapAll;
    var run := Apply(limits, m, StartCommand(0, 0));
    var over := Apply(limits, run, EndCommand(0));
    var back := Apply(limits, over, GiveBack(0));
    var stale := Apply(limits, back, Pass(limits.idleTimeout.value));
    assert stale.pool.idle == [Idle(m.callers.holding[0], m.now)];
    StaleDips(limits, stale);
    DipsAfter(limits, back, Pass(limits.idleTimeout.value));
    DipsAfter(limits, over, GiveBack(0));
    DipsAfter(limits, run, EndCommand(0));
    DipsAfter(limits, m, StartCommand(0, 0));
  }

  /** ... is reaped as the one to spare, and then the open is refused. */
  lemma {:induction false} StaleDips(limits: Concurrency, m: Machine)
    requires limits.Valid() && limits.min < limits.max && |m.pool.idle| == 1 && !m.pool.closing
    requires Waited(m.pool.idle[0], m.now) >= limits.idleTimeout.value
    requires m.pool.open == limits.min + 1 && m.callers.growing == 1 && m.callers.growFailed == 0
    requires m.reaper.Looking?
    ensures CanDip(limits, m)
  {
    hide CanDip;
    assert ReapAll(m.pool.idle, 1, limits.idleTimeout.value, m.now).expired == [m.pool.idle[0].session];
    assert ReapAll(m.pool.idle, 1, limits.idleTimeout.value, m.now).kept == [];
    hide ReapAll;
    var dying := Apply(limits, m, LookToReap);
    assert dying.reaper == Destroying([m.pool.idle[0].session], 1);
    var refused := Apply(limits, dying, RefuseSession);
    var returned := Apply(limits, refused, Unreserve);
    var gone := Apply(limits, returned, Destroy);
    Reports(limits, gone);
    DipsAfter(limits, returned, Destroy);
    DipsAfter(limits, refused, Unreserve);
    DipsAfter(limits, dying, RefuseSession);
    DipsAfter(limits, m, LookToReap);
  }

  lemma {:induction false} Reports(limits: Concurrency, m: Machine)
    requires m.reaper == Destroying([], 1) && m.pool.open == limits.min
    ensures CanDip(limits, m)
  {
    hide ReapAll;
    var m' := Apply(limits, m, ReportDestroyed);
    assert m'.pool.open < limits.min;
    assert Execute(limits, m', []) == m';
    assert CanDip(limits, m');
    hide CanDip;
    DipsAfter(limits, m, ReportDestroyed);
  }

  /** The floor holds in every run exactly of the pools that cannot grow. */
  lemma {:induction false} FloorHoldsIff(limits: Concurrency)
    requires limits.Valid()
    ensures (forall now: nat, reaps: bool, steps :: After(limits, now, reaps, steps).pool.open >= limits.min)
            <==> limits.min == limits.max
  {
    if limits.min == limits.max {
      hide After;
      forall now: nat, reaps: bool, steps
        ensures After(limits, now, reaps, steps).pool.open >= limits.min
      {
        FixedStaysFixed(limits, now, reaps, steps);
      }
    } else {
      var m := Init(limits, 0, true);
      BusyDips(limits, m);
      hide Init, Execute;
      var steps :| Execute(limits, m, steps).pool.open < limits.min;
      assert After(limits, 0, true, steps).pool.open < limits.min;
    }
  }
}
