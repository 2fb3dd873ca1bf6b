/** Which sessions are free, since when, and which of them the reaper closes. */
module SessionState {
  import opened Options

  /** A session waiting to be taken, and since when. */
  datatype Idle = Idle(session: nat, since: nat)

  /** What a pass of the reaper takes, what it leaves, and how long to wait for the next. */
  datatype Reaped = Reaped(expired: seq<nat>, kept: seq<Idle>, wait: nat)

  function Waited(entry: Idle, now: nat): nat {
    if now >= entry.since then now - entry.since else 0
  }

  /** Least recently returned first. */
  predicate Sorted(idle: seq<Idle>) {
    forall i, j | 0 <= i < j < |idle| :: idle[i].since <= idle[j].since
  }

  function Sessions(idle: seq<Idle>): (sessions: seq<nat>)
    ensures |sessions| == |idle|
    ensures forall i | 0 <= i < |idle| :: sessions[i] == idle[i].session
  {
    seq(|idle|, i requires 0 <= i < |idle| => idle[i].session)
  }

  /** The pass over the idle sessions, one at a time: a session overdue goes while one can be
      spared, and the wait is until the next that could go comes due. */
  function ReapAll(idle: seq<Idle>, spare: nat, timeout: nat, now: nat): Reaped {
    if idle == [] then Reaped([], [], timeout)
    else
      var waited := Waited(idle[0], now);
      if spare > 0 && waited >= timeout then
        var rest := ReapAll(idle[1..], spare - 1, timeout, now);
        rest.(expired := [idle[0].session] + rest.expired)
      else
        var rest := ReapAll(idle[1..], spare, timeout, now);
        Reaped(rest.expired, [idle[0]] + rest.kept,
               if spare > 0 && timeout - waited < rest.wait then timeout - waited else rest.wait)
  }

  /** How many sessions at the front are overdue. */
  function Overdue(idle: seq<Idle>, timeout: nat, now: nat): (n: nat)
    ensures n <= |idle|
    ensures n < |idle| ==> Waited(idle[n], now) < timeout
  {
    if idle == [] || Waited(idle[0], now) < timeout then 0 else 1 + Overdue(idle[1..], timeout, now)
  }

  function Min(a: nat, b: nat): nat { if a <= b then a else b }

  /** Eviction of the least recently used: as many from the front as are overdue and spare. If a
      session could still be spared, the wait is until the oldest one left comes due. */
  function Evict(idle: seq<Idle>, spare: nat, timeout: nat, now: nat): Reaped {
    var k := Min(spare, Overdue(idle, timeout, now));
    Reaped(Sessions(idle[..k]), idle[k..],
           if k < spare && k < |idle| then timeout - Waited(idle[k], now) else timeout)
  }

  lemma {:induction false} NoneOverdue(idle: seq<Idle>, spare: nat, timeout: nat, now: nat)
    requires Sorted(idle) && (idle != [] ==> spare == 0 || Waited(idle[0], now) < timeout)
    ensures ReapAll(idle, spare, timeout, now) == Evict(idle, spare, timeout, now)
  {
    if idle != [] {
      var rest := idle[1..];
      assert rest != [] ==> Waited(rest[0], now) <= Waited(idle[0], now);
      NoneOverdue(rest, spare, timeout, now);
      assert idle[0..] == [idle[0]] + rest;
      assert rest[0..] == rest;
      assert Sessions(idle[..0]) == Sessions(rest[..0]) == [];
    }
  }

  /** The loop is eviction of the least recently used, on a list kept in order of return. */
  lemma {:induction false} ReapIsEviction(idle: seq<Idle>, spare: nat, timeout: nat, now: nat)
    requires Sorted(idle)
    ensures ReapAll(idle, spare, timeout, now) == Evict(idle, spare, timeout, now)
  {
    if idle == [] || spare == 0 || Waited(idle[0], now) < timeout {
      NoneOverdue(idle, spare, timeout, now);
    } else {
      ReapIsEviction(idle[1..], spare - 1, timeout, now);
      EvictsFirst(idle, spare, timeout, now);
    }
  }

  lemma {:induction false} EvictsFirst(idle: seq<Idle>, spare: nat, timeout: nat, now: nat)
    requires idle != [] && spare > 0 && Waited(idle[0], now) >= timeout
    ensures var rest := Evict(idle[1..], spare - 1, timeout, now);
            Evict(idle, spare, timeout, now) == rest.(expired := [idle[0].session] + rest.expired)
  {
    var rest := idle[1..];
    var k := Min(spare, Overdue(idle, timeout, now));
    assert Sessions(idle[..k]) == [idle[0].session] + Sessions(rest[..k - 1]);
    assert idle[k..] == rest[k - 1..];
  }

  /** What is evicted is overdue; what is kept is not, unless no more could be spared; and the
      wait is never zero and never more than the timeout. */
  lemma {:induction false} EvictionIsExact(idle: seq<Idle>, spare: nat, timeout: nat, now: nat, i: nat)
    requires Sorted(idle) && timeout > 0 && i < |idle|
    ensures var k := |Evict(idle, spare, timeout, now).expired|;
            && (i < k ==> Waited(idle[i], now) >= timeout)
            && (i >= k ==> k == spare || Waited(idle[i], now) < timeout)
            && k <= spare
            && 0 < Evict(idle, spare, timeout, now).wait <= timeout
  {
    OverdueSplits(idle, timeout, now, i);
    var n := Overdue(idle, timeout, now);
    if n < |idle| {
      OverdueSplits(idle, timeout, now, n);
    }
  }

  lemma {:induction false} OverdueSplits(idle: seq<Idle>, timeout: nat, now: nat, i: nat)
    requires Sorted(idle) && i < |idle|
    ensures i < Overdue(idle, timeout, now) <==> Waited(idle[i], now) >= timeout
  {
    if Waited(idle[0], now) >= timeout && i > 0 {
      OverdueSplits(idle[1..], timeout, now, i - 1);
    }
  }

  /** The pool's bookkeeping. `open` counts sessions open or about to be. */
  datatype State = State(idle: seq<Idle>, open: int, closing: bool) {

    function Taken(): (State, Option<nat>) {
      if idle == [] then (this, None)
      else (this.(idle := idle[..|idle| - 1]), Some(idle[|idle| - 1].session))
    }

    function GivenBack(session: nat, now: nat): State {
      this.(idle := idle + [Idle(session, now)])
    }

    function Spare(min: nat): nat { if open > min then open - min else 0 }

    function Reap(min: nat, timeout: nat, now: nat): (State, Reaped) {
      var reaped := ReapAll(idle, Spare(min), timeout, now);
      (this.(idle := reaped.kept), reaped)
    }
  }

  /** What is taken was returned no earlier than anything left, so what nobody needs goes stale; and
      taking undoes giving back. */
  lemma {:induction false} TakesNewest(state: State, session: nat, now: nat, i: nat)
    requires Sorted(state.idle)
    ensures var (rest, taken) := state.Taken();
            && (taken.None? <==> state.idle == [])
            && (i < |rest.idle| && taken.Some? ==>
                  exists entry | entry in state.idle ::
                    entry.session == taken.value && rest.idle[i].since <= entry.since)
    ensures state.GivenBack(session, now).Taken() == (state, Some(session))
  {
    assert (state.idle + [Idle(session, now)])[..|state.idle|] == state.idle;
    if state.idle != [] {
      var last := state.idle[|state.idle| - 1];
      assert last in state.idle && last.session == state.Taken().1.value;
    }
  }

  /** The same bookkeeping as an object updated in place under the pool's mutex. */
  class Bookkeeping {
    var idle: seq<Idle>
    var open: int
    var closing: bool

    function Value(): State
      reads this
    {
      State(idle, open, closing)
    }

    method Take() returns (session: Option<nat>)
      modifies this
      ensures (Value(), session) == old(Value()).Taken()
    {
      if idle == [] {
        return None;
      }
      session := Some(idle[|idle| - 1].session);
      idle := idle[..|idle| - 1];
    }

    method GiveBack(session: nat, now: nat)
      modifies this
      ensures Value() == old(Value()).GivenBack(session, now)
    {
      idle := idle + [Idle(session, now)];
    }

    method Closed(sessions: nat)
      requires sessions <= open
      modifies this
      ensures Value() == old(Value()).(open := old(open) - sessions)
    {
      open := open - sessions;
    }

    /** On a list kept in order of return this is eviction of the least recently used. */
    method Reap(min: nat, timeout: nat, now: nat) returns (expired: seq<nat>, wait: nat)
      modifies this
      ensures var (state, reaped) := old(Value()).Reap(min, timeout, now);
              Value() == state && expired == reaped.expired && wait == reaped.wait
      ensures Sorted(old(idle)) ==>
                Reaped(expired, idle, wait) == Evict(old(idle), old(Value()).Spare(min), timeout, now)
    {
      hide Evict, Sorted, Overdue, ReapAll;
      var spare: nat := if open > min then open - min else 0;
      ghost var all: nat := spare;
      if Sorted(idle) {
        ReapIsEviction(idle, spare, timeout, now);
      }
      if spare == 0 || idle == [] {
        NothingToReap(idle, spare, timeout, now);
        return [], timeout;
      }
      var entries := idle;
      var kept: seq<Idle> := [];
      expired, wait := [], timeout;
      WaitBounded(entries, spare, timeout, now);
      assert entries[0..] == entries;
      for n := 0 to |entries|
        invariant idle == entries == old(idle) && open == old(open) && closing == old(closing)
        invariant spare <= all && 0 <= wait <= timeout
        invariant var rest := ReapAll(entries[n..], spare, timeout, now);
                  ReapAll(entries, all, timeout, now)
                  == Reaped(expired + rest.expired, kept + rest.kept, if wait <= rest.wait then wait else rest.wait)
      {
        ReapNext(entries, n, spare, timeout, now);
        var waited := Waited(entries[n], now);
        if spare > 0 && waited >= timeout {
          spare := spare - 1;
          expired := expired + [entries[n].session];
        } else {
          if spare > 0 && timeout - waited < wait {
            wait := timeout - waited;
          }
          kept := kept + [entries[n]];
        }
      }
      idle := kept;
      NothingToReap(entries[|entries|..], spare, timeout, now);
    }
  }

  lemma {:induction false} WaitBounded(idle: seq<Idle>, spare: nat, timeout: nat, now: nat)
    ensures ReapAll(idle, spare, timeout, now).wait <= timeout
  {
    if idle != [] {
      var overdue := spare > 0 && Waited(idle[0], now) >= timeout;
      WaitBounded(idle[1..], if overdue then spare - 1 else spare, timeout, now);
    }
  }

  /** One turn of the loop. */
  lemma {:induction false} ReapNext(idle: seq<Idle>, n: nat, spare: nat, timeout: nat, now: nat)
    requires n < |idle|
    ensures var waited := Waited(idle[n], now);
            var all := ReapAll(idle[n..], spare, timeout, now);
            if spare > 0 && waited >= timeout then
              var rest := ReapAll(idle[n + 1..], spare - 1, timeout, now);
              all == rest.(expired := [idle[n].session] + rest.expired)
            else
              var rest := ReapAll(idle[n + 1..], spare, timeout, now);
              && rest.wait <= timeout
              && all == Reaped(rest.expired, [idle[n]] + rest.kept,
                               if spare > 0 && timeout - waited < rest.wait then timeout - waited else rest.wait)
  {
    assert idle[n..][1..] == idle[n + 1..];
    WaitBounded(idle[n + 1..], spare, timeout, now);
  }

  lemma {:induction false} NothingToReap(idle: seq<Idle>, spare: nat, timeout: nat, now: nat)
    requires spare == 0 || idle == []
    ensures ReapAll(idle, spare, timeout, now) == Reaped([], idle, timeout)
  {
    if idle != [] {
      NothingToReap(idle[1..], spare, timeout, now);
      assert idle == [idle[0]] + idle[1..];
    }
  }
}
