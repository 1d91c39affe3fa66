/** Who runs next, and in which order the others wait. The laws speak of queues and
    wake times only, and hold in every reachable state. */
module SchedOrder {
  import opened NodeList
  import opened SchedModel
  import opened SchedSteps
  import opened SchedTheorems

  /** The threads of q whose time has come by now, in the order of q. */
  function Due(s: Sched, q: seq<nat>, now: nat): seq<nat> {
    if q == [] then [] else (if T(s, q[0]).wakeAt <= now then [q[0]] else []) + Due(s, q[1..], now)
  }

  /** And those whose time has not. */
  function Early(s: Sched, q: seq<nat>, now: nat): seq<nat> {
    if q == [] then [] else (if T(s, q[0]).wakeAt <= now then [] else [q[0]]) + Early(s, q[1..], now)
  }

  lemma {:induction false} AllEarly(s: Sched, q: seq<nat>, now: nat)
    requires forall i :: 0 <= i < |q| ==> T(s, q[i]).wakeAt > now
    ensures Due(s, q, now) == [] && Early(s, q, now) == q
  {
    hide T;
    if q != [] {
      AllEarly(s, q[1..], now);
      assert q == [q[0]] + q[1..];
    }
  }

  lemma {:induction false} DueFirst(s: Sched, q: seq<nat>, now: nat, d: nat)
    requires d <= |q|
    requires forall i :: 0 <= i < |q| ==> (T(s, q[i]).wakeAt <= now <==> i < d)
    ensures Due(s, q, now) == q[..d] && Early(s, q, now) == q[d..]
  {
    hide T;
    if d == 0 {
      AllEarly(s, q, now);
    } else {
      DueFirst(s, q[1..], now, d - 1);
      assert q[..d] == [q[0]] + q[1..][..d - 1] && q[d..] == q[1..][d - 1..];
    }
  }

  // ----------------------------------------------------------------- dispatch

  /** Those that want the processor: the run queue, then the threads just woken, then
      the current thread if it has not given up the processor. */
  function Line(s: Sched, woken: seq<nat>): seq<nat> {
    s.run + woken + (if T(s, s.cur).status.Running? then [s.cur] else [])
  }

  /** The first of the line runs and the rest waits in that order; idle runs if and
      only if the line is empty. */
  ghost predicate Dispatched(s: Sched, line: seq<nat>, s': Sched) {
    && (line != [] ==> [s'.cur] + s'.run == line && T(s', s'.cur).status.Running?)
    && (line == [] ==> s'.run == [])
    && (s'.cur == s.idle <==> line == [])
  }

  lemma SwitchDispatches(s: Sched)
    requires Core(s)
    ensures Dispatched(s, Line(s, []), Switch(s))
  {
    IdleIffNothingRuns(s);
    var line := Line(s, []);
    if line != [] { assert line == [line[0]] + line[1..]; }
  }

  lemma SwitchLeaves(s: Sched)
    ensures var s' := Switch(s);
      && s'.sleep == s.sleep && s'.zombie == s.zombie && s'.destroyed == s.destroyed
      && s'.ticks == s.ticks && s'.idle == s.idle && s'.reaper == s.reaper
  {
  }

  lemma {:induction false} WakeLeaves(s: Sched)
    requires s.cur !in s.sleep
    ensures var s' := WakeUp(s);
      && s'.zombie == s.zombie && s'.destroyed == s.destroyed && s'.cur == s.cur && s'.idle == s.idle
      && s'.reaper == s.reaper && T(s', s.cur) == T(s, s.cur)
    decreases |s.sleep|
  {
    if s.sleep != [] && T(s, s.sleep[0]).wakeAt <= s.ticks {
      assert s.sleep[0] in s.sleep;
      WakeLeaves(Ready(s, s.sleep[0]).(sleep := s.sleep[1..]));
    }
  }

  /** Waking the current thread, which was about to call scheduler(), leaves it
      Runnable, so it joins the line once, with the other sleepers. */
  lemma {:induction false} WakeStatus(s: Sched)
    ensures var s' := WakeUp(s);
      && s'.zombie == s.zombie && s'.destroyed == s.destroyed && s'.cur == s.cur && s'.idle == s.idle
      && s'.reaper == s.reaper
      && (!T(s, s.cur).status.Running? ==> !T(s', s.cur).status.Running?)
    decreases |s.sleep|
  {
    if s.sleep != [] && T(s, s.sleep[0]).wakeAt <= s.ticks {
      WakeStatus(Ready(s, s.sleep[0]).(sleep := s.sleep[1..]));
    }
  }

  lemma RunningAwake(s: Sched)
    requires Core(s) && T(s, s.cur).status.Running?
    ensures s.cur !in s.sleep
  {
  }

  lemma WakeLine(s: Sched, d: nat)
    requires Core(s) && d <= |s.sleep| && WakeUp(s).run == s.run + s.sleep[..d]
    ensures Line(WakeUp(s), []) == Line(s, s.sleep[..d])
  {
    hide WakeUp, Core;
    WakeStatus(s);
    if T(s, s.cur).status.Running? {
      RunningAwake(s);
      WakeLeaves(s);
    }
  }

  /** The timer interrupt wakes first and dispatches then. */
  lemma TimerDispatches(s: Sched)
    requires Inv(s)
    ensures var s', now := Next(s, Timer), s.ticks + 11931;
      && Dispatched(s, Line(s, Due(s, s.sleep, now)), s')
      && s'.sleep == Early(s, s.sleep, now) && s'.ticks == now
      && s'.zombie == s.zombie && s'.destroyed == s.destroyed
  {
    hide Core, CurOk, Switch, WakeUp, InsertAt, Dispatched, Line, Due, Early, T;
    var s1 := s.(ticks := s.ticks + TICK_RATE);
    assert TICK_RATE == 11931;
    TickKeeps(s, s1.ticks);
    SleepersSorted(s1);
    WakesExactly(s1);
    var d := InsertAt(s1, s1.sleep, s1.ticks);
    DueFirst(s1, s1.sleep, s1.ticks, d);
    WakeLine(s1, d);
    WakeKeeps(s1);
    WakeStatus(s1);
    SwitchDispatches(WakeUp(s1));
    SwitchLeaves(WakeUp(s1));
    SameLine(s, s1, s1.ticks);
    SameDispatch(s1, WakeUp(s1), s, Line(s1, s.sleep[..d]), Switch(WakeUp(s1)));
  }

  lemma SameDispatch(s1: Sched, s2: Sched, s: Sched, line: seq<nat>, s': Sched)
    requires s1.idle == s2.idle == s.idle && Dispatched(s2, line, s')
    ensures Dispatched(s, line, s')
  {
  }

  lemma SleepersSorted(s: Sched)
    requires Core(s)
    ensures Sorted(s, s.sleep) && NoDup(s.sleep)
  {
  }

  /** The clock is no part of the queues. */
  lemma {:induction false} SameDue(s: Sched, s1: Sched, q: seq<nat>, now: nat)
    requires s1.th == s.th
    ensures Due(s1, q, now) == Due(s, q, now) && Early(s1, q, now) == Early(s, q, now)
  {
    if q != [] { SameDue(s, s1, q[1..], now); }
  }

  lemma SameLine(s: Sched, s1: Sched, now: nat)
    requires s1 == s.(ticks := now)
    ensures Due(s1, s.sleep, now) == Due(s, s.sleep, now) && Early(s1, s.sleep, now) == Early(s, s.sleep, now)
    ensures forall woken :: Line(s1, woken) == Line(s, woken)
  {
    SameDue(s, s1, s.sleep, now);
  }

  /** In every reachable state the timer interrupt lines up the run queue, then the
      sleepers due by then in queue order, then the interrupted thread. */
  lemma TimerOrder(s0: Sched, es: seq<Step>)
    requires Init(s0) && Runs(s0, es)
    ensures var s := After(s0, es);
      var s', now := Next(s, Timer), s.ticks + 11931;
      && Dispatched(s, Line(s, Due(s, s.sleep, now)), s')
      && s'.sleep == Early(s, s.sleep, now) && s'.ticks == now
      && s'.zombie == s.zombie && s'.destroyed == s.destroyed
  {
    hide Init, Inv, Next, Due, Early, Dispatched, Line;
    ReachableInv(s0, es);
    TimerDispatches(After(s0, es));
  }

  lemma YieldDispatches(s: Sched)
    requires Inv(s) && Enabled(s, Yield)
    ensures var s' := Next(s, Yield);
      && Dispatched(s, Line(s, []), s')
      && s'.sleep == s.sleep && s'.ticks == s.ticks && s'.zombie == s.zombie && s'.destroyed == s.destroyed
  {
    hide Core, CurOk, Switch, Dispatched;
    var s1 := SetPc(s, s.cur, AfterYield(s));
    CurrentKnown(s);
    YieldPcKeeps(s);
    SwitchDispatches(s1);
    SwitchLeaves(s1);
    assert Line(s1, []) == Line(s, []);
    SameDispatch(s1, s1, s, Line(s, []), Switch(s1));
  }

  lemma CurrentKnown(s: Sched)
    requires Core(s)
    ensures s.cur in s.th
  {
  }

  /** A thread's own call of scheduler() lines up the run queue and then the caller,
      unless it has put itself to sleep or exited. */
  lemma YieldOrder(s0: Sched, es: seq<Step>)
    requires Init(s0) && Runs(s0, es) && Enabled(After(s0, es), Yield)
    ensures var s := After(s0, es);
      var s' := Next(s, Yield);
      && Dispatched(s, Line(s, []), s')
      && s'.sleep == s.sleep && s'.ticks == s.ticks && s'.zombie == s.zombie && s'.destroyed == s.destroyed
  {
    hide Init, Inv, Next, Dispatched, Line;
    ReachableInv(s0, es);
    YieldDispatches(After(s0, es));
  }

  // ------------------------------------------------------- the other queues

  /** q' is q with x put in before the first thread that wakes strictly later than w. */
  ghost predicate PutBefore(s: Sched, q: seq<nat>, x: nat, w: nat, q': seq<nat>) {
    exists p :: 0 <= p <= |q| && SplitsAt(s, q, p, w) && q' == q[..p] + [x] + q[p..]
  }

  ghost predicate SplitsAt(s: Sched, q: seq<nat>, p: nat, w: nat)
    requires p <= |q|
  {
    && (forall i :: 0 <= i < p ==> T(s, q[i]).wakeAt <= w)
    && (forall i :: p <= i < |q| ==> T(s, q[i]).wakeAt > w)
  }

  /** Going to sleep: after all that wake no later, and the run queue is left alone. */
  lemma EnqueueOrder(s0: Sched, es: seq<Step>)
    requires Init(s0) && Runs(s0, es) && Enabled(After(s0, es), Enqueue)
    ensures var s := After(s0, es);
      var s' := Next(s, Enqueue);
      && PutBefore(s, s.sleep, s.cur, T(s, s.cur).wakeAt, s'.sleep)
      && s'.run == s.run && s'.zombie == s.zombie && s'.cur == s.cur
  {
    hide Init, Core, Runs, After, InsertAt;
    ReachableInv(s0, es);
    var s := After(s0, es);
    SleepersSorted(s);
    InsertAtFacts(s, s.sleep, T(s, s.cur).wakeAt);
    assert SplitsAt(s, s.sleep, InsertAt(s, s.sleep, T(s, s.cur).wakeAt), T(s, s.cur).wakeAt);
  }

  /** Exiting: last of the zombies, and the reaper last in the run queue unless it is
      there already. */
  lemma ExitOrder(s0: Sched, es: seq<Step>)
    requires Init(s0) && Runs(s0, es) && Enabled(After(s0, es), Exit)
    ensures var s := After(s0, es);
      var s' := Next(s, Exit);
      && s'.zombie == s.zombie + [s.cur] && s'.cur == s.cur && s'.sleep == s.sleep
      && s'.run == (if s.reaper in s.run then s.run else s.run + [s.reaper])
      && !T(s', s.cur).status.Running?
  {
    hide Init, Runs, After, Sorted, NoDup;
    ReachableInv(s0, es);
    var s := After(s0, es);
    assert ThreadOk(s, s.reaper);
  }

  /** A new thread: last in the run queue, and nothing else changes place. */
  lemma SpawnOrder(s0: Sched, es: seq<Step>, id: nat)
    requires Init(s0) && Runs(s0, es) && Enabled(After(s0, es), Spawn(id))
    ensures var s := After(s0, es);
      var s' := Next(s, Spawn(id));
      && s'.run == s.run + [id] && id !in s.run && id !in s.sleep && id !in s.zombie && id !in s.destroyed
      && s'.cur == s.cur && s'.sleep == s.sleep && s'.zombie == s.zombie && s'.destroyed == s.destroyed
  {
    hide Init, Runs, After, Sorted, NoDup, ThreadOk, PcOk;
    ReachableInv(s0, es);
  }
}
