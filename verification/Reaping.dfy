/** The reaper makes progress: what it does with a zombie, after how many of its own
    steps each zombie is destroyed, and that every thread that exits can be. */
module Reaping {
  import opened NodeList
  import opened SchedModel
  import opened SchedSteps
  import opened SchedTheorems

  // -------------------------------------------------------------- one round

  /** In every reachable state in which the reaper tests a non-empty zombie queue, it
      pops next and destroys the first zombie. */
  lemma TestThenPop(s0: Sched, es: seq<Step>)
    requires Init(s0) && Runs(s0, es)
    requires var s := After(s0, es); s.cur == s.reaper && T(s, s.reaper).pc.Check? && s.zombie != []
    ensures var s := After(s0, es);
      && Runs(s, [ReaperTest, ReaperPop])
      && var s' := After(s, [ReaperTest, ReaperPop]);
         && s'.destroyed == s.destroyed + {s.zombie[0]} && s'.zombie == s.zombie[1..]
         && s'.cur == s.reaper && s'.run == s.run && T(s', s.reaper).pc.Check?
  {
    var s := After(s0, es);
    RoundRuns(s, ReaperTest, ReaperPop);
  }

  lemma OneStep(s: Sched, e: Step)
    requires Enabled(s, e)
    ensures Runs(s, [e]) && After(s, [e]) == Next(s, e)
  {
    hide Enabled, Next;
    assert [e][1..] == [];
  }

  lemma RoundRuns(s: Sched, e: Step, f: Step)
    requires Enabled(s, e) && Enabled(Next(s, e), f)
    ensures Runs(s, [e, f]) && After(s, [e, f]) == Next(Next(s, e), f)
  {
    hide Enabled, Next;
    OneStep(Next(s, e), f);
    assert [e, f][1..] == [f];
  }

  /** The reaper sleeps: it has found no zombie and will not run before the next exit. */
  ghost predicate Resting(s: Sched) {
    s.reaper in s.th && s.th[s.reaper].status.Sleeping? && s.cur != s.reaper && s.zombie == []
  }

  /** In every reachable state in which it tests an empty queue, the reaper gives up
      the processor, and is then neither current nor queued. */
  lemma TestThenRest(s0: Sched, es: seq<Step>)
    requires Init(s0) && Runs(s0, es)
    requires var s := After(s0, es); s.cur == s.reaper && T(s, s.reaper).pc.Check? && s.zombie == []
    ensures var s := After(s0, es);
      && Runs(s, [ReaperTest, Yield])
      && var s' := After(s, [ReaperTest, Yield]); Resting(s') && s'.reaper !in s'.run
  {
    hide Init, Runs, After, Sorted, NoDup;
    ReachableInv(s0, es);
    var s := After(s0, es);
    var s1 := Next(s, ReaperTest);
    assert Enabled(s1, Yield);
    RoundRuns(s, ReaperTest, Yield);
    assert ThreadOk(s, s.reaper);
    assert s.reaper !in s.run;
  }

  lemma {:induction false} WakeOthers(s: Sched, x: nat)
    requires x in s.th && x !in s.sleep
    ensures var s' := WakeUp(s);
      && x in s'.th && s'.th[x] == s.th[x] && s'.reaper == s.reaper && s'.cur == s.cur && s'.zombie == s.zombie
      && (x !in s.run ==> x !in s'.run) && s'.idle == s.idle
    decreases |s.sleep|
  {
    if s.sleep != [] && T(s, s.sleep[0]).wakeAt <= s.ticks {
      assert s.sleep[0] in s.sleep;
      WakeOthers(Ready(s, s.sleep[0]).(sleep := s.sleep[1..]), x);
    }
  }

  lemma SwitchRests(s: Sched)
    requires Resting(s) && s.reaper !in s.run && s.reaper != s.idle
    ensures Resting(Switch(s)) && s.reaper !in Switch(s).run && Switch(s).reaper == s.reaper
  {
  }

  lemma RestsApart(s: Sched)
    requires Inv(s) && Resting(s)
    ensures s.reaper !in s.run && s.reaper !in s.sleep && s.reaper != s.idle && s.reaper in s.th
  {
  }

  lemma RestStep(s: Sched, e: Step)
    requires Inv(s) && Resting(s) && Enabled(s, e) && !e.Exit?
    ensures Resting(Next(s, e))
  {
    hide Inv, WakeUp, Switch;
    RestsApart(s);
    if e.Timer? {
      var s1 := s.(ticks := s.ticks + TICK_RATE);
      WakeOthers(s1, s.reaper);
      SwitchRests(WakeUp(s1));
    } else if e.Yield? {
      SwitchRests(SetPc(s, s.cur, AfterYield(s)));
    }
  }

  /** It does not run again before a thread exits. */
  lemma {:induction false} RestsOn(s: Sched, es: seq<Step>)
    requires Inv(s) && Resting(s) && Runs(s, es) && (forall i :: 0 <= i < |es| ==> !es[i].Exit?)
    ensures Resting(After(s, es))
    decreases es
  {
    hide Inv, Resting, Enabled, Next;
    if es != [] {
      RestStep(s, es[0]);
      StepKeeps(s, es[0]);
      assert forall i :: 0 <= i < |es[1..]| ==> es[1..][i] == es[i + 1];
      RestsOn(Next(s, es[0]), es[1..]);
    }
  }

  // ------------------------------------------------------------ own steps

  /** A step the reaper itself takes. */
  predicate Own(s: Sched, e: Step) { s.cur == s.reaper && !e.Timer? }

  function OwnSteps(s: Sched, es: seq<Step>): nat
    requires Runs(s, es)
    decreases es
  {
    if es == [] then 0 else (if Own(s, es[0]) then 1 else 0) + OwnSteps(Next(s, es[0]), es[1..])
  }

  /** How many own steps the reaper needs until the zombie at place p is destroyed:
      a test and a pop for each, the first perhaps begun. */
  function ReapIn(s: Sched, p: nat): nat {
    2 * p + match T(s, s.reaper).pc
            case Pop => 1
            case Check => 2
            case _ => 3
  }

  lemma PcLeft(s: Sched, e: Step)
    requires Inv(s) && Enabled(s, e) && !Own(s, e)
    ensures var s' := Next(s, e);
      && s'.reaper == s.reaper && T(s', s.reaper).pc == T(s, s.reaper).pc
      && s.zombie <= s'.zombie && s'.destroyed == s.destroyed
  {
    hide WakeUp, Switch, Sorted, NoDup;
    DestroyedGrows(s, e);
    if e.Timer? {
      var s1 := s.(ticks := s.ticks + TICK_RATE);
      WakeOthers(s1, s.reaper);
      SwitchPc(WakeUp(s1), s.reaper);
    } else if e.Yield? {
      SwitchPc(SetPc(s, s.cur, AfterYield(s)), s.reaper);
    }
  }

  lemma SwitchPc(s: Sched, x: nat)
    requires x in s.th
    ensures var s' := Switch(s);
      x in s'.th && s'.th[x].pc == s.th[x].pc && s'.reaper == s.reaper && s'.zombie == s.zombie
  {
  }

  /** Where the zombie at place p stands after a step that does not destroy it. */
  function Place(e: Step, p: nat): nat { if e.ReaperPop? && p > 0 then p - 1 else p }

  lemma OwnStep(s: Sched, e: Step, p: nat)
    requires Inv(s) && Enabled(s, e) && Own(s, e) && p < |s.zombie|
    ensures var s' := Next(s, e);
      if e.ReaperPop? && p == 0 then ReapIn(s, p) == 1 && s.zombie[p] in s'.destroyed
      else
        && ReapIn(s', Place(e, p)) == ReapIn(s, p) - 1
        && Place(e, p) < |s'.zombie| && s'.zombie[Place(e, p)] == s.zombie[p]
  {
    hide Switch, Sorted, NoDup;
    if e.Yield? { SwitchPc(SetPc(s, s.cur, AfterYield(s)), s.reaper); }
  }

  lemma ReapStep(s: Sched, e: Step, p: nat)
    requires Inv(s) && Enabled(s, e) && p < |s.zombie|
    ensures var s', own := Next(s, e), if Own(s, e) then 1 else 0;
      if e.ReaperPop? && p == 0 then ReapIn(s, p) == 1 && own == 1 && s.zombie[p] in s'.destroyed
      else
        && ReapIn(s', Place(e, p)) == ReapIn(s, p) - own && ReapIn(s, p) > own
        && Place(e, p) < |s'.zombie| && s'.zombie[Place(e, p)] == s.zombie[p]
  {
    hide Inv, Next;
    if Own(s, e) { OwnStep(s, e, p); } else { PcLeft(s, e); }
  }

  lemma NotYet(s: Sched, p: nat)
    requires Inv(s) && p < |s.zombie|
    ensures s.zombie[p] !in s.destroyed
  {
    assert s.zombie[p] in s.zombie;
  }

  /** The zombie at place p is destroyed by exactly that own step of the reaper, and
      not before, whatever else happens. */
  lemma {:induction false} ReapedExactly(s: Sched, es: seq<Step>, p: nat)
    requires Inv(s) && Runs(s, es) && p < |s.zombie|
    ensures s.zombie[p] in After(s, es).destroyed <==> OwnSteps(s, es) >= ReapIn(s, p)
    decreases es
  {
    hide Inv, Next, Enabled, ReapIn, Own;
    if es == [] {
      NotYet(s, p);
      assert ReapIn(s, p) > 0 by { ReapPositive(s, p); }
    } else {
      ReapStep(s, es[0], p);
      StepKeeps(s, es[0]);
      if es[0].ReaperPop? && p == 0 {
        DestroyedStays(Next(s, es[0]), es[1..]);
      } else {
        ReapedExactly(Next(s, es[0]), es[1..], Place(es[0], p));
      }
    }
  }

  lemma ReapPositive(s: Sched, p: nat)
    ensures ReapIn(s, p) > 0
  {
  }

  function Pops(es: seq<Step>): nat {
    if es == [] then 0 else (if es[0].ReaperPop? then 1 else 0) + Pops(es[1..])
  }

  /** In order of exit: the zombie at place p is the (p+1)-st destroyed. */
  lemma {:induction false} ReapedInOrder(s: Sched, es: seq<Step>, p: nat)
    requires Inv(s) && Runs(s, es) && p < |s.zombie|
    ensures s.zombie[p] in After(s, es).destroyed <==> Pops(es) >= p + 1
    decreases es
  {
    hide Inv, Next, Enabled, ReapIn, Own;
    if es == [] {
      NotYet(s, p);
    } else {
      ReapStep(s, es[0], p);
      StepKeeps(s, es[0]);
      if es[0].ReaperPop? && p == 0 {
        DestroyedStays(Next(s, es[0]), es[1..]);
      } else {
        ReapedInOrder(Next(s, es[0]), es[1..], Place(es[0], p));
      }
    }
  }

  // ------------------------------------------------------------- existence

  /** n timer interrupts in a row. */
  function Clock(n: nat): seq<Step> {
    if n == 0 then [] else [Timer] + Clock(n - 1)
  }

  lemma {:induction false} ClockRuns(s: Sched, n: nat)
    ensures Runs(s, Clock(n)) && |Clock(n)| == n && Switches(Clock(n)) == n
    ensures n > 0 ==> Clock(n)[n - 1] == Timer
    decreases n
  {
    hide Next, Enabled;
    if n > 0 {
      assert Enabled(s, Timer) by { TimerEnabled(s); }
      ClockRuns(Next(s, Timer), n - 1);
      assert Clock(n)[1..] == Clock(n - 1);
    }
  }

  lemma TimerEnabled(s: Sched)
    ensures Enabled(s, Timer)
  {
  }

  ghost predicate KeepsPc(s: Sched, s': Sched) {
    && s'.zombie == s.zombie && s'.reaper == s.reaper && s'.idle == s.idle
    && forall x :: x in s.th ==> x in s'.th && s'.th[x].pc == s.th[x].pc
  }

  lemma {:induction false} WakeKeepsPc(s: Sched)
    requires forall x :: x in s.sleep ==> x in s.th
    ensures KeepsPc(s, WakeUp(s))
    decreases |s.sleep|
  {
    if s.sleep != [] && T(s, s.sleep[0]).wakeAt <= s.ticks {
      assert s.sleep[0] in s.sleep;
      WakeKeepsPc(Ready(s, s.sleep[0]).(sleep := s.sleep[1..]));
    }
  }

  lemma SwitchKeepsPc(s: Sched)
    requires Core(s)
    ensures KeepsPc(s, Switch(s))
  {
    if s.run != [] { assert s.run[0] in s.run; }
  }

  lemma TimerKeepsPc(s: Sched)
    requires Inv(s)
    ensures KeepsPc(s, Next(s, Timer))
  {
    hide Core, CurOk, WakeUp, Switch;
    var s1 := s.(ticks := s.ticks + TICK_RATE);
    TickKeeps(s, s1.ticks);
    WakeKeeps(s1);
    assert forall x :: x in s1.sleep ==> x in s1.th by { SleepersKnown(s1); }
    WakeKeepsPc(s1);
    SwitchKeepsPc(WakeUp(s1));
  }

  lemma SleepersKnown(s: Sched)
    requires Core(s)
    ensures forall x :: x in s.sleep ==> x in s.th
  {
  }

  lemma {:induction false} ClockKeeps(s: Sched, n: nat)
    requires Inv(s) && Runs(s, Clock(n))
    ensures Inv(After(s, Clock(n))) && KeepsPc(s, After(s, Clock(n)))
    decreases n
  {
    hide Inv, Enabled, Next;
    if n > 0 {
      assert Clock(n)[1..] == Clock(n - 1);
      TimerKeepsPc(s);
      StepKeeps(s, Timer);
      ClockKeeps(Next(s, Timer), n - 1);
    }
  }

  /** Timer interrupts alone bring up every thread of the run queue. */
  lemma ComesUp(s: Sched, x: nat) returns (es: seq<Step>)
    requires Inv(s) && x in s.run
    ensures Runs(s, es) && Inv(After(s, es)) && After(s, es).cur == x && KeepsPc(s, After(s, es))
  {
    hide Inv, KeepsPc, Runs, After, Clock, Switches;
    var p: nat :| p < |s.run| && s.run[p] == x;
    es := Clock(p + 1);
    ClockRuns(s, p + 1);
    ClockKeeps(s, p + 1);
    assert Switching(es[|es| - 1]);
    BoundedWaiting(s, es, p);
  }

  lemma {:induction false} RunsJoin(s: Sched, a: seq<Step>, b: seq<Step>)
    requires Runs(s, a) && Runs(After(s, a), b)
    ensures Runs(s, a + b) && After(s, a + b) == After(After(s, a), b)
    decreases a
  {
    hide Enabled, Next;
    if a == [] {
      assert a + b == b;
    } else {
      assert (a + b)[1..] == a[1..] + b;
      RunsJoin(Next(s, a[0]), a[1..], b);
    }
  }

  /** What the reaper does next when it runs and a zombie waits. */
  function OwnNext(s: Sched): Step {
    match T(s, s.reaper).pc
    case Pop => ReaperPop
    case Check => ReaperTest
    case _ => Yield
  }

  lemma OwnNextEnabled(s: Sched)
    requires Inv(s) && s.zombie != [] && s.cur == s.reaper
    ensures Enabled(s, OwnNext(s)) && Own(s, OwnNext(s))
  {
  }

  /** From every state with a zombie, a run that destroys it. */
  lemma {:induction false} CanReap(s: Sched, p: nat) returns (es: seq<Step>)
    requires Inv(s) && p < |s.zombie|
    ensures Runs(s, es) && s.zombie[p] in After(s, es).destroyed
    decreases ReapIn(s, p), if s.cur == s.reaper then 0 else 1
  {
    hide Inv, Enabled, Next, Runs, After, ReapIn, Own, OwnNext;
    if s.cur != s.reaper {
      ReaperAwake(s);
      var a := ComesUp(s, s.reaper);
      var s1 := After(s, a);
      assert ReapIn(s1, p) == ReapIn(s, p) by { SamePcSameReap(s, s1, p); }
      var b := CanReap(s1, p);
      RunsJoin(s, a, b);
      es := a + b;
    } else {
      var e := OwnNext(s);
      OwnNextEnabled(s);
      OneStep(s, e);
      ReapStep(s, e, p);
      StepKeeps(s, e);
      if e.ReaperPop? && p == 0 {
        es := [e];
      } else {
        var b := CanReap(Next(s, e), Place(e, p));
        RunsJoin(s, [e], b);
        es := [e] + b;
      }
    }
  }

  lemma SamePcSameReap(s: Sched, s1: Sched, p: nat)
    requires Inv(s) && KeepsPc(s, s1)
    ensures ReapIn(s1, p) == ReapIn(s, p)
  {
  }

  lemma ExitEnabled(s: Sched, s1: Sched, x: nat)
    requires Inv(s) && x in s.run && x != s.reaper && T(s, x).pc.Normal? && KeepsPc(s, s1) && s1.cur == x
    ensures Enabled(s1, Exit) && Next(s1, Exit).zombie == s1.zombie + [x]
  {
    assert x in s.th && PcOk(s, x);
  }

  /** In every reachable state, every thread that waits for the processor outside the
      blocks of the kernel can exit and be destroyed. */
  lemma CanExit(s0: Sched, es0: seq<Step>, x: nat) returns (es: seq<Step>)
    requires Init(s0) && Runs(s0, es0)
    requires var s := After(s0, es0); x in s.run && x != s.reaper && T(s, x).pc.Normal?
    ensures Runs(s0, es0 + es) && x in After(s0, es0 + es).destroyed
  {
    hide Init, Inv, Enabled, Next, Runs, After, KeepsPc;
    ReachableInv(s0, es0);
    var s := After(s0, es0);
    var a := ComesUp(s, x);
    var s1 := After(s, a);
    ExitEnabled(s, s1, x);
    OneStep(s1, Exit);
    StepKeeps(s1, Exit);
    var s2 := Next(s1, Exit);
    var b := CanReap(s2, |s2.zombie| - 1);
    RunsJoin(s1, [Exit], b);
    RunsJoin(s, a, [Exit] + b);
    es := a + ([Exit] + b);
    RunsJoin(s0, es0, es);
  }

  lemma SleepEnabled(s: Sched, s1: Sched, x: nat, time: nat)
    requires Inv(s) && x in s.run && x != s.reaper && T(s, x).pc.Normal? && KeepsPc(s, s1) && s1.cur == x
    ensures Enabled(s1, Arm(time)) && Enabled(Next(s1, Arm(time)), Enqueue)
    ensures x in Next(Next(s1, Arm(time)), Enqueue).sleep
  {
    assert x in s.th && PcOk(s, x);
    ArmStarts(s1, time);
    EnqueueSleeps(Next(s1, Arm(time)), x, s1.ticks + time * PIT_CRYSTAL);
  }

  /** And every such thread can sleep for any time. */
  lemma CanSleep(s0: Sched, es0: seq<Step>, x: nat, time: nat) returns (es: seq<Step>)
    requires Init(s0) && Runs(s0, es0)
    requires var s := After(s0, es0); x in s.run && x != s.reaper && T(s, x).pc.Normal?
    ensures Runs(s0, es0 + es + [Arm(time), Enqueue]) && x in After(s0, es0 + es + [Arm(time), Enqueue]).sleep
  {
    hide Init, Inv, Enabled, Next, Runs, After, KeepsPc;
    ReachableInv(s0, es0);
    var s := After(s0, es0);
    es := ComesUp(s, x);
    SleepEnabled(s, After(s, es), x, time);
    RoundRuns(After(s, es), Arm(time), Enqueue);
    RunsJoin(s0, es0, es);
    RunsJoin(s0, es0 + es, [Arm(time), Enqueue]);
  }
}
