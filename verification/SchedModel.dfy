/** The scheduler, the sleep queue and the reaper as one transition system. Each
    atomic block of the kernel is a step, and the places between blocks where a
    timer interrupt can land are states of their own. */
module SchedModel {
  import opened NodeList

  /** Timer clock and the part of it one timer interrupt accounts for. */
  const PIT_CRYSTAL: nat := 1193182
  const TICK_RATE: nat := PIT_CRYSTAL / 100

  datatype Status = Running | Runnable | Idle | Zombie | Sleeping

  /** Where a thread stands in kernel code.
      Normal: anywhere outside the blocks below.
      Armed: in thread_sleep, wake time stored, not yet on the sleep queue.
      MustYield: status already SLEEPING, the call of scheduler() still ahead.
      Dying: in reaper_add's wake, the last call of scheduler() still ahead.
      Check and Pop: the reaper before its test of the zombie queue, and after a
      test that found a zombie. */
  datatype Pc = Normal | Armed | MustYield | Dying | Check | Pop

  datatype Thread = Thread(status: Status, wakeAt: nat, pc: Pc)

  datatype Sched = Sched(run: seq<nat>, sleep: seq<nat>, zombie: seq<nat>,
                         th: map<nat, Thread>, cur: nat, idle: nat, reaper: nat,
                         ticks: nat, destroyed: set<nat>)

  function T(s: Sched, x: nat): Thread {
    if x in s.th then s.th[x] else Thread(Zombie, 0, Dying)
  }

  function SetStatus(s: Sched, x: nat, v: Status): Sched {
    s.(th := s.th[x := T(s, x).(status := v)])
  }

  function SetPc(s: Sched, x: nat, p: Pc): Sched {
    s.(th := s.th[x := T(s, x).(pc := p)])
  }

  // ------------------------------------------------------------ the blocks

  /** thread_ready. */
  function Ready(s: Sched, x: nat): Sched {
    SetStatus(s, x, Runnable).(run := s.run + [x])
  }

  /** wake_up_threads: looks at the head of the sleep queue only. */
  function WakeUp(s: Sched): Sched
    decreases |s.sleep|
  {
    if s.sleep != [] && T(s, s.sleep[0]).wakeAt <= s.ticks
    then WakeUp(Ready(s, s.sleep[0]).(sleep := s.sleep[1..]))
    else s
  }

  /** scheduler. */
  function Switch(s: Sched): Sched {
    var s1 := if T(s, s.cur).status.Running? then Ready(s, s.cur) else s;
    if s1.run == [] then s1.(cur := s1.idle)
    else SetStatus(s1, s1.run[0], Running).(run := s1.run[1..], cur := s1.run[0])
  }

  /** The place list_sorted_push finds: after every sleeper that wakes no later. */
  function InsertAt(s: Sched, q: seq<nat>, w: nat): (p: nat)
    ensures p <= |q|
  {
    if q != [] && T(s, q[0]).wakeAt <= w then 1 + InsertAt(s, q[1..], w) else 0
  }

  function Inserted(q: seq<nat>, p: nat, x: nat): seq<nat>
    requires p <= |q|
  {
    q[..p] + [x] + q[p..]
  }

  // ------------------------------------------------------------- the steps

  datatype Step = Timer | Yield | Spawn(id: nat) | Arm(time: nat) | Enqueue | Exit | ReaperTest | ReaperPop

  /** When the current thread may take a step. The timer may fire at any time. */
  predicate Enabled(s: Sched, e: Step) {
    var pc := T(s, s.cur).pc;
    var plain := s.cur != s.idle && s.cur != s.reaper && pc.Normal?;
    match e
    case Timer => true
    case Yield => s.cur != s.idle && (pc.Normal? || pc.MustYield? || pc.Dying?)
    case Spawn(id) => plain && id !in s.th
    case Arm(_) => plain
    case Enqueue => s.cur != s.idle && s.cur != s.reaper && pc.Armed?
    case Exit => plain
    case ReaperTest => s.cur == s.reaper && pc.Check?
    case ReaperPop => s.cur == s.reaper && pc.Pop? && s.zombie != []
  }

  /** Where a thread goes on after its own call of scheduler() returns. */
  function AfterYield(s: Sched): Pc {
    if s.cur == s.reaper then Check else if T(s, s.cur).pc.Dying? then Dying else Normal
  }

  function Next(s: Sched, e: Step): Sched
    requires Enabled(s, e)
  {
    match e
    case Timer => Switch(WakeUp(s.(ticks := s.ticks + TICK_RATE)))
    case Yield => Switch(SetPc(s, s.cur, AfterYield(s)))
    case Spawn(id) => Ready(s.(th := s.th[id := Thread(Runnable, 0, Normal)]), id)
    case Arm(time) =>
      s.(th := s.th[s.cur := T(s, s.cur).(wakeAt := s.ticks + time * PIT_CRYSTAL, pc := Armed)])
    case Enqueue =>
      var s1 := s.(th := s.th[s.cur := T(s, s.cur).(status := Sleeping, pc := MustYield)]);
      s1.(sleep := Inserted(s.sleep, InsertAt(s, s.sleep, T(s, s.cur).wakeAt), s.cur))
    case Exit =>
      var s1 := s.(th := s.th[s.cur := T(s, s.cur).(status := Zombie, pc := Dying)], zombie := s.zombie + [s.cur]);
      if T(s1, s.reaper).status.Runnable? then s1 else Ready(s1, s.reaper)
    case ReaperTest =>
      if s.zombie != [] then SetPc(s, s.reaper, Pop)
      else s.(th := s.th[s.reaper := T(s, s.reaper).(status := Sleeping, pc := MustYield)])
    case ReaperPop =>
      SetPc(s, s.reaper, Check).(zombie := s.zombie[1..], destroyed := s.destroyed + {s.zombie[0]})
  }

  // ------------------------------------------------------------- invariant

  ghost predicate Queued(s: Sched) {
    && NoDup(s.run) && NoDup(s.sleep) && NoDup(s.zombie)
    && (forall x :: x in s.run ==> x in s.th && s.th[x].status.Runnable?)
    && (forall x :: x in s.sleep ==> x in s.th && s.th[x].status.Sleeping? && x != s.reaper)
    && (forall x :: x in s.zombie ==> x in s.th && s.th[x].status.Zombie? && x !in s.destroyed)
  }

  ghost predicate ThreadOk(s: Sched, x: nat)
    requires x in s.th
  {
    match s.th[x].status
    case Running => x == s.cur && x != s.idle
    case Runnable => x in s.run
    case Idle => x == s.idle
    case Zombie => (x in s.zombie || x in s.destroyed) && s.th[x].pc.Dying?
    case Sleeping => x == s.reaper || x in s.sleep
  }

  ghost predicate PcOk(s: Sched, x: nat)
    requires x in s.th
  {
    && (s.th[x].pc.Dying? ==> s.th[x].status.Zombie?)
    && (s.th[x].pc.Check? || s.th[x].pc.Pop? ==> x == s.reaper)
    && (s.th[x].status.Idle? <==> x == s.idle)
  }

  /** The current thread is Running, idle, or in the window between giving up
      the processor and calling scheduler(). */
  ghost predicate CurOk(s: Sched)
    requires s.cur in s.th
  {
    && !s.th[s.cur].status.Runnable?
    && (s.th[s.cur].status.Sleeping? ==> s.th[s.cur].pc.MustYield?)
  }

  ghost predicate ReaperOk(s: Sched) {
    && s.reaper in s.th && s.reaper != s.idle
    && !s.th[s.reaper].status.Zombie?
    && (s.th[s.reaper].pc.Check? || s.th[s.reaper].pc.Pop? || s.th[s.reaper].pc.MustYield?)
    && (s.th[s.reaper].pc.Pop? ==> s.zombie != [] && !s.th[s.reaper].status.Sleeping?)
    && (s.th[s.reaper].status.Sleeping? ==> s.zombie == [])
  }

  ghost predicate Dead(s: Sched) {
    forall x :: x in s.destroyed ==> x in s.th && s.th[x].status.Zombie?
  }

  ghost predicate Sorted(s: Sched, q: seq<nat>) {
    forall i, j :: 0 <= i < j < |q| ==> T(s, q[i]).wakeAt <= T(s, q[j]).wakeAt
  }

  /** What holds at every point, the middle of the timer interrupt included. */
  ghost predicate Core(s: Sched) {
    && Queued(s)
    && (forall x :: x in s.th ==> ThreadOk(s, x) && PcOk(s, x))
    && s.cur in s.th && s.idle in s.th && s.cur !in s.destroyed
    && ReaperOk(s) && Dead(s) && Sorted(s, s.sleep)
  }

  ghost predicate Inv(s: Sched) {
    Core(s) && CurOk(s)
  }

  /** After boot: the idle thread runs with interrupts just enabled, and the
      reaper and the first processes wait in the run queue. */
  ghost predicate Init(s: Sched) {
    && s.cur == s.idle && s.idle in s.th && s.th[s.idle] == Thread(Idle, 0, Normal)
    && s.reaper in s.run && s.reaper != s.idle && NoDup(s.run)
    && s.sleep == [] && s.zombie == [] && s.destroyed == {}
    && (forall x :: x in s.th <==> x == s.idle || x in s.run)
    && s.idle !in s.run
    && (forall x :: x in s.run ==> s.th[x].status.Runnable? && s.th[x].pc == if x == s.reaper then Check else Normal)
  }
}
