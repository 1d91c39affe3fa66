/** What user mode can reach, over all of the user half: exactly the process's own
    pages and what the words left in its tables name. The conditions are about what
    is there before a process is created. */
module ProcessReach {
  import opened Bits
  import opened BuddyModel
  import opened EntryBits
  import opened PageTables
  import opened PageSteps
  import opened ElfModel
  import opened ProcessSteps
  import opened ProcessTheorems
  import opened ProcessTables
  import opened ProcessPlan
  import opened ProcessRuns

  /** A process as it can be known before it is created: the image, what the pages
      of the allocator hold, and the plan. */
  datatype Prospect = Prospect(elf: Elf, words: nat -> Table, plan: Plan)

  function Prospective(z: Zone, m: Mem, left: Left, kpd: nat, elf: Elf): Prospect
    requires kpd in m.tables
  {
    Prospect(elf, left.words, PlanOf(z, m, kpd, elf))
  }

  function Before(p: Proc): Prospect { Prospect(p.elf, p.words, p.plan) }

  /** Page vq is not to be one of its own, and the word left for it is a user mapping. */
  ghost predicate Stray(x: Prospect, vq: nat) {
    vq < USER_PAGES && !UserPage(x.elf, vq) && UserWord(Leftover(x.plan.dir, x.words, vq))
  }

  /** The pages to become tables hold no user mapping beside the own pages. */
  ghost predicate Clean(x: Prospect) {
    forall vq: nat :: !Stray(x, vq)
  }

  /** Own page vq is to be in frame f. */
  ghost predicate OwnFrame(x: Prospect, vq: nat, f: nat) {
    vq in x.plan.own && x.plan.own[vq] == f
  }

  /** The word left for page vq names frame f for user mode. */
  ghost predicate LeftFrame(x: Prospect, vq: nat, f: nat) {
    Stray(x, vq) && FrameOf(Leftover(x.plan.dir, x.words, vq)) / PAGE == f
  }

  // --------------------------------------------------------------- one process

  /** From user mode p reaches its segments and its stack and nothing else. */
  ghost predicate OnlyOwn(m: Mem, p: Proc) {
    forall vq: nat :: vq < USER_PAGES ==> (UserHit(m, p.pd, vq) <==> UserPage(p.elf, vq))
  }

  lemma ReachOne(w: Mem, m: Mem, kpd: nat, p: Proc, vq: nat)
    requires Intact(w, m, kpd, p) && vq < USER_PAGES
    ensures UserHit(m, p.pd, vq) <==> UserPage(p.elf, vq) || Stray(Before(p), vq)
    ensures UserHit(m, p.pd, vq) ==>
      var f := Translate(m, p.pd, vq).value.page;
      if UserPage(p.elf, vq) then OwnFrame(Before(p), vq, f) else LeftFrame(Before(p), vq, f)
  {
    hide Translate, DirOk, ImageLoaded, StackMapped, UserPage, Untouched, UserEntry, Leftover, UserWord, FrameOf;
    hide Loadable;
    DirHas(m, p.pd);
    if UserPage(p.elf, vq) {
      assert Mine(w, m, p.pd, vq) && InFrame(m, p.pd, vq, p.plan.own[vq]);
    } else {
      assert vq / ENTRIES < KERNEL_DIR;
      WordDecides(w, m, p.pd, p.words, vq);
    }
  }

  lemma OwnBelow(elf: Elf, vq: nat)
    requires Loadable(elf) && UserPage(elf, vq)
    ensures vq < USER_PAGES
  {
    hide StackBase, InSegment, PageDisjoint;
    if vq != StackBase(elf) / PAGE {
      var t :| 0 <= t < |elf.phdrs| && InSegment(elf.phdrs[t], vq);
    }
  }

  /** A page that x says reaches f does reach f. */
  lemma ReachesFrame(w: Mem, m: Mem, kpd: nat, p: Proc, vq: nat, f: nat)
    requires Intact(w, m, kpd, p) && (OwnFrame(Before(p), vq, f) || LeftFrame(Before(p), vq, f))
    ensures vq < USER_PAGES && UserHit(m, p.pd, vq) && Translate(m, p.pd, vq).value.page == f
  {
    hide Intact, Leftover, UserPage, UserWord, FrameOf, Translate;
    if OwnFrame(Before(p), vq, f) {
      IntactOwn(w, m, kpd, p, vq);
      OwnBelow(p.elf, vq);
    }
    ReachOne(w, m, kpd, p, vq);
  }

  lemma IntactOwn(w: Mem, m: Mem, kpd: nat, p: Proc, vq: nat)
    requires Intact(w, m, kpd, p)
    ensures p.pd in m.tables && Loadable(p.elf) && (vq in p.plan.own <==> UserPage(p.elf, vq))
  {
    hide UserPage, Loadable, InPlace, Translate, ImageLoaded, StackMapped;
  }

  /** A process reaches exactly its own pages if and only if its tables were clean. */
  lemma ReachExactly(w: Mem, m: Mem, kpd: nat, p: Proc)
    requires Intact(w, m, kpd, p)
    ensures OnlyOwn(m, p) <==> Clean(Before(p))
  {
    hide Intact, Leftover, UserPage, UserHit, UserWord, OwnFrame, LeftFrame;
    var x := Before(p);
    forall vq: nat | vq < USER_PAGES
      ensures UserHit(m, p.pd, vq) <==> UserPage(p.elf, vq) || Stray(x, vq)
    {
      ReachOne(w, m, kpd, p, vq);
    }
    assert forall vq: nat :: Stray(x, vq) ==> vq < USER_PAGES && UserHit(m, p.pd, vq) && !UserPage(p.elf, vq);
  }

  // ------------------------------------------------------------------- sharing

  ghost predicate SameFrame(m: Mem, p: Proc, q: Proc, vq: nat, vr: nat) {
    && vq < USER_PAGES && vr < USER_PAGES && UserHit(m, p.pd, vq) && UserHit(m, q.pd, vr)
    && Translate(m, p.pd, vq).value.page == Translate(m, q.pd, vr).value.page
  }

  /** Some frame is reached from user mode by both. */
  ghost predicate Shares(m: Mem, p: Proc, q: Proc) {
    exists vq: nat, vr: nat :: SameFrame(m, p, q, vq, vr)
  }

  ghost predicate MeetAt(x: Prospect, y: Prospect, vq: nat, vr: nat, f: nat) {
    || (LeftFrame(x, vq, f) && OwnFrame(y, vr, f))
    || (OwnFrame(x, vq, f) && LeftFrame(y, vr, f))
    || (LeftFrame(x, vq, f) && LeftFrame(y, vr, f))
  }

  /** A word left for one names an own frame of the other, or both are left words
      that name the same frame. */
  ghost predicate Meets(x: Prospect, y: Prospect) {
    exists vq: nat, vr: nat, f: nat :: MeetAt(x, y, vq, vr, f)
  }

  /** Two processes share a frame if and only if their prospects met. */
  lemma SharesExactly(w: Mem, m: Mem, kpd: nat, p: Proc, q: Proc)
    requires Intact(w, m, kpd, p) && Intact(w, m, kpd, q) && Separate(m, p, q)
    ensures Shares(m, p, q) <==> Meets(Before(p), Before(q))
  {
    hide Intact, UserPage, Translate, OwnFrame, LeftFrame, Stray;
    if Shares(m, p, q) {
      var vq: nat, vr: nat :| SameFrame(m, p, q, vq, vr);
      ReachOne(w, m, kpd, p, vq);
      ReachOne(w, m, kpd, q, vr);
      assert MeetAt(Before(p), Before(q), vq, vr, Translate(m, p.pd, vq).value.page);
    }
    if Meets(Before(p), Before(q)) {
      var vq: nat, vr: nat, f: nat :| MeetAt(Before(p), Before(q), vq, vr, f);
      ReachesFrame(w, m, kpd, p, vq, f);
      ReachesFrame(w, m, kpd, q, vr, f);
      assert SameFrame(m, p, q, vq, vr);
    }
  }

  lemma CleanApart(x: Prospect, y: Prospect)
    ensures Clean(x) && Clean(y) ==> !Meets(x, y)
  {
    hide Stray;
  }

  // ---------------------------------------------------------- before the call

  /** create_process on memory m: the new process will reach exactly its own pages
      if and only if its prospect is clean; and it will share a frame with process p,
      already there, if and only if the two prospects meet. */
  lemma ReachBefore(z: Zone, w: Mem, m: Mem, left: Left, kpd: nat, elf: Elf, p: Proc)
    requires kpd in m.tables && World(z, m, AnyPmm(), kpd) && Loadable(elf) && Extends(w, m)
    requires CreateProcess(z, m, left, kpd, elf).Some? && Intact(w, m, kpd, p)
    ensures var made, x := CreateProcess(z, m, left, kpd, elf).value, Prospective(z, m, left, kpd, elf);
      var q := NewProc(z, m, left, kpd, elf, made);
      && (OnlyOwn(made.m, q) <==> Clean(x))
      && (Shares(made.m, p, q) <==> Meets(Before(p), x))
  {
    hide World, Loadable, CreateProcess, Intact, Extends, PlanOf, OnlyOwn, Clean, Shares, Meets, Separate;
    CreateIntact(z, m, left, kpd, elf);
    var made := CreateProcess(z, m, left, kpd, elf).value;
    var q := NewProc(z, m, left, kpd, elf, made);
    ReachExactly(m, made.m, kpd, q);
    NewIsSeparate(w, m, made.m, kpd, p, q);
    IntactStays(w, m, made.m, kpd, p);
    IntactBelow(w, m, made.m, kpd, q);
    SharesExactly(w, made.m, kpd, p, q);
  }

  // ---------------------------------------------------------------- over runs

  /** Process i of state k was planned before the step that created it. */
  lemma {:induction false} PlannedBefore(
    z: Zone, w: Mem, kpd: nat, steps: seq<Step>, states: seq<State>, k: nat, i: nat) returns (t: nat)
    requires Run(z, kpd, w, steps, states) && k < |states| && i < |states[k].procs|
    ensures t < k && steps[t].Create? && kpd in states[t].m.tables && |states[t].procs| == i
    ensures Before(states[k].procs[i]) == Prospective(z, states[t].m, steps[t].left, kpd, steps[t].elf)
  {
    hide CreateProcess, PlanOf, Loadable, Supply;
    assert k > 0;
    assert StepTo(z, kpd, states[k - 1], steps[k - 1], states[k]);
    if i < |states[k - 1].procs| {
      t := PlannedBefore(z, w, kpd, steps, states, k - 1, i);
    } else {
      t := k - 1;
    }
  }

  /** Each process reaches its own pages and no more if and only if its prospect was
      clean; two processes share a frame if and only if their prospects met; so while
      all tables handed out are clean, no two share. */
  ghost predicate Isolated(s: State) {
    var m, ps := s.m, s.procs;
    && (forall i :: 0 <= i < |ps| ==> (OnlyOwn(m, ps[i]) <==> Clean(Before(ps[i]))))
    && (forall i, j :: 0 <= i < j < |ps| ==> (Shares(m, ps[i], ps[j]) <==> Meets(Before(ps[i]), Before(ps[j]))))
    && ((forall i :: 0 <= i < |ps| ==> Clean(Before(ps[i]))) ==>
          forall i, j :: 0 <= i < j < |ps| ==> !Shares(m, ps[i], ps[j]))
  }

  /** That holds in every state of every run. */
  lemma IsolationExactly(z: Zone, w: Mem, kpd: nat, steps: seq<Step>, states: seq<State>, k: nat)
    requires World(z, w, AnyPmm(), kpd) && Run(z, kpd, w, steps, states) && k < |states|
    ensures Isolated(states[k])
  {
    hide World, AllIntact, Run, Isolated;
    ProcessesStayApart(z, w, kpd, steps, states, k);
    IntactIsolated(z, w, kpd, states[k]);
  }

  lemma IntactIsolated(z: Zone, w: Mem, kpd: nat, s: State)
    requires AllIntact(z, w, kpd, s)
    ensures Isolated(s)
  {
    hide World, Intact, Separate, Clean, OnlyOwn, Shares, Meets;
    var m, ps := s.m, s.procs;
    forall i | 0 <= i < |ps| ensures OnlyOwn(m, ps[i]) <==> Clean(Before(ps[i])) {
      ReachExactly(w, m, kpd, ps[i]);
    }
    forall i, j | 0 <= i < j < |ps|
      ensures Shares(m, ps[i], ps[j]) <==> Meets(Before(ps[i]), Before(ps[j]))
      ensures Clean(Before(ps[i])) && Clean(Before(ps[j])) ==> !Shares(m, ps[i], ps[j])
    {
      SharesExactly(w, m, kpd, ps[i], ps[j]);
      CleanApart(Before(ps[i]), Before(ps[j]));
    }
  }
}
