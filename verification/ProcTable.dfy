/** The process table and the scheduler hand-off, as a step system over any number of slots and
    CPUs.

    The process table lock belongs to a CPU. A process takes it, changes its own state, and
    switches to the scheduler of its CPU with the lock held; the scheduler releases it, or
    switches on to another process, which does. Creating a process writes its slot without the
    lock while the slot is EMBRYO. The fields `cpu` and `forker` of a slot, and what code a
    process is in (`pc`), are there to state the invariant; no test of the modelled code reads
    `cpu` or `forker`. */
module ProcTable {

  const NONE: int := -1
  /** The slot of the first process, which never exits. */
  const INIT: int := 0

  datatype ProcState = UNUSED | EMBRYO | SLEEPING | RUNNABLE | RUNNING | ZOMBIE

  /** What a process sleeps on: itself, in wait, or anything else. */
  datatype Chan = NoChan | Self(p: int) | Other(k: int)

  /** What a process does when it is resumed after sched. */
  datatype After = ThenRelease | ThenWait | Never

  datatype PC =
    | Out                                                // user or kernel code, without the lock
    // all the following with the lock held
    | ExitWake | ExitScan(i: int) | ExitLast
    | WaitScan(i: int, kids: bool) | WaitLast(kids: bool)
    | YieldSet | SleepSet(k: int)
    | WakeAll(k: int) | KillScan(q: int) | AllocScan | MakeRunnable(np: int)
    | Leaving                                            // about to release the lock
    | AtSched(after: After)                              // about to switch to the scheduler
    // on no CPU
    | Switched(next: After)

  /** A fork under way: the child's slot is taken, has a kernel stack, has its parent set. */
  datatype Fork = NoFork | Taken(np: int) | Stacked(np: int) | Parented(np: int)

  datatype Slot = Slot(state: ProcState, parent: int, chan: Chan, kstack: bool, killed: bool,
                       pc: PC, fork: Fork, cpu: int, forker: int)

  datatype Mode = InScheduler | InProc(p: int)

  datatype Cpu = Cpu(proc: int, mode: Mode)

  datatype State = State(lock: int, cpus: seq<Cpu>, slots: seq<Slot>)

  datatype Op = Exit | Wait | Yield | Sleep(k: int) | Wakeup(k: int) | Kill(q: int) | Fork | ForkEnd

  datatype Step =
    // the scheduler of CPU c
    | SchedAcquire(c: int) | SchedPick(c: int, p: int) | SchedClear(c: int) | SchedRelease(c: int)
    // the process on CPU c: takes the lock for an operation; takes its next step with the lock
    | Start(c: int, op: Op) | Go(c: int)
    // the process on CPU c, creating a process, without the lock
    | GotStack(c: int) | NoStack(c: int) | NoCopy(c: int) | SetParent(c: int)
    // an interrupt handler
    | Interrupt(k: int)

  // ---------- helpers ----------

  predicate IsSlot(s: State, p: int) {
    0 <= p < |s.slots|
  }

  predicate IsCpu(s: State, c: int) {
    0 <= c < |s.cpus|
  }

  /** The process that CPU c executes. */
  predicate Executes(s: State, c: int, p: int) {
    IsCpu(s, c) && IsSlot(s, p) && s.cpus[c].mode == InProc(p)
  }

  function Put(s: State, p: int, x: Slot): (s': State)
    requires IsSlot(s, p)
    ensures |s'.slots| == |s.slots| && s'.cpus == s.cpus && s'.lock == s.lock
  {
    s.(slots := s.slots[p := x])
  }

  /** A slot after wakeup1(chan). */
  function Woken(x: Slot, chan: Chan): (x': Slot) {
    if x.state == SLEEPING && x.chan == chan then x.(state := RUNNABLE) else x
  }

  /** wakeup1: every process asleep on chan becomes runnable. */
  function Wakeup1(slots: seq<Slot>, chan: Chan): (r: seq<Slot>)
    ensures |r| == |slots|
    ensures forall q {:trigger r[q]} :: 0 <= q < |slots| ==> r[q] == Woken(slots[q], chan)
  {
    seq(|slots|, q requires 0 <= q < |slots| => Woken(slots[q], chan))
  }

  predicate Alive(st: ProcState) {
    st.SLEEPING? || st.RUNNABLE? || st.RUNNING?
  }

  function Child(f: Fork): (np: int) {
    match f
    case NoFork => NONE
    case Taken(np) => np
    case Stacked(np) => np
    case Parented(np) => np
  }

  /** The child of the fork under way on CPU c. */
  function ChildOn(s: State, c: int): (np: int)
    requires IsCpu(s, c) && s.cpus[c].mode.InProc? && IsSlot(s, s.cpus[c].mode.p)
  {
    Child(s.slots[s.cpus[c].mode.p].fork)
  }

  function ForkedBy(s: State, c: int): (y: Slot)
    requires IsCpu(s, c) && s.cpus[c].mode.InProc? && IsSlot(s, s.cpus[c].mode.p) && IsSlot(s, ChildOn(s, c))
  {
    s.slots[ChildOn(s, c)]
  }

  // ---------- steps ----------

  predicate Enabled(s: State, st: Step) {
    match st
    case SchedAcquire(c) => IsCpu(s, c) && s.cpus[c].mode.InScheduler? && s.lock == NONE
    case SchedPick(c, p) =>
      && IsCpu(s, c) && IsSlot(s, p) && s.cpus[c] == Cpu(NONE, InScheduler) && s.lock == c
      && s.slots[p].state == RUNNABLE
    case SchedClear(c) => IsCpu(s, c) && s.cpus[c].mode.InScheduler? && s.lock == c && s.cpus[c].proc != NONE
    case SchedRelease(c) => IsCpu(s, c) && s.cpus[c] == Cpu(NONE, InScheduler) && s.lock == c
    case Start(c, op) =>
      IsCpu(s, c) && s.cpus[c].mode.InProc? && IsSlot(s, s.cpus[c].mode.p) && s.lock == NONE &&
          CanStart(s, s.cpus[c].mode.p, op)
    case Go(c) =>
      && IsCpu(s, c) && s.cpus[c].mode.InProc? && IsSlot(s, s.cpus[c].mode.p) && s.lock == c
      && CanGo(s, s.slots[s.cpus[c].mode.p])
    case GotStack(c) => CanFork(s, c) && s.slots[s.cpus[c].mode.p].fork.Taken?
    case NoStack(c) => CanFork(s, c) && s.slots[s.cpus[c].mode.p].fork.Taken?
    case NoCopy(c) => CanFork(s, c) && s.slots[s.cpus[c].mode.p].fork.Stacked?
    case SetParent(c) => CanFork(s, c) && s.slots[s.cpus[c].mode.p].fork.Stacked?
    case Interrupt(k) => s.lock == NONE
  }

  /** The process on CPU c runs without the lock and has a fork under way. */
  predicate CanFork(s: State, c: int) {
    && IsCpu(s, c) && s.cpus[c].mode.InProc? && IsSlot(s, s.cpus[c].mode.p)
    && s.slots[s.cpus[c].mode.p].pc.Out? && IsSlot(s, ChildOn(s, c))
    && ChildOn(s, c) != s.cpus[c].mode.p
  }

  /** exit of the first process panics. A process has one system call under way at a time, but a
      timer interrupt may make it yield, and device interrupts wake or kill, at any time. */
  predicate CanStart(s: State, p: int, op: Op)
    requires IsSlot(s, p)
  {
    && s.slots[p].pc.Out?
    && match op
       case Exit => p != INIT && s.slots[p].fork.NoFork?
       case Wait => s.slots[p].fork.NoFork?
       case Fork => s.slots[p].fork.NoFork?
       case ForkEnd => s.slots[p].fork.Parented?
       case _ => true
  }

  predicate CanGo(s: State, x: Slot) {
    match x.pc
    case Out => false
    case Switched(_) => false
    case ExitScan(i) => 0 <= i <= |s.slots|
    case WaitScan(i, _) => 0 <= i <= |s.slots|
    case MakeRunnable(np) => IsSlot(s, np)
    case _ => true
  }

  function Begin(s: State, c: int, p: int, op: Op): (s': State)
    requires IsSlot(s, p)
  {
    var x := s.slots[p];
    var pc := match op
      case Exit => ExitWake
      case Wait => WaitScan(0, false)
      case Yield => YieldSet
      case Sleep(k) => SleepSet(k)
      case Wakeup(k) => WakeAll(k)
      case Kill(q) => KillScan(q)
      case Fork => AllocScan
      case ForkEnd => MakeRunnable(Child(x.fork));
    Put(s, p, x.(pc := pc)).(lock := c)
  }

  /** The next step of process p, which holds the lock on CPU c. */
  function Next(s: State, c: int, p: int): (s': State)
    requires IsCpu(s, c) && IsSlot(s, p) && CanGo(s, s.slots[p])
  {
    var x := s.slots[p];
    match x.pc
    case ExitWake =>
      var w := s.(slots := Wakeup1(s.slots, Self(x.parent)));
      Put(w, p, w.slots[p].(pc := ExitScan(0)))
    case ExitScan(i) =>
      if i == |s.slots| then Put(s, p, x.(pc := ExitLast))
      else
        var a := Abandon(s, p, i);
        Put(a, p, a.slots[p].(pc := ExitScan(i + 1)))
    case ExitLast => Put(s, p, x.(state := ZOMBIE, pc := AtSched(Never)))
    case WaitScan(i, kids) =>
      if i == |s.slots| then Put(s, p, x.(pc := WaitLast(kids)))
      else if s.slots[i].parent != p then Put(s, p, x.(pc := WaitScan(i + 1, kids)))
      else if s.slots[i].state != ZOMBIE then Put(s, p, x.(pc := WaitScan(i + 1, true)))
      else Put(Put(s, i, Reaped(s.slots[i])), p, x.(pc := Leaving))
    case WaitLast(kids) =>
      if !kids || x.killed then Put(s, p, x.(pc := Leaving))
      else Put(s, p, x.(chan := Self(p), state := SLEEPING, pc := AtSched(ThenWait)))
    case YieldSet => Put(s, p, x.(state := RUNNABLE, pc := AtSched(ThenRelease)))
    case SleepSet(k) => Put(s, p, x.(chan := Other(k), state := SLEEPING, pc := AtSched(ThenRelease)))
    case WakeAll(k) =>
      var w := s.(slots := Wakeup1(s.slots, Other(k)));
      Put(w, p, w.slots[p].(pc := Leaving))
    case KillScan(q) =>
      if !IsSlot(s, q) then Put(s, p, x.(pc := Leaving))
      else
        var y := s.slots[q];
        var k := Put(s, q, y.(killed := true, state := if y.state == SLEEPING then RUNNABLE else y.state));
        Put(k, p, k.slots[p].(pc := Leaving))
    case AllocScan =>
      var np := FirstUnused(s.slots, 0);
      if np == NONE then Put(s, p, x.(pc := Leaving))
      else Put(Put(s, np, s.slots[np].(state := EMBRYO, forker := p)), p, x.(pc := Leaving, fork := Taken(np)))
    case MakeRunnable(np) =>
      Put(Put(s, np, s.slots[np].(state := RUNNABLE, forker := NONE)), p, x.(pc := Leaving, fork := NoFork))
    case Leaving => Put(s, p, x.(pc := Out)).(lock := NONE)
    case AtSched(after) => Put(s, p, x.(pc := Switched(after),
      cpu := NONE)).(cpus := s.cpus[c := s.cpus[c].(mode := InScheduler)])
  }

  function FirstUnused(slots: seq<Slot>, i: int): (np: int)
    requires 0 <= i <= |slots|
    ensures np == NONE || (i <= np < |slots| && slots[np].state == UNUSED)
    ensures np == NONE ==> forall j :: i <= j < |slots| ==> slots[j].state != UNUSED
    decreases |slots| - i
  {
    if i == |slots| then NONE else if slots[i].state == UNUSED then i else FirstUnused(slots, i + 1)
  }

  /** One slot of the loop that passes the children of p to the first process. */
  function Abandon(s: State, p: int, i: int): (s': State)
    requires IsSlot(s, i)
    ensures |s'.slots| == |s.slots| && s'.cpus == s.cpus && s'.lock == s.lock
  {
    var y := s.slots[i];
    if y.parent != p then s
    else
      var s1 := Put(s, i, y.(parent := INIT));
      if y.state == ZOMBIE then s1.(slots := Wakeup1(s1.slots, Self(INIT))) else s1
  }

  /** A zombie's slot after wait has freed its kernel stack and page table. */
  function Reaped(y: Slot): (y': Slot) {
    y.(kstack := false, parent := NONE, killed := false, state := UNUSED)
  }

  function Do(s: State, st: Step): (s': State)
    requires Enabled(s, st)
  {
    match st
    case SchedAcquire(c) => s.(lock := c)
    case SchedPick(c, p) => Resume(s, c, p)
    case SchedClear(c) => s.(cpus := s.cpus[c := s.cpus[c].(proc := NONE)])
    case SchedRelease(c) => s.(lock := NONE)
    case Start(c, op) => Begin(s, c, s.cpus[c].mode.p, op)
    case Go(c) => Next(s, c, s.cpus[c].mode.p)
    case GotStack(c) =>
      ForkStep(s, s.cpus[c].mode.p, ForkedBy(s, c).(kstack := true, pc := Switched(ThenRelease)),
          Stacked(ChildOn(s, c)))
    case NoStack(c) => ForkStep(s, s.cpus[c].mode.p, ForkedBy(s, c).(state := UNUSED, forker := NONE), NoFork)
    case NoCopy(c) =>
      ForkStep(s, s.cpus[c].mode.p, ForkedBy(s, c).(kstack := false, state := UNUSED, forker := NONE), NoFork)
    case SetParent(c) =>
      ForkStep(s, s.cpus[c].mode.p, ForkedBy(s, c).(parent := s.cpus[c].mode.p), Parented(ChildOn(s, c)))
    case Interrupt(k) => s.(slots := Wakeup1(s.slots, Other(k)))
  }

  /** A process in fork writes the slot of its child. */
  function ForkStep(s: State, p: int, y: Slot, f: Fork): (s': State)
    requires IsSlot(s, p) && IsSlot(s, Child(s.slots[p].fork))
  {
    var s1 := Put(s, Child(s.slots[p].fork), y);
    Put(s1, p, s1.slots[p].(fork := f))
  }

  /** The scheduler of CPU c switches to process p, which goes on where it called sched, still
      with the lock. */
  function Resume(s: State, c: int, p: int): (s': State)
    requires IsCpu(s, c) && IsSlot(s, p)
  {
    var x := s.slots[p];
    var wait := x.pc.Switched? && x.pc.next.ThenWait?;
    Put(s, p, x.(state := RUNNING, cpu := c, chan := NoChan, pc := if wait then WaitScan(0, false) else Leaving))
      .(cpus := s.cpus[c := Cpu(p, InProc(p))])
  }

  // ---------- the invariant ----------

  predicate AsleepInWait(y: Slot, p: int) {
    y.state == SLEEPING && y.chan == Self(p)
  }

  predicate Locked(pc: PC) {
    !pc.Out? && !pc.Switched?
  }

  predicate Exiting(pc: PC) {
    pc.ExitWake? || pc.ExitScan? || pc.ExitLast?
  }

  function AfterOf(pc: PC): (a: After) {
    match pc
    case AtSched(a) => a
    case Switched(a) => a
    case _ => ThenRelease
  }

  /** A process is on the CPU it says, and RUNNING, unless it is about to switch away. */
  predicate RunOk(x: Slot, p: int, lock: int, cpus: seq<Cpu>) {
    && (x.cpu == NONE <==> x.pc.Switched?)
    && (x.cpu != NONE ==> 0 <= x.cpu < |cpus| && cpus[x.cpu] == Cpu(p, InProc(p)))
    && (x.state == RUNNING ==> x.cpu != NONE)
    && (x.cpu != NONE && x.state != RUNNING ==> x.pc.AtSched?)
    && (x.pc.AtSched? ==> x.state == RUNNABLE || x.state == SLEEPING || x.state == ZOMBIE)
    && (Locked(x.pc) ==> lock == x.cpu)
  }

  /** What the fields of a slot say in each state. */
  predicate StateOk(x: Slot, p: int) {
    && (x.state == UNUSED ==> !x.kstack && x.parent == NONE)
    && (x.state == UNUSED || x.state == EMBRYO ==> x.pc.Switched? && x.fork.NoFork?)
    && (Alive(x.state) || x.state == ZOMBIE ==> x.kstack)
    && (x.state == ZOMBIE ==> p != INIT && x.fork.NoFork? && AfterOf(x.pc).Never?)
    && (Alive(x.state) ==> !AfterOf(x.pc).Never?)
    && (x.chan.Self? ==> x.chan.p == p)
    && (AsleepInWait(x, p) ==> AfterOf(x.pc).ThenWait?)
    && (Exiting(x.pc) ==> p != INIT && x.fork.NoFork?)
    && (p == INIT ==> Alive(x.state) && x.parent == NONE) && x.parent != p
    && (x.pc.MakeRunnable? ==> x.fork == Parented(x.pc.np)) && (x.pc.AllocScan? ==> x.fork.NoFork?)
    && (x.pc.WaitScan? ==> 0 <= x.pc.i) && (x.pc.ExitScan? ==> 0 <= x.pc.i)
  }

  /** The parent of a process is alive, and the parent of a zombie is not asleep in wait. */
  predicate ParentOk(slots: seq<Slot>, x: Slot) {
    x.parent != NONE ==>
      && 0 <= x.parent < |slots| && Alive(slots[x.parent].state)
      && (x.state == ZOMBIE ==> !AsleepInWait(slots[x.parent], x.parent))
  }

  /** The slot of a child under construction, as far as its parent has got. */
  predicate ChildOk(y: Slot, p: int, f: Fork) {
    && y.state == EMBRYO && y.forker == p
    && (f.Taken? ==> !y.kstack && y.parent == NONE)
    && (f.Stacked? ==> y.kstack && y.parent == NONE && y.pc == Switched(ThenRelease))
    && (f.Parented? ==> y.kstack && y.parent == p && y.pc == Switched(ThenRelease))
  }

  predicate ForkOk(slots: seq<Slot>, x: Slot, p: int) {
    && (!x.fork.NoFork? ==> 0 <= Child(x.fork) < |slots| && ChildOk(slots[Child(x.fork)], p, x.fork) && Alive(x.state))
    && (x.state == EMBRYO ==>
      0 <= x.forker < |slots| && !slots[x.forker].fork.NoFork? &&
      Child(slots[x.forker].fork) == p)
  }

  /** What a scan of the table has seen of slot j. */
  predicate SeenOk(x: Slot, p: int, y: Slot, j: int) {
    && ((x.pc.ExitScan? && j < x.pc.i) || x.pc.ExitLast? ==> y.parent != p)
    && ((x.pc.WaitScan? && j < x.pc.i) || x.pc.WaitLast? ==> y.parent == p ==> y.state != ZOMBIE)
    && ((x.pc.ExitScan? || x.pc.ExitLast?) && x.parent == j ==> !AsleepInWait(y, j))
  }

  /** What a CPU executes, it is recorded to execute, and between two processes only while its
      scheduler has the lock. */
  predicate CpuOk(s: State, c: int)
    requires IsCpu(s, c)
  {
    && (s.cpus[c].mode.InProc? ==>
          var p := s.cpus[c].mode.p;
          IsSlot(s, p) && s.slots[p].cpu == c && s.cpus[c].proc == p && (s.lock == c ==> !s.slots[p].pc.Out?))
    && (s.cpus[c].mode.InScheduler? && s.cpus[c].proc != NONE ==> s.lock == c)
  }

  predicate LocalOk(s: State, p: int)
    requires IsSlot(s, p)
  {
    RunOk(s.slots[p], p, s.lock, s.cpus) && StateOk(s.slots[p], p)
  }

  predicate LinkOk(s: State, p: int)
    requires IsSlot(s, p)
  {
    ParentOk(s.slots, s.slots[p]) && ForkOk(s.slots, s.slots[p], p)
  }

  predicate SlotOk(s: State, p: int)
    requires IsSlot(s, p)
  {
    LocalOk(s, p) && LinkOk(s, p)
  }

  predicate PairOk(s: State, p: int, j: int)
    requires IsSlot(s, p) && IsSlot(s, j)
  {
    SeenOk(s.slots[p], p, s.slots[j], j)
  }

  ghost predicate Inv(s: State) {
    && (s.lock == NONE || IsCpu(s, s.lock)) && IsSlot(s, INIT)
    && (forall c {:trigger CpuOk(s, c)} :: IsCpu(s, c) ==> CpuOk(s, c))
    && (forall p {:trigger SlotOk(s, p)} :: IsSlot(s, p) ==> SlotOk(s, p))
    && (forall p, j {:trigger PairOk(s, p, j)} :: IsSlot(s, p) && IsSlot(s, j) ==> PairOk(s, p, j))
  }

  /** The scheduler's own steps. */
  lemma SchedStepOk(s: State, st: Step, q: int)
    requires Inv(s) && Enabled(s, st) && IsSlot(s, q)
    requires st.SchedAcquire? || st.SchedClear? || st.SchedRelease?
    ensures SlotOk(Do(s, st), q)
  {
    assert SlotOk(s, q);
    assert CpuOk(s, st.c);
  }

  lemma ResumeOk(s: State, c: int, p: int, q: int)
    requires Inv(s) && Enabled(s, SchedPick(c, p)) && IsSlot(s, q)
    ensures SlotOk(Resume(s, c, p), q)
  {
    assert SlotOk(s, q) && SlotOk(s, p) && CpuOk(s, c);
  }

  lemma BeginOk(s: State, c: int, op: Op, q: int)
    requires Inv(s) && Enabled(s, Start(c, op)) && IsSlot(s, q)
    ensures SlotOk(Do(s, Start(c, op)), q)
  {
    assert CpuOk(s, c) && SlotOk(s, q) && SlotOk(s, s.cpus[c].mode.p);
  }

  lemma InterruptOk(s: State, k: int, q: int)
    requires Inv(s) && IsSlot(s, q)
    ensures SlotOk(s.(slots := Wakeup1(s.slots, Other(k))), q)
  {
    assert SlotOk(s, q);
  }

  /** The process on CPU c has the lock and can take its next step. */
  predicate Holder(s: State, c: int, p: int) {
    Executes(s, c, p) && s.lock == c && CanGo(s, s.slots[p])
  }

  lemma GotStackLocal(s: State, c: int, q: int)
    requires Inv(s) && Enabled(s, GotStack(c)) && IsSlot(s, q)
    ensures LocalOk(Do(s, GotStack(c)), q)
  {
    var p := s.cpus[c].mode.p;
    assert CpuOk(s, c) && SlotOk(s, q) && SlotOk(s, p) && SlotOk(s, Child(s.slots[p].fork));
  }

  lemma GotStackLink(s: State, c: int, q: int)
    requires Inv(s) && Enabled(s, GotStack(c)) && IsSlot(s, q)
    ensures LinkOk(Do(s, GotStack(c)), q)
  {
    var p := s.cpus[c].mode.p;
    assert CpuOk(s, c) && SlotOk(s, q) && SlotOk(s, p) && SlotOk(s, Child(s.slots[p].fork));
  }

  lemma NoStackLocal(s: State, c: int, q: int)
    requires Inv(s) && Enabled(s, NoStack(c)) && IsSlot(s, q)
    ensures LocalOk(Do(s, NoStack(c)), q)
  {
    var p := s.cpus[c].mode.p;
    assert CpuOk(s, c) && SlotOk(s, q) && SlotOk(s, p) && SlotOk(s, Child(s.slots[p].fork));
  }

  lemma NoStackLink(s: State, c: int, q: int)
    requires Inv(s) && Enabled(s, NoStack(c)) && IsSlot(s, q)
    ensures LinkOk(Do(s, NoStack(c)), q)
  {
    var p := s.cpus[c].mode.p;
    assert CpuOk(s, c) && SlotOk(s, q) && SlotOk(s, p) && SlotOk(s, Child(s.slots[p].fork));
  }

  lemma NoCopyLocal(s: State, c: int, q: int)
    requires Inv(s) && Enabled(s, NoCopy(c)) && IsSlot(s, q)
    ensures LocalOk(Do(s, NoCopy(c)), q)
  {
    var p := s.cpus[c].mode.p;
    assert CpuOk(s, c) && SlotOk(s, q) && SlotOk(s, p) && SlotOk(s, Child(s.slots[p].fork));
  }

  lemma NoCopyLink(s: State, c: int, q: int)
    requires Inv(s) && Enabled(s, NoCopy(c)) && IsSlot(s, q)
    ensures LinkOk(Do(s, NoCopy(c)), q)
  {
    var p := s.cpus[c].mode.p;
    assert CpuOk(s, c) && SlotOk(s, q) && SlotOk(s, p) && SlotOk(s, Child(s.slots[p].fork));
  }

  lemma SetParentLocal(s: State, c: int, q: int)
    requires Inv(s) && Enabled(s, SetParent(c)) && IsSlot(s, q)
    ensures LocalOk(Do(s, SetParent(c)), q)
  {
    var p := s.cpus[c].mode.p;
    assert CpuOk(s, c) && SlotOk(s, q) && SlotOk(s, p) && SlotOk(s, Child(s.slots[p].fork));
  }

  lemma SetParentLink(s: State, c: int, q: int)
    requires Inv(s) && Enabled(s, SetParent(c)) && IsSlot(s, q)
    ensures LinkOk(Do(s, SetParent(c)), q)
  {
    var p := s.cpus[c].mode.p;
    assert CpuOk(s, c) && SlotOk(s, q) && SlotOk(s, p) && SlotOk(s, Child(s.slots[p].fork));
  }

  lemma ExitWakeLocal(s: State, c: int, p: int, q: int)
    requires Inv(s) && Holder(s, c, p) && IsSlot(s, q)
    requires var pc := s.slots[p].pc; pc.ExitWake?
    ensures LocalOk(Next(s, c, p), q)
  {
    assert CpuOk(s, c) && SlotOk(s, p) && SlotOk(s, q);
  }

  lemma ExitWakeLink(s: State, c: int, p: int, q: int)
    requires Inv(s) && Holder(s, c, p) && IsSlot(s, q)
    requires var pc := s.slots[p].pc; pc.ExitWake?
    ensures LinkOk(Next(s, c, p), q)
  {
    assert CpuOk(s, c) && SlotOk(s, p) && SlotOk(s, q);
  }

  lemma ReparentOk(s: State, p: int, i: int, q: int)
    requires Inv(s) && IsSlot(s, p) && IsSlot(s, i) && IsSlot(s, q)
    requires s.slots[i].parent == p && s.slots[p].fork.NoFork?
    ensures var s' := Put(s, i, s.slots[i].(parent := INIT));
      LocalOk(s', q) && ForkOk(s'.slots, s'.slots[q], q)
    ensures var s' := Put(s, i, s.slots[i].(parent := INIT));
      q != i || s.slots[i].state != ZOMBIE ==> ParentOk(s'.slots, s'.slots[q])
  {
    assert SlotOk(s, q) && SlotOk(s, i) && SlotOk(s, INIT);
    assert s.slots[i].state == EMBRYO ==> SlotOk(s, s.slots[i].forker);
    assert !s.slots[q].fork.NoFork? && Child(s.slots[q].fork) == i ==> SlotOk(s, q);
  }

  lemma AbandonOk(s: State, p: int, i: int, q: int)
    requires Inv(s) && IsSlot(s, p) && IsSlot(s, i) && IsSlot(s, q) && s.slots[p].fork.NoFork? && Exiting(s.slots[p].pc)
    ensures SlotOk(Abandon(s, p, i), q) && Abandon(s, p, i).slots[p].state != EMBRYO
  {
    assert SlotOk(s, q) && SlotOk(s, p);
    if s.slots[i].parent == p {
      var s1 := Put(s, i, s.slots[i].(parent := INIT));
      ReparentOk(s, p, i, q);
      if s.slots[i].state == ZOMBIE {
        WakeReparented(s, p, i, q);
      }
    }
  }

  lemma WakeReparented(s: State, p: int, i: int, q: int)
    requires Inv(s) && IsSlot(s, p) && IsSlot(s, i) && IsSlot(s, q) && s.slots[i].parent == p &&
      s.slots[i].state == ZOMBIE
    requires var s1 := Put(s, i, s.slots[i].(parent := INIT));
      LocalOk(s1, q) && ForkOk(s1.slots, s1.slots[q], q) && (q != i ==> ParentOk(s1.slots, s1.slots[q]))
    ensures var s1 := Put(s, i, s.slots[i].(parent := INIT));
      SlotOk(s1.(slots := Wakeup1(s1.slots, Self(INIT))), q)
  {
    assert SlotOk(s, INIT);
  }

  lemma MovePcOk(s: State, p: int, pc: PC, q: int)
    requires IsSlot(s, p) && IsSlot(s, q) && SlotOk(s, p) && SlotOk(s, q) && s.slots[p].state != EMBRYO
    requires Exiting(s.slots[p].pc) && (pc == ExitLast || (pc.ExitScan? && 0 <= pc.i))
    ensures SlotOk(Put(s, p, s.slots[p].(pc := pc)), q)
  {
  }

  lemma ExitScanOk(s: State, c: int, p: int, q: int)
    requires Inv(s) && Holder(s, c, p) && IsSlot(s, q) && s.slots[p].pc.ExitScan?
    ensures SlotOk(Next(s, c, p), q)
  {
    assert SlotOk(s, p) && SlotOk(s, q);
    var i := s.slots[p].pc.i;
    if i == |s.slots| {
      MovePcOk(s, p, ExitLast, q);
    } else {
      AbandonOk(s, p, i, p);
      AbandonOk(s, p, i, q);
      MovePcOk(Abandon(s, p, i), p, ExitScan(i + 1), q);
    }
  }

  lemma ExitLastLocal(s: State, c: int, p: int, q: int)
    requires Inv(s) && Holder(s, c, p) && IsSlot(s, q)
    requires var pc := s.slots[p].pc; pc.ExitLast?
    ensures LocalOk(Next(s, c, p), q)
  {
    assert CpuOk(s, c) && SlotOk(s, p) && SlotOk(s, q);
    assert PairOk(s, p, q);
    assert s.slots[p].parent != NONE ==> PairOk(s, p, s.slots[p].parent);
  }

  lemma ExitLastLink(s: State, c: int, p: int, q: int)
    requires Inv(s) && Holder(s, c, p) && IsSlot(s, q)
    requires var pc := s.slots[p].pc; pc.ExitLast?
    ensures LinkOk(Next(s, c, p), q)
  {
    assert CpuOk(s, c) && SlotOk(s, p) && SlotOk(s, q);
    assert PairOk(s, p, q);
    assert s.slots[p].parent != NONE ==> PairOk(s, p, s.slots[p].parent);
  }

  lemma WaitScanLocal(s: State, c: int, p: int, q: int)
    requires Inv(s) && Holder(s, c, p) && IsSlot(s, q)
    requires var pc := s.slots[p].pc; pc.WaitScan?
    ensures LocalOk(Next(s, c, p), q)
  {
    assert CpuOk(s, c) && SlotOk(s, p) && SlotOk(s, q);
    assert s.slots[p].pc.i < |s.slots| ==> SlotOk(s, s.slots[p].pc.i);
  }

  lemma WaitScanLink(s: State, c: int, p: int, q: int)
    requires Inv(s) && Holder(s, c, p) && IsSlot(s, q)
    requires var pc := s.slots[p].pc; pc.WaitScan?
    ensures LinkOk(Next(s, c, p), q)
  {
    assert CpuOk(s, c) && SlotOk(s, p) && SlotOk(s, q);
    assert s.slots[p].pc.i < |s.slots| ==> SlotOk(s, s.slots[p].pc.i);
  }

  lemma WaitLastLocal(s: State, c: int, p: int, q: int)
    requires Inv(s) && Holder(s, c, p) && IsSlot(s, q)
    requires var pc := s.slots[p].pc; pc.WaitLast?
    ensures LocalOk(Next(s, c, p), q)
  {
    assert CpuOk(s, c) && SlotOk(s, p) && SlotOk(s, q);
    assert PairOk(s, p, q);
  }

  lemma WaitLastLink(s: State, c: int, p: int, q: int)
    requires Inv(s) && Holder(s, c, p) && IsSlot(s, q)
    requires var pc := s.slots[p].pc; pc.WaitLast?
    ensures LinkOk(Next(s, c, p), q)
  {
    assert CpuOk(s, c) && SlotOk(s, p) && SlotOk(s, q);
    assert PairOk(s, p, q);
  }

  lemma PauseLocal(s: State, c: int, p: int, q: int)
    requires Inv(s) && Holder(s, c, p) && IsSlot(s, q)
    requires var pc := s.slots[p].pc; pc.YieldSet? || pc.SleepSet?
    ensures LocalOk(Next(s, c, p), q)
  {
    assert CpuOk(s, c) && SlotOk(s, p) && SlotOk(s, q);
  }

  lemma PauseLink(s: State, c: int, p: int, q: int)
    requires Inv(s) && Holder(s, c, p) && IsSlot(s, q)
    requires var pc := s.slots[p].pc; pc.YieldSet? || pc.SleepSet?
    ensures LinkOk(Next(s, c, p), q)
  {
    assert CpuOk(s, c) && SlotOk(s, p) && SlotOk(s, q);
  }

  lemma WakeAllLocal(s: State, c: int, p: int, q: int)
    requires Inv(s) && Holder(s, c, p) && IsSlot(s, q)
    requires var pc := s.slots[p].pc; pc.WakeAll?
    ensures LocalOk(Next(s, c, p), q)
  {
    assert CpuOk(s, c) && SlotOk(s, p) && SlotOk(s, q);
  }

  lemma WakeAllLink(s: State, c: int, p: int, q: int)
    requires Inv(s) && Holder(s, c, p) && IsSlot(s, q)
    requires var pc := s.slots[p].pc; pc.WakeAll?
    ensures LinkOk(Next(s, c, p), q)
  {
    assert CpuOk(s, c) && SlotOk(s, p) && SlotOk(s, q);
  }

  lemma KillScanLocal(s: State, c: int, p: int, q: int)
    requires Inv(s) && Holder(s, c, p) && IsSlot(s, q)
    requires var pc := s.slots[p].pc; pc.KillScan?
    ensures LocalOk(Next(s, c, p), q)
  {
    assert CpuOk(s, c) && SlotOk(s, p) && SlotOk(s, q);
    assert IsSlot(s, s.slots[p].pc.q) ==> SlotOk(s, s.slots[p].pc.q);
  }

  lemma KillScanLink(s: State, c: int, p: int, q: int)
    requires Inv(s) && Holder(s, c, p) && IsSlot(s, q)
    requires var pc := s.slots[p].pc; pc.KillScan?
    ensures LinkOk(Next(s, c, p), q)
  {
    assert CpuOk(s, c) && SlotOk(s, p) && SlotOk(s, q);
    assert IsSlot(s, s.slots[p].pc.q) ==> SlotOk(s, s.slots[p].pc.q);
  }

  lemma AllocScanLocal(s: State, c: int, p: int, q: int)
    requires Inv(s) && Holder(s, c, p) && IsSlot(s, q)
    requires var pc := s.slots[p].pc; pc.AllocScan?
    ensures LocalOk(Next(s, c, p), q)
  {
    assert CpuOk(s, c) && SlotOk(s, p) && SlotOk(s, q);
    var np := FirstUnused(s.slots, 0);
    assert np != NONE ==> SlotOk(s, np);
  }

  lemma AllocScanLink(s: State, c: int, p: int, q: int)
    requires Inv(s) && Holder(s, c, p) && IsSlot(s, q)
    requires var pc := s.slots[p].pc; pc.AllocScan?
    ensures LinkOk(Next(s, c, p), q)
  {
    assert CpuOk(s, c) && SlotOk(s, p) && SlotOk(s, q);
    var np := FirstUnused(s.slots, 0);
    assert np != NONE ==> SlotOk(s, np);
  }

  lemma MakeRunnableLocal(s: State, c: int, p: int, q: int)
    requires Inv(s) && Holder(s, c, p) && IsSlot(s, q)
    requires var pc := s.slots[p].pc; pc.MakeRunnable?
    ensures LocalOk(Next(s, c, p), q)
  {
    assert CpuOk(s, c) && SlotOk(s, p) && SlotOk(s, q);
  }

  lemma MakeRunnableLink(s: State, c: int, p: int, q: int)
    requires Inv(s) && Holder(s, c, p) && IsSlot(s, q)
    requires var pc := s.slots[p].pc; pc.MakeRunnable?
    ensures LinkOk(Next(s, c, p), q)
  {
    assert CpuOk(s, c) && SlotOk(s, p) && SlotOk(s, q);
  }

  lemma LeavingLocal(s: State, c: int, p: int, q: int)
    requires Inv(s) && Holder(s, c, p) && IsSlot(s, q)
    requires var pc := s.slots[p].pc; pc.Leaving?
    ensures LocalOk(Next(s, c, p), q)
  {
    assert CpuOk(s, c) && SlotOk(s, p) && SlotOk(s, q);
  }

  lemma LeavingLink(s: State, c: int, p: int, q: int)
    requires Inv(s) && Holder(s, c, p) && IsSlot(s, q)
    requires var pc := s.slots[p].pc; pc.Leaving?
    ensures LinkOk(Next(s, c, p), q)
  {
    assert CpuOk(s, c) && SlotOk(s, p) && SlotOk(s, q);
  }

  lemma AtSchedLocal(s: State, c: int, p: int, q: int)
    requires Inv(s) && Holder(s, c, p) && IsSlot(s, q)
    requires var pc := s.slots[p].pc; pc.AtSched?
    ensures LocalOk(Next(s, c, p), q)
  {
    assert CpuOk(s, c) && SlotOk(s, p) && SlotOk(s, q);
  }

  lemma AtSchedLink(s: State, c: int, p: int, q: int)
    requires Inv(s) && Holder(s, c, p) && IsSlot(s, q)
    requires var pc := s.slots[p].pc; pc.AtSched?
    ensures LinkOk(Next(s, c, p), q)
  {
    assert CpuOk(s, c) && SlotOk(s, p) && SlotOk(s, q);
  }
  // ---------- the CPUs ----------

  lemma SchedCpu(s: State, st: Step, d: int)
    requires Inv(s) && Enabled(s, st) && IsCpu(s, d)
    requires st.SchedAcquire? || st.SchedClear? || st.SchedRelease? || st.SchedPick? || st.Interrupt?
    ensures |Do(s, st).cpus| == |s.cpus| && CpuOk(Do(s, st), d)
  {
    assert CpuOk(s, d);
    if !st.Interrupt? {
      assert CpuOk(s, st.c);
    }
    if st.SchedPick? {
      assert SlotOk(s, st.p);
    }
  }

  lemma BeginCpu(s: State, c: int, op: Op, d: int)
    requires Inv(s) && Enabled(s, Start(c, op)) && IsCpu(s, d)
    ensures CpuOk(Do(s, Start(c, op)), d)
  {
    assert CpuOk(s, d) && CpuOk(s, c);
  }

  lemma ForkCpu(s: State, st: Step, d: int)
    requires Inv(s) && Enabled(s, st) && IsCpu(s, d) && (st.GotStack? || st.NoStack? || st.NoCopy? || st.SetParent?)
    ensures CpuOk(Do(s, st), d)
  {
    assert CpuOk(s, d) && CpuOk(s, st.c) && SlotOk(s, s.cpus[st.c].mode.p);
    var np := Child(s.slots[s.cpus[st.c].mode.p].fork);
    assert SlotOk(s, np);
  }

  /** A step under the lock that leaves the CPUs alone moves no process off its CPU. */
  lemma NextSame(s: State, c: int, p: int, q: int)
    requires Holder(s, c, p) && IsSlot(s, q) && !s.slots[p].pc.AtSched? && !s.slots[p].pc.Leaving?
    ensures Next(s, c, p).lock == s.lock && Next(s, c, p).cpus == s.cpus && |Next(s, c, p).slots| == |s.slots|
    ensures Next(s, c, p).slots[q].cpu == s.slots[q].cpu
    ensures q != p ==> Next(s, c, p).slots[q].pc == s.slots[q].pc
    ensures Locked(Next(s, c, p).slots[p].pc)
  {
    if s.slots[p].pc.ExitScan? && s.slots[p].pc.i < |s.slots| {
      AbandonSame(s, p, s.slots[p].pc.i, q);
    }
  }

  lemma AbandonSame(s: State, p: int, i: int, q: int)
    requires IsSlot(s, i) && IsSlot(s, q)
    ensures Abandon(s, p, i).slots[q].cpu == s.slots[q].cpu && Abandon(s, p, i).slots[q].pc == s.slots[q].pc
  {
  }

  lemma NextCpu(s: State, c: int, p: int, d: int, s': State)
    requires Inv(s) && Holder(s, c, p) && IsCpu(s, d) && s'.lock == s.lock && s'.cpus == s.cpus &&
      |s'.slots| == |s.slots|
    requires forall q :: IsSlot(s, q) ==>
      s'.slots[q].cpu == s.slots[q].cpu &&
      (q != p ==> s'.slots[q].pc == s.slots[q].pc)
    requires Locked(s'.slots[p].pc)
    ensures CpuOk(s', d)
  {
    assert CpuOk(s, d) && CpuOk(s, c);
  }

  lemma LastCpu(s: State, c: int, p: int, d: int)
    requires Inv(s) && Holder(s, c, p) && IsCpu(s, d) && (s.slots[p].pc.AtSched? || s.slots[p].pc.Leaving?)
    ensures |Next(s, c, p).cpus| == |s.cpus| && CpuOk(Next(s, c, p), d)
  {
    assert CpuOk(s, d) && CpuOk(s, c);
  }

  // ---------- the scans ----------

  /** No process holds the lock when it is free or a scheduler has it. */
  lemma NobodyScans(s: State, a: int)
    requires Inv(s) && IsSlot(s, a)
    requires s.lock == NONE || (IsCpu(s, s.lock) && s.cpus[s.lock].mode.InScheduler?)
    ensures !Locked(s.slots[a].pc)
  {
    assert SlotOk(s, a);
  }

  lemma ForkPair(s: State, st: Step, a: int, j: int)
    requires Inv(s) && Enabled(s, st) && IsSlot(s, a) && IsSlot(s, j) &&
      (st.GotStack? || st.NoStack? || st.NoCopy? || st.SetParent?)
    ensures PairOk(Do(s, st), a, j)
  {
    var p := s.cpus[st.c].mode.p;
    assert PairOk(s, a, j) && SlotOk(s, p) && SlotOk(s, Child(s.slots[p].fork));
  }

  lemma ExitPair(s: State, c: int, p: int, j: int)
    requires Inv(s) && Holder(s, c, p) && IsSlot(s, j) && (s.slots[p].pc.ExitWake? || s.slots[p].pc.ExitScan?)
    ensures |Next(s, c, p).slots| == |s.slots| && PairOk(Next(s, c, p), p, j)
  {
    assert PairOk(s, p, j) && SlotOk(s, p) && SlotOk(s, j);
  }

  lemma WaitPair(s: State, c: int, p: int, j: int)
    requires Inv(s) && Holder(s, c, p) && IsSlot(s, j) && s.slots[p].pc.WaitScan?
    ensures |Next(s, c, p).slots| == |s.slots| && PairOk(Next(s, c, p), p, j)
  {
    assert PairOk(s, p, j) && SlotOk(s, p);
  }

  lemma RestPair(s: State, c: int, p: int, j: int)
    requires Inv(s) && Holder(s, c, p) && IsSlot(s, j)
    requires var pc := s.slots[p].pc; !pc.ExitWake? && !pc.ExitScan? && !pc.WaitScan?
    ensures |Next(s, c, p).slots| == |s.slots| && PairOk(Next(s, c, p), p, j)
  {
  }

  // ---------- every step keeps the invariant ----------

  lemma GoSlot(s: State, c: int, p: int, q: int)
    requires Inv(s) && Holder(s, c, p) && IsSlot(s, q)
    ensures IsSlot(Next(s, c, p), q) && SlotOk(Next(s, c, p), q)
  {
    match s.slots[p].pc
    case ExitScan(_) => ExitScanOk(s, c, p, q);
    case YieldSet => PauseLocal(s, c, p, q); PauseLink(s, c, p, q);
    case SleepSet(_) => PauseLocal(s, c, p, q); PauseLink(s, c, p, q);
    case ExitWake => ExitWakeLocal(s, c, p, q); ExitWakeLink(s, c, p, q);
    case ExitLast => ExitLastLocal(s, c, p, q); ExitLastLink(s, c, p, q);
    case WaitScan(_, _) => WaitScanLocal(s, c, p, q); WaitScanLink(s, c, p, q);
    case WaitLast(_) => WaitLastLocal(s, c, p, q); WaitLastLink(s, c, p, q);
    case WakeAll(_) => WakeAllLocal(s, c, p, q); WakeAllLink(s, c, p, q);
    case KillScan(_) => KillScanLocal(s, c, p, q); KillScanLink(s, c, p, q);
    case AllocScan => AllocScanLocal(s, c, p, q); AllocScanLink(s, c, p, q);
    case MakeRunnable(_) => MakeRunnableLocal(s, c, p, q); MakeRunnableLink(s, c, p, q);
    case Leaving => LeavingLocal(s, c, p, q); LeavingLink(s, c, p, q);
    case AtSched(_) => AtSchedLocal(s, c, p, q); AtSchedLink(s, c, p, q);
  }

  lemma SlotStep(s: State, st: Step, q: int)
    requires Inv(s) && Enabled(s, st) && IsSlot(s, q)
    ensures IsSlot(Do(s, st), q) && SlotOk(Do(s, st), q)
  {
    match st
    case SchedPick(c, p) => ResumeOk(s, c, p, q);
    case Start(c, op) => BeginOk(s, c, op, q);
    case Go(c) => GoSlot(s, c, s.cpus[c].mode.p, q);
    case GotStack(c) => GotStackLocal(s, c, q); GotStackLink(s, c, q);
    case NoStack(c) => NoStackLocal(s, c, q); NoStackLink(s, c, q);
    case NoCopy(c) => NoCopyLocal(s, c, q); NoCopyLink(s, c, q);
    case SetParent(c) => SetParentLocal(s, c, q); SetParentLink(s, c, q);
    case Interrupt(k) => InterruptOk(s, k, q);
    case _ => SchedStepOk(s, st, q);
  }

  lemma GoCpu(s: State, c: int, p: int, d: int)
    requires Inv(s) && Holder(s, c, p) && IsCpu(s, d)
    ensures IsCpu(Next(s, c, p), d) && CpuOk(Next(s, c, p), d)
  {
    if s.slots[p].pc.AtSched? || s.slots[p].pc.Leaving? {
      LastCpu(s, c, p, d);
    } else {
      forall q | IsSlot(s, q)
        ensures Next(s, c, p).slots[q].cpu == s.slots[q].cpu && (q != p ==> Next(s, c, p).slots[q].pc == s.slots[q].pc)
        ensures Next(s, c, p).lock == s.lock && Next(s, c, p).cpus == s.cpus && |Next(s, c, p).slots| == |s.slots|
      {
        NextSame(s, c, p, q);
      }
      NextSame(s, c, p, p);
      NextCpu(s, c, p, d, Next(s, c, p));
    }
  }

  lemma CpuStep(s: State, st: Step, d: int)
    requires Inv(s) && Enabled(s, st) && IsCpu(s, d)
    ensures IsCpu(Do(s, st), d) && CpuOk(Do(s, st), d)
  {
    match st
    case Start(c, op) => BeginCpu(s, c, op, d);
    case Go(c) => GoCpu(s, c, s.cpus[c].mode.p, d);
    case GotStack(_) => ForkCpu(s, st, d);
    case NoStack(_) => ForkCpu(s, st, d);
    case NoCopy(_) => ForkCpu(s, st, d);
    case SetParent(_) => ForkCpu(s, st, d);
    case _ => SchedCpu(s, st, d);
  }

  lemma GoPair(s: State, c: int, p: int, a: int, j: int)
    requires Inv(s) && Holder(s, c, p) && IsSlot(s, a) && IsSlot(s, j)
    ensures IsSlot(Next(s, c, p), a) && IsSlot(Next(s, c, p), j) && PairOk(Next(s, c, p), a, j)
  {
    if a == p {
      var pc := s.slots[p].pc;
      if pc.ExitWake? || pc.ExitScan? {
        ExitPair(s, c, p, j);
      } else if pc.WaitScan? {
        WaitPair(s, c, p, j);
      } else {
        RestPair(s, c, p, j);
      }
    } else {
      OtherPair(s, c, p, a);
    }
  }

  lemma OtherPair(s: State, c: int, p: int, a: int)
    requires Inv(s) && Holder(s, c, p) && IsSlot(s, a) && a != p
    ensures |Next(s, c, p).slots| == |s.slots| && !Locked(Next(s, c, p).slots[a].pc)
  {
    assert !Locked(s.slots[a].pc) by {
      assert SlotOk(s, a);
    }
    if !s.slots[p].pc.AtSched? && !s.slots[p].pc.Leaving? {
      NextSame(s, c, p, a);
    }
  }

  lemma FreePair(s: State, st: Step, a: int, j: int)
    requires Inv(s) && Enabled(s, st) && IsSlot(s, a) && IsSlot(s, j)
    requires st.SchedAcquire? || st.SchedPick? || st.SchedClear? || st.SchedRelease? || st.Start? || st.Interrupt?
    ensures IsSlot(Do(s, st), a) && IsSlot(Do(s, st), j) && PairOk(Do(s, st), a, j)
  {
    NobodyScans(s, a);
  }

  lemma PairStep(s: State, st: Step, a: int, j: int)
    requires Inv(s) && Enabled(s, st) && IsSlot(s, a) && IsSlot(s, j)
    ensures IsSlot(Do(s, st), a) && IsSlot(Do(s, st), j) && PairOk(Do(s, st), a, j)
  {
    match st
    case Go(c) => GoPair(s, c, s.cpus[c].mode.p, a, j);
    case GotStack(_) => ForkPair(s, st, a, j);
    case NoStack(_) => ForkPair(s, st, a, j);
    case NoCopy(_) => ForkPair(s, st, a, j);
    case SetParent(_) => ForkPair(s, st, a, j);
    case _ => FreePair(s, st, a, j);
  }

  lemma SameSize(s: State, st: Step)
    requires Enabled(s, st)
    ensures |Do(s, st).slots| == |s.slots| && |Do(s, st).cpus| == |s.cpus|
    ensures Do(s, st).lock == s.lock || Do(s, st).lock == NONE || IsCpu(s, Do(s, st).lock)
  {
  }

  lemma AllOk(s: State, st: Step, s': State)
    requires Inv(s) && Enabled(s, st) && s' == Do(s, st) && |s'.slots| == |s.slots| && |s'.cpus| == |s.cpus|
    ensures forall c {:trigger CpuOk(s', c)} :: IsCpu(s', c) ==> CpuOk(s', c)
    ensures forall p {:trigger SlotOk(s', p)} :: IsSlot(s', p) ==> SlotOk(s', p)
    ensures forall p, j {:trigger PairOk(s', p, j)} :: IsSlot(s', p) && IsSlot(s', j) ==> PairOk(s', p, j)
  {
    forall c | IsCpu(s', c)
      ensures CpuOk(s', c)
    {
      CpuStep(s, st, c);
    }
    forall p | IsSlot(s', p)
      ensures SlotOk(s', p)
    {
      SlotStep(s, st, p);
    }
    forall p, j | IsSlot(s', p) && IsSlot(s', j)
      ensures PairOk(s', p, j)
    {
      PairStep(s, st, p, j);
    }
  }

  lemma StepInv(s: State, st: Step)
    requires Inv(s) && Enabled(s, st)
    ensures Inv(Do(s, st))
  {
    SameSize(s, st);
    AllOk(s, st, Do(s, st));
  }

  // ---------- runs ----------

  ghost predicate Init(s: State) {
    && s.lock == NONE && IsSlot(s, INIT)
    && (forall c :: IsCpu(s, c) ==> s.cpus[c] == Cpu(NONE, InScheduler))
    && forall p :: IsSlot(s, p) ==>
         s.slots[p] == Slot(if p == INIT then RUNNABLE else UNUSED, NONE, NoChan, p == INIT, false,
                            Switched(ThenRelease), NoFork, NONE, NONE)
  }

  lemma InitInv(s: State)
    requires Init(s)
    ensures Inv(s)
  {
  }

  ghost predicate IsRun(run: seq<State>, steps: seq<Step>) {
    && |run| == |steps| + 1 && Init(run[0])
    && forall k {:trigger steps[k]} :: 0 <= k < |steps| ==>
      Enabled(run[k], steps[k]) &&
      run[k + 1] == Do(run[k], steps[k])
  }

  lemma {:induction false} RunInv(run: seq<State>, steps: seq<Step>, k: int)
    requires IsRun(run, steps) && 0 <= k < |run|
    ensures Inv(run[k])
    decreases k
  {
    if k == 0 {
      InitInv(run[0]);
    } else {
      RunInv(run, steps, k - 1);
      var st := steps[k - 1];
      StepInv(run[k - 1], st);
    }
  }

  /** While the lock is free, a process is RUNNING exactly when it is the current process of a
      CPU, and then of only one. */
  lemma RunningIsCurrent(run: seq<State>, steps: seq<Step>, k: int, p: int, c: int, d: int)
    requires IsRun(run, steps) && 0 <= k < |run| && run[k].lock == NONE
    requires IsSlot(run[k], p) && IsCpu(run[k], c) && IsCpu(run[k], d)
    ensures run[k].slots[p].state == RUNNING ==>
      IsCpu(run[k], run[k].slots[p].cpu) &&
      run[k].cpus[run[k].slots[p].cpu].proc == p
    ensures run[k].cpus[c].proc == p ==> run[k].slots[p].state == RUNNING
    ensures run[k].cpus[c].proc == p && run[k].cpus[d].proc == p ==> c == d
  {
    RunInv(run, steps, k);
    assert SlotOk(run[k], p) && CpuOk(run[k], c) && CpuOk(run[k], d);
  }

  /** No parent pointer names a slot that is unused or a zombie. */
  lemma ParentsLive(run: seq<State>, steps: seq<Step>, k: int, q: int)
    requires IsRun(run, steps) && 0 <= k < |run| && IsSlot(run[k], q) && run[k].slots[q].parent != NONE
    ensures IsSlot(run[k], run[k].slots[q].parent)
    ensures var st := run[k].slots[run[k].slots[q].parent].state; st != UNUSED && st != ZOMBIE
  {
    RunInv(run, steps, k);
    assert SlotOk(run[k], q);
  }

  /** A process asleep in wait has no zombie child. */
  lemma WaitMissesNoChild(run: seq<State>, steps: seq<Step>, k: int, p: int, q: int)
    requires IsRun(run, steps) && 0 <= k < |run| && IsSlot(run[k], p) && IsSlot(run[k], q)
    requires AsleepInWait(run[k].slots[p], p) && run[k].slots[q].parent == p
    ensures run[k].slots[q].state != ZOMBIE
  {
    RunInv(run, steps, k);
    assert SlotOk(run[k], q);
  }

  /** The next step of CPU c is wait freeing the kernel stack of slot i. */
  predicate Reaps(s: State, c: int, i: int) {
    && Enabled(s, Go(c)) && IsSlot(s, i) && s.slots[i].state == ZOMBIE && s.slots[i].parent == s.cpus[c].mode.p
    && s.slots[s.cpus[c].mode.p].pc.WaitScan? && s.slots[s.cpus[c].mode.p].pc.i == i
  }

  /** wait frees the kernel stack of a process that has one, once every CPU has left it. */
  lemma ReapIsSafe(run: seq<State>, steps: seq<Step>, k: int, c: int, i: int, d: int)
    requires IsRun(run, steps) && 0 <= k < |run| && Reaps(run[k], c, i) && IsCpu(run[k], d)
    ensures run[k].slots[i].kstack && run[k].cpus[d].mode != InProc(i) && run[k].cpus[d].proc != i
    ensures !Do(run[k], Go(c)).slots[i].kstack && Do(run[k], Go(c)).slots[i].state == UNUSED
  {
    RunInv(run, steps, k);
    var s := run[k];
    assert SlotOk(s, i) && CpuOk(s, d) && CpuOk(s, c);
    assert SlotOk(s, s.cpus[c].mode.p);
  }

  /** Two of the checks of sched, for the lock and for a process still RUNNING, never fail, and the
      panic after sched in exit is never reached: a process enters sched with the lock and no longer
      RUNNING, and a scheduler never resumes a zombie. */
  lemma SchedIsSafe(run: seq<State>, steps: seq<Step>, k: int, p: int, c: int)
    requires IsRun(run, steps) && 0 <= k < |run| && IsSlot(run[k], p)
    ensures run[k].slots[p].pc.AtSched? ==>
      run[k].lock == run[k].slots[p].cpu != NONE &&
      run[k].slots[p].state != RUNNING
    ensures Enabled(run[k], SchedPick(c, p)) ==>
      run[k].slots[p].pc.Switched? && !run[k].slots[p].pc.next.Never? &&
      run[k].slots[p].kstack
  {
    RunInv(run, steps, k);
    assert SlotOk(run[k], p);
    if Enabled(run[k], SchedPick(c, p)) {
      NobodyScans(run[k], p);
    }
  }

  /** A slot under construction belongs to exactly one fork under way. */
  lemma EmbryoHasOneForker(run: seq<State>, steps: seq<Step>, k: int, np: int, p: int, q: int)
    requires IsRun(run, steps) && 0 <= k < |run| && IsSlot(run[k], np) && IsSlot(run[k], p) && IsSlot(run[k], q)
    requires run[k].slots[np].state == EMBRYO
    ensures IsSlot(run[k], run[k].slots[np].forker) && Child(run[k].slots[run[k].slots[np].forker].fork) == np
    ensures Child(run[k].slots[p].fork) == np && Child(run[k].slots[q].fork) == np ==> p == q
  {
    RunInv(run, steps, k);
    assert SlotOk(run[k], np) && SlotOk(run[k], p) && SlotOk(run[k], q);
  }
}
