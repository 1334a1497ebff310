/** One sleep lock used by any number of processes, as a step system: every store, every
    spinlock acquisition and release, and every slot of the wakeup scan is a step of its own.

    `lk` is the holder of the spinlock inside the sleep lock and `pt` that of the process table
    lock. Other kernel code (ENV) may take the process table lock too, and wake any process
    while it holds it, as kill does. `owner` is the process that last set `locked`; it is there
    to state the invariant and no step reads it. */
module SleepLock {

  const NONE: int := -1
  const ENV: int := -2

  /** What a process does next. */
  datatype PC =
    | Idle
    // acquiresleep
    | AcqLk | Test | SetLocked | SetPid | AcqDone
    // sleep, called with the spinlock held
    | SleepPt | SleepRel | SetChan | SetSleeping | Sched | Away | ClearChan | RelPt | ReacqLk
    // the lock is held
    | Hold
    // releasesleep
    | RelLk | ClearLocked | ClearPid | WakePt | Scan(i: int) | WakeDone | RelDone
    // holdingsleep, with whether the caller does hold the lock
    | AskLk(own: bool) | Ask(own: bool) | Answer(own: bool, r: bool)

  /** chan: sleeping on this lock's channel, or just woken from it. */
  datatype Proc = Proc(pc: PC, asleep: bool, chan: bool)

  datatype State = State(locked: bool, pid: int, lk: int, pt: int, owner: int, procs: seq<Proc>)

  datatype Step =
    | Acquire(p: int) | Release(p: int) | Holding(p: int)   // a process enters one of the three functions
    | Go(p: int)                                            // a process takes its next step
    | EnvTake | EnvWake(p: int) | EnvGive

  predicate HoldsLk(pc: PC) {
    pc.Test? || pc.SetLocked? || pc.SetPid? || pc.AcqDone? || pc.SleepPt? || pc.SleepRel?
    || pc.ClearLocked? || pc.ClearPid? || pc.WakePt? || pc.Scan? || pc.WakeDone? || pc.RelDone? || pc.Ask? || pc.Answer?
  }

  predicate HoldsPt(pc: PC) {
    pc.SleepRel? || pc.SetChan? || pc.SetSleeping? || pc.Sched? || pc.ClearChan? || pc.RelPt? || pc.Scan? ||
        pc.WakeDone?
  }

  /** The process has the sleep lock: from setting `locked` to clearing it. */
  predicate Owns(pc: PC) {
    || pc.SetPid? || pc.AcqDone? || pc.Hold? || pc.RelLk? || pc.ClearLocked?
    || (pc.AskLk? && pc.own) || (pc.Ask? && pc.own) || (pc.Answer? && pc.own)
  }

  /** Found the lock taken and not yet woken. */
  predicate Sleeper(x: Proc) {
    x.pc.SleepPt? || x.pc.SleepRel? || x.pc.SetChan? || x.pc.SetSleeping? || x.pc.Sched? || (x.pc.Away? && x.asleep)
  }

  // ---------- steps ----------

  function PcOf(s: State, p: int): (pc: PC) {
    if 0 <= p < |s.procs| then s.procs[p].pc else Idle
  }

  predicate Enabled(s: State, st: Step) {
    match st
    case Acquire(p) => 0 <= p < |s.procs| && s.procs[p].pc.Idle?
    case Release(p) => 0 <= p < |s.procs| && s.procs[p].pc.Hold?
    case Holding(p) => 0 <= p < |s.procs| && (s.procs[p].pc.Idle? || s.procs[p].pc.Hold?)
    case Go(p) => 0 <= p < |s.procs| && CanGo(s, s.procs[p])
    case EnvTake => s.pt == NONE
    case EnvWake(p) => s.pt == ENV && 0 <= p < |s.procs|
    case EnvGive => s.pt == ENV
  }

  /** A process waits for a spinlock, or, when away, to be runnable and picked by a scheduler,
      which holds the process table lock. */
  predicate CanGo(s: State, x: Proc) {
    match x.pc
    case Idle => false
    case Hold => false
    case AcqLk => s.lk == NONE
    case ReacqLk => s.lk == NONE
    case RelLk => s.lk == NONE
    case AskLk(_) => s.lk == NONE
    case SleepPt => s.pt == NONE
    case WakePt => s.pt == NONE
    case Away => !x.asleep && s.pt == NONE
    case _ => true
  }

  function At(s: State, p: int, pc: PC): (s': State)
    requires 0 <= p < |s.procs|
  {
    s.(procs := s.procs[p := s.procs[p].(pc := pc)])
  }

  function Do(s: State, st: Step): (s': State)
    requires Enabled(s, st)
  {
    match st
    case Acquire(p) => At(s, p, AcqLk)
    case Release(p) => At(s, p, RelLk)
    case Holding(p) => At(s, p, AskLk(s.procs[p].pc.Hold?))
    case Go(p) => Next(s, p)
    case EnvTake => s.(pt := ENV)
    case EnvWake(p) => s.(procs := s.procs[p := s.procs[p].(asleep := false)])
    case EnvGive => s.(pt := NONE)
  }

  function Next(s: State, p: int): (s': State)
    requires 0 <= p < |s.procs| && CanGo(s, s.procs[p])
  {
    var x := s.procs[p];
    match x.pc
    case AcqLk => At(s.(lk := p), p, Test)
    case Test => At(s, p, if s.locked then SleepPt else SetLocked)
    case SetLocked => At(s.(locked := true, owner := p), p, SetPid)
    case SetPid => At(s.(pid := p), p, AcqDone)
    case AcqDone => At(s.(lk := NONE), p, Hold)
    case SleepPt => At(s.(pt := p), p, SleepRel)
    case SleepRel => At(s.(lk := NONE), p, SetChan)
    case SetChan => s.(procs := s.procs[p := x.(pc := SetSleeping, chan := true)])
    case SetSleeping => s.(procs := s.procs[p := x.(pc := Sched, asleep := true)])
    case Sched => At(s.(pt := NONE), p, Away)
    case Away => At(s.(pt := p), p, ClearChan)
    case ClearChan => s.(procs := s.procs[p := x.(pc := RelPt, chan := false)])
    case RelPt => At(s.(pt := NONE), p, ReacqLk)
    case ReacqLk => At(s.(lk := p), p, Test)
    case RelLk => At(s.(lk := p), p, ClearLocked)
    case ClearLocked => At(s.(locked := false, owner := NONE), p, ClearPid)
    case ClearPid => At(s.(pid := NONE), p, WakePt)
    case WakePt => At(s.(pt := p), p, Scan(0))
    case Scan(i) => if 0 <= i < |s.procs| then At(Wake(s, i), p, Scan(i + 1)) else At(s, p, WakeDone)
    case WakeDone => At(s.(pt := NONE), p, RelDone)
    case RelDone => At(s.(lk := NONE), p, Idle)
    case AskLk(own) => At(s.(lk := p), p, Ask(own))
    case Ask(own) => At(s, p, Answer(own, s.locked && s.pid == p))
    case Answer(own, _) => At(s.(lk := NONE), p, if own then Hold else Idle)
  }

  /** One slot of the wakeup scan. */
  function Wake(s: State, i: int): (s': State)
    requires 0 <= i < |s.procs|
    ensures |s'.procs| == |s.procs|
  {
    var x := s.procs[i];
    if x.asleep && x.chan then s.(procs := s.procs[i := x.(asleep := false)]) else s
  }

  // ---------- the invariant ----------

  /** The lock has been cleared by a process whose wakeup scan has not passed slot p. */
  predicate WillScan(rel: PC, p: int) {
    rel.ClearPid? || rel.WakePt? || (rel.Scan? && 0 <= rel.i <= p)
  }

  /** What holds of process p, where rel is what the holder of the spinlock does next. */
  predicate ProcOk(p: int, x: Proc, locked: bool, pid: int, lk: int, pt: int, owner: int, rel: PC) {
    && (HoldsLk(x.pc) <==> lk == p)
    && (HoldsPt(x.pc) <==> pt == p)
    && (Owns(x.pc) <==> owner == p)
    && (Owns(x.pc) && !x.pc.SetPid? ==> pid == p)
    && (!Owns(x.pc) && !x.pc.ClearPid? ==> pid != p)
    && (x.pc.SetLocked? || x.pc.ClearPid? ==> !locked)
    && (x.asleep ==> x.pc.Sched? || x.pc.Away?)
    && (x.pc.Sched? ==> x.asleep)
    && (x.chan <==> x.pc.SetSleeping? || x.pc.Sched? || x.pc.Away? || x.pc.ClearChan?)
    && (x.pc.SleepPt? || x.pc.SleepRel? ==> locked)
    && (Sleeper(x) && !locked ==> WillScan(rel, p))
    && (x.pc.Scan? ==> 0 <= x.pc.i)
    && (x.pc.Answer? ==> x.pc.r == x.pc.own)
  }

  predicate GlobalOk(s: State) {
    && (s.locked <==> s.owner != NONE)
    && (s.lk == NONE || 0 <= s.lk < |s.procs|)
    && (s.pt == NONE || s.pt == ENV || 0 <= s.pt < |s.procs|)
    && (s.owner == NONE || 0 <= s.owner < |s.procs|)
  }

  predicate Ok(s: State, p: int)
    requires 0 <= p < |s.procs|
  {
    ProcOk(p, s.procs[p], s.locked, s.pid, s.lk, s.pt, s.owner, PcOf(s, s.lk))
  }

  ghost predicate Inv(s: State) {
    GlobalOk(s) && forall p {:trigger Ok(s, p)} :: 0 <= p < |s.procs| ==> Ok(s, p)
  }

  predicate Init(s: State) {
    && !s.locked && s.pid == NONE && s.lk == NONE && s.pt == NONE && s.owner == NONE
    && forall p :: 0 <= p < |s.procs| ==> s.procs[p] == Proc(Idle, false, false)
  }

  lemma InitInv(s: State)
    requires Init(s)
    ensures Inv(s)
  {
  }

  // ---------- every step keeps it ----------

  lemma TakeLkOk(s: State, p: int, q: int)
    requires GlobalOk(s) && 0 <= p < |s.procs| && 0 <= q < |s.procs| && CanGo(s, s.procs[p]) && Ok(s, p) && Ok(s, q)
    requires var pc := s.procs[p].pc; pc.AcqLk? || pc.ReacqLk? || pc.RelLk? || pc.AskLk?
    ensures GlobalOk(Next(s, p)) && |Next(s, p).procs| == |s.procs| && Ok(Next(s, p), q)
  {
  }

  lemma GiveLkOk(s: State, p: int, q: int)
    requires GlobalOk(s) && 0 <= p < |s.procs| && 0 <= q < |s.procs| && CanGo(s, s.procs[p]) && Ok(s, p) && Ok(s, q)
    requires var pc := s.procs[p].pc; pc.AcqDone? || pc.SleepRel? || pc.RelDone? || pc.Answer?
    ensures GlobalOk(Next(s, p)) && |Next(s, p).procs| == |s.procs| && Ok(Next(s, p), q)
  {
  }

  lemma TakePtOk(s: State, p: int, q: int)
    requires GlobalOk(s) && 0 <= p < |s.procs| && 0 <= q < |s.procs| && CanGo(s, s.procs[p]) && Ok(s, p) && Ok(s, q)
    requires var pc := s.procs[p].pc; pc.SleepPt? || pc.Away? || pc.WakePt?
    ensures GlobalOk(Next(s, p)) && |Next(s, p).procs| == |s.procs| && Ok(Next(s, p), q)
  {
  }

  lemma GivePtOk(s: State, p: int, q: int)
    requires GlobalOk(s) && 0 <= p < |s.procs| && 0 <= q < |s.procs| && CanGo(s, s.procs[p]) && Ok(s, p) && Ok(s, q)
    requires var pc := s.procs[p].pc; pc.Sched? || pc.RelPt? || pc.WakeDone?
    ensures GlobalOk(Next(s, p)) && |Next(s, p).procs| == |s.procs| && Ok(Next(s, p), q)
  {
  }

  lemma LookOk(s: State, p: int, q: int)
    requires GlobalOk(s) && 0 <= p < |s.procs| && 0 <= q < |s.procs| && CanGo(s, s.procs[p]) && Ok(s, p) && Ok(s, q)
    requires var pc := s.procs[p].pc; pc.Test? || pc.Ask?
    ensures GlobalOk(Next(s, p)) && |Next(s, p).procs| == |s.procs| && Ok(Next(s, p), q)
  {
  }

  lemma LockOk(s: State, p: int, q: int)
    requires GlobalOk(s) && 0 <= p < |s.procs| && 0 <= q < |s.procs| && CanGo(s, s.procs[p]) && Ok(s, p) && Ok(s, q)
    requires var pc := s.procs[p].pc; pc.SetLocked? || pc.SetPid?
    ensures GlobalOk(Next(s, p)) && |Next(s, p).procs| == |s.procs| && Ok(Next(s, p), q)
  {
  }

  lemma UnlockOk(s: State, p: int, q: int)
    requires GlobalOk(s) && 0 <= p < |s.procs| && 0 <= q < |s.procs| && CanGo(s, s.procs[p]) && Ok(s, p) && Ok(s, q)
    requires var pc := s.procs[p].pc; pc.ClearLocked? || pc.ClearPid?
    ensures GlobalOk(Next(s, p)) && |Next(s, p).procs| == |s.procs| && Ok(Next(s, p), q)
  {
  }

  lemma DozeOk(s: State, p: int, q: int)
    requires GlobalOk(s) && 0 <= p < |s.procs| && 0 <= q < |s.procs| && CanGo(s, s.procs[p]) && Ok(s, p) && Ok(s, q)
    requires var pc := s.procs[p].pc; pc.SetChan? || pc.SetSleeping? || pc.ClearChan?
    ensures GlobalOk(Next(s, p)) && |Next(s, p).procs| == |s.procs| && Ok(Next(s, p), q)
  {
  }

  lemma WakerOk(s: State, p: int, q: int)
    requires GlobalOk(s) && 0 <= p < |s.procs| && 0 <= q < |s.procs| && CanGo(s, s.procs[p]) && Ok(s, p) && Ok(s, q)
    requires var pc := s.procs[p].pc; pc.Scan?
    ensures GlobalOk(Next(s, p)) && |Next(s, p).procs| == |s.procs| && Ok(Next(s, p), q)
  {
  }

  lemma GoOk(s: State, p: int, q: int)
    requires GlobalOk(s) && 0 <= p < |s.procs| && 0 <= q < |s.procs| && CanGo(s, s.procs[p]) && Ok(s, p) && Ok(s, q)
    ensures GlobalOk(Next(s, p)) && |Next(s, p).procs| == |s.procs| && Ok(Next(s, p), q)
  {
    var pc := s.procs[p].pc;
    if pc.AcqLk? || pc.ReacqLk? || pc.RelLk? || pc.AskLk? {
      TakeLkOk(s, p, q);
    } else if pc.AcqDone? || pc.SleepRel? || pc.RelDone? || pc.Answer? {
      GiveLkOk(s, p, q);
    } else if pc.SleepPt? || pc.Away? || pc.WakePt? {
      TakePtOk(s, p, q);
    } else if pc.Sched? || pc.RelPt? || pc.WakeDone? {
      GivePtOk(s, p, q);
    } else if pc.Test? || pc.Ask? {
      LookOk(s, p, q);
    } else if pc.SetLocked? || pc.SetPid? {
      LockOk(s, p, q);
    } else if pc.ClearLocked? || pc.ClearPid? {
      UnlockOk(s, p, q);
    } else if pc.SetChan? || pc.SetSleeping? || pc.ClearChan? {
      DozeOk(s, p, q);
    } else {
      WakerOk(s, p, q);
    }
  }

  lemma StartOk(s: State, st: Step, q: int)
    requires GlobalOk(s) && Enabled(s, st) && !st.Go? && 0 <= q < |s.procs| && Ok(s, q)
    ensures GlobalOk(Do(s, st)) && |Do(s, st).procs| == |s.procs| && Ok(Do(s, st), q)
  {
  }

  lemma StepOk(s: State, st: Step, q: int)
    requires Inv(s) && Enabled(s, st) && 0 <= q < |s.procs|
    ensures GlobalOk(Do(s, st)) && |Do(s, st).procs| == |s.procs| && Ok(Do(s, st), q)
  {
    assert Ok(s, q);
    if st.Go? {
      assert Ok(s, st.p);
      GoOk(s, st.p, q);
    } else {
      StartOk(s, st, q);
    }
  }

  lemma AllOk(s: State, st: Step, s': State)
    requires Inv(s) && Enabled(s, st) && s' == Do(s, st) && |s.procs| > 0
    ensures GlobalOk(s') && |s'.procs| == |s.procs|
    ensures forall q {:trigger Ok(s', q)} :: 0 <= q < |s.procs| ==> Ok(s', q)
  {
    StepOk(s, st, 0);
    forall q | 0 <= q < |s.procs|
      ensures Ok(s', q)
    {
      StepOk(s, st, q);
    }
  }

  lemma StepInv(s: State, st: Step)
    requires Inv(s) && Enabled(s, st)
    ensures Inv(Do(s, st)) && |Do(s, st).procs| == |s.procs|
  {
    if |s.procs| > 0 {
      AllOk(s, st, Do(s, st));
    }
  }

  // ---------- runs ----------

  /** A run from an initial state: run[k + 1] comes from run[k] by steps[k]. */
  ghost predicate IsRun(run: seq<State>, steps: seq<Step>) {
    && |run| == |steps| + 1 && Init(run[0])
    && forall k {:trigger steps[k]} :: 0 <= k < |steps| ==>
      Enabled(run[k], steps[k]) &&
      run[k + 1] == Do(run[k], steps[k])
  }

  lemma {:induction false} RunInv(run: seq<State>, steps: seq<Step>, k: int)
    requires IsRun(run, steps) && 0 <= k < |run|
    ensures Inv(run[k])
    decreases k
  {
    if k == 0 {
      InitInv(run[0]);
    } else {
      RunInv(run, steps, k - 1);
      var st := steps[k - 1];
      StepInv(run[k - 1], st);
    }
  }

  /** At most one process has the sleep lock, and then `locked` is set. */
  lemma MutualExclusion(run: seq<State>, steps: seq<Step>, k: int, p: int, q: int)
    requires IsRun(run, steps) && 0 <= k < |run|
    requires 0 <= p < |run[k].procs| && 0 <= q < |run[k].procs|
    requires Owns(run[k].procs[p].pc) && Owns(run[k].procs[q].pc)
    ensures p == q && run[k].locked
  {
    RunInv(run, steps, k);
    assert Ok(run[k], p) && Ok(run[k], q);
  }

  /** No wakeup is lost: while the lock is free, a process that found it taken and is, or is
      about to be, asleep will still be reached by the wakeup scan of the process that cleared
      the lock. */
  lemma NoLostWakeup(run: seq<State>, steps: seq<Step>, k: int, p: int)
    requires IsRun(run, steps) && 0 <= k < |run|
    requires 0 <= p < |run[k].procs| && Sleeper(run[k].procs[p]) && !run[k].locked
    ensures 0 <= run[k].lk < |run[k].procs| && WillScan(run[k].procs[run[k].lk].pc, p)
    ensures run[k].procs[p].pc.Away? ==> run[k].procs[p].chan
  {
    RunInv(run, steps, k);
    assert Ok(run[k], p);
  }

  /** So once the spinlock is free and the sleep lock is too, nobody sleeps on it. */
  lemma FreeMeansAwake(run: seq<State>, steps: seq<Step>, k: int, p: int)
    requires IsRun(run, steps) && 0 <= k < |run|
    requires 0 <= p < |run[k].procs| && !run[k].locked && run[k].lk == NONE
    ensures !Sleeper(run[k].procs[p])
  {
    RunInv(run, steps, k);
    assert Ok(run[k], p);
  }

  /** holdingsleep answers whether the caller has the lock. */
  lemma HoldingIsRight(run: seq<State>, steps: seq<Step>, k: int, p: int)
    requires IsRun(run, steps) && 0 <= k < |run|
    requires 0 <= p < |run[k].procs| && run[k].procs[p].pc.Answer?
    ensures run[k].procs[p].pc.r <==> run[k].owner == p
  {
    RunInv(run, steps, k);
    assert Ok(run[k], p);
  }

  /** A process enters sched holding the process table lock and not the other spinlock, as the
      checks at the head of sched demand. */
  lemma SchedHoldsOneLock(run: seq<State>, steps: seq<Step>, k: int, p: int)
    requires IsRun(run, steps) && 0 <= k < |run|
    requires 0 <= p < |run[k].procs| && run[k].procs[p].pc.Sched?
    ensures run[k].pt == p && run[k].lk != p
  {
    RunInv(run, steps, k);
    assert Ok(run[k], p);
  }

  /** A process that has something to do: it is neither outside, nor holding the lock, nor asleep. */
  predicate Busy(x: Proc) {
    !x.pc.Idle? && !x.pc.Hold? && !(x.pc.Away? && x.asleep)
  }

  /** The process, or other kernel code, whose step is not blocked when process p is busy. */
  function Unblocked(s: State, p: int): (st: Step) {
    if s.pt == ENV then EnvGive
    else if s.pt != NONE then Go(s.pt)
    else if s.lk != NONE then Go(s.lk)
    else Go(p)
  }

  /** The two spinlocks never deadlock: while some process is busy, some step can be taken. */
  lemma NoDeadlock(run: seq<State>, steps: seq<Step>, k: int, p: int)
    requires IsRun(run, steps) && 0 <= k < |run|
    requires 0 <= p < |run[k].procs| && Busy(run[k].procs[p])
    ensures Enabled(run[k], Unblocked(run[k], p))
  {
    RunInv(run, steps, k);
    var s := run[k];
    assert Ok(s, p);
    assert 0 <= s.lk < |s.procs| ==> Ok(s, s.lk);
    assert 0 <= s.pt < |s.procs| ==> Ok(s, s.pt);
  }
}
