/** The logging system as a whole: any number of file-system operations running at once
    over the buffer cache, group commit, crashes at any moment and recovery at boot.

    The steps are the lock-protected segments of begin_op, end_op, log_write, bread and
    brelse, the test that log_write makes before it takes the lock, and the single block
    writes of commit and recovery.  The main results, for a log area of a size that is safe:
    every step of this system is a step (or no step) of a two-line specification in which a
    commit makes the current contents durable and a crash falls back to the durable ones;
    and the write-ahead rule.  For every size: the reservation arithmetic of begin_op, and
    exactly which sizes are safe. */
module LogProtocol {
  import opened RedoLog

  const MAXOPBLOCKS: int := 10

  datatype Owner = Free | Held(tid: int)

  /** A cached block.  `touched`: changed by its holder since its last log_write. */
  datatype Buf = Buf(data: Block, dirty: bool, touched: bool, owner: Owner)

  /** Where the committing process, or the kernel at boot, stands. */
  datatype Phase =
    | Idle
    | Copying(k: int)         // write_log has written k blocks; at |lh| the header is next
    | Installing(k: int)      // install_trans has written k blocks; at |lh| the clearing is next
    | Finishing               // commit() done, log.committing still set
    | BootRead                // recovery is about to read the header
    | BootInstalling(k: int)  // recovery has installed k blocks

  datatype State = State(
    disk: Disk,
    cache: map<int, Buf>,
    lh: seq<int>,             // log.lh.block[..log.lh.n]
    outstanding: int,
    committing: bool,
    ops: map<int, set<int>>,  // operations between begin_op and end_op, and what each has logged
    passed: map<int, int>,    // operations in log_write that have passed its test, and for which block
    phase: Phase,
    durable: Disk,            // history variable: home contents as of the last commit point
    procs: int)               // size of the process table; operations are named by its slots

  datatype Step =
    | BeginOp(t: int)
    | Bread(t: int, b: int)
    | Modify(t: int, b: int, data: Block)
    | LogTest(t: int, b: int)
    | LogWrite(t: int, b: int)
    | Brelse(t: int, b: int)
    | Evict(b: int)
    | EndOp(t: int)
    | CopyBlock
    | CommitPoint
    | InstallBlock
    | ClearHead
    | FinishCommit
    | Crash
    | ReadHeader
    | RecoverBlock
    | RecoverDone

  // ---------- the steps ----------

  function Cached(s: State, b: int): (d: Block)
    requires 0 <= b < |s.disk|
  {
    if b in s.cache then s.cache[b].data else s.disk[b]
  }

  predicate Unlocked(s: State, b: int) {
    b in s.cache ==> s.cache[b].owner == Free
  }

  /** The test at the top of log_write, made without the lock.  The source reads log.lh.n twice;
      it only grows while an operation runs, so one of the two readings alone decides. */
  predicate LogWritePanics(l: Layout, s: State) {
    |s.lh| >= LOGSIZE || |s.lh| >= l.size - 1 || s.outstanding < 1
  }

  /** When a step can happen.  For Modify, LogTest, Brelse and EndOp this includes the
      discipline log.c asks of its callers: change a block only inside an operation and
      under its lock, log it before releasing it, at most MAXOPBLOCKS distinct blocks in
      one operation, no block held across end_op.  Between its test and its append an
      operation does nothing else.  The writes of a commit go wherever the list and its
      length say. */
  predicate Enabled(l: Layout, s: State, step: Step) {
    match step
    case BeginOp(t) =>
      && 0 <= t < s.procs && t !in s.ops && !s.committing && !Booting(s)
      && |s.lh| + (s.outstanding + 1) * MAXOPBLOCKS <= LOGSIZE
    case Bread(t, b) => t !in s.passed && Home(l, |s.disk|, b) && Unlocked(s, b) && !Booting(s)
    case Modify(t, b, data) => t in s.ops && t !in s.passed && b in s.cache && s.cache[b].owner == Held(t)
    case LogTest(t, b) => t !in s.passed && MayLog(s, t, b) && !LogWritePanics(l, s)
    case LogWrite(t, b) => t in s.passed && s.passed[t] == b && MayLog(s, t, b)
    case Brelse(t, b) =>
      t !in s.passed && b in s.cache && s.cache[b].owner == Held(t) && !s.cache[b].touched
    case Evict(b) => b in s.cache && s.cache[b].owner == Free && !s.cache[b].dirty
    case EndOp(t) => t in s.ops && t !in s.passed && forall b :: b in s.cache ==> s.cache[b].owner != Held(t)
    case CopyBlock => s.phase.Copying? && CanMove(l, s, s.phase.k)
    case CommitPoint =>
      && s.phase == Copying(|s.lh|) && s.lh != [] && Fits(l, s.disk) && IsHeader(s.disk[l.start])
      && |s.lh| <= LOGSIZE
    case InstallBlock => s.phase.Installing? && CanMove(l, s, s.phase.k)
    case ClearHead => s.phase == Installing(|s.lh|) && Fits(l, s.disk) && IsHeader(s.disk[l.start])
    case FinishCommit => s.phase == Finishing || (s.phase == Copying(0) && s.lh == [])
    case Crash => true
    case ReadHeader => s.phase == BootRead && Fits(l, s.disk) && IsHeader(s.disk[l.start])
    case RecoverBlock => s.phase.BootInstalling? && CanMove(l, s, s.phase.k)
    case RecoverDone => s.phase == BootInstalling(|s.lh|) && Fits(l, s.disk) && IsHeader(s.disk[l.start])
  }

  /** An operation that holds a block and has budget for it. */
  predicate MayLog(s: State, t: int, b: int) {
    && t in s.ops && b in s.cache && s.cache[b].owner == Held(t)
    && (b in s.ops[t] || |s.ops[t]| < MAXOPBLOCKS)
  }

  /** The k-th listed block and the block at its place in the log can be had. */
  predicate CanMove(l: Layout, s: State, k: int) {
    && 0 <= k < |s.lh| && 0 <= s.lh[k] < |s.disk| && l.start + 1 + k < |s.disk|
    && Unlocked(s, s.lh[k]) && Unlocked(s, l.start + 1 + k)
  }

  predicate Booting(s: State) {
    s.phase == BootRead || s.phase.BootInstalling?
  }

  /** Home contents as readers see them through bread. */
  function Current(l: Layout, s: State): (d: Disk)
    requires |s.durable| == |s.disk|
    ensures |d| == |s.disk|
  {
    if Booting(s) then s.durable
    else seq(|s.disk|, b requires 0 <= b < |s.disk| => Cached(s, b))
  }

  /** bwrite: the block goes to disk and its buffer becomes clean. */
  function WriteThrough(s: State, b: int, data: Block): (s': State)
    requires 0 <= b < |s.disk|
  {
    s.(disk := s.disk[b := data], cache := s.cache[b := Buf(data, false, false, Free)])
  }

  function Do(l: Layout, s: State, step: Step): (s': State)
    requires Enabled(l, s, step) && |s.durable| == |s.disk|
  {
    match step
    case BeginOp(t) => s.(outstanding := s.outstanding + 1, ops := s.ops[t := {}])
    case Bread(t, b) =>
      var buf := if b in s.cache then s.cache[b] else Buf(s.disk[b], false, false, Free);
      s.(cache := s.cache[b := buf.(owner := Held(t))])
    case Modify(t, b, data) => s.(cache := s.cache[b := s.cache[b].(data := data, touched := true)])
    case LogTest(t, b) => s.(passed := s.passed[t := b])
    case LogWrite(t, b) =>
      s.(lh := if b in s.lh then s.lh else s.lh + [b],   // log absorption
         cache := s.cache[b := s.cache[b].(dirty := true, touched := false)],
         ops := s.ops[t := s.ops[t] + {b}], passed := s.passed - {t})
    case Brelse(t, b) => s.(cache := s.cache[b := s.cache[b].(owner := Free)])
    case Evict(b) => s.(cache := s.cache - {b})
    case EndOp(t) =>
      var s1 := s.(outstanding := s.outstanding - 1, ops := s.ops - {t});
      if s1.outstanding == 0 then s1.(committing := true, phase := Copying(0)) else s1
    case CopyBlock =>
      WriteThrough(s, l.start + 1 + s.phase.k, Cached(s, s.lh[s.phase.k])).(phase := Copying(s.phase.k + 1))
    case CommitPoint =>
      WriteThrough(s, l.start, HeaderBlock(s.disk[l.start], s.lh)).(phase := Installing(0), durable := Current(l, s))
    case InstallBlock =>
      WriteThrough(s, s.lh[s.phase.k], Cached(s, l.start + 1 + s.phase.k)).(phase := Installing(s.phase.k + 1))
    case ClearHead =>
      WriteThrough(s, l.start, HeaderBlock(s.disk[l.start], [])).(phase := Finishing, lh := [])
    case FinishCommit => s.(phase := Idle, committing := false)
    case Crash => State(s.disk, map[], [], 0, false, map[], map[], BootRead, s.durable, s.procs)
    case ReadHeader => s.(lh := HeaderList(s.disk[l.start]), phase := BootInstalling(0))
    case RecoverBlock =>
      WriteThrough(s, s.lh[s.phase.k], Cached(s, l.start + 1 + s.phase.k)).(phase := BootInstalling(s.phase.k + 1))
    case RecoverDone =>
      WriteThrough(s, l.start, HeaderBlock(s.disk[l.start], [])).(phase := Idle, lh := [])
  }

  // ---------- the invariant ----------

  /** Blocks that must be dirty in the cache: logged and not yet installed. */
  function Pending(s: State): (bs: seq<int>) {
    match s.phase
    case Idle => s.lh
    case Copying(_) => s.lh
    case Installing(k) => if 0 <= k <= |s.lh| then s.lh[k..] else []
    case _ => []
  }

  ghost predicate OnDisk(l: Layout, s: State) {
    && Denotes(l, s.disk, s.durable)
    && GoodList(l, |s.disk|, s.lh)
  }

  ghost predicate BufOk(l: Layout, disk: Disk, ops: map<int, set<int>>, b: int, buf: Buf) {
    && 0 <= b < |disk|
    && (InLog(l, b) ==> !buf.dirty && buf.owner == Free)
    && (!buf.dirty && !buf.touched ==> buf.data == disk[b])
    && (buf.touched ==> buf.owner.Held? && buf.owner.tid in ops)
  }

  ghost predicate Buffers(l: Layout, disk: Disk, ops: map<int, set<int>>, cache: map<int, Buf>) {
    forall b {:trigger cache[b]} :: b in cache ==> BufOk(l, disk, ops, b, cache[b])
  }

  /** The dirty buffers are exactly the pending blocks. */
  ghost predicate DirtyExact(cache: map<int, Buf>, pending: seq<int>) {
    && (forall i :: 0 <= i < |pending| ==> pending[i] in cache && cache[pending[i]].dirty)
    && (forall b {:trigger cache[b]} :: b in cache && cache[b].dirty ==> b in pending)
  }

  /** The first `k` log blocks hold the cached contents of the listed blocks. */
  ghost predicate LogHolds(l: Layout, s: State, from: int, to: int) {
    forall i :: from <= i < to && 0 <= i < |s.lh| ==>
      && s.lh[i] in s.cache && 0 <= l.start + 1 + i < |s.disk|
      && s.disk[l.start + 1 + i] == s.cache[s.lh[i]].data
  }

  ghost predicate HomeHolds(l: Layout, s: State, k: int) {
    forall i :: 0 <= i < k && i < |s.lh| ==>
      && 0 <= s.lh[i] < |s.disk| && 0 <= l.start + 1 + i < |s.disk|
      && s.disk[s.lh[i]] == s.disk[l.start + 1 + i]
  }

  ghost predicate PhaseOk(l: Layout, s: State)
    requires OnDisk(l, s)
  {
    match s.phase
    case Idle => !s.committing && LogEmpty(l, s.disk)
    case Copying(k) => s.committing && LogEmpty(l, s.disk) && 0 <= k <= |s.lh| && LogHolds(l, s, 0, k)
    case Installing(k) =>
      && s.committing && 0 <= k <= |s.lh| && HeaderList(s.disk[l.start]) == s.lh
      && HomeHolds(l, s, k) && LogHolds(l, s, k, |s.lh|)
    case Finishing => s.committing && LogEmpty(l, s.disk) && s.lh == []
    case BootRead => !s.committing && s.lh == [] && s.cache == map[]
    case BootInstalling(k) =>
      && !s.committing && 0 <= k <= |s.lh| && HeaderList(s.disk[l.start]) == s.lh && HomeHolds(l, s, k)
  }

  ghost predicate Inv(l: Layout, s: State) {
    && OnDisk(l, s)
    && Buffers(l, s.disk, s.ops, s.cache)
    && DirtyExact(s.cache, Pending(s))
    && PhaseOk(l, s)
    && (s.phase != Idle ==> s.ops == map[])
    && Reserved(s.outstanding, s.ops, s.lh, s.procs)
    && Tested(l, s.passed)
  }

  /** In an area without data blocks nobody passes the test. */
  predicate Tested(l: Layout, passed: map<int, int>) {
    l.size <= 1 ==> passed == map[]
  }

  // ---------- reservation ----------

  /** Blocks the operations in the first `n` slots may still log, by their budgets. */
  ghost function Unspent(ops: map<int, set<int>>, n: int): (u: int) {
    if n <= 0 then 0
    else Unspent(ops, n - 1) + if n - 1 in ops then MAXOPBLOCKS - |ops[n - 1]| else 0
  }

  /** How many of the first `n` slots run an operation. */
  ghost function Running(ops: map<int, set<int>>, n: int): (r: int) {
    if n <= 0 then 0
    else Running(ops, n - 1) + if n - 1 in ops then 1 else 0
  }

  /** Two operation tables that agree except at slot `t` differ by that slot's share. */
  lemma {:induction false} SumsChange(ops: map<int, set<int>>, ops': map<int, set<int>>, t: int, n: int)
    requires 0 <= t
    requires forall u :: u != t ==> (u in ops <==> u in ops') && (u in ops ==> ops[u] == ops'[u])
    ensures t >= n ==> Unspent(ops', n) == Unspent(ops, n) && Running(ops', n) == Running(ops, n)
    ensures t < n ==>
      && Unspent(ops', n) - (if t in ops' then MAXOPBLOCKS - |ops'[t]| else 0)
         == Unspent(ops, n) - (if t in ops then MAXOPBLOCKS - |ops[t]| else 0)
      && Running(ops', n) - (if t in ops' then 1 else 0) == Running(ops, n) - (if t in ops then 1 else 0)
    decreases n
  {
    if n > 0 { SumsChange(ops, ops', t, n - 1); }
  }

  lemma {:induction false} SumBounds(ops: map<int, set<int>>, n: int)
    requires forall t :: t in ops ==> |ops[t]| <= MAXOPBLOCKS
    ensures 0 <= Unspent(ops, n) <= Running(ops, n) * MAXOPBLOCKS
    ensures forall t {:trigger t in ops} :: 0 <= t < n && t in ops ==>
      Unspent(ops, n) >= MAXOPBLOCKS - |ops[t]| && Running(ops, n) >= 1
    ensures (forall t :: t !in ops) ==> Running(ops, n) == 0
    decreases n
  {
    if n > 0 { SumBounds(ops, n - 1); }
  }

  /** No slot of the table runs an operation when the count is zero. */
  lemma NoneRunning(ops: map<int, set<int>>, n: int)
    requires forall t :: t in ops ==> 0 <= t < n && |ops[t]| <= MAXOPBLOCKS
    requires Running(ops, n) <= 0
    ensures ops == map[]
  {
    SumBounds(ops, n);
    forall t ensures t !in ops { }
  }

  /** What begin_op reserves: the blocks logged so far and all unspent budgets fit the log. */
  ghost predicate Reserved(outstanding: int, ops: map<int, set<int>>, lh: seq<int>, procs: int) {
    && outstanding == Running(ops, procs)
    && (forall t :: t in ops ==> 0 <= t < procs && |ops[t]| <= MAXOPBLOCKS && LoggedIn(ops[t], lh))
    && |lh| + Unspent(ops, procs) <= LOGSIZE
  }

  ghost predicate LoggedIn(logged: set<int>, lh: seq<int>) {
    forall b :: b in logged ==> b in lh
  }

  // ---------- every step refines the specification and keeps the invariant ----------

  /** The specification: two versions of the home blocks.  Modify changes the current
      version, a commit point makes the current version durable, a crash falls back to
      the durable version; every other step changes neither. */
  ghost predicate SpecStep(l: Layout, cur: Disk, dur: Disk, step: Step, cur': Disk, dur': Disk) {
    match step
    case Modify(_, b, data) =>
      0 <= b < |cur| && SameHome(l, cur', cur[b := data]) && dur' == dur
    case CommitPoint => SameHome(l, dur', cur) && SameHome(l, cur', cur)
    case Crash => cur' == dur && dur' == dur
    case _ => SameHome(l, cur', cur) && dur' == dur
  }

  ghost predicate Good(l: Layout, s: State, step: Step, s': State)
    requires |s.durable| == |s.disk| && |s'.durable| == |s'.disk|
  {
    && Inv(l, s')
    && SpecStep(l, Current(l, s), s.durable, step, Current(l, s'), s'.durable)
  }

  lemma BeginOpGood(l: Layout, s: State, t: int)
    requires Inv(l, s) && Enabled(l, s, BeginOp(t))
    ensures Good(l, s, BeginOp(t), Do(l, s, BeginOp(t)))
  {
    SumBounds(s.ops, s.procs);
    SumsChange(s.ops, s.ops[t := {}], t, s.procs);
  }

  lemma BreadGood(l: Layout, s: State, t: int, b: int)
    requires Inv(l, s) && Enabled(l, s, Bread(t, b))
    ensures Good(l, s, Bread(t, b), Do(l, s, Bread(t, b)))
  {
    SameContents(l, s, b, Do(l, s, Bread(t, b)).cache[b]);
  }

  /** Replacing a buffer by one with the same contents and dirty bit. */
  lemma SameContents(l: Layout, s: State, b: int, buf: Buf)
    requires Inv(l, s) && !Booting(s) && BufOk(l, s.disk, s.ops, b, buf)
    requires buf.data == Cached(s, b) && buf.dirty == (b in s.cache && s.cache[b].dirty)
    ensures var s' := s.(cache := s.cache[b := buf]);
      Inv(l, s') && SameHome(l, Current(l, s'), Current(l, s))
  {
    var s' := s.(cache := s.cache[b := buf]);
    assert Buffers(l, s'.disk, s'.ops, s'.cache);
    DirtyKept(s.cache, Pending(s), b, buf);
    HoldsKept(l, s, s');
  }

  lemma DirtyKept(cache: map<int, Buf>, pending: seq<int>, b: int, buf: Buf)
    requires DirtyExact(cache, pending) && buf.dirty == (b in cache && cache[b].dirty)
    ensures DirtyExact(cache[b := buf], pending)
  {
    var c := cache[b := buf];
    forall x | x in c && c[x].dirty ensures x in pending {
      if x == b { assert cache[b].dirty; } else { assert cache[x].dirty; }
    }
  }

  /** The log phases depend on the cache only through the contents of listed blocks. */
  lemma HoldsKept(l: Layout, s: State, s': State)
    requires OnDisk(l, s) && PhaseOk(l, s)
    requires s' == s.(cache := s'.cache, ops := s'.ops, passed := s'.passed) && s.phase != BootRead
    requires forall b :: b in s.cache && b in Pending(s) ==> b in s'.cache && s'.cache[b].data == s.cache[b].data
    ensures PhaseOk(l, s')
  {
  }

  lemma ModifyGood(l: Layout, s: State, t: int, b: int, data: Block)
    requires Inv(l, s) && Enabled(l, s, Modify(t, b, data))
    ensures Good(l, s, Modify(t, b, data), Do(l, s, Modify(t, b, data)))
  {
  }

  lemma LogTestGood(l: Layout, s: State, t: int, b: int)
    requires Inv(l, s) && Enabled(l, s, LogTest(t, b))
    ensures Good(l, s, LogTest(t, b), Do(l, s, LogTest(t, b)))
  {
    HoldsKept(l, s, Do(l, s, LogTest(t, b)));
  }

  /** An append stays within the log area. */
  predicate Room(l: Layout, s: State, step: Step) {
    step.LogWrite? ==> step.b in s.lh || |s.lh| + 1 < l.size
  }

  /** The append of log_write is right exactly when there is room for it; that its operation has
      passed the test does not say so. */
  lemma LogWriteGood(l: Layout, s: State, t: int, b: int)
    requires Inv(l, s) && Enabled(l, s, LogWrite(t, b))
    ensures Good(l, s, LogWrite(t, b), Do(l, s, LogWrite(t, b))) <==> Room(l, s, LogWrite(t, b))
  {
    if Room(l, s, LogWrite(t, b)) {
      RoomyLogWrite(l, s, t, b);
    }
  }

  lemma RoomyLogWrite(l: Layout, s: State, t: int, b: int)
    requires Inv(l, s) && Enabled(l, s, LogWrite(t, b)) && Room(l, s, LogWrite(t, b))
    ensures Good(l, s, LogWrite(t, b), Do(l, s, LogWrite(t, b)))
  {
    var s' := Do(l, s, LogWrite(t, b));
    assert BufOk(l, s.disk, s.ops, b, s.cache[b]);
    BudgetBounds(s, t, b);
    ListGrows(l, |s.disk|, s.lh, b);
    DirtyGrows(s.cache, s.lh, b);
    LogWriteReserved(s, t, b);
    assert OnDisk(l, s');
    assert Buffers(l, s'.disk, s'.ops, s'.cache);
    assert SameHome(l, Current(l, s'), Current(l, s));
  }

  lemma ListGrows(l: Layout, size: nat, lh: seq<int>, b: int)
    requires GoodList(l, size, lh) && Home(l, size, b) && (b in lh || (|lh| < LOGSIZE && |lh| < l.size - 1))
    ensures GoodList(l, size, if b in lh then lh else lh + [b])
  {
    var lh' := lh + [b];
    forall i, j | 0 <= i < |lh'| && 0 <= j < |lh'| && i != j && b !in lh ensures Differ(lh', i, j) {
      if i < |lh| && j < |lh| { assert Differ(lh, i, j); }
    }
  }

  lemma DirtyGrows(cache: map<int, Buf>, lh: seq<int>, b: int)
    requires DirtyExact(cache, lh) && b in cache
    ensures DirtyExact(cache[b := cache[b].(dirty := true, touched := false)], if b in lh then lh else lh + [b])
  {
    var c := cache[b := cache[b].(dirty := true, touched := false)];
    var lh' := if b in lh then lh else lh + [b];
    forall i | 0 <= i < |lh'| ensures lh'[i] in c && c[lh'[i]].dirty {
      if i < |lh| { assert lh'[i] == lh[i]; }
    }
    forall x | x in c && c[x].dirty ensures x in lh' {
      if x != b { assert cache[x].dirty; }
    }
  }

  /** By its reservation an operation with budget for a new block finds the list not full. */
  lemma BudgetBounds(s: State, t: int, b: int)
    requires Reserved(s.outstanding, s.ops, s.lh, s.procs) && MayLog(s, t, b)
    ensures b in s.lh || |s.lh| < LOGSIZE
  {
    SumBounds(s.ops, s.procs);
    assert LoggedIn(s.ops[t], s.lh);
  }

  lemma LogWriteReserved(s: State, t: int, b: int)
    requires Reserved(s.outstanding, s.ops, s.lh, s.procs) && t in s.ops && b in s.cache
    requires b in s.ops[t] || |s.ops[t]| < MAXOPBLOCKS
    ensures
      var lh := if b in s.lh then s.lh else s.lh + [b];
      var ops := s.ops[t := s.ops[t] + {b}];
      Reserved(s.outstanding, ops, lh, s.procs)
  {
    SumsChange(s.ops, s.ops[t := s.ops[t] + {b}], t, s.procs);
    if b in s.ops[t] { assert s.ops[t] + {b} == s.ops[t]; }
  }

  lemma BrelseGood(l: Layout, s: State, t: int, b: int)
    requires Inv(l, s) && Enabled(l, s, Brelse(t, b))
    ensures Good(l, s, Brelse(t, b), Do(l, s, Brelse(t, b)))
  {
    assert BufOk(l, s.disk, s.ops, b, s.cache[b]);
    if Booting(s) {
    } else {
      SameContents(l, s, b, s.cache[b].(owner := Free));
    }
  }

  lemma EvictGood(l: Layout, s: State, b: int)
    requires Inv(l, s) && Enabled(l, s, Evict(b))
    ensures Good(l, s, Evict(b), Do(l, s, Evict(b)))
  {
    var s' := Do(l, s, Evict(b));
    assert BufOk(l, s.disk, s.ops, b, s.cache[b]);
    assert DirtyExact(s'.cache, Pending(s')) by {
      forall x | x in s'.cache && s'.cache[x].dirty ensures x in Pending(s) { assert s.cache[x].dirty; }
    }
    assert s.phase != BootRead;
    assert b !in Pending(s);
    HoldsKept(l, s, s');
  }

  lemma EndOpReserved(s: State, t: int)
    requires Reserved(s.outstanding, s.ops, s.lh, s.procs) && t in s.ops
    ensures Reserved(s.outstanding - 1, s.ops - {t}, s.lh, s.procs)
    ensures s.outstanding == 1 ==> s.ops - {t} == map[]
  {
    SumsChange(s.ops, s.ops - {t}, t, s.procs);
    if s.outstanding == 1 { NoneRunning(s.ops - {t}, s.procs); }
  }

  lemma EndOpGood(l: Layout, s: State, t: int)
    requires Inv(l, s) && Enabled(l, s, EndOp(t))
    ensures Good(l, s, EndOp(t), Do(l, s, EndOp(t)))
  {
    EndOpReserved(s, t);
  }

  /** bwrite of a block nobody else uses: the other buffers and blocks are untouched. */
  lemma WriteKeepsBuffers(l: Layout, s: State, b: int, data: Block)
    requires Buffers(l, s.disk, s.ops, s.cache) && 0 <= b < |s.disk|
    ensures Buffers(l, s.disk[b := data], s.ops, s.cache[b := Buf(data, false, false, Free)])
  {
    var s' := WriteThrough(s, b, data);
    forall x | x in s'.cache ensures BufOk(l, s'.disk, s'.ops, x, s'.cache[x]) {
      if x != b { assert BufOk(l, s.disk, s.ops, x, s.cache[x]); }
    }
  }

  lemma LogBlockIsClean(l: Layout, s: State, b: int)
    requires Buffers(l, s.disk, s.ops, s.cache) && InLog(l, b) && 0 <= b < |s.disk|
    ensures Cached(s, b) == s.disk[b]
    ensures b in s.cache ==> !s.cache[b].dirty
  {
  }

  /** Writing a log block, or writing a block's own cached contents, leaves what readers
      see as it was. */
  lemma WriteKeepsCurrent(l: Layout, s: State, b: int, data: Block, s': State)
    requires 0 <= b < |s.disk| && |s.durable| == |s.disk| && !Booting(s)
    requires InLog(l, b) || data == Cached(s, b)
    requires s'.disk == s.disk[b := data] && s'.cache == s.cache[b := Buf(data, false, false, Free)]
    requires |s'.durable| == |s'.disk| && !Booting(s')
    ensures SameHome(l, Current(l, s'), Current(l, s))
  {
    forall x | Home(l, |s'.disk|, x) ensures Current(l, s')[x] == Current(l, s)[x] {
      assert Cached(s', x) == Cached(s, x);
    }
  }

  lemma CopyBlockGood(l: Layout, s: State)
    requires Inv(l, s) && Enabled(l, s, CopyBlock)
    ensures Good(l, s, CopyBlock, Do(l, s, CopyBlock))
  {
    var s', k := Do(l, s, CopyBlock), s.phase.k;
    CopyKeepsDisk(l, s, k, s');
    CopyKeepsBuffers(l, s, k, s');
  }

  /** `s'` is `s` after the `k`-th listed block was copied to the log. */
  ghost predicate CopyEffect(l: Layout, s: State, k: int, s': State) {
    && 0 <= k < |s.lh| && s.lh[k] in s.cache && l.start + 1 + k < |s.disk|
    && var data := s.cache[s.lh[k]].data;
    && s'.disk == s.disk[l.start + 1 + k := data]
    && s'.cache == s.cache[l.start + 1 + k := Buf(data, false, false, Free)]
    && s'.lh == s.lh && s'.outstanding == s.outstanding && s'.committing == s.committing
    && s'.ops == s.ops && s'.passed == s.passed && s'.phase == Copying(k + 1) && s'.durable == s.durable
    && s'.procs == s.procs
  }

  lemma CopyKeepsDisk(l: Layout, s: State, k: int, s': State)
    requires Inv(l, s) && s.phase == Copying(k) && CopyEffect(l, s, k, s')
    ensures OnDisk(l, s') && PhaseOk(l, s')
    ensures SameHome(l, Current(l, s'), Current(l, s))
  {
    var data := s.cache[s.lh[k]].data;
    LogDataStep(l, s.disk, s.durable, k, data);
    CopyHolds(l, s, s', k);
    WriteKeepsCurrent(l, s, l.start + 1 + k, data, s');
  }

  lemma CopyKeepsBuffers(l: Layout, s: State, k: int, s': State)
    requires Inv(l, s) && s.phase == Copying(k) && CopyEffect(l, s, k, s')
    ensures Buffers(l, s'.disk, s'.ops, s'.cache) && DirtyExact(s'.cache, Pending(s'))
  {
    var data := s.cache[s.lh[k]].data;
    WriteKeepsBuffers(l, s, l.start + 1 + k, data);
    LogBlockIsClean(l, s, l.start + 1 + k);
    DirtyKept(s.cache, s.lh, l.start + 1 + k, Buf(data, false, false, Free));
  }

  lemma CopyHolds(l: Layout, s: State, s': State, k: int)
    requires Fits(l, s.disk) && GoodList(l, |s.disk|, s.lh) && 0 <= k < |s.lh| && s.lh[k] in s.cache
    requires LogHolds(l, s, 0, k) && s'.lh == s.lh
    requires s'.disk == s.disk[l.start + 1 + k := s.cache[s.lh[k]].data]
    requires forall i :: 0 <= i < |s.lh| && s.lh[i] in s.cache && !InLog(l, s.lh[i]) ==>
      s.lh[i] in s'.cache && s'.cache[s.lh[i]] == s.cache[s.lh[i]]
    ensures LogHolds(l, s', 0, k + 1)
  {
    forall i | 0 <= i < |s.lh| ensures Home(l, |s.disk|, s.lh[i]) { }
  }

  lemma CommitPointGood(l: Layout, s: State)
    requires Inv(l, s) && Enabled(l, s, CommitPoint)
    ensures Good(l, s, CommitPoint, Do(l, s, CommitPoint))
  {
    CommitKeepsInv(l, s, Do(l, s, CommitPoint));
  }

  /** `s'` is `s` after the header write that commits. */
  ghost predicate CommitEffect(l: Layout, s: State, s': State) {
    && Inv(l, s) && s.phase == Copying(|s.lh|)
    && var h := HeaderBlock(s.disk[l.start], s.lh);
    && s'.disk == s.disk[l.start := h]
    && s'.cache == s.cache[l.start := Buf(h, false, false, Free)]
    && s'.lh == s.lh && s'.outstanding == s.outstanding && s'.committing == s.committing
    && s'.ops == s.ops && s'.passed == s.passed && s'.phase == Installing(0) && s'.durable == Current(l, s)
    && s'.procs == s.procs
  }

  lemma CommitKeepsInv(l: Layout, s: State, s': State)
    requires CommitEffect(l, s, s')
    ensures Inv(l, s') && SameHome(l, Current(l, s'), Current(l, s))
  {
    CommitKeepsDisk(l, s, s');
    CommitKeepsBuffers(l, s, s');
    CommitKeepsCurrent(l, s, s');
  }

  lemma CommitKeepsDisk(l: Layout, s: State, s': State)
    requires CommitEffect(l, s, s')
    ensures OnDisk(l, s') && PhaseOk(l, s')
  {
    var vals := LogData(l, s.disk, |s.lh|);
    CurrentIsAfter(l, s, vals);
    CommitStep(l, s.disk, s.durable, s.lh, vals, Current(l, s));
    HeaderRoundTrip(s.disk[l.start], s.lh);
    HeadHolds(l, s, s', HeaderBlock(s.disk[l.start], s.lh));
  }

  lemma CommitKeepsBuffers(l: Layout, s: State, s': State)
    requires CommitEffect(l, s, s')
    ensures Buffers(l, s'.disk, s'.ops, s'.cache) && DirtyExact(s'.cache, Pending(s'))
  {
    var h := HeaderBlock(s.disk[l.start], s.lh);
    WriteKeepsBuffers(l, s, l.start, h);
    LogBlockIsClean(l, s, l.start);
    DirtyKept(s.cache, s.lh, l.start, Buf(h, false, false, Free));
    assert s.lh[0..] == s.lh;
  }

  lemma CommitKeepsCurrent(l: Layout, s: State, s': State)
    requires CommitEffect(l, s, s')
    ensures |s'.durable| == |s'.disk| && SameHome(l, Current(l, s'), Current(l, s))
  {
    WriteKeepsCurrent(l, s, l.start, HeaderBlock(s.disk[l.start], s.lh), s');
  }

  lemma HeadHolds(l: Layout, s: State, s': State, h: Block)
    requires Fits(l, s.disk) && GoodList(l, |s.disk|, s.lh) && LogHolds(l, s, 0, |s.lh|) && s'.lh == s.lh
    requires s'.disk == s.disk[l.start := h] && s'.cache == s.cache[l.start := Buf(h, false, false, Free)]
    ensures LogHolds(l, s', 0, |s.lh|)
  {
    forall i | 0 <= i < |s.lh| ensures Home(l, |s.disk|, s.lh[i]) { }
  }

  /** With no operation running, the contents readers see are the durable contents
      overlaid with the logged blocks. */
  lemma CurrentIsAfter(l: Layout, s: State, vals: seq<Block>)
    requires Inv(l, s) && s.phase.Copying?
    requires s.phase.k == |s.lh| && vals == LogData(l, s.disk, |s.lh|)
    ensures After(l, s.durable, s.lh, vals, Current(l, s))
  {
    EmptyLogIsHome(l, s.disk, s.durable);
    forall i | 0 <= i < |s.lh| ensures Current(l, s)[s.lh[i]] == vals[i] {
      assert Home(l, |s.disk|, s.lh[i]);
      assert vals[i] == s.disk[l.start + 1 + i] == s.cache[s.lh[i]].data;
    }
    forall b | Home(l, |s.durable|, b) && b !in s.lh ensures Current(l, s)[b] == s.durable[b] {
      assert Home(l, |s.disk|, b);
      if b in s.cache { assert BufOk(l, s.disk, s.ops, b, s.cache[b]); }
    }
  }

  lemma InstallBlockGood(l: Layout, s: State)
    requires Inv(l, s) && Enabled(l, s, InstallBlock)
    ensures Good(l, s, InstallBlock, Do(l, s, InstallBlock))
  {
    InstallDoes(l, s);
    InstallKeepsInv(l, s, s.phase.k, Do(l, s, InstallBlock));
  }

  lemma InstallDoes(l: Layout, s: State)
    requires OnDisk(l, s) && Buffers(l, s.disk, s.ops, s.cache)
    requires s.phase.Installing? || s.phase.BootInstalling?
    requires s.phase.Installing? ==> Enabled(l, s, InstallBlock)
    requires s.phase.BootInstalling? ==> Enabled(l, s, RecoverBlock)
    ensures s.phase.Installing? ==>
      InstallEffect(l, s, s.phase.k, Installing(s.phase.k + 1), Do(l, s, InstallBlock))
    ensures s.phase.BootInstalling? ==>
      InstallEffect(l, s, s.phase.k, BootInstalling(s.phase.k + 1), Do(l, s, RecoverBlock))
  {
    LogBlockIsClean(l, s, l.start + 1 + s.phase.k);
  }

  /** `s'` is `s` after the `k`-th logged block was copied home. */
  ghost predicate InstallEffect(l: Layout, s: State, k: int, phase: Phase, s': State) {
    && 0 <= k < |s.lh| && 0 <= s.lh[k] < |s.disk| && l.start + 1 + k < |s.disk|
    && var data := s.disk[l.start + 1 + k];
    && s'.disk == s.disk[s.lh[k] := data]
    && s'.cache == s.cache[s.lh[k] := Buf(data, false, false, Free)]
    && s'.lh == s.lh && s'.outstanding == s.outstanding && s'.committing == s.committing
    && s'.ops == s.ops && s'.passed == s.passed && s'.phase == phase && s'.durable == s.durable && s'.procs == s.procs
  }

  lemma InstallKeepsInv(l: Layout, s: State, k: int, s': State)
    requires Inv(l, s) && s.phase == Installing(k) && InstallEffect(l, s, k, Installing(k + 1), s')
    ensures Inv(l, s') && SameHome(l, Current(l, s'), Current(l, s))
  {
    InstallKeepsDisk(l, s, k, s');
    InstallKeepsBuffers(l, s, k, s');
    InstallKeepsCurrent(l, s, k, s');
  }

  lemma InstallKeepsDisk(l: Layout, s: State, k: int, s': State)
    requires Inv(l, s) && s.phase == Installing(k) && InstallEffect(l, s, k, Installing(k + 1), s')
    ensures OnDisk(l, s') && PhaseOk(l, s')
  {
    InstallDisk(l, s, s', k);
    InstallHolds(l, s, s', k);
  }

  lemma InstallKeepsBuffers(l: Layout, s: State, k: int, s': State)
    requires Inv(l, s) && s.phase == Installing(k) && InstallEffect(l, s, k, Installing(k + 1), s')
    ensures Buffers(l, s'.disk, s'.ops, s'.cache) && DirtyExact(s'.cache, Pending(s'))
  {
    WriteKeepsBuffers(l, s, s.lh[k], s.disk[l.start + 1 + k]);
    DirtyShrinks(s.cache, s.lh, k, s.disk[l.start + 1 + k]);
  }

  lemma InstallKeepsCurrent(l: Layout, s: State, k: int, s': State)
    requires Inv(l, s) && s.phase == Installing(k) && InstallEffect(l, s, k, Installing(k + 1), s')
    ensures |s'.durable| == |s'.disk| && SameHome(l, Current(l, s'), Current(l, s))
  {
    WriteKeepsCurrent(l, s, s.lh[k], s.disk[l.start + 1 + k], s');
  }

  lemma InstallDisk(l: Layout, s: State, s': State, k: int)
    requires OnDisk(l, s) && 0 <= k < |s.lh| && HeaderList(s.disk[l.start]) == s.lh
    requires 0 <= s.lh[k] < |s.disk|
    requires s'.disk == s.disk[s.lh[k] := s.disk[l.start + 1 + k]] && s'.lh == s.lh && s'.durable == s.durable &&
      s'.procs == s.procs
    ensures OnDisk(l, s') && s'.disk[l.start] == s.disk[l.start]
  {
    InstallStep(l, s.disk, s.durable, k);
    assert Home(l, |s.disk|, s.lh[k]);
  }

  lemma DirtyShrinks(cache: map<int, Buf>, lh: seq<int>, k: int, data: Block)
    requires 0 <= k < |lh| && Distinct(lh) && DirtyExact(cache, lh[k..])
    ensures DirtyExact(cache[lh[k] := Buf(data, false, false, Free)], lh[k + 1..])
  {
    var c := cache[lh[k] := Buf(data, false, false, Free)];
    var rest := lh[k + 1..];
    forall i | 0 <= i < |rest| ensures rest[i] in c && c[rest[i]].dirty {
      assert rest[i] == lh[k..][i + 1] == lh[k + 1 + i] && Differ(lh, k, k + 1 + i);
    }
    forall x | x in c && c[x].dirty ensures x in rest {
      assert cache[x].dirty && x in lh[k..];
      assert lh[k..] == [lh[k]] + lh[k + 1..];
    }
  }

  lemma InstallHolds(l: Layout, s: State, s': State, k: int)
    requires Fits(l, s.disk) && GoodList(l, |s.disk|, s.lh) && 0 <= k < |s.lh|
    requires s'.disk == s.disk[s.lh[k] := s.disk[l.start + 1 + k]] && s'.lh == s.lh
    requires HomeHolds(l, s, k)
    ensures HomeHolds(l, s', k + 1)
    ensures LogHolds(l, s, k, |s.lh|) && s.lh[k] in s'.cache && s'.cache == s.cache[s.lh[k] := s'.cache[s.lh[k]]] ==>
      LogHolds(l, s', k + 1, |s.lh|)
  {
    forall i | 0 <= i < |s.lh| ensures Home(l, |s.disk|, s.lh[i]) &&
        (i != k ==> s.lh[i] != s.lh[k]) { assert i != k ==> Differ(s.lh, i, k); }
  }

  lemma ClearHeadGood(l: Layout, s: State)
    requires Inv(l, s) && Enabled(l, s, ClearHead)
    ensures Good(l, s, ClearHead, Do(l, s, ClearHead))
  {
    var s' := Do(l, s, ClearHead);
    var h := HeaderBlock(s.disk[l.start], []);
    ClearStep(l, s.disk, s.durable);
    WriteKeepsBuffers(l, s, l.start, h);
    LogBlockIsClean(l, s, l.start);
    assert s.lh[|s.lh|..] == [];
    DirtyKept(s.cache, [], l.start, Buf(h, false, false, Free));
    WriteKeepsCurrent(l, s, l.start, h, s');
  }

  lemma ReadHeaderGood(l: Layout, s: State)
    requires Inv(l, s) && Enabled(l, s, ReadHeader)
    ensures Good(l, s, ReadHeader, Do(l, s, ReadHeader))
  {
    SumBounds(s.ops, s.procs);
  }

  lemma RecoverBlockGood(l: Layout, s: State)
    requires Inv(l, s) && Enabled(l, s, RecoverBlock)
    ensures Good(l, s, RecoverBlock, Do(l, s, RecoverBlock))
  {
    InstallDoes(l, s);
    RecoverKeepsInv(l, s, s.phase.k, Do(l, s, RecoverBlock));
  }

  lemma RecoverKeepsInv(l: Layout, s: State, k: int, s': State)
    requires Inv(l, s) && s.phase == BootInstalling(k) && InstallEffect(l, s, k, BootInstalling(k + 1), s')
    ensures Inv(l, s')
  {
    InstallDisk(l, s, s', k);
    WriteKeepsBuffers(l, s, s.lh[k], s.disk[l.start + 1 + k]);
    assert DirtyExact(s'.cache, []) by {
      forall x | x in s'.cache && s'.cache[x].dirty ensures x in [] { assert s.cache[x].dirty; }
    }
    InstallHolds(l, s, s', k);
  }

  lemma RecoverDoneGood(l: Layout, s: State)
    requires Inv(l, s) && Enabled(l, s, RecoverDone)
    ensures Good(l, s, RecoverDone, Do(l, s, RecoverDone))
  {
    var s' := Do(l, s, RecoverDone);
    var h := HeaderBlock(s.disk[l.start], []);
    ClearStep(l, s.disk, s.durable);
    WriteKeepsBuffers(l, s, l.start, h);
    LogBlockIsClean(l, s, l.start);
    DirtyKept(s.cache, [], l.start, Buf(h, false, false, Free));
    forall b | Home(l, |s'.disk|, b) ensures Current(l, s')[b] == s.durable[b] {
      assert Home(l, |s.disk|, b);
      if b in s'.cache { assert BufOk(l, s'.disk, s'.ops, b, s'.cache[b]); }
    }
  }

  /** One step of the whole system keeps the invariant and is a step of the specification, exactly
      unless it is an append for which there is no room. */
  lemma StepGood(l: Layout, s: State, step: Step)
    requires Inv(l, s) && Enabled(l, s, step)
    ensures Good(l, s, step, Do(l, s, step)) <==> Room(l, s, step)
  {
    if OfOperation(step) {
      OperationStepGood(l, s, step);
    } else {
      CommitStepGood(l, s, step);
    }
  }

  /** A step of a file-system operation or of the buffer cache; the others are of commit, crash
      and recovery. */
  predicate OfOperation(step: Step) {
    step.BeginOp? || step.Bread? || step.Modify? || step.LogTest? || step.LogWrite? || step.Brelse? || step.Evict?
      || step.EndOp?
  }

  lemma OperationStepGood(l: Layout, s: State, step: Step)
    requires Inv(l, s) && Enabled(l, s, step) && OfOperation(step)
    ensures Good(l, s, step, Do(l, s, step)) <==> Room(l, s, step)
  {
    match step
    case BeginOp(t) => BeginOpGood(l, s, t);
    case Bread(t, b) => BreadGood(l, s, t, b);
    case Modify(t, b, data) => ModifyGood(l, s, t, b, data);
    case LogTest(t, b) => LogTestGood(l, s, t, b);
    case LogWrite(t, b) => LogWriteGood(l, s, t, b);
    case Brelse(t, b) => BrelseGood(l, s, t, b);
    case Evict(b) => EvictGood(l, s, b);
    case EndOp(t) => EndOpGood(l, s, t);
  }

  lemma CommitStepGood(l: Layout, s: State, step: Step)
    requires Inv(l, s) && Enabled(l, s, step) && !OfOperation(step)
    ensures Good(l, s, step, Do(l, s, step))
  {
    match step
    case CopyBlock => CopyBlockGood(l, s);
    case CommitPoint => CommitPointGood(l, s);
    case InstallBlock => InstallBlockGood(l, s);
    case ClearHead => ClearHeadGood(l, s);
    case FinishCommit => FinishCommitGood(l, s);
    case Crash => CrashGood(l, s);
    case ReadHeader => ReadHeaderGood(l, s);
    case RecoverBlock => RecoverBlockGood(l, s);
    case RecoverDone => RecoverDoneGood(l, s);
  }

  lemma FinishCommitGood(l: Layout, s: State)
    requires Inv(l, s) && Enabled(l, s, FinishCommit)
    ensures Good(l, s, FinishCommit, Do(l, s, FinishCommit))
  {
  }

  lemma CrashGood(l: Layout, s: State)
    requires Inv(l, s)
    ensures Good(l, s, Crash, Do(l, s, Crash))
  {
    SumBounds(map[], s.procs);
  }

  // ---------- runs ----------

  /** The machine comes up with an empty memory on a disk that stands for `durable`. */
  ghost predicate Init(l: Layout, s: State) {
    && s == State(s.disk, map[], [], 0, false, map[], map[], BootRead, s.durable, s.procs) && 0 <= s.procs
    && Denotes(l, s.disk, s.durable)
  }

  ghost predicate IsRun(l: Layout, ss: seq<State>, steps: seq<Step>) {
    && |ss| == |steps| + 1
    && Init(l, ss[0])
    && forall i {:trigger steps[i]} :: 0 <= i < |steps| ==> StepsTo(l, ss[i], steps[i], ss[i + 1])
  }

  ghost predicate StepsTo(l: Layout, s: State, step: Step, s': State) {
    |s.durable| == |s.disk| && Enabled(l, s, step) && s' == Do(l, s, step)
  }

  /** The sizes of a log area, counting the header, in which two operations that test before
      either appends do no harm: it has no data blocks, so that nobody passes the test, or it has
      LOGSIZE of them. */
  predicate SafeArea(l: Layout) {
    l.size == 1 || l.size > LOGSIZE
  }

  /** There the reservation makes room for every append. */
  lemma AlwaysRoom(l: Layout, s: State, step: Step)
    requires SafeArea(l) && Inv(l, s) && Enabled(l, s, step)
    ensures Room(l, s, step)
  {
    if step.LogWrite? {
      BudgetBounds(s, step.t, step.b);
    }
  }

  lemma {:induction false} RunInv(l: Layout, ss: seq<State>, steps: seq<Step>, i: nat)
    requires SafeArea(l) && IsRun(l, ss, steps) && i < |ss|
    ensures Inv(l, ss[i])
  {
    if i > 0 {
      RunInv(l, ss, steps, i - 1);
      assert StepsTo(l, ss[i - 1], steps[i - 1], ss[i - 1 + 1]);
      AlwaysRoom(l, ss[i - 1], steps[i - 1]);
      StepGood(l, ss[i - 1], steps[i - 1]);
    } else {
      InitInv(l, ss[0]);
    }
  }

  lemma InitInv(l: Layout, s: State)
    requires Init(l, s)
    ensures Inv(l, s)
  {
    SumBounds(s.ops, s.procs);
  }

  /** Refinement: along every run, with any number of processes, evictions and crashes,
      every step is a step of the two-version specification. */
  lemma RunRefines(l: Layout, ss: seq<State>, steps: seq<Step>, i: nat)
    requires SafeArea(l) && IsRun(l, ss, steps) && i < |steps|
    ensures |ss[i].durable| == |ss[i].disk| && |ss[i + 1].durable| == |ss[i + 1].disk|
    ensures SpecStep(l, Current(l, ss[i]), ss[i].durable, steps[i], Current(l, ss[i + 1]), ss[i + 1].durable)
  {
    RunInv(l, ss, steps, i);
    assert StepsTo(l, ss[i], steps[i], ss[i + 1]);
    AlwaysRoom(l, ss[i], steps[i]);
    StepGood(l, ss[i], steps[i]);
  }

  /** Durability: pull the plug at any moment of any run, let any number of recoveries be
      cut short and one finish; the home blocks are those of the last commit point. */
  lemma RunDurable(l: Layout, ss: seq<State>, steps: seq<Step>, i: nat, ks: seq<nat>)
    requires SafeArea(l) && IsRun(l, ss, steps) && i < |ss|
    ensures GoodHeader(l, ss[i].disk)
    ensures
      var d := CrashedRecoveries(l, ss[i].disk, ks);
      GoodHeader(l, d) && SameHome(l, Recover(l, d), ss[i].durable)
  {
    RunInv(l, ss, steps, i);
    CrashedRecoveriesKeepMeaning(l, ss[i].disk, ss[i].durable, ks);
    RecoverReaches(l, CrashedRecoveries(l, ss[i].disk, ks), ss[i].durable);
  }

  // ---------- in an area of any size ----------

  ghost predicate Homes(l: Layout, size: nat, lh: seq<int>) {
    forall i :: 0 <= i < |lh| ==> Home(l, size, lh[i])
  }

  /** What holds also where the list has outgrown the log area. */
  ghost predicate Base(l: Layout, s: State) {
    && Fits(l, s.disk) && |s.durable| == |s.disk| && IsHeader(s.disk[l.start])
    && Homes(l, |s.disk|, HeaderList(s.disk[l.start])) && Homes(l, |s.disk|, s.lh)
    && (forall b :: b in s.cache && s.cache[b].owner.Held? ==> Home(l, |s.disk|, b))
    && (s.phase != Idle ==> s.ops == map[])
    && (s.committing <==> s.phase.Copying? || s.phase.Installing? || s.phase == Finishing)
    && Reserved(s.outstanding, s.ops, s.lh, s.procs)
    && AllPassed(l, s)
  }

  /** Who has passed the test can append. */
  ghost predicate AllPassed(l: Layout, s: State) {
    forall t :: t in s.passed ==> Enabled(l, s, LogWrite(t, s.passed[t]))
  }

  lemma BaseStep(l: Layout, s: State, step: Step)
    requires Base(l, s) && Enabled(l, s, step)
    ensures Base(l, Do(l, s, step))
  {
    if OfOperation(step) {
      OperationBase(l, s, step);
    } else {
      CommitBase(l, s, step);
    }
  }

  lemma OperationBase(l: Layout, s: State, step: Step)
    requires Base(l, s) && Enabled(l, s, step) && OfOperation(step)
    ensures Base(l, Do(l, s, step))
  {
    if step.BeginOp? {
      BeginOpBase(l, s, step.t);
    } else if step.LogWrite? {
      LogWriteBase(l, s, step.t, step.b);
    } else if step.EndOp? {
      EndOpBase(l, s, step.t);
    } else {
      BufferBase(l, s, step);
    }
  }

  lemma BeginOpBase(l: Layout, s: State, t: int)
    requires Base(l, s) && Enabled(l, s, BeginOp(t))
    ensures Base(l, Do(l, s, BeginOp(t)))
  {
    SumBounds(s.ops, s.procs);
    SumsChange(s.ops, s.ops[t := {}], t, s.procs);
  }

  lemma LogWriteBase(l: Layout, s: State, t: int, b: int)
    requires Base(l, s) && Enabled(l, s, LogWrite(t, b))
    ensures Base(l, Do(l, s, LogWrite(t, b)))
  {
    LogWriteReserved(s, t, b);
    ListedHomes(l, |s.disk|, s.lh, b);
  }

  lemma EndOpBase(l: Layout, s: State, t: int)
    requires Base(l, s) && Enabled(l, s, EndOp(t))
    ensures Base(l, Do(l, s, EndOp(t)))
  {
    EndOpReserved(s, t);
  }

  lemma BufferBase(l: Layout, s: State, step: Step)
    requires Base(l, s) && Enabled(l, s, step)
    requires step.Bread? || step.Modify? || step.LogTest? || step.Brelse? || step.Evict?
    ensures Base(l, Do(l, s, step))
  {
  }

  lemma CommitBase(l: Layout, s: State, step: Step)
    requires Base(l, s) && Enabled(l, s, step) && !OfOperation(step)
    ensures Base(l, Do(l, s, step))
  {
    match step
    case CopyBlock => MoveBase(l, s, l.start + 1 + s.phase.k, Cached(s, s.lh[s.phase.k]));
    case InstallBlock => MoveBase(l, s, s.lh[s.phase.k], Cached(s, l.start + 1 + s.phase.k));
    case RecoverBlock => MoveBase(l, s, s.lh[s.phase.k], Cached(s, l.start + 1 + s.phase.k));
    case CommitPoint => HeaderBase(l, s, s.lh);
    case ClearHead => HeaderBase(l, s, []);
    case RecoverDone => HeaderBase(l, s, []);
    case Crash => SumBounds(map[], s.procs);
    case ReadHeader => SumBounds(s.ops, s.procs);
    case FinishCommit =>
  }

  lemma ListedHomes(l: Layout, size: nat, lh: seq<int>, b: int)
    requires Homes(l, size, lh) && Home(l, size, b)
    ensures Homes(l, size, if b in lh then lh else lh + [b])
  {
  }

  lemma MoveBase(l: Layout, s: State, b: int, data: Block)
    requires Base(l, s) && s.phase != Idle && 0 <= b < |s.disk| && b != l.start
    ensures Base(l, WriteThrough(s, b, data))
  {
  }

  lemma HeaderBase(l: Layout, s: State, lh: seq<int>)
    requires Base(l, s) && s.phase != Idle && Homes(l, |s.disk|, lh) && |lh| <= LOGSIZE
    ensures Base(l, WriteThrough(s, l.start, HeaderBlock(s.disk[l.start], lh)).(lh := lh))
  {
    HeaderRoundTrip(s.disk[l.start], lh);
    SumBounds(map[], s.procs);
  }

  lemma {:induction false} RunBase(l: Layout, ss: seq<State>, steps: seq<Step>, i: nat)
    requires IsRun(l, ss, steps) && i < |ss|
    ensures Base(l, ss[i])
  {
    if i > 0 {
      RunBase(l, ss, steps, i - 1);
      assert StepsTo(l, ss[i - 1], steps[i - 1], ss[i - 1 + 1]);
      BaseStep(l, ss[i - 1], steps[i - 1]);
    } else {
      SumBounds(map[], ss[0].procs);
    }
  }

  /** Group atomicity: a commit point is reached only with no operation running, and then
      readers and the durable version agree on every home block. */
  lemma CommitIsQuiescent(l: Layout, ss: seq<State>, steps: seq<Step>, i: nat)
    requires IsRun(l, ss, steps) && i < |steps| && steps[i] == CommitPoint
    ensures ss[i].ops == map[] && ss[i].outstanding == 0
    ensures |ss[i + 1].durable| == |ss[i + 1].disk|
    ensures SameHome(l, Current(l, ss[i + 1]), ss[i + 1].durable)
  {
    RunBase(l, ss, steps, i);
    assert StepsTo(l, ss[i], steps[i], ss[i + 1]);
    QuiescentState(l, ss[i]);
  }

  lemma QuiescentState(l: Layout, s: State)
    requires Base(l, s) && Enabled(l, s, CommitPoint)
    ensures s.ops == map[] && s.outstanding == 0
    ensures var s' := Do(l, s, CommitPoint);
      |s'.durable| == |s'.disk| && SameHome(l, Current(l, s'), s'.durable)
  {
    SumBounds(s.ops, s.procs);
    WriteKeepsCurrent(l, s, l.start, HeaderBlock(s.disk[l.start], s.lh), Do(l, s, CommitPoint));
  }

  // ---------- write-ahead rule ----------

  /** Between commits the dirty buffers are exactly the listed blocks, and none of them
      can be recycled. */
  lemma DirtyAreListed(l: Layout, ss: seq<State>, steps: seq<Step>, i: nat, b: int)
    requires SafeArea(l) && IsRun(l, ss, steps) && i < |ss| && (ss[i].phase == Idle || ss[i].phase.Copying?)
    ensures (b in ss[i].cache && ss[i].cache[b].dirty) <==> b in ss[i].lh
    ensures b in ss[i].lh ==> !Enabled(l, ss[i], Evict(b))
  {
    RunInv(l, ss, steps, i);
    DirtyListed(l, ss[i], b);
  }

  lemma DirtyListed(l: Layout, s: State, b: int)
    requires Inv(l, s) && (s.phase == Idle || s.phase.Copying?)
    ensures (b in s.cache && s.cache[b].dirty) <==> b in s.lh
  {
    if b in s.lh {
      var k :| 0 <= k < |s.lh| && s.lh[k] == b;
    }
  }

  /** From its log_write up to the header write of its transaction (or a crash), a block
      stays listed and pinned, and no home block changes on disk. */
  lemma PinnedUntilCommit(l: Layout, ss: seq<State>, steps: seq<Step>, t: int, b: int, i: nat, j: nat)
    requires SafeArea(l) && IsRun(l, ss, steps) && i < j < |ss| && steps[i] == LogWrite(t, b)
    requires forall k :: i < k < j ==> steps[k] != CommitPoint && steps[k] != Crash
    ensures b in ss[j].lh && b in ss[j].cache && ss[j].cache[b].dirty
    ensures SameHome(l, ss[j].disk, ss[i].disk)
  {
    PinnedRun(l, ss, steps, t, b, i, j);
    RunInv(l, ss, steps, j);
    DirtyListed(l, ss[j], b);
  }

  /** The block is listed, the transaction not yet committed, and home as in `s`. */
  ghost predicate Waiting(l: Layout, s: State, b: int, s': State) {
    (s'.phase == Idle || s'.phase.Copying?) && b in s'.lh && SameHome(l, s'.disk, s.disk)
  }

  lemma {:induction false} PinnedRun(l: Layout, ss: seq<State>, steps: seq<Step>, t: int, b: int, i: nat, j: nat)
    requires SafeArea(l) && IsRun(l, ss, steps) && i < j < |ss| && steps[i] == LogWrite(t, b)
    requires forall k :: i < k < j ==> steps[k] != CommitPoint && steps[k] != Crash
    ensures Waiting(l, ss[i], b, ss[j])
  {
    if j == i + 1 {
      PinnedFirst(l, ss, steps, t, b, i);
    } else {
      PinnedRun(l, ss, steps, t, b, i, j - 1);
      PinnedNext(l, ss, steps, ss[i], b, j - 1);
    }
  }

  lemma PinnedFirst(l: Layout, ss: seq<State>, steps: seq<Step>, t: int, b: int, i: nat)
    requires SafeArea(l) && IsRun(l, ss, steps) && i < |steps| && steps[i] == LogWrite(t, b)
    ensures Waiting(l, ss[i], b, ss[i + 1])
  {
    RunInv(l, ss, steps, i);
    assert StepsTo(l, ss[i], steps[i], ss[i + 1]);
    LoggedNow(l, ss[i], t, b, ss[i + 1]);
  }

  lemma PinnedNext(l: Layout, ss: seq<State>, steps: seq<Step>, s0: State, b: int, j: nat)
    requires SafeArea(l) && IsRun(l, ss, steps) && j < |steps| && steps[j] != CommitPoint && steps[j] != Crash
    requires Waiting(l, s0, b, ss[j])
    ensures Waiting(l, s0, b, ss[j + 1])
  {
    RunInv(l, ss, steps, j);
    assert StepsTo(l, ss[j], steps[j], ss[j + 1]);
    PinnedStep(l, s0, ss[j], steps[j], b, ss[j + 1]);
  }

  lemma LoggedNow(l: Layout, s: State, t: int, b: int, s': State)
    requires Inv(l, s) && StepsTo(l, s, LogWrite(t, b), s')
    ensures Waiting(l, s, b, s')
  {
    assert t in s.ops;
  }

  lemma PinnedStep(l: Layout, s0: State, s: State, step: Step, b: int, s': State)
    requires Inv(l, s) && StepsTo(l, s, step, s') && step != CommitPoint && step != Crash
    requires Waiting(l, s0, b, s)
    ensures Waiting(l, s0, b, s')
  {
  }

  // ---------- reservation ----------

  /** In every reachable state: what is logged plus all unspent budgets fits the log, a
      commit excludes running operations, so end_op's panic on `log.committing` and
      log_write's panic on `outstanding` cannot happen inside an operation. */
  lemma ReservationHolds(l: Layout, ss: seq<State>, steps: seq<Step>, i: nat)
    requires IsRun(l, ss, steps) && i < |ss|
    ensures |ss[i].lh| + Unspent(ss[i].ops, ss[i].procs) <= LOGSIZE
    ensures ss[i].committing ==> ss[i].ops == map[] && ss[i].outstanding == 0
    ensures forall t :: t in ss[i].ops ==> !ss[i].committing && ss[i].outstanding >= 1
  {
    RunBase(l, ss, steps, i);
    SumBounds(ss[i].ops, ss[i].procs);
  }

  /** log_write by any running operation, for a new block or one it has logged already, panics
      exactly when the list is full or the log area has no block left.  An operation with budget
      left meets only the second; where the area holds LOGSIZE data blocks beside the header,
      only the first can happen, and then every running operation has spent its whole budget. */
  lemma LogWritePanicsIff(l: Layout, ss: seq<State>, steps: seq<Step>, i: nat, t: int)
    requires IsRun(l, ss, steps) && i < |ss| && t in ss[i].ops
    ensures LogWritePanics(l, ss[i]) <==> |ss[i].lh| == LOGSIZE || |ss[i].lh| >= l.size - 1
    ensures |ss[i].ops[t]| < MAXOPBLOCKS ==> (LogWritePanics(l, ss[i]) <==> |ss[i].lh| >= l.size - 1)
    ensures l.size > LOGSIZE ==> (LogWritePanics(l, ss[i]) <==> |ss[i].lh| == LOGSIZE)
    ensures |ss[i].lh| == LOGSIZE ==> forall u :: u in ss[i].ops ==> |ss[i].ops[u]| == MAXOPBLOCKS
  {
    ReservationHolds(l, ss, steps, i);
    RunBase(l, ss, steps, i);
    SumBounds(ss[i].ops, ss[i].procs);
  }

  // ---------- where the reservation is not enough ----------

  ghost predicate Last(ss: seq<State>, s: State) {
    ss != [] && ss[|ss| - 1] == s
  }

  /** Neither a commit nor a crash. */
  ghost predicate Uncommitted(steps: seq<Step>) {
    forall i :: 0 <= i < |steps| ==> steps[i] != CommitPoint && steps[i] != Crash
  }

  /** A run without a commit that ends there. */
  ghost predicate Run(l: Layout, ss: seq<State>, steps: seq<Step>, s: State) {
    IsRun(l, ss, steps) && Last(ss, s) && Uncommitted(steps)
  }

  lemma Extend(l: Layout, ss: seq<State>, steps: seq<Step>, s: State, step: Step)
    returns (ss': seq<State>, steps': seq<Step>, s': State)
    requires Run(l, ss, steps, s)
    requires |s.durable| == |s.disk| && Enabled(l, s, step) && step != CommitPoint && step != Crash
    ensures Run(l, ss', steps', s') && s' == Do(l, s, step)
  {
    s' := Do(l, s, step);
    ss', steps' := ss + [s'], steps + [step];
    forall i | 0 <= i < |steps'| ensures StepsTo(l, ss'[i], steps'[i], ss'[i + 1]) {
      if i < |steps| { assert StepsTo(l, ss[i], steps[i], ss[i + 1]); }
    }
  }

  /** Three operations have logged the first `n` blocks after the log area; `held` says which of
      them holds which block, `passed` which are in log_write.  The disk came up as `d`. */
  ghost predicate Work(l: Layout, d: Disk, s: State, n: nat, held: map<int, int>, passed: map<int, int>) {
    && Base(l, s) && s.durable == d && |s.disk| == |d| && s.procs == 3 && s.phase == Idle
    && LogEmpty(l, s.disk) && s.lh == seq(n, i => l.start + l.size + i) && s.passed == passed
    && 0 in s.ops && 1 in s.ops && 2 in s.ops && |s.ops[0]| + |s.ops[1]| + |s.ops[2]| == n
    && (forall b :: b in s.cache ==> s.cache[b].owner == if b in held then Held(held[b]) else Free)
    && (forall b :: b in held ==> b in s.cache)
  }

  lemma WorkBread(l: Layout, d: Disk, s: State, n: nat, held: map<int, int>, t: int, b: int)
    requires Work(l, d, s, n, held, map[]) && Home(l, |d|, b) && b !in held
    ensures Enabled(l, s, Bread(t, b)) && Work(l, d, Do(l, s, Bread(t, b)), n, held[b := t], map[])
    ensures Do(l, s, Bread(t, b)).ops == s.ops
  {
    BaseStep(l, s, Bread(t, b));
  }

  lemma WorkTest(l: Layout, d: Disk, s: State, n: nat, held: map<int, int>, passed: map<int, int>, t: int, b: int)
    requires Work(l, d, s, n, held, passed) && b in held && held[b] == t && t !in passed
    requires t in s.ops && |s.ops[t]| < MAXOPBLOCKS && n + 1 < l.size
    ensures Enabled(l, s, LogTest(t, b)) && Work(l, d, Do(l, s, LogTest(t, b)), n, held, passed[t := b])
    ensures Do(l, s, LogTest(t, b)).ops == s.ops
  {
    SumBounds(s.ops, 3);
    BaseStep(l, s, LogTest(t, b));
  }

  lemma WorkAppend(l: Layout, d: Disk, s: State, n: nat, held: map<int, int>, passed: map<int, int>, t: int, b: int)
    requires Work(l, d, s, n, held, passed) && t in passed && passed[t] == b == l.start + l.size + n
    ensures Enabled(l, s, LogWrite(t, b)) && Work(l, d, Do(l, s, LogWrite(t, b)), n + 1, held, passed - {t})
    ensures Do(l, s, LogWrite(t, b)).ops == s.ops[t := s.ops[t] + {b}] && b !in s.ops[t]
  {
    BaseStep(l, s, LogWrite(t, b));
    assert b !in s.lh;
    assert LoggedIn(s.ops[t], s.lh);
    assert s.lh + [b] == seq(n + 1, i => l.start + l.size + i);
    assert t == 0 || t == 1 || t == 2;
  }

  lemma WorkRelease(l: Layout, d: Disk, s: State, n: nat, held: map<int, int>, t: int, b: int)
    requires Work(l, d, s, n, held, map[]) && b in held && held[b] == t && !s.cache[b].touched
    ensures Enabled(l, s, Brelse(t, b)) && Work(l, d, Do(l, s, Brelse(t, b)), n, held - {b}, map[])
    ensures Do(l, s, Brelse(t, b)).ops == s.ops
  {
    BaseStep(l, s, Brelse(t, b));
  }

  lemma GoBread(l: Layout, d: Disk, ss: seq<State>, steps: seq<Step>, s: State, n: nat, held: map<int, int>,
      t: int, b: int)
    returns (ss': seq<State>, steps': seq<Step>, s': State)
    requires Run(l, ss, steps, s) && Work(l, d, s, n, held, map[]) && Home(l, |d|, b) && b !in held
    ensures Run(l, ss', steps', s') && Work(l, d, s', n, held[b := t], map[]) && s'.ops == s.ops
  {
    WorkBread(l, d, s, n, held, t, b);
    ss', steps', s' := Extend(l, ss, steps, s, Bread(t, b));
  }

  lemma GoTest(l: Layout, d: Disk, ss: seq<State>, steps: seq<Step>, s: State, n: nat, held: map<int, int>,
      passed: map<int, int>, t: int, b: int)
    returns (ss': seq<State>, steps': seq<Step>, s': State)
    requires Run(l, ss, steps, s) && Work(l, d, s, n, held, passed) && b in held && held[b] == t && t !in passed
    requires t in s.ops && |s.ops[t]| < MAXOPBLOCKS && n + 1 < l.size
    ensures Run(l, ss', steps', s') && Work(l, d, s', n, held, passed[t := b]) && s'.ops == s.ops
    ensures s'.cache == s.cache
  {
    WorkTest(l, d, s, n, held, passed, t, b);
    ss', steps', s' := Extend(l, ss, steps, s, LogTest(t, b));
  }

  lemma GoAppend(l: Layout, d: Disk, ss: seq<State>, steps: seq<Step>, s: State, n: nat, held: map<int, int>,
      passed: map<int, int>, t: int, b: int)
    returns (ss': seq<State>, steps': seq<Step>, s': State)
    requires Run(l, ss, steps, s) && Work(l, d, s, n, held, passed) && t in passed
    requires passed[t] == b == l.start + l.size + n
    ensures Run(l, ss', steps', s') && Work(l, d, s', n + 1, held, passed - {t})
    ensures t in s.ops && b !in s.ops[t] && s'.ops == s.ops[t := s.ops[t] + {b}]
    ensures b in s.cache && s'.cache == s.cache[b := s.cache[b].(dirty := true, touched := false)]
  {
    WorkAppend(l, d, s, n, held, passed, t, b);
    ss', steps', s' := Extend(l, ss, steps, s, LogWrite(t, b));
  }

  lemma GoRelease(l: Layout, d: Disk, ss: seq<State>, steps: seq<Step>, s: State, n: nat, held: map<int, int>,
      t: int, b: int)
    returns (ss': seq<State>, steps': seq<Step>, s': State)
    requires Run(l, ss, steps, s) && Work(l, d, s, n, held, map[]) && b in held && held[b] == t
    requires !s.cache[b].touched
    ensures Run(l, ss', steps', s') && Work(l, d, s', n, held - {b}, map[]) && s'.ops == s.ops
    ensures s'.cache == s.cache[b := s.cache[b].(owner := Free)]
  {
    WorkRelease(l, d, s, n, held, t, b);
    ss', steps', s' := Extend(l, ss, steps, s, Brelse(t, b));
  }

  lemma GoModify(l: Layout, d: Disk, ss: seq<State>, steps: seq<Step>, s: State, n: nat, held: map<int, int>, t: int,
      b: int, data: Block)
    returns (ss': seq<State>, steps': seq<Step>, s': State)
    requires Run(l, ss, steps, s) && Work(l, d, s, n, held, map[]) && b in held && held[b] == t && t in s.ops
    ensures Run(l, ss', steps', s') && Work(l, d, s', n, held, map[]) && s'.ops == s.ops
    ensures s'.cache[b].data == data
  {
    BaseStep(l, s, Modify(t, b, data));
    ss', steps', s' := Extend(l, ss, steps, s, Modify(t, b, data));
  }

  /** So far within the log area, and each operation as far as the others. */
  ghost predicate Filled(l: Layout, d: Disk, s: State, n: nat) {
    Work(l, d, s, n, map[], map[]) && Level(s.ops)
  }

  predicate Level(ops: map<int, set<int>>)
    requires 0 in ops && 1 in ops && 2 in ops
  {
    && |ops[0]| <= |ops[1]| + 1 && |ops[0]| <= |ops[2]| + 1 && |ops[1]| <= |ops[0]| + 1
    && |ops[1]| <= |ops[2]| + 1 && |ops[2]| <= |ops[0]| + 1 && |ops[2]| <= |ops[1]| + 1
  }

  ghost predicate Blank(l: Layout, d: Disk) {
    Fits(l, d) && IsHeader(d[l.start]) && LogEmpty(l, d) && l.start + l.size + LOGSIZE <= |d|
  }

  lemma {:induction false} FillLog(l: Layout, d: Disk, n: nat)
    returns (ss: seq<State>, steps: seq<Step>, s: State)
    requires Blank(l, d) && n <= LOGSIZE && n < l.size
    ensures Run(l, ss, steps, s) && Filled(l, d, s, n)
  {
    if n == 0 {
      ss, steps, s := ThreeBegin(l, d);
    } else {
      ss, steps, s := FillLog(l, d, n - 1);
      var t;
      ss, steps, s, t := LogOneMore(l, d, ss, steps, s, n - 1);
    }
  }

  lemma ThreeBegin(l: Layout, d: Disk) returns (ss: seq<State>, steps: seq<Step>, s: State)
    requires Blank(l, d)
    ensures Run(l, ss, steps, s) && Filled(l, d, s, 0)
  {
    ss, steps, s := Booted(l, d);
    BaseStep(l, s, BeginOp(0));
    ss, steps, s := Extend(l, ss, steps, s, BeginOp(0));
    BaseStep(l, s, BeginOp(1));
    ss, steps, s := Extend(l, ss, steps, s, BeginOp(1));
    BaseStep(l, s, BeginOp(2));
    ss, steps, s := Extend(l, ss, steps, s, BeginOp(2));
  }

  lemma Booted(l: Layout, d: Disk) returns (ss: seq<State>, steps: seq<Step>, s: State)
    requires Blank(l, d)
    ensures Run(l, ss, steps, s) && Base(l, s) && LogEmpty(l, s.disk)
    ensures |s.disk| == |d| && s.durable == d && s.procs == 3 && s.phase == Idle && s.lh == [] && !s.committing
    ensures s.outstanding == 0 && s.ops == map[] && s.passed == map[]
    ensures forall b :: b in s.cache ==> s.cache[b].owner == Free
  {
    assert HeaderList(d[l.start]) == [];
    s := State(d, map[], [], 0, false, map[], map[], BootRead, d, 3);
    ss, steps := [s], [];
    SumBounds(map[], 3);
    BaseStep(l, s, ReadHeader);
    ss, steps, s := Extend(l, ss, steps, s, ReadHeader);
    BaseStep(l, s, RecoverDone);
    ss, steps, s := Extend(l, ss, steps, s, RecoverDone);
  }

  /** The next block, by an operation that is not ahead of another. */
  lemma LogOneMore(l: Layout, d: Disk, ss: seq<State>, steps: seq<Step>, s: State, n: nat)
    returns (ss': seq<State>, steps': seq<Step>, s': State, t: int)
    requires Run(l, ss, steps, s) && Filled(l, d, s, n) && Blank(l, d) && n < LOGSIZE && n + 1 < l.size
    ensures Run(l, ss', steps', s') && Filled(l, d, s', n + 1)
    ensures t in s'.ops && l.start + l.size + n in s'.ops[t]
  {
    var b := l.start + l.size + n;
    t := Behind(s.ops);
    ss', steps', s' := GoBread(l, d, ss, steps, s, n, map[], t, b);
    ss', steps', s' := LogHeld(l, d, ss', steps', s', n, map[b := t], t, b);
    ss', steps', s' := LetGo(l, d, ss', steps', s', n + 1, map[b := t], t, b);
  }

  lemma LetGo(l: Layout, d: Disk, ss: seq<State>, steps: seq<Step>, s: State, n: nat, held: map<int, int>, t: int,
      b: int)
    returns (ss': seq<State>, steps': seq<Step>, s': State)
    requires Run(l, ss, steps, s) && Work(l, d, s, n, held, map[]) && Level(s.ops)
    requires held == map[b := t] && !s.cache[b].touched
    ensures Run(l, ss', steps', s') && Filled(l, d, s', n) && s'.ops == s.ops
  {
    ss', steps', s' := GoRelease(l, d, ss, steps, s, n, held, t, b);
    assert held - {b} == map[];
  }

  lemma LogHeld(l: Layout, d: Disk, ss: seq<State>, steps: seq<Step>, s: State, n: nat, held: map<int, int>, t: int,
      b: int)
    returns (ss': seq<State>, steps': seq<Step>, s': State)
    requires Run(l, ss, steps, s) && Work(l, d, s, n, held, map[]) && n + 1 < l.size
    requires b == l.start + l.size + n && b in held && held[b] == t && IsBehind(s.ops, t)
    ensures Run(l, ss', steps', s') && Work(l, d, s', n + 1, held, map[])
    ensures Level(s'.ops) && !s'.cache[b].touched && b in s'.ops[t]
  {
    ss', steps', s' := GoTest(l, d, ss, steps, s, n, held, map[], t, b);
    ss', steps', s' := GoAppend(l, d, ss', steps', s', n, held, map[t := b], t, b);
    assert map[t := b] - {t} == map[];
    LevelUp(s.ops, t, b);
  }

  predicate IsBehind(ops: map<int, set<int>>, t: int) {
    && 0 in ops && 1 in ops && 2 in ops && (t == 0 || t == 1 || t == 2) && Level(ops) && |ops[t]| < MAXOPBLOCKS
    && |ops[t]| <= |ops[0]| && |ops[t]| <= |ops[1]| && |ops[t]| <= |ops[2]|
  }

  lemma LevelUp(ops: map<int, set<int>>, t: int, b: int)
    requires IsBehind(ops, t) && b !in ops[t]
    ensures Level(ops[t := ops[t] + {b}])
  {
    assert |ops[t] + {b}| == |ops[t]| + 1;
  }

  lemma ThreeSlots(ops: map<int, set<int>>)
    requires 0 in ops && 1 in ops && 2 in ops
    ensures Running(ops, 3) == 3
  {
    assert Running(ops, 1) == 1;
    assert Running(ops, 2) == 2;
  }

  lemma Behind(ops: map<int, set<int>>) returns (t: int)
    requires 0 in ops && 1 in ops && 2 in ops && |ops[0]| + |ops[1]| + |ops[2]| < LOGSIZE && Level(ops)
    ensures IsBehind(ops, t)
  {
    t := if |ops[0]| <= |ops[1]| && |ops[0]| <= |ops[2]| then 0 else if |ops[1]| <= |ops[2]| then 1 else 2;
  }

  // ---------- the panic ----------

  /** In state i of a run, operation t has budget left and log_write panics. */
  ghost predicate Panics(l: Layout, ss: seq<State>, i: int, t: int) {
    0 <= i < |ss| && t in ss[i].ops && |ss[i].ops[t]| < MAXOPBLOCKS && LogWritePanics(l, ss[i])
  }

  /** In state i of a run, the list has more blocks than the log area has room for. */
  ghost predicate Overruns(l: Layout, ss: seq<State>, i: int) {
    0 <= i < |ss| && |ss[i].lh| >= l.size
  }

  /** A log area of at most LOGSIZE blocks counting the header, such as the one mkfs makes, is
      too small: a run within all budgets reaches the panic. */
  lemma MkfsLogIsOneShort(l: Layout, d: Disk) returns (ss: seq<State>, steps: seq<Step>, t: int)
    requires Blank(l, d) && l.size <= LOGSIZE
    ensures IsRun(l, ss, steps) && Panics(l, ss, |ss| - 1, t)
  {
    var s;
    ss, steps, s := FillLog(l, d, l.size - 1);
    t := Behind(s.ops);
  }

  /** The test runs before absorption: however large the log area, a full log panics even
      when an operation only logs again a block it has already logged. */
  lemma AbsorbedWriteCanPanic(l: Layout, d: Disk) returns (ss: seq<State>, steps: seq<Step>, t: int, b: int)
    requires Blank(l, d) && l.size > LOGSIZE
    ensures IsRun(l, ss, steps)
    ensures var s := ss[|ss| - 1]; t in s.ops && b in s.ops[t] && b in s.lh && LogWritePanics(l, s)
  {
    var s;
    ss, steps, s := FillLog(l, d, LOGSIZE - 1);
    ss, steps, s, t := LogOneMore(l, d, ss, steps, s, LOGSIZE - 1);
    b := l.start + l.size + LOGSIZE - 1;
    assert s.lh[LOGSIZE - 1] == b;
  }

  // ---------- two tests before two appends ----------

  lemma TwoBehind(ops: map<int, set<int>>) returns (t: int, u: int)
    requires 0 in ops && 1 in ops && 2 in ops && |ops[0]| + |ops[1]| + |ops[2]| + 2 <= LOGSIZE && Level(ops)
    ensures t != u && t in ops && u in ops && |ops[t]| < MAXOPBLOCKS && |ops[u]| < MAXOPBLOCKS
  {
    if |ops[0]| == MAXOPBLOCKS {
      t, u := 1, 2;
    } else if |ops[1]| == MAXOPBLOCKS {
      t, u := 0, 2;
    } else {
      t, u := 0, 1;
    }
  }

  /** Room for one more block, and two operations with budget that hold the next two. */
  ghost predicate Poised(l: Layout, d: Disk, s: State, n: nat, held: map<int, int>, t: int, u: int, b: int) {
    && n + 2 == l.size && b == l.start + l.size + n && held == map[b := t, b + 1 := u]
    && t != u && t in s.ops && u in s.ops && |s.ops[t]| < MAXOPBLOCKS && |s.ops[u]| < MAXOPBLOCKS
  }

  lemma ReachPoised(l: Layout, d: Disk, data: Block, n: nat, b: int)
    returns (ss: seq<State>, steps: seq<Step>, s: State, t: int, u: int, held: map<int, int>)
    requires Blank(l, d) && l.size == n + 2 <= LOGSIZE && b == l.start + l.size + n
    ensures Run(l, ss, steps, s) && Work(l, d, s, n, held, map[]) && Poised(l, d, s, n, held, t, u, b)
    ensures s.cache[b + 1].data == data
  {
    ss, steps, s := FillLog(l, d, n);
    t, u := TwoBehind(s.ops);
    ss, steps, s, held := HoldTwo(l, d, ss, steps, s, n, t, u, b);
    ss, steps, s := GoModify(l, d, ss, steps, s, n, held, u, b + 1, data);
  }

  lemma HoldTwo(l: Layout, d: Disk, ss: seq<State>, steps: seq<Step>, s: State, n: nat, t: int, u: int, b: int)
    returns (ss': seq<State>, steps': seq<Step>, s': State, held: map<int, int>)
    requires Run(l, ss, steps, s) && Work(l, d, s, n, map[], map[])
    requires Home(l, |d|, b) && Home(l, |d|, b + 1)
    ensures Run(l, ss', steps', s') && Work(l, d, s', n, held, map[])
    ensures s'.ops == s.ops && held == map[b := t, b + 1 := u]
  {
    held := map[b := t, b + 1 := u];
    ss', steps', s' := GoBread(l, d, ss, steps, s, n, map[], t, b);
    ss', steps', s' := GoBread(l, d, ss', steps', s', n, map[b := t], u, b + 1);
    assert map[b := t][b + 1 := u] == held;
  }

  /** Both pass the test. */
  lemma BothTest(l: Layout, d: Disk, ss: seq<State>, steps: seq<Step>, s: State, n: nat, held: map<int, int>, t: int,
      u: int, b: int)
    returns (ss': seq<State>, steps': seq<Step>, s': State, passed: map<int, int>)
    requires Run(l, ss, steps, s) && Work(l, d, s, n, held, map[]) && Poised(l, d, s, n, held, t, u, b)
    ensures Run(l, ss', steps', s') && Work(l, d, s', n, held, passed) && s'.cache == s.cache
    ensures passed == map[t := b, u := b + 1]
  {
    ss', steps', s' := GoTest(l, d, ss, steps, s, n, held, map[], t, b);
    ss', steps', s' := GoTest(l, d, ss', steps', s', n, held, map[t := b], u, b + 1);
    passed := map[t := b, u := b + 1];
    assert map[t := b][u := b + 1] == passed;
  }

  /** Then both append: the list outgrows the log area. */
  lemma BothAppend(l: Layout, d: Disk, ss: seq<State>, steps: seq<Step>, s: State, n: nat, held: map<int, int>,
      passed: map<int, int>, t: int, u: int, b: int)
    returns (ss': seq<State>, steps': seq<Step>, s': State)
    requires Run(l, ss, steps, s) && Work(l, d, s, n, held, passed) && n + 2 == l.size
    requires b == l.start + l.size + n && t != u && passed == map[t := b, u := b + 1] && b in held && b + 1 in held
    ensures Run(l, ss', steps', s') && Work(l, d, s', n + 2, held, map[])
    ensures s'.cache[b + 1].data == s.cache[b + 1].data && !s'.cache[b].touched && !s'.cache[b + 1].touched
  {
    ss', steps', s' := GoAppend(l, d, ss, steps, s, n, held, passed, t, b);
    assert passed - {t} == map[u := b + 1];
    ss', steps', s' := LastAppend(l, d, ss', steps', s', n + 1, held, u, b + 1);
  }

  lemma LastAppend(l: Layout, d: Disk, ss: seq<State>, steps: seq<Step>, s: State, n: nat, held: map<int, int>,
      u: int, b: int)
    returns (ss': seq<State>, steps': seq<Step>, s': State)
    requires Run(l, ss, steps, s) && Work(l, d, s, n, held, map[u := b]) && b == l.start + l.size + n
    ensures Run(l, ss', steps', s') && Work(l, d, s', n + 1, held, map[])
    ensures b in s.cache && s'.cache == s.cache[b := s.cache[b].(dirty := true, touched := false)]
  {
    ss', steps', s' := GoAppend(l, d, ss, steps, s, n, held, map[u := b], u, b);
    assert map[u := b] - {u} == map[];
  }

  lemma BothRelease(l: Layout, d: Disk, ss: seq<State>, steps: seq<Step>, s: State, n: nat, held: map<int, int>,
      t: int, u: int, b: int)
    returns (ss': seq<State>, steps': seq<Step>, s': State)
    requires Run(l, ss, steps, s) && Work(l, d, s, n, held, map[]) && held == map[b := t, b + 1 := u]
    requires !s.cache[b].touched && !s.cache[b + 1].touched
    ensures Run(l, ss', steps', s') && Work(l, d, s', n, map[], map[])
    ensures b + 1 in s'.cache && s'.cache[b + 1].data == s.cache[b + 1].data
  {
    ss', steps', s' := GoRelease(l, d, ss, steps, s, n, held, t, b);
    assert held - {b} == map[b + 1 := u];
    ss', steps', s' := GoRelease(l, d, ss', steps', s', n, map[b + 1 := u], u, b + 1);
    assert map[b + 1 := u] - {b + 1} == map[];
  }

  lemma ReachOverrun(l: Layout, d: Disk, data: Block, n: nat, b: int)
    returns (ss: seq<State>, steps: seq<Step>, s: State)
    requires Blank(l, d) && l.size == n + 2 <= LOGSIZE && b == l.start + l.size + n
    ensures Run(l, ss, steps, s) && Work(l, d, s, n + 2, map[], map[])
    ensures b + 1 in s.cache && s.cache[b + 1].data == data
  {
    var t, u, held, passed;
    ss, steps, s, t, u, held := ReachPoised(l, d, data, n, b);
    ss, steps, s, passed := BothTest(l, d, ss, steps, s, n, held, t, u, b);
    ss, steps, s := BothAppend(l, d, ss, steps, s, n, held, passed, t, u, b);
    ss, steps, s := BothRelease(l, d, ss, steps, s, n + 2, held, t, u, b);
  }

  // ---------- the commit that follows ----------

  /** The operations from slot k on still run, or write_log has begun; the last listed block is
      cached as `data`. */
  ghost predicate Ending(l: Layout, d: Disk, s: State, data: Block) {
    && Base(l, s) && s.durable == d && |s.disk| == |d| && LogEmpty(l, s.disk) && s.procs == 3 && s.passed == map[]
    && s.lh == seq(l.size, i => l.start + l.size + i)
    && (forall b :: b in s.cache ==> s.cache[b].owner == Free)
    && l.start + 2 * l.size - 1 in s.cache && s.cache[l.start + 2 * l.size - 1].data == data
  }

  lemma GoEnd(l: Layout, d: Disk, ss: seq<State>, steps: seq<Step>, s: State, data: Block, t: int)
    returns (ss': seq<State>, steps': seq<Step>, s': State)
    requires Run(l, ss, steps, s) && Ending(l, d, s, data) && t in s.ops
    ensures Run(l, ss', steps', s') && Ending(l, d, s', data) && s'.ops == s.ops - {t}
    ensures s'.phase == if s'.outstanding == 0 then Copying(0) else s.phase
    ensures s'.outstanding == s.outstanding - 1
  {
    BaseStep(l, s, EndOp(t));
    ss', steps', s' := Extend(l, ss, steps, s, EndOp(t));
  }

  lemma EndThree(l: Layout, d: Disk, ss: seq<State>, steps: seq<Step>, s: State, data: Block)
    returns (ss': seq<State>, steps': seq<Step>, s': State)
    requires Run(l, ss, steps, s) && Ending(l, d, s, data)
    requires 0 in s.ops && 1 in s.ops && 2 in s.ops && s.outstanding == 3
    ensures Run(l, ss', steps', s') && Ending(l, d, s', data) && s'.phase == Copying(0)
  {
    ss', steps', s' := GoEnd(l, d, ss, steps, s, data, 0);
    ss', steps', s' := GoEnd(l, d, ss', steps', s', data, 1);
    ss', steps', s' := GoEnd(l, d, ss', steps', s', data, 2);
  }

  /** write_log follows the list out of the log area. */
  lemma {:induction false} CopyAll(l: Layout, d: Disk, ss: seq<State>, steps: seq<Step>, s: State, data: Block, k: nat)
    returns (ss': seq<State>, steps': seq<Step>, s': State)
    requires Run(l, ss, steps, s) && Ending(l, d, s, data) && s.phase == Copying(0) && k < l.size
    requires l.start + l.size + LOGSIZE <= |d| && 2 <= l.size <= LOGSIZE
    ensures Run(l, ss', steps', s') && Ending(l, d, s', data) && s'.phase == Copying(k)
    decreases k
  {
    if k == 0 {
      ss', steps', s' := ss, steps, s;
    } else {
      ss', steps', s' := CopyAll(l, d, ss, steps, s, data, k - 1);
      CopyOne(l, d, s', data, k - 1);
      BaseStep(l, s', CopyBlock);
      ss', steps', s' := Extend(l, ss', steps', s', CopyBlock);
    }
  }

  lemma CopyOne(l: Layout, d: Disk, s: State, data: Block, k: nat)
    requires Ending(l, d, s, data) && s.phase == Copying(k) && k < l.size
    requires l.start + l.size + LOGSIZE <= |d| && 2 <= l.size <= LOGSIZE
    ensures Enabled(l, s, CopyBlock)
    ensures var s' := Do(l, s, CopyBlock);
      && (k + 1 < l.size ==> Ending(l, d, s', data))
      && (k + 1 == l.size ==> WroteHome(l, d, s', data))
  {
    BaseStep(l, s, CopyBlock);
  }

  /** After a crash in this state the home blocks are, once recovery is done, those of the last
      commit point. */
  ghost predicate Survives(l: Layout, s: State) {
    GoodHeader(l, s.disk) && SameHome(l, Recover(l, s.disk), s.durable)
  }

  lemma HomeChanged(l: Layout, s: State, b: int)
    requires Fits(l, s.disk) && IsHeader(s.disk[l.start]) && LogEmpty(l, s.disk) && |s.durable| == |s.disk|
    requires Home(l, |s.disk|, b) && s.disk[b] != s.durable[b]
    ensures !Survives(l, s)
  {
    assert HeaderList(s.disk[l.start]) == [];
    var ws := RecoverWrites(l, s.disk);
    assert |ws| == 1 && ws[0].bno == l.start;
    assert Apply(s.disk, ws, 0) == s.disk;
    assert Recover(l, s.disk) == Apply(s.disk, ws, 1) && Recover(l, s.disk)[b] == s.disk[b];
    assert Home(l, |Recover(l, s.disk)|, b);
  }

  /** In an area of 2 to LOGSIZE blocks two operations can test before either appends.  The list
      outgrows the area, write_log writes past its end, and a crash before any commit leaves a home
      block that no commit wrote. */
  lemma TwoTestsOverrun(l: Layout, d: Disk) returns (ss: seq<State>, steps: seq<Step>)
    requires Blank(l, d) && 2 <= l.size <= LOGSIZE
    ensures IsRun(l, ss, steps) && Uncommitted(steps) && ss[|ss| - 1].durable == d
    ensures Overruns(l, ss, |ss| - 1) && !Survives(l, ss[|ss| - 1])
  {
    var x := l.start + l.size;
    var data := if d[x] == Block([]) then Block([0]) else Block([]);
    var s;
    ss, steps, s := ReachOverrun(l, d, data, l.size - 2, x + l.size - 2);
    ss, steps, s := CommitOverrun(l, d, ss, steps, s, data);
    HomeChanged(l, s, x);
  }

  lemma CommitOverrun(l: Layout, d: Disk, ss: seq<State>, steps: seq<Step>, s: State, data: Block)
    returns (ss': seq<State>, steps': seq<Step>, s': State)
    requires Run(l, ss, steps, s) && Work(l, d, s, l.size, map[], map[]) && Blank(l, d) && 2 <= l.size <= LOGSIZE
    requires l.start + 2 * l.size - 1 in s.cache && s.cache[l.start + 2 * l.size - 1].data == data
    ensures Run(l, ss', steps', s') && WroteHome(l, d, s', data)
  {
    ThreeSlots(s.ops);
    ss', steps', s' := EndThree(l, d, ss, steps, s, data);
    ss', steps', s' := CopyAll(l, d, ss', steps', s', data, l.size - 1);
    CopyOne(l, d, s', data, l.size - 1);
    ss', steps', s' := Extend(l, ss', steps', s', CopyBlock);
  }

  /** write_log has written the first home block, which no commit has. */
  ghost predicate WroteHome(l: Layout, d: Disk, s: State, data: Block) {
    && Fits(l, s.disk) && IsHeader(s.disk[l.start]) && LogEmpty(l, s.disk) && |s.disk| == |d| && s.durable == d
    && l.start + l.size < |d| && s.disk[l.start + l.size] == data && |s.lh| == l.size
  }

  // ---------- which areas are safe ----------

  /** No run within budgets reaches the panic or outgrows the log area exactly when the area holds
      LOGSIZE data blocks beside the header. */
  lemma BudgetsSafeIff(l: Layout, d: Disk)
    requires Blank(l, d)
    ensures l.size > LOGSIZE <==>
      forall ss: seq<State>, steps: seq<Step>, i: int, t: int {:trigger IsRun(l, ss, steps), Panics(l, ss, i, t)} ::
        IsRun(l, ss, steps) ==> !Panics(l, ss, i, t) && !Overruns(l, ss, i)
  {
    if l.size > LOGSIZE {
      forall ss: seq<State>, steps: seq<Step>, i: int, t: int | IsRun(l, ss, steps)
        ensures !Panics(l, ss, i, t) && !Overruns(l, ss, i)
      {
        if 0 <= i < |ss| {
          ReservationHolds(l, ss, steps, i);
          RunBase(l, ss, steps, i);
          SumBounds(ss[i].ops, ss[i].procs);
        }
      }
    } else {
      var ss, steps, t := MkfsLogIsOneShort(l, d);
    }
  }

  /** The log keeps its promise of durability in every state of every run exactly when the size of
      its area is a safe one, and that is exactly when no run outgrows it. */
  lemma DurableIff(l: Layout, d: Disk)
    requires Blank(l, d)
    ensures SafeArea(l) <==>
      forall ss: seq<State>, steps: seq<Step>, i: int {:trigger IsRun(l, ss, steps), ss[i]} ::
        IsRun(l, ss, steps) && 0 <= i < |ss| ==> Survives(l, ss[i])
    ensures SafeArea(l) <==>
      forall ss: seq<State>, steps: seq<Step>, i: int {:trigger IsRun(l, ss, steps), Overruns(l, ss, i)} ::
        IsRun(l, ss, steps) ==> !Overruns(l, ss, i)
  {
    if SafeArea(l) {
      forall ss: seq<State>, steps: seq<Step>, i: int | IsRun(l, ss, steps) && 0 <= i < |ss|
        ensures Survives(l, ss[i]) && !Overruns(l, ss, i)
      {
        RunDurable(l, ss, steps, i, []);
        RunInv(l, ss, steps, i);
      }
    } else {
      var ss, steps := TwoTestsOverrun(l, d);
    }
  }
}
