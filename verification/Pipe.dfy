/** A pipe: its circular buffer with 32-bit counters, and who sleeps on it.

    pipewrite and piperead give up the pipe's lock only in sleep, so an execution is an
    interleaving of the segments between sleeps; but kill does not take that lock, and can come
    between the end of a segment and the sleep. `Pipe` has one method per segment; the step
    system below it follows any number of readers and writers from segment to segment, with the
    bytes stored and taken as the methods' contracts have them. */
module Pipe {

  const PIPESIZE: int := 512
  const U32: int := 0x1_0000_0000

  datatype Outcome = Done | Blocked | Failed

  function Least(x: int, y: int): (m: int) {
    if x <= y then x else y
  }

  /** How many of n bytes a write stores, and how many up to n a read takes, where `used` are in
      the buffer. */
  function WriteCount(n: int, used: int): (k: int)
    ensures 0 <= n && 0 <= used <= PIPESIZE ==> 0 <= k <= n && used + k <= PIPESIZE
  {
    Least(n, PIPESIZE - used)
  }

  function ReadCount(n: int, used: int): (k: int)
    ensures 0 <= used ==> 0 <= k <= used
  {
    if n <= 0 then 0 else Least(n, used)
  }

  /** Two counters that differ by at most PIPESIZE agree modulo 2^32 only if they are equal. */
  lemma CountersAgree(w: int, r: int)
    requires 0 <= w - r <= PIPESIZE
    ensures w % U32 == (r + PIPESIZE) % U32 <==> w == r + PIPESIZE
    ensures w % U32 == r % U32 <==> w == r
  {
  }

  /** The test for a full pipe, on wrapped counters. */
  lemma FullIs(nwrite: int, nread: int, w: int, r: int)
    requires 0 <= r <= w <= r + PIPESIZE && nwrite == w % U32 && nread == r % U32
    ensures nwrite == (nread + PIPESIZE) % U32 <==> w - r == PIPESIZE
  {
    CountersAgree(w, r);
    assert (nread + PIPESIZE) % U32 == (r + PIPESIZE) % U32;
  }

  /** PIPESIZE divides 2^32, so a wrapped counter indexes the same slot. */
  lemma SlotOfCounter(k: int)
    requires 0 <= k
    ensures k % U32 % PIPESIZE == k % PIPESIZE
    ensures (k % U32 + 1) % U32 == (k + 1) % U32
  {
  }

  lemma SlotsDiffer(j: int, k: int)
    requires j < k < j + PIPESIZE
    ensures j % PIPESIZE != k % PIPESIZE
  {
  }

  class Pipe {
    const data: array<char>
    var nread: int
    var nwrite: int
    var readopen: bool
    var writeopen: bool
    /** Every byte ever stored, and every byte ever handed to a reader, in order. */
    ghost var stored: seq<char>
    ghost var taken: seq<char>

    /** The pipe is a queue: the bytes taken are a prefix of the bytes stored, and the buffer
        holds the rest, at most PIPESIZE of them. */
    ghost predicate Valid()
      reads this, data
    {
      && data.Length == PIPESIZE
      && taken <= stored && |stored| - |taken| <= PIPESIZE
      && nwrite == |stored| % U32 && nread == |taken| % U32
      && Buffered(data[..], stored, |taken|)
    }

    constructor ()
      ensures Valid() && stored == [] && taken == [] && readopen && writeopen && fresh(data)
    {
      data := new char[PIPESIZE];
      nread, nwrite, readopen, writeopen, stored, taken := 0, 0, true, true, [], [];
    }

    /** A segment of pipewrite: stores bytes of addr from position i until all are stored or the
        pipe is full. Full, it sleeps, or gives up when there is no reader or the writer has
        been killed. */
    method WriteSome(addr: seq<char>, i: int, killed: bool) returns (i': int, r: Outcome)
      requires Valid() && 0 <= i <= |addr|
      modifies this, data
      ensures Valid() && taken == old(taken) && readopen == old(readopen) && writeopen == old(writeopen)
      ensures i <= i' <= |addr| && stored == old(stored) + addr[i..i']
      ensures i' - i == WriteCount(|addr| - i, |old(stored)| - |taken|)
      ensures r.Done? <==> i' == |addr|
      ensures !r.Done? ==> |stored| - |taken| == PIPESIZE && (r.Failed? <==> !readopen || killed)
    {
      i' := i;
      while i' < |addr|
        invariant i <= i' <= |addr| && Valid() && stored == old(stored) + addr[i..i']
        invariant taken == old(taken) && readopen == old(readopen) && writeopen == old(writeopen)
      {
        FullIs(nwrite, nread, |stored|, |taken|);
        if nwrite == (nread + PIPESIZE) % U32 {
          if !readopen || killed {
            return i', Failed;
          }
          return i', Blocked;
        }
        Store(addr[i']);
        i' := i' + 1;
      }
      return i', Done;
    }

    method Store(c: char)
      requires Valid() && |stored| - |taken| < PIPESIZE
      modifies this`nwrite, this`stored, data
      ensures Valid() && stored == old(stored) + [c]
    {
      ghost var was := data[..];
      SlotOfCounter(|stored|);
      data[nwrite % PIPESIZE] := c;
      nwrite := (nwrite + 1) % U32;
      BufferedStore(was, stored, |taken|, c);
      assert data[..] == was[|stored| % PIPESIZE := c];
      stored := stored + [c];
    }

    /** A segment of piperead: sleeps while the pipe is empty and a writer is left, or gives up
        if the reader has been killed; otherwise takes up to n bytes. */
    method ReadSome(n: int, killed: bool) returns (addr: seq<char>, r: Outcome)
      requires Valid()
      modifies this`nread, this`taken
      ensures Valid() && taken == old(taken) + addr
      ensures !r.Done? <==> |stored| == |old(taken)| && writeopen
      ensures !r.Done? ==> addr == [] && (r.Failed? <==> killed)
      ensures r.Done? ==> |addr| == ReadCount(n, |stored| - |old(taken)|)
      ensures r.Done? && n > 0 && addr == [] ==> |stored| == |taken| && !writeopen
    {
      addr := [];
      CountersAgree(|stored|, |taken|);
      if nread == nwrite && writeopen {
        return addr, if killed then Failed else Blocked;
      }
      var i := 0;
      while i < n
        invariant 0 <= i && (i <= n || i == 0) && Valid() && |addr| == i && taken == old(taken) + addr
        decreases n - i
      {
        CountersAgree(|stored|, |taken|);
        if nread == nwrite {
          break;
        }
        var c := Fetch();
        addr := addr + [c];
        i := i + 1;
      }
      return addr, Done;
    }

    method Fetch() returns (c: char)
      requires Valid() && |taken| < |stored|
      modifies this`nread, this`taken
      ensures Valid() && taken == old(taken) + [c]
    {
      SlotOfCounter(|taken|);
      assert Kept(data[..], stored, |taken|);
      c := data[nread % PIPESIZE];
      nread := (nread + 1) % U32;
      taken := taken + [c];
    }

    method Close(writable: bool) returns (gone: bool)
      requires Valid()
      modifies this`readopen, this`writeopen
      ensures Valid() && gone == (!readopen && !writeopen)
      ensures readopen == (old(readopen) && writable) && writeopen == (old(writeopen) && !writable)
    {
      if writable {
        writeopen := false;
      } else {
        readopen := false;
      }
      gone := !readopen && !writeopen;
    }
  }

  predicate Kept(data: seq<char>, stored: seq<char>, k: int)
    requires |data| == PIPESIZE && 0 <= k < |stored|
  {
    data[k % PIPESIZE] == stored[k]
  }

  /** The bytes stored from position `from` on are in the slots that their counters index. */
  ghost predicate Buffered(data: seq<char>, stored: seq<char>, from: int)
    requires |data| == PIPESIZE && 0 <= from
  {
    forall k {:trigger Kept(data, stored, k)} :: from <= k < |stored| ==> Kept(data, stored, k)
  }

  lemma BufferedStore(data: seq<char>, stored: seq<char>, from: int, c: char)
    requires |data| == PIPESIZE && 0 <= from <= |stored| < from + PIPESIZE && Buffered(data, stored, from)
    ensures Buffered(data[|stored| % PIPESIZE := c], stored + [c], from)
  {
    var data', stored' := data[|stored| % PIPESIZE := c], stored + [c];
    forall k | from <= k < |stored'|
      ensures Kept(data', stored', k)
    {
      if k < |stored| {
        assert Kept(data, stored, k);
        SlotsDiffer(k, |stored|);
      }
    }
  }

  // ---------- who sleeps on a pipe ----------

  /** A process is awake; or it has tested, under the pipe's lock, that it must wait and that it
      has not been killed, and is bound to sleep; or it is asleep, in a read or in a write. */
  datatype Doing = Awake | Bound(who: Channel) | Asleep(who: Channel)

  /** Readers sleep on nread, writers on nwrite. */
  datatype Channel = Reader | Writer

  datatype Proc = Proc(doing: Doing, killed: bool)

  /** Every byte ever stored and taken, as in `Pipe`. */
  datatype State = State(stored: seq<char>, taken: seq<char>, readopen: bool, writeopen: bool, procs: seq<Proc>)

  /** Process p writes bytes, or reads up to n, until it is done, gives up or is bound to sleep; it
      goes to sleep and lets go of the pipe's lock; an end is closed; a process is killed, which
      takes no lock of the pipe and wakes only who is asleep already.  A writer that was asleep
      goes on with what it has left. */
  datatype Step =
    | Write(p: int, bytes: seq<char>)
    | Read(p: int, n: int)
    | Sleep(p: int)
    | Close(writable: bool)
    | Kill(p: int)

  predicate IsProc(s: State, p: int) {
    0 <= p < |s.procs|
  }

  /** Nobody is bound to sleep, and so nobody holds the pipe's lock between two steps. */
  predicate Unlocked(s: State) {
    forall q :: 0 <= q < |s.procs| ==> !s.procs[q].doing.Bound?
  }

  predicate Enabled(s: State, st: Step) {
    match st
    case Write(p, _) => IsProc(s, p) && s.procs[p].doing.Awake? && Unlocked(s)
    case Read(p, _) => IsProc(s, p) && s.procs[p].doing.Awake? && Unlocked(s)
    case Sleep(p) => IsProc(s, p) && s.procs[p].doing.Bound?
    case Close(_) => Unlocked(s)
    case Kill(p) => IsProc(s, p)
  }

  function Woken(x: Proc, who: Channel): (y: Proc) {
    if x.doing == Asleep(who) then x.(doing := Awake) else x
  }

  /** wakeup on the readers' channel, or on the writers'. */
  function Wake(procs: seq<Proc>, who: Channel): (r: seq<Proc>)
    ensures |r| == |procs| && forall q {:trigger r[q]} :: 0 <= q < |procs| ==> r[q] == Woken(procs[q], who)
  {
    seq(|procs|, q requires 0 <= q < |procs| => Woken(procs[q], who))
  }

  /** The bytes in the buffer. */
  function Used(s: State): (n: int) {
    |s.stored| - |s.taken|
  }

  /** The pipe is a queue of at most PIPESIZE bytes. */
  predicate QueueOk(s: State) {
    s.taken <= s.stored && Used(s) <= PIPESIZE
  }

  function Do(s: State, st: Step): (s': State)
    requires Enabled(s, st) && QueueOk(s)
  {
    match st
    case Write(p, bytes) =>
      var k := WriteCount(|bytes|, Used(s));
      var s1 := s.(stored := s.stored + bytes[..k]);
      if k == |bytes| then s1.(procs := Wake(s.procs, Reader))
      else if !s.readopen || s.procs[p].killed then s1
      else s1.(procs := Wake(s.procs, Reader)[p := s.procs[p].(doing := Bound(Writer))])
    case Read(p, n) =>
      if Used(s) == 0 && s.writeopen then
        if s.procs[p].killed then s else s.(procs := s.procs[p := s.procs[p].(doing := Bound(Reader))])
      else
        var k := |s.taken| + ReadCount(n, Used(s));
        s.(taken := s.stored[..k], procs := Wake(s.procs, Writer))
    case Sleep(p) => s.(procs := s.procs[p := s.procs[p].(doing := Asleep(s.procs[p].doing.who))])
    case Close(writable) =>
      if writable then s.(writeopen := false, procs := Wake(s.procs, Reader))
      else s.(readopen := false, procs := Wake(s.procs, Writer))
    case Kill(p) =>
      s.(procs := s.procs[p := Proc(if s.procs[p].doing.Asleep? then Awake else s.procs[p].doing, true)])
  }

  /** A process that is asleep or bound to be, on that channel. */
  predicate Waits(x: Proc, who: Channel) {
    x.doing == Bound(who) || x.doing == Asleep(who)
  }

  /** A waiting writer has reason to wait: the pipe is full and may be read. */
  ghost predicate WritersOk(s: State) {
    forall q :: 0 <= q < |s.procs| && Waits(s.procs[q], Writer) ==> Used(s) == PIPESIZE && s.readopen
  }

  /** A waiting reader has reason to wait: the pipe is empty and may be written. */
  ghost predicate ReadersOk(s: State) {
    forall q :: 0 <= q < |s.procs| && Waits(s.procs[q], Reader) ==> Used(s) == 0 && s.writeopen
  }

  /** At most one process is bound to sleep: it holds the pipe's lock. */
  ghost predicate OneBound(s: State) {
    forall q, r :: 0 <= q < |s.procs| && 0 <= r < |s.procs| && s.procs[q].doing.Bound? && s.procs[r].doing.Bound? ==>
      q == r
  }

  ghost predicate SomeReader(s: State) {
    exists q :: 0 <= q < |s.procs| && s.procs[q].doing == Asleep(Reader)
  }

  /** A write fills the pipe, has bytes left, and its writer gives up, while a reader sleeps. */
  ghost predicate Misses(s: State, st: Step)
    requires Enabled(s, st)
  {
    && st.Write? && Used(s) < PIPESIZE < Used(s) + |st.bytes| && (!s.readopen || s.procs[st.p].killed)
    && SomeReader(s)
  }

  lemma WritersKept(s: State, st: Step)
    requires Enabled(s, st) && QueueOk(s) && WritersOk(s) && OneBound(s)
    ensures QueueOk(Do(s, st)) && WritersOk(Do(s, st)) && OneBound(Do(s, st))
    ensures s.stored <= Do(s, st).stored && s.taken <= Do(s, st).taken
  {
  }

  /** A step loses the wakeup of a sleeping reader exactly when it is such a write. */
  lemma ReadersKeptIff(s: State, st: Step)
    requires Enabled(s, st) && QueueOk(s) && ReadersOk(s)
    ensures ReadersOk(Do(s, st)) <==> !Misses(s, st)
  {
    var s' := Do(s, st);
    if Misses(s, st) {
      var q :| 0 <= q < |s.procs| && s.procs[q].doing == Asleep(Reader);
      assert Waits(s'.procs[q], Reader) && Used(s') == PIPESIZE;
    } else if st.Write? && Used(s) < PIPESIZE < Used(s) + |st.bytes| && (!s.readopen || s.procs[st.p].killed) {
      assert forall q :: 0 <= q < |s.procs| ==> !Waits(s.procs[q], Reader);
    }
  }

  ghost predicate Init(s: State) {
    && s.stored == [] && s.taken == [] && s.readopen && s.writeopen
    && forall q :: 0 <= q < |s.procs| ==> s.procs[q] == Proc(Awake, false)
  }

  ghost predicate IsStep(s: State, st: Step, s': State) {
    Enabled(s, st) && QueueOk(s) && s' == Do(s, st)
  }

  ghost predicate IsRun(run: seq<State>, steps: seq<Step>) {
    && |run| == |steps| + 1 && Init(run[0])
    && forall k {:trigger steps[k]} :: 0 <= k < |steps| ==> IsStep(run[k], steps[k], run[k + 1])
  }

  ghost predicate NoMiss(run: seq<State>, steps: seq<Step>, k: int)
    requires IsRun(run, steps) && 0 <= k < |run|
  {
    forall j {:trigger steps[j]} :: 0 <= j < k ==> !Misses(run[j], steps[j])
  }

  /** Over every run, the bytes taken are a prefix of the bytes stored; no wakeup of a writer is
      lost; and none of a reader is lost up to the first write that gives up on a full pipe while
      a reader sleeps. */
  lemma {:induction false} NoLostWakeup(run: seq<State>, steps: seq<Step>, k: int)
    requires IsRun(run, steps) && 0 <= k < |run|
    ensures QueueOk(run[k]) && WritersOk(run[k]) && OneBound(run[k])
    ensures NoMiss(run, steps, k) ==> ReadersOk(run[k])
    decreases k
  {
    if k > 0 {
      NoLostWakeup(run, steps, k - 1);
      var st := steps[k - 1];
      assert IsStep(run[k - 1], st, run[k]);
      WritersKept(run[k - 1], st);
      if NoMiss(run, steps, k) {
        assert NoMiss(run, steps, k - 1) && !Misses(run[k - 1], st);
        ReadersKeptIff(run[k - 1], st);
      }
    }
  }

  /** That the pipe is a queue never keeps a run from going on: any enabled step can be taken. */
  lemma EnabledSteps(run: seq<State>, steps: seq<Step>, st: Step)
    requires IsRun(run, steps) && Enabled(run[|steps|], st)
    ensures QueueOk(run[|steps|]) && IsRun(run + [Do(run[|steps|], st)], steps + [st])
  {
    NoLostWakeup(run, steps, |steps|);
    var run', steps' := run + [Do(run[|steps|], st)], steps + [st];
    forall k | 0 <= k < |steps'|
      ensures IsStep(run'[k], steps'[k], run'[k + 1])
    {
      assert k < |steps| ==> steps'[k] == steps[k];
    }
  }

  /** A writer of 513 bytes is killed, then fills the pipe and returns, while a reader sleeps: the
      reader sleeps on, with 512 bytes to read. */
  lemma KilledWriterLosesWakeup(bytes: seq<char>) returns (run: seq<State>, steps: seq<Step>)
    requires |bytes| == PIPESIZE + 1
    ensures IsRun(run, steps) && steps == [Read(0, 1), Sleep(0), Kill(1), Write(1, bytes)]
    ensures |run[4].procs| == 2 && run[4].procs[0].doing == Asleep(Reader) && Used(run[4]) == PIPESIZE
    ensures !ReadersOk(run[4])
  {
    var st0, st1, st2, st3 := Read(0, 1), Sleep(0), Kill(1), Write(1, bytes);
    var s0 := State([], [], true, true, [Proc(Awake, false), Proc(Awake, false)]);
    var s1 := Do(s0, st0);
    assert s1.procs == [Proc(Bound(Reader), false), Proc(Awake, false)];
    var s2 := Do(s1, st1);
    assert s2.procs == [Proc(Asleep(Reader), false), Proc(Awake, false)];
    var s3 := Do(s2, st2);
    assert s3.procs == [Proc(Asleep(Reader), false), Proc(Awake, true)];
    var s4 := Do(s3, st3);
    run, steps := [s0, s1, s2, s3, s4], [st0, st1, st2, st3];
    assert Waits(run[4].procs[0], Reader);
  }

  // ---------- who is killed and sleeps ----------

  /** At step i process p tested, not yet killed, and was bound to sleep; at step j it went to
      sleep; and at k it still is, its sleep not broken since. */
  ghost predicate SleepsSince(run: seq<State>, steps: seq<Step>, p: int, i: int, j: int, k: int)
    requires IsRun(run, steps)
  {
    && 0 <= i < j < k < |run| && IsProc(run[k], p) && Tests(run, steps, p, i) && steps[j] == Sleep(p)
    && (forall m :: i < m < j ==> steps[m].Kill?)
    && forall m :: j < m <= k ==> IsProc(run[m], p) && run[m].procs[p].doing.Asleep?
  }

  /** Step i is a read or a write of p that binds it to sleep. */
  ghost predicate Tests(run: seq<State>, steps: seq<Step>, p: int, i: int)
    requires |run| == |steps| + 1
  {
    && 0 <= i < |steps| && (steps[i].Read? || steps[i].Write?) && steps[i].p == p
    && IsProc(run[i], p) && !run[i].procs[p].killed && IsProc(run[i + 1], p) && run[i + 1].procs[p].doing.Bound?
  }

  ghost predicate KilledBetween(steps: seq<Step>, p: int, i: int, j: int)
    requires 0 <= i && j <= |steps|
  {
    exists m :: i < m < j && steps[m] == Kill(p)
  }

  /** A process bound to sleep tested at some step, and only kills came after. */
  lemma {:induction false} BoundSince(run: seq<State>, steps: seq<Step>, p: int, k: int) returns (i: int)
    requires IsRun(run, steps) && 0 <= k < |run| && IsProc(run[k], p) && run[k].procs[p].doing.Bound?
    ensures 0 <= i < k && Tests(run, steps, p, i) && forall m :: i < m < k ==> steps[m].Kill?
    ensures run[k].procs[p].killed <==> KilledBetween(steps, p, i, k)
    decreases k
  {
    var st := steps[k - 1];
    assert IsStep(run[k - 1], st, run[k]);
    NoLostWakeup(run, steps, k - 1);
    if run[k - 1].procs[p].doing.Bound? {
      i := BoundSince(run, steps, p, k - 1);
      OnlyKill(run[k - 1], st, run[k], p);
      if run[k - 1].procs[p].killed {
        var m :| i < m < k - 1 && steps[m] == Kill(p);
      } else if st == Kill(p) {
        assert steps[k - 1] == Kill(p);
      }
    } else {
      i := k - 1;
    }
  }

  /** While a process is bound to sleep nothing but a kill can come in between. */
  lemma OnlyKill(s: State, st: Step, s': State, p: int)
    requires IsStep(s, st, s') && OneBound(s) && IsProc(s, p) && s.procs[p].doing.Bound? && s'.procs[p].doing.Bound?
    ensures st.Kill? && s'.procs[p].killed == (s.procs[p].killed || st == Kill(p))
  {
  }

  /** Every process that sleeps tested and went to sleep so; and it has been killed if and only if
      the kill fell between its test and its sleep. */
  lemma {:induction false} KilledSleepsIff(run: seq<State>, steps: seq<Step>, p: int, k: int) returns (i: int, j: int)
    requires IsRun(run, steps) && 0 <= k < |run| && IsProc(run[k], p) && run[k].procs[p].doing.Asleep?
    ensures SleepsSince(run, steps, p, i, j, k)
    ensures run[k].procs[p].killed <==> KilledBetween(steps, p, i, j)
    decreases k
  {
    var st := steps[k - 1];
    assert IsStep(run[k - 1], st, run[k]);
    if run[k - 1].procs[p].doing.Asleep? {
      i, j := KilledSleepsIff(run, steps, p, k - 1);
    } else {
      j := k - 1;
      i := BoundSince(run, steps, p, k - 1);
    }
  }

  /** So a process can be killed and sleep on, until somebody else wakes it. */
  lemma KilledReaderSleeps() returns (run: seq<State>, steps: seq<Step>)
    ensures IsRun(run, steps) && steps == [Read(0, 1), Kill(0), Sleep(0)]
    ensures run[3].procs == [Proc(Asleep(Reader), true)]
  {
    var st0, st1, st2 := Read(0, 1), Kill(0), Sleep(0);
    var s0 := State([], [], true, true, [Proc(Awake, false)]);
    var s1 := Do(s0, st0);
    assert s1.procs == [Proc(Bound(Reader), false)];
    var s2 := Do(s1, st1);
    assert s2.procs == [Proc(Bound(Reader), true)];
    var s3 := Do(s2, st2);
    run, steps := [s0, s1, s2, s3], [st0, st1, st2];
  }
}
