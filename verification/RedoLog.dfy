/** The on-disk redo log of the xv6 file system: the disk format, the single block
    writes of a commit and of a recovery, and what a crash between any two of them
    leaves behind.

    A block is its 128 words.  The header block holds the count of logged blocks in
    word 0 and their home block numbers in the words after it; words past the count
    are stale and are kept by a header write, as in the source. */
module RedoLog {

  const LOGSIZE: nat := 30
  const WORDS: nat := 128

  datatype Block = Block(words: seq<int>)
  type Disk = seq<Block>

  /** Block `start` is the log header, the next `size - 1` blocks are log data. */
  datatype Layout = Layout(start: nat, size: nat)

  datatype Write = Write(bno: int, data: Block)

  predicate InLog(l: Layout, b: int) {
    l.start <= b < l.start + l.size
  }

  predicate Fits(l: Layout, d: Disk) {
    0 < l.size && l.start + l.size <= |d|
  }

  /** A home block is any block of the disk outside the log. */
  predicate Home(l: Layout, size: nat, b: int) {
    0 <= b < size && !InLog(l, b)
  }

  predicate Distinct(s: seq<int>) {
    forall i, j {:trigger Differ(s, i, j)} :: 0 <= i < |s| && 0 <= j < |s| && i != j ==> Differ(s, i, j)
  }

  predicate Differ(s: seq<int>, i: int, j: int)
    requires 0 <= i < |s| && 0 <= j < |s|
  {
    s[i] != s[j]
  }

  /** A block list that may stand in a header: it fits the header array and the log
      area, and names distinct home blocks. */
  predicate GoodList(l: Layout, size: nat, lh: seq<int>) {
    && |lh| <= LOGSIZE
    && |lh| < l.size
    && Distinct(lh)
    && forall i :: 0 <= i < |lh| ==> Home(l, size, lh[i])
  }

  // ---------- header encoding ----------

  predicate IsHeader(b: Block) {
    |b.words| == WORDS && 0 <= b.words[0] <= LOGSIZE
  }

  function HeaderBlock(prev: Block, lh: seq<int>): (b: Block)
    requires IsHeader(prev) && |lh| <= LOGSIZE
    ensures IsHeader(b)
  {
    Block([|lh|] + lh + prev.words[1 + |lh|..])
  }

  function HeaderList(b: Block): (lh: seq<int>)
    requires IsHeader(b)
    ensures |lh| == b.words[0]
  {
    b.words[1..1 + b.words[0]]
  }

  predicate GoodHeader(l: Layout, d: Disk) {
    && Fits(l, d)
    && IsHeader(d[l.start])
    && GoodList(l, |d|, HeaderList(d[l.start]))
  }

  lemma HeaderRoundTrip(prev: Block, lh: seq<int>)
    requires IsHeader(prev) && |lh| <= LOGSIZE
    ensures HeaderList(HeaderBlock(prev, lh)) == lh
  {
  }

  // ---------- writes, one block at a time ----------

  predicate InRange(d: Disk, ws: seq<Write>) {
    forall i :: 0 <= i < |ws| ==> 0 <= ws[i].bno < |d|
  }

  /** The disk after the first `k` of the writes `ws`. */
  function Apply(d: Disk, ws: seq<Write>, k: nat): (d': Disk)
    requires InRange(d, ws) && k <= |ws|
    ensures |d'| == |d|
  {
    if k == 0 then d else Apply(d, ws, k - 1)[ws[k - 1].bno := ws[k - 1].data]
  }

  /** Copies of `vals` to the log area, in order. */
  function LogCopies(l: Layout, vals: seq<Block>): (ws: seq<Write>) {
    seq(|vals|, i requires 0 <= i < |vals| => Write(l.start + i + 1, vals[i]))
  }

  /** Copies of `vals` to their home blocks, in order. */
  function HomeCopies(lh: seq<int>, vals: seq<Block>): (ws: seq<Write>)
    requires |vals| == |lh|
  {
    seq(|lh|, i requires 0 <= i < |lh| => Write(lh[i], vals[i]))
  }

  function LogData(l: Layout, d: Disk, n: nat): (vals: seq<Block>)
    requires Fits(l, d) && n < l.size
  {
    d[l.start + 1..l.start + 1 + n]
  }

  /** The writes of one commit, in program order: log data, header (the commit point),
      home blocks, cleared header.  An empty transaction writes nothing. */
  function CommitWrites(l: Layout, d: Disk, lh: seq<int>, vals: seq<Block>): (ws: seq<Write>)
    requires Fits(l, d) && IsHeader(d[l.start]) && GoodList(l, |d|, lh) && |vals| == |lh|
    ensures InRange(d, ws)
  {
    if lh == [] then []
    else
      var h := HeaderBlock(d[l.start], lh);
      LogCopies(l, vals) + [Write(l.start, h)] + HomeCopies(lh, vals) + [Write(l.start, HeaderBlock(h, []))]
  }

  /** The writes of one recovery, in program order; all are determined by the disk. */
  function RecoverWrites(l: Layout, d: Disk): (ws: seq<Write>)
    requires GoodHeader(l, d)
    ensures InRange(d, ws)
  {
    var lh := HeaderList(d[l.start]);
    HomeCopies(lh, LogData(l, d, |lh|)) + [Write(l.start, HeaderBlock(d[l.start], []))]
  }

  function Recover(l: Layout, d: Disk): (d': Disk)
    requires GoodHeader(l, d)
  {
    Apply(d, RecoverWrites(l, d), |RecoverWrites(l, d)|)
  }

  // ---------- meaning of a disk ----------

  /** `d` stands for the home contents `target`: a completed recovery from `d` would
      leave every home block as in `target`. */
  ghost predicate Denotes(l: Layout, d: Disk, target: Disk) {
    && GoodHeader(l, d)
    && |target| == |d|
    && var lh := HeaderList(d[l.start]);
    && (forall i :: 0 <= i < |lh| ==> target[lh[i]] == d[l.start + 1 + i])
    && (forall b {:trigger Home(l, |d|, b)} :: Home(l, |d|, b) && b !in lh ==> target[b] == d[b])
  }

  predicate LogEmpty(l: Layout, d: Disk)
    requires Fits(l, d) && IsHeader(d[l.start])
  {
    d[l.start].words[0] == 0
  }

  ghost predicate SameHome(l: Layout, d: Disk, e: Disk) {
    && |d| == |e|
    && forall b {:trigger Home(l, |d|, b)} :: Home(l, |d|, b) ==> d[b] == e[b]
  }

  /** `post` is `d` after a whole transaction: the listed blocks hold the new values and
      every other home block is as it was. */
  ghost predicate After(l: Layout, d: Disk, lh: seq<int>, vals: seq<Block>, post: Disk) {
    && |post| == |d| && |vals| == |lh|
    && (forall i :: 0 <= i < |lh| ==> 0 <= lh[i] < |d| && post[lh[i]] == vals[i])
    && (forall b {:trigger Home(l, |d|, b)} :: Home(l, |d|, b) && b !in lh ==> post[b] == d[b])
  }

  // ---------- one write at a time ----------

  /** Before the commit point, writing log data changes nothing. */
  lemma LogDataStep(l: Layout, d: Disk, target: Disk, i: nat, data: Block)
    requires Denotes(l, d, target) && LogEmpty(l, d) && i + 1 < l.size
    ensures Denotes(l, d[l.start + i + 1 := data], target)
  {
    var d' := d[l.start + i + 1 := data];
    forall b | Home(l, |d'|, b) ensures Home(l, |d|, b) && d'[b] == d[b] { }
  }

  /** The header write is the commit point: the disk now stands for the whole transaction. */
  lemma CommitStep(l: Layout, d: Disk, target: Disk, lh: seq<int>, vals: seq<Block>, post: Disk)
    requires Denotes(l, d, target) && LogEmpty(l, d)
    requires GoodList(l, |d|, lh) && After(l, target, lh, vals, post)
    requires forall i :: 0 <= i < |lh| ==> d[l.start + 1 + i] == vals[i]
    ensures Denotes(l, d[l.start := HeaderBlock(d[l.start], lh)], post)
  {
    HeaderRoundTrip(d[l.start], lh);
    NewHeader(l, d, target, lh, vals, post, d[l.start := HeaderBlock(d[l.start], lh)]);
  }

  lemma NewHeader(l: Layout, d: Disk, target: Disk, lh: seq<int>, vals: seq<Block>, post: Disk, e: Disk)
    requires Denotes(l, d, target) && LogEmpty(l, d)
    requires GoodList(l, |d|, lh) && After(l, target, lh, vals, post)
    requires forall i :: 0 <= i < |lh| ==> d[l.start + 1 + i] == vals[i]
    requires |e| == |d| && IsHeader(e[l.start]) && HeaderList(e[l.start]) == lh
    requires forall b :: 0 <= b < |d| && b != l.start ==> e[b] == d[b]
    ensures Denotes(l, e, post)
  {
    forall b | Home(l, |e|, b) && b !in lh ensures post[b] == e[b] {
      assert b !in HeaderList(d[l.start]);
    }
  }

  /** After it, copying a logged block home changes nothing, in any order and any
      number of times. */
  lemma InstallStep(l: Layout, d: Disk, target: Disk, i: nat)
    requires Denotes(l, d, target) && i < |HeaderList(d[l.start])|
    ensures
      var h := HeaderList(d[l.start])[i];
      Home(l, |d|, h) && Denotes(l, d[h := d[l.start + 1 + i]], target)
  {
    var h := HeaderList(d[l.start])[i];
    assert Home(l, |d|, h);
    var d' := d[h := d[l.start + 1 + i]];
    assert d'[l.start] == d[l.start];
    forall b | Home(l, |d'|, b) ensures Home(l, |d|, b) { }
  }

  /** Clearing the header changes nothing once every logged block is home. */
  lemma ClearStep(l: Layout, d: Disk, target: Disk)
    requires Denotes(l, d, target)
    requires var lh := HeaderList(d[l.start]);
      forall i :: 0 <= i < |lh| ==> d[lh[i]] == d[l.start + 1 + i]
    ensures
      var d' := d[l.start := HeaderBlock(d[l.start], [])];
      Denotes(l, d', target) && LogEmpty(l, d') && SameHome(l, d', target)
  {
    HeaderRoundTrip(d[l.start], []);
    var lh := HeaderList(d[l.start]);
    forall b | Home(l, |d|, b) ensures d[b] == target[b] {
      if b in lh {
        var i :| 0 <= i < |lh| && lh[i] == b;
      }
    }
  }

  // ---------- recovery ----------

  /** Any prefix of the writes of a recovery keeps the meaning of the disk; the whole
      sequence also empties the log and so leaves the home blocks at that meaning. */
  lemma RecoverPrefix(l: Layout, d: Disk, target: Disk, k: nat)
    requires Denotes(l, d, target) && k <= |RecoverWrites(l, d)|
    ensures var d' := Apply(d, RecoverWrites(l, d), k);
      && Denotes(l, d', target)
      && (k == |RecoverWrites(l, d)| ==> LogEmpty(l, d') && SameHome(l, d', target))
  {
    RecoverPhases(l, d, target, RecoverWrites(l, d), k);
  }

  /** The disk after exactly `k` writes of a recovery. */
  ghost predicate RecoverPhase(l: Layout, d: Disk, target: Disk, k: nat, e: Disk)
    requires GoodHeader(l, d)
  {
    && |e| == |d| && Denotes(l, e, target)
    && (if k <= |HeaderList(d[l.start])| then e[l.start] == d[l.start] && Installed(l, d, e, k)
        else LogEmpty(l, e) && SameHome(l, e, target))
  }

  /** The `k`-th write of a recovery. */
  function RecoverWrite(l: Layout, d: Disk, k: nat): (w: Write)
    requires GoodHeader(l, d) && k <= |HeaderList(d[l.start])|
  {
    var lh := HeaderList(d[l.start]);
    if k < |lh| then Write(lh[k], d[l.start + 1 + k]) else Write(l.start, HeaderBlock(d[l.start], []))
  }

  lemma {:induction false} RecoverPhases(l: Layout, d: Disk, target: Disk, ws: seq<Write>, k: nat)
    requires Denotes(l, d, target) && InRange(d, ws) && k <= |ws| == |HeaderList(d[l.start])| + 1
    requires forall i :: 0 <= i < |ws| ==> ws[i] == RecoverWrite(l, d, i)
    ensures RecoverPhase(l, d, target, k, Apply(d, ws, k))
  {
    if k > 0 {
      RecoverPhases(l, d, target, ws, k - 1);
      RecoverNext(l, d, target, k, Apply(d, ws, k - 1));
    }
  }

  lemma RecoverNext(l: Layout, d: Disk, target: Disk, k: nat, e: Disk)
    requires GoodHeader(l, d) && 0 < k <= |HeaderList(d[l.start])| + 1 && RecoverPhase(l, d, target, k - 1, e)
    ensures var w := RecoverWrite(l, d, k - 1);
      0 <= w.bno < |e| && RecoverPhase(l, d, target, k, e[w.bno := w.data])
  {
    if k <= |HeaderList(d[l.start])| {
      InstallMore(l, d, e, target, k - 1);
    } else {
      assert k - 1 == |HeaderList(d[l.start])|;
      ClearMore(l, d, e, target);
    }
  }

  lemma ClearMore(l: Layout, d: Disk, e: Disk, target: Disk)
    requires GoodHeader(l, d) && RecoverPhase(l, d, target, |HeaderList(d[l.start])|, e)
    ensures RecoverPhase(l, d, target, |HeaderList(d[l.start])| + 1, e[l.start := HeaderBlock(d[l.start], [])])
  {
    ClearStep(l, e, target);
  }

  lemma InstallMore(l: Layout, d: Disk, e: Disk, target: Disk, k: nat)
    requires GoodHeader(l, d) && k < |HeaderList(d[l.start])| && RecoverPhase(l, d, target, k, e)
    ensures
      var h := HeaderList(d[l.start])[k];
      Home(l, |e|, h) && RecoverPhase(l, d, target, k + 1, e[h := d[l.start + 1 + k]])
  {
    var lh := HeaderList(d[l.start]);
    InstallStep(l, e, target, k);
    assert e[l.start + 1 + k] == d[l.start + 1 + k];
    InstalledMore(l, d, e, lh, k);
  }

  lemma InstalledMore(l: Layout, d: Disk, e: Disk, lh: seq<int>, k: nat)
    requires GoodHeader(l, d) && lh == HeaderList(d[l.start]) && k < |lh| && |e| == |d| && Installed(l, d, e, k)
    ensures Home(l, |d|, lh[k]) && Installed(l, d, e[lh[k] := d[l.start + 1 + k]], k + 1)
  {
    var e' := e[lh[k] := d[l.start + 1 + k]];
    forall i | 0 <= i < k ensures e'[lh[i]] == d[l.start + 1 + i] { assert Differ(lh, i, k); }
  }

  /** The first `k` logged blocks are home and the log area is as it was. */
  ghost predicate Installed(l: Layout, d: Disk, e: Disk, k: nat)
    requires GoodHeader(l, d) && |e| == |d|
  {
    var lh := HeaderList(d[l.start]);
    && (forall i :: l.start < i < l.start + l.size ==> e[i] == d[i])
    && (forall i :: 0 <= i < k && i < |lh| ==> e[lh[i]] == d[l.start + 1 + i])
  }

  /** Recoveries each cut short by a crash after the given number of writes, in turn. */
  ghost function CrashedRecoveries(l: Layout, d: Disk, ks: seq<nat>): (d': Disk)
    requires GoodHeader(l, d)
    ensures |d'| == |d|
    decreases |ks|
  {
    if ks == [] then d
    else
      var ws := RecoverWrites(l, d);
      var e := Apply(d, ws, if ks[0] <= |ws| then ks[0] else |ws|);
      if GoodHeader(l, e) then CrashedRecoveries(l, e, ks[1..]) else e
  }

  lemma {:induction false} CrashedRecoveriesKeepMeaning(l: Layout, d: Disk, target: Disk, ks: seq<nat>)
    requires Denotes(l, d, target)
    ensures Denotes(l, CrashedRecoveries(l, d, ks), target)
    decreases |ks|
  {
    if ks != [] {
      var ws := RecoverWrites(l, d);
      var k := if ks[0] <= |ws| then ks[0] else |ws|;
      RecoverPrefix(l, d, target, k);
      CrashedRecoveriesKeepMeaning(l, Apply(d, ws, k), target, ks[1..]);
    }
  }

  /** A completed recovery is correct and idempotent. */
  lemma RecoverReaches(l: Layout, d: Disk, target: Disk)
    requires Denotes(l, d, target)
    ensures Denotes(l, Recover(l, d), target)
    ensures LogEmpty(l, Recover(l, d)) && SameHome(l, Recover(l, d), target)
    ensures SameHome(l, Recover(l, Recover(l, d)), target)
  {
    var ws := RecoverWrites(l, d);
    RecoverPrefix(l, d, target, |ws|);
    var e := Recover(l, d);
    var ws' := RecoverWrites(l, e);
    RecoverPrefix(l, e, target, |ws'|);
  }

  // ---------- a crash during commit ----------

  /** The disk after exactly `k` writes of a commit, phase by phase. */
  ghost predicate CommitPhase(l: Layout, d: Disk, lh: seq<int>, vals: seq<Block>, post: Disk, k: nat, e: Disk)
    requires GoodHeader(l, d) && GoodList(l, |d|, lh) && |vals| == |lh|
  {
    && |e| == |d|
    && Denotes(l, e, if k <= |lh| then d else post)
    && (forall i :: 0 <= i < k && i < |lh| ==> e[l.start + 1 + i] == vals[i])
    && (if k <= |lh| then e[l.start] == d[l.start]
        else if k < 2 * |lh| + 2 then
          e[l.start] == HeaderBlock(d[l.start], lh) && Copied(e, lh, vals, k - |lh| - 1)
        else LogEmpty(l, e))
  }

  ghost predicate Copied(e: Disk, lh: seq<int>, vals: seq<Block>, k: int)
    requires |vals| == |lh| && k <= |lh|
  {
    forall i :: 0 <= i < k ==> 0 <= lh[i] < |e| && e[lh[i]] == vals[i]
  }

  /** The `k`-th write of a commit. */
  function CommitWrite(l: Layout, d: Disk, lh: seq<int>, vals: seq<Block>, k: nat): (w: Write)
    requires GoodHeader(l, d) && GoodList(l, |d|, lh) && |vals| == |lh|
    requires k < 2 * |lh| + 2
  {
    var n := |lh|;
    if k < n then Write(l.start + k + 1, vals[k])
    else if k == n then Write(l.start, HeaderBlock(d[l.start], lh))
    else if k < 2 * n + 1 then assert Home(l, |d|, lh[k - n - 1]); Write(lh[k - n - 1], vals[k - n - 1])
    else Write(l.start, HeaderBlock(HeaderBlock(d[l.start], lh), []))
  }

  lemma CommitWritesAt(l: Layout, d: Disk, lh: seq<int>, vals: seq<Block>)
    requires GoodHeader(l, d) && GoodList(l, |d|, lh) && |vals| == |lh| > 0
    ensures |CommitWrites(l, d, lh, vals)| == 2 * |lh| + 2
    ensures forall k :: 0 <= k < 2 * |lh| + 2 ==>
      CommitWrites(l, d, lh, vals)[k] == CommitWrite(l, d, lh, vals, k)
  {
  }

  lemma {:induction false} CommitPrefix(l: Layout, d: Disk, lh: seq<int>, vals: seq<Block>, post: Disk,
      ws: seq<Write>, k: nat)
    requires GoodHeader(l, d) && LogEmpty(l, d) && GoodList(l, |d|, lh) && After(l, d, lh, vals, post) && lh != []
    requires |ws| == 2 * |lh| + 2 && InRange(d, ws) && k <= |ws|
    requires forall k :: 0 <= k < |ws| ==> ws[k] == CommitWrite(l, d, lh, vals, k)
    ensures CommitPhase(l, d, lh, vals, post, k, Apply(d, ws, k))
  {
    if k == 0 {
      assert HeaderList(d[l.start]) == [];
      assert Apply(d, ws, 0) == d;
    } else {
      CommitPrefix(l, d, lh, vals, post, ws, k - 1);
      PhaseNext(l, d, lh, vals, post, k, Apply(d, ws, k - 1));
    }
  }

  lemma PhaseNext(l: Layout, d: Disk, lh: seq<int>, vals: seq<Block>, post: Disk, k: nat, e: Disk)
    requires GoodHeader(l, d) && LogEmpty(l, d) && GoodList(l, |d|, lh) && After(l, d, lh, vals, post) && lh != []
    requires 0 < k <= 2 * |lh| + 2 && CommitPhase(l, d, lh, vals, post, k - 1, e)
    ensures var w := CommitWrite(l, d, lh, vals, k - 1);
      0 <= w.bno < |e| && CommitPhase(l, d, lh, vals, post, k, e[w.bno := w.data])
  {
    if k <= |lh| {
      PhaseLog(l, d, lh, vals, post, k, e);
    } else if k == |lh| + 1 {
      PhaseHead(l, d, lh, vals, post, e);
    } else if k < 2 * |lh| + 2 {
      assert Home(l, |d|, lh[k - |lh| - 2]);
      PhaseInstall(l, d, lh, vals, post, k, e);
    } else {
      PhaseClear(l, d, lh, vals, post, e);
    }
  }

  lemma PhaseLog(l: Layout, d: Disk, lh: seq<int>, vals: seq<Block>, post: Disk, k: nat, e: Disk)
    requires GoodHeader(l, d) && LogEmpty(l, d) && GoodList(l, |d|, lh) && After(l, d, lh, vals, post)
    requires 0 < k <= |lh| && CommitPhase(l, d, lh, vals, post, k - 1, e)
    ensures CommitPhase(l, d, lh, vals, post, k, e[l.start + k := vals[k - 1]])
  {
    LogDataStep(l, e, d, k - 1, vals[k - 1]);
  }

  lemma PhaseHead(l: Layout, d: Disk, lh: seq<int>, vals: seq<Block>, post: Disk, e: Disk)
    requires GoodHeader(l, d) && LogEmpty(l, d) && GoodList(l, |d|, lh) && After(l, d, lh, vals, post) && lh != []
    requires CommitPhase(l, d, lh, vals, post, |lh|, e)
    ensures CommitPhase(l, d, lh, vals, post, |lh| + 1, e[l.start := HeaderBlock(d[l.start], lh)])
  {
    assert GoodList(l, |e|, lh) by {
      forall i | 0 <= i < |lh| ensures Home(l, |e|, lh[i]) { assert Home(l, |d|, lh[i]); }
    }
    CommitStep(l, e, d, lh, vals, post);
  }

  lemma PhaseInstall(l: Layout, d: Disk, lh: seq<int>, vals: seq<Block>, post: Disk, k: nat, e: Disk)
    requires GoodHeader(l, d) && LogEmpty(l, d) && GoodList(l, |d|, lh) && After(l, d, lh, vals, post) && lh != []
    requires |lh| + 1 < k < 2 * |lh| + 2 && CommitPhase(l, d, lh, vals, post, k - 1, e)
    ensures CommitPhase(l, d, lh, vals, post, k, e[lh[k - |lh| - 2] := vals[k - |lh| - 2]])
  {
    var i := k - |lh| - 2;
    HeaderRoundTrip(d[l.start], lh);
    assert e[l.start + 1 + i] == vals[i];
    InstallStep(l, e, post, i);
    assert Home(l, |d|, lh[i]);
    var e' := e[lh[i] := vals[i]];
    assert Copied(e', lh, vals, i + 1) by {
      forall j | 0 <= j < i ensures e'[lh[j]] == vals[j] { assert Differ(lh, j, i); }
    }
  }

  lemma PhaseClear(l: Layout, d: Disk, lh: seq<int>, vals: seq<Block>, post: Disk, e: Disk)
    requires GoodHeader(l, d) && LogEmpty(l, d) && GoodList(l, |d|, lh) && After(l, d, lh, vals, post) && lh != []
    requires CommitPhase(l, d, lh, vals, post, 2 * |lh| + 1, e)
    ensures CommitPhase(l, d, lh, vals, post, 2 * |lh| + 2,
                        e[l.start := HeaderBlock(HeaderBlock(d[l.start], lh), [])])
  {
    HeaderRoundTrip(d[l.start], lh);
    forall i | 0 <= i < |lh| ensures e[lh[i]] == e[l.start + 1 + i] { assert e[l.start + 1 + i] == vals[i]; }
    ClearStep(l, e, post);
  }

  lemma CommitMeaning(l: Layout, d: Disk, lh: seq<int>, vals: seq<Block>, post: Disk, k: nat)
    requires GoodHeader(l, d) && LogEmpty(l, d) && GoodList(l, |d|, lh) && After(l, d, lh, vals, post)
    requires k <= |CommitWrites(l, d, lh, vals)|
    ensures var e := Apply(d, CommitWrites(l, d, lh, vals), k);
      && Denotes(l, e, if k <= |lh| then d else post)
      && (k == |CommitWrites(l, d, lh, vals)| ==> LogEmpty(l, e) && Denotes(l, e, post))
  {
    if lh == [] {
      assert HeaderList(d[l.start]) == [];
    } else {
      CommitWritesAt(l, d, lh, vals);
      CommitPrefix(l, d, lh, vals, post, CommitWrites(l, d, lh, vals), k);
    }
  }

  /** Crash atomicity.  Crash after any `k` writes of a commit, then crash any number of
      recoveries after any number of writes each, then let one recovery finish: every
      home block holds its value from before the transaction, or every home block holds
      its value from after it, and which of the two is decided only by whether the
      header write (write number |lh| + 1) had happened. */
  lemma CrashAtomicity(l: Layout, d: Disk, lh: seq<int>, vals: seq<Block>, post: Disk, k: nat, ks: seq<nat>)
    requires GoodHeader(l, d) && LogEmpty(l, d) && GoodList(l, |d|, lh) && After(l, d, lh, vals, post)
    requires k <= |CommitWrites(l, d, lh, vals)|
    ensures
      var crashed := Apply(d, CommitWrites(l, d, lh, vals), k);
      && GoodHeader(l, crashed)
      && var again := CrashedRecoveries(l, crashed, ks);
      && GoodHeader(l, again)
      && LogEmpty(l, Recover(l, again))
      && SameHome(l, Recover(l, again), if k <= |lh| then d else post)
  {
    CommitMeaning(l, d, lh, vals, post, k);
    var crashed := Apply(d, CommitWrites(l, d, lh, vals), k);
    CrashedRecoveriesKeepMeaning(l, crashed, if k <= |lh| then d else post, ks);
    RecoverReaches(l, CrashedRecoveries(l, crashed, ks), if k <= |lh| then d else post);
  }

  // ---------- the code ----------

  lemma {:induction false} ApplyConcat(d: Disk, ws: seq<Write>, vs: seq<Write>, k: nat)
    requires InRange(d, ws) && InRange(d, vs) && k <= |vs|
    ensures InRange(d, ws + vs)
    ensures Apply(d, ws + vs, |ws| + k) == Apply(Apply(d, ws, |ws|), vs, k)
  {
    if k == 0 {
      ApplyFront(d, ws, vs, |ws|);
    } else {
      ApplyConcat(d, ws, vs, k - 1);
      assert (ws + vs)[|ws| + k - 1] == vs[k - 1];
    }
  }

  lemma {:induction false} ApplyFront(d: Disk, ws: seq<Write>, vs: seq<Write>, k: nat)
    requires InRange(d, ws) && InRange(d, ws + vs) && k <= |ws|
    ensures Apply(d, ws + vs, k) == Apply(d, ws, k)
  {
    if k > 0 {
      ApplyFront(d, ws, vs, k - 1);
      assert (ws + vs)[k - 1] == ws[k - 1];
    }
  }

  lemma LogDataSnoc(l: Layout, d: Disk, k: nat, vals: seq<Block>)
    requires Fits(l, d) && k + 1 < l.size && k < |vals| && LogData(l, d, k) == vals[..k]
    ensures LogData(l, d[l.start + k + 1 := vals[k]], k + 1) == vals[..k + 1]
  {
    var e := d[l.start + k + 1 := vals[k]];
    assert LogData(l, e, k + 1) == LogData(l, d, k) + [vals[k]];
  }

  lemma Snoc(w0: seq<Write>, ws: seq<Write>, k: nat)
    requires k < |ws|
    ensures w0 + ws[..k + 1] == w0 + ws[..k] + [ws[k]]
  {
  }

  lemma CommitOrder(w0: seq<Write>, a: seq<Write>, h: Write, b: seq<Write>, c: Write)
    ensures w0 + a + [h] + b + [c] == w0 + (a + [h] + b + [c])
  {
  }

  /** With an empty log the home blocks are the meaning. */
  lemma EmptyLogIsHome(l: Layout, d: Disk, target: Disk)
    requires Denotes(l, d, target) && LogEmpty(l, d)
    ensures SameHome(l, d, target)
  {
    assert HeaderList(d[l.start]) == [];
  }

  lemma CommitEffect(l: Layout, disk0: Disk, w0: seq<Write>, d: Disk, lh: seq<int>, vals: seq<Block>, post: Disk)
    requires InRange(disk0, w0) && d == Apply(disk0, w0, |w0|)
    requires GoodHeader(l, d) && LogEmpty(l, d) && GoodList(l, |d|, lh) && After(l, d, lh, vals, post)
    ensures
      var ws := CommitWrites(l, d, lh, vals);
      && InRange(disk0, w0 + ws)
      && var e := Apply(disk0, w0 + ws, |w0 + ws|);
      && e == Apply(d, ws, |ws|)
      && GoodHeader(l, e) && LogEmpty(l, e) && SameHome(l, e, post)
  {
    var ws := CommitWrites(l, d, lh, vals);
    ApplyConcat(disk0, w0, ws, |ws|);
    CommitMeaning(l, d, lh, vals, post, |ws|);
    EmptyLogIsHome(l, Apply(d, ws, |ws|), post);
  }

  /** Every cached block not in `dirty` equals the disk. */
  ghost predicate Clean(cache: map<int, Block>, disk: Disk, dirty: seq<int>) {
    forall b :: b in cache ==> 0 <= b < |disk| && (b in dirty || cache[b] == disk[b])
  }

  lemma CleanRead(cache: map<int, Block>, disk: Disk, dirty: seq<int>, b: int)
    requires Clean(cache, disk, dirty) && 0 <= b < |disk|
    ensures Clean(cache[b := if b in cache then cache[b] else disk[b]], disk, dirty)
  {
  }

  lemma CleanWrite(cache: map<int, Block>, disk: Disk, dirty: seq<int>, dirty': seq<int>, b: int, data: Block)
    requires Clean(cache, disk, dirty) && 0 <= b < |disk|
    requires forall x :: x in dirty ==> x in dirty' || x == b
    ensures Clean(cache[b := data], disk[b := data], dirty')
  {
  }

  /** log.c's global log together with the buffer cache and disk it works on.  The cache
      holds the last contents given to each cached block; a block listed in the
      in-memory header is pinned there and may differ from the disk. */
  class Log {
    const layout: Layout
    ghost const disk0: Disk
    var disk: Disk
    var cache: map<int, Block>
    var n: nat
    var block: seq<int>
    ghost var writes: seq<Write>

    constructor (layout: Layout, disk: Disk)
      ensures this.layout == layout && this.disk == disk
      ensures cache == map[] && n == 0 && |block| == LOGSIZE && writes == [] && Traced()
    {
      this.layout := layout;
      this.disk := disk;
      disk0 := disk;
      cache := map[];
      n := 0;
      block := seq(LOGSIZE, _ => 0);
      writes := [];
    }

    /** The disk is the initial disk after all writes so far, in order. */
    ghost predicate Traced()
      reads this
    {
      InRange(disk0, writes) && disk == Apply(disk0, writes, |writes|)
    }

    ghost function List(): seq<int>
      reads this
      requires n <= |block|
    {
      block[..n]
    }

    ghost predicate CleanExcept(dirty: seq<int>)
      reads this
    {
      Clean(cache, disk, dirty)
    }

    ghost predicate HasList()
      reads this
    {
      && Fits(layout, disk) && IsHeader(disk[layout.start])
      && |block| == LOGSIZE && n <= LOGSIZE
      && GoodList(layout, |disk|, List())
    }

    /** The listed blocks are in the cache, with contents `vals`. */
    ghost predicate Pinned(vals: seq<Block>)
      reads this
      requires n <= |block|
    {
      |vals| == n && forall i :: 0 <= i < n ==> block[i] in cache && cache[block[i]] == vals[i]
    }

    method Bread(b: int) returns (data: Block)
      requires 0 <= b < |disk|
      modifies `cache
      ensures data == if b in old(cache) then old(cache)[b] else disk[b]
      ensures cache == old(cache)[b := data]
    {
      if b !in cache {
        cache := cache[b := disk[b]];
      }
      data := cache[b];
    }

    method Bwrite(b: int, data: Block)
      requires 0 <= b < |disk| && Traced()
      modifies `cache, `disk, `writes
      ensures disk == old(disk)[b := data]
      ensures cache == old(cache)[b := data]
      ensures writes == old(writes) + [Write(b, data)] && Traced()
    {
      cache := cache[b := data];
      disk := disk[b := data];
      writes := writes + [Write(b, data)];
      ApplyFront(disk0, old(writes), [Write(b, data)], |old(writes)|);
    }

    /** One round of `WriteLog`: the cached block goes to its log block. */
    method LogOne(tail: nat, ghost vals: seq<Block>)
      requires Traced() && HasList() && CleanExcept(List()) && Pinned(vals) && tail < n
      modifies `cache, `disk, `writes
      ensures Traced() && HasList() && CleanExcept(List()) && Pinned(vals)
      ensures disk == old(disk)[layout.start + tail + 1 := vals[tail]]
      ensures writes == old(writes) + [Write(layout.start + tail + 1, vals[tail])]
    {
      var from := ReadBoth(tail, vals);
      ListedAreHome();
      CleanWrite(cache, disk, List(), List(), layout.start + tail + 1, from);
      Bwrite(layout.start + tail + 1, from);
    }

    /** The two reads of that round. */
    method ReadBoth(tail: nat, ghost vals: seq<Block>) returns (from: Block)
      requires HasList() && CleanExcept(List()) && Pinned(vals) && tail < n
      modifies `cache
      ensures CleanExcept(List()) && Pinned(vals) && from == vals[tail]
    {
      ListedAreHome();
      CleanRead(cache, disk, List(), layout.start + tail + 1);
      var to := Bread(layout.start + tail + 1);
      CleanRead(cache, disk, List(), block[tail]);
      from := Bread(block[tail]);
    }

    lemma ListedAreHome()
      requires HasList()
      ensures forall i :: 0 <= i < n ==> Home(layout, |disk|, block[i])
    {
      forall i | 0 <= i < n ensures Home(layout, |disk|, block[i]) { assert Home(layout, |disk|, List()[i]); }
    }

    /** Copy modified blocks from the cache to the log. */
    method WriteLog(ghost vals: seq<Block>)
      requires Traced() && HasList() && CleanExcept(List()) && Pinned(vals)
      modifies `cache, `disk, `writes
      ensures Traced() && HasList() && CleanExcept(List()) && |disk| == |old(disk)|
      ensures writes == old(writes) + LogCopies(layout, vals)
      ensures disk[layout.start] == old(disk)[layout.start]
      ensures LogData(layout, disk, n) == vals
    {
      ghost var ws := LogCopies(layout, vals);
      var tail := 0;
      while tail < n
        invariant 0 <= tail <= n
        invariant Traced() && HasList() && CleanExcept(List()) && Pinned(vals)
        invariant |disk| == |old(disk)| && disk[layout.start] == old(disk)[layout.start]
        invariant writes == old(writes) + ws[..tail]
        invariant LogData(layout, disk, tail) == vals[..tail]
      {
        assert ws[tail] == Write(layout.start + tail + 1, vals[tail]);
        ghost var d1 := disk;
        LogOne(tail, vals);
        LogDataSnoc(layout, d1, tail, vals);
        Snoc(old(writes), ws, tail);
        tail := tail + 1;
      }
      assert ws[..n] == ws;
    }

    /** Write the in-memory header to disk. */
    method WriteHead()
      requires Traced() && Fits(layout, disk) && IsHeader(disk[layout.start]) && |block| == LOGSIZE && n <= LOGSIZE
      requires layout.start in cache ==> cache[layout.start] == disk[layout.start]
      modifies `cache, `disk, `writes
      ensures Traced()
      ensures disk == old(disk)[layout.start := HeaderBlock(old(disk)[layout.start], List())]
      ensures cache == old(cache)[layout.start := disk[layout.start]]
      ensures writes == old(writes) + [Write(layout.start, disk[layout.start])]
    {
      var hb := Bread(layout.start);
      ghost var h0 := hb.words;
      var words := hb.words[0 := n];
      var i := 0;
      while i < n
        invariant 0 <= i <= n
        invariant |words| == WORDS && words[0] == n
        invariant forall j :: 0 <= j < i ==> words[1 + j] == block[j]
        invariant forall j :: i < j < WORDS ==> words[j] == h0[j]
      {
        words := words[i + 1 := block[i]];
        i := i + 1;
      }
      assert words == [n] + block[..n] + h0[1 + n..];
      Bwrite(layout.start, Block(words));
    }

    /** One round of `InstallTrans`: a log block goes to its home block. */
    method InstallOne(tail: nat)
      requires Traced() && HasList() && tail < n && CleanExcept(List()[tail..])
      modifies `cache, `disk, `writes
      ensures Traced() && HasList() && CleanExcept(List()[tail + 1..])
      ensures disk == old(disk)[block[tail] := old(disk)[layout.start + tail + 1]]
      ensures writes == old(writes) + [Write(block[tail], old(disk)[layout.start + tail + 1])]
    {
      forall i | 0 <= i < n ensures Home(layout, |disk|, block[i]) { assert Home(layout, |disk|, List()[i]); }
      ghost var dirty := List()[tail..];
      assert dirty == [block[tail]] + List()[tail + 1..];
      assert layout.start + tail + 1 !in dirty;
      CleanRead(cache, disk, dirty, layout.start + tail + 1);
      var lbuf := Bread(layout.start + tail + 1);
      CleanRead(cache, disk, dirty, block[tail]);
      var dbuf := Bread(block[tail]);
      CleanWrite(cache, disk, dirty, List()[tail + 1..], block[tail], lbuf);
      Bwrite(block[tail], lbuf);
    }

    /** Copy committed blocks from the log to their home locations. */
    method InstallTrans()
      requires Traced() && HasList() && CleanExcept(List())
      modifies `cache, `disk, `writes
      ensures Traced() && CleanExcept([]) && |disk| == |old(disk)|
      ensures writes == old(writes) + HomeCopies(List(), LogData(layout, old(disk), n))
      ensures disk[layout.start] == old(disk)[layout.start]
    {
      ghost var vals := LogData(layout, disk, n);
      ghost var ws := HomeCopies(List(), vals);
      assert List()[0..] == List();
      var tail := 0;
      while tail < n
        invariant 0 <= tail <= n
        invariant Traced() && HasList() && CleanExcept(List()[tail..])
        invariant |disk| == |old(disk)| && disk[layout.start] == old(disk)[layout.start]
        invariant forall i :: layout.start < i < layout.start + layout.size ==> disk[i] == old(disk)[i]
        invariant writes == old(writes) + ws[..tail]
      {
        assert Home(layout, |disk|, List()[tail]);
        assert ws[tail] == Write(block[tail], disk[layout.start + tail + 1]);
        InstallOne(tail);
        Snoc(old(writes), ws, tail);
        tail := tail + 1;
      }
      assert ws[..n] == ws;
      assert List()[n..] == [];
    }

    /** First half of a commit, up to and including the commit point. */
    method LogTransaction(ghost vals: seq<Block>)
      requires Traced() && HasList() && CleanExcept(List()) && Pinned(vals)
      modifies `cache, `disk, `writes
      ensures Traced() && HasList() && CleanExcept(List()) && |disk| == |old(disk)|
      ensures disk[layout.start] == HeaderBlock(old(disk)[layout.start], List())
      ensures LogData(layout, disk, n) == vals
      ensures writes == old(writes) + LogCopies(layout, vals) + [Write(layout.start, disk[layout.start])]
    {
      WriteLog(vals);
      ghost var d1 := disk;
      assert layout.start !in List() by {
        forall i | 0 <= i < n ensures List()[i] != layout.start { assert Home(layout, |disk|, List()[i]); }
      }
      WriteHead();
      assert LogData(layout, disk, n) == LogData(layout, d1, n);
    }

    /** Second half of a commit, and what recovery does after reading the header. */
    method InstallAndClear()
      requires Traced() && HasList() && CleanExcept(List())
      modifies `cache, `disk, `writes, `n
      ensures Traced() && |disk| == |old(disk)| && n == 0 && CleanExcept([])
      ensures disk[layout.start] == HeaderBlock(old(disk)[layout.start], [])
      ensures writes == old(writes) + HomeCopies(old(List()), LogData(layout, old(disk), old(n)))
                        + [Write(layout.start, disk[layout.start])]
    {
      InstallTrans();
      n := 0;
      assert List() == [];
      WriteHead();
    }

    /** The whole commit performs exactly the writes of `CommitWrites`, so a crash in it
        is covered by `CrashAtomicity`. */
    method Commit(ghost vals: seq<Block>, ghost post: Disk)
      requires Traced() && HasList() && CleanExcept(List()) && Pinned(vals)
      requires GoodHeader(layout, disk) && LogEmpty(layout, disk) && After(layout, disk, List(), vals, post)
      modifies `cache, `disk, `writes, `n
      ensures Traced() && |disk| == |old(disk)|
      ensures writes == old(writes) + CommitWrites(layout, old(disk), old(List()), vals)
      ensures var ws := CommitWrites(layout, old(disk), old(List()), vals); disk == Apply(old(disk), ws, |ws|)
      ensures n == 0 && CleanExcept([])
      ensures GoodHeader(layout, disk) && LogEmpty(layout, disk)
      ensures SameHome(layout, disk, post)
    {
      ghost var lh, d0, w0 := List(), disk, writes;
      ghost var ws := CommitWrites(layout, d0, lh, vals);
      if n > 0 {
        LogTransaction(vals);
        ghost var h := Write(layout.start, disk[layout.start]);
        InstallAndClear();
        CommitOrder(w0, LogCopies(layout, vals), h, HomeCopies(lh, vals), Write(layout.start, disk[layout.start]));
      } else {
        assert w0 + [] == w0;
      }
      CommitEffect(layout, disk0, w0, d0, lh, vals, post);
    }

    /** Read the log header from disk into the in-memory log header. */
    method ReadHead()
      requires GoodHeader(layout, disk) && CleanExcept([]) && |block| == LOGSIZE
      modifies `cache, `n, `block
      ensures CleanExcept([]) && |block| == LOGSIZE && n <= LOGSIZE
      ensures List() == HeaderList(disk[layout.start])
    {
      CleanRead(cache, disk, [], layout.start);
      var lh := Bread(layout.start);
      n := lh.words[0];
      var i := 0;
      while i < n
        invariant 0 <= i <= n && |block| == LOGSIZE
        invariant block[..i] == HeaderList(lh)[..i]
        modifies `block
      {
        assert HeaderList(lh)[i] == lh.words[i + 1];
        block := block[i := lh.words[i + 1]];
        i := i + 1;
      }
    }

    /** Recovery at boot performs exactly the writes of `RecoverWrites`. */
    method RecoverFromLog()
      requires Traced() && GoodHeader(layout, disk) && CleanExcept([]) && |block| == LOGSIZE
      modifies `cache, `disk, `writes, `n, `block
      ensures Traced() && |disk| == |old(disk)|
      ensures writes == old(writes) + RecoverWrites(layout, old(disk))
      ensures disk == Recover(layout, old(disk))
      ensures n == 0 && |block| == LOGSIZE && CleanExcept([])
    {
      ghost var d0, w0 := disk, writes;
      ReadHead();
      InstallAndClear();
      ghost var ws := RecoverWrites(layout, d0);
      assert writes == w0 + ws;
      ApplyConcat(disk0, w0, ws, |ws|);
    }
  }
}
