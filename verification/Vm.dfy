/** The page allocator and the operations on address spaces. */
module Vm {

  import opened PageTables

  const KERNBASE: int := 0x8000_0000
  const EXTMEM: int := 0x10_0000
  const PHYSTOP: int := 0xE00_0000
  const DEVSPACE: int := 0xFE00_0000
  const U32: int := 0x1_0000_0000
  const PTE_W: int := 2
  const PTE_U: int := 4

  function ZeroPage(): (p: Page)
    ensures p.Bytes?
  {
    Bytes(seq(PGSIZE, _ => 0))
  }

  predicate BelowKernel(first: int, ppn: int, p: int) {
    first + p - ppn < USERPAGES
  }

  /** The pages, of the `count` from ppn on, that mapping them at page number `first` gives to
      a process: those that land below KERNBASE. */
  function Given(first: int, count: int, ppn: int): (s: set<int>) {
    set p | ppn <= p < ppn + count && BelowKernel(first, ppn, p)
  }

  lemma GivenStep(first: int, n: int, ppn: int, f: int, q: int)
    requires 0 <= n && f == first + n && q == ppn + n
    ensures Given(first, n, ppn) <= Given(first, n + 1, ppn)
    ensures Given(f, 1, q) <= Given(first, n + 1, ppn)
  {
    forall p | p in Given(f, 1, q)
      ensures p in Given(first, n + 1, ppn)
    {
      assert BelowKernel(f, q, p);
      assert BelowKernel(first, ppn, p);
    }
  }

  lemma GivenOne(f: int, q: int, p: int)
    requires p in Given(f, 1, q)
    ensures p == q && f < USERPAGES
  {
    assert BelowKernel(f, q, p);
  }

  /** Directory pd maps the n pages from ppn on at page number first, and the rest as in m0. */
  ghost predicate MappedRun(m0: seq<Page>, mem: seq<Page>, pd: int, first: int, n: int, ppn: int, perm: int) {
    forall v {:trigger Lookup(mem, pd, v)} :: 0 <= v ==>
      Lookup(mem, pd, v) == if first <= v < first + n then Present(ppn + v - first, perm) else Lookup(m0, pd, v)
  }

  /** Page p has gone to directory pd, unwritten. */
  predicate Landed(m0: seq<Page>, mem: seq<Page>, holder: map<int, Holder>, pd: int, p: int) {
    && p in holder && holder[p].User? && !Above(holder[p], pd, USERPAGES)
    && 0 <= p < |mem| == |m0| && mem[p] == m0[p]
  }

  /** What mapping n pages from ppn on at page number first has done to memory. */
  ghost predicate MapsRun(m0: seq<Page>, h0: map<int, Holder>, mem: seq<Page>, holder: map<int, Holder>, pd: int,
      first: int, n: int, ppn: int, perm: int)
  {
    && MappedRun(m0, mem, pd, first, n, ppn, perm)
    && Kept(m0, h0, mem, holder, pd, USERPAGES, Given(first, n, ppn))
    && NewTables(h0, holder, pd, {})
    && forall p {:trigger Landed(m0, mem, holder, pd, p)} :: p in Given(first, n, ppn) ==>
        Landed(m0, mem, holder, pd, p)
  }

  lemma SetMapped(b: Bounds, m0: seq<Page>, h0: map<int, Holder>, f0: seq<int>, mem: seq<Page>, pd: int, vpn: int,
      t: int, p: int, perm: int)
    requires Inv(b, m0, h0, f0) && IsDir(h0, pd) && 0 <= vpn
    requires Points(m0, pd, vpn / NENTRIES, t) && 0 <= t < |m0| && IsTable(m0[t])
    requires mem == SetEntry(m0, t, vpn % NENTRIES, Present(p, perm))
    ensures MappedRun(m0, mem, pd, vpn, 1, p, perm)
  {
    forall v | 0 <= v
      ensures Lookup(mem, pd, v) == if vpn <= v < vpn + 1 then Present(p + v - vpn, perm) else Lookup(m0, pd, v)
    {
      LookupSet(b, m0, h0, f0, pd, t, vpn, Present(p, perm), v);
    }
  }

  /** Filling the entry for page number vpn maps one page. */
  lemma SetMapsRun(b: Bounds, m0: seq<Page>, h0: map<int, Holder>, f0: seq<int>, mem: seq<Page>,
      holder: map<int, Holder>, pd: int, vpn: int, t: int, p: int, perm: int)
    requires Inv(b, m0, h0, f0) && IsDir(h0, pd) && 0 <= vpn < NENTRIES * NENTRIES
    requires Points(m0, pd, vpn / NENTRIES, t) && 0 <= t < |m0| && IsTable(m0[t]) && IsTableOf(h0[t], pd)
    requires mem == SetEntry(m0, t, vpn % NENTRIES, Present(p, perm))
    requires if vpn < USERPAGES then p in h0 && h0[p].Other? &&
      holder == h0[p := User(pd, vpn / NENTRIES, vpn % NENTRIES)] else holder == h0
    ensures MapsRun(m0, h0, mem, holder, pd, vpn, 1, p, perm)
  {
    SetMapped(b, m0, h0, f0, mem, pd, vpn, t, p, perm);
    SetKept(m0, h0, mem, holder, pd, vpn, t, p, Present(p, perm));
    forall q | q in Given(vpn, 1, p)
      ensures Landed(m0, mem, holder, pd, q)
    {
      GivenOne(vpn, p, q);
    }
  }

  lemma SetKept(m0: seq<Page>, h0: map<int, Holder>, mem: seq<Page>, holder: map<int, Holder>, pd: int, vpn: int,
      t: int, p: int, x: Entry)
    requires forall q :: q in h0 ==> 0 <= q < |m0|
    requires t in h0 && 0 <= t < |m0| && IsTable(m0[t]) && IsTableOf(h0[t], pd) &&
      mem == SetEntry(m0, t, vpn % NENTRIES, x)
    requires if vpn < USERPAGES then p in h0 && h0[p].Other? &&
      holder == h0[p := User(pd, vpn / NENTRIES, vpn % NENTRIES)] else holder == h0
    ensures Kept(m0, h0, mem, holder, pd, USERPAGES, Given(vpn, 1, p)) && NewTables(h0, holder, pd, {})
  {
    forall q | q in h0 && !h0[q].Free? && q !in Given(vpn, 1, p)
      ensures SamePage(m0, h0, mem, holder, pd, q)
    {
      assert BelowKernel(vpn, p, p) <==> vpn < USERPAGES;
      assert vpn < USERPAGES ==> p in Given(vpn, 1, p);
    }
  }

  lemma MapsRunStep(m0: seq<Page>, h0: map<int, Holder>, m1: seq<Page>, h1: map<int, Holder>, m2: seq<Page>,
      h2: map<int, Holder>, pd: int, first: int, n: int, ppn: int, perm: int, f: int, q: int)
    requires 0 <= first && 0 <= n && MapsRun(m0, h0, m1, h1, pd, first, n, ppn, perm)
    requires f == first + n && q == ppn + n && MapsRun(m1, h1, m2, h2, pd, f, 1, q, perm)
    requires (f < USERPAGES ==> Holds(h1, q, Other) && Holds(h0, q, Other)) && IsDir(h0, pd) && IsDir(h1, pd)
    ensures MapsRun(m0, h0, m2, h2, pd, first, n + 1, ppn, perm)
  {
    GivenStep(first, n, ppn, f, q);
    var xs, ys := Given(first, n + 1, ppn), Given(f, 1, q);
    KeptMore(m0, h0, m1, h1, pd, USERPAGES, Given(first, n, ppn), USERPAGES, xs);
    KeptTwice(m0, h0, m1, h1, m2, h2, pd, USERPAGES, xs, USERPAGES, ys);
    forall p | p in ys
      ensures p == q && f < USERPAGES
    {
      GivenOne(f, q, p);
    }
    NewTablesTwice(h0, m1, h1, m2, h2, pd, {}, ys);
    forall p | p in xs
      ensures Landed(m0, m2, h2, pd, p)
    {
      StepLanded(m0, h0, m1, h1, m2, h2, pd, first, n, ppn, perm, f, q, p);
    }
  }

  lemma StepLanded(m0: seq<Page>, h0: map<int, Holder>, m1: seq<Page>, h1: map<int, Holder>, m2: seq<Page>,
      h2: map<int, Holder>, pd: int, first: int, n: int, ppn: int, perm: int, f: int, q: int, p: int)
    requires 0 <= first && 0 <= n && MapsRun(m0, h0, m1, h1, pd, first, n, ppn, perm)
    requires f == first + n && q == ppn + n && MapsRun(m1, h1, m2, h2, pd, f, 1, q, perm)
    requires (f < USERPAGES ==> Holds(h1, q, Other) && Holds(h0, q, Other)) && p in Given(first, n + 1, ppn) &&
      IsDir(h0, pd) && IsDir(h1, pd)
    ensures Landed(m0, m2, h2, pd, p)
  {
    assert BelowKernel(first, ppn, p);
    if p == q {
      assert BelowKernel(f, q, q) && q in Given(f, 1, q);
      assert Landed(m1, m2, h2, pd, q);
      assert q !in Given(first, n, ppn);
      assert SamePage(m0, h0, m1, h1, pd, q);
    } else {
      assert p in Given(first, n, ppn);
      assert Landed(m0, m1, h1, pd, p);
      assert p !in Given(f, 1, q);
      assert SamePage(m1, h1, m2, h2, pd, p);
    }
  }

  lemma WalkThenSet(m0: seq<Page>, h0: map<int, Holder>, m1: seq<Page>, h1: map<int, Holder>, m2: seq<Page>,
      h2: map<int, Holder>, pd: int, vpn: int, p: int, perm: int)
    requires SameLookups(m0, m1, pd) && Kept(m0, h0, m1, h1, pd, USERPAGES, {}) && NewTables(h0, h1, pd, {}) &&
      IsDir(h0, pd)
    requires 0 <= vpn && MapsRun(m1, h1, m2, h2, pd, vpn, 1, p, perm)
    requires vpn < USERPAGES ==> Holds(h1, p, Other) && Holds(h0, p, Other)
    ensures MapsRun(m0, h0, m2, h2, pd, vpn, 1, p, perm)
  {
    var xs := Given(vpn, 1, p);
    KeptMore(m0, h0, m1, h1, pd, USERPAGES, {}, USERPAGES, xs);
    KeptTwice(m0, h0, m1, h1, m2, h2, pd, USERPAGES, xs, USERPAGES, xs);
    forall q | q in xs
      ensures q == p && vpn < USERPAGES
    {
      GivenOne(vpn, p, q);
    }
    NewTablesTwice(h0, m1, h1, m2, h2, pd, {}, xs);
    forall q | q in xs
      ensures Landed(m0, m2, h2, pd, q)
    {
      assert Landed(m1, m2, h2, pd, q);
      assert SamePage(m0, h0, m1, h1, pd, q);
    }
  }

  /** Pages ppn.. that are to land below KERNBASE are in the caller's hands. */
  ghost predicate Offered(mem: seq<Page>, holder: map<int, Holder>, first: int, n: int, ppn: int) {
    forall p :: p in Given(first, n, ppn) ==> Holds(holder, p, Other) && 0 <= p < |mem| && mem[p].Bytes?
  }

  ghost predicate Unmapped(mem: seq<Page>, pd: int, first: int, last: int) {
    forall v {:trigger Lookup(mem, pd, v)} :: first <= v <= last ==> Lookup(mem, pd, v) == Absent
  }

  predicate Vacant(mem: seq<Page>, pd: int, v: int) {
    Lookup(mem, pd, v) == Absent
  }

  /** Nothing is mapped at page numbers first..end. */
  ghost predicate Clear(mem: seq<Page>, pd: int, first: int, end: int) {
    forall v :: first <= v < end ==> Vacant(mem, pd, v)
  }

  lemma ClearStep(mem: seq<Page>, pd: int, first: int, end: int)
    requires Clear(mem, pd, first, end) && Vacant(mem, pd, end)
    ensures Clear(mem, pd, first, end + 1)
  {
  }

  lemma NotClear(mem: seq<Page>, pd: int, first: int, end: int, v: int)
    requires first <= v < end && !Vacant(mem, pd, v)
    ensures !Clear(mem, pd, first, end)
  {
  }

  /** What the outcome of mapping a single page says of its page number. */
  lemma OnePage(mem: seq<Page>, pd: int, a: int, first: int, at: int, done: int, ok: bool, panics: bool)
    requires first == a && at == first + done && 0 <= done <= 1 && (ok <==> done == 1)
    requires Clear(mem, pd, first, at) && (panics <==> !ok && !Vacant(mem, pd, at))
    ensures panics <==> !Vacant(mem, pd, a)
    ensures ok ==> !panics
  {
  }

  lemma ClearUnmapped(mem: seq<Page>, pd: int, first: int, end: int)
    requires Clear(mem, pd, first, end)
    ensures Unmapped(mem, pd, first, end - 1)
  {
    forall v | first <= v <= end - 1
      ensures Lookup(mem, pd, v) == Absent
    {
      assert Vacant(mem, pd, v);
    }
  }

  lemma MapsNone(mem: seq<Page>, holder: map<int, Holder>, pd: int, first: int, ppn: int, perm: int)
    requires forall p :: p in holder ==> 0 <= p < |mem|
    ensures MapsRun(mem, holder, mem, holder, pd, first, 0, ppn, perm)
  {
  }

  /** The number of pages that hold addresses below sz. */
  function PageUp(sz: int): (n: int) {
    (sz + PGSIZE - 1) / PGSIZE
  }

  function Least(x: int, y: int): (m: int) {
    if x <= y then x else y
  }

  /** Directory pd maps nothing at page numbers from..a, and the rest as in m0. */
  ghost predicate Cleared(m0: seq<Page>, mem: seq<Page>, pd: int, from: int, a: int) {
    forall v {:trigger Lookup(mem, pd, v)} :: 0 <= v ==>
      Lookup(mem, pd, v) == if from <= v < a then Absent else Lookup(m0, pd, v)
  }

  function Vpn(h: Holder): (v: int)
    requires h.User?
  {
    h.i * NENTRIES + h.j
  }

  /** Of the pages that pd mapped from page number `from` on, those below a are free again and
      the others are as they were. */
  ghost predicate Drained(m0: seq<Page>, h0: map<int, Holder>, mem: seq<Page>, holder: map<int, Holder>, pd: int,
      from: int, a: int) {
    && holder.Keys == h0.Keys
    && forall p {:trigger h0[p]} :: p in h0 && Above(h0[p], pd, from) ==>
         if Vpn(h0[p]) < a then holder[p].Free? else SamePage(m0, h0, mem, holder, pd, p)
  }

  /** What freeing the pages that pd maps at page numbers from..a has done to memory. */
  ghost predicate Frees(m0: seq<Page>, h0: map<int, Holder>, mem: seq<Page>, holder: map<int, Holder>, pd: int,
      from: int, a: int) {
    && Cleared(m0, mem, pd, from, a)
    && Kept(m0, h0, mem, holder, pd, from, {})
    && StaysFree(h0, holder)
    && Drained(m0, h0, mem, holder, pd, from, a)
  }

  lemma FreesNone(b: Bounds, mem: seq<Page>, holder: map<int, Holder>, pd: int, from: int, a: int)
    requires Total(b, mem, holder) && a <= from
    ensures Frees(mem, holder, mem, holder, pd, from, a)
  {
  }

  /** A missing page table maps nothing up to the next multiple of 1024 pages. */
  lemma FreesAbsent(b: Bounds, m0: seq<Page>, h0: map<int, Holder>, mem: seq<Page>, holder: map<int, Holder>,
      fl: seq<int>, pd: int, from: int, a: int, c: int)
    requires Frees(m0, h0, mem, holder, pd, from, a) && Get(mem, pd, a / NENTRIES) == Absent && 0 <= from <= a
    requires Inv(b, mem, holder, fl) && a <= c <= (a / NENTRIES + 1) * NENTRIES
    ensures Frees(m0, h0, mem, holder, pd, from, c)
  {
    forall v | 0 <= v
      ensures Lookup(mem, pd, v) == if from <= v < c then Absent else Lookup(m0, pd, v)
    {
      if a <= v < c {
        assert v / NENTRIES == a / NENTRIES;
      }
    }
    forall p | p in h0 && Above(h0[p], pd, from)
      ensures Vpn(h0[p]) < c ==> holder[p].Free?
    {
      if a <= Vpn(h0[p]) {
        assert SamePage(m0, h0, mem, holder, pd, p);
        assert Placed(mem, holder, fl, p, holder[p]);
        assert h0[p].i != a / NENTRIES;
      }
    }
  }

  /** Freeing the one page that pd maps at page number a. */
  lemma FreesStep(b: Bounds, m0: seq<Page>, h0: map<int, Holder>, m1: seq<Page>, h1: map<int, Holder>, f1: seq<int>,
      m2: seq<Page>, h2: map<int, Holder>, pd: int, from: int, a: int, t: int, p: int, k: int)
    requires Inv(b, m1, h1, f1)
    requires Frees(m0, h0, m1, h1, pd, from, a) && 0 <= from <= a && Cleared(m1, m2, pd, a, a + 1)
    requires Holds(h1, p, User(pd, a / NENTRIES, a % NENTRIES)) && h2 == h1[p := Free(k)]
    requires t in h1 && IsTableOf(h1[t], pd)
    requires |m2| == |m1| && forall q :: 0 <= q < |m1| && q != p && q != t ==> m2[q] == m1[q]
    ensures Frees(m0, h0, m2, h2, pd, from, a + 1)
  {
    assert a == a / NENTRIES * NENTRIES + a % NENTRIES;
    forall q | q in h0 && !h0[q].Free? && !Above(h0[q], pd, from)
      ensures SamePage(m0, h0, m2, h2, pd, q)
    {
      assert SamePage(m0, h0, m1, h1, pd, q);
    }
    forall q | q in h0 && Above(h0[q], pd, from)
      ensures if Vpn(h0[q]) < a + 1 then h2[q].Free? else SamePage(m0, h0, m2, h2, pd, q)
    {
      if Vpn(h0[q]) >= a {
        assert SamePage(m0, h0, m1, h1, pd, q);
        SameVpn(b, m1, h1, f1, pd, p, q);
      }
    }
  }

  /** No two pages are mapped at the same place. */
  lemma SameVpn(b: Bounds, mem: seq<Page>, holder: map<int, Holder>, fl: seq<int>, pd: int, p: int, q: int)
    requires Inv(b, mem, holder, fl) && p in holder && q in holder
    requires holder[p].User? && holder[q].User? && holder[p].pd == holder[q].pd == pd
    ensures Vpn(holder[p]) == Vpn(holder[q]) ==> p == q
  {
    assert Placed(mem, holder, fl, p, holder[p]) && Placed(mem, holder, fl, q, holder[q]);
    assert Vpn(holder[p]) == Vpn(holder[q]) ==> holder[p].i == holder[q].i && holder[p].j == holder[q].j;
  }

  /** The translations after entry a of table t has lost page p. */
  lemma ReleasedLookup(b: Bounds, m0: seq<Page>, h0: map<int, Holder>, f0: seq<int>, m2: seq<Page>, pd: int, t: int,
      a: int, p: int, blk: Page, v: int)
    requires Inv(b, m0, h0, f0) && IsDir(h0, pd) && 0 <= a && 0 <= v
    requires Points(m0, pd, a / NENTRIES, t) && 0 <= t < |m0| && IsTable(m0[t])
    requires p in h0 && h0[p].User? && 0 <= p < |m0| && m2 == SetEntry(m0, t, a % NENTRIES, Absent)[p := blk]
    ensures Lookup(m2, pd, v) == if v == a then Absent else Lookup(m0, pd, v)
  {
    var m1 := SetEntry(m0, t, a % NENTRIES, Absent);
    LookupSet(b, m0, h0, f0, pd, t, a, Absent, v);
    assert Holds(h0, t, Table(pd, a / NENTRIES));
    GetSet(m0, t, a % NENTRIES, Absent, pd, v / NENTRIES);
    var x := Get(m0, pd, v / NENTRIES);
    assert Get(m2, pd, v / NENTRIES) == x;
    if x.Present? {
      assert Holds(h0, x.page, Table(pd, v / NENTRIES));
      assert Get(m2, x.page, v % NENTRIES) == Get(m1, x.page, v % NENTRIES);
    }
  }

  lemma ReleasedCleared(b: Bounds, m0: seq<Page>, h0: map<int, Holder>, f0: seq<int>, m2: seq<Page>, pd: int,
      t: int, a: int, p: int, blk: Page)
    requires Inv(b, m0, h0, f0) && IsDir(h0, pd) && 0 <= a
    requires Points(m0, pd, a / NENTRIES, t) && 0 <= t < |m0| && IsTable(m0[t])
    requires p in h0 && h0[p].User? && 0 <= p < |m0| && m2 == SetEntry(m0, t, a % NENTRIES, Absent)[p := blk]
    ensures Cleared(m0, m2, pd, a, a + 1)
  {
    forall v | 0 <= v
      ensures Lookup(m2, pd, v) == if a <= v < a + 1 then Absent else Lookup(m0, pd, v)
    {
      ReleasedLookup(b, m0, h0, f0, m2, pd, t, a, p, blk, v);
    }
  }

  lemma FreesNothing(b: Bounds, m0: seq<Page>, h0: map<int, Holder>, mem: seq<Page>, holder: map<int, Holder>,
      fl: seq<int>, pd: int, from: int, a: int)
    requires Frees(m0, h0, mem, holder, pd, from, a) && Lookup(mem, pd, a) == Absent && 0 <= from <= a &&
      Inv(b, mem, holder, fl)
    ensures Frees(m0, h0, mem, holder, pd, from, a + 1)
  {
    forall p | p in h0 && Above(h0[p], pd, from)
      ensures Vpn(h0[p]) < a + 1 ==> holder[p].Free?
    {
      if a <= Vpn(h0[p]) {
        assert SamePage(m0, h0, mem, holder, pd, p);
        assert Placed(mem, holder, fl, p, holder[p]);
        assert h0[p].i != a / NENTRIES || h0[p].j != a % NENTRIES;
      }
    }
  }

  // ---------- the kernel's part of an address space ----------

  datatype KMap = KMap(virt: int, start: int, end: int, perm: int)

  /** Where the kernel's writable data begins: the linker decides. */
  predicate KernelData(data: int) {
    data % PGSIZE == 0 && KERNBASE + EXTMEM < data < KERNBASE + PHYSTOP
  }

  function Kmap(data: int, k: int): (m: KMap) {
    if k == 0 then KMap(KERNBASE, 0, EXTMEM, PTE_W)
    else if k == 1 then KMap(KERNBASE + EXTMEM, EXTMEM, data - KERNBASE, 0)
    else if k == 2 then KMap(data, data - KERNBASE, PHYSTOP, PTE_W)
    else KMap(DEVSPACE, DEVSPACE, 0, PTE_W)
  }

  function Ksize(m: KMap): (n: int) {
    (m.end - m.start) % U32
  }

  /** The entry for page number v once the first n rows of the kernel's table are mapped. */
  function KernelEntry(data: int, n: int, v: int): (x: Entry)
    decreases n
  {
    if n <= 0 then Absent
    else
      var m := Kmap(data, n - 1);
      if m.virt / PGSIZE <= v < (m.virt + Ksize(m)) / PGSIZE then Present(m.start / PGSIZE + v - m.virt / PGSIZE,
          m.perm)
      else KernelEntry(data, n - 1, v)
  }

  /** The whole kernel mapping, as an address space shows it: all of physical memory at
      KERNBASE, read-only from the kernel's first page up to its data, and the devices at
      their own addresses. */
  function KernelView(data: int, v: int): (x: Entry) {
    if USERPAGES <= v < USERPAGES + PHYSTOP / PGSIZE then
      Present(v - USERPAGES, if (KERNBASE + EXTMEM) / PGSIZE <= v < data / PGSIZE then 0 else PTE_W)
    else if DEVSPACE / PGSIZE <= v < U32 / PGSIZE then Present(v, PTE_W)
    else Absent
  }

  lemma KernelViewIs(data: int, v: int)
    requires KernelData(data)
    ensures KernelEntry(data, 4, v) == KernelView(data, v)
  {
    assert KernelEntry(data, 3, v) == KernelEntry(data, 1 + 2, v);
    assert KernelEntry(data, 2, v) == KernelEntry(data, 1 + 1, v);
    assert KernelEntry(data, 1, v) == KernelEntry(data, 1 + 0, v);
    assert Kmap(data, 3).virt == DEVSPACE;
  }

  /** The rows of the kernel's table are page aligned, lie in the upper half, fit the address
      space and do not overlap. */
  lemma KmapRow(data: int, n: int)
    requires KernelData(data) && 0 <= n < 4
    ensures var m := Kmap(data, n);
      && KERNBASE <= m.virt < m.virt + Ksize(m) <= U32 && m.start % PGSIZE == 0
      && (m.virt + Ksize(m) - 1) / PGSIZE + 1 == (m.virt + Ksize(m)) / PGSIZE
      && m.virt / PGSIZE >= USERPAGES
  {
  }

  lemma KmapApart(data: int, n: int, k: int, v: int)
    requires KernelData(data) && 0 <= k <= n < 4
    requires Kmap(data, n).virt / PGSIZE <= v < (Kmap(data, n).virt + Ksize(Kmap(data, n))) / PGSIZE
    ensures KernelEntry(data, k, v) == Absent
    decreases k
  {
    if k > 0 {
      KmapApart(data, n, k - 1, v);
    }
  }

  // ---------- taking an address space apart ----------

  lemma AllDrained(b: Bounds, m0: seq<Page>, h0: map<int, Holder>, m1: seq<Page>, h1: map<int, Holder>,
      f1: seq<int>, pd: int)
    requires Frees(m0, h0, m1, h1, pd, 0, USERPAGES) && Inv(b, m1, h1, f1)
    ensures NoUser(h1, pd)
  {
    forall p | p in h1 && h1[p].User?
      ensures h1[p].pd != pd
    {
      assert Placed(m1, h1, f1, p, h1[p]);
      var v := Vpn(h1[p]);
      assert v / NENTRIES == h1[p].i && v % NENTRIES == h1[p].j;
      assert Lookup(m1, h1[p].pd, v).Present?;
    }
  }

  predicate TableAt(d: Page, i: int, t: int)
    requires IsTable(d)
  {
    0 <= i < NENTRIES && d.e[i].Present? && d.e[i].page == t
  }

  /** The tables in entries below i of a directory that read d are free, the others are still
      in hand; pages that were free stay so, and other pages in use have not changed. */
  ghost predicate FreedTables(m1: seq<Page>, h1: map<int, Holder>, mem: seq<Page>, holder: map<int, Holder>,
      d: Page, pd: int, i: int)
    requires IsTable(d)
  {
    && holder.Keys == h1.Keys
    && (forall p {:trigger Untouched(m1, h1, mem, holder, p)} ::
          p in h1 && !h1[p].Free? && !OfDir(p, h1[p], pd) ==> Untouched(m1, h1, mem, holder, p))
    && StaysFree(h1, holder)
    && forall k, t {:trigger TableAt(d, k, t)} :: TableAt(d, k, t) ==>
         t in holder && if k < i then holder[t].Free? else holder[t].Other?
  }

  lemma FreedTablesStep(m1: seq<Page>, h1: map<int, Holder>, m2: seq<Page>, h2: map<int, Holder>, m3: seq<Page>,
      h3: map<int, Holder>, d: Page, pd: int, i: int, t: int, n: int)
    requires IsTable(d) && DistinctTables(d, pd) && FreedTables(m1, h1, m2, h2, d, pd, i) && TableAt(d, i, t)
    requires Holds(h1, t, Table(pd, i)) && h3 == h2[t := Free(n)]
    requires |m3| == |m2| && forall q :: 0 <= q < |m2| && q != t ==> m3[q] == m2[q]
    ensures FreedTables(m1, h1, m3, h3, d, pd, i + 1)
  {
    forall p | p in h1 && !h1[p].Free? && !OfDir(p, h1[p], pd)
      ensures Untouched(m1, h1, m3, h3, p)
    {
      assert Untouched(m1, h1, m2, h2, p);
    }
    forall k, u | TableAt(d, k, u)
      ensures u in h3 && if k < i + 1 then h3[u].Free? else h3[u].Other?
    {
      assert k != i ==> u != t;
    }
  }

  lemma FreedTablesSkip(m1: seq<Page>, h1: map<int, Holder>, mem: seq<Page>, holder: map<int, Holder>, d: Page,
      pd: int, i: int)
    requires IsTable(d) && 0 <= i < NENTRIES && FreedTables(m1, h1, mem, holder, d, pd, i) && d.e[i].Absent?
    ensures FreedTables(m1, h1, mem, holder, d, pd, i + 1)
  {
    forall k, u | TableAt(d, k, u)
      ensures u in holder && if k < i + 1 then holder[u].Free? else holder[u].Other?
    {
      assert k != i;
    }
  }

  /** What is left when the pages, the tables and the directory itself are freed. */
  lemma AllGone(b: Bounds, m0: seq<Page>, h0: map<int, Holder>, f0: seq<int>, m1: seq<Page>, h1: map<int, Holder>,
      f1: seq<int>, m2: seq<Page>, h2: map<int, Holder>, m3: seq<Page>, h3: map<int, Holder>, pd: int, n: int)
    requires Inv(b, m0, h0, f0) && Inv(b, m1, h1, f1) && IsDir(h0, pd) && IsDir(h1, pd) && 0 <= pd < |m1| &&
      IsTable(m1[pd])
    requires Frees(m0, h0, m1, h1, pd, 0, USERPAGES) && FreedTables(m1, h1, m2, h2, m1[pd], pd, NENTRIES)
    requires h3 == h2[pd := Free(n)] && |m3| == |m2| && forall q :: 0 <= q < |m2| && q != pd ==> m3[q] == m2[q]
    ensures Gone(m0, h0, m3, h3, pd)
  {
    forall p | p in h0 && (h0[p].Free? || OfDir(p, h0[p], pd))
      ensures h3[p].Free?
    {
      assert Placed(m0, h0, f0, p, h0[p]);
      if IsTableOf(h0[p], pd) {
        assert SamePage(m0, h0, m1, h1, pd, p);
        assert Placed(m1, h1, f1, p, h1[p]);
        assert TableAt(m1[pd], h1[p].i, p);
      }
    }
    forall p | p in h0 && !h0[p].Free? && !OfDir(p, h0[p], pd)
      ensures Untouched(m0, h0, m3, h3, p)
    {
      assert SamePage(m0, h0, m1, h1, pd, p);
      assert Untouched(m1, h1, m2, h2, p);
    }
  }

  lemma GivenKernel(first: int, n: int, ppn: int)
    requires first >= USERPAGES
    ensures Given(first, n, ppn) == {}
  {
    assert forall p :: ppn <= p ==> !BelowKernel(first, ppn, p);
  }

  /** The user half of pd maps nothing, and the kernel half what the first n rows say. */
  ghost predicate KernelMapped(mem: seq<Page>, pd: int, data: int, n: int) {
    forall v {:trigger Lookup(mem, pd, v)} :: 0 <= v ==> Lookup(mem, pd, v) == KernelEntry(data, n, v)
  }

  lemma KernelStep(m0: seq<Page>, h0: map<int, Holder>, m1: seq<Page>, h1: map<int, Holder>, m2: seq<Page>,
      h2: map<int, Holder>, pd: int, data: int, n: int, first: int, count: int, ppn: int, perm: int)
    requires KernelMapped(m1, pd, data, n) && MapsRun(m1, h1, m2, h2, pd, first, count, ppn, perm)
    requires Kept(m0, h0, m1, h1, pd, USERPAGES, {}) && NewTables(h0, h1, pd, {}) && first >= USERPAGES && 0 <= n < 4
    ensures Kept(m0, h0, m2, h2, pd, USERPAGES, {}) && NewTables(h0, h2, pd, {})
    ensures var m := Kmap(data, n);
      first == m.virt / PGSIZE && first + count == (m.virt + Ksize(m)) / PGSIZE && ppn == m.start / PGSIZE &&
          perm == m.perm ==>
        KernelMapped(m2, pd, data, n + 1)
  {
    GivenKernel(first, count, ppn);
    KeptTwice(m0, h0, m1, h1, m2, h2, pd, USERPAGES, {}, USERPAGES, {});
    NewTablesTwice(h0, m1, h1, m2, h2, pd, {}, {});
  }

  // ---------- growing an address space ----------

  predicate ZeroMapped(mem: seq<Page>, pd: int, v: int) {
    var x := Lookup(mem, pd, v);
    x.Present? && x.perm == PTE_W + PTE_U && 0 <= x.page < |mem| && mem[x.page] == ZeroPage()
  }

  /** Apart from xs and tables, pages have left the free list only for pd's page numbers from..a. */
  ghost predicate NewUser(h0: map<int, Holder>, holder: map<int, Holder>, pd: int, from: int, a: int, xs: set<int>) {
    && holder.Keys == h0.Keys
    && forall p :: p in h0 && h0[p].Free? && p !in xs ==>
         holder[p].Free? || IsTableOf(holder[p], pd) || (holder[p].User? && holder[p].pd == pd &&
             from <= Vpn(holder[p]) < a)
  }

  /** pd has got pages at page numbers from..a, and nothing else has changed but for xs. */
  ghost predicate Extended(m0: seq<Page>, h0: map<int, Holder>, mem: seq<Page>, holder: map<int, Holder>, pd: int,
      from: int, a: int, xs: set<int>) {
    && (forall v {:trigger Lookup(mem, pd, v)} :: 0 <= v && !(from <= v < a) ==>
        Lookup(mem, pd, v) == Lookup(m0, pd, v))
    && Kept(m0, h0, mem, holder, pd, USERPAGES, {})
    && NewUser(h0, holder, pd, from, a, xs)
  }

  /** pd has got zeroed pages at page numbers from..a, and nothing else has changed. */
  ghost predicate Grown(m0: seq<Page>, h0: map<int, Holder>, mem: seq<Page>, holder: map<int, Holder>, pd: int,
      from: int, a: int) {
    && Extended(m0, h0, mem, holder, pd, from, a, {})
    && forall v {:trigger ZeroMapped(mem, pd, v)} :: from <= v < a ==> ZeroMapped(mem, pd, v)
  }

  lemma GrownNone(b: Bounds, mem: seq<Page>, holder: map<int, Holder>, pd: int, from: int)
    requires Total(b, mem, holder)
    ensures Grown(mem, holder, mem, holder, pd, from, from)
  {
  }

  /** A page is allocated, filled with blk, and mapped at page number a. */
  ghost predicate AddsPage(b: Bounds, m1: seq<Page>, h1: map<int, Holder>, f1: seq<int>, m2: seq<Page>,
      h2: map<int, Holder>, f2: seq<int>, m3: seq<Page>, h3: map<int, Holder>, f3: seq<int>, pd: int, a: int,
      p: int, blk: Page, perm: int)
  {
    && Inv(b, m1, h1, f1) && Inv(b, m2, h2, f2) && Inv(b, m3, h3, f3) && IsDir(h1, pd) && IsDir(h3, pd)
    && 0 <= a < USERPAGES && p in h1 && h1[p].Free? && 0 <= p < |m1|
    && h2 == h1[p := Other] && m2 == m1[p := blk] && MapsRun(m2, h2, m3, h3, pd, a, 1, p, perm)
  }

  lemma AddsPageLookup(b: Bounds, m1: seq<Page>, h1: map<int, Holder>, f1: seq<int>, m2: seq<Page>,
      h2: map<int, Holder>, f2: seq<int>, m3: seq<Page>, h3: map<int, Holder>, f3: seq<int>, pd: int, a: int,
      p: int, blk: Page, perm: int, v: int)
    requires AddsPage(b, m1, h1, f1, m2, h2, f2, m3, h3, f3, pd, a, p, blk, perm) && 0 <= v
    ensures Lookup(m3, pd, v) == if v == a then Present(p, perm) else Lookup(m1, pd, v)
    ensures 0 <= p < |m3| && m3[p] == blk
    ensures v < USERPAGES && Lookup(m1, pd, v).Present? ==>
              var q := Lookup(m1, pd, v).page; 0 <= q < |m1| == |m3| && m3[q] == m1[q]
  {
    assert Lookup(m2, pd, v) == Lookup(m1, pd, v) by {
      OtherLookup(b, m1, h1, f1, m2, pd, p, v);
    }
    assert BelowKernel(a, p, p) && p in Given(a, 1, p);
    assert Landed(m2, m3, h3, pd, p);
    if v < USERPAGES && Lookup(m1, pd, v).Present? {
      var q := Lookup(m1, pd, v).page;
      UserHeld(b, m1, h1, f1, pd, v);
      assert SamePage(m2, h2, m3, h3, pd, q);
    }
  }

  /** No translation goes through a page that is free or that other kernel code holds. */
  lemma OtherLookup(b: Bounds, m0: seq<Page>, h0: map<int, Holder>, f0: seq<int>, m1: seq<Page>, pd: int, t: int,
      v: int)
    requires Inv(b, m0, h0, f0) && IsDir(h0, pd) && t in h0 && (h0[t].Other? || h0[t].Free?)
    requires |m1| == |m0| && forall q :: 0 <= q < |m0| && q != t ==> m1[q] == m0[q]
    ensures Lookup(m1, pd, v) == Lookup(m0, pd, v)
  {
    var x := Get(m0, pd, v / NENTRIES);
    assert Get(m1, pd, v / NENTRIES) == x;
    if x.Present? {
      assert Holds(h0, x.page, Table(pd, v / NENTRIES));
    }
  }

  /** A free page p has become the page that pd maps at page number a, reading blk; apart from
      new tables nothing else has changed. */
  ghost predicate Added(m1: seq<Page>, h1: map<int, Holder>, m3: seq<Page>, h3: map<int, Holder>, pd: int, a: int,
      p: int, blk: Page, perm: int) {
    && (forall v {:trigger Lookup(m3, pd, v)} :: 0 <= v ==> Lookup(m3, pd, v) == if v == a then Present(p,
        perm) else Lookup(m1, pd, v))
    && (forall v {:trigger Lookup(m1, pd, v)} :: 0 <= v < USERPAGES && Lookup(m1, pd, v).Present? ==>
          SameBytes(m1, m3, Lookup(m1, pd, v).page))
    && 0 <= p < |m3| && m3[p] == blk
    && Kept(m1, h1, m3, h3, pd, USERPAGES, {})
    && Holds(h3, p, User(pd, a / NENTRIES, a % NENTRIES))
    && NewTables(h1, h3, pd, {p})
  }

  predicate SameBytes(m1: seq<Page>, m3: seq<Page>, q: int) {
    0 <= q < |m1| == |m3| && m3[q] == m1[q]
  }

  lemma AddsPageKept(m1: seq<Page>, h1: map<int, Holder>, m2: seq<Page>, h2: map<int, Holder>, m3: seq<Page>,
      h3: map<int, Holder>, pd: int, a: int, p: int, blk: Page)
    requires NoneAbove(h1) && p in h1 && h1[p].Free? && 0 <= p < |m1| && h2 == h1[p := Other] && m2 == m1[p := blk]
    requires forall q :: q in h1 ==> 0 <= q < |m1|
    requires Kept(m2, h2, m3, h3, pd, USERPAGES, Given(a, 1, p)) && NewTables(h2, h3, pd, {})
    ensures Kept(m1, h1, m3, h3, pd, USERPAGES, {})
    ensures NewTables(h1, h3, pd, {p})
  {
    forall q | q in h1 && !h1[q].Free?
      ensures SamePage(m1, h1, m3, h3, pd, q)
    {
      assert q !in Given(a, 1, p);
      assert SamePage(m2, h2, m3, h3, pd, q);
    }
  }

  lemma AddsPageAdded(b: Bounds, m1: seq<Page>, h1: map<int, Holder>, f1: seq<int>, m2: seq<Page>,
      h2: map<int, Holder>, f2: seq<int>, m3: seq<Page>, h3: map<int, Holder>, f3: seq<int>, pd: int, a: int,
      p: int, blk: Page, perm: int)
    requires AddsPage(b, m1, h1, f1, m2, h2, f2, m3, h3, f3, pd, a, p, blk, perm)
    ensures Added(m1, h1, m3, h3, pd, a, p, blk, perm)
  {
    forall v | 0 <= v
      ensures Lookup(m3, pd, v) == if v == a then Present(p, perm) else Lookup(m1, pd, v)
      ensures v < USERPAGES && Lookup(m1, pd, v).Present? ==> SameBytes(m1, m3, Lookup(m1, pd, v).page)
    {
      AddsPageLookup(b, m1, h1, f1, m2, h2, f2, m3, h3, f3, pd, a, p, blk, perm, v);
    }
    AddsPageLookup(b, m1, h1, f1, m2, h2, f2, m3, h3, f3, pd, a, p, blk, perm, a);
    UserHeld(b, m3, h3, f3, pd, a);
    InvNoneAbove(b, m1, h1, f1);
    AddsPageKept(m1, h1, m2, h2, m3, h3, pd, a, p, blk);
  }

  lemma OfferOne(mem: seq<Page>, holder: map<int, Holder>, a: int, p: int)
    requires Holds(holder, p, Other) && 0 <= p < |mem| && mem[p].Bytes?
    ensures Offered(mem, holder, a, 1, p)
  {
    forall q | q in Given(a, 1, p)
      ensures q == p
    {
      GivenOne(a, p, q);
    }
  }

  /** A free page p has been taken, but not mapped. */
  ghost predicate NotAdded(m1: seq<Page>, h1: map<int, Holder>, m3: seq<Page>, h3: map<int, Holder>, pd: int, p: int) {
    SameLookups(m1, m3, pd) && Kept(m1, h1, m3, h3, pd, USERPAGES, {}) && NewTables(h1, h3, pd, {p})
  }

  lemma NotAddedIs(b: Bounds, m1: seq<Page>, h1: map<int, Holder>, f1: seq<int>, m2: seq<Page>,
      h2: map<int, Holder>, m3: seq<Page>, h3: map<int, Holder>, pd: int, a: int, p: int, blk: Page, perm: int)
    requires Inv(b, m1, h1, f1) && IsDir(h1, pd) && p in h1 && h1[p].Free? && 0 <= p < |m1|
    requires h2 == h1[p := Other] && m2 == m1[p := blk] && MapsRun(m2, h2, m3, h3, pd, a, 0, p, perm)
    ensures NotAdded(m1, h1, m3, h3, pd, p) && Holds(h3, p, Other)
  {
    assert Given(a, 0, p) == {};
    InvNoneAbove(b, m1, h1, f1);
    assert Kept(m2, h2, m3, h3, pd, USERPAGES, Given(a, 1, p)) by {
      KeptMore(m2, h2, m3, h3, pd, USERPAGES, {}, USERPAGES, Given(a, 1, p));
    }
    AddsPageKept(m1, h1, m2, h2, m3, h3, pd, a, p, blk);
    assert SamePage(m2, h2, m3, h3, pd, p);
    forall v | 0 <= v
      ensures Lookup(m3, pd, v) == Lookup(m1, pd, v)
    {
      OtherLookup(b, m1, h1, f1, m2, pd, p, v);
      assert Lookup(m3, pd, v) == Lookup(m2, pd, v);
    }
  }

  lemma ExtendedStep(m0: seq<Page>, h0: map<int, Holder>, m1: seq<Page>, h1: map<int, Holder>, m3: seq<Page>,
      h3: map<int, Holder>, pd: int, from: int, a: int, p: int, blk: Page, perm: int)
    requires 0 <= from <= a < USERPAGES && Extended(m0, h0, m1, h1, pd, from, a, {})
    requires Added(m1, h1, m3, h3, pd, a, p, blk, perm) && NoneAbove(h1)
    ensures Extended(m0, h0, m3, h3, pd, from, a + 1, {})
  {
    assert Kept(m1, h1, m3, h3, pd, USERPAGES, {});
    KeptTwice(m0, h0, m1, h1, m3, h3, pd, USERPAGES, {}, USERPAGES, {});
    assert NewUser(h0, h1, pd, from, a, {}) && NewTables(h1, h3, pd, {p});
    assert Vpn(h3[p]) == a;
    forall q | q in h0 && h0[q].Free?
      ensures h3[q].Free? || IsTableOf(h3[q], pd) || (h3[q].User? && h3[q].pd == pd && from <= Vpn(h3[q]) < a + 1)
    {
      if q != p && !h1[q].Free? {
        assert SamePage(m1, h1, m3, h3, pd, q);
      }
    }
  }

  lemma GrownStep(m0: seq<Page>, h0: map<int, Holder>, m1: seq<Page>, h1: map<int, Holder>, m3: seq<Page>,
      h3: map<int, Holder>, pd: int, from: int, a: int, p: int)
    requires 0 <= from <= a < USERPAGES && Grown(m0, h0, m1, h1, pd, from, a)
    requires Added(m1, h1, m3, h3, pd, a, p, ZeroPage(), PTE_W + PTE_U) && NoneAbove(h1)
    ensures Grown(m0, h0, m3, h3, pd, from, a + 1)
  {
    ExtendedStep(m0, h0, m1, h1, m3, h3, pd, from, a, p, ZeroPage(), PTE_W + PTE_U);
    forall v | from <= v < a + 1
      ensures ZeroMapped(m3, pd, v)
    {
      assert v < a ==> ZeroMapped(m1, pd, v);
      assert v < a ==> SameBytes(m1, m3, Lookup(m1, pd, v).page);
    }
  }

  /** A page taken but not mapped, while growing. */
  lemma ExtendedNotAdded(m0: seq<Page>, h0: map<int, Holder>, m1: seq<Page>, h1: map<int, Holder>, m3: seq<Page>,
      h3: map<int, Holder>, pd: int, from: int, a: int, p: int)
    requires 0 <= from && Extended(m0, h0, m1, h1, pd, from, a, {}) && NotAdded(m1, h1, m3, h3, pd, p) && NoneAbove(h1)
    ensures Extended(m0, h0, m3, h3, pd, from, a, {p})
  {
    KeptTwice(m0, h0, m1, h1, m3, h3, pd, USERPAGES, {}, USERPAGES, {});
    assert NewUser(h0, h1, pd, from, a, {}) && NewTables(h1, h3, pd, {p});
    forall q | q in h0 && h0[q].Free? && q != p
      ensures h3[q].Free? || IsTableOf(h3[q], pd) || (h3[q].User? && h3[q].pd == pd && from <= Vpn(h3[q]) < a)
    {
      if !h1[q].Free? {
        assert SamePage(m1, h1, m3, h3, pd, q);
      }
    }
  }

  lemma GiveBack(b: Bounds, m0: seq<Page>, h0: map<int, Holder>, m2: seq<Page>, h2: map<int, Holder>, f2: seq<int>,
      m3: seq<Page>, h3: map<int, Holder>, pd: int, p: int, n: int)
    requires SameLookups(m0, m2, pd) && Kept(m0, h0, m2, h2, pd, USERPAGES, {}) && NewTables(h0, h2, pd, {p})
    requires Inv(b, m2, h2, f2) && IsDir(h2, pd) && Holds(h2, p, Other) && p in h0 && h0[p].Free? &&
      h3 == h2[p := Free(n)]
    requires |m3| == |m2| && forall q :: 0 <= q < |m2| && q != p ==> m3[q] == m2[q]
    ensures SameLookups(m0, m3, pd) && Kept(m0, h0, m3, h3, pd, USERPAGES, {}) && NewTables(h0, h3, pd, {})
  {
    forall v | 0 <= v
      ensures Lookup(m3, pd, v) == Lookup(m0, pd, v)
    {
      OtherLookup(b, m2, h2, f2, m3, pd, p, v);
      assert Lookup(m2, pd, v) == Lookup(m0, pd, v);
    }
    forall q | q in h0 && !h0[q].Free? && !Above(h0[q], pd, USERPAGES)
      ensures SamePage(m0, h0, m3, h3, pd, q)
    {
      assert SamePage(m0, h0, m2, h2, pd, q);
    }
  }

  /** pd translates as it did, the pages in use are unchanged, and only tables of pd have been
      taken from the free list. */
  ghost predicate Ungrew(m0: seq<Page>, h0: map<int, Holder>, mem: seq<Page>, holder: map<int, Holder>, pd: int) {
    SameLookups(m0, mem, pd) && Kept(m0, h0, mem, holder, pd, USERPAGES, {}) && NewTables(h0, holder, pd, {})
  }

  /** A page that is free was free before growing. */
  lemma WasFree(m0: seq<Page>, h0: map<int, Holder>, m1: seq<Page>, h1: map<int, Holder>, pd: int, p: int)
    requires Kept(m0, h0, m1, h1, pd, USERPAGES, {}) && NoneAbove(h0) && p in h1 && h1[p].Free?
    ensures p in h0 && h0[p].Free?
  {
    assert p in h1.Keys && p in h0.Keys;
    assert !h0[p].Free? ==> SamePage(m0, h0, m1, h1, pd, p);
  }

  /** No page is mapped as a user page at or above KERNBASE. */
  ghost predicate NoneAbove(holder: map<int, Holder>) {
    forall p :: p in holder && holder[p].User? ==> Vpn(holder[p]) < USERPAGES
  }

  lemma InvNoneAbove(b: Bounds, mem: seq<Page>, holder: map<int, Holder>, fl: seq<int>)
    requires Inv(b, mem, holder, fl)
    ensures NoneAbove(holder)
  {
    forall p | p in holder && holder[p].User?
      ensures Vpn(holder[p]) < USERPAGES
    {
      assert Placed(mem, holder, fl, p, holder[p]);
    }
  }

  /** When growth fails and the new pages are freed, pd maps what it did; only page tables are
      left over. */
  lemma Ungrown(b: Bounds, m0: seq<Page>, h0: map<int, Holder>, f0: seq<int>, m1: seq<Page>, h1: map<int, Holder>,
      m2: seq<Page>, h2: map<int, Holder>, pd: int, from: int, a: int, end: int, xs: set<int>)
    requires Inv(b, m0, h0, f0) && IsDir(h0, pd) && 0 <= from <= a <= end && NoneAbove(h1)
    requires Unmapped(m0, pd, from, end - 1)
    requires Extended(m0, h0, m1, h1, pd, from, a, xs) && Frees(m1, h1, m2, h2, pd, from, end)
    ensures SameLookups(m0, m2, pd) && Kept(m0, h0, m2, h2, pd, USERPAGES, {}) && NewTables(h0, h2, pd, xs)
  {
    assert Kept(m0, h0, m1, h1, pd, USERPAGES, {}) && NewUser(h0, h1, pd, from, a, xs);
    forall v | 0 <= v
      ensures Lookup(m2, pd, v) == Lookup(m0, pd, v)
    {
      assert from <= v < end ==> Lookup(m0, pd, v) == Absent;
      assert !(from <= v < end) ==> Lookup(m2, pd, v) == Lookup(m1, pd, v);
    }
    forall p | p in h0 && !h0[p].Free?
      ensures SamePage(m0, h0, m2, h2, pd, p)
    {
      NotBetween(b, m0, h0, f0, pd, from, end, p);
      assert SamePage(m0, h0, m1, h1, pd, p);
      if !Above(h1[p], pd, from) {
        assert SamePage(m1, h1, m2, h2, pd, p);
      }
    }
    forall p | p in h0 && h0[p].Free? && p !in xs
      ensures h2[p].Free? || IsTableOf(h2[p], pd)
    {
      if IsTableOf(h1[p], pd) {
        assert SamePage(m1, h1, m2, h2, pd, p);
      }
    }
  }

  lemma NotBetween(b: Bounds, mem: seq<Page>, holder: map<int, Holder>, fl: seq<int>, pd: int, from: int, end: int,
      p: int)
    requires Inv(b, mem, holder, fl) && Unmapped(mem, pd, from, end - 1) && p in holder && 0 <= from
    ensures Above(holder[p], pd, from) ==> Vpn(holder[p]) >= end
    ensures !Above(holder[p], pd, USERPAGES)
  {
    assert Placed(mem, holder, fl, p, holder[p]);
    if Above(holder[p], pd, from) {
      var v := Vpn(holder[p]);
      assert v / NENTRIES == holder[p].i && v % NENTRIES == holder[p].j;
      assert Lookup(mem, pd, v).Present?;
    }
  }

  // ---------- copying an address space ----------

  /** Page number v of d maps a copy of what page number v of pd maps in m0, with its permissions. */
  predicate Copy(m0: seq<Page>, pd: int, mem: seq<Page>, d: int, v: int) {
    var x, y := Lookup(m0, pd, v), Lookup(mem, d, v);
    && x.Present? && y.Present? && y.perm == x.perm && x.page != y.page
    && 0 <= x.page < |m0| && 0 <= y.page < |mem| && mem[y.page] == m0[x.page]
  }

  /** The first a pages of pd are copied to d; the rest of d is the kernel's part. */
  ghost predicate Copied(m0: seq<Page>, pd: int, mem: seq<Page>, d: int, a: int, data: int) {
    && (forall v {:trigger Copy(m0, pd, mem, d, v)} :: 0 <= v < a ==> Copy(m0, pd, mem, d, v))
    && (forall v {:trigger Lookup(mem, d, v)} :: a <= v ==> Lookup(mem, d, v) == KernelView(data, v))
  }

  lemma CopiedStep(m0: seq<Page>, m1: seq<Page>, h1: map<int, Holder>, m3: seq<Page>, h3: map<int, Holder>, pd: int,
      d: int, a: int, p: int, perm: int, data: int, q: int)
    requires 0 <= a < USERPAGES && Copied(m0, pd, m1, d, a, data)
    requires Lookup(m0, pd, a) == Present(q, perm) && 0 <= q < |m0| && q != p &&
      Added(m1, h1, m3, h3, d, a, p, m0[q], perm)
    ensures Copied(m0, pd, m3, d, a + 1, data)
  {
    forall v | 0 <= v < a + 1
      ensures Copy(m0, pd, m3, d, v)
    {
      assert Lookup(m3, d, v) == if v == a then Present(p, perm) else Lookup(m1, d, v);
      assert v < a ==> Copy(m0, pd, m1, d, v);
      assert v < a ==> SameBytes(m1, m3, Lookup(m1, d, v).page);
    }
  }

  lemma GainsAdded(m0: seq<Page>, h0: map<int, Holder>, m1: seq<Page>, h1: map<int, Holder>, m3: seq<Page>,
      h3: map<int, Holder>, d: int, p: int)
    requires Gains(h0, h1, d) && Kept(m1, h1, m3, h3, d, USERPAGES, {}) && NewTables(h1, h3, d, {p}) && NoneAbove(h1)
    requires p in h3 && (OfDir(p, h3[p], d) || h3[p].Free?)
    ensures Gains(h0, h3, d)
  {
    forall q | q in h0 && h0[q].Free?
      ensures h3[q].Free? || OfDir(q, h3[q], d)
    {
      if q != p && !h1[q].Free? {
        assert SamePage(m1, h1, m3, h3, d, q);
      }
    }
  }

  lemma FreeKept(m0: seq<Page>, h0: map<int, Holder>, m2: seq<Page>, h2: map<int, Holder>, m3: seq<Page>,
      h3: map<int, Holder>, pd: int, p: int, n: int)
    requires Kept(m0, h0, m2, h2, pd, USERPAGES, {}) && p in h0 && h0[p].Free? && p in h2 && h3 == h2[p := Free(n)]
    requires |m3| == |m2| && forall q :: 0 <= q < |m2| && q != p ==> m3[q] == m2[q]
    ensures Kept(m0, h0, m3, h3, pd, USERPAGES, {})
  {
    forall q | q in h0 && !h0[q].Free? && !Above(h0[q], pd, USERPAGES)
      ensures SamePage(m0, h0, m3, h3, pd, q)
    {
      assert SamePage(m0, h0, m2, h2, pd, q);
    }
  }

  /** From an empty directory on a page that was free: tables added to it leave the pages in use
      alone. */
  lemma DirGains(m0: seq<Page>, h0: map<int, Holder>, m1: seq<Page>, h1: map<int, Holder>, m2: seq<Page>,
      h2: map<int, Holder>, pd: int)
    requires pd in h0 && h0[pd].Free? && h1 == h0[pd := Dir] && 0 <= pd < |m0| && m1 == m0[pd := EmptyTable()]
    requires forall p :: p in h0 ==> 0 <= p < |m0|
    requires Kept(m1, h1, m2, h2, pd, USERPAGES, {}) && NewTables(h1, h2, pd, {})
    ensures Kept(m0, h0, m2, h2, pd, USERPAGES, {}) && Gains(h0, h2, pd)
  {
    forall p | p in h0 && !h0[p].Free? && !Above(h0[p], pd, USERPAGES)
      ensures SamePage(m0, h0, m2, h2, pd, p)
    {
      assert SamePage(m1, h1, m2, h2, pd, p);
    }
  }

  /** The number of pages that lie whole below address sz. */
  function PageDown(sz: int): (n: int) {
    sz / PGSIZE
  }

  lemma FitsIs(p: int, sz: int)
    ensures (p + 1) * PGSIZE <= sz <==> p < PageDown(sz)
  {
  }

  /** Pages first..p have become free. */
  ghost predicate FreedFrom(h0: map<int, Holder>, holder: map<int, Holder>, first: int, p: int) {
    && holder.Keys == h0.Keys
    && forall q :: q in h0 ==> if first <= q < p then holder[q].Free? else holder[q] == h0[q]
  }

  lemma BelowSize(a: int, sz: int)
    requires 0 <= sz <= KERNBASE
    ensures a * PGSIZE < sz <==> a < PageUp(sz)
    ensures PageUp(sz) <= USERPAGES
  {
  }

  ghost predicate AllPresent(mem: seq<Page>, pd: int, n: int) {
    forall v :: 0 <= v < n ==> Lookup(mem, pd, v).Present?
  }

  lemma PresentStep(mem: seq<Page>, pd: int, n: int)
    requires AllPresent(mem, pd, n) && Lookup(mem, pd, n).Present?
    ensures AllPresent(mem, pd, n + 1)
  {
  }

  class Memory {
    const b: Bounds
    var mem: seq<Page>
    var freelist: int
    ghost var holder: map<int, Holder>
    ghost var fl: seq<int>

    ghost predicate Valid()
      reads this
    {
      Inv(b, mem, holder, fl) && freelist == Below(fl, |fl|)
    }

    /** Takes the page at the head of the free list. */
    method Kalloc() returns (p: int)
      requires Valid()
      modifies `freelist, `holder, `fl
      ensures Valid()
      ensures p == 0 <==> old(fl) == []
      ensures p == 0 ==> holder == old(holder) && fl == old(fl)
      ensures p != 0 ==> old(Holds(holder, p, Free(|fl| - 1))) && b.lo <= p < b.hi
      ensures p != 0 ==> holder == old(holder)[p := Other] && fl == old(fl)[..|old(fl)| - 1]
    {
      assert |fl| > 0 ==> Holds(holder, fl[|fl| - 1], Free(|fl| - 1));
      p := freelist;
      if p != 0 {
        freelist := mem[p].next;
        PopInv(b, mem, holder, fl, holder[p := Other], fl[..|fl| - 1], p);
        holder := holder[p := Other];
        fl := fl[..|fl| - 1];
      }
    }

    /** Puts a page at the head of the free list, or panics when it is not allocatable. */
    method Kfree(p: int) returns (ok: bool)
      requires |mem| == b.hi && 0 < b.lo
      modifies `mem, `freelist, `fl
      ensures ok <==> b.lo <= p < b.hi
      ensures ok ==> mem == old(mem)[p := Run(old(freelist))] && freelist == p && fl == old(fl) + [p]
      ensures !ok ==> mem == old(mem) && freelist == old(freelist) && fl == old(fl)
    {
      if p < b.lo || p >= b.hi {
        return false;
      }
      mem := mem[p := Run(freelist)];
      freelist := p;
      fl := fl + [p];
      return true;
    }

    /** The free list after Kfree, for a page that nothing points to. */
    ghost method Freed(m0: seq<Page>, h0: map<int, Holder>, f0: seq<int>, p: int)
      requires Inv(b, m0, h0, f0) && Holds(h0, p, Other)
      requires 0 <= p < |m0| && mem == m0[p := Run(Below(f0, |f0|))] && fl == f0 + [p] && freelist == p
      modifies `holder
      ensures Valid() && holder == h0[p := Free(|f0|)]
    {
      holder := h0[p := Free(|f0|)];
      PushInv(b, m0, h0, f0, mem, holder, fl, p);
    }

    /** Gives the pages that lie whole between two addresses to the allocator. */
    method FreeRange(vstart: int, vend: int)
      requires Valid() && b.lo <= PageUp(vstart - KERNBASE)
      requires forall p :: PageUp(vstart - KERNBASE) <= p < PageDown(vend - KERNBASE) ==> Holds(holder, p, Other)
      modifies this
      ensures Valid() && holder.Keys == old(holder).Keys
      ensures forall p :: p in holder ==>
                if PageUp(vstart - KERNBASE) <= p < PageDown(vend - KERNBASE) then holder[p].Free?
                else holder[p] == old(holder)[p]
    {
      var p := PageUp(vstart - KERNBASE);
      ghost var first, last, h0 := p, PageDown(vend - KERNBASE), holder;
      while (p + 1) * PGSIZE <= vend - KERNBASE
        invariant first <= p && (p <= last || p == first) && Valid()
        invariant FreedFrom(h0, holder, first, p)
        decreases last - p
      {
        FitsIs(p, vend - KERNBASE);
        assert Holds(h0, p, Other);
        FreeOne(p);
        p := p + 1;
      }
      FitsIs(p, vend - KERNBASE);
    }

    /** Frees a page that other kernel code holds. */
    method FreeOne(p: int)
      requires Valid() && Holds(holder, p, Other)
      modifies `mem, `freelist, `fl, `holder
      ensures Valid() && holder == old(holder)[p := Free(|old(fl)|)] && fl == old(fl) + [p]
      ensures |mem| == |old(mem)| && forall q :: 0 <= q < |mem| && q != p ==> mem[q] == old(mem[q])
    {
      ghost var m1, h1, f1 := mem, holder, fl;
      var ok := Kfree(p);
      assert ok;
      Freed(m1, h1, f1, p);
    }

    /** The page table that maps page number vpn of directory pd, or 0; with alloc, made when
        it is missing. */
    method Walkpgdir(pd: int, vpn: int, alloc: bool) returns (t: int)
      requires Valid() && IsDir(holder, pd) && 0 <= vpn < NENTRIES * NENTRIES
      modifies this
      ensures Valid() && IsDir(holder, pd)
      ensures t != 0 ==> Points(mem, pd, vpn / NENTRIES, t) && 0 <= t < |mem| && IsTable(mem[t])
      ensures t == 0 ==> Get(mem, pd, vpn / NENTRIES) == Absent && (alloc ==> fl == [])
      ensures t == 0 || !alloc || Get(old(mem), pd, vpn / NENTRIES) != Absent ==>
        mem == old(mem) && holder == old(holder) && fl == old(fl)
      ensures SameLookups(old(mem), mem, pd)
      ensures Kept(old(mem), old(holder), mem, holder, pd, USERPAGES, {})
      ensures NewTables(old(holder), holder, pd, {})
    {
      var i := vpn / NENTRIES;
      assert Placed(mem, holder, fl, pd, holder[pd]);
      var pde := mem[pd].e[i];
      assert pde == Get(mem, pd, i);
      if pde.Present? {
        t := pde.page;
        assert Holds(holder, t, Table(pd, i));
        assert Placed(mem, holder, fl, t, holder[t]);
      } else {
        if !alloc {
          return 0;
        }
        t := Kalloc();
        if t == 0 {
          return;
        }
        Hang(pd, i, t);
      }
    }

    /** Empties page t and hangs it in entry i of directory pd. */
    method Hang(pd: int, i: int, t: int)
      requires Valid() && IsDir(holder, pd) && 0 <= i < NENTRIES && Get(mem, pd, i) == Absent && Holds(holder, t, Other)
      modifies `mem, `holder
      ensures Valid() && holder == old(holder)[t := Table(pd, i)]
      ensures Points(mem, pd, i, t) && 0 <= t < |mem| && IsTable(mem[t])
      ensures SameLookups(old(mem), mem, pd)
      ensures |mem| == |old(mem)| && forall q :: 0 <= q < |mem| && q != t && q != pd ==> mem[q] == old(mem[q])
    {
      ghost var m0 := mem;
      mem := mem[t := EmptyTable()];
      WriteOther(b, m0, holder, fl, mem, t);
      ghost var m1 := mem;
      assert Placed(mem, holder, fl, pd, holder[pd]);
      mem := SetEntry(mem, pd, i, Present(t, PTE_W + PTE_U));
      HangInv(b, m1, holder, fl, mem, holder[t := Table(pd, i)], pd, i, t, PTE_W + PTE_U);
      GetSet(m1, pd, i, Present(t, PTE_W + PTE_U), pd, i);
      forall v | 0 <= v
        ensures Lookup(mem, pd, v) == Lookup(m0, pd, v)
      {
        LookupHang(m1, pd, i, t, PTE_W + PTE_U, v);
        OtherLookup(b, m0, holder, fl, m1, pd, t, v);
      }
      holder := holder[t := Table(pd, i)];
    }

    /** Maps page number vpn of directory pd to page p; fails when a page table is needed and
        there is no memory for it, and panics when something is mapped there already. */
    method MapPage(pd: int, vpn: int, p: int, perm: int) returns (ok: bool, panics: bool)
      requires Valid() && IsDir(holder, pd) && 0 <= vpn < NENTRIES * NENTRIES
      requires vpn < USERPAGES ==> Holds(holder, p, Other) && 0 <= p < |mem| && mem[p].Bytes?
      modifies this
      ensures Valid() && IsDir(holder, pd)
      ensures panics <==> Lookup(old(mem), pd, vpn) != Absent
      ensures !ok ==> mem == old(mem) && holder == old(holder) && (!panics ==> fl == [] == old(fl))
      ensures ok ==> !panics && MapsRun(old(mem), old(holder), mem, holder, pd, vpn, 1, p, perm)
    {
      var t := Walkpgdir(pd, vpn, true);
      if t == 0 {
        return false, false;
      }
      ghost var m1, h1 := mem, holder;
      assert vpn < USERPAGES ==> SamePage(old(mem), old(holder), m1, h1, pd, p);
      assert Lookup(m1, pd, vpn) == Lookup(old(mem), pd, vpn);
      if mem[t].e[vpn % NENTRIES] != Absent {
        return false, true;
      }
      SetPte(pd, vpn, t, p, perm);
      WalkThenSet(old(mem), old(holder), m1, h1, mem, holder, pd, vpn, p, perm);
      return true, false;
    }

    method SetPte(pd: int, vpn: int, t: int, p: int, perm: int)
      requires Valid() && IsDir(holder, pd) && 0 <= vpn < NENTRIES * NENTRIES && Lookup(mem, pd, vpn) == Absent
      requires Points(mem, pd, vpn / NENTRIES, t) && 0 <= t < |mem| && IsTable(mem[t])
      requires vpn < USERPAGES ==> Holds(holder, p, Other) && 0 <= p < |mem| && mem[p].Bytes?
      modifies `mem, `holder
      ensures Valid() && IsDir(holder, pd)
      ensures MapsRun(old(mem), old(holder), mem, holder, pd, vpn, 1, p, perm)
    {
      ghost var m0, h0 := mem, holder;
      var i, j := vpn / NENTRIES, vpn % NENTRIES;
      assert Holds(holder, t, Table(pd, i));
      mem := SetEntry(mem, t, j, Present(p, perm));
      if vpn < USERPAGES {
        holder := holder[p := User(pd, i, j)];
        MapInv(b, m0, h0, fl, mem, holder, pd, i, t, j, p, perm);
      } else {
        MapKernelInv(b, m0, h0, fl, mem, pd, i, t, j, Present(p, perm));
      }
      SetMapsRun(b, m0, h0, fl, mem, holder, pd, vpn, t, p, perm);
    }

    /** Maps the pages that hold addresses va to va + size - 1 to consecutive physical pages
        from pa on. Fails when memory for a page table runs out, with the first `done` mapped, and
        panics at the first page number, `at`, where something is mapped already. */
    method Mappages(pd: int, va: int, size: int, pa: int, perm: int)
      returns (ok: bool, panics: bool, ghost done: int, ghost at: int)
      requires Valid() && IsDir(holder, pd) && 0 <= va < va + size <= U32 && pa % PGSIZE == 0
      requires Offered(mem, holder, va / PGSIZE, (va + size - 1) / PGSIZE - va / PGSIZE + 1, pa / PGSIZE)
      modifies this
      ensures Valid() && IsDir(holder, pd)
      ensures 0 <= done <= (va + size - 1) / PGSIZE - va / PGSIZE + 1
      ensures ok <==> done == (va + size - 1) / PGSIZE - va / PGSIZE + 1
      ensures at == va / PGSIZE + done && Clear(old(mem), pd, va / PGSIZE, at)
      ensures panics <==> !ok && !Vacant(old(mem), pd, at)
      ensures !ok && !panics ==> fl == []
      ensures MapsRun(old(mem), old(holder), mem, holder, pd, va / PGSIZE, done, pa / PGSIZE, perm)
    {
      var first := va / PGSIZE;
      var last := (va + size - 1) / PGSIZE;
      var a, p := first, pa / PGSIZE;
      ghost var m0, h0, ppn := mem, holder, p;
      done, at := 0, first;
      MapsNone(mem, holder, pd, first, p, perm);
      while true
        invariant first <= a <= last && at == a == first + done && p == ppn + done
        invariant Valid() && IsDir(holder, pd) && Clear(m0, pd, first, a)
        invariant MapsRun(m0, h0, mem, holder, pd, first, done, ppn, perm)
        decreases last - a
      {
        ok, panics := MapNext(m0, h0, first, last, done, ppn, pd, a, p, perm);
        if !ok {
          return;
        }
        ClearStep(m0, pd, first, a);
        done, at := done + 1, a + 1;
        if a == last {
          break;
        }
        a := a + 1;
        p := p + 1;
      }
    }

    /** One turn of the loop of Mappages. */
    method MapNext(ghost m0: seq<Page>, ghost h0: map<int, Holder>, ghost first: int, ghost last: int, ghost n: int,
        ghost ppn: int, pd: int, a: int, p: int, perm: int) returns (ok: bool, panics: bool)
      requires Valid() && IsDir(holder, pd) && IsDir(h0, pd) &&
        0 <= first <= a == first + n <= last < NENTRIES * NENTRIES
      requires 0 <= n && p == ppn + n
      requires MapsRun(m0, h0, mem, holder, pd, first, n, ppn, perm)
      requires Offered(m0, h0, first, last - first + 1, ppn)
      modifies this
      ensures Valid() && IsDir(holder, pd)
      ensures panics <==> !Vacant(m0, pd, a)
      ensures (ok ==> !panics) && (!ok && !panics ==> fl == [])
      ensures MapsRun(m0, h0, mem, holder, pd, first, if ok then n + 1 else n, ppn, perm)
    {
      ghost var m1, h1 := mem, holder;
      StillOffered(m0, h0, first, last, n, ppn, perm, pd);
      ok, panics := MapPage(pd, a, p, perm);
      if ok {
        MapsRunStep(m0, h0, m1, h1, mem, holder, pd, first, n, ppn, perm, a, p);
      }
    }

    lemma StillOffered(m0: seq<Page>, h0: map<int, Holder>, first: int, last: int, n: int, ppn: int, perm: int, pd: int)
      requires 0 <= first <= first + n <= last && IsDir(h0, pd)
      requires MapsRun(m0, h0, mem, holder, pd, first, n, ppn, perm)
      requires Offered(m0, h0, first, last - first + 1, ppn)
      ensures Lookup(mem, pd, first + n) == Lookup(m0, pd, first + n)
      ensures first + n < USERPAGES ==> Holds(h0, ppn + n, Other)
      ensures first + n < USERPAGES ==> Holds(holder, ppn + n, Other) && 0 <= ppn + n < |mem| && mem[ppn + n].Bytes?
    {
      if first + n < USERPAGES {
        assert BelowKernel(first, ppn, ppn + n);
        assert ppn + n in Given(first, last - first + 1, ppn);
        assert SamePage(m0, h0, mem, holder, pd, ppn + n);
      }
    }

    /** Frees the pages that pd maps from address newsz up to oldsz. */
    method Deallocuvm(pd: int, oldsz: int, newsz: int) returns (sz: int)
      requires Valid() && IsDir(holder, pd) && 0 <= oldsz <= KERNBASE && 0 <= newsz < U32
      modifies this
      ensures Valid() && IsDir(holder, pd)
      ensures sz == if newsz >= oldsz then oldsz else newsz
      ensures Frees(old(mem), old(holder), mem, holder, pd, PageUp(newsz), PageUp(oldsz))
    {
      ghost var m0, h0 := mem, holder;
      var from := PageUp(newsz);
      ghost var end := PageUp(oldsz);
      if newsz >= oldsz {
        FreesNone(b, mem, holder, pd, from, end);
        return oldsz;
      }
      var a := from;
      FreesNone(b, mem, holder, pd, from, a);
      while a * PGSIZE < oldsz
        invariant from <= a && from <= end
        invariant Valid() && IsDir(holder, pd)
        invariant Frees(m0, h0, mem, holder, pd, from, Least(a, end))
        decreases end - a
      {
        var t := Walkpgdir(pd, a, false);
        if t == 0 {
          var next := (a / NENTRIES + 1) * NENTRIES;
          FreesAbsent(b, m0, h0, mem, holder, fl, pd, from, a, Least(next, end));
          a := next;
        } else {
          FreeEntry(m0, h0, pd, from, a, t);
          a := a + 1;
        }
      }
      return newsz;
    }

    /** Frees the page, if any, that entry a of page table t maps. */
    method FreeEntry(ghost m0: seq<Page>, ghost h0: map<int, Holder>, pd: int, ghost from: int, a: int, t: int)
      requires Valid() && IsDir(holder, pd) && 0 <= from <= a < USERPAGES
      requires Points(mem, pd, a / NENTRIES, t) && 0 <= t < |mem| && IsTable(mem[t])
      requires Frees(m0, h0, mem, holder, pd, from, a)
      modifies this
      ensures Valid() && IsDir(holder, pd)
      ensures Frees(m0, h0, mem, holder, pd, from, a + 1)
    {
      ghost var m1, h1, f1 := mem, holder, fl;
      var i, j := a / NENTRIES, a % NENTRIES;
      var pte := mem[t].e[j];
      assert pte == Get(mem, t, j) && Holds(holder, t, Table(pd, i));
      assert pte == Lookup(mem, pd, a);
      if pte.Present? {
        var p := pte.page;
        Release(pd, i, t, j, p);
        ReleasedCleared(b, m1, h1, f1, mem, pd, t, a, p, Run(Below(f1, |f1|)));
        FreesStep(b, m0, h0, m1, h1, f1, mem, holder, pd, from, a, t, p, |f1|);
      } else {
        FreesNothing(b, m0, h0, mem, holder, fl, pd, from, a);
      }
    }

    /** Gives back the page that entry j of table t maps, and clears the entry. */
    method Release(pd: int, i: int, t: int, j: int, p: int)
      requires Valid() && IsDir(holder, pd) && 0 <= i < USERDIR && 0 <= j < NENTRIES
      requires Holds(holder, t, Table(pd, i)) && 0 <= t < |mem| && IsTable(mem[t]) && Points(mem, t, j, p)
      modifies this
      ensures Valid() && old(Holds(holder, p, User(pd, i, j))) && p != t
      ensures holder == old(holder)[p := Free(|old(fl)|)] && fl == old(fl) + [p]
      ensures 0 <= p < |mem| && mem == SetEntry(old(mem), t, j, Absent)[p := Run(Below(old(fl), |old(fl)|))]
    {
      ghost var m1 := SetEntry(mem, t, j, Absent);
      ghost var h1, f1 := holder[p := Other], fl;
      UnmapInv(b, mem, holder, fl, m1, h1, pd, i, t, j, p);
      var ok := Kfree(p);
      assert ok;
      mem := SetEntry(mem, t, j, Absent);
      assert mem == m1[p := Run(Below(f1, |f1|))];
      Freed(m1, h1, f1, p);
    }

    /** Frees an address space: every page of it goes back to the free list. */
    method Freevm(pd: int)
      requires Valid() && IsDir(holder, pd)
      modifies this
      ensures Valid() && Gone(old(mem), old(holder), mem, holder, pd)
    {
      ghost var m0, h0, f0 := mem, holder, fl;
      var _ := Deallocuvm(pd, KERNBASE, 0);
      ghost var m1, h1, f1 := mem, holder, fl;
      AllDrained(b, m0, h0, m1, h1, fl, pd);
      DirDistinct(b, mem, holder, fl, pd);
      TakeApart(pd);
      ghost var m2, h2 := mem, holder;
      FreeOne(pd);
      AllGone(b, m0, h0, f0, m1, h1, f1, m2, h2, mem, holder, pd, |fl| - 1);
    }

    /** Frees the tables of a directory that maps no user page. */
    method TakeApart(pd: int)
      requires Valid() && IsDir(holder, pd) && NoUser(holder, pd)
      requires 0 <= pd < |mem| && IsTable(mem[pd]) && DistinctTables(mem[pd], pd)
      requires forall i :: 0 <= i < NENTRIES && mem[pd].e[i].Present? ==> Holds(holder, mem[pd].e[i].page, Table(pd, i))
      modifies this
      ensures Valid() && Holds(holder, pd, Other)
      ensures IsTable(old(mem[pd])) && FreedTables(old(mem), old(holder), mem, holder, old(mem[pd]), pd, NENTRIES)
    {
      ghost var m1, h1 := mem, holder;
      DismantleInv(b, mem, holder, fl, Dismantled(holder, pd), pd);
      holder := Dismantled(holder, pd);
      ghost var d := mem[pd];
      var i := 0;
      while i < NENTRIES
        invariant 0 <= i <= NENTRIES && Valid() && 0 <= pd < |mem| && mem[pd] == d && Holds(holder, pd, Other)
        invariant FreedTables(m1, h1, mem, holder, d, pd, i)
      {
        if mem[pd].e[i].Present? {
          var t := mem[pd].e[i].page;
          ghost var m2, h2, n := mem, holder, |fl|;
          assert TableAt(d, i, t);
          FreeOne(t);
          FreedTablesStep(m1, h1, m2, h2, mem, holder, d, pd, i, t, n);
        } else {
          FreedTablesSkip(m1, h1, mem, holder, d, pd, i);
        }
        i := i + 1;
      }
    }

    /** A new address space with nothing but the kernel's part, or 0 when memory runs out; then
        every page taken on the way is free again. */
    method Setupkvm(data: int) returns (pd: int)
      requires Valid() && KernelData(data)
      modifies this
      ensures Valid()
      ensures pd == 0 ==> Restored(old(mem), old(holder), mem, holder)
      ensures pd != 0 ==> IsDir(holder, pd) && pd in old(holder) && old(holder)[pd].Free?
      ensures pd != 0 ==> forall v {:trigger Lookup(mem, pd, v)} :: 0 <= v ==> Lookup(mem, pd, v) == KernelView(data, v)
      ensures pd != 0 ==> Kept(old(mem), old(holder), mem, holder, pd, USERPAGES, {}) && Gains(old(holder), holder, pd)
    {
      ghost var m0, h0, f0 := mem, holder, fl;
      pd := Kalloc();
      if pd == 0 {
        return;
      }
      NewDir(pd);
      ghost var m1, h1 := mem, holder;
      var k := 0;
      while k < 4
        invariant 0 <= k <= 4 && Valid() && IsDir(holder, pd)
        invariant KernelMapped(mem, pd, data, k)
        invariant Kept(m1, h1, mem, holder, pd, USERPAGES, {}) && NewTables(h1, holder, pd, {})
      {
        var ok := MapRow(m1, h1, data, pd, k);
        if !ok {
          ghost var m2, h2 := mem, holder;
          DirGains(m0, h0, m1, h1, m2, h2, pd);
          Freevm(pd);
          GoneRestores(b, m0, h0, f0, m2, h2, mem, holder, pd);
          return 0;
        }
        k := k + 1;
      }
      DirGains(m0, h0, m1, h1, mem, holder, pd);
      forall v | 0 <= v
        ensures Lookup(mem, pd, v) == KernelView(data, v)
      {
        KernelViewIs(data, v);
      }
    }

    /** Makes a page that was just allocated an empty directory. */
    method NewDir(pd: int)
      requires Valid() && Holds(holder, pd, Other)
      modifies `mem, `holder
      ensures Valid() && holder == old(holder)[pd := Dir] && 0 <= pd < |mem| == |old(mem)|
      ensures mem == old(mem)[pd := EmptyTable()] && KernelMapped(mem, pd, 0, 0)
    {
      ghost var m0 := mem;
      mem := mem[pd := EmptyTable()];
      WriteOther(b, m0, holder, fl, mem, pd);
      NewDirInv(b, mem, holder, fl, holder[pd := Dir], pd);
      holder := holder[pd := Dir];
    }

    /** Maps one row of the kernel's table. */
    method MapRow(ghost m1: seq<Page>, ghost h1: map<int, Holder>, data: int, pd: int, k: int) returns (ok: bool)
      requires Valid() && IsDir(holder, pd) && KernelData(data) && 0 <= k < 4 && KernelMapped(mem, pd, data, k)
      requires Kept(m1, h1, mem, holder, pd, USERPAGES, {}) && NewTables(h1, holder, pd, {})
      modifies this
      ensures Valid() && IsDir(holder, pd)
      ensures ok ==> KernelMapped(mem, pd, data, k + 1)
      ensures Kept(m1, h1, mem, holder, pd, USERPAGES, {}) && NewTables(h1, holder, pd, {})
    {
      ghost var m2, h2 := mem, holder;
      var m := Kmap(data, k);
      KmapRow(data, k);
      var first := m.virt / PGSIZE;
      forall v | first <= v <= (m.virt + Ksize(m) - 1) / PGSIZE
        ensures Lookup(mem, pd, v) == Absent
      {
        KmapApart(data, k, k, v);
      }
      GivenKernel(first, (m.virt + Ksize(m) - 1) / PGSIZE - first + 1, m.start / PGSIZE);
      ghost var done, at;
      var panics;
      ok, panics, done, at := Mappages(pd, m.virt, Ksize(m), m.start, m.perm);
      assert ok || Vacant(m2, pd, at);
      KernelStep(m1, h1, m2, h2, mem, holder, pd, data, k, first, done, m.start / PGSIZE, m.perm);
    }

    /** Allocates a page, fills it with blk and maps it at page number a of pd. Fails when memory
        for it, or for a page table, runs out; then p is that page, or 0. Panics when something is
        mapped there already. */
    method AddPage(pd: int, a: int, blk: Page, perm: int) returns (ok: bool, panics: bool, p: int)
      requires Valid() && IsDir(holder, pd) && 0 <= a < USERPAGES && blk.Bytes?
      modifies this
      ensures Valid() && IsDir(holder, pd)
      ensures panics <==> p != 0 && !Vacant(old(mem), pd, a)
      ensures ok ==>
        !panics && Added(old(mem), old(holder), mem, holder, pd, a, p, blk, perm) && p in old(holder) &&
        old(holder)[p].Free?
      ensures !ok && p == 0 ==> mem == old(mem) && holder == old(holder)
      ensures !ok && p != 0 ==> p in old(holder) && old(holder)[p].Free? && Holds(holder, p, Other)
      ensures !ok && p != 0 ==> NotAdded(old(mem), old(holder), mem, holder, pd, p)
    {
      ghost var m1, h1, f1 := mem, holder, fl;
      p := NewPage(pd, blk);
      if p == 0 {
        return false, false, 0;
      }
      ghost var m2, h2, f2 := mem, holder, fl;
      assert Lookup(m2, pd, a) == Lookup(m1, pd, a);
      ok, panics := MapNew(pd, a, p, perm);
      if ok {
        AddsPageAdded(b, m1, h1, f1, m2, h2, f2, mem, holder, fl, pd, a, p, blk, perm);
      } else {
        NotAddedIs(b, m1, h1, f1, m2, h2, mem, holder, pd, a, p, blk, perm);
      }
    }

    /** Allocates a page and fills it with blk. */
    method NewPage(ghost pd: int, blk: Page) returns (p: int)
      requires Valid() && IsDir(holder, pd)
      modifies this
      ensures Valid() && IsDir(holder, pd)
      ensures p == 0 ==> mem == old(mem) && holder == old(holder)
      ensures p != 0 ==> p in old(holder) && old(holder)[p].Free? && holder == old(holder)[p := Other]
      ensures p != 0 ==> 0 <= p < |old(mem)| && mem == old(mem)[p := blk] && SameLookups(old(mem), mem, pd)
    {
      ghost var m1, h1, f1 := mem, holder, fl;
      p := Kalloc();
      if p != 0 {
        mem := mem[p := blk];
        WriteOther(b, m1, holder, fl, mem, p);
        forall v | 0 <= v
          ensures Lookup(mem, pd, v) == Lookup(m1, pd, v)
        {
          OtherLookup(b, m1, h1, f1, mem, pd, p, v);
        }
      }
    }

    /** Maps one page. */
    method MapNew(pd: int, a: int, p: int, perm: int) returns (ok: bool, panics: bool)
      requires Valid() && IsDir(holder, pd) && 0 <= a < USERPAGES
      requires Holds(holder, p, Other) && 0 <= p < |mem| && mem[p].Bytes?
      modifies this
      ensures Valid() && IsDir(holder, pd)
      ensures panics <==> !Vacant(old(mem), pd, a)
      ensures ok ==> !panics
      ensures MapsRun(old(mem), old(holder), mem, holder, pd, a, if ok then 1 else 0, p, perm)
    {
      OfferOne(mem, holder, a, p);
      assert (a * PGSIZE) / PGSIZE == a && (a * PGSIZE + PGSIZE - 1) / PGSIZE == a && (p * PGSIZE) / PGSIZE == p;
      ghost var done, at;
      ok, panics, done, at := Mappages(pd, a * PGSIZE, PGSIZE, p * PGSIZE, perm);
      OnePage(old(mem), pd, a, a * PGSIZE / PGSIZE, at, done, ok, panics);
    }

    /** Grows an address space to newsz with zeroed pages. Panics at a page that is mapped already.
        When memory runs out, the pages of the range are given back; where none was mapped before,
        the old mapping is as it was. */
    method Allocuvm(pd: int, oldsz: int, newsz: int) returns (sz: int, ok: bool, panics: bool)
      requires Valid() && IsDir(holder, pd) && 0 <= oldsz < U32 && 0 <= newsz < U32
      modifies this
      ensures Valid() && IsDir(holder, pd)
      ensures newsz >= KERNBASE ==> sz == 0 && !ok
      ensures newsz < KERNBASE && newsz < oldsz ==> sz == oldsz && ok
      ensures newsz < KERNBASE && newsz >= oldsz ==> sz == if ok then newsz else 0
      ensures newsz >= KERNBASE || newsz < oldsz ==> mem == old(mem) && holder == old(holder) && !panics
      ensures panics ==> !ok && !Clear(old(mem), pd, PageUp(oldsz), PageUp(newsz))
      ensures ok && newsz >= oldsz ==> Clear(old(mem), pd, PageUp(oldsz), PageUp(newsz))
      ensures ok && newsz >= oldsz ==> Grown(old(mem), old(holder), mem, holder, pd, PageUp(oldsz), PageUp(newsz))
      ensures !ok && Clear(old(mem), pd, PageUp(oldsz), PageUp(newsz)) ==>
        Ungrew(old(mem), old(holder), mem, holder, pd)
    {
      if newsz >= KERNBASE {
        return 0, false, false;
      }
      if newsz < oldsz {
        return oldsz, true, false;
      }
      ok, panics := GrowTo(pd, oldsz, newsz, PageUp(oldsz), PageUp(newsz));
      sz := if ok then newsz else 0;
    }

    /** The loop of Allocuvm. */
    method GrowTo(pd: int, oldsz: int, newsz: int, from: int, ghost end: int) returns (ok: bool, panics: bool)
      requires Valid() && IsDir(holder, pd) && 0 <= oldsz <= newsz < KERNBASE && from == PageUp(oldsz) &&
        end == PageUp(newsz)
      modifies this
      ensures Valid() && IsDir(holder, pd)
      ensures panics ==> !ok && !Clear(old(mem), pd, from, end)
      ensures ok ==> Clear(old(mem), pd, from, end) && Grown(old(mem), old(holder), mem, holder, pd, from, end)
      ensures !ok && Clear(old(mem), pd, from, end) ==> Ungrew(old(mem), old(holder), mem, holder, pd)
    {
      ghost var m0, h0, f0 := mem, holder, fl;
      var a := from;
      GrownNone(b, mem, holder, pd, from);
      while a * PGSIZE < newsz
        invariant from <= a <= end && Valid() && IsDir(holder, pd)
        invariant Clear(m0, pd, from, a) && Grown(m0, h0, mem, holder, pd, from, a)
        decreases end - a
      {
        ok, panics := GrowOne(m0, h0, f0, pd, oldsz, newsz, a);
        if !ok {
          return;
        }
        ClearStep(m0, pd, from, a);
        a := a + 1;
      }
      return true, false;
    }

    /** One turn of the loop of Allocuvm. */
    method GrowOne(ghost m0: seq<Page>, ghost h0: map<int, Holder>, ghost f0: seq<int>, pd: int, oldsz: int,
        newsz: int, a: int)
      returns (ok: bool, panics: bool)
      requires Valid() && IsDir(holder, pd) && Inv(b, m0, h0, f0) && IsDir(h0, pd)
      requires 0 <= oldsz <= newsz < KERNBASE && PageUp(oldsz) <= a < PageUp(newsz)
      requires Grown(m0, h0, mem, holder, pd, PageUp(oldsz), a)
      modifies this
      ensures Valid() && IsDir(holder, pd)
      ensures panics ==> !ok && !Vacant(m0, pd, a)
      ensures ok ==> Vacant(m0, pd, a) && Grown(m0, h0, mem, holder, pd, PageUp(oldsz), a + 1)
      ensures !ok && Clear(m0, pd, PageUp(oldsz), PageUp(newsz)) ==> Ungrew(m0, h0, mem, holder, pd)
    {
      ghost var m1, h1, f1, from := mem, holder, fl, PageUp(oldsz);
      InvNoneAbove(b, mem, holder, fl);
      assert Extended(m0, h0, m1, h1, pd, from, a, {});
      assert Vacant(m0, pd, a) == Vacant(m1, pd, a) by {
        assert Lookup(m0, pd, a) == Lookup(m1, pd, a);
      }
      var p;
      ok, panics, p := AddPage(pd, a, ZeroPage(), PTE_W + PTE_U);
      if panics {
        NotClear(m0, pd, from, PageUp(newsz), a);
        return false, true;
      }
      if ok {
        GrownStep(m0, h0, m1, h1, mem, holder, pd, from, a, p);
      } else {
        if p != 0 {
          ExtendedNotAdded(m0, h0, m1, h1, mem, holder, pd, from, a, p);
          InvNoneAbove(b, m0, h0, f0);
          WasFree(m0, h0, m1, h1, pd, p);
        }
        Shrink(m0, h0, f0, pd, oldsz, newsz, a, p);
      }
    }

    /** The way out when growing fails: frees the pages that were added, and p, which was not
        mapped. */
    method Shrink(ghost m0: seq<Page>, ghost h0: map<int, Holder>, ghost f0: seq<int>, pd: int, oldsz: int,
        newsz: int, ghost a: int, p: int)
      requires Valid() && IsDir(holder, pd) && Inv(b, m0, h0, f0) && IsDir(h0, pd)
      requires 0 <= oldsz <= newsz < KERNBASE && PageUp(oldsz) <= a <= PageUp(newsz)
      requires Extended(m0, h0, mem, holder, pd, PageUp(oldsz), a, if p == 0 then {} else {p})
      requires p != 0 ==> Holds(holder, p, Other) && p in h0 && h0[p].Free?
      modifies this
      ensures Valid() && IsDir(holder, pd)
      ensures Clear(m0, pd, PageUp(oldsz), PageUp(newsz)) ==> Ungrew(m0, h0, mem, holder, pd)
    {
      ghost var m1, h1, f1 := mem, holder, fl;
      ghost var xs := if p == 0 then {} else {p};
      var _ := Deallocuvm(pd, newsz, oldsz);
      InvNoneAbove(b, m1, h1, f1);
      ghost var clear := Clear(m0, pd, PageUp(oldsz), PageUp(newsz));
      if clear {
        ClearUnmapped(m0, pd, PageUp(oldsz), PageUp(newsz));
        Ungrown(b, m0, h0, f0, m1, h1, mem, holder, pd, PageUp(oldsz), a, PageUp(newsz), xs);
      }
      if p != 0 {
        assert SamePage(m1, h1, mem, holder, pd, p);
        ghost var m2, h2, f2 := mem, holder, fl;
        FreeOne(p);
        if clear {
          GiveBack(b, m0, h0, m2, h2, f2, mem, holder, pd, p, |f2|);
        }
      }
    }

    /** A copy of the first sz bytes of an address space, or 0 when memory runs out; then every
        page taken on the way is free again. Panics at a page that is not mapped. */
    method Copyuvm(pd: int, sz: int, data: int) returns (d: int, panics: bool)
      requires Valid() && IsDir(holder, pd) && KernelData(data) && 0 <= sz <= KERNBASE
      modifies this
      ensures Valid()
      ensures panics ==> d == 0 && !AllPresent(old(mem), pd, PageUp(sz))
      ensures d != 0 ==> AllPresent(old(mem), pd, PageUp(sz))
      ensures d == 0 && !panics ==> Restored(old(mem), old(holder), mem, holder)
      ensures d != 0 ==> IsDir(holder, d) && d in old(holder) && old(holder)[d].Free?
      ensures d != 0 ==> Copied(old(mem), pd, mem, d, PageUp(sz), data)
      ensures d != 0 ==> Kept(old(mem), old(holder), mem, holder, d, USERPAGES, {}) && Gains(old(holder), holder, d)
    {
      ghost var m0, h0, f0 := mem, holder, fl;
      panics := false;
      d := Setupkvm(data);
      if d == 0 {
        return;
      }
      var ok;
      ok, panics := CopyAll(m0, h0, f0, pd, sz, d, data);
      if panics {
        return 0, true;
      }
      if !ok {
        ghost var m2, h2 := mem, holder;
        Freevm(d);
        GoneRestores(b, m0, h0, f0, m2, h2, mem, holder, d);
        return 0, false;
      }
    }

    /** The loop of Copyuvm. */
    method CopyAll(ghost m0: seq<Page>, ghost h0: map<int, Holder>, ghost f0: seq<int>, pd: int, sz: int, d: int,
        ghost data: int)
      returns (ok: bool, panics: bool)
      requires Valid() && IsDir(holder, d) && Inv(b, m0, h0, f0) && IsDir(h0, pd) && d in h0 && h0[d].Free?
      requires 0 <= sz <= KERNBASE && Copied(m0, pd, mem, d, 0, data)
      requires Kept(m0, h0, mem, holder, d, USERPAGES, {}) && Gains(h0, holder, d)
      modifies this
      ensures Valid() && IsDir(holder, d)
      ensures panics ==> !AllPresent(m0, pd, PageUp(sz))
      ensures ok ==> !panics && AllPresent(m0, pd, PageUp(sz)) && Copied(m0, pd, mem, d, PageUp(sz), data)
      ensures Kept(m0, h0, mem, holder, d, USERPAGES, {}) && Gains(h0, holder, d)
    {
      var a := 0;
      while a * PGSIZE < sz
        invariant 0 <= a <= PageUp(sz) && Valid() && IsDir(holder, d)
        invariant AllPresent(m0, pd, a) && Copied(m0, pd, mem, d, a, data)
        invariant Kept(m0, h0, mem, holder, d, USERPAGES, {}) && Gains(h0, holder, d)
        decreases PageUp(sz) - a
      {
        BelowSize(a, sz);
        ok, panics := CopyPage(m0, h0, f0, pd, d, a, data);
        if panics || !ok {
          return;
        }
        PresentStep(m0, pd, a);
        a := a + 1;
      }
      BelowSize(a, sz);
      return true, false;
    }

    /** Copies one page of pd to d. */
    method CopyPage(ghost m0: seq<Page>, ghost h0: map<int, Holder>, ghost f0: seq<int>, pd: int, d: int, a: int,
        ghost data: int)
      returns (ok: bool, panics: bool)
      requires Valid() && IsDir(holder, d) && Inv(b, m0, h0, f0) && IsDir(h0, pd) && d in h0 && h0[d].Free?
      requires 0 <= a < USERPAGES
      requires Copied(m0, pd, mem, d, a, data) && Kept(m0, h0, mem, holder, d, USERPAGES, {}) && Gains(h0, holder, d)
      modifies this
      ensures Valid() && IsDir(holder, d)
      ensures panics <==> !Lookup(m0, pd, a).Present?
      ensures ok ==> !panics && Copied(m0, pd, mem, d, a + 1, data)
      ensures Kept(m0, h0, mem, holder, d, USERPAGES, {}) && Gains(h0, holder, d)
    {
      KeptLookup(b, m0, h0, f0, mem, holder, d, USERPAGES, {}, pd, a);
      var t := Walkpgdir(pd, a, false);
      if t == 0 {
        return false, true;
      }
      var pte := mem[t].e[a % NENTRIES];
      assert pte == Lookup(mem, pd, a);
      if !pte.Present? {
        return false, true;
      }
      panics := false;
      var pa := pte.page;
      UserHeld(b, mem, holder, fl, pd, a);
      assert Placed(mem, holder, fl, pa, holder[pa]);
      assert Lookup(mem, d, a) == Absent;
      ok := CopyTo(m0, h0, f0, pd, d, a, pa, pte.perm, data);
    }

    /** Gives d a copy of page pa of pd at page number a. */
    method CopyTo(ghost m0: seq<Page>, ghost h0: map<int, Holder>, ghost f0: seq<int>, ghost pd: int, d: int,
        a: int, pa: int, perm: int, ghost data: int)
      returns (ok: bool)
      requires Valid() && IsDir(holder, d) && Inv(b, m0, h0, f0) && d in h0 && h0[d].Free?
      requires 0 <= a < USERPAGES && Lookup(m0, pd, a) == Present(pa, perm) && 0 <= pa < |mem| == |m0| &&
        mem[pa] == m0[pa] && mem[pa].Bytes?
      requires Lookup(mem, d, a) == Absent && pa in holder && !holder[pa].Free?
      requires Copied(m0, pd, mem, d, a, data) && Kept(m0, h0, mem, holder, d, USERPAGES, {}) && Gains(h0, holder, d)
      modifies this
      ensures Valid() && IsDir(holder, d)
      ensures ok ==> Copied(m0, pd, mem, d, a + 1, data)
      ensures Kept(m0, h0, mem, holder, d, USERPAGES, {}) && Gains(h0, holder, d)
    {
      ghost var m1, h1 := mem, holder;
      InvNoneAbove(b, mem, holder, fl);
      InvNoneAbove(b, m0, h0, f0);
      var p, panics;
      ok, panics, p := AddPage(d, a, mem[pa], perm);
      if ok {
        CopiedStep(m0, m1, h1, mem, holder, pd, d, a, p, perm, data, pa);
        KeptTwice(m0, h0, m1, h1, mem, holder, d, USERPAGES, {}, USERPAGES, {});
        GainsAdded(m0, h0, m1, h1, mem, holder, d, p);
      } else if p != 0 {
        WasFree(m0, h0, m1, h1, d, p);
        KeptTwice(m0, h0, m1, h1, mem, holder, d, USERPAGES, {}, USERPAGES, {});
        ghost var m2, h2, f2 := mem, holder, fl;
        FreeOne(p);
        FreeKept(m0, h0, m2, h2, mem, holder, d, p, |f2|);
        FreeKept(m1, h1, m2, h2, mem, holder, d, p, |f2|);
        GainsAdded(m0, h0, m1, h1, mem, holder, d, p);
      }
    }
  }
}
