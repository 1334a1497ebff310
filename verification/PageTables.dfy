/** Who holds each page of physical memory, over the free list of the page allocator and the
    two-level page tables.

    Memory is a sequence of pages. A page directory or page table is a page of 1024 entries;
    a free page holds the link to the next one on the free list. The ghost map `holder` names
    the one place where each allocatable page is. */
module PageTables {

  const NENTRIES: int := 1024
  const PGSIZE: int := 4096
  /** The number of directory entries, and of pages, below KERNBASE. */
  const USERDIR: int := 512
  const USERPAGES: int := 512 * 1024

  /** An entry of a directory or table. Present names a physical page by number. */
  datatype Entry = Absent | Present(page: int, perm: int)

  datatype Page = Entries(e: seq<Entry>) | Bytes(data: seq<int>) | Run(next: int)

  datatype Holder =
    | Free(k: int)                         // on the free list, k pages from its bottom
    | Dir                                  // a page directory
    | Table(pd: int, i: int)               // the page table in entry i of directory pd
    | User(pd: int, i: int, j: int)        // in entry j of that table, below KERNBASE
    | Other                                // held by other kernel code

  /** The allocatable pages are lo..hi. */
  datatype Bounds = Bounds(lo: int, hi: int)

  predicate IsTable(p: Page) {
    p.Entries? && |p.e| == NENTRIES
  }

  function EmptyTable(): (p: Page)
    ensures IsTable(p)
  {
    Entries(seq(NENTRIES, _ => Absent))
  }

  /** Entry j of page t. */
  function Get(mem: seq<Page>, t: int, j: int): (x: Entry) {
    if 0 <= t < |mem| && mem[t].Entries? && 0 <= j < |mem[t].e| then mem[t].e[j] else Absent
  }

  /** The entry that maps page number vpn of the address space of directory pd. */
  function Lookup(mem: seq<Page>, pd: int, vpn: int): (x: Entry) {
    match Get(mem, pd, vpn / NENTRIES)
    case Absent => Absent
    case Present(t, _) => Get(mem, t, vpn % NENTRIES)
  }

  ghost predicate Total(b: Bounds, mem: seq<Page>, holder: map<int, Holder>) {
    && 0 < b.lo <= b.hi == |mem|
    && forall p :: p in holder <==> b.lo <= p < b.hi
  }

  predicate Holds(holder: map<int, Holder>, p: int, h: Holder) {
    p in holder && holder[p] == h
  }

  predicate IsDir(holder: map<int, Holder>, pd: int) {
    pd in holder && holder[pd].Dir?
  }

  /** Every table that a directory names is held by that entry of it. */
  ghost predicate DirsOk(mem: seq<Page>, holder: map<int, Holder>) {
    forall pd, i {:trigger Get(mem, pd, i)} ::
      IsDir(holder, pd) && Get(mem, pd, i).Present? ==> Holds(holder, Get(mem, pd, i).page, Table(pd, i))
  }

  /** Every page that a table maps below KERNBASE is held by that entry of it. */
  ghost predicate TablesOk(mem: seq<Page>, holder: map<int, Holder>) {
    forall t, j {:trigger Get(mem, t, j)} ::
      t in holder && holder[t].Table? && holder[t].i < USERDIR && Get(mem, t, j).Present? ==>
        Holds(holder, Get(mem, t, j).page, User(holder[t].pd, holder[t].i, j))
  }

  predicate Points(mem: seq<Page>, t: int, j: int, p: int) {
    Get(mem, t, j).Present? && Get(mem, t, j).page == p
  }

  /** The place that page p is said to be in does hold it. */
  predicate Placed(mem: seq<Page>, holder: map<int, Holder>, fl: seq<int>, p: int, h: Holder) {
    match h
    case Free(k) => 0 <= k < |fl| && fl[k] == p
    case Dir => 0 <= p < |mem| && IsTable(mem[p])
    case Table(pd, i) =>
      IsDir(holder, pd) && 0 <= i < NENTRIES && Points(mem, pd, i, p) && 0 <= p < |mem| && IsTable(mem[p])
    case User(pd, i, j) =>
      && IsDir(holder, pd) && 0 <= i < USERDIR && 0 <= j < NENTRIES
      && Get(mem, pd, i).Present? && Points(mem, Get(mem, pd, i).page, j, p)
      && 0 <= p < |mem| && mem[p].Bytes?
    case Other => true
  }

  ghost predicate AllPlaced(mem: seq<Page>, holder: map<int, Holder>, fl: seq<int>) {
    forall p :: p in holder ==> Placed(mem, holder, fl, p, holder[p])
  }

  function Below(fl: seq<int>, k: int): (p: int)
    requires k <= |fl|
  {
    if 0 < k then fl[k - 1] else 0
  }

  /** The free list, bottom first, linked through the free pages. */
  ghost predicate ListOk(mem: seq<Page>, holder: map<int, Holder>, fl: seq<int>) {
    forall k {:trigger fl[k]} :: 0 <= k < |fl| ==>
      Holds(holder, fl[k], Free(k)) && 0 <= fl[k] < |mem| && mem[fl[k]] == Run(Below(fl, k))
  }

  ghost predicate Inv(b: Bounds, mem: seq<Page>, holder: map<int, Holder>, fl: seq<int>) {
    && Total(b, mem, holder)
    && DirsOk(mem, holder)
    && TablesOk(mem, holder)
    && AllPlaced(mem, holder, fl)
    && ListOk(mem, holder, fl)
  }

  // ---------- what the map of holders gives ----------

  /** A page is at one place only: no two places of the free list, the directories and the
      user halves of the tables hold the same page, and none of them holds a directory. */
  lemma OnePlace(b: Bounds, mem: seq<Page>, holder: map<int, Holder>, fl: seq<int>, k: int, l: int, pd: int, i: int,
      qd: int, i': int, vpn: int, wpn: int)
    requires Inv(b, mem, holder, fl) && IsDir(holder, pd) && IsDir(holder, qd)
    requires 0 <= i < NENTRIES && 0 <= i' < NENTRIES && 0 <= vpn < USERPAGES && 0 <= wpn < USERPAGES
    ensures 0 <= k < |fl| && 0 <= l < |fl| && fl[k] == fl[l] ==> k == l
    ensures 0 <= k < |fl| && Get(mem, pd, i).Present? ==> fl[k] != Get(mem, pd, i).page
    ensures 0 <= k < |fl| && Lookup(mem, pd, vpn).Present? ==> fl[k] != Lookup(mem, pd, vpn).page
    ensures Get(mem, pd, i).Present? && Get(mem, qd, i').Present? && Get(mem, pd, i).page == Get(mem, qd, i').page ==>
              pd == qd && i == i'
    ensures Get(mem, pd, i).Present? && Lookup(mem, qd, wpn).Present? ==>
      Get(mem, pd, i).page != Lookup(mem, qd, wpn).page
    ensures
      && Lookup(mem, pd, vpn).Present? && Lookup(mem, qd, wpn).Present?
      && Lookup(mem, pd, vpn).page == Lookup(mem, qd, wpn).page ==>
        pd == qd && vpn == wpn
    ensures 0 <= k < |fl| ==> fl[k] != pd
    ensures Get(mem, pd, i).Present? ==> Get(mem, pd, i).page != qd
    ensures Lookup(mem, pd, vpn).Present? ==> Lookup(mem, pd, vpn).page != qd
  {
    UserHeld(b, mem, holder, fl, pd, vpn);
    UserHeld(b, mem, holder, fl, qd, wpn);
    assert vpn == vpn / NENTRIES * NENTRIES + vpn % NENTRIES;
    assert wpn == wpn / NENTRIES * NENTRIES + wpn % NENTRIES;
  }

  lemma UserHeld(b: Bounds, mem: seq<Page>, holder: map<int, Holder>, fl: seq<int>, pd: int, vpn: int)
    requires Inv(b, mem, holder, fl) && IsDir(holder, pd) && 0 <= vpn < USERPAGES
    ensures Lookup(mem, pd, vpn).Present? ==>
              Holds(holder, Lookup(mem, pd, vpn).page, User(pd, vpn / NENTRIES, vpn % NENTRIES))
  {
    var x := Get(mem, pd, vpn / NENTRIES);
    if x.Present? {
      assert Holds(holder, x.page, Table(pd, vpn / NENTRIES));
    }
  }

  // ---------- the page allocator ----------

  lemma PopInv(b: Bounds, mem: seq<Page>, holder: map<int, Holder>, fl: seq<int>, holder': map<int, Holder>,
      fl': seq<int>, p: int)
    requires Inv(b, mem, holder, fl) && |fl| > 0 && p == fl[|fl| - 1]
    requires holder' == holder[p := Other] && fl' == fl[..|fl| - 1]
    ensures Inv(b, mem, holder', fl')
  {
    assert Holds(holder, p, Free(|fl| - 1));
    forall pd, i | IsDir(holder', pd) && Get(mem, pd, i).Present?
      ensures Holds(holder', Get(mem, pd, i).page, Table(pd, i))
    {
      assert Holds(holder, Get(mem, pd, i).page, Table(pd, i));
    }
    forall q | q in holder'
      ensures Placed(mem, holder', fl', q, holder'[q])
    {
      assert Placed(mem, holder, fl, q, holder[q]);
    }
  }

  /** A page held by other code may be given any contents. */
  lemma WriteOther(b: Bounds, mem: seq<Page>, holder: map<int, Holder>, fl: seq<int>, mem': seq<Page>, p: int)
    requires Inv(b, mem, holder, fl) && Holds(holder, p, Other) && 0 <= p < |mem| && |mem'| == |mem|
    requires forall q :: 0 <= q < |mem| && q != p ==> mem'[q] == mem[q]
    ensures Inv(b, mem', holder, fl)
  {
    forall pd, i | IsDir(holder, pd) && Get(mem', pd, i).Present?
      ensures Holds(holder, Get(mem', pd, i).page, Table(pd, i))
    {
      assert Get(mem', pd, i) == Get(mem, pd, i);
    }
    forall t, j | t in holder && holder[t].Table? && holder[t].i < USERDIR && Get(mem', t, j).Present?
      ensures Holds(holder, Get(mem', t, j).page, User(holder[t].pd, holder[t].i, j))
    {
      assert Get(mem', t, j) == Get(mem, t, j);
    }
    forall q | q in holder
      ensures Placed(mem', holder, fl, q, holder[q])
    {
      PlacedSame(b, mem, mem', holder, fl, p, q);
    }
  }

  lemma PlacedSame(b: Bounds, mem: seq<Page>, mem': seq<Page>, holder: map<int, Holder>, fl: seq<int>, p: int, q: int)
    requires Inv(b, mem, holder, fl) && Holds(holder, p, Other) && |mem'| == |mem| && q in holder
    requires forall r :: 0 <= r < |mem| && r != p ==> mem'[r] == mem[r]
    ensures Placed(mem', holder, fl, q, holder[q])
  {
    assert Placed(mem, holder, fl, q, holder[q]);
    match holder[q]
    case Table(pd, i) =>
      assert Get(mem', pd, i) == Get(mem, pd, i);
    case User(pd, i, j) =>
      var x := Get(mem, pd, i);
      assert Holds(holder, x.page, Table(pd, i));
      assert Get(mem', pd, i) == x && Get(mem', x.page, j) == Get(mem, x.page, j);
    case _ =>
  }

  /** A page pushed on the free list. */
  lemma PushInv(b: Bounds, mem: seq<Page>, holder: map<int, Holder>, fl: seq<int>, mem': seq<Page>,
      holder': map<int, Holder>, fl': seq<int>, p: int)
    requires Inv(b, mem, holder, fl) && Holds(holder, p, Other)
    requires 0 <= p < |mem| && mem' == mem[p := Run(Below(fl, |fl|))]
    requires holder' == holder[p := Free(|fl|)] && fl' == fl + [p]
    ensures Inv(b, mem', holder', fl')
  {
    WriteOther(b, mem, holder, fl, mem', p);
    forall pd, i | IsDir(holder', pd) && Get(mem', pd, i).Present?
      ensures Holds(holder', Get(mem', pd, i).page, Table(pd, i))
    {
      assert Holds(holder, Get(mem', pd, i).page, Table(pd, i));
    }
    forall q | q in holder'
      ensures Placed(mem', holder', fl', q, holder'[q])
    {
      assert Placed(mem', holder, fl, q, holder[q]);
    }
    assert forall k :: 0 <= k < |fl| ==> Below(fl', k) == Below(fl, k);
  }

  // ---------- entries ----------

  function SetEntry(mem: seq<Page>, t: int, j: int, x: Entry): (mem': seq<Page>)
    requires 0 <= t < |mem| && IsTable(mem[t]) && 0 <= j < NENTRIES
    ensures |mem'| == |mem|
  {
    mem[t := Entries(mem[t].e[j := x])]
  }

  lemma GetSet(mem: seq<Page>, t: int, j: int, x: Entry, u: int, k: int)
    requires 0 <= t < |mem| && IsTable(mem[t]) && 0 <= j < NENTRIES
    ensures Get(SetEntry(mem, t, j, x), u, k) == if u == t && k == j then x else Get(mem, u, k)
  {
  }

  /** An empty table is hung in an absent entry of a directory. */
  lemma HangInv(b: Bounds, mem: seq<Page>, holder: map<int, Holder>, fl: seq<int>, mem': seq<Page>,
      holder': map<int, Holder>, pd: int, i: int, t: int, perm: int)
    requires Inv(b, mem, holder, fl) && IsDir(holder, pd) && 0 <= i < NENTRIES && Get(mem, pd, i) == Absent
    requires Holds(holder, t, Other) && 0 <= t < |mem| && mem[t] == EmptyTable()
    requires 0 <= pd < |mem| && IsTable(mem[pd]) && mem' == SetEntry(mem, pd, i, Present(t, perm))
    requires holder' == holder[t := Table(pd, i)]
    ensures Inv(b, mem', holder', fl)
  {
    forall qd, k | IsDir(holder', qd) && Get(mem', qd, k).Present?
      ensures Holds(holder', Get(mem', qd, k).page, Table(qd, k))
    {
      GetSet(mem, pd, i, Present(t, perm), qd, k);
    }
    forall u, j | u in holder' && holder'[u].Table? && holder'[u].i < USERDIR && Get(mem', u, j).Present?
      ensures Holds(holder', Get(mem', u, j).page, User(holder'[u].pd, holder'[u].i, j))
    {
      GetSet(mem, pd, i, Present(t, perm), u, j);
    }
    forall q | q in holder'
      ensures Placed(mem', holder', fl, q, holder'[q])
    {
      if q == t {
        GetSet(mem, pd, i, Present(t, perm), pd, i);
      } else {
        SetPlaced(mem, holder, holder', fl, pd, i, Present(t, perm), q);
      }
    }
  }

  /** A page keeps its place when an absent entry is set. */
  lemma SetPlaced(mem: seq<Page>, holder: map<int, Holder>, holder': map<int, Holder>, fl: seq<int>, t: int, j: int,
      x: Entry, q: int)
    requires 0 <= t < |mem| && IsTable(mem[t]) && 0 <= j < NENTRIES && Get(mem, t, j) == Absent
    requires q in holder && Placed(mem, holder, fl, q, holder[q])
    requires q in holder' && holder'[q] == holder[q]
    requires forall d :: IsDir(holder, d) ==> IsDir(holder', d)
    ensures Placed(SetEntry(mem, t, j, x), holder', fl, q, holder[q])
  {
    match holder[q]
    case Table(pd, i) =>
      GetSet(mem, t, j, x, pd, i);
    case User(pd, i, k) =>
      GetSet(mem, t, j, x, pd, i);
      GetSet(mem, t, j, x, Get(mem, pd, i).page, k);
    case _ =>
  }

  /** A page is mapped by an absent entry of a table below KERNBASE. */
  lemma MapInv(b: Bounds, mem: seq<Page>, holder: map<int, Holder>, fl: seq<int>, mem': seq<Page>,
      holder': map<int, Holder>, pd: int, i: int, t: int, j: int, p: int, perm: int)
    requires Inv(b, mem, holder, fl) && Holds(holder, t, Table(pd, i)) && i < USERDIR
    requires 0 <= j < NENTRIES && Get(mem, t, j) == Absent && 0 <= t < |mem| && IsTable(mem[t])
    requires Holds(holder, p, Other) && 0 <= p < |mem| && mem[p].Bytes?
    requires mem' == SetEntry(mem, t, j, Present(p, perm)) && holder' == holder[p := User(pd, i, j)]
    ensures Inv(b, mem', holder', fl)
  {
    assert Placed(mem, holder, fl, t, holder[t]);
    forall qd, k | IsDir(holder', qd) && Get(mem', qd, k).Present?
      ensures Holds(holder', Get(mem', qd, k).page, Table(qd, k))
    {
      GetSet(mem, t, j, Present(p, perm), qd, k);
    }
    forall u, k | u in holder' && holder'[u].Table? && holder'[u].i < USERDIR && Get(mem', u, k).Present?
      ensures Holds(holder', Get(mem', u, k).page, User(holder'[u].pd, holder'[u].i, k))
    {
      GetSet(mem, t, j, Present(p, perm), u, k);
    }
    forall q | q in holder'
      ensures Placed(mem', holder', fl, q, holder'[q])
    {
      if q == p {
        GetSet(mem, t, j, Present(p, perm), pd, i);
        GetSet(mem, t, j, Present(p, perm), t, j);
      } else {
        SetPlaced(mem, holder, holder', fl, t, j, Present(p, perm), q);
      }
    }
  }

  /** An entry of a table at or above KERNBASE is filled; it holds no page. */
  lemma MapKernelInv(b: Bounds, mem: seq<Page>, holder: map<int, Holder>, fl: seq<int>, mem': seq<Page>, pd: int,
      i: int, t: int, j: int, x: Entry)
    requires Inv(b, mem, holder, fl) && Holds(holder, t, Table(pd, i)) && i >= USERDIR
    requires 0 <= j < NENTRIES && Get(mem, t, j) == Absent && 0 <= t < |mem| && IsTable(mem[t])
    requires mem' == SetEntry(mem, t, j, x)
    ensures Inv(b, mem', holder, fl)
  {
    forall qd, k | IsDir(holder, qd) && Get(mem', qd, k).Present?
      ensures Holds(holder, Get(mem', qd, k).page, Table(qd, k))
    {
      GetSet(mem, t, j, x, qd, k);
    }
    forall u, k | u in holder && holder[u].Table? && holder[u].i < USERDIR && Get(mem', u, k).Present?
      ensures Holds(holder, Get(mem', u, k).page, User(holder[u].pd, holder[u].i, k))
    {
      GetSet(mem, t, j, x, u, k);
    }
    forall q | q in holder
      ensures Placed(mem', holder, fl, q, holder[q])
    {
      SetPlaced(mem, holder, holder, fl, t, j, x, q);
    }
  }

  /** A page is taken out of the entry that maps it. */
  lemma UnmapInv(b: Bounds, mem: seq<Page>, holder: map<int, Holder>, fl: seq<int>, mem': seq<Page>,
      holder': map<int, Holder>, pd: int, i: int, t: int, j: int, p: int)
    requires Inv(b, mem, holder, fl) && Holds(holder, t, Table(pd, i)) && i < USERDIR
    requires 0 <= j < NENTRIES && Points(mem, t, j, p) && 0 <= t < |mem| && IsTable(mem[t])
    requires mem' == SetEntry(mem, t, j, Absent) && holder' == holder[p := Other]
    ensures Holds(holder, p, User(pd, i, j))
    ensures Inv(b, mem', holder', fl)
  {
    assert Holds(holder, p, User(pd, i, j));
    assert Placed(mem, holder, fl, t, holder[t]);
    forall qd, k | IsDir(holder', qd) && Get(mem', qd, k).Present?
      ensures Holds(holder', Get(mem', qd, k).page, Table(qd, k))
    {
      GetSet(mem, t, j, Absent, qd, k);
    }
    forall u, k | u in holder' && holder'[u].Table? && holder'[u].i < USERDIR && Get(mem', u, k).Present?
      ensures Holds(holder', Get(mem', u, k).page, User(holder'[u].pd, holder'[u].i, k))
    {
      GetSet(mem, t, j, Absent, u, k);
    }
    forall q | q in holder' && q != p
      ensures Placed(mem', holder', fl, q, holder'[q])
    {
      UnmapPlaced(mem, holder, holder', fl, pd, i, t, j, p, q);
    }
  }

  lemma UnmapPlaced(mem: seq<Page>, holder: map<int, Holder>, holder': map<int, Holder>, fl: seq<int>, pd: int,
      i: int, t: int, j: int, p: int, q: int)
    requires Holds(holder, t, Table(pd, i)) && 0 <= t < |mem| && IsTable(mem[t]) && 0 <= j < NENTRIES &&
      Points(mem, t, j, p)
    requires AllPlaced(mem, holder, fl) && DirsOk(mem, holder) && Holds(holder, p, User(pd, i, j))
    requires q in holder && q != p && holder' == holder[p := Other]
    ensures Placed(SetEntry(mem, t, j, Absent), holder', fl, q, holder[q])
  {
    assert Placed(mem, holder, fl, q, holder[q]);
    match holder[q]
    case Table(d, k) =>
      GetSet(mem, t, j, Absent, d, k);
    case User(d, k, l) =>
      GetSet(mem, t, j, Absent, d, k);
      GetSet(mem, t, j, Absent, Get(mem, d, k).page, l);
    case _ =>
  }

  // ---------- lookups ----------

  lemma LookupSet(b: Bounds, mem: seq<Page>, holder: map<int, Holder>, fl: seq<int>, pd: int, t: int, vpn: int,
      x: Entry, v: int)
    requires Inv(b, mem, holder, fl) && IsDir(holder, pd) && 0 <= vpn && 0 <= v
    requires Points(mem, pd, vpn / NENTRIES, t) && 0 <= t < |mem| && IsTable(mem[t])
    ensures Lookup(SetEntry(mem, t, vpn % NENTRIES, x), pd, v) == if v == vpn then x else Lookup(mem, pd, v)
  {
    var j := vpn % NENTRIES;
    assert Holds(holder, t, Table(pd, vpn / NENTRIES));
    GetSet(mem, t, j, x, pd, v / NENTRIES);
    var y := Get(mem, pd, v / NENTRIES);
    if y.Present? {
      assert Holds(holder, y.page, Table(pd, v / NENTRIES));
      GetSet(mem, t, j, x, y.page, v % NENTRIES);
    }
    assert v == v / NENTRIES * NENTRIES + v % NENTRIES && vpn == vpn / NENTRIES * NENTRIES + j;
  }

  /** Hanging an empty table changes no translation. */
  lemma LookupHang(mem: seq<Page>, pd: int, i: int, t: int, perm: int, v: int)
    requires 0 <= pd < |mem| && IsTable(mem[pd]) && 0 <= i < NENTRIES && Get(mem, pd, i) == Absent
    requires 0 <= t < |mem| && mem[t] == EmptyTable() && t != pd
    requires forall k :: Get(mem, pd, k).Present? ==> Get(mem, pd, k).page != pd
    ensures Lookup(SetEntry(mem, pd, i, Present(t, perm)), pd, v) == Lookup(mem, pd, v)
  {
    GetSet(mem, pd, i, Present(t, perm), pd, v / NENTRIES);
    GetSet(mem, pd, i, Present(t, perm), t, v % NENTRIES);
    if Get(mem, pd, v / NENTRIES).Present? {
      GetSet(mem, pd, i, Present(t, perm), Get(mem, pd, v / NENTRIES).page, v % NENTRIES);
    }
  }

  // ---------- what an operation on one directory leaves alone ----------

  predicate OfDir(p: int, h: Holder, pd: int) {
    p == pd || (h.Table? && h.pd == pd) || (h.User? && h.pd == pd)
  }

  /** Held by directory pd at page number from or above. */
  predicate Above(h: Holder, pd: int, from: int) {
    h.User? && h.pd == pd && h.i * NENTRIES + h.j >= from
  }

  predicate IsTableOf(h: Holder, pd: int) {
    h.Table? && h.pd == pd
  }

  /** Page p is held as before, and unless it is directory pd or a table of it, unwritten. */
  predicate SamePage(mem: seq<Page>, holder: map<int, Holder>, mem': seq<Page>, holder': map<int, Holder>, pd: int,
      p: int) {
    && p in holder && p in holder' && holder'[p] == holder[p]
    && 0 <= p < |mem| == |mem'|
    && (p != pd && !IsTableOf(holder[p], pd) ==> mem'[p] == mem[p])
  }

  /** Every page in use is as it was, but for those in xs and those that pd maps from page
      number `from` on; pd and its tables may have been written. */
  ghost predicate Kept(mem: seq<Page>, holder: map<int, Holder>, mem': seq<Page>, holder': map<int, Holder>,
      pd: int, from: int, xs: set<int>) {
    && |mem'| == |mem| && holder'.Keys == holder.Keys
    && forall p {:trigger SamePage(mem, holder, mem', holder', pd, p)} ::
         p in holder && !holder[p].Free? && !Above(holder[p], pd, from) && p !in xs ==>
           SamePage(mem, holder, mem', holder', pd, p)
  }

  lemma KeptTwice(m0: seq<Page>, h0: map<int, Holder>, m1: seq<Page>, h1: map<int, Holder>, m2: seq<Page>,
      h2: map<int, Holder>, pd: int, from: int, xs: set<int>, from': int, ys: set<int>)
    requires Kept(m0, h0, m1, h1, pd, from, xs) && Kept(m1, h1, m2, h2, pd, from', ys) && from <= from'
    requires forall p :: p in ys && p in h0 && !h0[p].Free? ==> p in xs
    ensures Kept(m0, h0, m2, h2, pd, from, xs)
  {
    forall p | p in h0 && !h0[p].Free? && !Above(h0[p], pd, from) && p !in xs
      ensures SamePage(m0, h0, m2, h2, pd, p)
    {
      assert SamePage(m0, h0, m1, h1, pd, p);
      assert SamePage(m1, h1, m2, h2, pd, p);
    }
  }

  lemma KeptMore(m0: seq<Page>, h0: map<int, Holder>, m1: seq<Page>, h1: map<int, Holder>, pd: int, from: int,
      xs: set<int>, from': int, ys: set<int>)
    requires Kept(m0, h0, m1, h1, pd, from, xs) && from' <= from && xs <= ys
    ensures Kept(m0, h0, m1, h1, pd, from', ys)
  {
  }

  /** Every other address space keeps its translations and the contents of its pages. */
  lemma KeptLookup(b: Bounds, mem: seq<Page>, holder: map<int, Holder>, fl: seq<int>, mem': seq<Page>,
      holder': map<int, Holder>, pd: int, from: int, xs: set<int>, qd: int, v: int)
    requires Inv(b, mem, holder, fl) && Kept(mem, holder, mem', holder', pd, from, xs)
    requires forall p :: p in xs && p in holder ==> holder[p].Free? || holder[p].Other?
    requires IsDir(holder, qd) && qd != pd && 0 <= v && pd in holder && !holder[pd].Table? && !holder[pd].User?
    ensures Lookup(mem', qd, v) == Lookup(mem, qd, v) && IsDir(holder', qd)
    ensures v < USERPAGES && Lookup(mem, qd, v).Present? ==>
              var p := Lookup(mem, qd, v).page;
              0 <= p < |mem| == |mem'| && mem'[p] == mem[p]
  {
    assert SamePage(mem, holder, mem', holder', pd, qd);
    var x := Get(mem, qd, v / NENTRIES);
    if x.Present? {
      assert Holds(holder, x.page, Table(qd, v / NENTRIES));
      assert SamePage(mem, holder, mem', holder', pd, x.page);
    }
    if v < USERPAGES && Lookup(mem, qd, v).Present? {
      UserHeld(b, mem, holder, fl, qd, v);
      assert SamePage(mem, holder, mem', holder', pd, Lookup(mem, qd, v).page);
    }
  }

  /** Apart from xs, pages have left the free list only to become tables of pd. */
  ghost predicate NewTables(holder: map<int, Holder>, holder': map<int, Holder>, pd: int, xs: set<int>) {
    && holder'.Keys == holder.Keys
    && forall p :: p in holder && holder[p].Free? && p !in xs ==> holder'[p].Free? || IsTableOf(holder'[p], pd)
  }

  lemma NewTablesTwice(h0: map<int, Holder>, m1: seq<Page>, h1: map<int, Holder>, m2: seq<Page>,
      h2: map<int, Holder>, pd: int, xs: set<int>, zs: set<int>)
    requires NewTables(h0, h1, pd, xs) && NewTables(h1, h2, pd, {}) && Kept(m1, h1, m2, h2, pd, USERPAGES, zs)
    requires forall p :: p in zs && p in h1 ==> h1[p].Other?
    ensures NewTables(h0, h2, pd, xs)
  {
    forall p | p in h0 && h0[p].Free? && p !in xs
      ensures h2[p].Free? || IsTableOf(h2[p], pd)
    {
      if IsTableOf(h1[p], pd) {
        assert SamePage(m1, h1, m2, h2, pd, p);
      }
    }
  }

  ghost predicate StaysFree(holder: map<int, Holder>, holder': map<int, Holder>) {
    holder'.Keys == holder.Keys && forall p :: p in holder && holder[p].Free? ==> holder'[p].Free?
  }

  ghost predicate SameLookups(mem: seq<Page>, mem': seq<Page>, pd: int) {
    forall v {:trigger Lookup(mem', pd, v)} :: 0 <= v ==> Lookup(mem', pd, v) == Lookup(mem, pd, v)
  }

  // ---------- making and taking apart a directory ----------

  lemma NewDirInv(b: Bounds, mem: seq<Page>, holder: map<int, Holder>, fl: seq<int>, holder': map<int, Holder>, pd: int)
    requires Inv(b, mem, holder, fl) && Holds(holder, pd, Other) && 0 <= pd < |mem| && mem[pd] == EmptyTable()
    requires holder' == holder[pd := Dir]
    ensures Inv(b, mem, holder', fl)
  {
    forall qd, i | IsDir(holder', qd) && Get(mem, qd, i).Present?
      ensures Holds(holder', Get(mem, qd, i).page, Table(qd, i))
    {
      assert IsDir(holder, qd);
    }
    forall q | q in holder'
      ensures Placed(mem, holder', fl, q, holder'[q])
    {
      assert q != pd ==> Placed(mem, holder, fl, q, holder[q]);
    }
  }

  /** The holders once pd and its tables belong to no address space any more. */
  function Dismantled(holder: map<int, Holder>, pd: int): (holder': map<int, Holder>) {
    map p | p in holder :: if OfDir(p, holder[p], pd) then Other else holder[p]
  }

  ghost predicate NoUser(holder: map<int, Holder>, pd: int) {
    forall p :: p in holder ==> !(holder[p].User? && holder[p].pd == pd)
  }

  lemma DismantleInv(b: Bounds, mem: seq<Page>, holder: map<int, Holder>, fl: seq<int>, holder': map<int, Holder>,
      pd: int)
    requires Inv(b, mem, holder, fl) && IsDir(holder, pd) && NoUser(holder, pd) && holder' == Dismantled(holder, pd)
    ensures Inv(b, mem, holder', fl)
  {
    forall qd, i | IsDir(holder', qd) && Get(mem, qd, i).Present?
      ensures Holds(holder', Get(mem, qd, i).page, Table(qd, i))
    {
      assert Holds(holder, Get(mem, qd, i).page, Table(qd, i));
    }
    forall t, j | t in holder' && holder'[t].Table? && holder'[t].i < USERDIR && Get(mem, t, j).Present?
      ensures Holds(holder', Get(mem, t, j).page, User(holder'[t].pd, holder'[t].i, j))
    {
      assert Holds(holder, Get(mem, t, j).page, User(holder[t].pd, holder[t].i, j));
    }
    forall q | q in holder'
      ensures Placed(mem, holder', fl, q, holder'[q])
    {
      assert Placed(mem, holder, fl, q, holder[q]);
    }
  }

  /** The tables of a directory are distinct from each other and from it. */
  ghost predicate DistinctTables(d: Page, pd: int)
    requires IsTable(d)
  {
    && (forall i :: 0 <= i < NENTRIES && d.e[i].Present? ==> d.e[i].page != pd)
    && forall i, j :: 0 <= i < j < NENTRIES && d.e[i].Present? && d.e[j].Present? ==> d.e[i].page != d.e[j].page
  }

  lemma DirDistinct(b: Bounds, mem: seq<Page>, holder: map<int, Holder>, fl: seq<int>, pd: int)
    requires Inv(b, mem, holder, fl) && IsDir(holder, pd)
    ensures 0 <= pd < |mem| && IsTable(mem[pd]) && DistinctTables(mem[pd], pd)
    ensures forall i :: 0 <= i < NENTRIES && mem[pd].e[i].Present? ==> Holds(holder, mem[pd].e[i].page, Table(pd, i))
  {
    assert Placed(mem, holder, fl, pd, holder[pd]);
    forall i | 0 <= i < NENTRIES && mem[pd].e[i].Present?
      ensures Holds(holder, mem[pd].e[i].page, Table(pd, i))
    {
      assert mem[pd].e[i] == Get(mem, pd, i);
    }
  }

  /** Page p is held, and reads, as before. */
  predicate Untouched(mem: seq<Page>, holder: map<int, Holder>, mem': seq<Page>, holder': map<int, Holder>, p: int) {
    p in holder && p in holder' && holder'[p] == holder[p] && 0 <= p < |mem| == |mem'| && mem'[p] == mem[p]
  }

  /** Every page of directory pd is free, every free page still is, and no other page in use has
      changed. */
  ghost predicate Gone(mem: seq<Page>, holder: map<int, Holder>, mem': seq<Page>, holder': map<int, Holder>, pd: int) {
    && holder'.Keys == holder.Keys
    && (forall p :: p in holder && (holder[p].Free? || OfDir(p, holder[p], pd)) ==> holder'[p].Free?)
    && forall p {:trigger Untouched(mem, holder, mem', holder', p)} ::
         p in holder && !holder[p].Free? && !OfDir(p, holder[p], pd) ==> Untouched(mem, holder, mem', holder', p)
  }

  /** The pages in use are the same, and unchanged. */
  ghost predicate Restored(mem: seq<Page>, holder: map<int, Holder>, mem': seq<Page>, holder': map<int, Holder>) {
    && holder'.Keys == holder.Keys
    && (forall p :: p in holder && holder[p].Free? ==> holder'[p].Free?)
    && forall p {:trigger Untouched(mem, holder, mem', holder', p)} ::
         p in holder && !holder[p].Free? ==> Untouched(mem, holder, mem', holder', p)
  }

  /** Pages have left the free list only for directory pd. */
  ghost predicate Gains(holder: map<int, Holder>, holder': map<int, Holder>, pd: int) {
    && holder'.Keys == holder.Keys
    && forall p :: p in holder && holder[p].Free? ==> holder'[p].Free? || OfDir(p, holder'[p], pd)
  }

  /** Taking apart a directory whose page was free restores memory. */
  lemma GoneRestores(b: Bounds, m0: seq<Page>, h0: map<int, Holder>, f0: seq<int>, m1: seq<Page>,
      h1: map<int, Holder>, m2: seq<Page>, h2: map<int, Holder>, pd: int)
    requires Inv(b, m0, h0, f0) && pd in h0 && h0[pd].Free?
    requires Kept(m0, h0, m1, h1, pd, USERPAGES, {}) && Gains(h0, h1, pd) && Gone(m1, h1, m2, h2, pd)
    ensures Restored(m0, h0, m2, h2)
  {
    forall p | p in h0 && !h0[p].Free?
      ensures Untouched(m0, h0, m2, h2, p)
    {
      assert Placed(m0, h0, f0, p, h0[p]);
      assert SamePage(m0, h0, m1, h1, pd, p);
      assert Untouched(m1, h1, m2, h2, p);
    }
  }
}
