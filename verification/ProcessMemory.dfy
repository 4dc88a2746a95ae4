/** Page table entries (os/memory.c:261-291): 32-bit words of a page's base address and three
    status bits, here as numbers. */
module PageTable {
  import opened Words

  /** MemorySetupPte: page * MEMORY_PAGE_SIZE | MEMORY_PTE_VALID, in 32 bits. */
  function SetupPte(page: uint32): uint32 { page * PAGE_SIZE % TWO_32 + 1 }

  /** MemoryPteToPage: the entry without its status bits. */
  function PteToPage(pte: uint32): (base: uint32)
    ensures base % 8 == 0 && base <= pte < base + 8
  {
    pte - pte % 8
  }

  /** The page that MemoryFreePte frees. */
  function PageOfPte(pte: uint32): int { PteToPage(pte) / PAGE_SIZE }

  /** The bit operations of the kernel are these sums and differences. */
  lemma PteBits(page: bv32, pte: bv32)
    ensures (page * 0x1_0000) | 1 == page * 0x1_0000 + 1
    ensures pte & !7 == pte - pte % 8
  {
  }

  /** The upper half of an entry is the page, as far as it fits, and the lower half says that the entry
      is valid; the page that is freed is the upper half. */
  lemma PteHalves(page: uint32, pte: uint32)
    ensures SetupPte(page) / 0x1_0000 == page % 0x1_0000 && SetupPte(page) % 0x1_0000 == 1
    ensures PageOfPte(pte) == pte / 0x1_0000
  {
    LowHalf(page);
  }

  /** A page number survives its entry, whatever status bits the hardware adds, exactly if it
      fits into 16 bits. */
  lemma PteRoundTrip(page: uint32, status: nat)
    requires status < 7
    ensures SetupPte(page) + status < TWO_32
    ensures PteToPage(SetupPte(page) + status) == page * PAGE_SIZE % TWO_32
    ensures PageOfPte(SetupPte(page) + status) == page <==> page < 0x1_0000
  {
    var low := page % 0x1_0000;
    LowHalf(page);
    WithoutStatus(low, status);
  }

  /** Only the low half of the page number is left in the base address. */
  lemma LowHalf(page: uint32)
    ensures page * PAGE_SIZE % TWO_32 == page % 0x1_0000 * PAGE_SIZE
  {
    var high, low := page / 0x1_0000, page % 0x1_0000;
    assert page == high * 0x1_0000 + low;
    assert page * PAGE_SIZE == high * TWO_32 + low * PAGE_SIZE;
  }

  lemma WithoutStatus(low: int, status: nat)
    requires 0 <= low < 0x1_0000 && status < 7
    ensures low * PAGE_SIZE + 1 + status < TWO_32
    ensures (low * PAGE_SIZE + 1 + status) % 8 == 1 + status
  {
    RemainderOfEight(low * 0x2000, 1 + status);
  }

  lemma RemainderOfEight(k: int, c: int)
    requires 0 <= c < 8
    ensures (8 * k + c) % 8 == c
  {
  }
}

/** Which process owns which pages, over any sequence of forks and exits. */
module PageOwnership {

  /** The free pages, and for each PCB that owns memory the page of its program and the page of
      its system stack. */
  datatype Pages = Pages(free: set<int>, owned: map<int, (int, int)>)

  /** The memory part of a ProcessFork into PCB `p`: two pages leave the free map. */
  ghost predicate ForkStep(s: Pages, t: Pages, p: int) {
    && p !in s.owned && p in t.owned
    && t.owned[p].0 in s.free && t.owned[p].1 in s.free && t.owned[p].0 != t.owned[p].1
    && t == Pages(s.free - {t.owned[p].0, t.owned[p].1}, s.owned[p := t.owned[p]])
  }

  /** ProcessFreeResources on PCB `p`, after an exit or a failed load. */
  ghost predicate FreeStep(s: Pages, t: Pages, p: int) {
    && p in s.owned
    && t == Pages(s.free + {s.owned[p].0, s.owned[p].1}, s.owned - {p})
  }

  ghost predicate Step(s: Pages, t: Pages, p: int) { ForkStep(s, t, p) || FreeStep(s, t, p) }

  ghost predicate IsRun(run: seq<Pages>, who: seq<int>) {
    && |run| == |who| + 1
    && forall n :: 0 <= n < |who| ==> Step(run[n], run[n + 1], who[n])
  }

  predicate Owns(s: Pages, p: int, page: int) {
    p in s.owned && (page == s.owned[p].0 || page == s.owned[p].1)
  }

  /** No page is free and owned, owned by two PCBs, or owned twice by one. */
  ghost predicate Exclusive(s: Pages) {
    && (forall p, page :: Owns(s, p, page) ==> page !in s.free)
    && (forall p, q, page :: Owns(s, p, page) && Owns(s, q, page) ==> p == q)
    && (forall p :: p in s.owned ==> s.owned[p].0 != s.owned[p].1)
  }

  lemma ForkCounts(s: Pages, t: Pages, p: int)
    requires ForkStep(s, t, p)
    ensures |t.free| + 2 * |t.owned| == |s.free| + 2 * |s.owned|
  {
    var (a, b) := t.owned[p];
    assert s.free - {a, b} == (s.free - {a}) - {b};
    assert t.owned.Keys == s.owned.Keys + {p};
    assert |t.owned| == |t.owned.Keys| && |s.owned| == |s.owned.Keys|;
  }

  lemma FreeCounts(s: Pages, t: Pages, p: int)
    requires FreeStep(s, t, p) && Exclusive(s)
    ensures |t.free| + 2 * |t.owned| == |s.free| + 2 * |s.owned|
  {
    var (a, b) := s.owned[p];
    assert Owns(s, p, a) && Owns(s, p, b);
    assert s.free + {a, b} == (s.free + {a}) + {b};
    assert t.owned.Keys == s.owned.Keys - {p};
    assert |t.owned| == |t.owned.Keys| && |s.owned| == |s.owned.Keys|;
  }

  lemma ForkExclusive(s: Pages, t: Pages, p: int)
    requires ForkStep(s, t, p) && Exclusive(s)
    ensures Exclusive(t)
  {
    forall q, page ensures Owns(t, q, page) <==> if q == p then page in {t.owned[p].0, t.owned[p].1} else Owns(s, q, page) {
    }
  }

  lemma FreeExclusive(s: Pages, t: Pages, p: int)
    requires FreeStep(s, t, p) && Exclusive(s)
    ensures Exclusive(t)
  {
    forall q, page ensures Owns(t, q, page) <==> q != p && Owns(s, q, page) {
    }
    assert Owns(s, p, s.owned[p].0) && Owns(s, p, s.owned[p].1);
  }

  lemma StepKeeps(s: Pages, t: Pages, p: int)
    requires Exclusive(s) && Step(s, t, p)
    ensures Exclusive(t)
    ensures |t.free| + 2 * |t.owned| == |s.free| + 2 * |s.owned|
  {
    hide ForkStep, FreeStep, Exclusive;
    if ForkStep(s, t, p) {
      ForkCounts(s, t, p);
      ForkExclusive(s, t, p);
    } else {
      FreeCounts(s, t, p);
      FreeExclusive(s, t, p);
    }
  }

  /** Over any run of forks, failed loads and exits, the free pages plus two for every PCB that
      owns memory stay the same number, and no page is ever owned twice. */
  lemma {:induction false} PagesAreConserved(run: seq<Pages>, who: seq<int>, n: nat)
    requires IsRun(run, who) && Exclusive(run[0]) && n < |run|
    ensures Exclusive(run[n])
    ensures |run[n].free| + 2 * |run[n].owned| == |run[0].free| + 2 * |run[0].owned|
  {
    if n > 0 {
      PagesAreConserved(run, who, n - 1);
      StepKeeps(run[n - 1], run[n], who[n - 1]);
    }
  }
}

/** The memory of the processes: the part of ProcessFork that allocates it (os/process.c:413-425),
    and the part of ProcessFreeResources that gives it back (os/process.c:138-147). */
module ProcessMemory {
  import PageAllocator
  import PageRuns
  import opened Words
  import opened PageTable
  import opened PageOwnership

  /** The pages that the PCBs in `owners` record in their page table and stack address. */
  function Owned(owners: set<int>, ptes: seq<uint32>, stacks: seq<uint32>): map<int, (int, int)> {
    map p | p in owners && 0 <= p < |ptes| && p < |stacks| :: (PageOfPte(ptes[p]), stacks[p] / PAGE_SIZE)
  }

  /** All pages are ones that the allocator manages. */
  ghost predicate Managed(owned: map<int, (int, int)>, low: int, high: int) {
    forall p :: p in owned ==> low <= owned[p].0 < high && low <= owned[p].1 < high
  }

  lemma StillManaged(owned: map<int, (int, int)>, low: int, high: int, p: int, pages: (int, int))
    requires Managed(owned, low, high)
    ensures low <= pages.0 < high && low <= pages.1 < high ==> Managed(owned[p := pages], low, high)
    ensures Managed(owned - {p}, low, high)
    ensures p in owned ==> low <= owned[p].0 < high && low <= owned[p].1 < high
  {
  }

  lemma Recorded(owners: set<int>, ptes: seq<uint32>, stacks: seq<uint32>, p: int, code: uint32, stack: int)
    requires 0 <= p < |ptes| == |stacks| && p !in owners && 0 <= code < 0x1_0000 && 0 <= stack < 0x1_0000
    ensures stack * PAGE_SIZE < TWO_32 && SetupPte(code) == code * 0x1_0000 + 1
    ensures Owned(owners + {p}, ptes[p := SetupPte(code)], stacks[p := stack * PAGE_SIZE])
         == Owned(owners, ptes, stacks)[p := (code, stack)]
    ensures p !in Owned(owners, ptes, stacks)
  {
    PteRoundTrip(code, 0);
  }

  lemma OneTaken(s: set<int>, a: int)
    requires a in s
    ensures s - {a} == {} <==> |s| < 2
  {
    assert |s - {a}| == |s| - 1;
  }

  lemma Forgotten(owners: set<int>, ptes: seq<uint32>, stacks: seq<uint32>, p: int)
    requires 0 <= p < |ptes| == |stacks| && p in owners
    ensures Owned(owners - {p}, ptes, stacks) == Owned(owners, ptes, stacks) - {p}
    ensures p in Owned(owners, ptes, stacks)
    ensures Owned(owners, ptes, stacks)[p] == (PageOfPte(ptes[p]), stacks[p] / PAGE_SIZE)
  {
  }

  lemma Holdings(s: Pages, p: int)
    requires Exclusive(s) && p in s.owned
    ensures s.owned[p].0 !in s.free && s.owned[p].1 !in s.free && s.owned[p].0 != s.owned[p].1
  {
    assert Owns(s, p, s.owned[p].0) && Owns(s, p, s.owned[p].1);
  }

  lemma IsFork(s: Pages, t: Pages, p: int, code: int, stack: int)
    requires p !in s.owned && code in s.free && stack in s.free && code != stack
    requires t == Pages(s.free - {code, stack}, s.owned[p := (code, stack)])
    ensures ForkStep(s, t, p) && Step(s, t, p)
  {
  }

  class Memory {
    const allocator: PageAllocator.Allocator
    const pagetable: array<uint32>      // entry 0 of the page table of each PCB
    const sysStackArea: array<uint32>   // address of the system stack of each PCB
    ghost var owners: set<int>          // the PCBs that own memory

    constructor (memory: PageAllocator.Allocator, nProcs: nat)
      requires memory.Valid() && memory.Balanced() && memory.pagestart > 0 && 32 * memory.freemapmax <= 0x1_0000
      ensures allocator == memory && fresh(pagetable) && fresh(sysStackArea) && pagetable.Length == nProcs
      ensures Valid() && owners == {}
    {
      allocator := memory;
      pagetable := new uint32[nProcs](_ => 0);
      sysStackArea := new uint32[nProcs](_ => 0);
      owners := {};
    }

    ghost function View(): Pages
      reads this, allocator.freepages, pagetable, sysStackArea
    {
      Pages(allocator.Free(), Owned(owners, pagetable[..], sysStackArea[..]))
    }

    /** Three different arrays. */
    predicate Separate() {
      var map': object, table: object, stacks: object := allocator.freepages, pagetable, sysStackArea;
      map' != table && map' != stacks && table != stacks
    }

    ghost predicate Valid()
      reads this, allocator, allocator.freepages, pagetable, sysStackArea
    {
      && allocator.Valid() && allocator.Balanced()
      && allocator.pagestart > 0 && 32 * allocator.freemapmax <= 0x1_0000
      && pagetable.Length == sysStackArea.Length && Separate()
      && (forall p :: p in owners ==> 0 <= p < pagetable.Length)
      && Managed(View().owned, allocator.pagestart, 32 * allocator.freemapmax)
      && Exclusive(View())
    }

    /** MemoryAllocPage, as far as ProcessFork depends on it. */
    method TakePage() returns (page: int)
      requires allocator.Valid() && allocator.Balanced() && allocator.pagestart > 0
      requires 32 * allocator.freemapmax <= 0x1_0000
      modifies allocator`mapnum, allocator`nfreepages, allocator`ops, allocator`frees, allocator.freepages
      ensures allocator.Valid() && allocator.Balanced()
      ensures allocator.pagestart == old(allocator.pagestart) && allocator.freemapmax == old(allocator.freemapmax)
      ensures page == 0 <==> old(allocator.Free()) == {}
      ensures page == 0 ==> allocator.Free() == {}
      ensures page != 0 ==> page in old(allocator.Free()) && allocator.Free() == old(allocator.Free()) - {page}
      ensures page != 0 ==> allocator.pagestart <= page < 32 * allocator.freemapmax
    {
      hide PageRuns.IsRun, PageRuns.Outstanding, PageAllocator.FreePages, PageAllocator.Ahead;
      page := allocator.AllocPage();
    }

    /** Two pages for PCB `p`; the kernel stops if there are not two. */
    method Fork(p: int) returns (ok: bool)
      requires Valid() && 0 <= p < pagetable.Length && p !in owners
      modifies this`owners, allocator, allocator.freepages, pagetable, sysStackArea
      ensures ok <==> |old(View()).free| >= 2
      ensures ok ==> Valid() && owners == old(owners) + {p} && ForkStep(old(View()), View(), p)
      ensures ok ==>
        pagetable[p] == View().owned[p].0 * 0x1_0000 + 1 && sysStackArea[p] == View().owned[p].1 * 0x1_0000
    {
      hide PageAllocator.Allocator.Valid, PageAllocator.Allocator.Balanced, PageAllocator.Allocator.Free;
      hide PageAllocator.FreePages, Owned, SetupPte, PageOfPte, PteToPage, Exclusive, Managed, ForkStep, Step;
      ghost var s, ptes, stacks := View(), pagetable[..], sysStackArea[..];
      var newPage := TakePage();
      if newPage == 0 {
        return false;
      }
      OneTaken(s.free, newPage);
      assert 0 < newPage < 0x1_0000 by { assert allocator.freemapmax == old(allocator.freemapmax); }
      pagetable[p] := SetupPte(newPage);
      assert pagetable[..] == ptes[p := SetupPte(newPage)];
      var stack := TakePage();
      if stack == 0 {
        return false;
      }
      Recorded(owners, ptes, stacks, p, newPage, stack);
      sysStackArea[p] := stack * PAGE_SIZE;
      owners := owners + {p};
      assert sysStackArea[..] == stacks[p := sysStackArea[p]];
      assert View() == Pages(s.free - {newPage, stack}, s.owned[p := (newPage, stack)]);
      StillManaged(s.owned, allocator.pagestart, 32 * allocator.freemapmax, p, (newPage, stack));
      IsFork(s, View(), p, newPage, stack);
      StepKeeps(s, View(), p);
      return true;
    }

    /** ProcessFreeResources, for a PCB whose memory is its own. */
    method FreeResources(p: int)
      requires Valid() && p in owners
      modifies this`owners, allocator, allocator.freepages
      ensures Valid() && owners == old(owners) - {p} && FreeStep(old(View()), View(), p)
      ensures allocator.Free() == old(allocator.Free()) + {pagetable[p] / 0x1_0000, sysStackArea[p] / 0x1_0000}
    {
      hide PageRuns.IsRun, PageRuns.Outstanding, PageAllocator.FreePages, Exclusive, Managed, Owned, PageOfPte;
      ghost var s := View();
      PteHalves(0, pagetable[p]);
      Forgotten(owners, pagetable[..], sysStackArea[..], p);
      Holdings(s, p);
      StillManaged(s.owned, allocator.pagestart, 32 * allocator.freemapmax, p, (0, 0));
      FreeBoth(PageOfPte(pagetable[p]), sysStackArea[p] / PAGE_SIZE);
      owners := owners - {p};
      StepKeeps(s, View(), p);
    }

    /** The two calls of MemoryFreePage in ProcessFreeResources. */
    method FreeBoth(code: int, stack: int)
      requires allocator.Valid() && allocator.Balanced() && allocator.pagestart > 0
      requires allocator.pagestart <= code < 32 * allocator.freemapmax
      requires allocator.pagestart <= stack < 32 * allocator.freemapmax
      requires code !in allocator.Free() && stack !in allocator.Free() && code != stack
      modifies allocator`nfreepages, allocator`ops, allocator`frees, allocator.freepages
      ensures allocator.Valid() && allocator.Balanced()
      ensures allocator.Free() == old(allocator.Free()) + {code, stack}
    {
      hide PageRuns.IsRun, PageRuns.Outstanding, PageAllocator.FreePages;
      allocator.FreePage(code);
      allocator.FreePage(stack);
    }
  }
}
