/** Any sequence of allocations and releases of single pages. */
module PageRuns {

  /** A call of MemoryAllocPage with its result, or of MemoryFreePage with its argument. */
  datatype Op = Alloc(page: int) | Free(page: int)

  /** What a call does to the set of free pages. */
  ghost predicate Step(free: set<int>, op: Op, free': set<int>) {
    match op
    case Alloc(page) => if free == {} then page == 0 && free' == {} else page in free && free' == free - {page}
    case Free(page) => free' == free + {page}
  }

  /** The pages handed out by the first `n` calls and not given back; 0 stands for a failure. */
  ghost function Outstanding(ops: seq<Op>, n: nat): set<int>
    requires n <= |ops|
  {
    if n == 0 then {}
    else match ops[n - 1]
      case Alloc(page) => if page == 0 then Outstanding(ops, n - 1) else Outstanding(ops, n - 1) + {page}
      case Free(page) => Outstanding(ops, n - 1) - {page}
  }

  /** `free[n]` are the free pages after `n` calls. */
  ghost predicate IsRun(free: seq<set<int>>, ops: seq<Op>) {
    && |free| == |ops| + 1
    && forall n :: 0 <= n < |ops| ==> Step(free[n], ops[n], free[n + 1])
  }

  lemma LongerRun(free: seq<set<int>>, ops: seq<Op>, op: Op, free': set<int>)
    requires IsRun(free, ops) && Step(free[|ops|], op, free')
    ensures IsRun(free + [free'], ops + [op])
  {
    hide Step;
  }

  /** How many of the first `n` calls have released a page that was free already. */
  ghost function Doubles(free: seq<set<int>>, ops: seq<Op>, n: nat): nat
    requires |free| == |ops| + 1 && n <= |ops|
  {
    if n == 0 then 0
    else Doubles(free, ops, n - 1) + if ops[n - 1].Free? && ops[n - 1].page in free[n - 1] then 1 else 0
  }

  lemma {:induction false} SameDoubles(free: seq<set<int>>, ops: seq<Op>, op: Op, free': set<int>, n: nat)
    requires |free| == |ops| + 1 && n <= |ops|
    ensures Doubles(free + [free'], ops + [op], n) == Doubles(free, ops, n)
    decreases n
  {
    if n > 0 { SameDoubles(free, ops, op, free', n - 1); }
  }

  lemma OneMoreCall(free: seq<set<int>>, ops: seq<Op>, op: Op, free': set<int>)
    requires |free| == |ops| + 1
    ensures Doubles(free + [free'], ops + [op], |ops| + 1) ==
      Doubles(free, ops, |ops|) + if op.Free? && op.page in free[|ops|] then 1 else 0
  {
    SameDoubles(free, ops, op, free', |ops|);
  }

  /** No page is free and handed out, whatever the callers release. */
  lemma {:induction false} FreeOrOutstanding(free: seq<set<int>>, ops: seq<Op>, n: nat)
    requires IsRun(free, ops) && n <= |ops|
    ensures free[n] !! Outstanding(ops, n)
  {
    if n > 0 {
      FreeOrOutstanding(free, ops, n - 1);
      assert Step(free[n - 1], ops[n - 1], free[n]);
    }
  }

  /** Nothing is released that is not outstanding. */
  ghost predicate Disciplined(ops: seq<Op>) {
    forall n :: 0 <= n < |ops| && ops[n].Free? ==> ops[n].page in Outstanding(ops, n)
  }

  /** With such callers, free and outstanding pages are always a partition of the pages that were
      free at first. */
  lemma {:induction false} Partition(free: seq<set<int>>, ops: seq<Op>, n: nat)
    requires IsRun(free, ops) && Disciplined(ops) && n <= |ops| && 0 !in free[0]
    ensures free[n] !! Outstanding(ops, n) && free[n] + Outstanding(ops, n) == free[0]
  {
    if n > 0 {
      Partition(free, ops, n - 1);
      assert Step(free[n - 1], ops[n - 1], free[n]);
    }
  }

  lemma {:induction false} StaysOutstanding(ops: seq<Op>, m: nat, n: nat, page: int)
    requires m < n <= |ops| && ops[m] == Alloc(page) && page != 0
    requires forall j :: m < j < n ==> ops[j] != Op.Free(page)
    ensures page in Outstanding(ops, n)
    decreases n
  {
    if m + 1 < n { StaysOutstanding(ops, m, n - 1, page); }
  }

  /** Between two calls that hand out the same page, the page is given back. */
  lemma NeverTwice(free: seq<set<int>>, ops: seq<Op>, m: nat, n: nat)
    requires IsRun(free, ops) && m < n < |ops| && ops[m] == ops[n] == Alloc(ops[n].page) && ops[n].page != 0
    ensures exists j :: m < j < n && ops[j] == Op.Free(ops[n].page)
  {
    FreeOrOutstanding(free, ops, n);
    assert Step(free[n], ops[n], free[n + 1]);
    assert ops[n].page in free[n];
    if forall j :: m < j < n ==> ops[j] != Op.Free(ops[n].page) {
      StaysOutstanding(ops, m, n, ops[n].page);
    }
  }
}

/** The physical page allocator of os/memory.c: a map of free pages, one bit each. */
module PageAllocator {
  import opened Words
  import opened BitWords
  import PageRuns

  /** The pages whose bit is set. */
  ghost function FreePages(words: seq<bv32>): (s: set<int>)
    ensures forall p :: p in s <==> 0 <= p < 32 * |words| && Bit(words[p / 32], p % 32)
  {
    set p | 0 <= p < 32 * |words| && Bit(words[p / 32], p % 32)
  }

  /** Setting one bit adds or removes one page. */
  lemma OneBitOnePage(words: seq<bv32>, p: int, on: bv32)
    requires 0 <= p < 32 * |words| && (on == 0 || on == 1)
    ensures FreePages(words[p / 32 := WithBit(words[p / 32], p % 32, on)])
         == if on == 1 then FreePages(words) + {p} else FreePages(words) - {p}
  {
    hide Bit, WithBit;
    var words' := words[p / 32 := WithBit(words[p / 32], p % 32, on)];
    forall q | 0 <= q < 32 * |words|
      ensures q in FreePages(words') <==> if q == p then on == 1 else q in FreePages(words)
    {
      if q / 32 == p / 32 {
        WithBitSets(words[p / 32], p % 32, on, q % 32);
        assert q % 32 == p % 32 <==> q == p;
      }
    }
  }

  /** How far word `w` is ahead of word `from` when the search goes around `n` words. */
  function Ahead(from: int, w: int, n: int): int {
    if from <= w then w - from else w + n - from
  }

  /** The word that the search looks at in round `i`. */
  function Visited(from: int, i: nat, n: int): int {
    if i == 0 then from
    else if Visited(from, i - 1, n) + 1 >= n then 0
    else Visited(from, i - 1, n) + 1
  }

  lemma {:induction false} VisitedIs(from: int, i: nat, n: int)
    requires 0 <= from < n && i < n
    ensures Visited(from, i, n) == if from + i < n then from + i else from + i - n
  {
    if i > 0 { VisitedIs(from, i - 1, n); }
  }

  class Allocator {
    const freepages: array<bv32>
    var pagestart: int
    var freemapmax: int
    var nfreepages: int
    var mapnum: int
    ghost var ops: seq<PageRuns.Op>     // the calls since ModuleInit
    ghost var frees: seq<set<int>>      // the free pages before each of them, and now

    ghost function Free(): set<int>
      reads freepages
    {
      FreePages(freepages[..])
    }

    /** The calls since ModuleInit are a run that ends with the free pages of now. */
    ghost predicate History()
      reads this, freepages
    {
      PageRuns.IsRun(frees, ops) && frees[|ops|] == Free()
    }

    /** The map covers all free pages, and none of them belongs to the kernel. */
    ghost predicate Valid()
      reads this, freepages
    {
      && 0 <= freemapmax <= freepages.Length
      && 0 <= mapnum && (mapnum < freemapmax || mapnum == 0)
      && (forall p :: p in Free() ==> pagestart <= p < 32 * freemapmax)
      && History() && Counted()
    }

    /** The counter is the number of free pages, plus one for every release of a page that was free
        already. */
    ghost predicate Counted()
      reads this, freepages
    {
      |frees| == |ops| + 1 && nfreepages == |Free()| + PageRuns.Doubles(frees, ops, |ops|)
    }

    /** The counter is the number of free pages. */
    ghost predicate Balanced()
      reads this, freepages
    {
      nfreepages == |Free()|
    }

    /** The static variables as the kernel starts. */
    constructor (nWords: nat)
      ensures freepages.Length == nWords && fresh(freepages) && Free() == {} && mapnum == 0
    {
      freepages := new bv32[nWords](_ => 0);
      pagestart, freemapmax, nfreepages, mapnum := 0, 0, 0, 0;
      ops, frees := [], [{}];
      new;
      NothingFree(freepages[..]);
    }

    /** MemorySetFreemap */
    method SetFreemap(p: int, b: bv32)
      requires 0 <= p < 32 * freepages.Length && (b == 0 || b == 1)
      modifies freepages
      ensures Free() == if b == 1 then old(Free()) + {p} else old(Free()) - {p}
    {
      hide WithBit;
      var wd := p / 32;
      var bitnum := p % 32;
      OneBitOnePage(freepages[..], p, b);
      freepages[wd] := WithBit(freepages[wd], bitnum, b);
      assert freepages[..] == old(freepages[..])[wd := freepages[wd]];
    }

    /** MemoryModuleInit, with the size of memory and the end of the kernel as parameters. */
    method ModuleInit(memorySize: int, lastosaddress: int)
      requires 0 <= memorySize && memorySize / PAGE_SIZE <= 32 * freepages.Length && 0 <= lastosaddress
      requires Free() == {} && mapnum == 0
      modifies this, freepages
      ensures Valid() && Balanced() && ops == [] && frees == [Free()]
      ensures pagestart * PAGE_SIZE > lastosaddress - 4
      ensures lastosaddress >= 4 ==> pagestart > 0
      ensures forall p :: p in Free() <==> 0 <= p < memorySize / 0x1_0000 && p * 0x1_0000 > lastosaddress - 4
      ensures memorySize / 0x1_0000 <= 32 * freemapmax < memorySize / 0x1_0000 + 32
    {
      hide Bit, FreePages, WithBit, PageRuns.IsRun, History, Range;
      var maxpage := memorySize / PAGE_SIZE;
      pagestart := (lastosaddress + PAGE_SIZE - 4) / PAGE_SIZE;
      freemapmax := (maxpage + 31) / 32;
      ghost var start, words := pagestart, freemapmax;
      assert 0 <= start && 0 <= words <= freepages.Length && maxpage <= 32 * words;
      for i := 0 to freemapmax
        invariant Free() == {} && mapnum == 0 && pagestart == start && freemapmax == words
      {
        ClearedWord(freepages[..], i);
        ghost var cleared := freepages[..][i := 0];
        freepages[i] := 0;
        assert freepages[..] == cleared;
      }
      nfreepages := 0;
      var curpage := pagestart;
      OneMorePage(start, start);
      while curpage < maxpage
        invariant pagestart == start && freemapmax == words && mapnum == 0
        invariant start <= curpage && (curpage <= maxpage || curpage == start)
        invariant Free() == Range(start, curpage) && nfreepages == curpage - start
      {
        nfreepages := nfreepages + 1;
        SetFreemap(curpage, 1);
        OneMorePage(start, curpage);
        curpage := curpage + 1;
      }
      PagesOfRange(start, curpage);
      RoundedUp(lastosaddress);
      ops, frees := [], [Free()];
      NothingRecorded();
    }

    lemma NothingRecorded()
      requires ops == [] && frees == [Free()]
      ensures History() && (Counted() <==> Balanced())
    {
      NoCalls(Free());
    }

    /** Without a release of a free page, the counter is right. */
    lemma BalancedExactly()
      requires Valid()
      ensures |frees| == |ops| + 1 && (Balanced() <==> PageRuns.Doubles(frees, ops, |ops|) == 0)
    {
    }

    /** The calls since ModuleInit, and one more. */
    ghost method Record(op: PageRuns.Op)
      requires PageRuns.IsRun(frees, ops) && PageRuns.Step(frees[|ops|], op, Free())
      requires nfreepages == |Free()| + PageRuns.Doubles(frees, ops, |ops|) + if op.Free? && op.page in frees[|ops|] then 1 else 0
      modifies this`ops, this`frees
      ensures ops == old(ops) + [op] && frees == old(frees) + [Free()] && History() && Counted()
    {
      hide PageRuns.IsRun, PageRuns.Step, PageRuns.Doubles, FreePages;
      PageRuns.LongerRun(frees, ops, op, Free());
      RunLength(frees, ops);
      PageRuns.OneMoreCall(frees, ops, op, Free());
      ops, frees := ops + [op], frees + [Free()];
    }

    /** The word that the search looks at in round `i` has a free page. */
    predicate FindsIn(i: nat)
      reads this, freepages
    {
      var w := Visited(mapnum, i, freemapmax);
      0 <= w < freepages.Length && freepages[w] != 0
    }

    /** The first loop of MemoryAllocPage: go around to the next word with a free page. */
    method FindWord()
      requires Valid() && Free() != {}
      modifies this`mapnum
      ensures 0 <= mapnum < freemapmax && freepages[mapnum] != 0
      ensures exists i: nat :: mapnum == Visited(old(mapnum), i, freemapmax)
      ensures forall p :: p in Free() ==> Ahead(old(mapnum), mapnum, freemapmax) <= Ahead(old(mapnum), p / 32, freemapmax)
    {
      hide Bit, PageRuns.IsRun, PageRuns.Doubles;
      ghost var target: int :| target in Free();
      ghost var i: nat := 0;
      WordsInUse(freepages[..]);
      while freepages[mapnum] == 0
        invariant 0 <= mapnum < freemapmax && mapnum == Visited(old(mapnum), i, freemapmax)
        invariant forall p :: p in Free() ==> Ahead(old(mapnum), mapnum, freemapmax) <= Ahead(old(mapnum), p / 32, freemapmax)
        decreases Ahead(mapnum, target / 32, freemapmax)
      {
        assert freepages[..][mapnum] == 0;
        mapnum := mapnum + 1;
        if mapnum >= freemapmax {
          mapnum := 0;
        }
        i := i + 1;
      }
    }

    /** MemoryAllocPage comes to an end: the counter is 0, or the search finds a word. */
    ghost predicate Returns()
      reads this, freepages
    {
      nfreepages == 0 || exists i: nat :: FindsIn(i)
    }

    /** A call of MemoryAllocPage ends exactly if the counter is 0 or a page is free.  As long as no
        free page has been released, every call ends; after such a release, the first one that finds
        all pages taken does not. */
    lemma ReturnsExactly()
      requires Valid()
      ensures Returns() <==> nfreepages == 0 || Free() != {}
      ensures Balanced() ==> Returns()
      ensures !Returns() <==> Free() == {} && PageRuns.Doubles(frees, ops, |ops|) > 0
    {
      hide FreePages, Bit, PageRuns.IsRun, PageRuns.Doubles;
      if Free() == {} {
        NoWordInUse(freepages[..]);
        assert forall w :: 0 <= w < freepages.Length ==> freepages[w] == freepages[..][w] == 0;
      } else {
        SearchFinds();
      }
    }

    lemma SearchFinds()
      requires Valid() && Free() != {}
      ensures exists i: nat :: FindsIn(i)
    {
      hide Bit, PageRuns.IsRun, PageRuns.Doubles;
      var p :| p in Free();
      WordsInUse(freepages[..]);
      var i: nat := Ahead(mapnum, p / 32, freemapmax);
      VisitedIs(mapnum, i, freemapmax);
      assert FindsIn(i);
    }

    /** MemoryAllocPage: the lowest page of the first word, going around from the last one used,
        that has a free page; 0 if there is none. */
    method AllocPage() returns (page: int)
      requires Valid() && (nfreepages == 0 || Free() != {})
      modifies this`mapnum, this`nfreepages, this`ops, this`frees, freepages
      ensures Valid() && nfreepages - |Free()| == old(nfreepages - |Free()|)
      ensures ops == old(ops) + [PageRuns.Alloc(page)] && frees == old(frees) + [Free()]
      ensures page != 0 ==> page !in PageRuns.Outstanding(old(ops), |old(ops)|)
      ensures old(Free()) == {} ==> page == 0 && Free() == {}
      ensures old(Free()) != {} ==> pagestart <= page < 32 * freemapmax
      ensures old(Free()) != {} ==>
        && page in old(Free()) && Free() == old(Free()) - {page}
        && mapnum == page / 32
        && forall p :: p in old(Free()) ==>
             && Ahead(old(mapnum), page / 32, freemapmax) <= Ahead(old(mapnum), p / 32, freemapmax)
             && (p / 32 == page / 32 ==> page <= p)
      ensures forall p :: p in old(Free()) ==>
                if page >= 32 * old(mapnum) then p >= page || p < 32 * old(mapnum) else page <= p < 32 * old(mapnum)
    {
      hide Bit, FreePages, Cleared, Ahead, PageRuns.IsRun, PageRuns.Outstanding, PageRuns.Doubles;
      PageRuns.FreeOrOutstanding(frees, ops, |ops|);
      if nfreepages == 0 {
        Record(PageRuns.Alloc(0));
        return 0;
      }
      FindWord();
      var v := freepages[mapnum];
      var bitnum := LowestBit(v);
      page := mapnum * 32 + bitnum;
      ghost var words := freepages[..];
      LowestIsTaken(words, mapnum, bitnum);
      freepages[mapnum] := Cleared(v, bitnum);
      assert freepages[..] == words[mapnum := Cleared(v, bitnum)];
      nfreepages := nfreepages - 1;
      Record(PageRuns.Alloc(page));
      NextFit(old(Free()), old(mapnum), page, freemapmax);
    }

    /** MemoryFreePage.  A page that is free already is counted twice, and a page outside the range
        of ModuleInit leaves the map in disorder. */
    method FreePage(page: int)
      requires Valid() && 0 <= page < 32 * freepages.Length
      modifies this`nfreepages, this`ops, this`frees, freepages
      ensures Free() == old(Free()) + {page} && History() && Counted()
      ensures nfreepages - |Free()| == old(nfreepages - |Free()|) + if page in old(Free()) then 1 else 0
      ensures ops == old(ops) + [PageRuns.Op.Free(page)] && frees == old(frees) + [Free()]
      ensures Valid() <==> pagestart <= page < 32 * freemapmax
    {
      hide PageRuns.IsRun, PageRuns.Doubles, FreePages;
      ghost var before := Free();
      SetFreemap(page, 1);
      assert page in before ==> before + {page} == before;
      nfreepages := nfreepages + 1;
      Record(PageRuns.Op.Free(page));
    }
  }

  /** A page is released twice, and then taken again: the next call of MemoryAllocPage, for which
      there is nothing left, never ends. */
  method ReleaseTwice(a: Allocator, page: int)
    requires a.Valid() && a.Balanced() && a.Free() == {} && 0 < a.pagestart <= page < 32 * a.freemapmax
    modifies a, a.freepages
    ensures a.Valid() && a.Free() == {} && !a.Returns()
  {
    hide FreePages, PageRuns.IsRun, PageRuns.Doubles;
    a.FreePage(page);
    a.FreePage(page);
    assert a.Free() == {page} && a.nfreepages == 2;
    var taken := a.AllocPage();
    assert a.Free() == {} && a.nfreepages == 1;
    a.ReturnsExactly();
  }

  /** The lowest page from the start of word `from` on; without one, the lowest page of all. */
  lemma NextFit(free: set<int>, from: int, page: int, n: int)
    requires 0 <= from < n && 0 <= page < 32 * n && forall p :: p in free ==> 0 <= p < 32 * n
    requires forall p :: p in free ==> Ahead(from, page / 32, n) <= Ahead(from, p / 32, n)
    requires forall p :: p in free && p / 32 == page / 32 ==> page <= p
    ensures forall p :: p in free ==>
              if page >= 32 * from then p >= page || p < 32 * from else page <= p < 32 * from
  {
  }

  /** Rounding up: the first page behind the last word of the kernel. */
  lemma RoundedUp(last: int)
    ensures var start := (last + PAGE_SIZE - 4) / PAGE_SIZE;
      forall p :: start <= p <==> p * 0x1_0000 > last - 4
  {
  }

  lemma NoCalls(free: set<int>)
    ensures PageRuns.IsRun([free], [])
  {
  }

  lemma RunLength(frees: seq<set<int>>, ops: seq<PageRuns.Op>)
    requires PageRuns.IsRun(frees, ops)
    ensures |frees| == |ops| + 1
  {
  }

  /** The pages from `a` up to `b`. */
  ghost function Range(a: int, b: int): set<int>
    requires a <= b
    decreases b - a
  {
    if a == b then {} else Range(a, b - 1) + {b - 1}
  }

  lemma OneMorePage(a: int, b: int)
    requires a <= b
    ensures Range(a, a) == {} && Range(a, b + 1) == Range(a, b) + {b}
  {
  }

  lemma {:induction false} PagesOfRange(a: int, b: int)
    requires a <= b
    ensures |Range(a, b)| == b - a && forall p :: p in Range(a, b) <==> a <= p < b
    decreases b - a
  {
    if a < b { PagesOfRange(a, b - 1); }
  }

  lemma NoBits()
    ensures forall b: nat :: b < 32 ==> !Bit(0, b)
  {
    forall b: nat | b < 32 ensures !Bit(0, b) {
      if Bit(0, b) { SomeBit(0, b); }
    }
  }

  lemma ClearedWord(words: seq<bv32>, i: nat)
    requires i < |words| && FreePages(words) == {}
    ensures FreePages(words[i := 0]) == {}
  {
    hide Bit;
    NoBits();
    assert forall p :: p in FreePages(words[i := 0]) ==> p in FreePages(words);
  }

  lemma NothingFree(words: seq<bv32>)
    requires forall i :: 0 <= i < |words| ==> words[i] == 0
    ensures FreePages(words) == {}
  {
    NoBits();
  }

  /** The lowest set bit of a word is its lowest free page. */
  lemma LowestOfWord(words: seq<bv32>, w: int, b: nat)
    requires 0 <= w < |words| && b < 32 && Bit(words[w], b) && forall c: nat :: c < b ==> !Bit(words[w], c)
    ensures var page := w * 32 + b;
      && page / 32 == w && page % 32 == b && page in FreePages(words)
      && forall p :: p in FreePages(words) && p / 32 == w ==> page <= p
  {
    hide Bit;
  }

  /** A word with a free page is not zero. */
  lemma WordsInUse(words: seq<bv32>)
    ensures forall p :: p in FreePages(words) ==> words[p / 32] != 0
  {
    forall p | p in FreePages(words) ensures words[p / 32] != 0 { SomeBit(words[p / 32], p % 32); }
  }

  /** Clearing the lowest set bit of a word takes the lowest page of that word. */
  lemma LowestIsTaken(words: seq<bv32>, w: int, b: nat)
    requires 0 <= w < |words| && b < 32 && Bit(words[w], b) && forall c: nat :: c < b ==> !Bit(words[w], c)
    ensures var page := w * 32 + b;
      && page / 32 == w && page in FreePages(words)
      && (forall p :: p in FreePages(words) && p / 32 == w ==> page <= p)
      && FreePages(words[w := Cleared(words[w], b)]) == FreePages(words) - {page}
  {
    hide Bit, WithBit, FreePages, Cleared;
    LowestOfWord(words, w, b);
    OneBitOnePage(words, w * 32 + b, 0);
    ClearBit(words[w], b);
  }

  /** A word that is not zero has a free page. */
  lemma PageOfWord(words: seq<bv32>, w: nat)
    requires w < |words| && words[w] != 0
    ensures FreePages(words) != {}
  {
    hide Bit, SetFrom;
    SetFromStart(words[w]);
    var b := HasBit(words[w], 0);
    PageOfBit(w, b);
    assert w * 32 + b in FreePages(words);
  }

  /** Without free pages, all words are zero. */
  lemma NoWordInUse(words: seq<bv32>)
    requires FreePages(words) == {}
    ensures forall w :: 0 <= w < |words| ==> words[w] == 0
  {
    forall w | 0 <= w < |words| ensures words[w] == 0 {
      if words[w] != 0 { PageOfWord(words, w); }
    }
  }

  lemma PageOfBit(w: nat, b: nat)
    requires b < 32
    ensures (w * 32 + b) / 32 == w && (w * 32 + b) % 32 == b
  {
  }
}
