/** Copying between kernel and user space (os/memory.c:163-250): page by page, and equal to
    translating and copying every byte by itself. */
module UserCopy {
  import opened Words
  import opened PageTable

  /** The page table of a process; entries are those of MemorySetupPte and status bits. */
  datatype Table = Table(pagetable: seq<uint32>, npages: nat)

  /** Every entry that can be used names a whole page inside a memory of `size` bytes. */
  ghost predicate TableOk(t: Table, size: int) {
    && t.npages < |t.pagetable|
    && forall i :: 0 <= i <= t.npages ==>
         PteToPage(t.pagetable[i]) % PAGE_SIZE == 0 && PteToPage(t.pagetable[i]) + PAGE_SIZE <= size
  }

  /** MemoryTranslateUserToSystem: 0 stands for failure.  The page just past the last one is
      accepted. */
  function Translate(t: Table, addr: nat): int
    requires t.npages < |t.pagetable|
  {
    var page, offset := addr / PAGE_SIZE, addr % PAGE_SIZE;
    if page > t.npages then 0 else PteToPage(t.pagetable[page]) + offset
  }

  // ----- bcopy -----

  /** The memory after `count` bytes have been copied, in ascending order. */
  function BlockCopy(m: seq<byte>, src: nat, dst: nat, count: nat): (m': seq<byte>)
    requires src + count <= |m| && dst + count <= |m|
    ensures |m'| == |m|
    decreases count
  {
    if count == 0 then m else BlockCopy(m[dst := m[src]], src + 1, dst + 1, count - 1)
  }

  method Bcopy(mem: array<byte>, src: nat, dst: nat, count: int)
    requires count >= 0 && src + count <= mem.Length && dst + count <= mem.Length
    modifies mem
    ensures mem[..] == BlockCopy(old(mem[..]), src, dst, count)
  {
    var s, d, left := src, dst, count;
    while left > 0
      invariant 0 <= left <= count && s == src + count - left && d == dst + count - left
      invariant BlockCopy(mem[..], s, d, left) == BlockCopy(old(mem[..]), src, dst, count)
    {
      ghost var m := mem[..];
      mem[d] := mem[s];
      assert mem[..] == m[d := m[s]];
      s, d, left := s + 1, d + 1, left - 1;
    }
  }

  // ----- the reference: byte by byte -----

  /** The memory, and the number of bytes copied, when every byte is translated by itself. */
  function ByteCopy(m: seq<byte>, t: Table, s: nat, u: nat, n: int, dir: int): (r: (seq<byte>, int))
    requires TableOk(t, |m|) && s <= |m| && s + n <= |m|
    ensures |r.0| == |m| && 0 <= r.1
    decreases if n > 0 then n else 0
  {
    if n <= 0 then (m, 0)
    else
      var p := Translate(t, u);
      if p == 0 then (m, 0)
      else
        assert 0 <= p < |m|;
        var (m2, k) := ByteCopy(if dir >= 0 then m[p := m[s]] else m[s := m[p]], t, s + 1, u + 1, n - 1, dir);
        (m2, k + 1)
  }

  /** A translated address keeps its offset, and its successor on the same page is translated to
      its successor. */
  lemma TranslateWithinPage(t: Table, size: int, u: nat)
    requires TableOk(t, size) && Translate(t, u) != 0
    ensures u / PAGE_SIZE <= t.npages && 0 <= Translate(t, u) < size
    ensures Translate(t, u) % PAGE_SIZE == u % PAGE_SIZE
    ensures Translate(t, u) + (PAGE_SIZE - u % PAGE_SIZE) <= size
    ensures u % PAGE_SIZE + 1 < PAGE_SIZE ==> Translate(t, u + 1) == Translate(t, u) + 1
  {
    var page, offset := u / PAGE_SIZE, u % PAGE_SIZE;
    assert PteToPage(t.pagetable[page]) % PAGE_SIZE == 0;
    RemainderOfPage(PteToPage(t.pagetable[page]) / PAGE_SIZE, offset);
    if offset + 1 < PAGE_SIZE { RemainderOfPage(page, offset + 1); }
  }

  lemma RemainderOfPage(page: int, offset: int)
    requires 0 <= offset < PAGE_SIZE
    ensures (page * PAGE_SIZE + offset) % PAGE_SIZE == offset
    ensures (page * PAGE_SIZE + offset) / PAGE_SIZE == page
  {
  }

  /** An address goes to the page that its entry names, at its offset. */
  lemma TranslateAt(t: Table, i: nat, offset: nat)
    requires t.npages < |t.pagetable| && offset < 0x1_0000
    ensures Translate(t, i * 0x1_0000 + offset) == if i <= t.npages then PteToPage(t.pagetable[i]) + offset else 0
  {
    RemainderOfPage(i, offset);
  }

  /** The memory after a chunk of `c` bytes has been copied as a block. */
  function ChunkCopy(m: seq<byte>, s: nat, p: nat, c: nat, dir: int): (m': seq<byte>)
    requires s + c <= |m| && p + c <= |m|
    ensures |m'| == |m|
  {
    if dir >= 0 then BlockCopy(m, s, p, c) else BlockCopy(m, p, s, c)
  }

  /** One byte copied from `s` to `p`, or the other way. */
  function Move(m: seq<byte>, s: nat, p: nat, dir: int): (m': seq<byte>)
    requires s < |m| && p < |m|
    ensures |m'| == |m|
  {
    if dir >= 0 then m[p := m[s]] else m[s := m[p]]
  }

  lemma ChunkStep(m: seq<byte>, s: nat, p: nat, c: nat, dir: int)
    requires s + c <= |m| && p + c <= |m| && c > 0
    ensures ChunkCopy(m, s, p, c, dir) == ChunkCopy(Move(m, s, p, dir), s + 1, p + 1, c - 1, dir)
  {
  }

  lemma NoChunk(m: seq<byte>, s: nat, p: nat, dir: int)
    requires s <= |m| && p <= |m|
    ensures ChunkCopy(m, s, p, 0, dir) == m
  {
  }

  lemma ByteStep(m: seq<byte>, t: Table, s: nat, u: nat, n: int, dir: int)
    requires TableOk(t, |m|) && s + n <= |m| && n > 0 && Translate(t, u) != 0
    ensures 0 <= Translate(t, u) < |m|
    ensures var rest := ByteCopy(Move(m, s, Translate(t, u), dir), t, s + 1, u + 1, n - 1, dir);
      ByteCopy(m, t, s, u, n, dir) == (rest.0, rest.1 + 1)
  {
    TranslateWithinPage(t, |m|, u);
    StepIs(m, t, s, u, n, dir);
  }

  lemma StepIs(m: seq<byte>, t: Table, s: nat, u: nat, n: int, dir: int)
    requires TableOk(t, |m|) && s + n <= |m| && n > 0 && 0 < Translate(t, u) < |m|
    ensures var rest := ByteCopy(Move(m, s, Translate(t, u), dir), t, s + 1, u + 1, n - 1, dir);
      ByteCopy(m, t, s, u, n, dir) == (rest.0, rest.1 + 1)
  {
    hide Translate, TableOk;
  }

  /** A block copy that does not leave its page is that many byte copies. */
  lemma {:induction false} ChunkIsBytes(m: seq<byte>, t: Table, s: nat, u: nat, n: int, dir: int, c: nat)
    requires TableOk(t, |m|) && s <= |m| && s + n <= |m|
    requires 0 < c <= n && Translate(t, u) != 0 && c <= PAGE_SIZE - u % PAGE_SIZE
    ensures 0 <= Translate(t, u) && Translate(t, u) + c <= |m|
    ensures var rest := ByteCopy(ChunkCopy(m, s, Translate(t, u), c, dir), t, s + c, u + c, n - c, dir);
      ByteCopy(m, t, s, u, n, dir) == (rest.0, rest.1 + c)
    decreases c
  {
    hide ByteCopy, ChunkCopy, Move, Translate;
    var p := Translate(t, u);
    TranslateWithinPage(t, |m|, u);
    var m1 := Move(m, s, p, dir);
    ByteStep(m, t, s, u, n, dir);
    ChunkStep(m, s, p, c, dir);
    if c > 1 {
      NextOffset(u);
      ChunkIsBytes(m1, t, s + 1, u + 1, n - 1, dir, c - 1);
    } else {
      NoChunk(m1, s + 1, p + 1, dir);
    }
  }

  lemma NextOffset(u: nat)
    requires u % PAGE_SIZE + 1 < PAGE_SIZE
    ensures (u + 1) % PAGE_SIZE == u % PAGE_SIZE + 1
  {
    RemainderOfPage(u / PAGE_SIZE, u % PAGE_SIZE + 1);
  }

  /** moveBetweenSpaces: whatever the table, the range and the direction, and even if the ranges
      overlap or the translation fails on the way, the result is that of the byte-by-byte copy. */
  method MoveBetweenSpaces(mem: array<byte>, t: Table, s: nat, u: nat, n: int, dir: int) returns (bytesCopied: int)
    requires TableOk(t, mem.Length) && s <= mem.Length && s + n <= mem.Length
    modifies mem
    ensures (mem[..], bytesCopied) == ByteCopy(old(mem[..]), t, s, u, n, dir)
    ensures PageZeroUnused(t) ==> (bytesCopied == MappedBytes(t, u, n) <==> StopsAtTheEnd(t, u, n))
  {
    hide ByteCopy, Translate, BlockCopy, StopsAtTheEnd, MappedBytes;
    var left, curS, curU := n, s, u;
    bytesCopied := 0;
    ghost var whole := ByteCopy(mem[..], t, s, u, n, dir);
    while left > 0
      invariant left <= n && (left >= 0 || left == n) && curS == s + bytesCopied && curU == u + bytesCopied
      invariant n - left == bytesCopied >= 0
      invariant var rest := ByteCopy(mem[..], t, curS, curU, left, dir); whole == (rest.0, rest.1 + bytesCopied)
      decreases left
    {
      var curUser := Translate(t, curU);
      if curUser == 0 {
        break;
      }
      TranslateWithinPage(t, mem.Length, curU);
      var bytesToCopy := PAGE_SIZE - curUser % PAGE_SIZE;
      if bytesToCopy > left {
        bytesToCopy := left;
      }
      ChunkIsBytes(mem[..], t, curS, curU, left, dir, bytesToCopy);
      if dir >= 0 {
        Bcopy(mem, curS, curUser, bytesToCopy);
      } else {
        Bcopy(mem, curUser, curS, bytesToCopy);
      }
      left := left - bytesToCopy;
      bytesCopied := bytesCopied + bytesToCopy;
      curS := curS + bytesToCopy;
      curU := curU + bytesToCopy;
    }
    CopyEnds(mem[..], t, curS, curU, left, dir);
    if PageZeroUnused(t) { StopsAtTheEndExactly(old(mem[..]), t, s, u, n, dir); }
  }

  lemma CopyEnds(m: seq<byte>, t: Table, s: nat, u: nat, n: int, dir: int)
    requires TableOk(t, |m|) && s <= |m| && s + n <= |m| && (n <= 0 || Translate(t, u) == 0)
    ensures ByteCopy(m, t, s, u, n, dir) == (m, 0)
  {
  }

  // ----- what a copy means -----

  /** All `n` bytes from user address `u` lie in the pages of the process. */
  ghost predicate InPages(t: Table, u: nat, n: int) { u + n <= t.npages * PAGE_SIZE }

  /** No entry in use maps page 0, which is the kernel's. */
  ghost predicate PageZeroUnused(t: Table) {
    && t.npages <= |t.pagetable|
    && forall i :: 0 <= i < t.npages ==> PteToPage(t.pagetable[i]) > 0
  }

  /** The entries in use map different pages, and none of them page 0. */
  ghost predicate DistinctPages(t: Table) {
    && PageZeroUnused(t)
    && (forall i, j :: 0 <= i < j < t.npages ==> PteToPage(t.pagetable[i]) != PteToPage(t.pagetable[j]))
  }

  /** `place` holds a byte of the user's range: it is in the page of entry `i`, at that offset. */
  ghost predicate InUserRange(t: Table, u: nat, n: int, place: int)
    requires t.npages < |t.pagetable|
  {
    exists i :: 0 <= i < t.npages
      && PteToPage(t.pagetable[i]) == place - place % 0x1_0000 && u <= i * 0x1_0000 + place % 0x1_0000 < u + n
  }

  /** No byte of the kernel's range is a byte of the user's range. */
  ghost predicate Apart(t: Table, s: nat, u: nat, n: int)
    requires t.npages < |t.pagetable|
  {
    forall j :: s <= j < s + n ==> !InUserRange(t, u, n, j)
  }

  lemma TranslatedInRange(t: Table, size: int, u: nat, n: nat, v: nat)
    requires TableOk(t, size) && InPages(t, u, n) && u <= v < u + n
    ensures InUserRange(t, u, n, Translate(t, v))
  {
    var i := v / PAGE_SIZE;
    assert v == i * PAGE_SIZE + v % PAGE_SIZE && 0 <= i < t.npages;
    var page := PteToPage(t.pagetable[i]);
    RemainderOfPage(page / PAGE_SIZE, v % PAGE_SIZE);
  }

  lemma Injective(t: Table, size: int, u: nat, v: nat)
    requires TableOk(t, size) && DistinctPages(t) && u < v < t.npages * PAGE_SIZE
    ensures 0 < Translate(t, u) < size && 0 < Translate(t, v) < size && Translate(t, u) != Translate(t, v)
  {
    var i, j := u / PAGE_SIZE, v / PAGE_SIZE;
    assert 0 <= i <= j < t.npages;
    TranslateWithinPage(t, size, u);
    TranslateWithinPage(t, size, v);
    if i < j {
      var a, b := PteToPage(t.pagetable[i]), PteToPage(t.pagetable[j]);
      assert a != b && a % PAGE_SIZE == 0 && b % PAGE_SIZE == 0;
    }
  }

  /** The translated addresses of the user's range. */
  ghost predicate Within(t: Table, u: nat, n: int, place: int)
    requires t.npages < |t.pagetable|
  {
    exists v: nat :: u <= v < u + n && place == Translate(t, v)
  }

  ghost predicate KeepsOut(t: Table, s: nat, u: nat, n: int)
    requires t.npages < |t.pagetable|
  {
    forall v: nat :: u <= v < u + n ==> !(s <= Translate(t, v) < s + n)
  }

  lemma {:induction false} BytesToUser(m: seq<byte>, t: Table, s: nat, u: nat, n: nat, dir: int)
    requires TableOk(t, |m|) && DistinctPages(t) && InPages(t, u, n) && s + n <= |m| && KeepsOut(t, s, u, n) && dir >= 0
    ensures var (m', copied) := ByteCopy(m, t, s, u, n, dir);
      && copied == n
      && (forall v: nat :: u <= v < u + n ==> 0 < Translate(t, v) < |m| && m'[Translate(t, v)] == m[s + v - u])
      && (forall j :: 0 <= j < |m| && !Within(t, u, n, j) ==> m'[j] == m[j])
    decreases n
  {
    hide Translate, ByteCopy, DistinctPages;
    if n == 0 {
      CopyEnds(m, t, s, u, n, dir);
    } else {
      var p := Translate(t, u);
      Mapped(t, |m|, u);
      ByteStep(m, t, s, u, n, dir);
      var m1 := m[p := m[s]];
      forall v: nat | u < v < u + n ensures Translate(t, v) != p {
        Injective(t, |m|, u, v);
      }
      BytesToUser(m1, t, s + 1, u + 1, n - 1, dir);
      assert !Within(t, u + 1, n - 1, p);
    }
  }

  lemma Mapped(t: Table, size: int, u: nat)
    requires TableOk(t, size) && DistinctPages(t) && u < t.npages * PAGE_SIZE
    ensures 0 < Translate(t, u) < size
  {
    TranslateWithinPage(t, size, u);
  }

  lemma {:induction false} BytesFromUser(m: seq<byte>, t: Table, s: nat, u: nat, n: nat, dir: int)
    requires TableOk(t, |m|) && DistinctPages(t) && InPages(t, u, n) && s + n <= |m| && KeepsOut(t, s, u, n) && dir < 0
    ensures var (m', copied) := ByteCopy(m, t, s, u, n, dir);
      && copied == n
      && (forall v: nat :: u <= v < u + n ==> 0 < Translate(t, v) < |m| && m'[s + v - u] == m[Translate(t, v)])
      && (forall j :: 0 <= j < |m| && !(s <= j < s + n) ==> m'[j] == m[j])
    decreases n
  {
    hide Translate;
    if n > 0 {
      var p := Translate(t, u);
      Mapped(t, |m|, u);
      BytesFromUser(m[s := m[p]], t, s + 1, u + 1, n - 1, dir);
    }
  }

  lemma ApartKeepsOut(t: Table, size: int, s: nat, u: nat, n: nat)
    requires TableOk(t, size) && InPages(t, u, n) && Apart(t, s, u, n)
    ensures KeepsOut(t, s, u, n)
  {
    hide Translate, InUserRange;
    forall v: nat | u <= v < u + n ensures !(s <= Translate(t, v) < s + n) { TranslatedInRange(t, size, u, n, v); }
  }

  lemma PlaceOfByte(t: Table, v: nat)
    requires t.npages < |t.pagetable| && v < t.npages * PAGE_SIZE
    ensures v / 0x1_0000 < t.npages && Translate(t, v) == PteToPage(t.pagetable[v / 0x1_0000]) + v % 0x1_0000
  {
  }

  /** A copy to user space puts every byte into the page that its entry names, at its offset, and
      changes nothing else. */
  lemma CopyToUser(m: seq<byte>, t: Table, s: nat, u: nat, n: nat, dir: int)
    requires TableOk(t, |m|) && DistinctPages(t) && InPages(t, u, n) && s + n <= |m| && Apart(t, s, u, n) && dir >= 0
    ensures var (m', copied) := ByteCopy(m, t, s, u, n, dir);
      && copied == n
      && (forall a :: s <= a < s + n ==>
            var v := u + a - s;
            && v / 0x1_0000 < t.npages && PteToPage(t.pagetable[v / 0x1_0000]) + v % 0x1_0000 < |m|
            && m'[PteToPage(t.pagetable[v / 0x1_0000]) + v % 0x1_0000] == m[a])
      && (forall j :: 0 <= j < |m| && !InUserRange(t, u, n, j) ==> m'[j] == m[j])
  {
    hide Translate, ByteCopy, DistinctPages, InUserRange, PteToPage;
    ApartKeepsOut(t, |m|, s, u, n);
    BytesToUser(m, t, s, u, n, dir);
    var m' := ByteCopy(m, t, s, u, n, dir).0;
    forall a | s <= a < s + n
      ensures var v := u + a - s;
        && v / 0x1_0000 < t.npages && PteToPage(t.pagetable[v / 0x1_0000]) + v % 0x1_0000 < |m|
        && m'[PteToPage(t.pagetable[v / 0x1_0000]) + v % 0x1_0000] == m[a]
    {
      var v: nat := u + a - s;
      PlaceOfByte(t, v);
      assert 0 < Translate(t, v) < |m|;
    }
    forall j | 0 <= j < |m| && Within(t, u, n, j) ensures InUserRange(t, u, n, j) {
      var v: nat :| u <= v < u + n && j == Translate(t, v);
      TranslatedInRange(t, |m|, u, n, v);
    }
  }

  /** A copy from user space fetches every byte from the page that its entry names, at its offset, and
      changes nothing but the kernel's range. */
  lemma CopyFromUser(m: seq<byte>, t: Table, s: nat, u: nat, n: nat, dir: int)
    requires TableOk(t, |m|) && DistinctPages(t) && InPages(t, u, n) && s + n <= |m| && Apart(t, s, u, n) && dir < 0
    ensures var (m', copied) := ByteCopy(m, t, s, u, n, dir);
      && copied == n
      && (forall a :: s <= a < s + n ==>
            var v := u + a - s;
            && v / 0x1_0000 < t.npages && PteToPage(t.pagetable[v / 0x1_0000]) + v % 0x1_0000 < |m|
            && m'[a] == m[PteToPage(t.pagetable[v / 0x1_0000]) + v % 0x1_0000])
      && (forall j :: 0 <= j < |m| && !(s <= j < s + n) ==> m'[j] == m[j])
  {
    hide Translate, ByteCopy, DistinctPages, InUserRange, PteToPage;
    ApartKeepsOut(t, |m|, s, u, n);
    BytesFromUser(m, t, s, u, n, dir);
    var m' := ByteCopy(m, t, s, u, n, dir).0;
    forall a | s <= a < s + n
      ensures var v := u + a - s;
        && v / 0x1_0000 < t.npages && PteToPage(t.pagetable[v / 0x1_0000]) + v % 0x1_0000 < |m|
        && m'[a] == m[PteToPage(t.pagetable[v / 0x1_0000]) + v % 0x1_0000]
    {
      var v: nat := u + a - s;
      PlaceOfByte(t, v);
      assert 0 < Translate(t, v) < |m|;
    }
  }

  /** What is copied out to a process and back in comes back unchanged. */
  lemma RoundTrip(m: seq<byte>, t: Table, from: nat, u: nat, to: nat, n: nat)
    requires TableOk(t, |m|) && DistinctPages(t) && InPages(t, u, n)
    requires from + n <= |m| && to + n <= |m| && Apart(t, from, u, n) && Apart(t, to, u, n)
    ensures var (m1, out) := ByteCopy(m, t, from, u, n, 1);
      var (m2, back) := ByteCopy(m1, t, to, u, n, -1);
      out == back == n && m2[to..to + n] == m[from..from + n]
  {
    hide Translate, ByteCopy, DistinctPages, InPages, Apart, InUserRange, PteToPage;
    CopyToUser(m, t, from, u, n, 1);
    var m1 := ByteCopy(m, t, from, u, n, 1).0;
    CopyFromUser(m1, t, to, u, n, -1);
    var m2 := ByteCopy(m1, t, to, u, n, -1).0;
    var a, b := m2[to..to + n], m[from..from + n];
    forall i | 0 <= i < n ensures a[i] == b[i] {
      assert m2[to + i] == m[from + i];
    }
  }

  // ----- where a copy stops -----

  /** The address just past the pages of the process. */
  function End(t: Table): int { t.npages * PAGE_SIZE }

  /** The bytes from `u` on that lie in the pages of the process, at most `n`: what a copy that
      stops at the first unmapped address returns. */
  function MappedBytes(t: Table, u: nat, n: int): int {
    if n <= 0 || u >= End(t) then 0 else if u + n <= End(t) then n else End(t) - u
  }

  /** The addresses that are not translated: those behind the page just past the last one, and the
      first one of that page if its entry says 0. */
  lemma Unmapped(t: Table, size: int, u: nat)
    requires TableOk(t, size) && PageZeroUnused(t)
    ensures Translate(t, u) == 0 <==>
      u >= End(t) + PAGE_SIZE || (u == End(t) && PteToPage(t.pagetable[t.npages]) == 0)
  {
    var page, offset := u / PAGE_SIZE, u % PAGE_SIZE;
    assert u == page * PAGE_SIZE + offset;
    assert page < t.npages ==> PteToPage(t.pagetable[page]) > 0;
  }

  /** The copy does not reach the page just past the last one, or starts behind that page, or does
      not start inside that page and finds its entry to be 0. */
  predicate StopsAtTheEnd(t: Table, u: nat, n: int)
    requires t.npages < |t.pagetable|
  {
    || n <= 0 || u + n <= End(t) || u >= End(t) + PAGE_SIZE
    || (PteToPage(t.pagetable[t.npages]) == 0 && u <= End(t))
  }

  lemma {:induction false} CountIs(m: seq<byte>, t: Table, s: nat, u: nat, n: int, dir: int, k: int)
    requires TableOk(t, |m|) && s <= |m| && s + n <= |m|
    requires 0 <= k && (if n <= 0 then k == 0 else k <= n && (k < n ==> Translate(t, u + k) == 0))
    requires forall v: nat :: u <= v < u + k ==> Translate(t, v) != 0
    ensures ByteCopy(m, t, s, u, n, dir).1 == k
    decreases k
  {
    hide Translate, ByteCopy, Move;
    if k == 0 {
      CopyEnds(m, t, s, u, n, dir);
    } else {
      ByteStep(m, t, s, u, n, dir);
      CountIs(Move(m, s, Translate(t, u), dir), t, s + 1, u + 1, n - 1, dir, k - 1);
    }
  }

  /** How far a copy really goes. */
  lemma CopiedBytes(m: seq<byte>, t: Table, s: nat, u: nat, n: int, dir: int)
    requires TableOk(t, |m|) && PageZeroUnused(t) && s <= |m| && s + n <= |m|
    ensures ByteCopy(m, t, s, u, n, dir).1 ==
      if n > 0 && u <= End(t) && PteToPage(t.pagetable[t.npages]) == 0 then MappedBytes(t, u, n)
      else if n <= 0 || u >= End(t) + PAGE_SIZE then 0
      else if u + n <= End(t) + PAGE_SIZE then n
      else End(t) + PAGE_SIZE - u
  {
    hide Translate, ByteCopy;
    var zero := PteToPage(t.pagetable[t.npages]) == 0;
    var k := if n > 0 && u <= End(t) && zero then MappedBytes(t, u, n)
      else if n <= 0 || u >= End(t) + PAGE_SIZE then 0
      else if u + n <= End(t) + PAGE_SIZE then n
      else End(t) + PAGE_SIZE - u;
    forall v: nat | u <= v < u + k ensures Translate(t, v) != 0 { Unmapped(t, |m|, v); }
    Unmapped(t, |m|, u + k);
    CountIs(m, t, s, u, n, dir, k);
  }

  /** When a copy stops at the first unmapped address. */
  lemma StopsAtTheEndExactly(m: seq<byte>, t: Table, s: nat, u: nat, n: int, dir: int)
    requires TableOk(t, |m|) && PageZeroUnused(t) && s <= |m| && s + n <= |m|
    ensures ByteCopy(m, t, s, u, n, dir).1 == MappedBytes(t, u, n) <==> StopsAtTheEnd(t, u, n)
  {
    hide ByteCopy;
    CopiedBytes(m, t, s, u, n, dir);
  }

  /** A process of one page, at page 1, whose table ends with an empty entry: one byte stored at
      its second address past the end goes to address 1, which is the kernel's. */
  lemma PagePastTheEnd(m: seq<byte>, s: nat)
    requires |m| >= 2 * PAGE_SIZE && s < |m|
    ensures var t := Table([PAGE_SIZE + 1, 0], 1);
      && TableOk(t, |m|) && PageZeroUnused(t) && MappedBytes(t, PAGE_SIZE + 1, 1) == 0
      && ByteCopy(m, t, s, PAGE_SIZE + 1, 1, 1) == (m[1 := m[s]], 1)
  {
    var t := Table([PAGE_SIZE + 1, 0], 1);
    RemainderOfPage(1, 1);
    assert Translate(t, PAGE_SIZE + 1) == 1;
    assert ByteCopy(m[1 := m[s]], t, s + 1, PAGE_SIZE + 2, 0, 1) == (m[1 := m[s]], 0);
  }
}
