/** The kernel's queues (os/queue.c): doubly linked lists whose links all come from one static
    pool, refined to one sequence of links per queue.

    As in the C code the links and the queues are static arrays of records, and a pointer to a
    record is its index; NULL is -1. */
module Queues {
  import opened Sequences

  const NULL: int := -1

  datatype Link = Link(next: int, prev: int, queue: int, obj: nat)
  datatype Queue = Queue(first: int, last: int, nitems: int)

  // ----- sequences -----

  function InsertAt<T>(s: seq<T>, i: nat, x: T): (t: seq<T>)
    requires i <= |s|
    ensures |t| == |s| + 1 && t[i] == x
    ensures forall j :: 0 <= j < i ==> t[j] == s[j]
    ensures forall j :: i < j < |t| ==> t[j] == s[j - 1]
  {
    s[..i] + [x] + s[i..]
  }

  function RemoveAt<T>(s: seq<T>, i: nat): (t: seq<T>)
    requires i < |s|
    ensures |t| == |s| - 1
    ensures forall j :: 0 <= j < i ==> t[j] == s[j]
    ensures forall j :: i <= j < |t| ==> t[j] == s[j + 1]
  {
    s[..i] + s[i + 1..]
  }

  /** The place of `x` in `s`. */
  ghost function Index(s: seq<int>, x: int): (i: nat)
    requires x in s
    ensures i < |s| && s[i] == x
    ensures forall j :: 0 <= j < i ==> s[j] != x
  {
    if s[0] == x then 0 else 1 + Index(s[1..], x)
  }

  /** The neighbour at position `i`, NULL beyond either end. */
  function At(s: seq<int>, i: int): int {
    if 0 <= i < |s| then s[i] else NULL
  }

  // ----- what the pointers mean -----

  /** The link at position `i` of `s` is on queue `q`, between its neighbours. */
  ghost predicate SpellsAt(m: seq<Link>, q: int, s: seq<int>, i: int)
    requires 0 <= i < |s|
  {
    && 0 <= s[i] < |m|
    && m[s[i]].queue == q
    && m[s[i]].next == At(s, i + 1)
    && m[s[i]].prev == At(s, i - 1)
  }

  /** The record `r` of queue `q` and the links in `m` spell out the sequence `s`. */
  ghost predicate Spells(m: seq<Link>, r: Queue, q: int, s: seq<int>) {
    && r == Queue(At(s, 0), At(s, |s| - 1), |s|)
    && Distinct(s)
    && (forall i {:trigger SpellsAt(m, q, s, i)} :: 0 <= i < |s| ==> SpellsAt(m, q, s, i))
  }

  /** Every queue is spelled out by its sequence, and a link that names a queue is on it: the
      sequences are disjoint.  Link `x` is on no queue although it may still name one. */
  ghost predicate RefinesBut(m: seq<Link>, qs: seq<Queue>, c: seq<seq<int>>, x: int) {
    && |qs| == |c|
    && (forall q :: 0 <= q < |qs| ==> Spells(m, qs[q], q, c[q]))
    && (forall l :: 0 <= l < |m| && l != x && m[l].queue != NULL ==>
          0 <= m[l].queue < |c| && l in c[m[l].queue])
    && (forall q :: 0 <= q < |c| ==> x !in c[q])
  }

  ghost predicate Refines(m: seq<Link>, qs: seq<Queue>, c: seq<seq<int>>) {
    RefinesBut(m, qs, c, NULL)
  }

  lemma OnQueue(m: seq<Link>, r: Queue, q: int, s: seq<int>, l: int)
    requires Spells(m, r, q, s) && l in s
    ensures 0 <= l < |m| && m[l].queue == q
  {
    assert SpellsAt(m, q, s, Index(s, l));
  }

  lemma SpellsSame(m: seq<Link>, m': seq<Link>, r: Queue, q: int, s: seq<int>)
    requires Spells(m, r, q, s) && |m'| == |m|
    requires forall l :: l in s ==> 0 <= l < |m| && m'[l] == m[l]
    ensures Spells(m', r, q, s)
  {
    forall i | 0 <= i < |s|
      ensures SpellsAt(m', q, s, i)
    {
      assert SpellsAt(m, q, s, i) && s[i] in s;
    }
  }

  /** The links of `s` are those of `old`, without `x` and with `y`. */
  ghost predicate Relinked(old': seq<int>, s: seq<int>, x: int, y: int) {
    && x !in s
    && (forall l :: l in s ==> l in old' || l == y)
    && (forall l :: l in old' ==> l in s || l == x)
    && (y != NULL && y != x ==> y in s)
    && (x != NULL && x != y ==> x in old')
  }

  /** Rewriting one queue keeps the others. */
  lemma OneQueueRewritten(m: seq<Link>, qs: seq<Queue>, c: seq<seq<int>>, m': seq<Link>, r: Queue, q: nat,
          s: seq<int>, x: int, y: int)
    requires RefinesBut(m, qs, c, y) && |m'| == |m| && q < |c|
    requires Spells(m', r, q, s) && Relinked(c[q], s, x, y)
    requires forall l :: 0 <= l < |m| && l !in s && l != x ==> m'[l] == m[l]
    ensures RefinesBut(m', qs[q := r], c[q := s], x)
  {
    var c' := c[q := s];
    forall k | 0 <= k < |c| && k != q
      ensures Spells(m', qs[k], k, c[k]) && x !in c[k]
    {
      forall l | l in c[k]
        ensures l !in s && l != x && 0 <= l < |m|
      {
        OnQueue(m, qs[k], k, c[k], l);
        if l in c[q] { OnQueue(m, qs[q], q, c[q], l); }
      }
      SpellsSame(m, m', qs[k], k, c[k]);
    }
    forall l | 0 <= l < |m| && l != x && m'[l].queue != NULL
      ensures 0 <= m'[l].queue < |c| && l in c'[m'[l].queue]
    {
      if l in s { OnQueue(m', r, q, s, l); }
    }
  }

  // ----- splicing -----

  /** The links after `l` has been put between its new neighbours. */
  function Linked(m: seq<Link>, q: int, prev: int, next: int, l: int): (m': seq<Link>)
    requires 0 <= l < |m| && -1 <= prev < |m| && -1 <= next < |m|
    ensures |m'| == |m|
    ensures forall i :: 0 <= i < |m| ==> m'[i].obj == m[i].obj
  {
    var m1 := m[l := Link(next, prev, q, m[l].obj)];
    var m2 := if prev != NULL then m1[prev := m1[prev].(next := l)] else m1;
    if next != NULL then m2[next := m2[next].(prev := l)] else m2
  }

  /** Only the object of `l` survives linking it in. */
  lemma LinkedOverwrites(m: seq<Link>, m': seq<Link>, q: int, prev: int, next: int, l: int)
    requires 0 <= l < |m| && -1 <= prev < |m| && -1 <= next < |m|
    requires m' == m[l := m[l].(queue := q)]
    ensures Linked(m', q, prev, next, l) == Linked(m, q, prev, next, l)
  {
    assert m'[l := Link(next, prev, q, m[l].obj)] == m[l := Link(next, prev, q, m[l].obj)];
  }

  /** The links after `prev` and `next` have been made neighbours. */
  function Unlinked(m: seq<Link>, prev: int, next: int): (m': seq<Link>)
    requires -1 <= prev < |m| && -1 <= next < |m|
    ensures |m'| == |m|
    ensures forall i :: 0 <= i < |m| ==> m'[i].obj == m[i].obj
  {
    var m1 := if prev != NULL then m[prev := m[prev].(next := next)] else m;
    if next != NULL then m1[next := m1[next].(prev := prev)] else m1
  }

  lemma DistinctInsertAt(s: seq<int>, k: nat, l: int)
    requires Distinct(s) && k <= |s| && l !in s
    ensures Distinct(InsertAt(s, k, l))
  {
  }

  lemma LinkedSpellsAt(m: seq<Link>, r: Queue, q: int, s: seq<int>, k: nat, l: int, i: nat)
    requires Spells(m, r, q, s) && k <= |s| && 0 <= l < |m| && l !in s && i <= |s|
    requires -1 <= At(s, k - 1) < |m| && -1 <= At(s, k) < |m|
    ensures SpellsAt(Linked(m, q, At(s, k - 1), At(s, k), l), q, InsertAt(s, k, l), i)
  {
    if i < k { assert SpellsAt(m, q, s, i); }
    if i > k { assert SpellsAt(m, q, s, i - 1); }
  }

  lemma NeighboursAreLinks(m: seq<Link>, r: Queue, q: int, s: seq<int>)
    requires Spells(m, r, q, s)
    ensures forall i :: -1 <= At(s, i) < |m|
  {
    forall i | 0 <= i < |s| ensures 0 <= s[i] < |m| { assert SpellsAt(m, q, s, i); }
  }

  lemma LinkedSpells(m: seq<Link>, r: Queue, q: int, s: seq<int>, k: nat, l: int)
    requires Spells(m, r, q, s) && k <= |s| && 0 <= l < |m| && l !in s
    ensures -1 <= At(s, k - 1) < |m| && -1 <= At(s, k) < |m|
    ensures Spells(
      Linked(m, q, At(s, k - 1), At(s, k), l),
      Queue(if k == 0 then l else r.first, if k == |s| then l else r.last, r.nitems + 1),
      q, InsertAt(s, k, l))
  {
    NeighboursAreLinks(m, r, q, s);
    DistinctInsertAt(s, k, l);
    var m', s' := Linked(m, q, At(s, k - 1), At(s, k), l), InsertAt(s, k, l);
    forall i {:trigger SpellsAt(m', q, s', i)} | 0 <= i < |s'|
      ensures SpellsAt(m', q, s', i)
    {
      LinkedSpellsAt(m, r, q, s, k, l, i);
    }
  }

  lemma DistinctRemoveAt(s: seq<int>, k: nat)
    requires Distinct(s) && k < |s|
    ensures Distinct(RemoveAt(s, k)) && s[k] !in RemoveAt(s, k)
  {
  }

  lemma UnlinkedSpellsAt(m: seq<Link>, r: Queue, q: int, s: seq<int>, k: nat, i: nat)
    requires Spells(m, r, q, s) && k < |s| && i < |s| - 1
    requires -1 <= At(s, k - 1) < |m| && -1 <= At(s, k + 1) < |m|
    ensures SpellsAt(Unlinked(m, At(s, k - 1), At(s, k + 1)), q, RemoveAt(s, k), i)
  {
    assert SpellsAt(m, q, s, if i < k then i else i + 1);
  }

  lemma UnlinkedSpells(m: seq<Link>, r: Queue, q: int, s: seq<int>, k: nat)
    requires Spells(m, r, q, s) && k < |s|
    ensures -1 <= At(s, k - 1) < |m| && -1 <= At(s, k + 1) < |m|
    ensures Spells(
      Unlinked(m, At(s, k - 1), At(s, k + 1)),
      Queue(if k == 0 then At(s, 1) else r.first, if k == |s| - 1 then At(s, k - 1) else r.last, r.nitems - 1),
      q, RemoveAt(s, k))
  {
    NeighboursAreLinks(m, r, q, s);
    DistinctRemoveAt(s, k);
    var m', s' := Unlinked(m, At(s, k - 1), At(s, k + 1)), RemoveAt(s, k);
    forall i {:trigger SpellsAt(m', q, s', i)} | 0 <= i < |s'|
      ensures SpellsAt(m', q, s', i)
    {
      UnlinkedSpellsAt(m, r, q, s, k, i);
    }
  }

  lemma InsertedMembers(s: seq<int>, k: nat, l: int)
    requires k <= |s| && l !in s && l != NULL && NULL !in s
    ensures Relinked(s, InsertAt(s, k, l), NULL, l)
  {
    var s' := InsertAt(s, k, l);
    forall x | x in s ensures x in s' {
      var i := Index(s, x);
      assert s'[if i < k then i else i + 1] == x;
    }
  }

  lemma RemovedMembers(s: seq<int>, k: nat)
    requires k < |s| && Distinct(s)
    ensures Relinked(s, RemoveAt(s, k), s[k], NULL)
  {
    var s' := RemoveAt(s, k);
    DistinctRemoveAt(s, k);
    forall x | x in s && x != s[k] ensures x in s' {
      var i := Index(s, x);
      assert s'[if i < k then i else i - 1] == x;
    }
  }

  /** Linking in a link that is on no queue inserts it into one sequence. */
  lemma InsertRefines(m: seq<Link>, qs: seq<Queue>, c: seq<seq<int>>, q: nat, k: nat, l: int)
    requires RefinesBut(m, qs, c, l) && q < |c| && k <= |c[q]| && 0 <= l < |m|
    ensures -1 <= At(c[q], k - 1) < |m| && -1 <= At(c[q], k) < |m|
    ensures Refines(
      Linked(m, q, At(c[q], k - 1), At(c[q], k), l),
      qs[q := Queue(if k == 0 then l else qs[q].first, if k == |c[q]| then l else qs[q].last, qs[q].nitems + 1)],
      c[q := InsertAt(c[q], k, l)])
  {
    var s := c[q];
    LinkedSpells(m, qs[q], q, s, k, l);
    assert NULL !in s by { if NULL in s { OnQueue(m, qs[q], q, s, NULL); } }
    InsertedMembers(s, k, l);
    OneQueueRewritten(m, qs, c, Linked(m, q, At(s, k - 1), At(s, k), l),
                      Queue(if k == 0 then l else qs[q].first, if k == |s| then l else qs[q].last, qs[q].nitems + 1),
                      q, InsertAt(s, k, l), NULL, l);
  }

  /** Unlinking a link removes it from its sequence. */
  lemma RemoveRefines(m: seq<Link>, qs: seq<Queue>, c: seq<seq<int>>, q: nat, k: nat)
    requires Refines(m, qs, c) && q < |c| && k < |c[q]|
    ensures -1 <= At(c[q], k - 1) < |m| && -1 <= At(c[q], k + 1) < |m|
    ensures RefinesBut(
      Unlinked(m, At(c[q], k - 1), At(c[q], k + 1)),
      qs[q := Queue(if k == 0 then At(c[q], 1) else qs[q].first,
                    if k == |c[q]| - 1 then At(c[q], k - 1) else qs[q].last,
                    qs[q].nitems - 1)],
      c[q := RemoveAt(c[q], k)], c[q][k])
  {
    var s := c[q];
    UnlinkedSpells(m, qs[q], q, s, k);
    RemovedMembers(s, k);
    OneQueueRewritten(m, qs, c, Unlinked(m, At(s, k - 1), At(s, k + 1)),
                      Queue(if k == 0 then At(s, 1) else qs[q].first,
                            if k == |s| - 1 then At(s, k - 1) else qs[q].last,
                            qs[q].nitems - 1),
                      q, RemoveAt(s, k), s[k], NULL);
  }

  /** A link that is on no queue may be overwritten. */
  lemma DetachedLink(m: seq<Link>, qs: seq<Queue>, c: seq<seq<int>>, l: int, r: Link)
    requires RefinesBut(m, qs, c, l) && 0 <= l < |m|
    ensures RefinesBut(m[l := r], qs, c, l)
    ensures r.queue == NULL ==> Refines(m[l := r], qs, c)
  {
    var m' := m[l := r];
    forall q | 0 <= q < |c|
      ensures Spells(m', qs[q], q, c[q]) && NULL !in c[q]
    {
      forall x | x in c[q] ensures 0 <= x < |m| && x != l { OnQueue(m, qs[q], q, c[q], x); }
      SpellsSame(m, m', qs[q], q, c[q]);
    }
  }

  /** What the record of a queue says about its sequence. */
  lemma QueueFacts(m: seq<Link>, qs: seq<Queue>, c: seq<seq<int>>, x: int, q: int)
    requires RefinesBut(m, qs, c, x) && 0 <= q < |qs|
    ensures |qs| == |c| && x !in c[q] && Spells(m, qs[q], q, c[q])
    ensures qs[q] == Queue(At(c[q], 0), At(c[q], |c[q]| - 1), |c[q]|)
    ensures c[q] == [] <==> qs[q].first == NULL
    ensures |c[q]| == 1 ==> qs[q].first == qs[q].last
    ensures c[q] != [] ==> 0 <= qs[q].first < |m| && 0 <= qs[q].last < |m|
    ensures c[q] != [] ==> m[qs[q].first].queue == q && m[qs[q].last].queue == q
    ensures c[q] != [] ==> qs[q].first != x && qs[q].last != x
    ensures forall l :: 0 <= l < |m| && l != x && m[l].queue == q ==> l in c[q]
  {
    var s := c[q];
    if s != [] {
      assert SpellsAt(m, q, s, 0) && SpellsAt(m, q, s, |s| - 1);
      assert s[0] in s && s[|s| - 1] in s;
    }
  }

  /** A link that names a queue is on it, between the neighbours it points to. */
  lemma LinkFacts(m: seq<Link>, qs: seq<Queue>, c: seq<seq<int>>, x: int, l: int) returns (k: int)
    requires RefinesBut(m, qs, c, x) && 0 <= l < |m| && l != x && m[l].queue != NULL
    ensures var q := m[l].queue;
      && |qs| == |c| && 0 <= q < |qs| && l in c[q]
      && Spells(m, qs[q], q, c[q]) && x !in c[q]
      && k == Index(c[q], l) && 0 <= k < |c[q]| && c[q][k] == l
      && m[l].prev == At(c[q], k - 1) && m[l].next == At(c[q], k + 1)
      && -1 <= m[l].prev < |m| && -1 <= m[l].next < |m| && m[l].prev != l && m[l].next != l
      && (x != NULL ==> m[l].prev != x && m[l].next != x)
      && (qs[q].first == l <==> k == 0) && (qs[q].last == l <==> k == |c[q]| - 1)
      && (k == 0 ==> m[l].prev == NULL) && (k == |c[q]| - 1 ==> m[l].next == NULL)
  {
    var q := m[l].queue;
    var s := c[q];
    k := Index(s, l);
    assert SpellsAt(m, q, s, k);
    NeighboursAreLinks(m, qs[q], q, s);
    if k > 0 { assert s[k - 1] in s; }
    if k + 1 < |s| { assert s[k + 1] in s; }
  }

  /** The sequence after `l` has been moved to the place right after `after`. */
  ghost function Relocated(s: seq<int>, l: int, after: int): seq<int>
    requires l in s && after in s && l != after && Distinct(s)
  {
    var t := RemoveAt(s, Index(s, l));
    RemovedMembers(s, Index(s, l));
    InsertAt(t, Index(t, after) + 1, l)
  }

  /** Unlinking the link at position `k` and linking it in again at position `j` of what is left
      relocates it in its sequence. */
  lemma MoveRefines(m: seq<Link>, qs: seq<Queue>, c: seq<seq<int>>, q: nat, k: nat, j: nat)
    requires Refines(m, qs, c) && q < |c| == |qs| && k < |c[q]| - 1 && 0 < j < |c[q]|
    requires -1 <= At(c[q], k - 1) < |m| && 0 <= At(c[q], k + 1) < |m| && 0 <= c[q][k] < |m|
    requires var t := RemoveAt(c[q], k); 0 <= At(t, j - 1) < |m| && -1 <= At(t, j) < |m|
    ensures var s := c[q];
      var t := RemoveAt(s, k);
      Refines(
        Linked(Unlinked(m, At(s, k - 1), At(s, k + 1)), q, At(t, j - 1), At(t, j), s[k]),
        qs[q := Queue(if k == 0 then At(s, 1) else qs[q].first, if j == |t| then s[k] else qs[q].last, qs[q].nitems)],
        c[q := InsertAt(t, j, s[k])])
  {
    hide Linked, Unlinked;
    var s := c[q];
    var t := RemoveAt(s, k);
    var r1 := Queue(if k == 0 then At(s, 1) else qs[q].first, qs[q].last, qs[q].nitems - 1);
    RemoveRefines(m, qs, c, q, k);
    hide RefinesBut;
    InsertRefines(Unlinked(m, At(s, k - 1), At(s, k + 1)), qs[q := r1], c[q := t], q, j, s[k]);
    assert c[q := t][q := InsertAt(t, j, s[k])] == c[q := InsertAt(t, j, s[k])];
    var r2 := Queue(r1.first, if j == |t| then s[k] else r1.last, r1.nitems + 1);
    assert qs[q := r1][q := r2] == qs[q := r2];
  }

  /** Where `after` ends up once `l` has been taken out: its successor there is its successor
      before, or the successor of `l` if that was `l`. */
  lemma AfterRemoval(m: seq<Link>, r: Queue, q: int, s: seq<int>, l: int, after: int) returns (k: int, j: int)
    requires Spells(m, r, q, s) && l in s && after in s && l != after && r.last != l
    ensures Distinct(s)
    ensures k == Index(s, l) && 0 <= k < |s| - 1
    ensures -1 <= At(s, k - 1) < |m| && 0 <= At(s, k + 1) < |m| && 0 <= l < |m| && 0 <= after < |m|
    ensures m[l].prev == At(s, k - 1) && m[l].next == At(s, k + 1)
    ensures var t := RemoveAt(s, k);
      && after in t && j == Index(t, after) + 1 && 0 < j <= |t| && At(t, j - 1) == after
      && -1 <= At(t, j) < |m| && At(t, j) != l && At(t, j) != after
      && Unlinked(m, At(s, k - 1), At(s, k + 1))[after].next == At(t, j)
      && (j == |t| <==> r.last == after)
      && m[l].prev != l && m[l].next != l && m[l].queue == q
      && Relocated(s, l, after) == InsertAt(t, j, l)
    ensures k == 0 <==> r.first == l
  {
    hide RemoveAt, InsertAt, Unlinked;
    k := Index(s, l);
    var t := RemoveAt(s, k);
    assert k < |s| - 1;
    assert SpellsAt(m, q, s, k) && SpellsAt(m, q, s, k + 1);
    RemovedMembers(s, k);
    NeighboursAreLinks(m, r, q, s);
    j := Index(t, after) + 1;
    UnlinkedSpells(m, r, q, s, k);
    var m1 := Unlinked(m, At(s, k - 1), At(s, k + 1));
    assert SpellsAt(m1, q, t, j - 1);
    if j < |t| { assert SpellsAt(m1, q, t, j); }
    OnQueue(m, r, q, s, after);
  }

  // ----- the module -----

  /** The queue of free links. */
  const FREE: nat := 0

  class LinkPool {
    const linkpool: array<Link>
    const queues: array<Queue>
    ghost var contents: seq<seq<int>>   // one sequence of links per queue

    /** The invariant while link `x` is between two queues. */
    ghost predicate ValidBut(x: int)
      reads this, linkpool, queues
    {
      && FREE < queues.Length
      && RefinesBut(linkpool[..], queues[..], contents, x)
    }

    ghost predicate Valid()
      reads this, linkpool, queues
    {
      ValidBut(NULL)
    }

    predicate IsLink(l: int) { 0 <= l < linkpool.Length }

    predicate IsQueue(q: int) { 0 <= q < queues.Length }

    /** The lines that AQueueAllocLink, AQueueRemove and AQueueMoveAfter share: make the
        neighbours of `l` point past it. */
    method Bypass(l: int)
      requires IsLink(l)
      requires -1 <= linkpool[l].prev < linkpool.Length && linkpool[l].prev != l
      requires -1 <= linkpool[l].next < linkpool.Length && linkpool[l].next != l
      modifies linkpool
      ensures linkpool[..] == Unlinked(old(linkpool[..]), old(linkpool[l].prev), old(linkpool[l].next))
    {
      if linkpool[l].prev != NULL { linkpool[linkpool[l].prev] := linkpool[linkpool[l].prev].(next := linkpool[l].next); }
      if linkpool[l].next != NULL { linkpool[linkpool[l].next] := linkpool[linkpool[l].next].(prev := linkpool[l].prev); }
    }

    /** The lines that AQueueInsertAfter and AQueueMoveAfter share: put `l` between `after` and
        what follows it. */
    method PlaceAfter(after: int, l: int)
      requires IsLink(l)
      requires after == NULL || (IsLink(after) && after != l)
      requires after != NULL ==> -1 <= linkpool[after].next < linkpool.Length && linkpool[after].next != l && linkpool[after].next != after
      modifies linkpool
      ensures linkpool[..] == Linked(old(linkpool[..]), old(linkpool[l].queue), after,
                                     if after != NULL then old(linkpool[after].next) else NULL, l)
    {
      linkpool[l] := linkpool[l].(prev := after);
      linkpool[l] := linkpool[l].(next := if after != NULL then linkpool[after].next else NULL);
      if after != NULL { linkpool[after] := linkpool[after].(next := l); }
      if linkpool[l].next != NULL { linkpool[linkpool[l].next] := linkpool[linkpool[l].next].(prev := l); }
    }

    /** AQueueInsertAfter.  The caller must not pass a link that is on a queue. */
    method InsertAfter(q: int, after: int, l: int) returns (ok: bool)
      requires l == NULL || IsLink(l)
      requires ValidBut(l)
      requires q == NULL || IsQueue(q)
      requires after == NULL || (IsLink(after) && after != l)
      modifies this`contents, linkpool, queues
      ensures ok <==> l != NULL && q != NULL
                      && if after != NULL then old(linkpool[after].queue) == q else old(contents[q]) == []
      ensures !ok ==> unchanged(this) && unchanged(linkpool) && unchanged(queues)
      ensures ok ==> Valid() && |contents| == |old(contents)|
      ensures forall i :: 0 <= i < linkpool.Length ==> linkpool[i].obj == old(linkpool[i].obj)
      ensures ok && after == NULL ==> contents == old(contents)[q := [l]]
      ensures ok && after != NULL ==>
        var s := old(contents[q]);
        after in s && contents == old(contents)[q := InsertAt(s, Index(s, after) + 1, l)]
    {
      hide RefinesBut, Spells, Index, InsertAt, Linked;
      if l == NULL { return false; }
      if q == NULL { return false; }
      QueueFacts(linkpool[..], queues[..], contents, l, q);
      ghost var m0, q0, s := linkpool[..], queues[..], contents[q];
      ghost var k: int := 0;
      if after != NULL {
        if linkpool[after].queue != q { return false; }
        var j := LinkFacts(m0, q0, contents, l, after);
        k := j + 1;
      } else {
        if queues[q].first != NULL { return false; }
        if queues[q].last != NULL { return false; }
        if queues[q].nitems != 0 { return false; }
      }
      InsertRefines(m0, q0, contents, q, k, l);
      ghost var next := At(s, k);

      linkpool[l] := linkpool[l].(queue := q);
      LinkedOverwrites(m0, linkpool[..], q, after, next, l);
      PlaceAfter(after, l);
      if after == NULL {
        queues[q] := Queue(l, l, 1);
      } else {
        if queues[q].last == after { queues[q] := queues[q].(last := l); }
        queues[q] := queues[q].(nitems := queues[q].nitems + 1);
      }
      assert queues[..] == q0[q := queues[q]];

      contents := contents[q := InsertAt(s, k, l)];
      if after == NULL { assert contents[q] == [l]; }
      return true;
    }

    /** AQueueInsertBefore.  The caller must not pass a link that is on a queue. */
    method InsertBefore(q: int, before: int, l: int) returns (ok: bool)
      requires l == NULL || IsLink(l)
      requires ValidBut(l)
      requires q == NULL || IsQueue(q)
      requires before == NULL || (IsLink(before) && before != l)
      modifies this`contents, linkpool, queues
      ensures ok <==> l != NULL && q != NULL
                      && if before != NULL then old(linkpool[before].queue) == q else old(contents[q]) == []
      ensures !ok ==> unchanged(this) && unchanged(linkpool) && unchanged(queues)
      ensures ok ==> Valid() && |contents| == |old(contents)|
      ensures forall i :: 0 <= i < linkpool.Length ==> linkpool[i].obj == old(linkpool[i].obj)
      ensures ok && before == NULL ==> contents == old(contents)[q := [l]]
      ensures ok && before != NULL ==>
        var s := old(contents[q]);
        before in s && contents == old(contents)[q := InsertAt(s, Index(s, before), l)]
    {
      hide RefinesBut, Spells, Index, InsertAt;
      if l == NULL { return false; }
      if q == NULL { return false; }
      QueueFacts(linkpool[..], queues[..], contents, l, q);
      ghost var m0, q0, s := linkpool[..], queues[..], contents[q];
      ghost var k: int := 0;
      if before != NULL {
        if linkpool[before].queue != q { return false; }
        k := LinkFacts(m0, q0, contents, l, before);
      } else {
        if queues[q].first != NULL { return false; }
        if queues[q].last != NULL { return false; }
        if queues[q].nitems != 0 { return false; }
      }
      InsertRefines(m0, q0, contents, q, k, l);
      ghost var prev := At(s, k - 1);

      linkpool[l] := linkpool[l].(queue := q, next := before,
                                  prev := if before != NULL then linkpool[before].prev else NULL);
      assert linkpool[l].prev == prev;
      if before != NULL { linkpool[before] := linkpool[before].(prev := l); }
      if linkpool[l].prev != NULL { linkpool[linkpool[l].prev] := linkpool[linkpool[l].prev].(next := l); }
      assert linkpool[..] == Linked(m0, q, prev, before, l);
      if before == NULL {
        queues[q] := Queue(l, l, 1);
      } else {
        if queues[q].first == before { queues[q] := queues[q].(first := l); }
        queues[q] := queues[q].(nitems := queues[q].nitems + 1);
      }
      assert queues[..] == q0[q := queues[q]];

      contents := contents[q := InsertAt(s, k, l)];
      if before == NULL { assert contents[q] == [l]; }
      return true;
    }

    /** AQueueInsertFirst */
    method InsertFirst(q: int, l: int) returns (ok: bool)
      requires l == NULL || IsLink(l)
      requires ValidBut(l)
      requires q == NULL || IsQueue(q)
      modifies this`contents, linkpool, queues
      ensures ok <==> l != NULL && q != NULL
      ensures !ok ==> unchanged(this) && unchanged(linkpool) && unchanged(queues)
      ensures ok ==> Valid() && contents == old(contents)[q := [l] + old(contents[q])]
      ensures forall i :: 0 <= i < linkpool.Length ==> linkpool[i].obj == old(linkpool[i].obj)
    {
      hide RefinesBut, Spells;
      if l == NULL { return false; }
      if q == NULL { return false; }
      QueueFacts(linkpool[..], queues[..], contents, l, q);
      ghost var s := contents[q];
      ok := InsertBefore(q, queues[q].first, l);
      if s != [] { assert InsertAt(s, 0, l) == [l] + s; } else { assert [l] + s == [l]; }
    }

    /** AQueueInsertLast */
    method InsertLast(q: int, l: int) returns (ok: bool)
      requires l == NULL || IsLink(l)
      requires ValidBut(l)
      requires q == NULL || IsQueue(q)
      modifies this`contents, linkpool, queues
      ensures ok <==> l != NULL && q != NULL
      ensures !ok ==> unchanged(this) && unchanged(linkpool) && unchanged(queues)
      ensures ok ==> Valid() && contents == old(contents)[q := old(contents[q]) + [l]]
      ensures forall i :: 0 <= i < linkpool.Length ==> linkpool[i].obj == old(linkpool[i].obj)
    {
      hide RefinesBut, Spells;
      if l == NULL { return false; }
      if q == NULL { return false; }
      QueueFacts(linkpool[..], queues[..], contents, l, q);
      ghost var s := contents[q];
      if s != [] { var k := LinkFacts(linkpool[..], queues[..], contents, l, queues[q].last); }
      ok := InsertAfter(q, queues[q].last, l);
      if s != [] { assert InsertAt(s, |s|, l) == s + [l]; } else { assert s + [l] == [l]; }
    }

    /** AQueueAllocLink: the first free link, or NULL. */
    method AllocLink(obj: nat) returns (l: int)
      requires Valid()
      modifies this`contents, linkpool, queues
      ensures Valid()
      ensures l == NULL <==> old(contents[FREE]) == []
      ensures l == NULL ==> unchanged(this) && unchanged(linkpool) && unchanged(queues)
      ensures l != NULL ==>
        && l == old(contents[FREE])[0] && IsLink(l)
        && contents == old(contents)[FREE := old(contents[FREE])[1..]]
        && linkpool[l] == Link(NULL, NULL, NULL, obj)
        && ValidBut(l)
      ensures forall i :: 0 <= i < linkpool.Length && i != l ==> linkpool[i].obj == old(linkpool[i].obj)
    {
      hide RefinesBut, Spells, Index;
      QueueFacts(linkpool[..], queues[..], contents, NULL, FREE);
      ghost var m0, q0, s := linkpool[..], queues[..], contents[FREE];
      if queues[FREE].nitems == 0 { return NULL; }
      l := queues[FREE].first;
      if l == NULL { return NULL; }
      ghost var k := LinkFacts(m0, q0, contents, NULL, l);
      RemoveRefines(m0, q0, contents, FREE, 0);

      if queues[FREE].first == l { queues[FREE] := queues[FREE].(first := linkpool[l].next); }
      if queues[FREE].last == l { queues[FREE] := queues[FREE].(last := linkpool[l].prev); }
      queues[FREE] := queues[FREE].(nitems := queues[FREE].nitems - 1);
      Bypass(l);

      contents := contents[FREE := RemoveAt(s, 0)];
      linkpool[l] := Link(NULL, NULL, NULL, obj);
      assert queues[..] == q0[FREE := queues[FREE]];
      DetachedLink(Unlinked(m0, NULL, At(s, 1)), queues[..], contents, l, linkpool[l]);
      assert linkpool[..] == Unlinked(m0, NULL, At(s, 1))[l := linkpool[l]];
      assert RemoveAt(s, 0) == s[1..];
    }

    /** AQueueRemove: unlink `l` from its queue and put it on the free list.  The caller's
        pointer becomes NULL on success. */
    method Remove(l: int) returns (ok: bool, pl: int)
      requires Valid()
      requires l == NULL || IsLink(l)
      modifies this`contents, linkpool, queues
      ensures Valid()
      ensures ok <==> l != NULL && old(linkpool[l].queue) != NULL
      ensures pl == if ok then NULL else l
      ensures !ok ==> unchanged(this) && unchanged(linkpool) && unchanged(queues)
      ensures ok ==>
        var q := old(linkpool[l].queue);
        && 0 <= q < |old(contents)| && l in old(contents)[q]
        && var c := old(contents)[q := RemoveAt(old(contents)[q], Index(old(contents)[q], l))];
           contents == c[FREE := c[FREE] + [l]]
      ensures forall i :: 0 <= i < linkpool.Length ==> linkpool[i].obj == old(linkpool[i].obj)
    {
      hide RefinesBut, Spells, Index, RemoveAt, Unlinked;
      if l == NULL { return false, l; }
      var q := linkpool[l].queue;
      if q == NULL { return false, l; }
      ghost var k := LinkFacts(linkpool[..], queues[..], contents, NULL, l);
      ghost var m0, q0, s := linkpool[..], queues[..], contents[q];
      RemoveRefines(m0, q0, contents, q, k);

      if queues[q].first == l { queues[q] := queues[q].(first := linkpool[l].next); }
      if queues[q].last == l { queues[q] := queues[q].(last := linkpool[l].prev); }
      Bypass(l);
      queues[q] := queues[q].(nitems := queues[q].nitems - 1);
      assert queues[..] == q0[q := queues[q]];
      contents := contents[q := RemoveAt(s, k)];

      ok := InsertLast(FREE, l);
      return true, NULL;
    }

    /** AQueueMoveAfter: move `l` to the place after `after` on its own queue.  Moving the last
        link of a queue is refused. */
    method MoveAfter(q: int, after: int, l: int) returns (ok: bool)
      requires Valid()
      requires q == NULL || IsQueue(q)
      requires l == NULL || IsLink(l)
      requires after == NULL || IsLink(after)
      modifies this`contents, linkpool, queues
      ensures Valid()
      ensures ok <==> && q != NULL && l != NULL && old(linkpool[l].queue) == q
                      && if after == NULL then |old(contents[q])| == 1
                         else old(linkpool[after].queue) == q && (after == l || old(queues[q].last) != l)
      ensures (!ok || after == NULL || after == l) ==> unchanged(this) && unchanged(linkpool) && unchanged(queues)
      ensures ok && after != NULL && after != l ==>
        var s := old(contents[q]);
        && l in s && after in s && Distinct(s)
        && contents == old(contents)[q := Relocated(s, l, after)]
      ensures forall i :: 0 <= i < linkpool.Length ==> linkpool[i].obj == old(linkpool[i].obj)
    {
      hide RefinesBut, Spells, Index, RemoveAt, InsertAt, Relocated, Distinct, At, Linked;
      if q == NULL { return false; }
      if l == NULL { return false; }
      if linkpool[l].queue != q { return false; }
      QueueFacts(linkpool[..], queues[..], contents, NULL, q);
      if after == NULL {
        if queues[q].nitems != 1 { return false; }
        if queues[q].first != queues[q].last { return false; }
        return true;
      }
      if linkpool[after].queue != q { return false; }
      if after == l { return true; }
      if queues[q].last == l { return false; }
      ghost var m0, q0, s := linkpool[..], queues[..], contents[q];
      ghost var k, j := AfterRemoval(m0, q0[q], q, s, l, after);
      ghost var t := RemoveAt(s, k);
      MoveRefines(m0, q0, contents, q, k, j);

      if queues[q].first == l { queues[q] := queues[q].(first := linkpool[l].next); }
      if queues[q].last == after { queues[q] := queues[q].(last := l); }
      assert queues[..] == q0[q := queues[q]];
      Bypass(l);
      PlaceAfter(after, l);
      contents := contents[q := Relocated(s, l, after)];
      return true;
    }

    /** AQueueInit.  Queues are initialised while they are empty: the links of a longer queue
        would be lost. */
    method Init(q: int) returns (ok: bool)
      requires Valid()
      requires q == NULL || (IsQueue(q) && contents[q] == [])
      modifies queues
      ensures Valid() && (ok <==> q != NULL)
    {
      if q == NULL { return false; }
      QueueFacts(linkpool[..], queues[..], contents, NULL, q);
      ghost var q0 := queues[..];
      queues[q] := Queue(NULL, NULL, 0);
      assert queues[..] == q0;
      return true;
    }

    /** The static arrays as the program starts, and then AQueueModuleInit: all links are free,
        all other queues empty. */
    constructor (nLinks: nat, nQueues: nat)
      requires FREE < nQueues
      ensures Valid() && fresh(linkpool) && fresh(queues)
      ensures linkpool.Length == nLinks && queues.Length == nQueues == |contents|
      ensures |contents[FREE]| == nLinks && forall q :: 0 < q < nQueues ==> contents[q] == []
    {
      linkpool := new Link[nLinks](_ => Link(NULL, NULL, NULL, 0));
      queues := new Queue[nQueues](_ => Queue(NULL, NULL, 0));
      contents := seq(nQueues, _ => []);
      new;
      for i := 0 to nLinks
        invariant fresh(linkpool) && fresh(queues) && |contents| == nQueues && |contents[FREE]| == i
        invariant Valid()
        invariant forall l :: l in contents[FREE] ==> l < i
        invariant forall q :: 0 < q < nQueues ==> contents[q] == []
      {
        assert linkpool[i].queue == NULL by {
          if linkpool[i].queue != NULL { var k := LinkFacts(linkpool[..], queues[..], contents, NULL, i); }
        }
        DetachedIsFree(linkpool[..], queues[..], contents, i);
        var ok := InsertLast(FREE, i);
      }
    }
  }

  /** A link that names no queue is on none. */
  lemma DetachedIsFree(m: seq<Link>, qs: seq<Queue>, c: seq<seq<int>>, l: int)
    requires Refines(m, qs, c) && 0 <= l < |m| && m[l].queue == NULL
    ensures RefinesBut(m, qs, c, l)
  {
    forall q | 0 <= q < |c| ensures l !in c[q] {
      if l in c[q] { OnQueue(m, qs[q], q, c[q], l); }
    }
  }

  // ----- no link is lost -----

  /** The number of links on the first `n` queues. */
  function Queued(c: seq<seq<int>>, n: nat): nat
    requires n <= |c|
  {
    if n == 0 then 0 else Queued(c, n - 1) + |c[n - 1]|
  }

  ghost function Detached(m: seq<Link>): set<int> {
    set l | 0 <= l < |m| && m[l].queue == NULL
  }

  lemma {:induction false} QueuedCount(m: seq<Link>, qs: seq<Queue>, c: seq<seq<int>>, n: nat)
    requires Refines(m, qs, c) && n <= |c|
    ensures var on := set l | 0 <= l < |m| && 0 <= m[l].queue < n; |on| == Queued(c, n)
  {
    var on := set l | 0 <= l < |m| && 0 <= m[l].queue < n;
    if n == 0 {
      assert on == {};
    } else {
      QueuedCount(m, qs, c, n - 1);
      var before := set l | 0 <= l < |m| && 0 <= m[l].queue < n - 1;
      forall l | l in c[n - 1] ensures 0 <= l < |m| && m[l].queue == n - 1 { OnQueue(m, qs[n - 1], n - 1, c[n - 1], l); }
      assert on == before + Members(c[n - 1]);
      DistinctCount(c[n - 1]);
    }
  }

  /** Free links, links on the other queues and detached links add up to the pool. */
  lemma NoLinkIsLost(m: seq<Link>, qs: seq<Queue>, c: seq<seq<int>>)
    requires Refines(m, qs, c)
    ensures Queued(c, |c|) + |Detached(m)| == |m|
  {
    QueuedCount(m, qs, c, |c|);
    var on := set l | 0 <= l < |m| && 0 <= m[l].queue < |c|;
    assert Below(|m|) == on + Detached(m);
  }

  /** No link is on two queues, or twice on one. */
  lemma QueuesAreDisjoint(m: seq<Link>, qs: seq<Queue>, c: seq<seq<int>>, q: nat, i: nat, q': nat, i': nat)
    requires Refines(m, qs, c) && q < |c| && q' < |c| && i < |c[q]| && i' < |c[q']|
    requires c[q][i] == c[q'][i']
    ensures q == q' && i == i'
  {
    OnQueue(m, qs[q], q, c[q], c[q][i]);
    OnQueue(m, qs[q'], q', c[q'], c[q'][i']);
  }
}
