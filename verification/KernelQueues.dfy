/** How the kernel's queues hold processes: every link on a queue points to a PCB, and the `l`
    field of a PCB is its link on one of the four process queues. */
module KernelQueues {
  import opened Queues
  import opened Sequences

  // The queues: the free links, the four process queues, then those of the synchronisation objects.
  const FREEPCBS: nat := 1
  const RUNQUEUE: nat := 2
  const WAITQUEUE: nat := 3
  const ZOMBIEQUEUE: nat := 4
  const OBJECTS: nat := 5

  predicate IsProcessQueue(q: int) { FREEPCBS <= q <= ZOMBIEQUEUE }

  /** The link at place `i` of queue `q` holds the process at place `i` of `w`. */
  ghost predicate CarriesAt(m: seq<Link>, l: seq<int>, q: int, s: seq<int>, w: seq<nat>, i: int)
    requires 0 <= i < |s| == |w|
  {
    && 0 <= s[i] < |m| && m[s[i]].obj == w[i] && w[i] < |l|
    && (IsProcessQueue(q) ==> l[w[i]] == s[i])
  }

  ghost predicate Carries(m: seq<Link>, l: seq<int>, q: int, s: seq<int>, w: seq<nat>) {
    && |s| == |w|
    && forall i {:trigger CarriesAt(m, l, q, s, w, i)} :: 0 <= i < |s| ==> CarriesAt(m, l, q, s, w, i)
  }

  /** All queues but that of the free links hold the processes `who`. */
  ghost predicate AllCarry(m: seq<Link>, l: seq<int>, c: seq<seq<int>>, who: seq<seq<nat>>) {
    && |who| == |c|
    && forall q {:trigger Carries(m, l, q, c[q], who[q])} :: 0 < q < |c| ==> Carries(m, l, q, c[q], who[q])
  }

  /** `m'` holds the same objects, except perhaps in link `x`. */
  ghost predicate SameObjects(m: seq<Link>, m': seq<Link>, x: int) {
    |m'| == |m| && forall i :: 0 <= i < |m| && i != x ==> m'[i].obj == m[i].obj
  }

  /** A queue that does not use link `x`, and holds no process whose `l` changes. */
  lemma StillCarries(m: seq<Link>, l: seq<int>, m': seq<Link>, l': seq<int>, q: int, s: seq<int>, w: seq<nat>,
          x: int, p: nat)
    requires Carries(m, l, q, s, w) && SameObjects(m, m', x) && x !in s
    requires |l'| == |l| && (forall i :: 0 <= i < |l| && i != p ==> l'[i] == l[i])
    requires IsProcessQueue(q) ==> p !in w || l' == l
    ensures Carries(m', l', q, s, w)
  {
    forall i | 0 <= i < |s| ensures CarriesAt(m', l', q, s, w, i) {
      assert CarriesAt(m, l, q, s, w, i) && s[i] in s && w[i] in w;
    }
  }

  lemma CarriesMore(m: seq<Link>, l: seq<int>, q: int, s: seq<int>, w: seq<nat>, x: int, p: nat)
    requires Carries(m, l, q, s, w)
    requires 0 <= x < |m| && m[x].obj == p && p < |l| && (IsProcessQueue(q) ==> l[p] == x)
    ensures Carries(m, l, q, s + [x], w + [p]) && Carries(m, l, q, [x] + s, [p] + w)
  {
    var s1, w1, s2, w2 := s + [x], w + [p], [x] + s, [p] + w;
    forall i | 0 <= i < |s1| ensures CarriesAt(m, l, q, s1, w1, i) {
      if i < |s| { assert CarriesAt(m, l, q, s, w, i); }
    }
    forall i | 0 <= i < |s2| ensures CarriesAt(m, l, q, s2, w2, i) {
      if i > 0 { assert CarriesAt(m, l, q, s, w, i - 1); }
    }
  }

  lemma CarriesLess(m: seq<Link>, l: seq<int>, q: int, s: seq<int>, w: seq<nat>, k: nat)
    requires Carries(m, l, q, s, w) && k < |s|
    ensures Carries(m, l, q, RemoveAt(s, k), RemoveAt(w, k))
  {
    var s', w' := RemoveAt(s, k), RemoveAt(w, k);
    forall i | 0 <= i < |s'| ensures CarriesAt(m, l, q, s', w', i) {
      assert CarriesAt(m, l, q, s, w, if i < k then i else i + 1);
    }
  }

  /** The link of a process on a process queue, and its place. */
  lemma PlaceOf(m: seq<Link>, qs: seq<Queue>, l: seq<int>, c: seq<seq<int>>, who: seq<seq<nat>>, q: int,
          p: nat) returns (k: nat)
    requires Refines(m, qs, c) && AllCarry(m, l, c, who) && IsProcessQueue(q) && q < |c| && p in who[q]
    ensures p < |l| && k < |c[q]| == |who[q]| && who[q][k] == p && c[q][k] == l[p]
    ensures l[p] in c[q] && Index(c[q], l[p]) == k
    ensures 0 <= l[p] < |m| && m[l[p]].queue == q
  {
    assert Carries(m, l, q, c[q], who[q]);
    k :| 0 <= k < |who[q]| && who[q][k] == p;
    assert CarriesAt(m, l, q, c[q], who[q], k);
    assert Spells(m, qs[q], q, c[q]);
    OnQueue(m, qs[q], q, c[q], l[p]);
    var j := Index(c[q], l[p]);
    assert j == k;
  }

  /** Taking a process off its queue: the link goes to the free links. */
  lemma AfterTake(m: seq<Link>, qs: seq<Queue>, l: seq<int>, c: seq<seq<int>>, who: seq<seq<nat>>,
          m': seq<Link>, c': seq<seq<int>>, q: int, k: nat, p: nat)
    requires Refines(m, qs, c) && AllCarry(m, l, c, who) && IsProcessQueue(q) && q < |c|
    requires p < |l| && k < |c[q]| == |who[q]| && who[q][k] == p && c[q][k] == l[p]
    requires SameObjects(m, m', NULL)
    requires c' == c[q := RemoveAt(c[q], k)][FREE := c[FREE] + [l[p]]]
    ensures AllCarry(m', l[p := NULL], c', who[q := RemoveAt(who[q], k)])
  {
    hide RefinesBut, Carries, SameObjects, RemoveAt;
    var l', who' := l[p := NULL], who[q := RemoveAt(who[q], k)];
    forall x | 0 < x < |c|
      ensures Carries(m', l', x, c'[x], who'[x])
    {
      assert Carries(m, l, x, c[x], who[x]);
      if x == q { CarriesLess(m, l, q, c[q], who[q], k); }
      if IsProcessQueue(x) { NotTwice(m, qs, l, c, who, q, k, x, p); }
      NullIsNoLink(m, l, x, c'[x], if x == q then RemoveAt(who[q], k) else who[x]);
      StillCarries(m, l, m', l', x, c'[x], who'[x], NULL, p);
    }
  }

  lemma NullIsNoLink(m: seq<Link>, l: seq<int>, q: int, s: seq<int>, w: seq<nat>)
    requires Carries(m, l, q, s, w)
    ensures NULL !in s
  {
    forall i | 0 <= i < |s| ensures s[i] != NULL { assert CarriesAt(m, l, q, s, w, i); }
  }

  /** A process at place `k` of process queue `q` is at no other place of any process queue. */
  lemma NotTwice(m: seq<Link>, qs: seq<Queue>, l: seq<int>, c: seq<seq<int>>, who: seq<seq<nat>>, q: int,
          k: nat, x: int, p: nat)
    requires Refines(m, qs, c) && AllCarry(m, l, c, who) && IsProcessQueue(q) && q < |c| && IsProcessQueue(x) && x < |c|
    requires p < |l| && k < |c[q]| == |who[q]| && who[q][k] == p && c[q][k] == l[p]
    ensures p !in (if x == q then RemoveAt(who[q], k) else who[x])
  {
    assert Carries(m, l, x, c[x], who[x]);
    forall i | 0 <= i < |who[x]| && who[x][i] == p
      ensures x == q && i == k
    {
      assert CarriesAt(m, l, x, c[x], who[x], i);
      QueuesAreDisjoint(m, qs, c, q, k, x, i);
    }
  }

  /** Putting process `p` on queue `q` with a link from the free links. */
  lemma AfterPut(m: seq<Link>, l: seq<int>, c: seq<seq<int>>, who: seq<seq<nat>>, m': seq<Link>, l': seq<int>,
          c': seq<seq<int>>, q: int, x: int, p: nat, front: bool)
    requires AllCarry(m, l, c, who) && 0 < q < |c| && p < |l|
    requires 0 <= x < |m| && SameObjects(m, m', x) && m'[x].obj == p
    requires forall j :: 0 < j < |c| ==> x !in c[j]
    requires |c'| == |c| && forall j :: 0 < j < |c| ==>
              c'[j] == if j != q then c[j] else if front then [x] + c[q] else c[q] + [x]
    requires if IsProcessQueue(q) then l' == l[p := x] && forall j :: IsProcessQueue(j) && j < |c| ==>
              p !in who[j] else l' == l
    ensures AllCarry(m', l', c', who[q := if front then [p] + who[q] else who[q] + [p]])
  {
    hide Carries;
    var who' := who[q := if front then [p] + who[q] else who[q] + [p]];
    forall j | 0 < j < |c|
      ensures Carries(m', l', j, c'[j], who'[j])
    {
      assert Carries(m, l, j, c[j], who[j]);
      StillCarries(m, l, m', l', j, c[j], who[j], x, p);
      if j == q { CarriesMore(m', l', q, c[q], who[q], x, p); }
    }
  }

  /** A link that is on no queue, as a statement about every queue. */
  lemma NotElsewhere(m: seq<Link>, qs: seq<Queue>, c: seq<seq<int>>, x: int)
    requires RefinesBut(m, qs, c, x)
    ensures forall j :: 0 < j < |c| ==> x !in c[j]
  {
  }

  /** The first link and the first process of a queue that is not empty. */
  lemma FirstOf(m: seq<Link>, qs: seq<Queue>, l: seq<int>, c: seq<seq<int>>, who: seq<seq<nat>>, q: int)
    requires Refines(m, qs, c) && AllCarry(m, l, c, who) && 0 < q < |c| && (c[q] != [] || (q < |who| && who[q] != []))
    ensures |c| == |qs| && |c[q]| == |who[q]| > 0 && qs[q].first == c[q][0] && 0 <= c[q][0] < |m|
    ensures m[c[q][0]].obj == who[q][0] && m[c[q][0]].queue == q && Index(c[q], c[q][0]) == 0
  {
    assert Carries(m, l, q, c[q], who[q]);
    assert CarriesAt(m, l, q, c[q], who[q], 0);
    QueueFacts(m, qs, c, NULL, q);
  }

  /** Taking the first process off the queue of an object. */
  lemma AfterDequeue(m: seq<Link>, qs: seq<Queue>, l: seq<int>, c: seq<seq<int>>, who: seq<seq<nat>>,
          m': seq<Link>, c': seq<seq<int>>, q: int)
    requires Refines(m, qs, c) && AllCarry(m, l, c, who) && OBJECTS <= q < |c| && |c[q]| == |who[q]| > 0
    requires SameObjects(m, m', NULL)
    requires c' == c[q := RemoveAt(c[q], 0)][FREE := c[FREE] + [c[q][0]]]
    ensures AllCarry(m', l, c', who[q := who[q][1..]])
  {
    hide RefinesBut, Carries, SameObjects, RemoveAt;
    var who' := who[q := who[q][1..]];
    assert who[q][1..] == RemoveAt(who[q], 0);
    forall x | 0 < x < |c|
      ensures Carries(m', l, x, c'[x], who'[x])
    {
      assert Carries(m, l, x, c[x], who[x]);
      if x == q { CarriesLess(m, l, q, c[q], who[q], 0); }
      NullIsNoLink(m, l, x, c'[x], who'[x]);
      StillCarries(m, l, m', l, x, c'[x], who'[x], NULL, 0);
    }
  }

  // ----- the round-robin move -----

  /** Moving the first link of a queue behind the last one rotates its processes. */
  lemma AfterRotate(m: seq<Link>, l: seq<int>, c: seq<seq<int>>, who: seq<seq<nat>>, m': seq<Link>, q: int)
    requires AllCarry(m, l, c, who) && 0 < q < |c| && |c[q]| > 1 && Distinct(c[q])
    requires SameObjects(m, m', NULL)
    ensures c[q][0] in c[q] && c[q][|c[q]| - 1] in c[q] && |who[q]| == |c[q]|
    ensures AllCarry(m', l, c[q := Relocated(c[q], c[q][0], c[q][|c[q]| - 1])], who[q := who[q][1..] + [who[q][0]]])
    ensures Relocated(c[q], c[q][0], c[q][|c[q]| - 1]) == c[q][1..] + [c[q][0]]
  {
    var s, w := c[q], who[q];
    assert Carries(m, l, q, s, w);
    RotatedLinks(s);
    var c', who' := c[q := s[1..] + [s[0]]], who[q := w[1..] + [w[0]]];
    forall x | 0 < x < |c|
      ensures Carries(m', l, x, c'[x], who'[x])
    {
      assert Carries(m, l, x, c[x], who[x]);
      if x == q { RotatedCarries(m, l, q, s, w); }
      NullIsNoLink(m, l, x, c'[x], who'[x]);
      StillCarries(m, l, m', l, x, c'[x], who'[x], NULL, 0);
    }
  }

  lemma RotatedLinks(s: seq<int>)
    requires |s| > 1 && Distinct(s)
    ensures s[0] in s && s[|s| - 1] in s && Relocated(s, s[0], s[|s| - 1]) == s[1..] + [s[0]]
  {
    var t := RemoveAt(s, 0);
    assert t == s[1..];
    assert Index(t, s[|s| - 1]) == |t| - 1;
    assert InsertAt(t, |t|, s[0]) == t + [s[0]];
  }

  lemma RotatedCarries(m: seq<Link>, l: seq<int>, q: int, s: seq<int>, w: seq<nat>)
    requires Carries(m, l, q, s, w) && |s| > 0
    ensures Carries(m, l, q, s[1..] + [s[0]], w[1..] + [w[0]])
  {
    var s', w' := s[1..] + [s[0]], w[1..] + [w[0]];
    forall i | 0 <= i < |s| ensures CarriesAt(m, l, q, s', w', i) {
      assert CarriesAt(m, l, q, s, w, if i < |s| - 1 then i + 1 else 0);
    }
  }

  // ----- there is always a free link -----

  /** How many processes the queues hold in all. */
  function Occupancy(ws: seq<seq<nat>>): nat {
    if ws == [] then 0 else Occupancy(ws[..|ws| - 1]) + |ws[|ws| - 1]|
  }

  /** Queues that hold different processes, all from one set, hold no more than that set. */
  lemma {:induction false} DisjointQueues(ws: seq<seq<nat>>, all: set<int>)
    requires forall i :: 0 <= i < |ws| ==> Distinct(ws[i]) && Members(ws[i]) <= all
    requires forall i, j, p :: 0 <= i < j < |ws| && p in ws[i] ==> p !in ws[j]
    ensures Occupancy(ws) <= |all|
    decreases |ws|
  {
    if ws != [] {
      var n := |ws| - 1;
      DistinctCount(ws[n]);
      forall i | 0 <= i < n ensures Members(ws[i]) <= all - Members(ws[n]) {
        forall p | p in ws[i] ensures p !in ws[n] { }
      }
      DisjointQueues(ws[..n], all - Members(ws[n]));
      assert |all - Members(ws[n])| == |all| - |ws[n]|;
    }
  }

  /** The links on all queues are the free ones and those that hold a process. */
  lemma {:induction false} LinksInUse(m: seq<Link>, l: seq<int>, c: seq<seq<int>>, who: seq<seq<nat>>, n: nat)
    requires AllCarry(m, l, c, who) && 0 < n <= |c|
    ensures Queued(c, n) == |c[FREE]| + Occupancy(who[1..n])
    decreases n
  {
    if n == 1 {
      assert Queued(c, 0) == 0;
    } else {
      assert Carries(m, l, n - 1, c[n - 1], who[n - 1]);
      LinksInUse(m, l, c, who, n - 1);
      var ws := who[1..n];
      assert ws[..|ws| - 1] == who[1..n - 1];
    }
  }

  lemma {:induction false} OccupancySplit(ws: seq<seq<nat>>, k: nat)
    requires k <= |ws|
    ensures Occupancy(ws) == Occupancy(ws[..k]) + Occupancy(ws[k..])
    decreases |ws|
  {
    if k < |ws| {
      var n := |ws| - 1;
      OccupancySplit(ws[..n], k);
      assert ws[..n][..k] == ws[..k] && ws[..n][k..] == ws[k..][..n - k];
    } else {
      assert ws[..k] == ws && ws[k..] == [];
    }
  }

  /** The queues from `a` to `b` hold different processes, all below `n`, and not `p`. */
  ghost predicate Separate(who: seq<seq<nat>>, a: nat, b: nat, n: nat) {
    && a <= b <= |who|
    && (forall q :: a <= q < b ==> Distinct(who[q]) && forall x :: x in who[q] ==> x < n)
    && (forall q, r, x :: a <= q < r < b && x in who[q] ==> x !in who[r])
  }

  ghost predicate OnNone(who: seq<seq<nat>>, a: nat, b: nat, p: nat)
    requires a <= b <= |who|
  {
    forall q :: a <= q < b ==> p !in who[q]
  }

  lemma RangeOccupancy(who: seq<seq<nat>>, a: nat, b: nat, n: nat, p: nat)
    requires Separate(who, a, b, n) && p < n
    ensures Occupancy(who[a..b]) <= n
    ensures OnNone(who, a, b, p) ==> Occupancy(who[a..b]) < n
  {
    var ws := who[a..b];
    forall i | 0 <= i < |ws| ensures ws[i] == who[a + i] { }
    DisjointQueues(ws, Below(n));
    if OnNone(who, a, b, p) { DisjointQueues(ws, Below(n) - {p}); }
  }

  /** If no process is on two process queues or on two queues of objects, and one is missing on
      either side, then two links per process leave one free. */
  lemma SpareLink(m: seq<Link>, l: seq<int>, c: seq<seq<int>>, who: seq<seq<nat>>, n: nat, p: nat)
    requires AllCarry(m, l, c, who) && |c| >= OBJECTS && Queued(c, |c|) == |m| >= 2 * n && p < n
    requires Separate(who, 1, OBJECTS, n) && Separate(who, OBJECTS, |who|, n)
    requires OnNone(who, 1, OBJECTS, p) || OnNone(who, OBJECTS, |who|, p)
    ensures c[FREE] != []
  {
    hide Separate, OnNone, Occupancy;
    LinksInUse(m, l, c, who, |c|);
    var ws := who[1..|c|];
    OccupancySplit(ws, OBJECTS - 1);
    assert ws[..OBJECTS - 1] == who[1..OBJECTS] && ws[OBJECTS - 1..] == who[OBJECTS..|who|];
    RangeOccupancy(who, 1, OBJECTS, n, p);
    RangeOccupancy(who, OBJECTS, |who|, n, p);
  }
}
