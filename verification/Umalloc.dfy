/** The allocator of user/umalloc.c over a heap of header-sized units. An
    address is a number of units. */
module Umalloc {
  /** The static header `base`, below all memory `sbrk` gives. */
  const BASE: nat := 1
  const UNIT := 16

  /** What a unit of heap memory is part of: a block of the free list, or an allocated one. */
  datatype Owner = Spare(start: nat) | Used(start: nat)

  /** `ptr` and `size` are the header fields at each address; `list` is the free
      list in address order; `live` gives the size of each allocated block. */
  datatype St = St(ptr: map<nat, nat>, size: map<nat, nat>, list: seq<nat>, own: map<nat, Owner>, live: map<nat, nat>)

  function After(list: seq<nat>, i: nat): nat
    requires i < |list|
  {
    if i + 1 < |list| then list[i + 1] else list[0]
  }

  /** `ptr` leads around the list. */
  predicate Linked(ptr: map<nat, nat>, list: seq<nat>) {
    forall i | 0 <= i < |list| :: list[i] in ptr && ptr[list[i]] == After(list, i)
  }

  /** Free blocks are in address order and no two of them touch. */
  predicate Apart(list: seq<nat>, size: map<nat, nat>) {
    && (forall i | 0 <= i < |list| :: list[i] in size && (if i == 0 then list[i] == BASE && size[list[i]] == 0 else size[list[i]] > 0))
    && (forall i, j | 0 <= i < j < |list| :: list[i] + size[list[i]] < list[j])
  }

  /** Every unit belongs to exactly one block, free or allocated, and every block is made of its own units. */
  predicate Partition(s: St) {
    && (forall a | a in s.list :: a in s.size)
    && (forall a | a in s.live :: s.live[a] > 0 && a in s.size && s.size[a] == s.live[a])
    && (forall x | x in s.own :: BASE < x && Belongs(s, x))
    && (forall a | a in s.list :: Labelled(s.own, a, a + s.size[a], Spare(a)))
    && (forall a | a in s.live :: Labelled(s.own, a, a + s.live[a], Used(a)))
  }

  predicate Labelled(own: map<nat, Owner>, lo: nat, hi: nat, o: Owner) {
    forall x | lo <= x < hi :: x in own && own[x] == o
  }

  predicate Belongs(s: St, x: nat)
    requires x in s.own && forall a | a in s.list :: a in s.size
  {
    match s.own[x]
    case Spare(a) => a in s.list && a <= x < a + s.size[a]
    case Used(a) => a in s.live && a <= x < a + s.live[a]
  }

  predicate Inv(s: St) {
    |s.list| > 0 && Linked(s.ptr, s.list) && Apart(s.list, s.size) && Partition(s)
  }

  function Relabel(own: map<nat, Owner>, lo: nat, hi: nat, o: Owner): map<nat, Owner> {
    map x | x in own :: if lo <= x < hi then o else own[x]
  }

  // ---------------------------------------------------------------- free

  /** The free block after which `bp` belongs. */
  predicate Place(list: seq<nat>, bp: nat, k: nat) {
    k < |list| && list[k] < bp && (k + 1 < |list| ==> bp < list[k + 1])
  }

  /** How many steps along the list lead from the block at `i` to the one at `k`. */
  function Steps(n: nat, i: nat, k: nat): nat
    requires i < n && k < n
  {
    if i <= k then k - i else n - i + k
  }

  lemma NotSpare(s: St, bp: nat, q: nat)
    requires Inv(s) && bp in s.live && q in s.list
    ensures (q == bp ==> s.size[q] == 0) && (q < bp ==> q + s.size[q] <= bp) && (bp < q && 0 < s.size[q] ==> bp + s.live[bp] <= q)
  {
    hide Linked, Apart, Belongs;
    assert Labelled(s.own, bp, bp + s.live[bp], Used(bp));
    assert Labelled(s.own, q, q + s.size[q], Spare(q));
    assert bp in s.own && s.own[bp] == Used(bp);
    assert s.size[q] > 0 ==> q in s.own && s.own[q] == Spare(q);
  }

  lemma HasPlace(s: St, bp: nat) returns (k: nat)
    requires Inv(s) && bp in s.live
    ensures Place(s.list, bp, k)
  {
    assert s.own[bp] == Used(bp);
    k := 0;
    while k + 1 < |s.list| && s.list[k + 1] <= bp
      invariant k < |s.list| && s.list[k] < bp
    {
      NotSpare(s, bp, s.list[k + 1]);
      k := k + 1;
    }
  }

  /** It is the highest free block below `bp`. */
  lemma PlaceIs(s: St, bp: nat, k: nat)
    requires Inv(s) && Place(s.list, bp, k)
    ensures s.list[k] in s.list && s.list[k] < bp && forall a | a in s.list :: a <= s.list[k] || bp < a
  {
    hide Partition, Linked;
    forall a | a in s.list ensures a <= s.list[k] || bp < a {
      var i :| 0 <= i < |s.list| && s.list[i] == a;
      assert i < k ==> s.list[i] + s.size[s.list[i]] < s.list[k];
      assert k + 1 < i ==> s.list[k + 1] + s.size[s.list[k + 1]] < s.list[i];
    }
  }

  /** `free`'s test for the end of its search succeeds at the right place only. */
  lemma SearchStops(s: St, bp: nat, k: nat, i: nat)
    requires Inv(s) && Place(s.list, bp, k) && i < |s.list|
    ensures var p, q := s.list[i], After(s.list, i);
            ((bp > p && bp < q) || (p >= q && (bp > p || bp < q))) <==> i == k
  {
    hide Partition, Linked;
    assert s.list[0] == BASE;
    if i < k {
      assert i + 1 == k || s.list[i + 1] < s.list[k];
    }
    if k < i {
      assert k + 1 == i || s.list[k + 1] < s.list[i];
    }
  }

  /** The free block ends before `bp` or right at it, and `bp` before or right at the next. */
  lemma Neighbours(s: St, bp: nat, k: nat)
    requires Inv(s) && bp in s.live && Place(s.list, bp, k)
    ensures s.list[k] + s.size[s.list[k]] <= bp
    ensures k + 1 < |s.list| ==> bp + s.live[bp] <= s.list[k + 1]
  {
    NotSpare(s, bp, s.list[k]);
    if k + 1 < |s.list| {
      NotSpare(s, bp, s.list[k + 1]);
    }
  }

  predicate JoinsUp(s: St, bp: nat, k: nat)
    requires k < |s.list| && bp in s.live
  {
    k + 1 < |s.list| && bp + s.live[bp] == s.list[k + 1]
  }

  predicate JoinsDown(s: St, bp: nat, k: nat)
    requires k < |s.list| && s.list[k] in s.size
  {
    s.list[k] + s.size[s.list[k]] == bp
  }

  /** The blocks `lo` to `hi - 1` of a list replaced by one. */
  function Spliced(list: seq<nat>, lo: nat, hi: nat, start: nat): seq<nat>
    requires lo <= hi <= |list|
  {
    list[..lo] + [start] + list[hi..]
  }

  lemma SpliceApart(list: seq<nat>, size: map<nat, nat>, lo: nat, hi: nat, start: nat, end: nat, size': map<nat, nat>)
    requires Apart(list, size) && 1 <= lo <= hi <= |list| && start < end
    requires list[lo - 1] + size[list[lo - 1]] < start && (hi < |list| ==> end < list[hi])
    requires start in size' && size'[start] == end - start
    requires forall i | (0 <= i < lo || hi <= i < |list|) && list[i] != start :: list[i] in size' && size'[list[i]] == size[list[i]]
    ensures Apart(Spliced(list, lo, hi, start), size')
  {
    var all := Spliced(list, lo, hi, start);
    forall i | 0 <= i < |all| ensures all[i] == if i < lo then list[i] else if i == lo then start else list[hi + (i - lo - 1)] {
    }
    assert forall i | 0 <= i < lo :: list[i] < start;
    assert forall i | hi <= i < |list| :: end < list[i];
    forall i, j | 0 <= i < j < |all| ensures all[i] in size' && all[i] + size'[all[i]] < all[j] {
      SplicePair(list, size, lo, hi, start, end, i, j);
    }
  }

  lemma SplicePair(list: seq<nat>, size: map<nat, nat>, lo: nat, hi: nat, start: nat, end: nat, i: nat, j: nat)
    requires Apart(list, size) && 1 <= lo <= hi <= |list| && start < end
    requires list[lo - 1] + size[list[lo - 1]] < start && (hi < |list| ==> end < list[hi])
    requires i < j <= |list| + lo - hi
    ensures var i', j' := if i < lo then i else hi + (i - lo - 1), if j < lo then j else hi + (j - lo - 1);
            if i == lo then end < list[j']
            else if j == lo then list[i'] + size[list[i']] < start
            else list[i'] + size[list[i']] < list[j']
  {
  }

  /** What a splice keeps, element by element. */
  ghost predicate Replaces(list: seq<nat>, all: seq<nat>, gone: set<nat>, start: nat) {
    && (start in list ==> start in gone)
    && forall a :: a in all <==> a == start || (a in list && a !in gone)
  }

  lemma SpliceHas(list: seq<nat>, lo: nat, hi: nat, start: nat)
    requires lo <= hi <= |list|
    ensures start in Spliced(list, lo, hi, start)
    ensures forall i | 0 <= i < lo || hi <= i < |list| :: list[i] in Spliced(list, lo, hi, start)
  {
    var all := Spliced(list, lo, hi, start);
    assert all[lo] == start;
    forall i | 0 <= i < lo || hi <= i < |list| ensures list[i] in all {
      assert all[if i < lo then i else lo + 1 + (i - hi)] == list[i];
    }
  }

  lemma SpliceOnly(list: seq<nat>, lo: nat, hi: nat, start: nat, a: nat) returns (i: nat)
    requires lo <= hi <= |list| && a in Spliced(list, lo, hi, start) && a != start
    ensures (i < lo || hi <= i < |list|) && list[i] == a
  {
    var all := Spliced(list, lo, hi, start);
    var j :| 0 <= j < |all| && all[j] == a;
    i := if j < lo then j else hi + (j - lo - 1);
  }

  /** The units from `start` to `end`, of an allocated block and of the free
      blocks in `gone`, become one free block. */
  ghost predicate Frees(s: St, t: St, bp: nat, gone: set<nat>, start: nat, end: nat)
    requires Partition(s) && bp in s.live
  {
    && Replaces(s.list, t.list, gone, start) && start < end
    && (forall a | a in gone :: a in s.list && start <= a && a + s.size[a] <= end)
    && start <= bp && bp + s.live[bp] <= end
    && (forall x | start <= x < end :: x in s.own && (s.own[x] == Used(bp) || (s.own[x].Spare? && s.own[x].start in gone)))
    && t.live == s.live - {bp} && t.own == Relabel(s.own, start, end, Spare(start))
    && start in t.size && t.size[start] == end - start
    && (forall a | a in s.list && a !in gone :: a in t.size && t.size[a] == s.size[a])
    && (forall a | a in s.live && a != bp :: a in t.size && t.size[a] == s.size[a])
  }

  lemma FreesPartition(s: St, t: St, bp: nat, gone: set<nat>, start: nat, end: nat)
    requires Partition(s) && bp in s.live && Frees(s, t, bp, gone, start, end)
    ensures Partition(t) && t.own.Keys == s.own.Keys
  {
    hide Partition, Belongs, Labelled, Replaces;
    FreesSpare(s, t, bp, gone, start, end);
    FreesUsed(s, t, bp, gone, start, end);
    FreesAll(s, t, bp, gone, start, end);
    IsPartition(t);
  }

  lemma IsPartition(t: St)
    requires forall a | a in t.list :: a in t.size && Labelled(t.own, a, a + t.size[a], Spare(a))
    requires forall a | a in t.live :: t.live[a] > 0 && a in t.size && t.size[a] == t.live[a] && Labelled(t.own, a, a + t.live[a], Used(a))
    requires forall x | x in t.own :: BASE < x && Belongs(t, x)
    ensures Partition(t)
  {
    hide Labelled, Belongs;
  }

  lemma FreesAll(s: St, t: St, bp: nat, gone: set<nat>, start: nat, end: nat)
    requires Partition(s) && bp in s.live && Frees(s, t, bp, gone, start, end)
    requires forall a | a in t.list :: a in t.size
    ensures forall x | x in t.own :: BASE < x && Belongs(t, x)
  {
    hide Partition, Belongs, Labelled, Frees;
    forall x | x in t.own ensures BASE < x && Belongs(t, x) {
      FreesBelongs(s, t, bp, gone, start, end, x);
    }
  }

  lemma FreesSpare(s: St, t: St, bp: nat, gone: set<nat>, start: nat, end: nat)
    requires Partition(s) && bp in s.live && Frees(s, t, bp, gone, start, end)
    ensures forall a | a in t.list :: a in t.size && Labelled(t.own, a, a + t.size[a], Spare(a))
  {
    hide Belongs, Labelled, Relabel;
    forall a | a in t.list ensures a in t.size && Labelled(t.own, a, a + t.size[a], Spare(a)) {
      if a == start {
        NewLabel(s.own, start, end, Spare(start));
      } else {
        KeepsLabel(s.own, start, end, Spare(start), a, a + s.size[a], Spare(a));
      }
    }
  }

  lemma FreesUsed(s: St, t: St, bp: nat, gone: set<nat>, start: nat, end: nat)
    requires Partition(s) && bp in s.live && Frees(s, t, bp, gone, start, end)
    ensures forall a | a in t.live :: t.live[a] > 0 && a in t.size && t.size[a] == t.live[a] && Labelled(t.own, a, a + t.live[a], Used(a))
  {
    hide Belongs, Labelled, Replaces, Relabel;
    forall a | a in t.live ensures Labelled(t.own, a, a + t.live[a], Used(a)) {
      KeepsLabel(s.own, start, end, Spare(start), a, a + s.live[a], Used(a));
    }
  }

  lemma NewLabel(own: map<nat, Owner>, start: nat, end: nat, o: Owner)
    requires forall x | start <= x < end :: x in own
    ensures Labelled(Relabel(own, start, end, o), start, end, o)
  {
  }

  lemma KeepsLabel(own: map<nat, Owner>, start: nat, end: nat, new': Owner, lo: nat, hi: nat, o: Owner)
    requires Labelled(own, lo, hi, o) && forall x | start <= x < end && x in own :: own[x] != o
    ensures Labelled(Relabel(own, start, end, new'), lo, hi, o)
  {
  }

  lemma FreesBelongs(s: St, t: St, bp: nat, gone: set<nat>, start: nat, end: nat, x: nat)
    requires Partition(s) && bp in s.live && Frees(s, t, bp, gone, start, end) && x in t.own
    requires forall a | a in t.list :: a in t.size
    ensures BASE < x && Belongs(t, x)
  {
    hide Labelled;
    assert x in s.own && Belongs(s, x);
    if start <= x < end {
      assert t.own[x] == Spare(start);
    } else {
      assert t.own[x] == s.own[x];
    }
  }

  // ---------------------------------------------------------------- joining a block

  /** The free block that takes in `bp`, and the places of the blocks it replaces. */
  datatype Join = Join(lo: nat, hi: nat, start: nat, end: nat)

  function JoinOf(s: St, bp: nat, k: nat): Join
    requires k < |s.list| && bp in s.live && forall a | a in s.list :: a in s.size
  {
    var down, up := JoinsDown(s, bp, k), JoinsUp(s, bp, k);
    Join(if down then k else k + 1, if up then k + 2 else k + 1,
         if down then s.list[k] else bp, if up then s.list[k + 1] + s.size[s.list[k + 1]] else bp + s.live[bp])
  }

  /** `t` is `s` with the allocated block `bp` joined to the free list after its `k`-th block. */
  ghost predicate Joined(s: St, t: St, bp: nat, k: nat)
    requires Inv(s) && bp in s.live && k < |s.list|
  {
    var j := JoinOf(s, bp, k);
    && t.list == Spliced(s.list, j.lo, j.hi, j.start)
    && t.live == s.live - {bp} && t.own == Relabel(s.own, j.start, j.end, Spare(j.start))
    && j.start in t.size && t.size[j.start] == j.end - j.start
    && (forall a | (a in s.list || a in s.live) && a != bp && a != j.start :: a in t.size && t.size[a] == s.size[a])
    && Linked(t.ptr, t.list)
  }

  lemma JoinDone(s: St, t: St, bp: nat, k: nat)
    requires Inv(s) && bp in s.live && Place(s.list, bp, k) && Joined(s, t, bp, k)
    ensures Inv(t) && t.own.Keys == s.own.Keys
  {
    hide Linked, Relabel;
    var j := JoinOf(s, bp, k);
    Neighbours(s, bp, k);
    NotSpareAll(s, bp);
    SpliceApart(s.list, s.size, j.lo, j.hi, j.start, j.end, t.size);
    JoinFrees(s, t, bp, k);
    FreesPartition(s, t, bp, Touched(s, bp, k), j.start, j.end);
  }

  lemma NotSpareAll(s: St, bp: nat)
    requires Inv(s) && bp in s.live
    ensures bp !in s.list && BASE < bp && s.live[bp] > 0
  {
    assert s.own[bp] == Used(bp);
    if bp in s.list {
      NotSpare(s, bp, bp);
    }
  }

  /** The free blocks `bp` joins. */
  function Touched(s: St, bp: nat, k: nat): set<nat>
    requires k < |s.list| && bp in s.live && s.list[k] in s.size
  {
    (if JoinsDown(s, bp, k) then {s.list[k]} else {}) + (if JoinsUp(s, bp, k) then {s.list[k + 1]} else {})
  }

  lemma JoinReplaces(s: St, bp: nat, k: nat)
    requires Inv(s) && bp in s.live && Place(s.list, bp, k)
    ensures var j := JoinOf(s, bp, k); Replaces(s.list, Spliced(s.list, j.lo, j.hi, j.start), Touched(s, bp, k), j.start)
  {
    hide Partition, Linked, Apart, JoinOf, Touched, Spliced;
    assert bp !in s.list && forall a | a in s.list :: a in s.size by {
      NotSpareAll(s, bp);
      Sized(s);
    }
    JoinKeeps(s, bp, k);
    JoinLeaves(s, bp, k);
  }

  /** What is in the list afterwards: the joined block, and what it did not touch. */
  lemma JoinLeaves(s: St, bp: nat, k: nat)
    requires Apart(s.list, s.size) && bp in s.live && k < |s.list| && (forall a | a in s.list :: a in s.size)
    ensures var j := JoinOf(s, bp, k);
            && j.lo <= j.hi <= |s.list|
            && forall a | a in Spliced(s.list, j.lo, j.hi, j.start) && a != j.start :: a in s.list && a !in Touched(s, bp, k)
  {
    hide Apart, Touched, Spliced;
    var j := JoinOf(s, bp, k);
    forall a | a in Spliced(s.list, j.lo, j.hi, j.start) && a != j.start ensures a in s.list && a !in Touched(s, bp, k) {
      var i := SpliceOnly(s.list, j.lo, j.hi, j.start, a);
      NotTouched(s, bp, k, i);
    }
  }

  lemma JoinKeeps(s: St, bp: nat, k: nat)
    requires k < |s.list| && bp in s.live && bp !in s.list && (forall a | a in s.list :: a in s.size)
    ensures var j := JoinOf(s, bp, k);
            var all := Spliced(s.list, j.lo, j.hi, j.start);
            && j.start in all && (j.start in s.list ==> j.start in Touched(s, bp, k))
            && forall a | a in s.list && a !in Touched(s, bp, k) :: a in all
  {
    hide Spliced;
    var j := JoinOf(s, bp, k);
    SpliceHas(s.list, j.lo, j.hi, j.start);
    forall a | a in s.list && a !in Touched(s, bp, k) ensures a in Spliced(s.list, j.lo, j.hi, j.start) {
      var i :| 0 <= i < |s.list| && s.list[i] == a;
      assert i < j.lo || j.hi <= i;
    }
  }

  lemma NotTouched(s: St, bp: nat, k: nat, i: nat)
    requires Apart(s.list, s.size) && bp in s.live && k < |s.list| && i < |s.list| && forall a | a in s.list :: a in s.size
    requires i < JoinOf(s, bp, k).lo || JoinOf(s, bp, k).hi <= i
    ensures s.list[i] in s.list && s.list[i] !in Touched(s, bp, k)
  {
    hide Apart;
    OneNode(s.list, s.size, i, k);
    if k + 1 < |s.list| {
      OneNode(s.list, s.size, i, k + 1);
    }
  }

  lemma OneNode(list: seq<nat>, size: map<nat, nat>, i: nat, k: nat)
    requires Apart(list, size) && i < |list| && k < |list|
    ensures list[i] == list[k] ==> i == k
  {
    assert i < k ==> list[i] + size[list[i]] < list[k];
    assert k < i ==> list[k] + size[list[k]] < list[i];
  }

  lemma Sized(s: St)
    requires Partition(s)
    ensures forall a | a in s.list :: a in s.size
  {
  }

  lemma JoinFrees(s: St, t: St, bp: nat, k: nat)
    requires Inv(s) && bp in s.live && Place(s.list, bp, k) && Joined(s, t, bp, k)
    ensures var j := JoinOf(s, bp, k); Frees(s, t, bp, Touched(s, bp, k), j.start, j.end)
  {
    hide Linked, Relabel, Belongs, Labelled, Replaces, Apart;
    var j := JoinOf(s, bp, k);
    var gone := Touched(s, bp, k);
    NotSpareAll(s, bp);
    Neighbours(s, bp, k);
    JoinReplaces(s, bp, k);
    forall a | a in s.live ensures a !in s.list {
      NotSpareAll(s, a);
    }
    assert s.list[k] in s.list;
    forall x | j.start <= x < j.end
      ensures x in s.own && (s.own[x] == Used(bp) || (s.own[x].Spare? && s.own[x].start in gone))
    {
      JoinUnits(s, bp, k, x);
    }
  }

  /** The units of the joined block are those of `bp` and of the free blocks it touches. */
  lemma JoinUnits(s: St, bp: nat, k: nat, x: nat)
    requires Inv(s) && bp in s.live && k < |s.list| && JoinOf(s, bp, k).start <= x < JoinOf(s, bp, k).end
    ensures x in s.own
    ensures || s.own[x] == Used(bp)
            || (JoinsDown(s, bp, k) && s.own[x] == Spare(s.list[k]))
            || (JoinsUp(s, bp, k) && s.own[x] == Spare(s.list[k + 1]))
  {
    hide Linked, Apart, Belongs;
    var p := s.list[k];
    assert p in s.list && Labelled(s.own, p, p + s.size[p], Spare(p));
    assert Labelled(s.own, bp, bp + s.live[bp], Used(bp));
    if JoinsUp(s, bp, k) {
      var q := s.list[k + 1];
      assert q in s.list && Labelled(s.own, q, q + s.size[q], Spare(q));
    }
  }

  lemma SpliceLinked(ptr: map<nat, nat>, list: seq<nat>, size: map<nat, nat>, lo: nat, hi: nat, start: nat, ptr': map<nat, nat>)
    requires Linked(ptr, list) && Apart(list, size) && 1 <= lo <= hi <= |list|
    requires forall i | 0 <= i < lo - 1 || hi <= i < |list| :: list[i] in ptr' && ptr'[list[i]] == ptr[list[i]]
    requires list[lo - 1] in ptr' && ptr'[list[lo - 1]] == start
    requires start in ptr' && ptr'[start] == if hi < |list| then list[hi] else list[0]
    ensures Linked(ptr', Spliced(list, lo, hi, start))
  {
    hide Apart;
    var all := Spliced(list, lo, hi, start);
    forall i | 0 <= i < |all| ensures all[i] in ptr' && ptr'[all[i]] == After(all, i) {
      if i < lo - 1 {
        assert all[i] == list[i] && all[i + 1] == list[i + 1];
      } else if i > lo {
        assert all[i] == list[hi + (i - lo - 1)];
      }
    }
  }

  /** The header words `free` writes link the joined list. */
  lemma JoinLinked(s: St, bp: nat, k: nat, ptr': map<nat, nat>)
    requires Inv(s) && bp in s.live && Place(s.list, bp, k)
    requires var p := s.list[k];
             var x := if JoinsUp(s, bp, k) then After(s.list, k + 1) else After(s.list, k);
             ptr' == s.ptr[bp := x][p := if JoinsDown(s, bp, k) then x else bp]
    ensures var j := JoinOf(s, bp, k); Linked(ptr', Spliced(s.list, j.lo, j.hi, j.start))
  {
    hide Partition, Spliced;
    var j := JoinOf(s, bp, k);
    assert bp !in s.list && BASE < bp by {
      NotSpareAll(s, bp);
    }
    assert j.lo >= 1 && s.list[j.lo - 1] != bp && (JoinsDown(s, bp, k) ==> k >= 1) by {
      hide Linked;
    }
    hide Apart;
    forall i | 0 <= i < j.lo - 1 || j.hi <= i < |s.list| ensures s.list[i] in ptr' && ptr'[s.list[i]] == s.ptr[s.list[i]] {
      OneNode(s.list, s.size, i, k);
    }
    SpliceLinked(s.ptr, s.list, s.size, j.lo, j.hi, j.start, ptr');
  }

  // ---------------------------------------------------------------- malloc

  /** The end of the `i`-th free block, `n` units of it, becomes an allocated block. */
  predicate Carved(s: St, t: St, i: nat, n: nat)
    requires Inv(s) && 1 <= i < |s.list| && 0 < n <= s.size[s.list[i]]
  {
    var p := s.list[i];
    var rest := s.size[p] - n;
    && t.live == s.live[p + rest := n] && t.own == Relabel(s.own, p + rest, p + rest + n, Used(p + rest))
    && if rest == 0 then
         t.list == s.list[..i] + s.list[i + 1..] && t.size == s.size && t.ptr == s.ptr[s.list[i - 1] := s.ptr[p]]
       else t.list == s.list && t.size == s.size[p := rest][p + rest := n] && t.ptr == s.ptr
  }

  lemma CarveDone(s: St, t: St, i: nat, n: nat)
    requires Inv(s) && 1 <= i < |s.list| && 0 < n <= s.size[s.list[i]] && Carved(s, t, i, n)
    ensures Inv(t) && t.own.Keys == s.own.Keys && s.list[i] + s.size[s.list[i]] - n !in s.live
  {
    hide Linked, Partition, Carved;
    CarveUnits(s, i, n);
    CarveShape(s, t, i, n);
    CarvePartition(s, t, i, n);
  }

  lemma CarveUnits(s: St, i: nat, n: nat)
    requires Inv(s) && 1 <= i < |s.list| && 0 < n <= s.size[s.list[i]]
    ensures var p := s.list[i]; var a := p + s.size[p] - n;
            && p in s.list && a !in s.live && BASE < p && Labelled(s.own, p, p + s.size[p], Spare(p))
            && (a in s.list ==> a == p) && (forall b | b in s.live :: b != p)
  {
    hide Linked, Belongs;
    var p := s.list[i];
    var a := p + s.size[p] - n;
    assert p in s.list && Labelled(s.own, p, p + s.size[p], Spare(p));
    assert a in s.own && s.own[a] == Spare(p);
    assert p in s.own && s.own[p] == Spare(p);
    forall b | b in s.live ensures b != p && b != a {
      assert Labelled(s.own, b, b + s.live[b], Used(b));
      assert b in s.own && s.own[b] == Used(b);
    }
    if a in s.list {
      var k :| 0 <= k < |s.list| && s.list[k] == a;
      NotInside(s.list, s.size, i, k);
    }
  }

  lemma NotInside(list: seq<nat>, size: map<nat, nat>, i: nat, k: nat)
    requires Apart(list, size) && i < |list| && k < |list|
    ensures !(list[i] < list[k] < list[i] + size[list[i]])
  {
    assert k < i ==> list[k] + size[list[k]] < list[i];
    assert i < k ==> list[i] + size[list[i]] < list[k];
  }

  lemma CarveShape(s: St, t: St, i: nat, n: nat)
    requires Inv(s) && 1 <= i < |s.list| && 0 < n <= s.size[s.list[i]] && Carved(s, t, i, n)
    requires var a := s.list[i] + s.size[s.list[i]] - n; a in s.list ==> a == s.list[i]
    ensures |t.list| > 0 && Linked(t.ptr, t.list) && Apart(t.list, t.size)
  {
    hide Partition, Relabel, Linked;
    var p := s.list[i];
    if s.size[p] == n {
      assert |s.list| >= 2;
      RemoveShape(s.ptr, s.list, s.size, i);
    } else {
      var a := p + s.size[p] - n;
      forall x | 0 <= x < |s.list| ensures t.size[s.list[x]] == if x == i then s.size[p] - n else s.size[s.list[x]] {
        assert s.list[x] in s.list;
        assert x < i ==> s.list[x] + s.size[s.list[x]] < p;
        assert x > i ==> p + s.size[p] < s.list[x];
      }
    }
  }

  lemma RemoveShape(ptr: map<nat, nat>, list: seq<nat>, size: map<nat, nat>, i: nat)
    requires Linked(ptr, list) && Apart(list, size) && 1 <= i < |list|
    ensures list[i] in ptr && Linked(ptr[list[i - 1] := ptr[list[i]]], list[..i] + list[i + 1..])
    ensures Apart(list[..i] + list[i + 1..], size)
  {
    RemoveApart(list, size, i);
    forall x | 0 <= x < |list| && x != i - 1 ensures list[x] != list[i - 1] {
      assert x < i - 1 ==> list[x] + size[list[x]] < list[i - 1];
      assert i - 1 < x ==> list[i - 1] + size[list[i - 1]] < list[x];
    }
    RemoveLinked(ptr, list, i);
  }

  lemma RemoveApart(list: seq<nat>, size: map<nat, nat>, i: nat)
    requires Apart(list, size) && 1 <= i < |list|
    ensures Apart(list[..i] + list[i + 1..], size)
  {
  }

  lemma RemoveLinked(ptr: map<nat, nat>, list: seq<nat>, i: nat)
    requires Linked(ptr, list) && 1 <= i < |list| && forall x | 0 <= x < |list| && x != i - 1 :: list[x] != list[i - 1]
    ensures list[i] in ptr && Linked(ptr[list[i - 1] := ptr[list[i]]], list[..i] + list[i + 1..])
  {
    var out := list[..i] + list[i + 1..];
    forall x | 0 <= x < |out| ensures out[x] == list[if x < i then x else x + 1] {
    }
  }

  /** The units from `a` to the end of the free block `p` become an allocated block. */
  ghost predicate Carves(s: St, t: St, p: nat, a: nat, n: nat)
    requires Partition(s)
  {
    && p in s.list && p <= a && 0 < n && a + n == p + s.size[p] && a !in s.live && BASE < p
    && t.live == s.live[a := n] && t.own.Keys == s.own.Keys
    && (forall x | x in s.own :: t.own[x] == if a <= x < a + n then Used(a) else s.own[x])
    && (forall b :: b in t.list <==> b in s.list && (b != p || p < a))
    && (forall b | b in t.list :: b in t.size && t.size[b] == if b == p then a - p else s.size[b])
    && (forall b | b in t.live :: b in t.size && t.size[b] == t.live[b])
  }

  lemma CarvesPartition(s: St, t: St, p: nat, a: nat, n: nat)
    requires Partition(s) && Carves(s, t, p, a, n)
    ensures Partition(t)
  {
    hide Belongs, Labelled;
    SpareUnits(s, p);
    forall b | b in t.list ensures Labelled(t.own, b, b + t.size[b], Spare(b)) {
      SpareUnits(s, b);
      StillLabelled(s.own, t.own, a, a + n, Used(a), Spare(p), b, b + t.size[b], b + s.size[b], Spare(b));
    }
    forall b | b in t.live ensures t.live[b] > 0 && Labelled(t.own, b, b + t.live[b], Used(b)) {
      CarvesUsed(s, t, p, a, n, b);
    }
    forall x | x in t.own ensures BASE < x && Belongs(t, x) {
      CarvesBelongs(s, t, p, a, n, x);
    }
  }

  lemma SpareUnits(s: St, p: nat)
    requires Partition(s) && p in s.list
    ensures p in s.size && Labelled(s.own, p, p + s.size[p], Spare(p))
  {
  }

  lemma StillLabelled(own: map<nat, Owner>, own': map<nat, Owner>, start: nat, end: nat, now: Owner, was: Owner,
                      lo: nat, hi: nat, top: nat, o: Owner)
    requires own'.Keys == own.Keys && forall x | x in own :: own'[x] == if start <= x < end then now else own[x]
    requires Labelled(own, start, end, was) && Labelled(own, lo, top, o) && hi <= top && (o == was ==> hi <= start)
    ensures Labelled(own', lo, hi, o)
  {
  }

  lemma CarvesUsed(s: St, t: St, p: nat, a: nat, n: nat, b: nat)
    requires Partition(s) && Carves(s, t, p, a, n) && b in t.live
    ensures t.live[b] > 0 && Labelled(t.own, b, b + t.live[b], Used(b))
  {
    hide Belongs;
    SpareUnits(s, p);
    if b != a {
      assert s.live[b] > 0 && Labelled(s.own, b, b + s.live[b], Used(b));
      StillLabelled(s.own, t.own, a, a + n, Used(a), Spare(p), b, b + s.live[b], b + s.live[b], Used(b));
    }
  }

  lemma CarvesBelongs(s: St, t: St, p: nat, a: nat, n: nat, x: nat)
    requires Partition(s) && Carves(s, t, p, a, n) && x in t.own
    ensures (forall b | b in t.list :: b in t.size) && BASE < x && Belongs(t, x)
  {
    hide Labelled;
    assert x in s.own && Belongs(s, x);
    if a <= x < a + n {
      assert t.own[x] == Used(a);
    } else {
      assert t.own[x] == s.own[x];
    }
  }

  lemma CarvePartition(s: St, t: St, i: nat, n: nat)
    requires Inv(s) && 1 <= i < |s.list| && 0 < n <= s.size[s.list[i]] && Carved(s, t, i, n)
    ensures Partition(t) && t.own.Keys == s.own.Keys
  {
    hide Linked, Relabel, Belongs, Labelled, Apart;
    CarveUnits(s, i, n);
    CarveList(s, t, i, n);
    var p := s.list[i];
    var a := p + s.size[p] - n;
    Relabels(s.own, a, a + n, Used(a));
    CarvesPartition(s, t, p, a, n);
  }

  lemma Relabels(own: map<nat, Owner>, lo: nat, hi: nat, o: Owner)
    ensures var own' := Relabel(own, lo, hi, o);
            own'.Keys == own.Keys && forall x | x in own :: own'[x] == if lo <= x < hi then o else own[x]
  {
  }

  /** A block is still on the list unless all of it was taken. */
  lemma CarveList(s: St, t: St, i: nat, n: nat)
    requires Inv(s) && 1 <= i < |s.list| && 0 < n <= s.size[s.list[i]] && Carved(s, t, i, n)
    ensures forall b :: b in t.list <==> b in s.list && (b != s.list[i] || n < s.size[s.list[i]])
  {
    hide Linked, Partition, Relabel;
    if s.size[s.list[i]] == n {
      OneOut(s.list, s.size, i);
    }
  }

  lemma OneOut(list: seq<nat>, size: map<nat, nat>, i: nat)
    requires Apart(list, size) && i < |list|
    ensures forall b :: b in list[..i] + list[i + 1..] <==> b in list && b != list[i]
  {
    hide Apart;
    var rest := list[..i] + list[i + 1..];
    forall b | b in list && b != list[i] ensures b in rest {
      var x :| 0 <= x < |list| && list[x] == b;
      assert rest[if x < i then x else x - 1] == b;
    }
    forall b | b in rest ensures b in list && b != list[i] {
      var x :| 0 <= x < |rest| && rest[x] == b;
      OneNode(list, size, if x < i then x else x + 1, i);
    }
  }

  /** The units from `p` on, `n` of them. */
  function Region(p: nat, n: nat): (r: set<nat>)
    ensures forall x :: x in r <==> p <= x < p + n
  {
    if n == 0 then {} else Region(p, n - 1) + {p + n - 1}
  }

  /** A region from `sbrk`, above all others, as an allocated block. */
  function Extended(s: St, p: nat, nu: nat): St {
    s.(size := s.size[p := nu], live := s.live[p := nu], own := s.own + map x | x in Region(p, nu) :: Used(p))
  }

  lemma ExtendDone(s: St, p: nat, nu: nat)
    requires Inv(s) && 0 < nu && BASE < p && forall x | x in s.own :: x < p
    ensures Inv(Extended(s, p, nu)) && p !in s.live
    ensures Extended(s, p, nu).own.Keys == s.own.Keys + Region(p, nu)
  {
    hide Partition, Linked, Apart;
    NotFresh(s, p);
    ExtendPartition(s, p, nu);
    ExtendShape(s, p, nu);
  }

  lemma ExtendPartition(s: St, p: nat, nu: nat)
    requires Inv(s) && p !in s.list && p !in s.live && 0 < nu && BASE < p && forall x | x in s.own :: x < p
    ensures Partition(Extended(s, p, nu))
  {
    hide Belongs, Labelled, Linked, Apart;
    var t := Extended(s, p, nu);
    forall a | a in t.list ensures a in t.size && Labelled(t.own, a, a + t.size[a], Spare(a)) {
      MoreUnits(s.own, t.own, p, a, a + s.size[a], Spare(a));
    }
    forall a | a in t.live ensures Labelled(t.own, a, a + t.live[a], Used(a)) {
      ExtendUsed(s, p, nu, a);
    }
    forall x | x in t.own ensures BASE < x && Belongs(t, x) {
      ExtendBelongs(s, p, nu, x);
    }
  }

  lemma ExtendUsed(s: St, p: nat, nu: nat, a: nat)
    requires Inv(s) && p !in s.live && (forall x | x in s.own :: x < p) && a in Extended(s, p, nu).live
    ensures var t := Extended(s, p, nu); Labelled(t.own, a, a + t.live[a], Used(a))
  {
    hide Belongs, Labelled, Linked, Apart;
    var t := Extended(s, p, nu);
    if a == p {
      NewUnits(t.own, p, nu);
    } else {
      MoreUnits(s.own, t.own, p, a, a + s.live[a], Used(a));
    }
  }

  lemma NewUnits(own: map<nat, Owner>, p: nat, nu: nat)
    requires forall x | x in Region(p, nu) :: x in own && own[x] == Used(p)
    ensures Labelled(own, p, p + nu, Used(p))
  {
    assert forall x | p <= x < p + nu :: x in Region(p, nu);
  }

  lemma MoreUnits(own: map<nat, Owner>, own': map<nat, Owner>, p: nat, lo: nat, hi: nat, o: Owner)
    requires Labelled(own, lo, hi, o) && forall x | x in own :: x in own' && own'[x] == own[x]
    ensures Labelled(own', lo, hi, o)
  {
  }

  lemma NotFresh(s: St, p: nat)
    requires Inv(s) && BASE < p && forall x | x in s.own :: x < p
    ensures p !in s.list && p !in s.live
  {
    hide Belongs, Linked;
    forall i | 0 <= i < |s.list| ensures s.list[i] == BASE || s.list[i] in s.own {
      var a := s.list[i];
      assert a in s.list && Labelled(s.own, a, a + s.size[a], Spare(a));
    }
    forall a | a in s.live ensures a in s.own {
      assert Labelled(s.own, a, a + s.live[a], Used(a));
    }
  }

  lemma ExtendShape(s: St, p: nat, nu: nat)
    requires Inv(s) && p !in s.list
    ensures Apart(s.list, s.size[p := nu])
  {
    hide Partition, Linked;
    assert forall i | 0 <= i < |s.list| :: s.list[i] in s.list;
  }

  lemma ExtendBelongs(s: St, p: nat, nu: nat, x: nat)
    requires Inv(s) && p !in s.list && p !in s.live && BASE < p && x in Extended(s, p, nu).own
    requires forall x | x in s.own :: x < p
    ensures var t := Extended(s, p, nu); (forall a | a in t.list :: a in t.size) && BASE < x && Belongs(t, x)
  {
    hide Labelled, Apart, Linked;
    if x in s.own {
      assert Belongs(s, x);
    }
  }

  // ---------------------------------------------------------------- the header words

  function FreePtr(s: St, bp: nat, k: nat): map<nat, nat>
    requires bp in s.live && k < |s.list| && s.list[k] in s.size
  {
    var x := if JoinsUp(s, bp, k) then After(s.list, k + 1) else After(s.list, k);
    s.ptr[bp := x][s.list[k] := if JoinsDown(s, bp, k) then x else bp]
  }

  function FreeSize(s: St, bp: nat, k: nat): map<nat, nat>
    requires bp in s.live && k < |s.list| && bp in s.size && forall a | a in s.list :: a in s.size
  {
    var n := s.size[bp] + if JoinsUp(s, bp, k) then s.size[s.list[k + 1]] else 0;
    var size := if JoinsUp(s, bp, k) then s.size[bp := n] else s.size;
    if JoinsDown(s, bp, k) then size[s.list[k] := size[s.list[k]] + n] else size
  }

  function FreeState(s: St, bp: nat, k: nat): St
    requires Inv(s) && bp in s.live && k < |s.list|
  {
    var j := JoinOf(s, bp, k);
    St(FreePtr(s, bp, k), FreeSize(s, bp, k), Spliced(s.list, j.lo, j.hi, j.start),
       Relabel(s.own, j.start, j.end, Spare(j.start)), s.live - {bp})
  }

  /** The freed block lies within one free block. */
  predicate Within(s: St, bp: nat, n: nat) {
    exists a | a in s.list && a in s.size :: a <= bp && bp + n <= a + s.size[a]
  }

  lemma FreeDone(s: St, bp: nat, k: nat)
    requires Inv(s) && bp in s.live && Place(s.list, bp, k)
    ensures var t := FreeState(s, bp, k);
            Inv(t) && t.own.Keys == s.own.Keys && s.list[k] in t.list && Within(t, bp, s.live[bp])
  {
    hide Linked, Apart, Relabel, Labelled, Belongs;
    var t := FreeState(s, bp, k);
    var j := JoinOf(s, bp, k);
    JoinLinked(s, bp, k, t.ptr);
    FreeSizes(s, bp, k);
    JoinDone(s, t, bp, k);
    assert t.list[j.lo] == j.start;
    if !JoinsDown(s, bp, k) {
      assert t.list[k] == s.list[k];
    }
  }

  lemma FreeSizes(s: St, bp: nat, k: nat)
    requires Inv(s) && bp in s.live && Place(s.list, bp, k)
    ensures var j := JoinOf(s, bp, k);
            var size := FreeSize(s, bp, k);
            && j.start in size && size[j.start] == j.end - j.start && j.start <= bp && bp + s.live[bp] <= j.end
            && (forall a | (a in s.list || a in s.live) && a != bp && a != j.start :: a in size && size[a] == s.size[a])
  {
    hide Linked, Apart, Labelled, Belongs;
    Neighbours(s, bp, k);
  }

  // ---------------------------------------------------------------- walking around the list

  /** The place `d` steps after place `f`. */
  function Ahead(n: nat, f: nat, d: nat): nat
    requires f < n && d <= n
    ensures Ahead(n, f, d) < n
  {
    if f + d < n then f + d else f + d - n
  }

  /** The blocks 1 to `d - 1` steps after place `f` are too small. */
  predicate TooSmall(s: St, f: nat, d: nat, nunits: nat)
    requires f < |s.list| && d <= |s.list| + 1 && Headers(s)
  {
    forall e | 1 <= e < d :: s.size[s.list[Ahead(|s.list|, f, e)]] < nunits
  }

  predicate Headers(s: St) {
    forall i | 0 <= i < |s.list| :: s.list[i] in s.size
  }

  lemma SmallNone(s: St, f: nat, nunits: nat)
    requires Inv(s) && f < |s.list|
    ensures Headers(s) && TooSmall(s, f, 1, nunits)
  {
  }

  lemma SmallMore(s: St, f: nat, d: nat, nunits: nat)
    requires f < |s.list| && d <= |s.list| && Headers(s) && TooSmall(s, f, d, nunits)
    requires s.size[s.list[Ahead(|s.list|, f, d)]] < nunits
    ensures TooSmall(s, f, d + 1, nunits)
  {
  }

  /** After one `morecore` some block is large enough. */
  lemma NotAgain(s: St, from: nat, got: nat, nunits: nat, cores: nat)
    requires Headers(s) && NoneFits(s, nunits) && cores <= 1
    requires cores == 1 ==> nunits <= got && Within(s, from, got)
    ensures cores == 0
  {
    hide Within;
    if cores == 1 {
      BigBlock(s, from, got);
    }
  }

  lemma BigBlock(s: St, from: nat, got: nat)
    requires Headers(s) && Within(s, from, got)
    ensures exists i | 0 <= i < |s.list| :: got <= s.size[s.list[i]]
  {
    var a :| a in s.list && a in s.size && a <= from && from + got <= a + s.size[a];
    var i :| 0 <= i < |s.list| && s.list[i] == a;
    assert got <= s.size[s.list[i]];
  }

  /** Every free block is too small for the request. */
  predicate NoneFits(s: St, nunits: nat) {
    forall i | 0 <= i < |s.list| :: s.list[i] in s.size && s.size[s.list[i]] < nunits
  }

  /** `malloc`'s scan from `freep`, which is at place `f`, has taken `d` steps
      and met no block that is large enough before `p`. */
  ghost predicate Scan(s: St, freep: nat, f: nat, d: nat, prevp: nat, p: nat, nunits: nat) {
    && Inv(s) && f < |s.list| && s.list[f] == freep && 1 <= d <= |s.list|
    && prevp == s.list[Ahead(|s.list|, f, d - 1)] && p == s.list[Ahead(|s.list|, f, d)]
    && Headers(s) && TooSmall(s, f, d, nunits)
  }

  lemma ScanStart(s: St, freep: nat, nunits: nat) returns (f: nat)
    requires Inv(s) && freep in s.list
    ensures freep in s.ptr && f < |s.list| && Scan(s, freep, f, 1, freep, s.ptr[freep], nunits)
  {
    hide Partition, Apart, Linked, TooSmall;
    f :| 0 <= f < |s.list| && s.list[f] == freep;
    HeaderOf(s, f);
    NextAhead(s, f, 0);
    SmallNone(s, f, nunits);
  }

  lemma ScanHere(s: St, freep: nat, f: nat, d: nat, prevp: nat, p: nat, nunits: nat)
    requires Scan(s, freep, f, d, prevp, p, nunits)
    ensures p in s.size && p in s.ptr && freep in s.list && freep != 0 && 1 <= d <= |s.list| && f < |s.list|
    ensures var i := Ahead(|s.list|, f, d); s.list[i] == p && (i > 0 ==> prevp == s.list[i - 1])
    ensures NoneFits(s, nunits) ==> s.size[p] < nunits
  {
    hide Partition, Apart, Linked, TooSmall;
    HeaderOf(s, Ahead(|s.list|, f, d));
    HeaderOf(s, f);
  }

  lemma ScanNext(s: St, freep: nat, f: nat, d: nat, prevp: nat, p: nat, nunits: nat)
    requires Scan(s, freep, f, d, prevp, p, nunits) && p in s.size && p in s.ptr && s.size[p] < nunits
    ensures if p == freep then Headers(s) && NoneFits(s, nunits)
            else d < |s.list| && Scan(s, freep, f, d + 1, p, s.ptr[p], nunits)
  {
    hide Partition, Apart, Linked, TooSmall;
    FullTurn(s, f, d);
    SmallMore(s, f, d, nunits);
    if p == freep {
      AllTooSmall(s, f, nunits);
    } else {
      NextAhead(s, f, d);
    }
  }

  lemma AllTooSmall(s: St, f: nat, nunits: nat)
    requires f < |s.list| && Headers(s) && TooSmall(s, f, |s.list| + 1, nunits)
    ensures NoneFits(s, nunits)
  {
    forall i | 0 <= i < |s.list| ensures s.size[s.list[i]] < nunits {
      var e := if i > f then i - f else |s.list| - f + i;
      assert Ahead(|s.list|, f, e) == i;
    }
  }

  lemma NextAhead(s: St, f: nat, d: nat)
    requires Inv(s) && f < |s.list| && d < |s.list|
    ensures s.list[Ahead(|s.list|, f, d)] in s.ptr && s.ptr[s.list[Ahead(|s.list|, f, d)]] == s.list[Ahead(|s.list|, f, d + 1)]
  {
    hide Partition, Apart, Linked;
    HeaderOf(s, Ahead(|s.list|, f, d));
  }

  /** Only a full turn comes back to the start. */
  lemma FullTurn(s: St, f: nat, d: nat)
    requires Inv(s) && f < |s.list| && 1 <= d <= |s.list|
    ensures s.list[Ahead(|s.list|, f, d)] == s.list[f] <==> d == |s.list|
  {
    hide Linked, Partition;
    var i := Ahead(|s.list|, f, d);
    assert i < f ==> s.list[i] + s.size[s.list[i]] < s.list[f];
    assert f < i ==> s.list[f] + s.size[s.list[f]] < s.list[i];
  }

  // ---------------------------------------------------------------- sizes

  /** Units for a request: whole units for the bytes, and one for the header. */
  function Units(nbytes: nat): nat { (nbytes + UNIT - 1) / UNIT + 1 }

  /** A C `int` from an unsigned value. */
  function ToInt(x: nat): int {
    var y := x % 0x1_0000_0000;
    if y < 0x8000_0000 then y else y - 0x1_0000_0000
  }

  /** `sbrk` is asked for what `morecore` needs exactly below 2^27 units. */
  lemma SbrkArgument(nu: nat)
    ensures ToInt(nu * UNIT) == nu * UNIT <==> nu < 0x800_0000
  {
  }

  /** That is, for requests up to 2^31 - 32 bytes. */
  lemma LargestRequest(nbytes: nat)
    ensures ToInt(Units(nbytes) * UNIT) == Units(nbytes) * UNIT <==> nbytes <= 0x8000_0000 - 32
  {
    SbrkArgument(Units(nbytes));
  }

  lemma UnitsFor(nbytes: nat)
    ensures 0 < Units(nbytes) && nbytes <= (Units(nbytes) - 1) * UNIT
    ensures Units(nbytes) * UNIT < 0x8000_0000 <==> nbytes <= 0x8000_0000 - 32
  {
    LargestRequest(nbytes);
    SbrkArgument(Units(nbytes));
  }

  /** The first request of a program, and the largest of all: `malloc` comes to
      `morecore`, which would ask `sbrk` for one unit in place of 2^28 + 1. */
  method HugeRequest() returns (ap: nat, wrong: bool)
    ensures wrong && ap == 0
    ensures Units(0xFFFF_FFFF) == 0x1000_0001 && ToInt(Units(0xFFFF_FFFF) * UNIT) == UNIT
  {
    var heap := new Heap(BASE + 1);
    ghost var from, got, cores;
    ap, wrong, from, got, cores := heap.Malloc(0xFFFF_FFFF);
    assert Units(0xFFFF_FFFF) == 0x1000_0001;
  }

  class Heap {
    /** 0 before the first `malloc`. */
    var freep: nat
    var ptr: map<nat, nat>
    var size: map<nat, nat>
    /** The end of the memory `sbrk` has given. */
    var brk: nat
    ghost var list: seq<nat>
    ghost var own: map<nat, Owner>
    ghost var live: map<nat, nat>

    ghost function Now(): St
      reads this
    {
      St(ptr, size, list, own, live)
    }

    ghost predicate Valid()
      reads this
    {
      && BASE < brk && (forall x | x in own :: x < brk)
      && if freep == 0 then list == [] && own == map[] && live == map[] else Inv(Now()) && freep in list
    }

    constructor (start: nat)
      requires BASE < start
      ensures Valid() && freep == 0 && live == map[] && own == map[]
    {
      freep, ptr, size, brk := 0, map[], map[], start;
      list, own, live := [], map[], map[];
    }

    /** The search of `free`: from wherever `freep` is, the free block after
        which `bp` belongs. */
    method FindPlace(bp: nat) returns (p: nat, ghost k: nat)
      requires Inv(Now()) && freep in list && bp in live
      ensures p in list && p < bp && forall a | a in list :: a <= p || bp < a
      ensures Place(list, bp, k) && p == list[k]
    {
      hide Partition, Apart, Linked;
      k := HasPlace(Now(), bp);
      PlaceIs(Now(), bp, k);
      p := freep;
      ghost var i :| 0 <= i < |list| && list[i] == freep;
      HeaderOf(Now(), i);
      SearchStops(Now(), bp, k, i);
      while !(bp > p && bp < ptr[p])
        invariant 0 <= i < |list| && p == list[i] && p in ptr && ptr[p] == After(list, i)
        invariant ((bp > p && bp < ptr[p]) || (p >= ptr[p] && (bp > p || bp < ptr[p]))) <==> i == k
        decreases Steps(|list|, i, k)
      {
        if p >= ptr[p] && (bp > p || bp < ptr[p]) {
          break;
        }
        p := ptr[p];
        i := if i + 1 < |list| then i + 1 else 0;
        HeaderOf(Now(), i);
        SearchStops(Now(), bp, k, i);
      }
    }

    /** `free`. */
    method Free(ap: nat)
      requires Valid() && ap > 0 && ap - 1 in live
      modifies this`freep, this`ptr, this`size, this`list, this`own, this`live
      ensures Valid() && freep != 0 && live == old(live) - {ap - 1} && own.Keys == old(own.Keys)
      ensures Within(Now(), ap - 1, old(live)[ap - 1])
    {
      hide Partition, Apart, Linked, Within, Place, Relabel, Spliced, JoinOf, FreePtr, FreeSize, After;
      var bp := ap - 1;
      var p;
      ghost var k;
      p, k := FindPlace(bp);
      ghost var s := Now();
      FreeWords(s, bp, k);
      if bp + size[bp] == ptr[p] {
        size := size[bp := size[bp] + size[ptr[p]]];
        ptr := ptr[bp := ptr[ptr[p]]];
      } else {
        ptr := ptr[bp := ptr[p]];
      }
      if p + size[p] == bp {
        size := size[p := size[p] + size[bp]];
        ptr := ptr[p := ptr[bp]];
      } else {
        ptr := ptr[p := bp];
      }
      assert ptr == FreePtr(s, bp, k) && size == FreeSize(s, bp, k);
      FreeDone(s, bp, k);
      freep := p;
      list, own, live := FreeState(s, bp, k).list, FreeState(s, bp, k).own, FreeState(s, bp, k).live;
      assert Now() == FreeState(s, bp, k);
    }

    /** `sbrk`: fails, or gives memory above all it gave before. */
    method Sbrk(n: int) returns (p: int)
      requires 0 <= n && n % UNIT == 0
      modifies this`brk
      ensures if p == -1 then brk == old(brk) else old(brk) <= p && brk == p + n / UNIT
    {
      if * {
        p := -1;
      } else {
        var gap: int := *;
        p := if gap < 0 then brk else brk + gap;
        brk := p + n / UNIT;
      }
    }

    /** `morecore`. */
    method Morecore(nunits: nat) returns (r: nat, ghost from: nat, ghost got: nat)
      requires Valid() && freep != 0 && 0 < nunits < 0x800_0000
      modifies this
      ensures Valid() && freep != 0 && live == old(live) && old(brk) <= from
      ensures own.Keys == old(own.Keys) + Region(from, got)
      ensures if r == 0 then Now() == old(Now()) && freep == old(freep) && got == 0
              else r == freep && got == (if nunits < 4096 then 4096 else nunits) && Within(Now(), from, got)
    {
      hide Inv, Within;
      from, got := brk, 0;
      var nu := nunits;
      if nu < 4096 {
        nu := 4096;
      }
      SbrkArgument(nu);
      var p := Sbrk(ToInt(nu * UNIT));
      if p == -1 {
        return 0, from, got;
      }
      ExtendDone(Now(), p, nu);
      size := size[p := nu];
      own, live := Extended(old(Now()), p, nu).own, Extended(old(Now()), p, nu).live;
      assert Now() == Extended(old(Now()), p, nu);
      from, got := p, nu;
      Free(p + 1);
      assert live == old(live);
      r := freep;
    }

    /** The part of `malloc` that takes the end of the block `p`, or all of it. */
    method Take(prevp: nat, p: nat, nunits: nat, ghost i: nat) returns (ap: nat)
      requires Inv(Now()) && i < |list| && p == list[i] && p in size && 0 < nunits <= size[p]
      requires i > 0 ==> prevp == list[i - 1]
      modifies this`freep, this`ptr, this`size, this`list, this`own, this`live
      ensures Inv(Now()) && freep in list && freep != 0 && own.Keys == old(own.Keys)
      ensures ap > 0 && ap - 1 !in old(live) && live == old(live)[ap - 1 := nunits]
    {
      hide Partition, Apart, Linked;
      ghost var s := Now();
      NotFirst(s, i);
      var q := p;
      if size[p] == nunits {
        ptr := ptr[prevp := ptr[p]];
        list := list[..i] + list[i + 1..];
        assert list[i - 1] == prevp;
      } else {
        size := size[p := size[p] - nunits];
        q := p + size[p];
        size := size[q := nunits];
      }
      own, live := Relabel(own, q, q + nunits, Used(q)), live[q := nunits];
      CarveDone(s, Now(), i, nunits);
      freep := prevp;
      ap := q + 1;
    }

    /** The loop of `malloc`: a new block of enough units, at the end of a free
        block; at most one region comes from `sbrk`.  A request that is too large
        for an argument of `sbrk`, and for every free block, is followed to the
        point where `morecore` would ask for the wrong amount; `wrong` says that
        it was. */
    method Search(nunits: nat) returns (ap: nat, wrong: bool, ghost from: nat, ghost got: nat, ghost cores: nat)
      requires Valid() && freep != 0 && 0 < nunits
      modifies this
      ensures Valid() && freep != 0
      ensures own.Keys == old(own.Keys) + Region(from, got) && old(brk) <= from && cores <= 1
      ensures got == if cores == 1 && ap != 0 then (if nunits < 4096 then 4096 else nunits) else 0
      ensures wrong <==> nunits * UNIT >= 0x8000_0000 && old(NoneFits(Now(), nunits))
      ensures cores == 1 <==> nunits * UNIT < 0x8000_0000 && old(NoneFits(Now(), nunits))
      ensures if ap == 0 then (wrong || cores == 1) && Now() == old(Now()) && freep == old(freep) && NoneFits(Now(), nunits)
              else !wrong && ap - 1 !in old(live) && live == old(live)[ap - 1 := nunits]
    {
      hide Inv, Within, Scan, Ahead, Region, NoneFits;
      ghost var s0 := Now();
      var prevp := freep;
      wrong, from, got, cores := false, brk, 0, 0;
      ghost var f := ScanStart(s0, freep, nunits);
      ghost var d := 1;
      var p := ptr[prevp];
      while true
        invariant Inv(Now()) && BASE < brk && (forall x | x in own :: x < brk)
        invariant Scan(Now(), freep, f, d, prevp, p, nunits)
        invariant live == s0.live && own.Keys == s0.own.Keys + Region(from, got) && old(brk) <= from
        invariant cores == 0 ==> Now() == s0 && got == 0 && brk == old(brk) && freep == old(freep)
        invariant cores == 1 ==> got == (if nunits < 4096 then 4096 else nunits) && Within(Now(), from, got)
        invariant cores <= 1 && (cores == 1 ==> nunits * UNIT < 0x8000_0000 && NoneFits(s0, nunits)) && !wrong
        decreases 1 - cores, |list| - d
      {
        ScanHere(Now(), freep, f, d, prevp, p, nunits);
        if size[p] >= nunits {
          ap := Take(prevp, p, nunits, Ahead(|list|, f, d));
          return;
        }
        ScanNext(Now(), freep, f, d, prevp, p, nunits);
        if p == freep {
          NotAgain(Now(), from, got, nunits, cores);
          if nunits * UNIT >= 0x8000_0000 {
            return 0, true, from, got, cores;
          }
          cores := 1;
          p, from, got := Morecore(nunits);
          if p == 0 {
            return 0, false, from, got, cores;
          }
          f := ScanStart(Now(), freep, nunits);
          d := 0;
        }
        prevp := p;
        p := ptr[p];
        d := d + 1;
      }
    }

    /** `malloc`: makes the first list if there is none, and searches it. */
    method Malloc(nbytes: nat) returns (ap: nat, wrong: bool, ghost from: nat, ghost got: nat, ghost cores: nat)
      requires Valid() && nbytes < 0x1_0000_0000
      modifies this
      ensures Valid() && freep != 0 && nbytes <= (Units(nbytes) - 1) * UNIT
      ensures own.Keys == old(own.Keys) + Region(from, got) && old(brk) <= from && cores <= 1
      ensures got == if cores == 1 && ap != 0 then (if Units(nbytes) < 4096 then 4096 else Units(nbytes)) else 0
      ensures wrong <==> nbytes > 0x8000_0000 - 32 && old(NoneFits(Now(), Units(nbytes)))
      ensures cores == 1 <==> nbytes <= 0x8000_0000 - 32 && old(NoneFits(Now(), Units(nbytes)))
      ensures if ap == 0 then (wrong || cores == 1) && live == old(live) && NoneFits(Now(), Units(nbytes))
              else !wrong && ap - 1 !in old(live) && live == old(live)[ap - 1 := Units(nbytes)]
      ensures ap == 0 && old(freep) != 0 ==> Now() == old(Now()) && freep == old(freep)
    {
      assert freep == 0 ==> NoneFits(Now(), Units(nbytes));
      hide Inv, Region, NoneFits, Units;
      UnitsFor(nbytes);
      if freep == 0 {
        ptr, freep, size := ptr[BASE := BASE], BASE, size[BASE := 0];
        list := [BASE];
        FirstList(Now());
      }
      ap, wrong, from, got, cores := Search(Units(nbytes));
    }
  }

  lemma FirstList(s: St)
    requires s.list == [BASE] && s.own == map[] && s.live == map[]
    requires BASE in s.ptr && s.ptr[BASE] == BASE && BASE in s.size && s.size[BASE] == 0
    ensures Inv(s) && forall n | n > 0 :: NoneFits(s, n)
  {
  }

  lemma NotFirst(s: St, i: nat)
    requires Inv(s) && i < |s.list| && s.list[i] in s.size && 0 < s.size[s.list[i]]
    ensures i > 0 && s.list[i] in s.ptr && s.list[i - 1] != 0
  {
    HeaderOf(s, if i > 0 then i - 1 else i);
    HeaderOf(s, i);
  }

  lemma HeaderOf(s: St, i: nat)
    requires Inv(s) && i < |s.list|
    ensures s.list[i] in s.ptr && s.ptr[s.list[i]] == After(s.list, i) && s.list[i] in s.size && s.list[i] >= BASE
  {
    hide Partition;
    assert s.list[0] == BASE;
    assert i > 0 ==> s.list[0] + s.size[s.list[0]] < s.list[i];
  }

  /** The header words as the code of `free` computes them. */
  lemma FreeWords(s: St, bp: nat, k: nat)
    requires Inv(s) && bp in s.live && Place(s.list, bp, k)
    ensures k < |s.list| && (forall a | a in s.list :: a in s.size) && bp in s.size
    ensures var p := s.list[k];
            && p in s.ptr && p in s.size && p != bp && p != 0 && s.ptr[p] in s.size && s.ptr[p] in s.ptr && s.ptr[p] != bp
            && var q, n := s.ptr[p], s.size[bp];
               var up := bp + n == q;
               var x := if up then s.ptr[q] else q;
               var z := if up then s.size[bp := n + s.size[q]] else s.size;
               && FreePtr(s, bp, k) == s.ptr[bp := x][p := if p + s.size[p] == bp then x else bp]
               && FreeSize(s, bp, k) == if p + s.size[p] == bp then z[p := z[p] + z[bp]] else z
  {
    hide Partition, Apart, Linked, Place;
    Joining(s, bp, k);
  }

  /** What the tests of `free` decide, and the headers they read. */
  lemma Joining(s: St, bp: nat, k: nat)
    requires Inv(s) && bp in s.live && Place(s.list, bp, k)
    ensures k < |s.list|
    ensures var p, q := s.list[k], After(s.list, k);
            && k < |s.list| && (forall a | a in s.list :: a in s.size) && p in s.ptr && s.ptr[p] == q && p != 0
            && p in s.size && q in s.size && q in s.ptr && bp in s.size && s.size[bp] == s.live[bp] && p != bp && q != bp
            && (bp + s.size[bp] == q <==> JoinsUp(s, bp, k))
            && (JoinsUp(s, bp, k) ==> k + 1 < |s.list| && s.ptr[q] == After(s.list, k + 1))
  {
    hide Apart, Linked, Labelled, Belongs;
    HeaderOf(s, k);
    HeaderOf(s, if k + 1 < |s.list| then k + 1 else 0);
    NotSpareAll(s, bp);
    assert s.list[0] == BASE by {
      Starts(s);
    }
  }

  lemma Starts(s: St)
    requires Inv(s)
    ensures s.list[0] == BASE
  {
  }
}
