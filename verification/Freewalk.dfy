/** Why freeing a page table bottom up (`freewalk` in kernel/vm.c) frees each
    of its tables exactly once. */
module Freewalk {
  import opened PageTable

  /** Table `c` is `k` itself or somewhere below it. */
  predicate Under(c: Key, k: Key) {
    && c.root == k.root
    && (k.node.Root? || c == k || (k.node.Mid? && c.node.Low? && c.node.q / PTES == k.node.i))
  }

  /** Table `c` is below one of the first `i` children of `k`. */
  predicate Gone(c: Key, k: Key, i: nat) {
    && c.root == k.root && !c.node.Root?
    && match k.node
       case Root => (if c.node.Mid? then c.node.i < i else c.node.q / PTES < i)
       case Mid(m) => c.node.Low? && c.node.q / PTES == m && c.node.q % PTES < i
       case Low(_) => false
  }

  lemma GoneMore(c: Key, k: Key, i: nat)
    requires !k.node.Low? && WellPlaced(k.node) && WellPlaced(c.node) && i < PTES
    ensures Gone(c, k, i + 1) <==> Gone(c, k, i) || Under(c, Child(k, i))
    ensures !(Gone(c, k, i) && Under(c, Child(k, i)))
    ensures Under(c, Child(k, i)) ==> Under(c, k) && c != k
  {
  }

  lemma AllGone(c: Key, k: Key)
    requires WellPlaced(k.node) && WellPlaced(c.node)
    ensures Under(c, k) <==> c == k || Gone(c, k, PTES)
  {
  }

  /** No bottom table below `k` maps anything. */
  predicate NoLeaves(s: St, k: Key)
    requires Pages(s)
  {
    forall c, idx | c in s.page && Under(c, k) && c.node.Low? && 0 <= idx < PTES :: s.tables[s.page[c]][idx] == 0
  }

  /** From `s` to `t` exactly the tables in `gone` went back to the free list. */
  predicate Removed(s: St, t: St, gone: set<Key>) {
    && t.data == s.data
    && t.page.Keys == s.page.Keys - gone
    && (forall c | c in t.page :: t.page[c] == s.page[c])
    && t.own.Keys == s.own.Keys
    && (forall p | p in s.own :: t.own[p] == if s.own[p].Table? && s.own[p].key in gone then Free else s.own[p])
  }

  function GoneSet(s: St, k: Key, i: nat): set<Key> {
    set c | c in s.page && Gone(c, k, i)
  }

  function UnderSet(s: St, k: Key): set<Key> {
    set c | c in s.page && Under(c, k)
  }

  ghost predicate SameTables(s: St, t: St, but: Key)
    requires Pages(s) && Pages(t)
  {
    forall c | c in t.page && c in s.page && c != but :: t.tables[t.page[c]] == s.tables[s.page[c]]
  }

  /** The first `i` children of `k` are freed and their entries cleared. */
  ghost predicate Trimmed(s: St, t: St, k: Key, i: nat) {
    && Tree(s) && Tree(t) && k in s.page && k in t.page && i <= PTES
    && Removed(s, t, GoneSet(s, k, i))
    && SameTables(s, t, k)
    && forall j | 0 <= j < PTES ::
         t.tables[t.page[k]][j] == if !k.node.Low? && j < i then 0 else s.tables[s.page[k]][j]
  }

  /** `k` and everything below it is freed; only the entry pointing to `k` dangles. */
  ghost predicate Pruned(s: St, t: St, k: Key) {
    && Tree(s) && Pages(t) && Links(t, {k}) && Leaves(t) && FreeList(t)
    && Removed(s, t, UnderSet(s, k))
    && SameTables(s, t, k)
  }

  lemma TrimStart(s: St, k: Key)
    requires Tree(s) && k in s.page
    ensures Trimmed(s, s, k, 0)
  {
  }

  /** The next entry is empty: there is nothing below it to free. */
  lemma TrimEmpty(s: St, t: St, k: Key, i: nat)
    requires Trimmed(s, t, k, i) && i < PTES && !k.node.Low? && t.tables[t.page[k]][i] == 0
    ensures Trimmed(s, t, k, i + 1)
  {
    assert LinkOk(t, k, i, {});
    assert GoneSet(s, k, i + 1) == GoneSet(s, k, i) by {
      forall c | c in s.page ensures Gone(c, k, i + 1) <==> Gone(c, k, i) {
        GoneMore(c, k, i);
        if c in t.page {
          NothingBelow(t, Child(k, i), c);
        }
      }
    }
  }

  lemma NothingBelow(s: St, k: Key, c: Key)
    requires Tree(s) && k !in s.page && c in s.page && !k.node.Root?
    ensures !Under(c, k)
  {
    if !c.node.Root? {
      assert Parent(c) in s.page;
    }
  }

  /** The state once the entry of the freed child is cleared. */
  function Cleared(t: St, k: Key, i: nat): St
    requires k in t.page && t.page[k] in t.tables && i < |t.tables[t.page[k]]|
  {
    t.(tables := PutEntry(t.tables, t.page[k], i, 0))
  }

  lemma ClearedTree(t: St, k: Key, i: nat)
    requires Pages(t) && k in t.page && !k.node.Low? && i < PTES && Child(k, i) !in t.page
    requires Links(t, {Child(k, i)}) && Leaves(t) && FreeList(t)
    ensures Tree(Cleared(t, k, i))
  {
    var u := Cleared(t, k, i);
    forall c | c in t.page && c != k ensures t.page[c] != t.page[k] {
      assert t.own[t.page[c]] == Table(c);
    }
    assert Pages(u);
    forall c, j | c in u.page && !c.node.Low? && 0 <= j < PTES ensures LinkOk(u, c, j, {}) {
      assert LinkOk(t, c, j, {Child(k, i)});
      ParentOfChild(c, j);
      ParentOfChild(k, i);
    }
  }

  lemma RemovedTwice(s: St, m: St, t: St, a: set<Key>, b: set<Key>)
    requires Removed(s, m, a) && Removed(m, t, b)
    ensures Removed(s, t, a + b)
  {
  }

  lemma GoneNext(s: St, m: St, k: Key, i: nat)
    requires Pages(s) && WellPlaced(k.node) && !k.node.Low? && i < PTES && m.page.Keys == s.page.Keys - GoneSet(s, k, i)
    ensures GoneSet(s, k, i + 1) == GoneSet(s, k, i) + UnderSet(m, Child(k, i))
  {
    forall c | c in s.page
      ensures Gone(c, k, i + 1) <==> Gone(c, k, i) || Under(c, Child(k, i))
      ensures !(Gone(c, k, i) && Under(c, Child(k, i)))
    {
      GoneMore(c, k, i);
    }
  }

  /** The next child was freed and its entry is then cleared. */
  lemma TrimChild(s: St, m: St, t: St, k: Key, i: nat)
    requires Trimmed(s, m, k, i) && i < PTES && !k.node.Low? && Pruned(m, t, Child(k, i))
    ensures k in t.page && k in m.page && t.page[k] == m.page[k] && t.page[k] in t.tables && |t.tables[t.page[k]]| == PTES
    ensures Trimmed(s, Cleared(t, k, i), k, i + 1)
  {
    hide Links, Leaves, FreeList;
    GoneMore(k, k, i);
    ParentOfChild(k, i);
    assert Child(k, i) !in t.page;
    ClearedTree(t, k, i);
    RemovedTwice(s, m, t, GoneSet(s, k, i), UnderSet(m, Child(k, i)));
    GoneNext(s, m, k, i);
    TrimTables(s, m, t, k, i);
  }

  lemma TrimTables(s: St, m: St, t: St, k: Key, i: nat)
    requires Trimmed(s, m, k, i) && i < PTES && !k.node.Low? && Pruned(m, t, Child(k, i)) && k in t.page
    ensures Pages(Cleared(t, k, i)) ==>
              && SameTables(s, Cleared(t, k, i), k)
              && forall j | 0 <= j < PTES ::
                   Cleared(t, k, i).tables[t.page[k]][j] == if j < i + 1 then 0 else s.tables[s.page[k]][j]
  {
    hide Links, Leaves, FreeList;
    ParentOfChild(k, i);
    forall c | c in t.page && c != k ensures t.page[c] != t.page[k] {
      assert t.own[t.page[c]] == Table(c);
    }
    assert t.tables[t.page[k]] == m.tables[m.page[k]];
  }

  /** The state once the table `k` itself is freed. */
  function TableFreed(m: St, k: Key): St
    requires k in m.page
  {
    var p := m.page[k];
    St([p] + m.freelist, m.tables - {p}, m.data, m.page - {k}, m.own[p := Free])
  }

  lemma TrimDone(s: St, m: St, k: Key)
    requires Trimmed(s, m, k, PTES)
    ensures Pruned(s, TableFreed(m, k), k)
  {
    hide Links, Leaves, FreeList;
    FreedPages(m, k);
    FreedLinks(s, m, k);
    FreedList(m, k);
    var t := TableFreed(m, k);
    assert Removed(m, t, {k}) by {
      RemovedOne(m, k);
    }
    RemovedTwice(s, m, t, GoneSet(s, k, PTES), {k});
    assert UnderSet(s, k) == GoneSet(s, k, PTES) + {k} by {
      forall c | c in s.page ensures Under(c, k) <==> c == k || Gone(c, k, PTES) {
        AllGone(c, k);
      }
    }
  }

  lemma RemovedOne(m: St, k: Key)
    requires Pages(m) && k in m.page
    ensures Removed(m, TableFreed(m, k), {k})
  {
  }

  lemma FreedPages(m: St, k: Key)
    requires Tree(m) && k in m.page
    ensures Pages(TableFreed(m, k)) && Leaves(TableFreed(m, k))
    ensures forall c | c in TableFreed(m, k).page :: TableFreed(m, k).tables[m.page[c]] == m.tables[m.page[c]]
  {
    hide Links, FreeList;
    forall c | c in m.page && c != k ensures m.page[c] != m.page[k] {
      assert m.own[m.page[c]] == Table(c);
    }
  }

  lemma FreedLinks(s: St, m: St, k: Key)
    requires Trimmed(s, m, k, PTES) && Pages(TableFreed(m, k))
    requires forall c | c in TableFreed(m, k).page :: TableFreed(m, k).tables[m.page[c]] == m.tables[m.page[c]]
    ensures Links(TableFreed(m, k), {k})
  {
    hide Leaves, FreeList;
    var t := TableFreed(m, k);
    forall c, j | c in t.page && !c.node.Low? && 0 <= j < PTES ensures LinkOk(t, c, j, {k}) {
      assert LinkOk(m, c, j, {});
    }
    forall c | c in t.page && !c.node.Root? ensures Parent(c) in t.page {
      assert Parent(c) in m.page;
      AllGone(c, k);
      ChildOfParent(c);
    }
  }

  lemma FreedList(m: St, k: Key)
    requires Tree(m) && k in m.page
    ensures FreeList(TableFreed(m, k))
  {
    hide Links, Leaves;
    var t := TableFreed(m, k);
    assert m.page[k] !in m.freelist;
    forall q | q in t.own && t.own[q] == Free ensures q in t.freelist {
      if q != m.page[k] {
        assert q in m.freelist;
      }
    }
  }

  /** The child's bottom tables are empty because the parent's are. */
  lemma NoLeavesChild(s: St, m: St, k: Key, i: nat)
    requires Trimmed(s, m, k, i) && i < PTES && !k.node.Low? && NoLeaves(s, k)
    ensures NoLeaves(m, Child(k, i))
  {
    hide Links, Leaves, FreeList;
    forall c, idx | c in m.page && Under(c, Child(k, i)) && c.node.Low? && 0 <= idx < PTES
      ensures m.tables[m.page[c]][idx] == 0
    {
      GoneMore(c, k, i);
      assert m.tables[m.page[c]] == s.tables[s.page[c]];
    }
  }

  /** Nothing points to a root, so freeing a whole address space leaves no
      dangling entry. */
  lemma RootPruned(s: St, t: St, r: nat)
    requires Pruned(s, t, Key(r, Root))
    ensures Tree(t)
  {
    forall k, idx | k in t.page && !k.node.Low? && 0 <= idx < PTES ensures LinkOk(t, k, idx, {}) {
      assert LinkOk(t, k, idx, {Key(r, Root)});
    }
  }

  /** Without mappings there are no leaves. */
  lemma EmptyMap(s: St, r: nat)
    requires Tree(s) && forall v: nat :: PteOf(s, r, v) == 0
    ensures NoLeaves(s, Key(r, Root))
  {
    forall c, idx | c in s.page && Under(c, Key(r, Root)) && c.node.Low? && 0 <= idx < PTES
      ensures s.tables[s.page[c]][idx] == 0
    {
      var v := c.node.q * PTES + idx;
      assert v / PTES == c.node.q && v % PTES == idx;
      assert PteOf(s, r, v) == 0;
    }
  }

  /** The mappings after an address space is gone: its own are none, all others as before. */
  lemma RootPrunedMap(s: St, t: St, r: nat)
    requires Pruned(s, t, Key(r, Root))
    ensures forall r': nat, v: nat :: PteOf(t, r', v) == if r' == r then 0 else PteOf(s, r', v)
  {
    hide Links, Leaves, FreeList;
    forall r': nat, v: nat ensures PteOf(t, r', v) == if r' == r then 0 else PteOf(s, r', v) {
      var c := Key(r', Low(v / PTES));
      if c in s.page {
        assert c in UnderSet(s, Key(r, Root)) <==> r' == r;
      }
    }
  }
}
