/** Three-level Sv39 page tables (kernel/vm.c, section 4.4 of the RISC-V
    Privileged Architecture) and who owns each page of physical memory. */
module PageTable {
  import opened Sequences

  const PGSIZE := 4096
  const PTES := 512
  const MAXVA := 0x40_0000_0000
  const TRAMPOLINE := MAXVA - PGSIZE
  const TRAPFRAME := TRAMPOLINE - PGSIZE
  /** Pages below the trapframe are user memory. */
  const USERPAGES := TRAPFRAME / PGSIZE

  const PTE_V := 1
  const PTE_R := 2
  const PTE_W := 4
  const PTE_X := 8
  const PTE_U := 16

  // ---------------------------------------------------------------- page-table entries

  function Pa2Pte(pa: nat): nat { pa / 4096 * 1024 }
  function Pte2Pa(pte: nat): nat { pte / 1024 * 4096 }
  function PteFlags(pte: nat): nat { pte % 1024 }
  predicate IsValid(pte: nat) { pte % 2 == 1 }
  /** Some of the R, W and X bits is set. */
  predicate IsLeaf(pte: nat) { pte / 2 % 8 != 0 }

  /** `PA2PTE(pa) | perm | PTE_V`. */
  function MakePte(pa: nat, perm: nat): nat
    requires perm < 1024
  {
    Pa2Pte(pa) + if perm % 2 == 1 then perm else perm + 1
  }

  /** The index into the level-`level` table for a virtual address. */
  function Px(level: nat, va: nat): nat
    requires level <= 2
  {
    if level == 2 then va / 0x4000_0000 % PTES
    else if level == 1 then va / 0x20_0000 % PTES
    else va / 0x1000 % PTES
  }

  lemma Frame(n: nat, f: nat)
    requires f < 1024
    ensures (n * 1024 + f) / 1024 == n && (n * 1024 + f) % 1024 == f
  {
  }

  lemma Even(m: nat, f: nat)
    ensures (m * 2 + f) % 2 == f % 2 && (m * 2 + f) / 2 == m + f / 2
  {
  }

  lemma Fours(m: nat, f: nat)
    ensures (m * 4 + f) / 4 == m + f / 4
  {
  }

  lemma Eights(m: nat, f: nat)
    ensures (m * 8 + f) % 8 == f % 8
  {
  }

  lemma Sixteens(m: nat, f: nat)
    ensures (m * 16 + f) / 16 == m + f / 16
  {
  }

  /** The flag bits of an entry for page `n` are those of `f`. */
  lemma FlagBits(n: nat, f: nat)
    requires f < 1024
    ensures var e := n * 1024 + f;
            e / 1024 == n && e % 1024 == f && e % 2 == f % 2 && e / 2 % 8 == f / 2 % 8 && e / 4 % 2 == f / 4 % 2 && e / 16 % 2 == f / 16 % 2
  {
    Frame(n, f);
    Even(n * 512, f);
    Eights(n * 64, f / 2);
    Fours(n * 256, f);
    Even(n * 128, f / 4);
    Sixteens(n * 64, f);
    Even(n * 32, f / 16);
  }

  lemma PteRoundTrip(pa: nat, perm: nat)
    requires pa % PGSIZE == 0 && perm < 1024
    ensures Pte2Pa(MakePte(pa, perm)) == pa
    ensures PteFlags(MakePte(pa, perm)) == if perm % 2 == 1 then perm else perm + 1
    ensures IsValid(MakePte(pa, perm))
    ensures IsLeaf(MakePte(pa, perm)) == IsLeaf(perm)
  {
    var f := if perm % 2 == 1 then perm else perm + 1;
    FlagBits(pa / PGSIZE, f);
    assert f / 2 == perm / 2;
  }

  // ---------------------------------------------------------------- the tree

  /** The tables of one address space: the root, one for each gigabyte, one
      for each two megabytes. */
  datatype Node = Root | Mid(i: nat) | Low(q: nat)

  /** A table is named by its root page and its place under it. */
  datatype Key = Key(root: nat, node: Node)

  datatype Owner = Free | Table(key: Key) | User(root: nat, vpn: nat) | Other

  /** Physical memory: the free list, the contents of table pages and of user
      pages, where each table is, and the owner of each page. */
  datatype St = St(freelist: seq<nat>, tables: map<nat, seq<nat>>, data: map<nat, seq<int>>,
                   page: map<Key, nat>, own: map<nat, Owner>)

  predicate WellPlaced(n: Node) {
    match n
    case Root => true
    case Mid(i) => i < PTES
    case Low(q) => q < PTES * PTES
  }

  function Child(k: Key, idx: nat): Key
    requires !k.node.Low?
  {
    Key(k.root, if k.node.Root? then Mid(idx) else Low(k.node.i * PTES + idx))
  }

  function Parent(k: Key): Key
    requires !k.node.Root?
  {
    Key(k.root, if k.node.Mid? then Root else Mid(k.node.q / PTES))
  }

  function IndexIn(k: Key): nat
    requires !k.node.Root?
  {
    if k.node.Mid? then k.node.i else k.node.q % PTES
  }

  lemma ChildOfParent(k: Key)
    requires !k.node.Root? && WellPlaced(k.node)
    ensures IndexIn(k) < PTES && !Parent(k).node.Low? && WellPlaced(Parent(k).node) && Child(Parent(k), IndexIn(k)) == k
  {
  }

  lemma ParentOfChild(k: Key, idx: nat)
    requires !k.node.Low? && WellPlaced(k.node) && idx < PTES
    ensures !Child(k, idx).node.Root? && WellPlaced(Child(k, idx).node)
    ensures Parent(Child(k, idx)) == k && IndexIn(Child(k, idx)) == idx
  {
  }

  /** The table on the way to `va` at each level. */
  function NodeAt(level: nat, va: nat): Node
    requires level <= 2
  {
    if level == 2 then Root else if level == 1 then Mid(va / 0x4000_0000) else Low(va / 0x20_0000)
  }

  lemma NextNode(root: nat, level: nat, va: nat)
    requires 1 <= level <= 2 && va < MAXVA
    ensures WellPlaced(NodeAt(level, va)) && WellPlaced(NodeAt(level - 1, va)) && Px(level, va) < PTES
    ensures Child(Key(root, NodeAt(level, va)), Px(level, va)) == Key(root, NodeAt(level - 1, va))
  {
  }

  /** Every table is a page of its own, and every page that is a table is in
      the tree. */
  predicate Pages(s: St) {
    && (forall k | k in s.page ::
          && s.page[k] in s.own && s.own[s.page[k]] == Table(k)
          && s.page[k] in s.tables && |s.tables[s.page[k]]| == PTES
          && WellPlaced(k.node) && (k.node.Root? ==> s.page[k] == k.root))
    && (forall p | p in s.own && s.own[p].Table? :: s.own[p].key in s.page && s.page[s.own[p].key] == p)
    && (forall p | p in s.own :: 0 < p && p % PGSIZE == 0)
  }

  /** What entry `idx` of an inner table holds: the address of the child table if
      there is one, nothing otherwise.  Children in `but` may dangle. */
  predicate LinkOk(s: St, k: Key, idx: nat, but: set<Key>)
    requires k in s.page && s.page[k] in s.tables && idx < |s.tables[s.page[k]]| && !k.node.Low?
  {
    var e := s.tables[s.page[k]][idx];
    if Child(k, idx) in s.page then e == Pa2Pte(s.page[Child(k, idx)]) + PTE_V
    else e == 0 || Child(k, idx) in but
  }

  predicate Links(s: St, but: set<Key>)
    requires Pages(s)
  {
    && (forall k, idx | k in s.page && !k.node.Low? && 0 <= idx < PTES :: LinkOk(s, k, idx, but))
    && (forall k | k in s.page && !k.node.Root? :: Parent(k) in s.page)
  }

  /** The bottom tables hold leaf mappings only. */
  predicate Leaves(s: St)
    requires Pages(s)
  {
    forall k, idx | k in s.page && k.node.Low? && 0 <= idx < PTES ::
      var e := s.tables[s.page[k]][idx];
      e == 0 || (IsValid(e) && IsLeaf(e))
  }

  /** The free list is exactly the free pages, each once. */
  predicate FreeList(s: St) {
    && Distinct(s.freelist)
    && (forall p | p in s.freelist :: p in s.own && s.own[p] == Free)
    && (forall p | p in s.own && s.own[p] == Free :: p in s.freelist)
  }

  /** The mapping of a page number: the entry `walk` finds, or nothing. */
  function PteOf(s: St, root: nat, vpn: nat): nat
    requires Pages(s)
  {
    var k := Key(root, Low(vpn / PTES));
    if k in s.page then s.tables[s.page[k]][vpn % PTES] else 0
  }

  /** User mappings and user pages correspond one to one. */
  ghost predicate Users(s: St)
    requires Pages(s)
  {
    && (forall r: nat, v: nat | v < USERPAGES && PteOf(s, r, v) != 0 ::
          Pte2Pa(PteOf(s, r, v)) in s.own && s.own[Pte2Pa(PteOf(s, r, v))] == User(r, v))
    && (forall p | p in s.own && s.own[p].User? ::
          s.own[p].vpn < USERPAGES && PteOf(s, s.own[p].root, s.own[p].vpn) != 0
          && Pte2Pa(PteOf(s, s.own[p].root, s.own[p].vpn)) == p && PageData(s, p))
  }

  /** The page holds a full page of bytes. */
  predicate PageData(s: St, p: nat) {
    p in s.data && |s.data[p]| == PGSIZE
  }

  predicate Tree(s: St) {
    Pages(s) && Links(s, {}) && Leaves(s) && FreeList(s)
  }

  ghost predicate Inv(s: St) {
    Tree(s) && Users(s)
  }

  // ---------------------------------------------------------------- the table as a finite map

  /** Distinct pages below MAXVA use distinct entries. */
  lemma DistinctSlots(s: St, r1: nat, v1: nat, r2: nat, v2: nat)
    requires Pages(s) && (r1 != r2 || v1 != v2)
    requires Key(r1, Low(v1 / PTES)) in s.page && Key(r2, Low(v2 / PTES)) in s.page
    ensures s.page[Key(r1, Low(v1 / PTES))] != s.page[Key(r2, Low(v2 / PTES))] || v1 % PTES != v2 % PTES
  {
    if r1 == r2 && v1 / PTES == v2 / PTES {
      assert v1 == v1 / PTES * PTES + v1 % PTES;
      assert v2 == v2 / PTES * PTES + v2 % PTES;
    } else {
      assert s.own[s.page[Key(r1, Low(v1 / PTES))]] == Table(Key(r1, Low(v1 / PTES)));
    }
  }

  ghost predicate SameMap(s: St, t: St) {
    Pages(s) && Pages(t) && forall r: nat, v: nat :: PteOf(t, r, v) == PteOf(s, r, v)
  }

  /** `t` maps what `s` maps, except that page `v` of `r` now has entry `e`. */
  ghost predicate MapSet(s: St, t: St, r: nat, v: nat, e: nat) {
    Pages(s) && Pages(t) && forall r': nat, v': nat :: PteOf(t, r', v') == if r' == r && v' == v then e else PteOf(s, r', v')
  }

  function Zeros(): (z: seq<nat>)
    ensures |z| == PTES && forall i | 0 <= i < PTES :: z[i] == 0
  {
    seq(PTES, _ => 0)
  }

  // ---------------------------------------------------------------- relations between states

  /** The contents of every page that was in use are as they were. */
  predicate SameData(s: St, t: St) {
    forall p | p in s.data && p in s.own && !s.own[p].Free? :: p in t.data && t.data[p] == s.data[p]
  }

  /** Memory only moved from the free list to tables of address space `r`. */
  predicate Grow(s: St, t: St, r: nat) {
    && SameData(s, t) && t.own.Keys == s.own.Keys
    && (forall p | p in s.own :: t.own[p] == s.own[p] || (s.own[p] == Free && t.own[p].Table? && t.own[p].key.root == r))
    && (forall k | k in s.page :: k in t.page && t.page[k] == s.page[k])
  }

  lemma GrowTwice(a: St, b: St, c: St, r: nat)
    requires Grow(a, b, r) && Grow(b, c, r)
    ensures Grow(a, c, r)
  {
  }

  // ---------------------------------------------------------------- adding a table

  /** The head of the free list becomes the child table at `idx` under `k`. */
  function WithTable(s: St, k: Key, idx: nat): St
    requires s.freelist != [] && k in s.page && s.page[k] in s.tables && idx < |s.tables[s.page[k]]| && idx < PTES && !k.node.Low?
  {
    var p := s.freelist[0];
    var ts := s.tables[p := Zeros()];
    s.(freelist := s.freelist[1..],
       tables := PutEntry(ts, s.page[k], idx, Pa2Pte(p) + PTE_V),
       page := s.page[Child(k, idx) := p],
       own := s.own[p := Table(Child(k, idx))])
  }

  lemma AddedPages(s: St, k: Key, idx: nat)
    requires Tree(s) && s.freelist != [] && k in s.page && !k.node.Low? && idx < PTES && Child(k, idx) !in s.page
    ensures Pages(WithTable(s, k, idx))
  {
    hide Links, Leaves;
    ParentOfChild(k, idx);
    var p := s.freelist[0];
    assert p in s.freelist;
    var t := WithTable(s, k, idx);
    forall k' | k' in t.page
      ensures t.page[k'] in t.own && t.own[t.page[k']] == Table(k')
      ensures t.page[k'] in t.tables && |t.tables[t.page[k']]| == PTES
    {
      if k' != Child(k, idx) {
        assert s.own[s.page[k']] == Table(k');
      }
    }
  }

  /** The parent has its new entry, the child is empty, the other tables are as they were. */
  lemma AddedTables(s: St, k: Key, idx: nat)
    requires Tree(s) && s.freelist != [] && k in s.page && !k.node.Low? && idx < PTES && Child(k, idx) !in s.page
    ensures var t := WithTable(s, k, idx);
            forall k' | k' in t.page :: t.page[k'] in t.tables && t.tables[t.page[k']] ==
              if k' == Child(k, idx) then Zeros()
              else if k' == k then s.tables[s.page[k]][idx := Pa2Pte(s.freelist[0]) + PTE_V]
              else s.tables[s.page[k']]
  {
    hide Links, Leaves;
    ParentOfChild(k, idx);
    var p := s.freelist[0];
    assert p in s.freelist;
    forall k' | k' in s.page ensures s.page[k'] != p && (k' != k ==> s.page[k'] != s.page[k]) {
      assert s.own[s.page[k]] == Table(k);
      assert s.own[s.page[k']] == Table(k');
    }
  }

  lemma AddedLinks(s: St, k: Key, idx: nat)
    requires Tree(s) && s.freelist != [] && k in s.page && !k.node.Low? && idx < PTES && Child(k, idx) !in s.page
    requires Pages(WithTable(s, k, idx))
    ensures Links(WithTable(s, k, idx), {})
  {
    hide Leaves, FreeList;
    var t := WithTable(s, k, idx);
    ParentOfChild(k, idx);
    forall k', i | k' in t.page && !k'.node.Low? && 0 <= i < PTES ensures LinkOk(t, k', i, {}) {
      AddedLink(s, k, idx, k', i);
    }
  }

  lemma AddedLink(s: St, k: Key, idx: nat, k': Key, i: nat)
    requires Tree(s) && s.freelist != [] && k in s.page && !k.node.Low? && idx < PTES && Child(k, idx) !in s.page
    requires k' in WithTable(s, k, idx).page && !k'.node.Low? && i < PTES
    ensures var t := WithTable(s, k, idx);
            t.page[k'] in t.tables && |t.tables[t.page[k']]| == PTES && LinkOk(t, k', i, {})
  {
    hide Leaves, FreeList, Pages;
    TableSizes(s);
    AddedTables(s, k, idx);
    ParentOfChild(k, idx);
    ParentOfChild(k', i);
    if k' in s.page {
      assert LinkOk(s, k', i, {});
    } else {
      assert Child(k', i) !in s.page;
    }
  }

  lemma AddedRest(s: St, k: Key, idx: nat)
    requires Tree(s) && s.freelist != [] && k in s.page && !k.node.Low? && idx < PTES && Child(k, idx) !in s.page
    requires Pages(WithTable(s, k, idx))
    ensures Leaves(WithTable(s, k, idx)) && FreeList(WithTable(s, k, idx)) && SameMap(s, WithTable(s, k, idx))
  {
    hide Links, FreeList;
    AddedFree(s, k, idx);
    AddedTables(s, k, idx);
  }

  lemma AddedFree(s: St, k: Key, idx: nat)
    requires Tree(s) && s.freelist != [] && k in s.page && !k.node.Low? && idx < PTES
    ensures s.freelist[0] in s.own && s.own[s.freelist[0]] == Free && FreeList(WithTable(s, k, idx))
  {
    hide Links, Leaves;
    var t := WithTable(s, k, idx);
    assert s.freelist[0] in s.freelist;
    forall q | q in t.own && t.own[q] == Free ensures q in t.freelist {
      assert q in s.freelist;
      var i :| 0 <= i < |s.freelist| && s.freelist[i] == q;
      assert t.freelist[i - 1] == q;
    }
  }

  /** Adding a table keeps the tree and changes no mapping. */
  lemma AddedTable(s: St, k: Key, idx: nat)
    requires Tree(s) && s.freelist != [] && k in s.page && !k.node.Low? && idx < PTES && Child(k, idx) !in s.page
    ensures Tree(WithTable(s, k, idx)) && SameMap(s, WithTable(s, k, idx)) && Grow(s, WithTable(s, k, idx), k.root)
  {
    hide Links, Leaves;
    assert s.freelist[0] in s.freelist;
    AddedPages(s, k, idx);
    AddedLinks(s, k, idx);
    AddedRest(s, k, idx);
  }

  // ---------------------------------------------------------------- changing a leaf entry

  /** There is a bottom table for page `v` of `r`. */
  predicate HasEntry(s: St, r: nat, v: nat) {
    var k := Key(r, Low(v / PTES));
    k in s.page && s.page[k] in s.tables && |s.tables[s.page[k]]| == PTES
  }

  /** The entry for page `v` of `r` becomes `e`. */
  function WithPte(s: St, r: nat, v: nat, e: nat): St
    requires HasEntry(s, r, v)
  {
    s.(tables := PutEntry(s.tables, s.page[Key(r, Low(v / PTES))], v % PTES, e))
  }

  /** Entry `idx` of the table at `pt` becomes `e`. */
  function PutEntry(tables: map<nat, seq<nat>>, pt: nat, idx: nat, e: nat): map<nat, seq<nat>>
    requires pt in tables && idx < |tables[pt]|
  {
    var entries: seq<nat> := tables[pt][idx := e];
    tables[pt := entries]
  }

  lemma ChangedPte(s: St, r: nat, v: nat, e: nat)
    requires Tree(s) && Key(r, Low(v / PTES)) in s.page
    requires e == 0 || (IsValid(e) && IsLeaf(e))
    ensures Tree(WithPte(s, r, v, e)) && MapSet(s, WithPte(s, r, v, e), r, v, e)
  {
    hide Links, Leaves, FreeList;
    var t := WithPte(s, r, v, e);
    EntryTables(s, r, v, e);
    ChangedTree(s, r, v, e);
    forall r': nat, v': nat ensures PteOf(t, r', v') == if r' == r && v' == v then e else PteOf(s, r', v') {
      if r' == r && v' / PTES == v / PTES && v' % PTES == v % PTES {
        SameVpn(v, v');
      }
    }
  }

  /** Only one entry of one table differs. */
  lemma EntryTables(s: St, r: nat, v: nat, e: nat)
    requires Pages(s) && Key(r, Low(v / PTES)) in s.page
    ensures HasEntry(s, r, v) && Pages(WithPte(s, r, v, e))
    ensures var k := Key(r, Low(v / PTES));
            var t := WithPte(s, r, v, e);
            && t == s.(tables := t.tables)
            && forall k' | k' in s.page :: t.tables[s.page[k']] ==
                 if k' == k then s.tables[s.page[k]][v % PTES := e] else s.tables[s.page[k']]
  {
    var k := Key(r, Low(v / PTES));
    forall k' | k' in s.page && k' != k ensures s.page[k'] != s.page[k] {
      assert s.own[s.page[k']] == Table(k');
    }
  }

  lemma ChangedTree(s: St, r: nat, v: nat, e: nat)
    requires Tree(s) && Key(r, Low(v / PTES)) in s.page && (e == 0 || (IsValid(e) && IsLeaf(e)))
    ensures HasEntry(s, r, v) && Tree(WithPte(s, r, v, e))
  {
    hide Pages, FreeList;
    EntryTables(s, r, v, e);
    var t := WithPte(s, r, v, e);
    assert (forall k | k in s.page :: s.page[k] in s.tables && |s.tables[s.page[k]]| == PTES) by {
      TableSizes(s);
    }
    forall k', i | k' in t.page && !k'.node.Low? && 0 <= i < PTES ensures LinkOk(t, k', i, {}) {
      assert LinkOk(s, k', i, {});
    }
    assert FreeList(t) by {
      SameFree(s, t);
    }
  }

  lemma TableSizes(s: St)
    requires Pages(s)
    ensures forall k | k in s.page :: s.page[k] in s.tables && |s.tables[s.page[k]]| == PTES && WellPlaced(k.node)
  {
  }

  lemma SameFree(s: St, t: St)
    requires FreeList(s) && t.own == s.own && t.freelist == s.freelist
    ensures FreeList(t)
  {
  }

  lemma SameVpn(v: nat, w: nat)
    requires v / PTES == w / PTES && v % PTES == w % PTES
    ensures v == w
  {
  }

  // ---------------------------------------------------------------- owners

  /** Page `p` gets owner `o`, neither being about tables or the free list. */
  function WithOwner(s: St, p: nat, o: Owner): St {
    s.(own := s.own[p := o])
  }

  lemma ChangedOwner(s: St, p: nat, o: Owner)
    requires Tree(s) && p in s.own && !s.own[p].Table? && !s.own[p].Free? && !o.Table? && !o.Free?
    ensures Tree(WithOwner(s, p, o)) && SameMap(s, WithOwner(s, p, o))
  {
    var t := WithOwner(s, p, o);
    assert Pages(t);
    forall k, i | k in t.page && !k.node.Low? && 0 <= i < PTES ensures LinkOk(t, k, i, {}) {
      assert LinkOk(s, k, i, {});
    }
  }

  /** `kfree`. */
  function Freed(s: St, p: nat): St {
    s.(freelist := [p] + s.freelist, own := s.own[p := Free])
  }

  lemma FreedPage(s: St, p: nat)
    requires Tree(s) && p in s.own && !s.own[p].Table? && !s.own[p].Free?
    ensures Tree(Freed(s, p)) && SameMap(s, Freed(s, p))
  {
    var t := Freed(s, p);
    assert Pages(t);
    forall k, i | k in t.page && !k.node.Low? && 0 <= i < PTES ensures LinkOk(t, k, i, {}) {
      assert LinkOk(s, k, i, {});
    }
    assert p !in s.freelist;
    forall q | q in t.own && t.own[q] == Free ensures q in t.freelist {
      if q != p {
        assert q in s.freelist;
      }
    }
  }

  /** `kalloc` of a page for something other than a table. */
  function Taken(s: St): St
    requires s.freelist != []
  {
    s.(freelist := s.freelist[1..], own := s.own[s.freelist[0] := Other])
  }

  lemma TakenPage(s: St)
    requires Tree(s) && s.freelist != []
    ensures Tree(Taken(s)) && SameMap(s, Taken(s))
  {
    var p := s.freelist[0];
    assert p in s.freelist;
    var t := Taken(s);
    assert Pages(t);
    forall k, i | k in t.page && !k.node.Low? && 0 <= i < PTES ensures LinkOk(t, k, i, {}) {
      assert LinkOk(s, k, i, {});
    }
    forall q | q in t.own && t.own[q] == Free ensures q in t.freelist {
      assert q in s.freelist;
      var i :| 0 <= i < |s.freelist| && s.freelist[i] == q;
      assert t.freelist[i - 1] == q;
    }
  }

  /** Pages `v` .. `v + m - 1` of `r` map `pa` on; nothing else changed. */
  ghost predicate MapRange(s: St, t: St, r: nat, v: nat, m: nat, pa: nat, perm: nat) {
    && Pages(s) && Pages(t) && perm < 1024
    && forall r': nat, v': nat ::
         PteOf(t, r', v') == if r' == r && v <= v' < v + m then MakePte(pa + PGSIZE * (v' - v), perm) else PteOf(s, r', v')
  }

  ghost predicate UnmapRange(s: St, t: St, r: nat, v: nat, m: nat) {
    && Pages(s) && Pages(t)
    && forall r': nat, v': nat ::
         PteOf(t, r', v') == if r' == r && v <= v' < v + m then 0 else PteOf(s, r', v')
  }

  lemma TableEntry(pa: nat)
    requires pa % PGSIZE == 0
    ensures IsValid(Pa2Pte(pa) + PTE_V) && !IsLeaf(Pa2Pte(pa) + PTE_V) && Pte2Pa(Pa2Pte(pa) + PTE_V) == pa
  {
    FlagBits(pa / PGSIZE, PTE_V);
  }

  lemma MapOneMore(s: St, m: St, w: St, u: St, r: nat, v: nat, n: nat, pa: nat, perm: nat)
    requires MapRange(s, m, r, v, n, pa, perm) && SameMap(m, w)
    requires MapSet(w, u, r, v + n, MakePte(pa + PGSIZE * n, perm))
    ensures MapRange(s, u, r, v, n + 1, pa, perm)
  {
    forall r': nat, v': nat
      ensures PteOf(u, r', v') == if r' == r && v <= v' < v + (n + 1) then MakePte(pa + PGSIZE * (v' - v), perm) else PteOf(s, r', v')
    {
      assert PteOf(w, r', v') == PteOf(m, r', v');
    }
  }

  lemma UnmapOneMore(s: St, m: St, u: St, r: nat, v: nat, n: nat)
    requires UnmapRange(s, m, r, v, n) && MapSet(m, u, r, v + n, 0)
    ensures UnmapRange(s, u, r, v, n + 1)
  {
    forall r': nat, v': nat ensures PteOf(u, r', v') == if r' == r && v <= v' < v + (n + 1) then 0 else PteOf(s, r', v') {
      assert PteOf(m, r', v') == if r' == r && v <= v' < v + n then 0 else PteOf(s, r', v');
    }
  }

  // ---------------------------------------------------------------- user pages

  /** A user page is unmapped and freed. */
  lemma UserUnmapped(s: St, r: nat, v: nat)
    requires Inv(s) && v < USERPAGES && PteOf(s, r, v) != 0
    ensures var pa := Pte2Pa(PteOf(s, r, v));
            && pa in s.own && s.own[pa] == User(r, v) && HasEntry(s, r, v)
            && Inv(WithPte(Freed(s, pa), r, v, 0)) && MapSet(s, WithPte(Freed(s, pa), r, v, 0), r, v, 0)
  {
    var pa := Pte2Pa(PteOf(s, r, v));
    FreedPage(s, pa);
    var f := Freed(s, pa);
    ChangedPte(f, r, v, 0);
    var t := WithPte(f, r, v, 0);
    MapSetAfterSame(s, f, t, r, v, 0);
    UsersAfter(s, t, r, v, pa);
  }

  lemma MapSetAfterSame(s: St, m: St, t: St, r: nat, v: nat, e: nat)
    requires SameMap(s, m) && MapSet(m, t, r, v, e)
    ensures MapSet(s, t, r, v, e)
  {
    forall r': nat, v': nat ensures PteOf(t, r', v') == if r' == r && v' == v then e else PteOf(s, r', v') {
      assert PteOf(m, r', v') == PteOf(s, r', v');
    }
  }

  lemma UsersAfter(s: St, t: St, r: nat, v: nat, pa: nat)
    requires Pages(s) && Users(s) && MapSet(s, t, r, v, 0) && v < USERPAGES
    requires pa in s.own && s.own[pa] == User(r, v) && t.own == s.own[pa := Free] && t.data == s.data
    ensures Users(t)
  {
    forall r': nat, v': nat | v' < USERPAGES && PteOf(t, r', v') != 0
      ensures Pte2Pa(PteOf(t, r', v')) in t.own && t.own[Pte2Pa(PteOf(t, r', v'))] == User(r', v')
    {
      assert PteOf(t, r', v') == PteOf(s, r', v');
    }
    forall p | p in t.own && t.own[p].User?
      ensures t.own[p].vpn < USERPAGES && PteOf(t, t.own[p].root, t.own[p].vpn) != 0
              && Pte2Pa(PteOf(t, t.own[p].root, t.own[p].vpn)) == p && PageData(t, p)
    {
      assert s.own[p] == t.own[p];
      assert PteOf(t, s.own[p].root, s.own[p].vpn) == PteOf(s, s.own[p].root, s.own[p].vpn);
    }
  }

  /** A mapping outside user memory is removed; its page is not freed. */
  lemma KernelUnmapped(s: St, r: nat, v: nat)
    requires Inv(s) && USERPAGES <= v && PteOf(s, r, v) != 0
    ensures HasEntry(s, r, v)
    ensures Inv(WithPte(s, r, v, 0)) && MapSet(s, WithPte(s, r, v, 0), r, v, 0)
  {
    ChangedPte(s, r, v, 0);
    UsersKept(s, WithPte(s, r, v, 0));
  }

  /** User ownership does not depend on the mappings outside user memory. */
  lemma UsersKept(s: St, t: St)
    requires Pages(s) && Pages(t) && Users(s)
    requires forall r: nat, v: nat | v < USERPAGES :: PteOf(t, r, v) == PteOf(s, r, v)
    requires forall p | p in s.own && s.own[p].User? :: p in t.own && t.own[p] == s.own[p] && PageData(t, p)
    requires forall p | p in t.own && t.own[p].User? :: p in s.own && t.own[p] == s.own[p]
    ensures Users(t)
  {
    forall r: nat, v: nat | v < USERPAGES && PteOf(t, r, v) != 0
      ensures Pte2Pa(PteOf(t, r, v)) in t.own && t.own[Pte2Pa(PteOf(t, r, v))] == User(r, v)
    {
      assert PteOf(t, r, v) == PteOf(s, r, v);
    }
    forall p | p in t.own && t.own[p].User?
      ensures t.own[p].vpn < USERPAGES && PteOf(t, t.own[p].root, t.own[p].vpn) != 0
              && Pte2Pa(PteOf(t, t.own[p].root, t.own[p].vpn)) == p && PageData(t, p)
    {
      assert PteOf(t, s.own[p].root, s.own[p].vpn) == PteOf(s, s.own[p].root, s.own[p].vpn);
    }
  }

  /** A page gets a user mapping: it was in use for nothing else. */
  lemma UserMapped(s: St, t: St, r: nat, v: nat, pa: nat, perm: nat)
    requires Pages(s) && Users(s) && Tree(t) && v < USERPAGES && PteOf(s, r, v) == 0
    requires perm < 1024 && pa % PGSIZE == 0 && MapSet(s, t, r, v, MakePte(pa, perm))
    requires pa in t.own && t.own[pa] == Other && PageData(t, pa)
    requires forall p | p in s.own && s.own[p].User? :: p in t.own && t.own[p] == s.own[p] && PageData(t, p)
    requires forall p | p in t.own && t.own[p].User? :: p in s.own && t.own[p] == s.own[p]
    ensures Inv(WithOwner(t, pa, User(r, v))) && MapSet(s, WithOwner(t, pa, User(r, v)), r, v, MakePte(pa, perm))
  {
    hide Links, Leaves, FreeList;
    var u := WithOwner(t, pa, User(r, v));
    ChangedOwner(t, pa, User(r, v));
    PteRoundTrip(pa, perm);
    forall r': nat, v': nat ensures PteOf(u, r', v') == if r' == r && v' == v then MakePte(pa, perm) else PteOf(s, r', v') {
      assert PteOf(u, r', v') == PteOf(t, r', v');
    }
    forall r': nat, v': nat | v' < USERPAGES && PteOf(u, r', v') != 0
      ensures Pte2Pa(PteOf(u, r', v')) in u.own && u.own[Pte2Pa(PteOf(u, r', v'))] == User(r', v')
    {
      if r' != r || v' != v {
        assert PteOf(u, r', v') == PteOf(s, r', v');
      }
    }
    forall p | p in u.own && u.own[p].User?
      ensures u.own[p].vpn < USERPAGES && PteOf(u, u.own[p].root, u.own[p].vpn) != 0
              && Pte2Pa(PteOf(u, u.own[p].root, u.own[p].vpn)) == p && PageData(u, p)
    {
      if p != pa {
        assert s.own[p] == u.own[p];
        assert PteOf(s, s.own[p].root, s.own[p].vpn) != 0;
      }
    }
  }
}
